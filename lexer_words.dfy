/**
 * Facts about the words of the language: identifiers, keywords and numbers,
 * read by `readIdentifier` and `readNumber` in the `default` branch of the
 * lexer's switch (src/lexer.ts:158-169).
 */
module LexerWords {

  import opened Wrappers
  import opened Tokens
  import opened Errors
  import opened Scan
  import opened LexerFacts

  /** Every character of `w` belongs to `run`. */
  predicate AllIn(w: string, run: Run)
  {
    forall i :: 0 <= i < |w| ==> InRun(w[i], run)
  }

  /** The `k` characters after index `p` belong to `run`, and the one after them does not. */
  predicate RunAfter(src: string, p: nat, k: nat, run: Run)
  {
    && (forall i :: p < i <= p + k ==> InRun(CharAt(src, i), run))
    && !InRun(CharAt(src, p + k + 1), run)
  }

  /** The `while (isX(nextCharCode)) advance()` loops stop on the last character of the maximal run after the cursor. */
  lemma {:induction false} RunIsMaximal(st: LexState, run: Run)
    decreases |st.source| - st.position
    ensures RunAfter(st.source, st.position, AdvanceWhileNext(st, run).position - st.position, run)
  {
    if InRun(Following(st), run) {
      RunIsMaximal(Advance(st), run);
    }
  }

  /** Conversely, when exactly `k` characters of the run follow the cursor, the loop moves over exactly those. */
  lemma {:induction false} OverRun(st: LexState, k: nat, run: Run)
    requires RunAfter(st.source, st.position, k, run)
    ensures AdvanceWhileNext(st, run) == Moved(st, k)
    decreases k
  {
    if k > 0 {
      assert InRun(Following(st), run);
      assert RunAfter(st.source, st.position + 1, k - 1, run);
      OverRun(Advance(st), k - 1, run);
      assert Moved(Advance(st), k - 1) == Moved(st, k);
    }
  }

  // Identifiers and keywords

  /** `readIdentifier` takes the maximal run of letters at the cursor: a digit or any other character ends it. */
  lemma IdentifierIsMaximal(s: LexState)
    requires IsLetter(Current(s))
    ensures var (e, ident) := ReadIdentifier(s);
      && |ident| == e.position - s.position + 1
      && AllIn(ident, LetterRun)
      && Spells(s.source, s.position, ident)
      && !IsLetter(CharAt(s.source, e.position + 1))
  {
    var e := AdvanceWhileNext(s, LetterRun);
    RunIsMaximal(s, LetterRun);
    var ident := s.source[s.position..e.position + 1];
    assert ReadIdentifier(s).1 == ident;
    forall i | 0 <= i < |ident| ensures InRun(ident[i], LetterRun) && CharAt(s.source, s.position + i) == ident[i] {
      assert ident[i] == s.source[s.position + i];
      if i > 0 {
        assert InRun(CharAt(s.source, s.position + i), LetterRun);
      }
    }
  }

  /** A name resolves to a keyword's kind exactly when it lowercases to that keyword, whatever its case. */
  lemma KeywordMatchIgnoresCase(w: string, key: string)
    requires key in Keywords
    ensures ResolveIdentifier(w) == Keywords[key] <==> ToLower(w) == key
  {
    KeywordIsKeyword(key);
    if ToLower(w) in Keywords {
      KeywordIsKeyword(ToLower(w));
    }
  }

  /** A name is an identifier exactly when it lowercases to no keyword. */
  lemma IdentifierUnlessKeyword(w: string)
    ensures ResolveIdentifier(w) == Identifier <==> ToLower(w) !in Keywords
  {
    if ToLower(w) in Keywords {
      KeywordIsKeyword(ToLower(w));
    }
  }

  /**
   * A maximal run of letters lexes as one token: a keyword, whose value is
   * the lowercase keyword, or an Identifier carrying the text as written.
   * Its column is the one before its first character.
   */
  lemma {:induction false} IdentifierToken(st: LexState, w: string)
    requires var s := SkipWhitespace(st);
      && |w| > 0 && AllIn(w, LetterRun) && Spells(s.source, s.position, w)
      && !IsLetter(CharAt(s.source, s.position + |w|))
    ensures Next(st) == Lexed(Moved(SkipWhitespace(st), |w|), Ok(WordToken(SkipWhitespace(st), w)))
  {
    var s := SkipWhitespace(st);
    IdentifierRead(s, w);
    assert Advance(Moved(s, |w| - 1)) == Moved(s, |w|);
    NextOnWordOk(st, s, Moved(s, |w| - 1), WordToken(s, w));
  }

  /**
   * The token for the word `w` read from `s` on: a keyword's kind with the
   * lowercase keyword as its value, or an Identifier carrying `w` as written.
   */
  function WordToken(s: LexState, w: string): Token
    requires |w| > 0
  {
    var kind := ResolveIdentifier(w);
    Token(kind, if kind == Identifier then w else ToLower(w), s.line, s.column - 1, s.position + |w| - 1)
  }

  /** The default branch on a maximal run of letters `w`. */
  lemma IdentifierRead(s: LexState, w: string)
    requires && |w| > 0 && AllIn(w, LetterRun) && Spells(s.source, s.position, w)
      && !IsLetter(CharAt(s.source, s.position + |w|))
    ensures Current(s) == w[0] && IsLetter(w[0])
    ensures ReadOther(s) == (Moved(s, |w| - 1), Ok(WordToken(s, w)))
  {
    LetterRunRead(s, w);
    if ResolveIdentifier(w) != Identifier {
      KeywordIsKeyword(ToLower(w));
    }
  }

  /** `readIdentifier` on a maximal run of letters `w` stops on its last letter with `w` as its text. */
  lemma LetterRunRead(s: LexState, w: string)
    requires && |w| > 0 && AllIn(w, LetterRun) && Spells(s.source, s.position, w)
      && !IsLetter(CharAt(s.source, s.position + |w|))
    ensures Current(s) == w[0] && IsLetter(w[0])
    ensures ReadIdentifier(s) == (Moved(s, |w| - 1), w)
  {
    assert Current(s) == w[0] && IsLetter(w[0]);
    LetterRunAfter(s, w);
    OverRun(s, |w| - 1, LetterRun);
    LetterRunInside(s, w);
    SubstringOfSpelled(s.source, s.position, w);
  }

  /** The letters of `w` after its first one are the run that `readIdentifier`'s loop passes. */
  lemma {:induction false} LetterRunAfter(s: LexState, w: string)
    requires && |w| > 0 && AllIn(w, LetterRun) && Spells(s.source, s.position, w)
      && !IsLetter(CharAt(s.source, s.position + |w|))
    ensures RunAfter(s.source, s.position, |w| - 1, LetterRun)
  {
    forall i | s.position < i <= s.position + |w| - 1 ensures InRun(CharAt(s.source, i), LetterRun) {
      assert CharAt(s.source, s.position + (i - s.position)) == w[i - s.position];
    }
  }

  /** A run of letters spelt in the source lies inside it. */
  lemma {:induction false} LetterRunInside(s: LexState, w: string)
    requires |w| > 0 && AllIn(w, LetterRun) && Spells(s.source, s.position, w)
    ensures s.position + |w| <= |s.source|
  {
    assert CharAt(s.source, s.position + |w| - 1) == w[|w| - 1];
  }

  /** A word that the default branch reads as a token makes `next()` yield it and step past it. */
  lemma {:induction false} NextOnWordOk(st: LexState, s: LexState, a: LexState, t: Token)
    requires s == SkipWhitespace(st) && StartsWord(Current(s))
    requires ReadOther(s) == (a, Ok(t))
    ensures Next(st) == Lexed(Advance(a), Ok(t))
  {
    WordRead(s);
    NextFrom(st, s);
  }

  /** The lexer's keyword test: `if`, in any case, is the If keyword with value `if`. */
  lemma IfKeyword(w: string)
    requires w == "if" || w == "If" || w == "iF" || w == "IF"
    ensures Next(Init(w)).result == Ok(Token(If, "if", 1, 0, 1))
  {
    assert SkipWhitespace(Init(w)) == Init(w);
    assert ToLower(w) == "if";
    IdentifierToken(Init(w), w);
  }

  // Numbers

  /** An exponent as written: `e` or `E`, an optional sign, then digits. */
  datatype Exponent = Exponent(letter: char, sign: Option<char>, digits: string)

  /**
   * A number as written: an optional minus, the integer digits, an optional
   * fraction (the digits after the `.`) and an optional exponent.
   */
  datatype NumberText = NumberText(minus: bool, integer: string, fraction: Option<string>, exponent: Option<Exponent>)

  function FractionText(f: Option<string>): string
  {
    if f.Some? then "." + f.value else ""
  }

  function ExponentText(x: Option<Exponent>): string
  {
    if x.Some? then [x.value.letter] + (if x.value.sign.Some? then [x.value.sign.value] else "") + x.value.digits else ""
  }

  /** The characters of the number. */
  function Text(n: NumberText): string
  {
    (if n.minus then "-" else "") + n.integer + FractionText(n.fraction) + ExponentText(n.exponent)
  }

  /** `0` alone, or a nonzero digit followed by digits. */
  predicate IntegerDigits(d: string)
  {
    d == "0" || (|d| > 0 && '1' <= d[0] <= '9' && AllIn(d, DigitRun))
  }

  predicate ExponentForm(x: Exponent)
  {
    && (x.letter == 'e' || x.letter == 'E')
    && (x.sign.Some? ==> x.sign.value == '+' || x.sign.value == '-')
    && AllIn(x.digits, DigitRun)
  }

  /** The shapes `readNumber` reads: `-?(0|[1-9][0-9]*)(\.[0-9]*)?([eE][+-]?[0-9]*)?`; the digits after `.` or the exponent's letter may be missing. */
  predicate Lexable(n: NumberText)
  {
    && IntegerDigits(n.integer)
    && (n.fraction.Some? ==> AllIn(n.fraction.value, DigitRun))
    && (n.exponent.Some? ==> ExponentForm(n.exponent.value))
  }

  /** A number as section 6 of RFC 8259 defines it: a fraction and an exponent each need at least one digit. */
  predicate IsJsonNumber(n: NumberText)
  {
    && IntegerDigits(n.integer)
    && (n.fraction.Some? ==> |n.fraction.value| > 0 && AllIn(n.fraction.value, DigitRun))
    && (n.exponent.Some? ==> |n.exponent.value.digits| > 0 && ExponentForm(n.exponent.value))
  }

  /**
   * `c`, the character after the number, ends it: `readNumber` would not
   * take it as one more digit, `.`, exponent letter or exponent sign.
   * After a lone `0` with nothing else a digit ends the number too.
   */
  predicate Ends(n: NumberText, c: char)
  {
    match n.exponent
    case Some(x) => !IsNumber(c) && (x.sign.None? && x.digits == "" ==> c != '+' && c != '-')
    case None =>
      && c != 'e' && c != 'E'
      && (n.fraction.Some? ==> !IsNumber(c))
      && (n.fraction.None? ==> c != '.' && (n.integer != "0" ==> !IsNumber(c)))
  }

  /** A lexable number is spelt at `p` and the character after it ends it. */
  predicate NumberAt(src: string, p: nat, n: NumberText)
  {
    Lexable(n) && Spells(src, p, Text(n)) && Ends(n, CharAt(src, p + |Text(n)|))
  }

  lemma JsonNumberIsLexable(n: NumberText)
    requires IsJsonNumber(n)
    ensures Lexable(n)
    ensures Ends(n, '\0')
  {
  }

  /** The characters spelt by `x + y` at `p` are those of `x` at `p`, then those of `y`. */
  lemma SpellsConcat(src: string, p: nat, x: string, y: string)
    requires Spells(src, p, x + y)
    ensures Spells(src, p, x) && Spells(src, p + |x|, y)
  {
    forall i | 0 <= i < |x| ensures CharAt(src, p + i) == x[i] {
      assert (x + y)[i] == x[i];
    }
    forall i | 0 <= i < |y| ensures CharAt(src, p + |x| + i) == y[i] {
      assert (x + y)[|x| + i] == y[i];
      assert CharAt(src, p + (|x| + i)) == (x + y)[|x| + i];
    }
  }

  lemma SpellsHead(src: string, p: nat, b: string)
    requires Spells(src, p, b) && |b| > 0
    ensures CharAt(src, p) == b[0]
  {
    assert CharAt(src, p + 0) == b[0];
  }

  /** Digits spelt just after index `p`, and a character that is no digit after them, are a run of digits after `p`. */
  lemma DigitsAfter(src: string, p: nat, d: string)
    requires AllIn(d, DigitRun) && Spells(src, p + 1, d) && !IsNumber(CharAt(src, p + 1 + |d|))
    ensures RunAfter(src, p, |d|, DigitRun)
  {
    forall i | p < i <= p + |d| ensures InRun(CharAt(src, i), DigitRun) {
      assert CharAt(src, p + 1 + (i - p - 1)) == d[i - p - 1];
    }
  }

  /** The integer part: the cursor ends on its last digit. */
  lemma IntegerRead(a: LexState, d: string, next: char)
    requires IntegerDigits(d) && Spells(a.source, a.position, d) && CharAt(a.source, a.position + |d|) == next
    requires d != "0" ==> !IsNumber(next)
    ensures IntegerPart(a) == Moved(a, |d| - 1)
  {
    assert Current(a) == d[0];
    if d != "0" {
      assert Spells(a.source, a.position + 1, d[1..]) by {
        SpellsSuffix(a.source, a.position, d, 1);
      }
      DigitsAfter(a.source, a.position, d[1..]);
      OverRun(a, |d| - 1, DigitRun);
    }
  }

  /** The fraction part, entered on the last integer digit. */
  lemma FractionRead(i: LexState, f: Option<string>, next: char)
    requires f.Some? ==> AllIn(f.value, DigitRun)
    requires Spells(i.source, i.position + 1, FractionText(f)) && CharAt(i.source, i.position + 1 + |FractionText(f)|) == next
    requires f.Some? ==> !IsNumber(next)
    requires f.None? ==> next != '.'
    ensures FractionPart(i) == Moved(i, |FractionText(f)|)
  {
    if f.Some? {
      SpellsHead(i.source, i.position + 1, FractionText(f));
      SpellsConcat(i.source, i.position + 1, ".", f.value);
      DigitsAfter(i.source, i.position + 1, f.value);
      OverRun(Advance(i), |f.value|, DigitRun);
      assert Moved(Advance(i), |f.value|) == Moved(i, |FractionText(f)|);
    }
  }

  /** The exponent part, entered on the last character before it. */
  lemma ExponentRead(f: LexState, x: Option<Exponent>, next: char)
    requires x.Some? ==> ExponentForm(x.value)
    requires Spells(f.source, f.position + 1, ExponentText(x)) && CharAt(f.source, f.position + 1 + |ExponentText(x)|) == next
    requires x.Some? ==> !IsNumber(next) && (x.value.sign.None? && x.value.digits == "" ==> next != '+' && next != '-')
    requires x.None? ==> next != 'e' && next != 'E'
    ensures ExponentPart(f) == Moved(f, |ExponentText(x)|)
  {
    if x.Some? {
      var e := x.value;
      var signText := if e.sign.Some? then [e.sign.value] else "";
      SpellsConcat(f.source, f.position + 1, [e.letter] + signText, e.digits);
      SpellsConcat(f.source, f.position + 1, [e.letter], signText);
      SpellsHead(f.source, f.position + 1, [e.letter]);
      if e.sign.Some? {
        SignedExponent(f, e, next);
      } else {
        UnsignedExponent(f, e, next);
      }
    }
  }

  lemma SignedExponent(f: LexState, e: Exponent, next: char)
    requires ExponentForm(e) && e.sign.Some? && Following(f) == e.letter
    requires Spells(f.source, f.position + 2, [e.sign.value]) && Spells(f.source, f.position + 3, e.digits)
    requires CharAt(f.source, f.position + 3 + |e.digits|) == next && !IsNumber(next)
    ensures ExponentPart(f) == Moved(f, 2 + |e.digits|)
  {
    var a := Advance(f);
    SpellsHead(f.source, f.position + 2, [e.sign.value]);
    DigitsAfter(f.source, f.position + 2, e.digits);
    OverRun(Advance(a), |e.digits|, DigitRun);
    assert Moved(Advance(a), |e.digits|) == Moved(f, 2 + |e.digits|);
  }

  lemma UnsignedExponent(f: LexState, e: Exponent, next: char)
    requires ExponentForm(e) && e.sign.None? && Following(f) == e.letter
    requires Spells(f.source, f.position + 2, e.digits)
    requires CharAt(f.source, f.position + 2 + |e.digits|) == next && !IsNumber(next)
    requires e.digits == "" ==> next != '+' && next != '-'
    ensures ExponentPart(f) == Moved(f, 1 + |e.digits|)
  {
    var a := Advance(f);
    if |e.digits| > 0 {
      SpellsHead(f.source, f.position + 2, e.digits);
    }
    DigitsAfter(f.source, f.position + 1, e.digits);
    OverRun(a, |e.digits|, DigitRun);
    assert Moved(a, |e.digits|) == Moved(f, 1 + |e.digits|);
  }

  /** The character at `q`, where `t` is spelt and `c` follows it: the first of `t`, or `c` when `t` is empty. */
  function FirstOr(t: string, c: char): char
  {
    if |t| > 0 then t[0] else c
  }

  lemma SpellsFirstOr(src: string, q: nat, t: string, c: char)
    requires Spells(src, q, t) && CharAt(src, q + |t|) == c
    ensures CharAt(src, q) == FirstOr(t, c)
  {
    if |t| > 0 {
      SpellsHead(src, q, t);
    }
  }

  /**
   * `readNumber` on a lexable number followed by a character that ends it
   * reads exactly that number: the cursor stops on its last character and
   * the lexeme is its text.
   */
  lemma NumberRead(s: LexState, n: NumberText)
    requires NumberAt(s.source, s.position, n)
    ensures IsNumber(Current(s)) || Current(s) == '-'
    ensures ReadNumber(s) == (Moved(s, |Text(n)| - 1), Ok(Text(n)))
  {
    NumberReadEnd(s, n);
    SubstringOfSpelled(s.source, s.position, Text(n));
  }

  /** The text spelt at `p`, when it lies inside the source, is the substring there. */
  lemma SubstringOfSpelled(src: string, p: nat, b: string)
    requires Spells(src, p, b) && p + |b| <= |src|
    ensures Substring(src, p, p + |b|) == b
  {
    SpelledSlice(src, p, b);
  }

  /** Where `readNumber` stops on a lexable number, and that the number lies inside the source. */
  lemma NumberReadEnd(s: LexState, n: NumberText)
    requires NumberAt(s.source, s.position, n)
    ensures IsNumber(Current(s)) || Current(s) == '-'
    ensures s.position + |Text(n)| <= |s.source|
    ensures ReadNumber(s) == (Moved(s, |Text(n)| - 1), Ok(Substring(s.source, s.position, s.position + |Text(n)|)))
  {
    NumberLayout(s.source, s.position, n);
    NumberOnParts(s, n, CharAt(s.source, s.position + |Text(n)|));
    ReadNumberOnDigit(s, if n.minus then 1 else 0, |Text(n)|);
  }

  /** The loops of `readNumber` on the parts of a lexable number, laid out from the cursor on and followed by `c`. */
  lemma NumberOnParts(s: LexState, n: NumberText, c: char)
    requires Lexable(n) && Ends(n, c)
    requires n.minus ==> Current(s) == '-'
    requires PartsAt(s.source, s.position + (if n.minus then 1 else 0), n.integer, FractionText(n.fraction), ExponentText(n.exponent), c)
    ensures var m := if n.minus then 1 else 0;
      var k := m + |n.integer| + |FractionText(n.fraction)| + |ExponentText(n.exponent)|;
      && (m == if Current(s) == '-' then 1 else 0)
      && IsNumber(Current(Moved(s, m)))
      && ExponentPart(FractionPart(IntegerPart(Moved(s, m)))) == Moved(s, k - 1)
  {
    var m := if n.minus then 1 else 0;
    NumberSign(s.source, s.position, n);
    IntegerStops(s.source, s.position + m, n, c);
    EndsTail(n, c);
    NumberParts(s, if n.minus then 1 else 0, n.integer, n.fraction, n.exponent, c);
  }

  /** Where the parts of a number spelt at `p` lie. */
  lemma NumberLayout(src: string, p: nat, n: NumberText)
    requires Spells(src, p, Text(n))
    ensures var m := if n.minus then 1 else 0;
      && |Text(n)| == m + |n.integer| + |FractionText(n.fraction)| + |ExponentText(n.exponent)|
      && (n.minus ==> CharAt(src, p) == '-')
      && PartsAt(src, p + m, n.integer, FractionText(n.fraction), ExponentText(n.exponent), CharAt(src, p + |Text(n)|))
  {
    var sign := if n.minus then "-" else "";
    var F, E := FractionText(n.fraction), ExponentText(n.exponent);
    SpellsConcat(src, p, sign + n.integer + F, E);
    SpellsConcat(src, p, sign + n.integer, F);
    SpellsConcat(src, p, sign, n.integer);
    if n.minus {
      SpellsHead(src, p, sign);
    }
  }

  /** A number spelt at `p` starts with `-` exactly when it has a minus sign. */
  lemma {:induction false} NumberSign(src: string, p: nat, n: NumberText)
    requires IntegerDigits(n.integer)
    requires n.minus ==> CharAt(src, p) == '-'
    requires Spells(src, p + (if n.minus then 1 else 0), n.integer)
    ensures CharAt(src, p) == '-' <==> n.minus
  {
    SpellsHead(src, p + (if n.minus then 1 else 0), n.integer);
  }

  /** The integer loop of `readNumber` stops after a nonzero integer part: what follows it is no digit. */
  lemma {:induction false} IntegerStops(src: string, q: nat, n: NumberText, c: char)
    requires Lexable(n) && Ends(n, c)
    requires PartsAt(src, q, n.integer, FractionText(n.fraction), ExponentText(n.exponent), c)
    ensures n.integer != "0" ==> !IsNumber(CharAt(src, q + |n.integer|))
  {
    var d := CharAt(src, q + |n.integer|);
    AfterInteger(src, q + |n.integer|, n.fraction, n.exponent, c);
    if n.fraction.Some? {
      assert d == '.';
    } else if n.exponent.Some? {
      assert d == 'e' || d == 'E';
    } else {
      assert d == c;
    }
  }

  /** The condition `Ends` puts on what follows the fraction and the exponent. */
  lemma {:induction false} EndsTail(n: NumberText, c: char)
    requires Ends(n, c)
    ensures TailStops(n.fraction, n.exponent, c)
  {
  }

  /** `I`, `F` and `E` are spelt one after another from index `q` on, and `c` follows them. */
  predicate PartsAt(src: string, q: nat, I: string, F: string, E: string, c: char)
  {
    && Spells(src, q, I)
    && Spells(src, q + |I|, F)
    && Spells(src, q + |I| + |F|, E)
    && CharAt(src, q + |I| + |F| + |E|) == c
  }

  /** The condition `Ends` puts on what follows the fraction and the exponent. */
  predicate TailStops(f: Option<string>, x: Option<Exponent>, c: char)
  {
    && (x.Some? ==> !IsNumber(c) && (x.value.sign.None? && x.value.digits == "" ==> c != '+' && c != '-'))
    && (x.None? ==> c != 'e' && c != 'E' && (f.Some? ==> !IsNumber(c)) && (f.None? ==> c != '.'))
  }

  /** The three parts after the optional minus, each spelt where the one before it ends, take the cursor to the number's last character. */
  lemma NumberParts(s: LexState, m: nat, I: string, f: Option<string>, x: Option<Exponent>, c: char)
    requires IntegerDigits(I) && (f.Some? ==> AllIn(f.value, DigitRun)) && (x.Some? ==> ExponentForm(x.value))
    requires PartsAt(s.source, s.position + m, I, FractionText(f), ExponentText(x), c)
    requires I != "0" ==> !IsNumber(CharAt(s.source, s.position + m + |I|))
    requires TailStops(f, x, c)
    ensures IsNumber(Current(Moved(s, m)))
    ensures ExponentPart(FractionPart(IntegerPart(Moved(s, m)))) == Moved(s, m + |I| + |FractionText(f)| + |ExponentText(x)| - 1)
  {
    var a := Moved(s, m);
    SpellsHead(s.source, s.position + m, I);
    IntegerRead(a, I, CharAt(s.source, s.position + m + |I|));
    var i := Moved(a, |I| - 1);
    TailParts(i, f, x, c);
    assert Moved(i, |FractionText(f)| + |ExponentText(x)|) == Moved(s, m + |I| + |FractionText(f)| + |ExponentText(x)| - 1);
  }

  /** `readNumber` when a digit follows the optional minus: the lexeme runs to where the three parts end. */
  lemma ReadNumberOnDigit(s: LexState, m: nat, k: nat)
    requires m == if Current(s) == '-' then 1 else 0
    requires k > 0 && IsNumber(Current(Moved(s, m))) && ExponentPart(FractionPart(IntegerPart(Moved(s, m)))) == Moved(s, k - 1)
    ensures s.position + k <= |s.source|
    ensures ReadNumber(s) == (Moved(s, k - 1), Ok(Substring(s.source, s.position, s.position + k)))
  {
    assert (if Current(s) == '-' then Advance(s) else s) == Moved(s, m);
  }

  /** The character after the integer part: `.`, an exponent letter, or the one after the number. */
  lemma AfterInteger(src: string, q: nat, f: Option<string>, x: Option<Exponent>, c: char)
    requires Spells(src, q, FractionText(f)) && Spells(src, q + |FractionText(f)|, ExponentText(x))
    requires CharAt(src, q + |FractionText(f)| + |ExponentText(x)|) == c
    ensures f.Some? ==> CharAt(src, q) == '.'
    ensures f.None? && x.Some? ==> CharAt(src, q) == x.value.letter
    ensures f.None? && x.None? ==> CharAt(src, q) == c
  {
    SpellsFirstOr(src, q + |FractionText(f)|, ExponentText(x), c);
    SpellsFirstOr(src, q, FractionText(f), FirstOr(ExponentText(x), c));
  }

  /** The fraction and the exponent, entered on the last integer digit. */
  lemma TailParts(i: LexState, f: Option<string>, x: Option<Exponent>, c: char)
    requires f.Some? ==> AllIn(f.value, DigitRun)
    requires x.Some? ==> ExponentForm(x.value)
    requires var F, E := FractionText(f), ExponentText(x);
      && Spells(i.source, i.position + 1, F) && Spells(i.source, i.position + 1 + |F|, E)
      && CharAt(i.source, i.position + 1 + |F| + |E|) == c
    requires TailStops(f, x, c)
    ensures ExponentPart(FractionPart(i)) == Moved(i, |FractionText(f)| + |ExponentText(x)|)
  {
    var F, E := FractionText(f), ExponentText(x);
    var afterF := FirstOr(E, c);
    SpellsFirstOr(i.source, i.position + 1 + |F|, E, c);
    FractionRead(i, f, afterF);
    var g := Moved(i, |F|);
    ExponentRead(g, x, c);
    assert Moved(g, |E|) == Moved(i, |F| + |E|);
  }

  /** The default branch on a lexable number: one Number token whose text is the number as written. */
  lemma NumberOther(s: LexState, n: NumberText)
    requires NumberAt(s.source, s.position, n)
    ensures StartsWord(Current(s))
    ensures ReadOther(s) == (Moved(s, |Text(n)| - 1), Ok(NumberToken(s, n)))
  {
    NumberRead(s, n);
    var e := Moved(s, |Text(n)| - 1);
    ReadOtherNumber(s, e, Text(n));
    assert NewToken(e, Number, Some(Text(n))) == NumberToken(s, n);
  }

  /** The default branch on a digit or `-`, when readNumber succeeds: a Number token with its text. */
  lemma {:induction false} ReadOtherNumber(s: LexState, e: LexState, text: string)
    requires IsNumber(Current(s)) || Current(s) == '-'
    requires ReadNumber(s) == (e, Ok(text))
    ensures ReadOther(s) == (e, Ok(NewToken(e, Number, Some(text))))
  {
  }

  /** The Number token for `n` read from `s` on: its text as written. */
  function NumberToken(s: LexState, n: NumberText): Token
    requires |Text(n)| > 0
  {
    Token(Number, Text(n), s.line, s.column - 1, s.position + |Text(n)| - 1)
  }

  /**
   * A lexable number followed by a character that ends it lexes as one
   * Number token whose value is the number's text as written.
   */
  lemma {:induction false} NumberLexes(st: LexState, n: NumberText)
    requires var s := SkipWhitespace(st); NumberAt(s.source, s.position, n)
    ensures Next(st) == Lexed(Moved(SkipWhitespace(st), |Text(n)|), Ok(NumberToken(SkipWhitespace(st), n)))
  {
    var s := SkipWhitespace(st);
    NumberOther(s, n);
    assert Advance(Moved(s, |Text(n)| - 1)) == Moved(s, |Text(n)|);
    NextOnWordOk(st, s, Moved(s, |Text(n)| - 1), NumberToken(s, n));
  }

  /**
   * Every number that section 6 of RFC 8259 allows, as the whole input,
   * lexes to one Number token whose text is the input, and then to EOF.
   */
  lemma JsonNumberLexes(n: NumberText)
    requires IsJsonNumber(n)
    ensures var l := Next(Init(Text(n)));
      && l.result == Ok(Token(Number, Text(n), 1, 0, |Text(n)| - 1))
      && Next(l.state).result.Ok? && Next(l.state).result.value.kind == EOF
  {
    JsonNumberFirst(Text(n), n);
    EofAtEnd(Moved(Init(Text(n)), |Text(n)|));
  }

  /** The first token of a JSON number, as the whole input, is the number, and the cursor ends past the input. */
  lemma {:induction false} JsonNumberFirst(src: string, n: NumberText)
    requires IsJsonNumber(n) && src == Text(n)
    ensures Next(Init(src)) == Lexed(Moved(Init(src), |src|), Ok(Token(Number, src, 1, 0, |src| - 1)))
  {
    var st := Init(src);
    JsonNumberIsLexable(n);
    assert Spells(src, 0, src);
    NoBlankBeforeNumber(st, n);
    assert CharAt(src, |src|) == '\0';
    NumberLexes(st, n);
    assert Next(st) == Lexed(Moved(st, |src|), Ok(NumberToken(st, n)));
    assert NumberToken(st, n) == Token(Number, src, 1, 0, |src| - 1);
  }

  /** A number starts with `-` or a digit, so no whitespace is skipped before it. */
  lemma {:induction false} NoBlankBeforeNumber(st: LexState, n: NumberText)
    requires Lexable(n) && Spells(st.source, st.position, Text(n))
    ensures SkipWhitespace(st) == st
  {
    NumberLayout(st.source, st.position, n);
    SpellsHead(st.source, st.position + (if n.minus then 1 else 0), n.integer);
  }

  /** `012` is two numbers: `0` and then `12`; a leading zero is not rejected. */
  lemma LeadingZero()
    ensures var l := Next(Init("012"));
      && l.result == Ok(Token(Number, "0", 1, 0, 0))
      && Next(l.state).result == Ok(Token(Number, "12", 1, 1, 2))
  {
    ZeroLexes("012");
    TwelveLexes("012");
  }

  /** The first token of `012` is the number `0`, lexed from the first character alone. */
  lemma {:induction false} ZeroLexes(src: string)
    requires src == "012"
    ensures Next(Init(src)) == Lexed(Moved(Init(src), 1), Ok(Token(Number, "0", 1, 0, 0)))
  {
    var zero := NumberText(false, "0", None, None);
    assert Text(zero) == "0";
    NoBlankBeforeNumber(Init(src), zero);
    NumberLexes(Init(src), zero);
  }

  /** After the `0` of `012`, the rest lexes as the number `12`. */
  lemma {:induction false} TwelveLexes(src: string)
    requires src == "012"
    ensures Next(Moved(Init(src), 1)).result == Ok(Token(Number, "12", 1, 1, 2))
  {
    var twelve := NumberText(false, "12", None, None);
    assert Text(twelve) == "12";
    var b := Moved(Init(src), 1);
    NoBlankBeforeNumber(b, twelve);
    NumberLexes(b, twelve);
  }

  /** `next()` throws 'Invalid number' exactly when the token starts with a `-` that no digit follows. */
  lemma {:induction false} InvalidNumberIff(st: LexState)
    ensures var s := SkipWhitespace(st);
      Next(st).result == Err(InvalidNumber) <==> Current(s) == '-' && !IsNumber(Following(s))
  {
    var s := SkipWhitespace(st);
    ReadTokenInvalidNumberIff(s);
    NextFrom(st, s);
  }

  lemma ReadTokenInvalidNumberIff(s: LexState)
    ensures ReadToken(s).1 == Err(InvalidNumber) <==> Current(s) == '-' && !IsNumber(Following(s))
  {
    if Current(s) == '"' || Current(s) == '\'' {
      QuoteRead(s);
      StringLoopErrors(Advance(s), Current(s));
    } else if StartsWord(Current(s)) {
      WordRead(s);
    } else {
      ReadTokenFailsOnlyOnStringsAndNumbers(s);
    }
  }

  // The converse: what readNumber reads

  /** The characters of the source from `p` up to `q` are spelt at `p`. */
  lemma SliceSpells(src: string, p: nat, q: nat)
    requires p <= q <= |src|
    ensures Spells(src, p, src[p..q])
  {
  }

  /** `x` spelt at `p` and `y` right after it spell `x + y` at `p`. */
  lemma {:induction false} SpellsJoin(src: string, p: nat, x: string, y: string)
    requires Spells(src, p, x) && Spells(src, p + |x|, y)
    ensures Spells(src, p, x + y)
  {
    forall i | 0 <= i < |x + y| ensures CharAt(src, p + i) == (x + y)[i] {
      if i >= |x| {
        assert CharAt(src, p + |x| + (i - |x|)) == y[i - |x|];
      }
    }
  }

  /** The integer digits `readNumber` takes from `a` on, read back from the source. */
  function IntegerSeen(a: LexState): string
    requires a.position < |a.source|
  {
    a.source[a.position..IntegerPart(a).position + 1]
  }

  /** The fraction digits `readNumber` takes after the integer part ending at `i`, if there is a `.`. */
  function FractionSeen(i: LexState): Option<string>
    requires i.position < |i.source|
  {
    if Following(i) == '.' then Some(i.source[i.position + 2..FractionPart(i).position + 1]) else None
  }

  /** The sign `readNumber` takes after an exponent letter at `x`, if any. */
  function SignSeen(x: LexState): Option<char>
  {
    if Following(x) == '+' || Following(x) == '-' then Some(Following(x)) else None
  }

  /** Where the cursor is after the exponent letter at `x` and the sign taken after it. */
  function SignEnd(x: LexState): LexState
  {
    if SignSeen(x).Some? then Advance(x) else x
  }

  /** The exponent `readNumber` takes after the part ending at `g`, if there is an exponent letter. */
  function ExponentSeen(g: LexState): Option<Exponent>
    requires g.position < |g.source|
  {
    if Following(g) == 'e' || Following(g) == 'E' then
      var y := SignEnd(Advance(g));
      var h := AdvanceWhileNext(y, DigitRun);
      Some(Exponent(Following(g), SignSeen(Advance(g)), g.source[y.position + 1..h.position + 1]))
    else None
  }

  /** 1 when the number starts with `-`, else 0. */
  function SignWidth(s: LexState): nat
  {
    if Current(s) == '-' then 1 else 0
  }

  /** The cursor after the optional minus. */
  function AfterSign(s: LexState): LexState
  {
    Moved(s, SignWidth(s))
  }

  /** The number `readNumber` reads from `s`, part by part, read back from the source. */
  function NumberSeen(s: LexState): NumberText
    requires IsNumber(Current(AfterSign(s)))
  {
    var a := AfterSign(s);
    var i := IntegerPart(a);
    NumberText(Current(s) == '-', IntegerSeen(a), FractionSeen(i), ExponentSeen(FractionPart(i)))
  }

  /** The integer loop stops on the last digit of a lone `0`, or of a nonzero digit and the digits after it. */
  lemma {:induction false} IntegerSeenParts(a: LexState)
    requires IsNumber(Current(a))
    ensures a.position < |a.source|
    ensures var I := IntegerSeen(a);
      && IntegerDigits(I) && Spells(a.source, a.position, I)
      && IntegerPart(a).position == a.position + |I| - 1
      && (I != "0" ==> !IsNumber(Following(IntegerPart(a))))
  {
    var src, I := a.source, IntegerSeen(a);
    SliceSpells(src, a.position, IntegerPart(a).position + 1);
    if Current(a) == '0' {
      assert I == [src[a.position]];
    } else {
      RunIsMaximal(a, DigitRun);
      forall j | 0 <= j < |I| ensures InRun(I[j], DigitRun) {
        assert I[j] == CharAt(src, a.position + j);
      }
      assert I[0] == Current(a);
    }
  }

  /** The digit loop from `y` takes the maximal run of digits after the cursor. */
  lemma {:induction false} DigitsSeenParts(y: LexState)
    requires y.position < |y.source|
    ensures var r := AdvanceWhileNext(y, DigitRun);
      var d := y.source[y.position + 1..r.position + 1];
      && AllIn(d, DigitRun) && Spells(y.source, y.position + 1, d)
      && r.position == y.position + |d| && !IsNumber(Following(r))
  {
    var r := AdvanceWhileNext(y, DigitRun);
    var d := y.source[y.position + 1..r.position + 1];
    RunIsMaximal(y, DigitRun);
    SliceSpells(y.source, y.position + 1, r.position + 1);
    forall j | 0 <= j < |d| ensures InRun(d[j], DigitRun) {
      assert d[j] == CharAt(y.source, y.position + 1 + j);
    }
  }

  /** The fraction loop takes a `.` and the maximal run of digits after it, or nothing when no `.` follows. */
  lemma {:induction false} FractionSeenParts(i: LexState)
    requires i.position < |i.source|
    ensures var f, g := FractionSeen(i), FractionPart(i);
      && (f.Some? ==> AllIn(f.value, DigitRun) && !IsNumber(Following(g)))
      && (f.None? ==> g == i && Following(i) != '.')
      && Spells(i.source, i.position + 1, FractionText(f))
      && g.position == i.position + |FractionText(f)|
  {
    if Following(i) == '.' {
      var src := i.source;
      DigitsSeenParts(Advance(i));
      assert Spells(src, i.position + 1, ".") by {
        assert CharAt(src, i.position + 1 + 0) == '.';
      }
      SpellsJoin(src, i.position + 1, ".", FractionSeen(i).value);
    }
  }

  /** The exponent loop takes a letter, an optional sign and the maximal run of digits after them, or nothing when no letter follows. */
  lemma {:induction false} ExponentSeenParts(g: LexState)
    requires g.position < |g.source|
    ensures var x, h := ExponentSeen(g), ExponentPart(g);
      && (x.Some? ==> ExponentForm(x.value) && !IsNumber(Following(h)))
      && (x.Some? && x.value.sign.None? && x.value.digits == "" ==> Following(h) != '+' && Following(h) != '-')
      && (x.None? ==> h == g && Following(g) != 'e' && Following(g) != 'E')
      && Spells(g.source, g.position + 1, ExponentText(x))
      && h.position == g.position + |ExponentText(x)|
  {
    if Following(g) == 'e' || Following(g) == 'E' {
      LetterSeenParts(g);
    }
  }

  /** After an exponent letter: the letter, the sign taken after it, and the digits after both. */
  lemma {:induction false} LetterSeenParts(g: LexState)
    requires g.position < |g.source| && (Following(g) == 'e' || Following(g) == 'E')
    ensures ExponentSeen(g).Some?
    ensures var e, h := ExponentSeen(g).value, ExponentPart(g);
      && ExponentForm(e) && !IsNumber(Following(h))
      && (e.sign.None? && e.digits == "" ==> Following(h) != '+' && Following(h) != '-')
      && Spells(g.source, g.position + 1, ExponentText(Some(e)))
      && h.position == g.position + |ExponentText(Some(e))|
  {
    ExponentSeenShape(g);
    ExponentAfterLetter(g);
    LetterDigits(g);
    ExponentSpelled(g);
  }

  /** The exponent as the source holds it after `g` has the form of one, and the digit loop stops after it. */
  lemma {:induction false} LetterDigits(g: LexState)
    requires g.position < |g.source| && (Following(g) == 'e' || Following(g) == 'E')
    ensures var x := Advance(g);
      var y := SignEnd(x);
      var h := AdvanceWhileNext(y, DigitRun);
      var e := Exponent(Following(g), SignSeen(x), g.source[y.position + 1..h.position + 1]);
      && ExponentForm(e) && !IsNumber(Following(h))
      && (e.sign.None? && e.digits == "" ==> Following(h) != '+' && Following(h) != '-')
      && h.position == g.position + |ExponentText(Some(e))|
  {
    var x := Advance(g);
    SignEndBounds(x);
    DigitsSeenParts(SignEnd(x));
  }

  /** The letter, the sign and the digits of the exponent are spelt one after another after `g`. */
  lemma {:induction false} ExponentSpelled(g: LexState)
    requires g.position < |g.source| && (Following(g) == 'e' || Following(g) == 'E')
    ensures Spells(g.source, g.position + 1, ExponentText(ExponentSeen(g)))
  {
    var y := SignEnd(Advance(g));
    ExponentSeenShape(g);
    ExponentSliceBounds(g);
    ExponentSliceSpelled(g.source, g.position + 1, y.position + 1, AdvanceWhileNext(y, DigitRun).position + 1, Following(g), SignSeen(Advance(g)), ExponentSeen(g));
  }

  /** The exponent read back after `g`: the letter, the sign after it, and the digits from where the sign ends to where the digit loop stops. */
  lemma ExponentSeenShape(g: LexState)
    requires g.position < |g.source| && (Following(g) == 'e' || Following(g) == 'E')
    ensures SignEnd(Advance(g)).position + 1 <= AdvanceWhileNext(SignEnd(Advance(g)), DigitRun).position + 1 <= |g.source|
    ensures var y := SignEnd(Advance(g));
      ExponentSeen(g) == Some(Exponent(Following(g), SignSeen(Advance(g)), g.source[y.position + 1..AdvanceWhileNext(y, DigitRun).position + 1]))
  {
  }

  /** Where the sign after the exponent letter at `x` ends, and where the digit loop from there stops. */
  lemma SignEndBounds(x: LexState)
    requires x.position < |x.source|
    ensures SignEnd(x).source == x.source
    ensures SignEnd(x).position == x.position + (if SignSeen(x).Some? then 1 else 0)
    ensures SignEnd(x).position <= AdvanceWhileNext(SignEnd(x), DigitRun).position < |x.source|
  {
  }

  /** The sign after the exponent letter is the character after it, and the digits start right after both and stop inside the source. */
  lemma {:induction false} ExponentSliceBounds(g: LexState)
    requires g.position < |g.source| && (Following(g) == 'e' || Following(g) == 'E')
    ensures var x := Advance(g);
      var y := SignEnd(x);
      && (SignSeen(x).Some? ==> CharAt(g.source, g.position + 1 + 1) == SignSeen(x).value)
      && y.position + 1 == g.position + 1 + 1 + (if SignSeen(x).Some? then 1 else 0)
      && y.position + 1 <= AdvanceWhileNext(y, DigitRun).position + 1 <= |g.source|
  {
    SignEndBounds(Advance(g));
  }

  /** `ExponentJoin` for a sign given by the character after the letter and digits that are the source's own characters from `r` up to `t`. */
  lemma {:induction false} ExponentSliceSpelled(src: string, q: nat, r: nat, t: nat, letter: char, sign: Option<char>, e: Option<Exponent>)
    requires CharAt(src, q) == letter
    requires sign.Some? ==> CharAt(src, q + 1) == sign.value
    requires r == q + 1 + (if sign.Some? then 1 else 0) && r <= t <= |src|
    requires e == Some(Exponent(letter, sign, src[r..t]))
    ensures Spells(src, q, ExponentText(e))
  {
    assert Spells(src, q + 1, if sign.Some? then [sign.value] else "") by {
      if sign.Some? {
        assert CharAt(src, q + 1 + 0) == sign.value;
      }
    }
    SliceSpells(src, r, t);
    ExponentJoin(src, q, r, letter, sign, src[r..t]);
  }


  /** An exponent letter at `q`, its sign at `q + 1`, and its digits at `r`, right after both, spell the exponent at `q`. */
  lemma {:induction false} ExponentJoin(src: string, q: nat, r: nat, letter: char, sign: Option<char>, digits: string)
    requires CharAt(src, q) == letter
    requires Spells(src, q + 1, if sign.Some? then [sign.value] else "")
    requires r == q + 1 + (if sign.Some? then 1 else 0) && Spells(src, r, digits)
    ensures Spells(src, q, ExponentText(Some(Exponent(letter, sign, digits))))
  {
    var signText := if sign.Some? then [sign.value] else "";
    assert Spells(src, q, [letter]) by {
      assert CharAt(src, q + 0) == letter;
    }
    SpellsJoin(src, q, [letter], signText);
    SpellsJoin(src, q, [letter] + signText, digits);
  }

  /** After an exponent letter, the exponent loop runs over the digits from where the sign ends. */
  lemma ExponentAfterLetter(g: LexState)
    requires g.position < |g.source| && (Following(g) == 'e' || Following(g) == 'E')
    ensures ExponentPart(g) == AdvanceWhileNext(SignEnd(Advance(g)), DigitRun)
  {
  }

  /**
   * Conversely, whatever `readNumber` reads without an error is a lexable
   * number spelt at the cursor and ended by the character after it, and the
   * lexeme is that number's text.
   */
  lemma {:induction false} NumberReadBack(s: LexState)
    requires IsNumber(Current(s)) || Current(s) == '-'
    requires ReadNumber(s).1.Ok?
    ensures IsNumber(Current(AfterSign(s)))
    ensures NumberAt(s.source, s.position, NumberSeen(s))
    ensures ReadNumber(s).1 == Ok(Text(NumberSeen(s)))
    ensures exists n :: NumberAt(s.source, s.position, n) && ReadNumber(s).1 == Ok(Text(n))
  {
    ReadNumberAfterSign(s);
    SeenAt(s);
    NumberRead(s, NumberSeen(s));
  }

  /** `readNumber` succeeds exactly when a digit follows the optional minus. */
  lemma ReadNumberAfterSign(s: LexState)
    requires IsNumber(Current(s)) || Current(s) == '-'
    ensures ReadNumber(s).1.Ok? <==> IsNumber(Current(AfterSign(s)))
  {
    assert (if Current(s) == '-' then Advance(s) else s) == AfterSign(s);
  }

  /** The number read back is lexable, spelt at the cursor, and ended by the character after it. */
  lemma {:induction false} SeenAt(s: LexState)
    requires IsNumber(Current(AfterSign(s)))
    ensures NumberAt(s.source, s.position, NumberSeen(s))
  {
    SeenLexable(s);
    SeenSpelledAt(s);
    SeenLength(s);
    SeenEndsAt(s);
  }

  lemma {:induction false} SeenLexable(s: LexState)
    requires IsNumber(Current(AfterSign(s)))
    ensures Lexable(NumberSeen(s))
  {
    var a := AfterSign(s);
    IntegerSeenParts(a);
    FractionSeenParts(IntegerPart(a));
    ExponentSeenParts(FractionPart(IntegerPart(a)));
  }

  lemma {:induction false} SeenSpelledAt(s: LexState)
    requires IsNumber(Current(AfterSign(s)))
    ensures Spells(s.source, s.position, Text(NumberSeen(s)))
  {
    SeenPartsSpelled(s);
  }

  /** The minus, the integer, the fraction and the exponent read back, as the source holds them, spell a number at the cursor. */
  lemma {:induction false} SeenPartsSpelled(s: LexState)
    requires IsNumber(Current(AfterSign(s)))
    ensures var a := AfterSign(s);
      var i := IntegerPart(a);
      Spells(s.source, s.position, Text(NumberText(Current(s) == '-', IntegerSeen(a), FractionSeen(i), ExponentSeen(FractionPart(i)))))
  {
    var a := AfterSign(s);
    var i := IntegerPart(a);
    var g := FractionPart(i);
    IntegerSpelled(a);
    FractionSpelled(i);
    ExponentTextSpelled(g);
    PartsSpelledAt(s.source, s.position, a.position, i.position + 1, g.position + 1, Current(s) == '-', IntegerSeen(a), FractionSeen(i), ExponentSeen(g));
  }

  /** `PartsSpelled` with the parts at the given indices. */
  lemma {:induction false} PartsSpelledAt(src: string, p: nat, qa: nat, qi: nat, qg: nat, minus: bool, I: string, f: Option<string>, x: Option<Exponent>)
    requires minus ==> CharAt(src, p) == '-'
    requires qa == p + (if minus then 1 else 0) && Spells(src, qa, I)
    requires qi == qa + |I| && Spells(src, qi, FractionText(f))
    requires qg == qi + |FractionText(f)| && Spells(src, qg, ExponentText(x))
    ensures Spells(src, p, Text(NumberText(minus, I, f, x)))
  {
    PartsSpelled(src, p, NumberText(minus, I, f, x));
  }

  lemma {:induction false} IntegerSpelled(a: LexState)
    requires IsNumber(Current(a))
    ensures a.position < |a.source|
    ensures Spells(a.source, a.position, IntegerSeen(a)) && IntegerPart(a).position == a.position + |IntegerSeen(a)| - 1
  {
    IntegerSeenParts(a);
  }

  lemma {:induction false} FractionSpelled(i: LexState)
    requires i.position < |i.source|
    ensures Spells(i.source, i.position + 1, FractionText(FractionSeen(i)))
    ensures FractionPart(i).position == i.position + |FractionText(FractionSeen(i))|
  {
    FractionSeenParts(i);
  }

  lemma {:induction false} ExponentTextSpelled(g: LexState)
    requires g.position < |g.source|
    ensures Spells(g.source, g.position + 1, ExponentText(ExponentSeen(g)))
  {
    ExponentSeenParts(g);
  }

  /** Where the integer, fraction and exponent loops stop, the character after the stop is the one `Ends` looks at. */
  lemma {:induction false} IntegerStop(a: LexState)
    requires IsNumber(Current(a))
    ensures a.position < |a.source|
    ensures IntegerSeen(a) != "0" ==> !IsNumber(Following(IntegerPart(a)))
  {
    IntegerSeenParts(a);
  }

  lemma {:induction false} FractionStop(i: LexState)
    requires i.position < |i.source|
    ensures FractionSeen(i).Some? ==> !IsNumber(Following(FractionPart(i)))
    ensures FractionSeen(i).None? ==> Following(FractionPart(i)) == Following(i) && Following(i) != '.'
  {
    FractionSeenParts(i);
  }

  lemma {:induction false} ExponentStop(g: LexState)
    requires g.position < |g.source|
    ensures var x, c := ExponentSeen(g), Following(ExponentPart(g));
      && (x.Some? ==> !IsNumber(c))
      && (x.Some? && x.value.sign.None? && x.value.digits == "" ==> c != '+' && c != '-')
      && (x.None? ==> c == Following(g) && c != 'e' && c != 'E')
  {
    ExponentSeenParts(g);
  }

  /** The number read back runs from the cursor to where the exponent loop stops. */
  lemma {:induction false} SeenLength(s: LexState)
    requires IsNumber(Current(AfterSign(s)))
    ensures s.position + |Text(NumberSeen(s))| == ExponentPart(FractionPart(IntegerPart(AfterSign(s)))).position + 1
  {
    var n := NumberSeen(s);
    var a := AfterSign(s);
    var i := IntegerPart(a);
    var g := FractionPart(i);
    assert i.position == a.position + |n.integer| - 1 by {
      IntegerSeenParts(a);
    }
    assert g.position == i.position + |FractionText(n.fraction)| by {
      FractionSeenParts(i);
    }
    assert ExponentPart(g).position == g.position + |ExponentText(n.exponent)| by {
      ExponentSeenParts(g);
    }
    TextLength(n);
  }

  lemma TextLength(n: NumberText)
    ensures |Text(n)| == (if n.minus then 1 else 0) + |n.integer| + |FractionText(n.fraction)| + |ExponentText(n.exponent)|
  {
  }

  lemma {:induction false} SeenEndsAt(s: LexState)
    requires IsNumber(Current(AfterSign(s)))
    ensures Ends(NumberSeen(s), CharAt(s.source, s.position + |Text(NumberSeen(s))|))
  {
    SeenEndChar(s);
    SeenEndsAtStop(s);
  }

  /** The character after the number read back is the one after the exponent loop's stop. */
  lemma {:induction false} SeenEndChar(s: LexState)
    requires IsNumber(Current(AfterSign(s)))
    ensures CharAt(s.source, s.position + |Text(NumberSeen(s))|) == Following(ExponentPart(FractionPart(IntegerPart(AfterSign(s)))))
  {
    SeenLength(s);
  }

  /** The character after the exponent loop's stop ends the number read back. */
  lemma {:induction false} SeenEndsAtStop(s: LexState)
    requires IsNumber(Current(AfterSign(s)))
    ensures Ends(NumberSeen(s), Following(ExponentPart(FractionPart(IntegerPart(AfterSign(s))))))
  {
    var a := AfterSign(s);
    var i := IntegerPart(a);
    var g := FractionPart(i);
    IntegerStop(a);
    FractionStop(i);
    ExponentStop(g);
    EndsOnStops(Current(s) == '-', IntegerSeen(a), FractionSeen(i), ExponentSeen(g), Following(ExponentPart(g)), Following(g), Following(i));
  }

  /** What `Ends` asks of the characters after the exponent, after the fraction and after the integer part, where each part is missing or present. */
  lemma {:induction false} EndsOnStops(minus: bool, I: string, f: Option<string>, x: Option<Exponent>, c: char, cg: char, ci: char)
    requires I != "0" ==> !IsNumber(ci)
    requires f.Some? ==> !IsNumber(cg)
    requires f.None? ==> cg == ci && ci != '.'
    requires && (x.Some? ==> !IsNumber(c))
             && (x.Some? && x.value.sign.None? && x.value.digits == "" ==> c != '+' && c != '-')
             && (x.None? ==> c == cg && c != 'e' && c != 'E')
    ensures Ends(NumberText(minus, I, f, x), c)
  {
  }

  /** The minus, the integer, the fraction and the exponent of `n`, spelt one after another from `p` on, spell `n`. */
  lemma {:induction false} PartsSpelled(src: string, p: nat, n: NumberText)
    requires var m := if n.minus then 1 else 0;
      && (n.minus ==> CharAt(src, p) == '-')
      && Spells(src, p + m, n.integer)
      && Spells(src, p + m + |n.integer|, FractionText(n.fraction))
      && Spells(src, p + m + |n.integer| + |FractionText(n.fraction)|, ExponentText(n.exponent))
    ensures Spells(src, p, Text(n))
    ensures |Text(n)| == (if n.minus then 1 else 0) + |n.integer| + |FractionText(n.fraction)| + |ExponentText(n.exponent)|
  {
    var sign := if n.minus then "-" else "";
    var I, F, E := n.integer, FractionText(n.fraction), ExponentText(n.exponent);
    assert Spells(src, p, sign) by {
      if n.minus {
        assert CharAt(src, p + 0) == '-';
      }
    }
    SpellsJoin(src, p, sign, I);
    SpellsJoin(src, p, sign + I, F);
    SpellsJoin(src, p, sign + I + F, E);
  }}
