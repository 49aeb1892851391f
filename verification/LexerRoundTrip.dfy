/**
 Lexing undoes rendering: the tokens of a space-separated rendering are the tokens that
 were rendered.
 */
module LexerRoundTrip {
  import opened Decimal
  import opened Tokens
  import opened Lexing

  predicate All(s: string, k: CharClass) { forall i :: 0 <= i < |s| ==> In(s[i], k) }

  predicate IdentifierText(s: string) { s != [] && IsLetter(s[0]) && All(s, Identifier) }

  /** The three parts of a number: digits (underscores allowed after the first), an
      optional fraction and an optional exponent, possibly without digits. */
  predicate NumberParts(whole: string, fraction: string, exponent: string) {
    && whole != [] && IsDigit(whole[0]) && All(whole, Number)
    && (fraction == [] || (|fraction| > 1 && fraction[0] == '.' && IsDigit(fraction[1]) && All(fraction[1..], Number)))
    && (exponent == [] ||
        ((exponent[0] == 'e' || exponent[0] == 'E') &&
         (All(exponent[1..], Number) ||
          (|exponent| > 1 && (exponent[1] == '+' || exponent[1] == '-') && All(exponent[2..], Number)))))
  }

  ghost predicate NumberText(s: string) {
    exists w, f, e :: NumberParts(w, f, e) && s == w + f + e
  }

  /** A duration is a number followed by letters, the first of which does not read as an
      exponent. */
  predicate DurationParts(w: string, f: string, e: string, unit: string) {
    && NumberParts(w, f, e) && unit != [] && All(unit, Letters)
    && (e == [] ==> unit[0] != 'e' && unit[0] != 'E')
  }

  ghost predicate DurationText(s: string) {
    exists w, f, e, u :: DurationParts(w, f, e, u) && s == w + f + e + u
  }

  /** Text that may stand between double quotes. */
  predicate StringText(s: string) { Closed(s, 0, |s|, '"') }

  /** Keywords and identifiers. */
  predicate IsWord(t: Token) {
    IdentifierText(t.literal) && LookupKeyword(t.literal) == t.typ
  }

  /** Punctuation and operators. */
  predicate IsSymbol(t: Token) {
    Spelling(t.typ) != "" && t.literal == Spelling(t.typ)
  }

  /** Tokens the lexer can produce from some text; for strings, in double quotes. */
  ghost predicate Renderable(t: Token) {
    || (t.typ == TokenString && StringText(t.literal))
    || (t.typ == TokenNumber && NumberText(t.literal))
    || (t.typ == TokenDuration && DurationText(t.literal))
    || IsSymbol(t)
    || IsWord(t)
  }

  function Text(t: Token): string {
    if t.typ == TokenString then "\"" + t.literal + "\"" else t.literal
  }

  /** The tokens' texts, each followed by a space. */
  function Render(ts: TokenList): string {
    match ts
    case End => ""
    case More(t, rest) => Text(t) + " " + Render(rest)
  }

  ghost predicate AllRenderable(ts: TokenList) {
    ts.More? ==> Renderable(ts.head) && AllRenderable(ts.tail)
  }

  lemma {:induction false} RunExact(s: string, i: nat, n: nat, k: CharClass)
    requires i <= n <= |s|
    requires forall j :: i <= j < n ==> In(s[j], k)
    requires n == |s| || !In(s[n], k)
    ensures RunEnd(s, i, k) == n
    decreases n - i
  {
    if i < n { RunExact(s, i + 1, n, k); }
  }

  /** `s` holds `x` at `i`. */
  ghost predicate Holds(s: string, i: nat, x: string) {
    i + |x| <= |s| && s[i..i + |x|] == x
  }

  lemma HoldsChars(s: string, i: nat, x: string)
    requires Holds(s, i, x)
    ensures forall j :: i <= j < i + |x| ==> s[j] == x[j - i]
  {
    forall j | i <= j < i + |x| ensures s[j] == x[j - i] { assert s[i..i + |x|][j - i] == s[j]; }
  }

  lemma HoldsSplit(s: string, i: nat, x: string, y: string)
    requires Holds(s, i, x + y)
    ensures Holds(s, i, x) && Holds(s, i + |x|, y)
  {
    assert s[i..i + |x|] == s[i..i + |x + y|][..|x|];
    assert s[i + |x|..i + |x| + |y|] == s[i..i + |x + y|][|x|..];
  }

  lemma RunOver(s: string, i: nat, x: string, k: CharClass)
    requires Holds(s, i, x) && All(x, k)
    requires i + |x| == |s| || !In(s[i + |x|], k)
    ensures RunEnd(s, i, k) == i + |x|
  {
    HoldsChars(s, i, x);
    RunExact(s, i, i + |x|, k);
  }

  lemma FractionOver(s: string, i: nat, f: string)
    requires f == [] || (|f| > 1 && f[0] == '.' && IsDigit(f[1]) && All(f[1..], Number))
    requires Holds(s, i, f) && i + |f| < |s| && !In(s[i + |f|], Number) && s[i + |f|] != '.'
    ensures FractionEnd(s, i) == i + |f|
  {
    if f != [] {
      HoldsChars(s, i, f);
      assert f == f[..1] + f[1..];
      HoldsSplit(s, i, f[..1], f[1..]);
      RunOver(s, i + 1, f[1..], Number);
    }
  }

  lemma ExponentOver(s: string, i: nat, e: string)
    requires e == [] ||
             ((e[0] == 'e' || e[0] == 'E') &&
              (All(e[1..], Number) || (|e| > 1 && (e[1] == '+' || e[1] == '-') && All(e[2..], Number))))
    requires Holds(s, i, e) && i + |e| < |s| && !In(s[i + |e|], Number)
    requires s[i + |e|] != '+' && s[i + |e|] != '-'
    requires e == [] ==> s[i] != 'e' && s[i] != 'E'
    ensures ExponentEnd(s, i) == i + |e|
  {
    if e != [] {
      HoldsChars(s, i, e);
      if All(e[1..], Number) {
        assert e == e[..1] + e[1..];
        HoldsSplit(s, i, e[..1], e[1..]);
        assert |e| > 1 ==> In(e[1..][0], Number) && s[i + 1] == e[1];
        RunOver(s, i + 1, e[1..], Number);
      } else {
        assert e == e[..2] + e[2..];
        HoldsSplit(s, i, e[..2], e[2..]);
        RunOver(s, i + 2, e[2..], Number);
      }
    }
  }

  /** What may follow a number without joining it. */
  predicate EndsNumber(c: char, afterExponent: bool) {
    && !In(c, Number) && c != '.' && c != '+' && c != '-'
    && (!afterExponent ==> c != 'e' && c != 'E')
  }

  /** The characters at the three boundaries inside a number. */
  lemma NumberBoundaries(s: string, i: nat, w: string, f: string, e: string)
    requires NumberParts(w, f, e)
    requires Holds(s, i, w + f + e) && i + |w| + |f| + |e| < |s|
    requires EndsNumber(s[i + |w| + |f| + |e|], e != [])
    ensures Holds(s, i, w) && Holds(s, i + |w|, f) && Holds(s, i + |w| + |f|, e)
    ensures IsDigit(s[i])
    ensures !In(s[i + |w|], Number) && (f == [] ==> s[i + |w|] != '.')
    ensures !In(s[i + |w| + |f|], Number) && s[i + |w| + |f|] != '.'
    ensures e == [] ==> s[i + |w| + |f|] != 'e' && s[i + |w| + |f|] != 'E'
  {
    HoldsSplit(s, i, w + f, e);
    HoldsSplit(s, i, w, f);
    HoldsChars(s, i, w);
    HoldsChars(s, i + |w|, f);
    HoldsChars(s, i + |w| + |f|, e);
  }

  lemma NumberOver(s: string, i: nat, w: string, f: string, e: string)
    requires NumberParts(w, f, e)
    requires Holds(s, i, w + f + e) && i + |w| + |f| + |e| < |s|
    requires EndsNumber(s[i + |w| + |f| + |e|], e != [])
    ensures NumberEnd(s, i) == i + |w| + |f| + |e|
    ensures IsDigit(s[i])
  {
    NumberBoundaries(s, i, w, f, e);
    RunOver(s, i, w, Number);
    FractionOver(s, i + |w|, f);
    ExponentOver(s, i + |w| + |f|, e);
  }

  lemma {:induction false} StringOver(s: string, i: nat, x: string, k: nat)
    requires k <= |x| && Closed(x, k, |x|, '"')
    requires Holds(s, i, x) && i + |x| < |s| && s[i + |x|] == '"'
    ensures StringEnd(s, i + k, '"') == i + |x|
    decreases |x| - k
  {
    HoldsChars(s, i, x);
    if k < |x| { StringOver(s, i, x, if x[k] == '\\' then k + 2 else k + 1); }
  }

  /** A token starts at `i`, and neither a blank nor a comment does. */
  lemma NoBlank(s: string, i: nat)
    requires i < |s| && !In(s[i], Space) && s[i] != '#'
    ensures BlankEnd(s, i) == i
  {
  }

  /** One call at `i` reads `t` and stops on the space after it. */
  ghost predicate Reads(s: string, i: nat, t: Token) {
    Next(s, i) == Step(t, i + |Text(t)|, false) && t.typ != TokenEOF && At(s, i + |Text(t)|, ' ')
  }

  lemma WordType(word: string)
    ensures LookupKeyword(word) != TokenString && LookupKeyword(word) != TokenEOF
  {
  }

  lemma LetterStartsWord(s: string, i: nat)
    requires i < |s| && IsLetter(s[i])
    ensures BlankEnd(s, i) == i && TokenAt(s, i) == WordAt(s, i)
  {
    hide LookupKeyword, RunEnd;
    NoBlank(s, i);
  }

  lemma {:induction false} NextWord(s: string, i: nat, t: Token)
    requires IsWord(t) && Holds(s, i, t.literal) && At(s, i + |t.literal|, ' ')
    ensures Reads(s, i, t)
  {
    hide LookupKeyword, TokenAt, BlankEnd;
    WordType(t.literal);
    HoldsChars(s, i, t.literal);
    LetterStartsWord(s, i);
    RunOver(s, i, t.literal, Identifier);
  }

  lemma UnitEndsNumber(u: string, afterExponent: bool)
    requires u != [] && All(u, Letters) && (!afterExponent ==> u[0] != 'e' && u[0] != 'E')
    ensures EndsNumber(u[0], afterExponent)
  {
    assert In(u[0], Letters);
  }

  lemma DurationNumber(s: string, i: nat, w: string, f: string, e: string, u: string)
    requires DurationParts(w, f, e, u)
    requires Holds(s, i, w + f + e + u)
    ensures IsDigit(s[i]) && NumberEnd(s, i) == i + |w| + |f| + |e|
  {
    HoldsSplit(s, i, w + f + e, u);
    assert u[0] == s[i + |w| + |f| + |e|] by { HoldsChars(s, i + |w| + |f| + |e|, u); }
    UnitEndsNumber(u, e != []);
    NumberOver(s, i, w, f, e);
  }

  lemma DurationUnit(s: string, i: nat, w: string, f: string, e: string, u: string)
    requires DurationParts(w, f, e, u)
    requires Holds(s, i, w + f + e + u) && At(s, i + |w| + |f| + |e| + |u|, ' ')
    ensures RunEnd(s, i + |w| + |f| + |e|, Letters) == i + |w| + |f| + |e| + |u|
  {
    HoldsSplit(s, i, w + f + e, u);
    RunOver(s, i + |w| + |f| + |e|, u, Letters);
  }

  lemma DurationEnds(s: string, i: nat, literal: string) returns (n: nat, u: nat)
    requires DurationText(literal) && Holds(s, i, literal) && At(s, i + |literal|, ' ')
    ensures IsDigit(s[i]) && NumberEnd(s, i) == n && RunEnd(s, n, Letters) == u
    ensures n < u == i + |literal|
  {
    var w, f, e, x :| DurationParts(w, f, e, x) && literal == w + f + e + x;
    DurationNumber(s, i, w, f, e, x);
    DurationUnit(s, i, w, f, e, x);
    n, u := i + |w| + |f| + |e|, i + |literal|;
  }

  lemma NumberStep(s: string, i: nat, n: nat, u: nat)
    requires i < |s| && IsDigit(s[i]) && NumberEnd(s, i) == n && RunEnd(s, n, Letters) == u
    ensures u <= |s| && Next(s, i) == Step(Token(if u > n then TokenDuration else TokenNumber, s[i..u]), u, false)
  {
    NoBlank(s, i);
  }

  lemma {:induction false} NextNumber(s: string, i: nat, t: Token)
    requires t.typ == TokenNumber && NumberText(t.literal)
    requires Holds(s, i, t.literal) && At(s, i + |t.literal|, ' ')
    ensures Reads(s, i, t)
  {
    var w, f, e :| NumberParts(w, f, e) && t.literal == w + f + e;
    NumberOver(s, i, w, f, e);
    NumberStep(s, i, i + |t.literal|, i + |t.literal|);
  }

  lemma {:induction false} NextDuration(s: string, i: nat, t: Token)
    requires t.typ == TokenDuration && DurationText(t.literal)
    requires Holds(s, i, t.literal) && At(s, i + |t.literal|, ' ')
    ensures Reads(s, i, t)
  {
    var n, u := DurationEnds(s, i, t.literal);
    NumberStep(s, i, n, u);
  }

  lemma Quoted(s: string, i: nat, x: string)
    requires Holds(s, i, "\"" + x + "\"")
    ensures i + |x| + 1 < |s| && s[i] == '"' && s[i + 1 + |x|] == '"' && Holds(s, i + 1, x)
  {
    HoldsChars(s, i, "\"" + x + "\"");
    HoldsSplit(s, i, "\"" + x, "\"");
    HoldsSplit(s, i, "\"", x);
  }

  lemma QuoteStartsString(s: string, i: nat)
    requires i < |s| && s[i] == '"'
    ensures Next(s, i) == StringAt(s, i)
  {
    hide StringAt;
    NoBlank(s, i);
  }

  lemma StringStep(s: string, i: nat, x: string)
    requires i < |s| && s[i] == '"' && Holds(s, i + 1, x) && StringEnd(s, i + 1, '"') == i + 1 + |x|
    ensures StringAt(s, i) == Step(Token(TokenString, x), i + |x| + 2, false)
  {
  }

  lemma NextString(s: string, i: nat, t: Token)
    requires t.typ == TokenString && StringText(t.literal)
    requires Holds(s, i, Text(t)) && At(s, i + |Text(t)|, ' ')
    ensures Reads(s, i, t)
  {
    hide *;
    StringClosed(t);
    Quoted(s, i, t.literal);
    StringOver(s, i + 1, t.literal, 0);
    QuoteStartsString(s, i);
    StringStep(s, i, t.literal);
    ReadsString(s, i, t);
  }

  lemma StringClosed(t: Token)
    requires t.typ == TokenString && StringText(t.literal)
    ensures Closed(t.literal, 0, |t.literal|, '"') && Text(t) == "\"" + t.literal + "\""
  {
    hide Closed;
  }

  lemma ReadsString(s: string, i: nat, t: Token)
    requires t.typ == TokenString && Next(s, i) == Step(Token(TokenString, t.literal), i + |t.literal| + 2, false)
    requires At(s, i + |Text(t)|, ' ')
    ensures Reads(s, i, t)
  {
    hide Next, At;
  }

  predicate ReadsAlone(c: char, t: TokenType) {
    if Punctuation(c) == TokenIllegal then IsOperator(c) && Operator(c, ' ') == (t, false)
    else Punctuation(c) == t
  }

  predicate ReadsAsPair(c: char, d: char, t: TokenType) {
    Punctuation(c) == TokenIllegal && IsOperator(c) && Operator(c, d) == (t, true)
  }

  /** The lexer's two operator tables read every spelling back, a space following. */
  lemma SpellingReadsBack(t: TokenType)
    requires Spelling(t) != ""
    ensures var x := Spelling(t);
            && |x| <= 2 && x[0] != '\0' && !In(x[0], Space) && x[0] != '#'
            && t != TokenIllegal && (|x| == 1 ==> ReadsAlone(x[0], t)) && (|x| == 2 ==> ReadsAsPair(x[0], x[1], t))
  {
  }

  lemma {:induction false} NextOperator(s: string, i: nat, t: Token)
    requires IsSymbol(t) && Holds(s, i, t.literal) && At(s, i + |t.literal|, ' ')
    ensures Reads(s, i, t)
  {
    var x := t.literal;
    HoldsChars(s, i, x);
    SpellingReadsBack(t.typ);
    NoBlank(s, i);
    OperatorStep(s, i, t.typ, x);
  }

  lemma OperatorStep(s: string, i: nat, t: TokenType, x: string)
    requires 0 < |x| <= 2 && Holds(s, i, x) && At(s, i + |x|, ' ')
    requires x[0] == s[i] && (|x| == 2 ==> x[1] == s[i + 1]) && x[0] != '\0' && t != TokenIllegal
    requires (|x| == 1 ==> ReadsAlone(x[0], t)) && (|x| == 2 ==> ReadsAsPair(x[0], x[1], t))
    ensures TokenAt(s, i) == Step(Token(t, x), i + |x|, false)
  {
    if |x| == 1 {
      assert x == [s[i]];
    } else {
      assert x == [s[i], s[i + 1]];
    }
  }

  lemma SymbolType(t: Token)
    ensures IsSymbol(t) ==> t.typ != TokenString && t.typ != TokenEOF
  {
  }

  lemma NextText(s: string, i: nat, t: Token)
    requires Renderable(t)
    requires Holds(s, i, Text(t)) && At(s, i + |Text(t)|, ' ')
    ensures Reads(s, i, t)
  {
    hide TokenAt, LookupKeyword, StringText, NumberText, DurationText, Spelling, IdentifierText;
    SymbolType(t);
    if t.typ == TokenString && StringText(t.literal) { NextString(s, i, t); }
    else if t.typ == TokenNumber && NumberText(t.literal) { NextNumber(s, i, t); }
    else if t.typ == TokenDuration && DurationText(t.literal) { NextDuration(s, i, t); }
    else if IsSymbol(t) { NextOperator(s, i, t); }
    else { WordType(t.literal); NextWord(s, i, t); }
  }

  /** `ts` is written in `s` from `i` to the end, a space after each token. */
  ghost predicate Written(s: string, i: nat, ts: TokenList)
    decreases ts
  {
    match ts
    case End => i == |s|
    case More(t, rest) =>
      Holds(s, i, Text(t)) && At(s, i + |Text(t)|, ' ') && Written(s, i + |Text(t)| + 1, rest)
  }

  lemma {:induction false} RenderingIsWritten(s: string, i: nat, ts: TokenList)
    requires i <= |s| && s[i..] == Render(ts)
    ensures Written(s, i, ts)
    decreases ts
  {
    if ts.More? {
      SplitOff(s, i, Text(ts.head), Render(ts.tail));
      RenderingIsWritten(s, i + |Text(ts.head)| + 1, ts.tail);
    }
  }

  lemma SplitOff(s: string, i: nat, x: string, rest: string)
    requires i <= |s| && s[i..] == x + " " + rest
    ensures Holds(s, i, x) && At(s, i + |x|, ' ') && s[i + |x| + 1..] == rest
  {
    assert s[i..] == x + (" " + rest);
    assert s[i..i + |x|] == s[i..][..|x|];
    assert s[i + |x|] == s[i..][|x|];
    assert s[i + |x| + 1..] == s[i..][|x| + 1..];
  }

  lemma SkipOneSpace(s: string, p: nat)
    requires At(s, p, ' ')
    ensures TokenStream(s, p) == TokenStream(s, p + 1)
  {
    hide TokenAt;
    assert RunEnd(s, p, Space) == RunEnd(s, p + 1, Space);
    assert BlankEnd(s, p) == BlankEnd(s, p + 1);
  }

  lemma StreamAtEnd(s: string)
    ensures TokenStream(s, |s|) == End
  {
  }

  lemma {:induction false} StreamHead(s: string, i: nat, t: Token)
    requires Reads(s, i, t)
    ensures TokenStream(s, i) == More(t, TokenStream(s, i + |Text(t)| + 1))
  {
    hide TokenAt;
    SkipOneSpace(s, i + |Text(t)|);
  }

  /** Lexing from a place where a rendering starts gives back the rendered tokens. */
  lemma {:induction false} StreamOfWritten(s: string, i: nat, ts: TokenList)
    requires Written(s, i, ts) && AllRenderable(ts)
    ensures TokenStream(s, i) == ts
    decreases ts
  {
    hide Renderable, TokenStream, Next, Holds;
    if ts.More? {
      NextText(s, i, ts.head);
      StreamHead(s, i, ts.head);
      StreamOfWritten(s, i + |Text(ts.head)| + 1, ts.tail);
    } else {
      StreamAtEnd(s);
    }
  }

  lemma {:induction false} RenderEndsInSpace(ts: TokenList)
    ensures ts.More? ==> Render(ts) != [] && Render(ts)[|Render(ts)| - 1] == ' '
  {
    if ts.More? { RenderEndsInSpace(ts.tail); }
  }

  /** The lexer round trip: lexing a rendering gives back the tokens rendered. */
  lemma {:induction false} LexRender(ts: TokenList)
    requires AllRenderable(ts)
    ensures TokenStream(Render(ts), 0) == ts
  {
    hide *;
    RenderingIsWritten(Render(ts), 0, ts);
    StreamOfWritten(Render(ts), 0, ts);
  }

  /** No number of calls on a rendering panics. */
  lemma RenderNeverPanics(ts: TokenList, n: nat)
    ensures !Panics(Render(ts), 0, n)
  {
    hide Panics;
    RenderEndsInSpace(ts);
    NeverPanics(Render(ts), 0, n);
  }

  /** Rendering is injective on renderable token lists. */
  lemma RenderInjective(a: TokenList, b: TokenList)
    requires AllRenderable(a) && AllRenderable(b)
    requires Render(a) == Render(b)
    ensures a == b
  {
    hide *;
    LexRender(a);
    LexRender(b);
  }
}
