/**
 The query lexer (pkg/query/lexer.go).  `Next` says what one call of `NextToken` does
 at a position of the input; class `Lexer` is the cursor machine the source runs, proved
 to compute `Next`.
 */
module Lexing {
  import opened Decimal
  import opened Tokens

  /** The character classes the lexer's reading loops run over. */
  datatype CharClass = Space | Comment | Identifier | Number | Letters

  /** `unicode.IsLetter` on a byte: the letters of Latin-1. */
  predicate IsLetter(c: char) {
    || 'a' <= c <= 'z' || 'A' <= c <= 'Z'
    || c as int == 0xAA || c as int == 0xB5 || c as int == 0xBA
    || (0xC0 <= c as int <= 0xFF && c as int != 0xD7 && c as int != 0xF7)
  }

  predicate In(c: char, k: CharClass) {
    match k
    case Space => c == ' ' || c == '\t' || c == '\n' || c == '\r'
    case Comment => c != '\n' && c != '\0'
    case Identifier => IsLetter(c) || IsDigit(c) || c == '_' || c == ':'
    case Number => IsDigit(c) || c == '_'
    case Letters => IsLetter(c)
  }

  predicate At(s: string, i: nat, c: char) { i < |s| && s[i] == c }

  /** Where a loop over class `k` that starts at `i` stops. */
  function RunEnd(s: string, i: nat, k: CharClass): (n: nat)
    ensures i <= n && (n == i || n <= |s|)
    decreases |s| - i
  {
    if i < |s| && In(s[i], k) then RunEnd(s, i + 1, k) else i
  }

  /** Where white space and comments that start at `i` end. */
  function BlankEnd(s: string, i: nat): (n: nat)
    ensures i <= n && (n == i || n <= |s|)
    decreases |s| - i
  {
    var j := RunEnd(s, i, Space);
    if At(s, j, '#') then BlankEnd(s, RunEnd(s, j + 1, Comment)) else j
  }

  function FractionEnd(s: string, i: nat): (n: nat)
    ensures i <= n && (n == i || n <= |s|)
  {
    if At(s, i, '.') && i + 1 < |s| && IsDigit(s[i + 1]) then RunEnd(s, i + 1, Number) else i
  }

  function ExponentEnd(s: string, i: nat): (n: nat)
    ensures i <= n && (n == i || n <= |s|)
  {
    if !At(s, i, 'e') && !At(s, i, 'E') then i
    else if At(s, i + 1, '+') || At(s, i + 1, '-') then RunEnd(s, i + 2, Number)
    else RunEnd(s, i + 1, Number)
  }

  function NumberEnd(s: string, i: nat): (n: nat)
    ensures i <= n && (n == i || n <= |s|)
  {
    ExponentEnd(s, FractionEnd(s, RunEnd(s, i, Number)))
  }

  /** Where `readString` stops, `i` being just after the opening quote.  An escape takes
      two characters; when the input ends right after a backslash the second one lies past
      the end, and so does the place where the scan stops. */
  function StringEnd(s: string, i: nat, quote: char): (n: nat)
    requires i <= |s|
    ensures i <= n <= |s| + 1
    decreases |s| - i
  {
    if i == |s| || s[i] == quote || s[i] == '\0' then i
    else if s[i] != '\\' then StringEnd(s, i + 1, quote)
    else if i + 1 == |s| then i + 2
    else StringEnd(s, i + 2, quote)
  }

  /** Go's `string(b)` of a byte: the UTF-8 form of the character it numbers. */
  function ByteText(c: char): string {
    if c as int < 0x80 || c as int > 0xFF then [c]
    else [(0xC0 + c as int / 64) as char, (0x80 + c as int % 64) as char]
  }

  /** One call of `NextToken`: the token, the position after it, and whether the call
      slices the input out of range (a Go panic, after which nothing is observed). */
  datatype Step = Step(tok: Token, next: nat, panics: bool)

  function Punctuation(c: char): TokenType {
    match c
    case '(' => TokenLeftParen
    case ')' => TokenRightParen
    case '{' => TokenLeftBrace
    case '}' => TokenRightBrace
    case '[' => TokenLeftBracket
    case ']' => TokenRightBracket
    case ',' => TokenComma
    case ':' => TokenColon
    case '+' => TokenPlus
    case '-' => TokenMinus
    case '*' => TokenMultiply
    case '/' => TokenDivide
    case '^' => TokenPower
    case '%' => TokenMod
    case _ => TokenIllegal
  }

  /** The operators that start with `c` and may take a second character `d`; the flag
      says whether `d` belongs to the token. */
  function Operator(c: char, d: char): (TokenType, bool) {
    match c
    case '=' => if d == '~' then (TokenMatch, true)
                else if d == '=' then (TokenEqualEqual, true) else (TokenEqual, false)
    case '!' => if d == '=' then (TokenNotEqual, true)
                else if d == '~' then (TokenNotMatch, true) else (TokenIllegal, false)
    case '<' => if d == '=' then (TokenLessEqual, true) else (TokenLess, false)
    case '>' => if d == '=' then (TokenGreaterEqual, true) else (TokenGreater, false)
    case _ => (TokenIllegal, false)
  }

  predicate IsQuote(c: char) { c == '"' || c == '\'' }

  function StringAt(s: string, i: nat): (r: Step)
    requires i < |s|
    ensures r.tok.typ == TokenString && i < r.next
  {
    var n := StringEnd(s, i + 1, s[i]);
    if n <= |s| then Step(Token(TokenString, s[i + 1..n]), n + 1, false)
    else Step(Token(TokenString, ""), n + 1, true)
  }

  predicate IsOperator(c: char) { c == '=' || c == '!' || c == '<' || c == '>' }

  function OperatorAt(s: string, i: nat): (r: Step)
    requires i < |s|
    ensures r.tok.typ != TokenEOF && i < r.next && !r.panics
  {
    var d := if i + 1 < |s| then s[i + 1] else '\0';
    var op := Operator(s[i], d);
    if op.1 then Step(Token(op.0, [s[i], d]), i + 2, false)
    else Step(Token(op.0, [s[i]]), i + 1, false)
  }

  function WordAt(s: string, i: nat): (r: Step)
    requires i < |s| && IsLetter(s[i])
    ensures r.tok.typ != TokenEOF && i < r.next && !r.panics
  {
    var n := RunEnd(s, i, Identifier);
    Step(Token(LookupKeyword(s[i..n]), s[i..n]), n, false)
  }

  /** A number, or a duration when letters follow it directly. */
  function NumberAt(s: string, i: nat): (r: Step)
    requires i < |s| && IsDigit(s[i])
    ensures r.tok.typ != TokenEOF && i < r.next && !r.panics
  {
    var n := NumberEnd(s, i);
    assert n >= RunEnd(s, i, Number) > i;
    var u := RunEnd(s, n, Letters);
    Step(Token(if u > n then TokenDuration else TokenNumber, s[i..u]), u, false)
  }

  /** The token that starts at `i`, blanks already skipped. */
  function TokenAt(s: string, i: nat): (r: Step)
    ensures i < r.next
    ensures i >= |s| ==> r.tok.typ == TokenEOF
    ensures r.tok.typ == TokenEOF ==> r.tok == EndOfInput
  {
    if i >= |s| || s[i] == '\0' then Step(EndOfInput, i + 1, false)
    else if Punctuation(s[i]) != TokenIllegal then Step(Token(Punctuation(s[i]), [s[i]]), i + 1, false)
    else if IsOperator(s[i]) then OperatorAt(s, i)
    else if IsQuote(s[i]) then StringAt(s, i)
    else if IsLetter(s[i]) then WordAt(s, i)
    else if IsDigit(s[i]) then NumberAt(s, i)
    else Step(Token(TokenIllegal, ByteText(s[i])), i + 1, false)
  }

  /** Every call moves on by at least one byte. */
  function Next(s: string, i: nat): (r: Step)
    ensures i < r.next
    ensures i >= |s| ==> r.tok.typ == TokenEOF
    ensures r.tok.typ == TokenEOF ==> r.tok == EndOfInput
  {
    TokenAt(s, BlankEnd(s, i))
  }

  /* ---- the vocabulary ---- */

  const SYMBOLS: seq<(char, TokenType)> := [
    ('(', TokenLeftParen), (')', TokenRightParen), ('{', TokenLeftBrace), ('}', TokenRightBrace),
    ('[', TokenLeftBracket), (']', TokenRightBracket), (',', TokenComma), (':', TokenColon),
    ('+', TokenPlus), ('-', TokenMinus), ('*', TokenMultiply), ('/', TokenDivide), ('^', TokenPower), ('%', TokenMod)]

  const PAIRS: seq<(char, char, TokenType)> := [
    ('=', '=', TokenEqualEqual), ('=', '~', TokenMatch), ('!', '=', TokenNotEqual), ('!', '~', TokenNotMatch),
    ('<', '=', TokenLessEqual), ('>', '=', TokenGreaterEqual)]

  const SINGLES: seq<(char, TokenType)> := [('=', TokenEqual), ('<', TokenLess), ('>', TokenGreater)]

  /** What the symbols of the language read as. */
  lemma SymbolsRead(s: string, i: nat)
    requires i < |s|
    ensures forall j :: 0 <= j < |SYMBOLS| && s[i] == SYMBOLS[j].0 ==> Next(s, i) == Step(Token(SYMBOLS[j].1, [s[i]]), i + 1, false)
  {
    forall j | 0 <= j < |SYMBOLS| && s[i] == SYMBOLS[j].0 ensures Next(s, i) == Step(Token(SYMBOLS[j].1, [s[i]]), i + 1, false) {
      SymbolTable(j);
    }
  }

  lemma SymbolTable(j: nat)
    requires j < |SYMBOLS|
    ensures var c := SYMBOLS[j].0; Punctuation(c) == SYMBOLS[j].1 != TokenIllegal && !In(c, Space) && c != '#' && c != '\0'
  {
  }

  /** What the operators read as, those of two characters first. */
  lemma OperatorsRead(s: string, i: nat)
    requires i < |s|
    ensures forall j :: 0 <= j < |PAIRS| && s[i] == PAIRS[j].0 && At(s, i + 1, PAIRS[j].1) ==>
              Next(s, i) == Step(Token(PAIRS[j].2, [s[i], s[i + 1]]), i + 2, false)
    ensures forall j :: 0 <= j < |SINGLES| && s[i] == SINGLES[j].0 && (forall k :: 0 <= k < |PAIRS| && PAIRS[k].0 == s[i] ==> !At(s, i + 1, PAIRS[k].1)) ==>
              Next(s, i) == Step(Token(SINGLES[j].1, [s[i]]), i + 1, false)
  {
    assert PAIRS[0] == ('=', '=', TokenEqualEqual) && PAIRS[1] == ('=', '~', TokenMatch);
    assert PAIRS[4] == ('<', '=', TokenLessEqual) && PAIRS[5] == ('>', '=', TokenGreaterEqual);
  }

  lemma {:induction false} RunJoins(s: string, i: nat, j: nat, k: CharClass)
    requires i <= j <= |s| && forall h :: i <= h < j ==> In(s[h], k)
    ensures RunEnd(s, i, k) == RunEnd(s, j, k)
    decreases j - i
  {
    if i < j { RunJoins(s, i + 1, j, k); }
  }

  /** Blanks, tabs and line ends between tokens play no part. */
  lemma {:induction false} BlanksSkipped(s: string, i: nat, j: nat)
    requires i <= j <= |s| && forall h :: i <= h < j ==> s[h] in {' ', '\t', '\n', '\r'}
    ensures Next(s, i) == Next(s, j)
  {
    hide TokenAt, RunEnd;
    RunJoins(s, i, j, Space);
  }

  /** A comment from a hash to the end of its line plays none either. */
  lemma {:induction false} CommentSkipped(s: string, i: nat, j: nat)
    requires i < j < |s| && s[i] == '#' && s[j] == '\n' && forall h :: i < h < j ==> s[h] != '\n' && s[h] != '\0'
    ensures Next(s, i) == Next(s, j)
  {
    hide TokenAt;
    RunJoins(s, i + 1, j, Comment);
    assert RunEnd(s, i, Space) == i && RunEnd(s, j, Comment) == j;
  }

  /** The tokens from `i` up to the first end-of-input token. */
  function TokenStream(s: string, i: nat): TokenList
    decreases |s| - i
  {
    var st := Next(s, i);
    if st.tok.typ == TokenEOF then End else More(st.tok, TokenStream(s, st.next))
  }

  lemma StreamUnfolds(s: string, i: nat)
    ensures var st := Next(s, i);
            TokenStream(s, i) == if st.tok.typ == TokenEOF then End else More(st.tok, TokenStream(s, st.next))
  {
    hide Next;
  }

  /** The position after `n` calls from `i`. */
  function After(s: string, i: nat, n: nat): nat
    decreases n
  {
    if n == 0 then i else After(s, Next(s, i).next, n - 1)
  }

  /** Whether one of the first `n` calls from `i` panics. */
  predicate Panics(s: string, i: nat, n: nat)
    decreases n
  {
    n != 0 && (Next(s, i).panics || Panics(s, Next(s, i).next, n - 1))
  }

  lemma {:induction false} PullOneMore(s: string, i: nat, n: nat)
    ensures After(s, i, n + 1) == Next(s, After(s, i, n)).next
    ensures Panics(s, i, n + 1) <==> Panics(s, i, n) || Next(s, After(s, i, n)).panics
    decreases n
  {
    if n > 0 { PullOneMore(s, Next(s, i).next, n - 1); }
  }

  /** `s[i..n]` is a sequence of plain characters and complete escape pairs: no bare
      quote, no NUL, no backslash left without a partner. */
  predicate Closed(s: string, i: nat, n: nat, quote: char)
    requires i <= n <= |s|
    decreases n - i
  {
    i == n ||
    (if s[i] == '\\' then i + 2 <= n && Closed(s, i + 2, n, quote)
     else s[i] != quote && s[i] != '\0' && Closed(s, i + 1, n, quote))
  }

  /** The scan of a string body goes past the input exactly when the text is unterminated
      and ends in a backslash that escapes nothing. */
  lemma {:induction false} StringOverruns(s: string, i: nat, quote: char)
    requires i <= |s| && IsQuote(quote)
    ensures StringEnd(s, i, quote) > |s| <==>
            i < |s| && s[|s| - 1] == '\\' && Closed(s, i, |s| - 1, quote)
    decreases |s| - i
  {
    if i == |s| || s[i] == quote || s[i] == '\0' {
    } else if s[i] != '\\' {
      StringOverruns(s, i + 1, quote);
    } else if i + 1 < |s| {
      StringOverruns(s, i + 2, quote);
    }
  }

  /** When a call panics: the next token is a string whose body runs to the end of the
      input and ends in a dangling backslash. */
  lemma PanicsExactlyOnDanglingEscape(s: string, i: nat)
    ensures var j := BlankEnd(s, i);
            Next(s, i).panics <==>
            j + 1 < |s| && IsQuote(s[j]) && s[|s| - 1] == '\\' && Closed(s, j + 1, |s| - 1, s[j])
  {
    var j := BlankEnd(s, i);
    if j < |s| && IsQuote(s[j]) { StringOverruns(s, j + 1, s[j]); }
  }

  /** A query whose last byte is not a backslash never panics, however many tokens are
      pulled. */
  lemma {:induction false} NeverPanics(s: string, i: nat, n: nat)
    requires s == [] || s[|s| - 1] != '\\'
    ensures !Panics(s, i, n)
    decreases n
  {
    if n > 0 {
      PanicsExactlyOnDanglingEscape(s, i);
      NeverPanics(s, Next(s, i).next, n - 1);
    }
  }

  lemma NulIsNoLetter()
    ensures !IsLetter('\0')
  {
  }

  lemma NumberMoves(s: string, i: nat)
    requires i < |s| && IsDigit(s[i])
    ensures i < NumberEnd(s, i) <= |s|
  {
    assert NumberEnd(s, i) >= RunEnd(s, i, Number) > i;
  }

  class Lexer {
    const input: string
    var pos: nat
    var readPos: nat
    var ch: char
    // Set where the source would panic; from then on nothing the lexer does is observed.
    var panicked: bool
    ghost var pulls: nat

    /** The cursor fields agree: `ch` is the byte at `pos`, 0 past the end. */
    ghost predicate Cursor()
      reads this
    {
      readPos == pos + 1 && ch == if pos < |input| then input[pos] else '\0'
    }

    ghost predicate Valid()
      reads this
    {
      Cursor() && pos == After(input, 0, pulls) && panicked == Panics(input, 0, pulls)
    }

    constructor (text: string)
      ensures Valid() && input == text && pulls == 0 && pos == 0
    {
      input := text;
      pos, readPos, pulls, panicked := 0, 0, 0, false;
      new;
      ReadChar();
    }

    method ReadChar()
      requires readPos == pos + 1 || readPos == pos == 0
      modifies this`pos, this`readPos, this`ch
      ensures Cursor() && pos == old(readPos)
    {
      if readPos >= |input| { ch := '\0'; } else { ch := input[readPos]; }
      pos := readPos;
      readPos := readPos + 1;
    }

    function PeekChar(): char
      reads this
    {
      if readPos >= |input| then '\0' else input[readPos]
    }

    /** The reading loop shared by the readers: consume characters of class `k`. */
    method ReadWhile(k: CharClass)
      requires Cursor() && !In('\0', k)
      modifies this`pos, this`readPos, this`ch
      ensures Cursor() && pos == RunEnd(input, old(pos), k)
    {
      while In(ch, k)
        invariant Cursor() && RunEnd(input, pos, k) == RunEnd(input, old(pos), k)
        decreases |input| - pos
      {
        ReadChar();
      }
    }

    method SkipWhitespace()
      requires Cursor()
      modifies this`pos, this`readPos, this`ch
      ensures Cursor() && pos == BlankEnd(input, old(pos))
      decreases |input| - pos
    {
      ReadWhile(Space);
      if ch == '#' {
        ReadWhile(Comment);
        SkipWhitespace();
      }
    }

    method ReadIdentifier() returns (s: string)
      requires Cursor() && pos < |input|
      modifies this`pos, this`readPos, this`ch
      ensures Cursor() && pos == RunEnd(input, old(pos), Identifier) && s == input[old(pos)..pos]
    {
      var start := pos;
      ReadWhile(Identifier);
      s := input[start..pos];
    }

    method ReadNumber() returns (s: string)
      requires Cursor() && pos < |input|
      modifies this`pos, this`readPos, this`ch
      ensures Cursor() && pos == NumberEnd(input, old(pos)) && s == input[old(pos)..pos]
    {
      hide RunEnd, FractionEnd, ExponentEnd;
      var start := pos;
      ReadWhile(Number);
      ReadFraction();
      ReadExponent();
      s := input[start..pos];
    }

    method ReadFraction()
      requires Cursor() && pos <= |input|
      modifies this`pos, this`readPos, this`ch
      ensures Cursor() && pos == FractionEnd(input, old(pos))
    {
      hide RunEnd;
      if ch == '.' && IsDigit(PeekChar()) {
        ReadChar();
        ReadWhile(Number);
      }
    }

    method ReadExponent()
      requires Cursor() && pos <= |input|
      modifies this`pos, this`readPos, this`ch
      ensures Cursor() && pos == ExponentEnd(input, old(pos))
    {
      hide RunEnd;
      if ch == 'e' || ch == 'E' {
        ReadChar();
        if ch == '+' || ch == '-' { ReadChar(); }
        ReadWhile(Number);
      }
    }

    method ReadDurationUnit() returns (s: string)
      requires Cursor() && pos <= |input|
      modifies this`pos, this`readPos, this`ch
      ensures Cursor() && pos == RunEnd(input, old(pos), Letters) && s == input[old(pos)..pos]
    {
      var start := pos;
      ReadWhile(Letters);
      s := input[start..pos];
    }

    /** Leaves the cursor on the closing quote.  The final slice is out of range exactly
        when the scan went past the end, and the source panics there. */
    method ReadString(quote: char) returns (s: string)
      requires Cursor() && pos < |input| && IsQuote(quote)
      modifies this`pos, this`readPos, this`ch, this`panicked
      ensures Cursor() && pos == StringEnd(input, old(pos) + 1, quote)
      ensures pos <= |input| ==> s == input[old(pos) + 1..pos] && panicked == old(panicked)
      ensures pos > |input| ==> s == "" && panicked
    {
      var start := pos + 1;
      ReadChar();
      while ch != quote && ch != '\0'
        invariant Cursor() && start <= pos <= |input| + 1 && panicked == old(panicked)
        invariant (if pos <= |input| then StringEnd(input, pos, quote) else pos) == StringEnd(input, start, quote)
        decreases |input| + 1 - pos
      {
        if ch == '\\' { ReadChar(); }
        ReadChar();
      }
      if pos <= |input| {
        s := input[start..pos];
      } else {
        s, panicked := "", true;
      }
    }

    /** A two-character operator: consume the second character as well. */
    method ReadPair(typ: TokenType) returns (tok: Token)
      requires Cursor() && pos + 1 < |input|
      modifies this`pos, this`readPos, this`ch
      ensures Cursor() && pos == old(pos) + 1 && tok == Token(typ, [input[pos - 1], input[pos]])
    {
      var first := ch;
      ReadChar();
      tok := Token(typ, [first, ch]);
    }

    /** The `=`, `!`, `<` and `>` cases; the cursor stays on the operator's last byte. */
    method ReadOperator() returns (tok: Token)
      requires Cursor() && pos < |input| && IsOperator(ch)
      modifies this`pos, this`readPos, this`ch
      ensures Cursor() && var r := OperatorAt(input, old(pos)); tok == r.tok && pos + 1 == r.next
    {
      if ch == '=' {
        if PeekChar() == '~' { tok := ReadPair(TokenMatch); }
        else if PeekChar() == '=' { tok := ReadPair(TokenEqualEqual); }
        else { tok := Token(TokenEqual, [ch]); }
      } else if ch == '!' {
        if PeekChar() == '=' { tok := ReadPair(TokenNotEqual); }
        else if PeekChar() == '~' { tok := ReadPair(TokenNotMatch); }
        else { tok := Token(TokenIllegal, [ch]); }
      } else if ch == '<' {
        if PeekChar() == '=' { tok := ReadPair(TokenLessEqual); }
        else { tok := Token(TokenLess, [ch]); }
      } else {
        if PeekChar() == '=' { tok := ReadPair(TokenGreaterEqual); }
        else { tok := Token(TokenGreater, [ch]); }
      }
    }

    /** The digit case: a number, or a duration when letters follow it directly. */
    method ReadNumberOrDuration() returns (tok: Token)
      requires Cursor() && pos < |input| && IsDigit(ch)
      modifies this`pos, this`readPos, this`ch
      ensures Cursor() && var r := NumberAt(input, old(pos)); tok == r.tok && pos == r.next
    {
      hide NumberEnd;
      NumberMoves(input, pos);
      var literal := ReadNumber();
      if IsLetter(ch) {
        var unit := ReadDurationUnit();
        tok := Token(TokenDuration, literal + unit);
      } else {
        tok := Token(TokenNumber, literal);
      }
    }

    /** The switch of `NextToken`, white space already skipped. */
    method ReadToken() returns (tok: Token)
      requires Cursor()
      modifies this`pos, this`readPos, this`ch, this`panicked
      ensures Cursor()
      ensures var r := TokenAt(input, old(pos));
              tok == r.tok && pos == r.next && panicked == (old(panicked) || r.panics)
    {
      hide RunEnd, NumberEnd, NumberAt, OperatorAt, LookupKeyword, IsLetter;
      NulIsNoLetter();
      if ch == '\0' {
        tok := EndOfInput;
      } else if Punctuation(ch) != TokenIllegal {
        tok := Token(Punctuation(ch), [ch]);
      } else if IsOperator(ch) {
        tok := ReadOperator();
      } else if IsQuote(ch) {
        var literal := ReadString(ch);
        tok := Token(TokenString, literal);
      } else if IsLetter(ch) {
        var literal := ReadIdentifier();
        tok := Token(LookupKeyword(literal), literal);
        return;
      } else if IsDigit(ch) {
        tok := ReadNumberOrDuration();
        return;
      } else {
        tok := Token(TokenIllegal, ByteText(ch));
      }
      ReadChar();
    }

    method NextToken() returns (tok: Token)
      requires Valid()
      modifies this
      ensures Valid() && pulls == old(pulls) + 1
      ensures var r := Next(input, old(pos)); tok == r.tok && pos == r.next
    {
      PullOneMore(input, 0, pulls);
      SkipWhitespace();
      tok := ReadToken();
      pulls := pulls + 1;
    }
  }
}
