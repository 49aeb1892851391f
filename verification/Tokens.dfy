/**
 The token vocabulary of the query language (pkg/query/types.go) and the keyword
 table of the lexer.  Text is a sequence of bytes, written as characters below 256.
 */
module Tokens {

  datatype TokenType =
    | TokenIdentifier | TokenNumber | TokenString | TokenDuration
    | TokenPlus | TokenMinus | TokenMultiply | TokenDivide | TokenPower | TokenMod
    | TokenEqual | TokenNotEqual | TokenEqualEqual | TokenLess | TokenLessEqual
    | TokenGreater | TokenGreaterEqual | TokenMatch | TokenNotMatch
    | TokenAnd | TokenOr | TokenUnless
    | TokenSum | TokenAvg | TokenMax | TokenMin | TokenCount | TokenStddev | TokenStdvar
    | TokenTopK | TokenBottomK | TokenQuantile | TokenCountValues
    | TokenLeftParen | TokenRightParen | TokenLeftBrace | TokenRightBrace
    | TokenLeftBracket | TokenRightBracket | TokenComma | TokenColon
    | TokenBy | TokenWithout | TokenOn | TokenIgnoring
    | TokenGroupLeft | TokenGroupRight | TokenBool | TokenOffset
    | TokenEOF | TokenIllegal

  datatype Token = Token(typ: TokenType, literal: string)

  const EndOfInput := Token(TokenEOF, "")

  /** The tokens of a query; `End` stands for the end-of-input token that closes them. */
  datatype TokenList = End | More(head: Token, tail: TokenList) {

    function Head(): Token { if End? then EndOfInput else head }

    function Type(): TokenType { Head().typ }

    /** Past the head; the parser never asks for more than the end. */
    function Tail(): TokenList { if End? then End else tail }

    function Size(): nat { if End? then 0 else 1 + tail.Size() }

    /** No token before the end says it is the end. */
    predicate Proper() { More? ==> head.typ != TokenEOF && tail.Proper() }
  }

  /** ASCII lower case.  No identifier the lexer delimits holds one of the two non-ASCII
      characters whose lower case is an ASCII letter, so this agrees with
      `strings.ToLower` as far as the keyword table can tell. */
  function ToLower(s: string): (r: string)
    ensures |r| == |s|
  {
    if s == [] then []
    else [if 'A' <= s[0] <= 'Z' then (s[0] as int + 32) as char else s[0]] + ToLower(s[1..])
  }

  function LookupKeyword(ident: string): TokenType {
    var k := ToLower(ident);
    if k == "by" then TokenBy
    else if k == "without" then TokenWithout
    else if k == "on" then TokenOn
    else if k == "ignoring" then TokenIgnoring
    else if k == "group_left" then TokenGroupLeft
    else if k == "group_right" then TokenGroupRight
    else if k == "bool" then TokenBool
    else if k == "offset" then TokenOffset
    else if k == "and" then TokenAnd
    else if k == "or" then TokenOr
    else if k == "unless" then TokenUnless
    else if k == "sum" then TokenSum
    else if k == "avg" then TokenAvg
    else if k == "max" then TokenMax
    else if k == "min" then TokenMin
    else if k == "count" then TokenCount
    else if k == "stddev" then TokenStddev
    else if k == "stdvar" then TokenStdvar
    else if k == "topk" then TokenTopK
    else if k == "bottomk" then TokenBottomK
    else if k == "quantile" then TokenQuantile
    else if k == "count_values" then TokenCountValues
    else TokenIdentifier
  }

  /** The words that name an aggregation, in whatever case. */
  lemma AggregationsRead(word: string)
    ensures ToLower(word) == "sum" ==> LookupKeyword(word) == TokenSum
    ensures ToLower(word) == "avg" ==> LookupKeyword(word) == TokenAvg
    ensures ToLower(word) == "max" ==> LookupKeyword(word) == TokenMax
    ensures ToLower(word) == "min" ==> LookupKeyword(word) == TokenMin
    ensures ToLower(word) == "count" ==> LookupKeyword(word) == TokenCount
  {
    hide ToLower;
  }

  /** The words of clauses and set operators, in whatever case. */
  lemma ClausesRead(word: string)
    ensures ToLower(word) == "by" ==> LookupKeyword(word) == TokenBy
    ensures ToLower(word) == "without" ==> LookupKeyword(word) == TokenWithout
    ensures ToLower(word) == "and" ==> LookupKeyword(word) == TokenAnd
    ensures ToLower(word) == "or" ==> LookupKeyword(word) == TokenOr
    ensures ToLower(word) == "unless" ==> LookupKeyword(word) == TokenUnless
  {
    hide ToLower;
  }

  lemma {:induction false} LowerExactly(s: string, i: nat)
    requires i < |s|
    ensures ToLower(s)[i] == if 'A' <= s[i] <= 'Z' then (s[i] as int + 32) as char else s[i]
  {
    if i > 0 { LowerExactly(s[1..], i - 1); }
  }

  /** The aggregation keywords, the tokens that start an aggregation. */
  predicate IsAggregation(t: TokenType) {
    t in {TokenSum, TokenAvg, TokenMax, TokenMin, TokenCount, TokenStddev, TokenStdvar,
          TokenTopK, TokenBottomK, TokenQuantile, TokenCountValues}
  }

  /** The fixed spelling of the punctuation and operator tokens, "" for the others. */
  function Spelling(t: TokenType): string {
    match t
    case TokenLeftParen => "("
    case TokenRightParen => ")"
    case TokenLeftBrace => "{"
    case TokenRightBrace => "}"
    case TokenLeftBracket => "["
    case TokenRightBracket => "]"
    case TokenComma => ","
    case TokenColon => ":"
    case TokenPlus => "+"
    case TokenMinus => "-"
    case TokenMultiply => "*"
    case TokenDivide => "/"
    case TokenPower => "^"
    case TokenMod => "%"
    case TokenEqual => "="
    case TokenEqualEqual => "=="
    case TokenMatch => "=~"
    case TokenNotEqual => "!="
    case TokenNotMatch => "!~"
    case TokenLess => "<"
    case TokenLessEqual => "<="
    case TokenGreater => ">"
    case TokenGreaterEqual => ">="
    case _ => ""
  }
}
