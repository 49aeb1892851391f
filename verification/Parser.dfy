/**
 The query parser (pkg/query/parser.go).  The functions say what each parsing level makes
 of the tokens that are left; class `Parser` is the two-token machine over the lexer,
 proved to compute them.

 No function asks for more than the end of the token list: every `nextToken` is guarded
 by the type of the token it leaves behind.
 */
module Parsing {
  import opened Tokens
  import opened Ast
  import opened Options
  import opened Lexing
  import Durations

  /** `rest` is what is left of `ts` after some tokens were consumed, each once. */
  ghost predicate LeftOf(rest: TokenList, ts: TokenList)
    ensures LeftOf(rest, ts) ==> rest.Size() <= ts.Size()
  {
    rest == ts || (ts.More? && LeftOf(rest, ts.tail))
  }

  lemma {:induction false} LeftOfTransitive(a: TokenList, b: TokenList, c: TokenList)
    requires LeftOf(a, b) && LeftOf(b, c)
    ensures LeftOf(a, c)
  {
    if b != c { LeftOfTransitive(a, b, c.tail); }
  }

  lemma LeftOfTail(a: TokenList, ts: TokenList)
    requires LeftOf(a, ts)
    ensures LeftOf(a.Tail(), ts)
  {
    LeftOfTransitive(a.Tail(), a, ts);
  }

  function Past2(ts: TokenList): (r: TokenList)
    ensures LeftOf(r, ts) && (ts.More? ==> r.Size() < ts.Size())
  {
    LeftOfTail(ts.Tail(), ts);
    ts.Tail().Tail()
  }

  function Past3(ts: TokenList): (r: TokenList)
    ensures LeftOf(r, ts) && (ts.More? ==> r.Size() < ts.Size())
  {
    LeftOfTail(Past2(ts), ts);
    ts.Tail().Tail().Tail()
  }

  /** The outcome of a parsing function: what it built and the tokens left. */
  datatype Parsed<+T> = Parsed(value: T, rest: TokenList)

  /* Levels of parseExpression, loosest first.  Levels 0, 1, 2, 4 and 5 associate to the
     left, level 3 does not associate, level 6 associates to the right. */
  const OR := 0
  const AND := 1
  const UNLESS := 2
  const COMPARISON := 3
  const ADDITIVE := 4
  const MULTIPLICATIVE := 5
  const POWER := 6
  const UNARY := 7
  const PRIMARY := 8

  /** The level at which a token is a binary operator, PRIMARY if it is none. */
  function OperatorLevel(t: TokenType): (k: nat)
    ensures k <= PRIMARY
  {
    match t
    case TokenOr => OR
    case TokenAnd => AND
    case TokenUnless => UNLESS
    case TokenEqualEqual => COMPARISON
    case TokenNotEqual => COMPARISON
    case TokenLess => COMPARISON
    case TokenLessEqual => COMPARISON
    case TokenGreater => COMPARISON
    case TokenGreaterEqual => COMPARISON
    case TokenPlus => ADDITIVE
    case TokenMinus => ADDITIVE
    case TokenMultiply => MULTIPLICATIVE
    case TokenDivide => MULTIPLICATIVE
    case TokenMod => MULTIPLICATIVE
    case TokenPower => POWER
    case _ => PRIMARY
  }

  predicate LeftAssociative(k: nat) { k <= UNLESS || k == ADDITIVE || k == MULTIPLICATIVE }

  predicate IsLabelMatchOp(t: TokenType) {
    t == TokenEqual || t == TokenNotEqual || t == TokenMatch || t == TokenNotMatch
  }

  /** Past the head if it is of type `t`. */
  function Skip(ts: TokenList, t: TokenType): (rest: TokenList)
    ensures LeftOf(rest, ts)
    ensures forall us :: LeftOf(ts, us) ==> LeftOf(rest, us)
  {
    assert forall us :: LeftOf(ts, us) ==> LeftOf(ts.Tail(), us) by {
      forall us | LeftOf(ts, us) ensures LeftOf(ts.Tail(), us) { LeftOfTail(ts, us); }
    }
    if ts.Type() == t then ts.Tail() else ts
  }

  /** The matcher loop, `ts` being past the opening brace. */
  function ParseMatchers(ts: TokenList, acc: seq<Matcher>): (r: Parsed<seq<Matcher>>)
    ensures LeftOf(r.rest, ts)
    decreases ts.Size()
  {
    if ts.Type() != TokenIdentifier then Parsed(acc, ts)
    else if !IsLabelMatchOp(ts.Tail().Type()) then Parsed(acc, ts.Tail())
    else if ts.Tail().Tail().Type() != TokenString then Parsed(acc, Past2(ts))
    else
      var m := Matcher(ts.Head().literal, ts.Tail().Type(), ts.Tail().Tail().Head().literal);
      var r := ParseMatchers(Skip(Past3(ts), TokenComma), acc + [m]);
      LeftOfTransitive(Skip(Past3(ts), TokenComma), Past3(ts), ts);
      LeftOfTransitive(r.rest, Skip(Past3(ts), TokenComma), ts);
      r
  }

  /** The label loop of `by (...)`, `ts` being past the opening parenthesis. */
  function ParseLabels(ts: TokenList, acc: seq<string>): (r: Parsed<seq<string>>)
    ensures LeftOf(r.rest, ts)
    decreases ts.Size()
  {
    if ts.Type() != TokenIdentifier then Parsed(acc, ts)
    else if ts.Tail().Type() == TokenComma then
      var r := ParseLabels(Past2(ts), acc + [ts.Head().literal]);
      LeftOfTransitive(r.rest, Past2(ts), ts);
      r
    else Parsed(acc + [ts.Head().literal], ts.Tail())
  }

  /** The optional `{...}` of a vector selector. */
  function ParseBraces(ts: TokenList): (r: Parsed<seq<Matcher>>)
    ensures LeftOf(r.rest, ts)
  {
    if ts.Type() != TokenLeftBrace then Parsed([], ts)
    else
      var m := ParseMatchers(ts.Tail(), []);
      LeftOfTransitive(m.rest, ts.Tail(), ts);
      LeftOfTransitive(Skip(m.rest, TokenRightBrace), m.rest, ts);
      Parsed(m.value, Skip(m.rest, TokenRightBrace))
  }

  /** The optional `[5m]` of a vector selector. */
  function ParseRange(vector: Vector, ts: TokenList): (r: Parsed<Expr>)
    ensures LeftOf(r.rest, ts)
  {
    if ts.Type() != TokenLeftBracket then Parsed(VectorSelector(vector), ts)
    else if ts.Tail().Type() != TokenDuration then Parsed(VectorSelector(vector), ts.Tail())
    else
      LeftOfTransitive(Skip(Past2(ts), TokenRightBracket), Past2(ts), ts);
      Parsed(RangeSelector(vector, Durations.ParseResult(ts.Tail().Head().literal)), Skip(Past2(ts), TokenRightBracket))
  }

  /** `name{...}[5m]`, `ts` being past the name. */
  function ParseVectorSelector(name: string, ts: TokenList): (r: Parsed<Expr>)
    ensures LeftOf(r.rest, ts)
  {
    var m := ParseBraces(ts);
    var r := ParseRange(Vector(name, m.value), m.rest);
    LeftOfTransitive(r.rest, m.rest, ts);
    r
  }

  /** One parsing level. */
  function ParseLevel(k: nat, ts: TokenList): (r: Parsed<Expr>)
    requires k <= PRIMARY
    ensures LeftOf(r.rest, ts)
    decreases ts.Size(), 3, PRIMARY - k
  {
    if k == PRIMARY then ParsePrimary(ts)
    else if k == UNARY then
      if ts.Type() == TokenPlus || ts.Type() == TokenMinus then
        var r := ParseLevel(UNARY, ts.Tail());
        LeftOfTransitive(r.rest, ts.Tail(), ts);
        Parsed(UnaryExpr(ts.Type(), r.value), r.rest)
      else ParseLevel(PRIMARY, ts)
    else
      var l := ParseLevel(k + 1, ts);
      var r := ParseRight(k, l.value, l.rest);
      LeftOfTransitive(r.rest, l.rest, ts);
      r
  }

  /** What follows the left operand `left` at a binary level. */
  function ParseRight(k: nat, left: Expr, ts: TokenList): (r: Parsed<Expr>)
    requires k < UNARY
    ensures LeftOf(r.rest, ts)
    decreases ts.Size(), 0, 0
  {
    if OperatorLevel(ts.Type()) != k then Parsed(left, ts)
    else
      var r := ParseLevel(if k == POWER then k else k + 1, ts.Tail());
      LeftOfTransitive(r.rest, ts.Tail(), ts);
      var e := BinaryExpr(left, ts.Type(), r.value);
      if LeftAssociative(k) then
        var s := ParseRight(k, e, r.rest);
        LeftOfTransitive(s.rest, r.rest, ts);
        s
      else Parsed(e, r.rest)
  }

  function ParsePrimary(ts: TokenList): (r: Parsed<Expr>)
    ensures LeftOf(r.rest, ts)
    decreases ts.Size(), 2, 0
  {
    if ts.Type() == TokenNumber then Parsed(NumberLiteral(ts.Head().literal), ts.Tail())
    else if ts.Type() == TokenLeftParen then
      var r := ParseLevel(OR, ts.Tail());
      LeftOfTransitive(r.rest, ts.Tail(), ts);
      LeftOfTail(r.rest, ts);
      if r.rest.Type() == TokenRightParen then Parsed(ParenExpr(r.value), r.rest.Tail()) else r
    else if ts.Type() == TokenIdentifier then
      if ts.Tail().Type() == TokenLeftParen then
        var r := ParseArguments(Past2(ts), []);
        LeftOfTransitive(r.rest, Past2(ts), ts);
        Parsed(FunctionCall(ts.Head().literal, r.value), Skip(r.rest, TokenRightParen))
      else
        var r := ParseVectorSelector(ts.Head().literal, ts.Tail());
        LeftOfTransitive(r.rest, ts.Tail(), ts);
        r
    else if IsAggregation(ts.Type()) then
      var r := ParseAggregation(ts.Head().literal, ts.Tail());
      LeftOfTransitive(r.rest, ts.Tail(), ts);
      r
    else Parsed(NumberLiteral("0"), ts)
  }

  /** The argument loop, `ts` being past the opening parenthesis. */
  function ParseArguments(ts: TokenList, acc: seq<Expr>): (r: Parsed<seq<Expr>>)
    ensures LeftOf(r.rest, ts)
    decreases ts.Size(), 4, 0
  {
    if ts.Type() == TokenRightParen || ts.Type() == TokenEOF then Parsed(acc, ts)
    else
      var a := ParseLevel(OR, ts);
      if a.rest.Type() == TokenComma then
        var r := ParseArguments(a.rest.Tail(), acc + [a.value]);
        LeftOfTransitive(a.rest.Tail(), a.rest, ts);
        LeftOfTransitive(r.rest, a.rest.Tail(), ts);
        r
      else Parsed(acc + [a.value], a.rest)
  }

  /** The optional grouping clause: its labels and whether it says `without`. */
  function ParseGrouping(ts: TokenList): (r: Parsed<(seq<string>, bool)>)
    ensures LeftOf(r.rest, ts)
  {
    if ts.Type() == TokenBy || ts.Type() == TokenWithout then
      var without := ts.Type() == TokenWithout;
      if ts.Tail().Type() == TokenLeftParen then
        var r := ParseLabels(Past2(ts), []);
        LeftOfTransitive(r.rest, Past2(ts), ts);
        Parsed((r.value, without), Skip(r.rest, TokenRightParen))
      else Parsed(([], without), ts.Tail())
    else Parsed(([], false), ts)
  }

  /** The optional `(...)` of an aggregation. */
  function ParseBody(ts: TokenList): (r: Parsed<Option<Expr>>)
    ensures LeftOf(r.rest, ts)
    decreases ts.Size(), 4, 0
  {
    if ts.Type() != TokenLeftParen then Parsed(None, ts)
    else
      var r := ParseLevel(OR, ts.Tail());
      LeftOfTransitive(r.rest, ts.Tail(), ts);
      LeftOfTransitive(Skip(r.rest, TokenRightParen), r.rest, ts);
      Parsed(Some(r.value), Skip(r.rest, TokenRightParen))
  }

  /** An aggregation, `ts` being past its keyword. */
  function ParseAggregation(op: string, ts: TokenList): (r: Parsed<Expr>)
    ensures LeftOf(r.rest, ts)
    decreases ts.Size(), 5, 0
  {
    var g := ParseGrouping(ts);
    var b := ParseBody(g.rest);
    LeftOfTransitive(b.rest, g.rest, ts);
    Parsed(AggregateExpr(op, g.value.0, g.value.1, b.value), b.rest)
  }

  /* One unfolding of the mutually recursive functions at a time. */

  lemma {:induction false} LevelUnfolds(k: nat, ts: TokenList)
    requires k < UNARY
    ensures var l := ParseLevel(k + 1, ts); ParseLevel(k, ts) == ParseRight(k, l.value, l.rest)
  {
  }

  lemma {:induction false} RightStops(k: nat, left: Expr, ts: TokenList)
    requires k < UNARY && OperatorLevel(ts.Type()) != k
    ensures ParseRight(k, left, ts) == Parsed(left, ts)
  {
  }

  lemma {:induction false} RightLoops(k: nat, left: Expr, ts: TokenList)
    requires LeftAssociative(k) && OperatorLevel(ts.Type()) == k
    ensures var r := ParseLevel(k + 1, ts.Tail());
            ParseRight(k, left, ts) == ParseRight(k, BinaryExpr(left, ts.Type(), r.value), r.rest)
  {
  }

  lemma {:induction false} RightOnce(k: nat, left: Expr, ts: TokenList)
    requires (k == COMPARISON || k == POWER) && OperatorLevel(ts.Type()) == k
    ensures var r := ParseLevel(if k == POWER then k else k + 1, ts.Tail());
            ParseRight(k, left, ts) == Parsed(BinaryExpr(left, ts.Type(), r.value), r.rest)
  {
  }

  /** What `Parse` reports: an expression, the literal of a token left over, or a panic of
      the lexer on the way. */
  datatype Outcome = Success(expr: Expr) | Leftover(literal: string) | Panicked

  /** Parsing a whole query.  The parser has pulled every token it consumed and two more. */
  function ParseText(input: string): Outcome {
    var ts := TokenStream(input, 0);
    var r := ParseLevel(OR, ts);
    if Panics(input, 0, ts.Size() - r.rest.Size() + 2) then Panicked
    else if r.rest.Type() != TokenEOF then Leftover(r.rest.Head().literal)
    else Success(r.value)
  }

  class Parser {
    const lexer: Lexer
    var current: Token
    var peek: Token

    ghost predicate Valid()
      reads this, lexer
    {
      lexer.Valid()
    }

    /** The tokens from `current` on, up to the first end of input. */
    ghost function Remaining(): (ts: TokenList)
      reads this, lexer
      ensures ts.Type() == current.typ
      ensures current.typ != TokenEOF ==> ts.Head() == current
    {
      if current.typ == TokenEOF then End
      else if peek.typ == TokenEOF then More(current, End)
      else More(current, More(peek, TokenStream(lexer.input, lexer.pos)))
    }

    /** Tokens pulled from the lexer plus tokens left: constant while parsing, so every
        token is consumed at most once. */
    ghost function Budget(): nat
      reads this, lexer
    {
      lexer.pulls + Remaining().Size()
    }

    constructor (input: string)
      ensures Valid() && fresh(lexer) && lexer.input == input
      ensures lexer.pulls == 2 && Remaining() == TokenStream(input, 0)
    {
      hide Next, TokenStream, After, Panics;
      lexer := new Lexer(input);
      new;
      current := lexer.NextToken();
      StreamUnfolds(input, 0);
      StreamUnfolds(input, lexer.pos);
      peek := lexer.NextToken();
    }

    method NextToken()
      requires Valid() && current.typ != TokenEOF
      modifies this, lexer
      ensures Valid() && Budget() == old(Budget())
      ensures Remaining() == old(Remaining()).Tail() && Remaining().Size() == old(Remaining()).Size() - 1
    {
      hide Next, TokenStream, After, Panics;
      StreamUnfolds(lexer.input, lexer.pos);
      current := peek;
      peek := lexer.NextToken();
    }

    /** `Parse` on a fresh parser. */
    method Parse() returns (r: Outcome)
      requires Valid() && lexer.pulls == 2 && Remaining() == TokenStream(lexer.input, 0)
      modifies this, lexer
      ensures r == ParseText(lexer.input)
    {
      hide ParseLevel, TokenStream, Panics, After, Next, Remaining;
      ghost var ts := Remaining();
      var expr := ParseExpression();
      assert lexer.pulls == ts.Size() - Remaining().Size() + 2;
      if lexer.panicked { return Panicked; }
      if current.typ != TokenEOF { return Leftover(current.literal); }
      return Success(expr);
    }

    method ParseExpression() returns (e: Expr)
      requires Valid()
      modifies this, lexer
      ensures Valid() && Budget() == old(Budget())
      ensures Parsed(e, Remaining()) == ParseLevel(OR, old(Remaining()))
      decreases Remaining().Size(), 3, PRIMARY + 1
    {
      e := ParseOrExpression();
    }

    /** Level OR. */
    method ParseOrExpression() returns (left: Expr)
      requires Valid()
      modifies this, lexer
      ensures Valid() && Budget() == old(Budget())
      ensures Parsed(left, Remaining()) == ParseLevel(OR, old(Remaining()))
      decreases Remaining().Size(), 3, PRIMARY - OR
    {
      hide ParseLevel, ParseRight, Remaining, Valid;
      LevelUnfolds(OR, Remaining());
      left := ParseAndExpression();
      while current.typ == TokenOr
        invariant Valid() && Budget() == old(Budget()) && Remaining().Size() <= old(Remaining()).Size()
        invariant ParseRight(OR, left, Remaining()) == ParseLevel(OR, old(Remaining()))
        decreases Remaining().Size()
      {
        RightLoops(OR, left, Remaining());
        var op := current.typ;
        NextToken();
        var right := ParseAndExpression();
        left := BinaryExpr(left, op, right);
      }
      RightStops(OR, left, Remaining());
    }

    /** Level AND. */
    method ParseAndExpression() returns (left: Expr)
      requires Valid()
      modifies this, lexer
      ensures Valid() && Budget() == old(Budget())
      ensures Parsed(left, Remaining()) == ParseLevel(AND, old(Remaining()))
      decreases Remaining().Size(), 3, PRIMARY - AND
    {
      hide ParseLevel, ParseRight, Remaining, Valid;
      LevelUnfolds(AND, Remaining());
      left := ParseUnlessExpression();
      while current.typ == TokenAnd
        invariant Valid() && Budget() == old(Budget()) && Remaining().Size() <= old(Remaining()).Size()
        invariant ParseRight(AND, left, Remaining()) == ParseLevel(AND, old(Remaining()))
        decreases Remaining().Size()
      {
        RightLoops(AND, left, Remaining());
        var op := current.typ;
        NextToken();
        var right := ParseUnlessExpression();
        left := BinaryExpr(left, op, right);
      }
      RightStops(AND, left, Remaining());
    }

    /** Level UNLESS. */
    method ParseUnlessExpression() returns (left: Expr)
      requires Valid()
      modifies this, lexer
      ensures Valid() && Budget() == old(Budget())
      ensures Parsed(left, Remaining()) == ParseLevel(UNLESS, old(Remaining()))
      decreases Remaining().Size(), 3, PRIMARY - UNLESS
    {
      hide ParseLevel, ParseRight, Remaining, Valid;
      LevelUnfolds(UNLESS, Remaining());
      left := ParseComparisonExpression();
      while current.typ == TokenUnless
        invariant Valid() && Budget() == old(Budget()) && Remaining().Size() <= old(Remaining()).Size()
        invariant ParseRight(UNLESS, left, Remaining()) == ParseLevel(UNLESS, old(Remaining()))
        decreases Remaining().Size()
      {
        RightLoops(UNLESS, left, Remaining());
        var op := current.typ;
        NextToken();
        var right := ParseComparisonExpression();
        left := BinaryExpr(left, op, right);
      }
      RightStops(UNLESS, left, Remaining());
    }

    predicate IsComparisonOp(t: TokenType) {
      || t == TokenEqualEqual || t == TokenNotEqual || t == TokenLess
      || t == TokenLessEqual || t == TokenGreater || t == TokenGreaterEqual
    }

    /** Level COMPARISON: at most one operator. */
    method ParseComparisonExpression() returns (e: Expr)
      requires Valid()
      modifies this, lexer
      ensures Valid() && Budget() == old(Budget())
      ensures Parsed(e, Remaining()) == ParseLevel(COMPARISON, old(Remaining()))
      decreases Remaining().Size(), 3, PRIMARY - COMPARISON
    {
      hide ParseLevel, ParseRight, Remaining, Valid;
      LevelUnfolds(COMPARISON, Remaining());
      var left := ParseAdditiveExpression();
      if IsComparisonOp(current.typ) {
        RightOnce(COMPARISON, left, Remaining());
        var op := current.typ;
        NextToken();
        var right := ParseAdditiveExpression();
        return BinaryExpr(left, op, right);
      }
      RightStops(COMPARISON, left, Remaining());
      return left;
    }

    /** Level ADDITIVE. */
    method ParseAdditiveExpression() returns (left: Expr)
      requires Valid()
      modifies this, lexer
      ensures Valid() && Budget() == old(Budget())
      ensures Parsed(left, Remaining()) == ParseLevel(ADDITIVE, old(Remaining()))
      decreases Remaining().Size(), 3, PRIMARY - ADDITIVE
    {
      hide ParseLevel, ParseRight, Remaining, Valid;
      LevelUnfolds(ADDITIVE, Remaining());
      left := ParseMultiplicativeExpression();
      while current.typ == TokenPlus || current.typ == TokenMinus
        invariant Valid() && Budget() == old(Budget()) && Remaining().Size() <= old(Remaining()).Size()
        invariant ParseRight(ADDITIVE, left, Remaining()) == ParseLevel(ADDITIVE, old(Remaining()))
        decreases Remaining().Size()
      {
        RightLoops(ADDITIVE, left, Remaining());
        var op := current.typ;
        NextToken();
        var right := ParseMultiplicativeExpression();
        left := BinaryExpr(left, op, right);
      }
      RightStops(ADDITIVE, left, Remaining());
    }

    /** Level MULTIPLICATIVE. */
    method ParseMultiplicativeExpression() returns (left: Expr)
      requires Valid()
      modifies this, lexer
      ensures Valid() && Budget() == old(Budget())
      ensures Parsed(left, Remaining()) == ParseLevel(MULTIPLICATIVE, old(Remaining()))
      decreases Remaining().Size(), 3, PRIMARY - MULTIPLICATIVE
    {
      hide ParseLevel, ParseRight, Remaining, Valid;
      LevelUnfolds(MULTIPLICATIVE, Remaining());
      left := ParsePowerExpression();
      while current.typ == TokenMultiply || current.typ == TokenDivide || current.typ == TokenMod
        invariant Valid() && Budget() == old(Budget()) && Remaining().Size() <= old(Remaining()).Size()
        invariant ParseRight(MULTIPLICATIVE, left, Remaining()) == ParseLevel(MULTIPLICATIVE, old(Remaining()))
        decreases Remaining().Size()
      {
        RightLoops(MULTIPLICATIVE, left, Remaining());
        var op := current.typ;
        NextToken();
        var right := ParsePowerExpression();
        left := BinaryExpr(left, op, right);
      }
      RightStops(MULTIPLICATIVE, left, Remaining());
    }

    /** Level POWER: the right operand is again at this level. */
    method ParsePowerExpression() returns (e: Expr)
      requires Valid()
      modifies this, lexer
      ensures Valid() && Budget() == old(Budget())
      ensures Parsed(e, Remaining()) == ParseLevel(POWER, old(Remaining()))
      decreases Remaining().Size(), 3, PRIMARY - POWER
    {
      hide ParseLevel, ParseRight, Remaining, Valid;
      LevelUnfolds(POWER, Remaining());
      var left := ParseUnaryExpression();
      if current.typ == TokenPower {
        RightOnce(POWER, left, Remaining());
        var op := current.typ;
        NextToken();
        var right := ParsePowerExpression();
        return BinaryExpr(left, op, right);
      }
      RightStops(POWER, left, Remaining());
      return left;
    }

    method ParseUnaryExpression() returns (e: Expr)
      requires Valid()
      modifies this, lexer
      ensures Valid() && Budget() == old(Budget())
      ensures Parsed(e, Remaining()) == ParseLevel(UNARY, old(Remaining()))
      decreases Remaining().Size(), 3, PRIMARY - UNARY
    {
      if current.typ == TokenPlus || current.typ == TokenMinus {
        var op := current.typ;
        NextToken();
        var expr := ParseUnaryExpression();
        return UnaryExpr(op, expr);
      }
      e := ParsePrimaryExpression();
    }

    method ParsePrimaryExpression() returns (e: Expr)
      requires Valid()
      modifies this, lexer
      ensures Valid() && Budget() == old(Budget())
      ensures Parsed(e, Remaining()) == ParsePrimary(old(Remaining()))
      decreases Remaining().Size(), 2, 1
    {
      if current.typ == TokenNumber {
        e := NumberLiteral(current.literal);
        NextToken();
      } else if current.typ == TokenLeftParen {
        e := ParseParenExpression();
      } else if current.typ == TokenIdentifier {
        e := ParseVectorOrFunction();
      } else if IsAggregation(current.typ) {
        e := ParseAggregationExpression();
      } else {
        e := NumberLiteral("0");
      }
    }

    method ParseParenExpression() returns (e: Expr)
      requires Valid() && current.typ == TokenLeftParen
      modifies this, lexer
      ensures Valid() && Budget() == old(Budget())
      ensures Parsed(e, Remaining()) == ParsePrimary(old(Remaining()))
      decreases Remaining().Size(), 2, 0
    {
      NextToken();
      e := ParseExpression();
      if current.typ != TokenRightParen { return; }
      NextToken();
      e := ParenExpr(e);
    }

    method ParseVectorOrFunction() returns (e: Expr)
      requires Valid() && current.typ == TokenIdentifier
      modifies this, lexer
      ensures Valid() && Budget() == old(Budget())
      ensures Parsed(e, Remaining()) == ParsePrimary(old(Remaining()))
      decreases Remaining().Size(), 2, 0
    {
      hide Remaining, Valid, ParseArguments, ParseVectorSelector;
      var name := current.literal;
      NextToken();
      if current.typ == TokenLeftParen {
        var args := ParseFunctionCall();
        e := FunctionCall(name, args);
      } else {
        e := ParseSelector(name);
      }
    }

    method ParseSelector(name: string) returns (e: Expr)
      requires Valid()
      modifies this, lexer
      ensures Valid() && Budget() == old(Budget())
      ensures Parsed(e, Remaining()) == ParseVectorSelector(name, old(Remaining()))
    {
      var matchers := [];
      if current.typ == TokenLeftBrace {
        matchers := ParseLabelMatchers();
      }
      var vector := Vector(name, matchers);
      if current.typ == TokenLeftBracket {
        e := ParseRangeSelector(vector);
      } else {
        e := VectorSelector(vector);
      }
    }

    method ParseLabelMatchers() returns (matchers: seq<Matcher>)
      requires Valid() && current.typ == TokenLeftBrace
      modifies this, lexer
      ensures Valid() && Budget() == old(Budget())
      ensures Parsed(matchers, Remaining()) == ParseBraces(old(Remaining()))
    {
      hide Remaining, Valid;
      matchers := [];
      NextToken();
      ghost var all := ParseMatchers(Remaining(), []);
      while current.typ != TokenRightBrace && current.typ != TokenEOF
        invariant Valid() && Budget() == old(Budget())
        invariant ParseMatchers(Remaining(), matchers) == all
        decreases Remaining().Size()
      {
        if current.typ != TokenIdentifier { break; }
        var name := current.literal;
        NextToken();
        if !IsLabelMatchOp(current.typ) {
          assert all == Parsed(matchers, Remaining());
          break;
        }
        var op := current.typ;
        NextToken();
        if current.typ != TokenString {
          assert all == Parsed(matchers, Remaining());
          break;
        }
        var value := current.literal;
        NextToken();
        matchers := matchers + [Matcher(name, op, value)];
        if current.typ == TokenComma { NextToken(); }
      }
      if current.typ == TokenRightBrace { NextToken(); }
    }

    method ParseRangeSelector(vector: Vector) returns (e: Expr)
      requires Valid() && current.typ == TokenLeftBracket
      modifies this, lexer
      ensures Valid() && Budget() == old(Budget())
      ensures Parsed(e, Remaining()) == ParseRange(vector, old(Remaining()))
    {
      NextToken();
      if current.typ != TokenDuration { return VectorSelector(vector); }
      var duration := Durations.ParseDuration(current.literal);
      NextToken();
      if current.typ == TokenRightBracket { NextToken(); }
      return RangeSelector(vector, duration);
    }

    /** The arguments of a call, up to and including the closing parenthesis. */
    method ParseFunctionCall() returns (args: seq<Expr>)
      requires Valid() && current.typ == TokenLeftParen
      modifies this, lexer
      ensures Valid() && Budget() == old(Budget())
      ensures var r := ParseArguments(old(Remaining()).Tail(), []);
              args == r.value && Remaining() == Skip(r.rest, TokenRightParen)
      decreases Remaining().Size(), 0, 0
    {
      NextToken();
      args := [];
      ghost var all := ParseArguments(Remaining(), []);
      var more := true;
      while more && current.typ != TokenRightParen && current.typ != TokenEOF
        invariant Valid() && Budget() == old(Budget()) && Remaining().Size() < old(Remaining()).Size()
        invariant if more then ParseArguments(Remaining(), args) == all else all == Parsed(args, Remaining())
        decreases Remaining().Size(), more
      {
        var arg := ParseExpression();
        args := args + [arg];
        if current.typ == TokenComma { NextToken(); } else { more := false; }
      }
      if current.typ == TokenRightParen { NextToken(); }
    }

    method ParseAggregationExpression() returns (e: Expr)
      requires Valid() && IsAggregation(current.typ)
      modifies this, lexer
      ensures Valid() && Budget() == old(Budget())
      ensures Parsed(e, Remaining()) == ParseAggregation(old(current).literal, old(Remaining()).Tail())
      decreases Remaining().Size(), 2, 0
    {
      hide Remaining, Valid, ParseGrouping, ParseBody;
      var op := current.literal;
      NextToken();
      var grouping, without := ParseGroupingClause();
      var body := ParseAggregatedExpression();
      e := AggregateExpr(op, grouping, without, body);
    }

    /** The optional `by (...)` or `without (...)` of an aggregation. */
    method ParseGroupingClause() returns (grouping: seq<string>, without: bool)
      requires Valid()
      modifies this, lexer
      ensures Valid() && Budget() == old(Budget())
      ensures Parsed((grouping, without), Remaining()) == ParseGrouping(old(Remaining()))
    {
      hide Remaining, Valid, ParseLabels;
      grouping, without := [], false;
      if current.typ == TokenBy || current.typ == TokenWithout {
        without := current.typ == TokenWithout;
        NextToken();
        if current.typ == TokenLeftParen {
          grouping := ParseGroupingLabels();
        }
      }
    }

    /** The optional parenthesised operand of an aggregation. */
    method ParseAggregatedExpression() returns (body: Option<Expr>)
      requires Valid()
      modifies this, lexer
      ensures Valid() && Budget() == old(Budget())
      ensures Parsed(body, Remaining()) == ParseBody(old(Remaining()))
      decreases Remaining().Size(), 1, 0
    {
      hide Remaining, Valid, ParseLevel;
      body := None;
      if current.typ == TokenLeftParen {
        NextToken();
        var expr := ParseExpression();
        body := Some(expr);
        if current.typ == TokenRightParen { NextToken(); }
      }
    }

    method ParseGroupingLabels() returns (labels: seq<string>)
      requires Valid() && current.typ == TokenLeftParen
      modifies this, lexer
      ensures Valid() && Budget() == old(Budget())
      ensures var r := ParseLabels(old(Remaining()).Tail(), []);
              labels == r.value && Remaining() == Skip(r.rest, TokenRightParen)
    {
      labels := [];
      NextToken();
      ghost var all := ParseLabels(Remaining(), []);
      var more := true;
      while more && current.typ == TokenIdentifier
        invariant Valid() && Budget() == old(Budget())
        invariant if more then ParseLabels(Remaining(), labels) == all else all == Parsed(labels, Remaining())
        decreases Remaining().Size()
      {
        labels := labels + [current.literal];
        NextToken();
        if current.typ == TokenComma { NextToken(); } else { more := false; }
      }
      if current.typ == TokenRightParen { NextToken(); }
    }
  }

  /** `NewParser` and `Parse`. */
  method ParseQuery(input: string) returns (r: Outcome)
    ensures r == ParseText(input)
  {
    var p := new Parser(input);
    r := p.Parse();
  }
}
