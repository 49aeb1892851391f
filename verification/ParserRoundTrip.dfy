/**
 Printing expression trees and parsing them back.

 `Shape` describes the trees the grammar can produce, level by level; `Print` writes such
 a tree without adding parentheses.  Parsing the printed tokens gives the tree back.
 */
module ParserRoundTrip {
  import opened Instants
  import opened Integers
  import opened Decimal
  import opened Tokens
  import opened Ast
  import opened Options
  import opened Parsing
  import Durations

  function Symbol(t: TokenType): (r: Token)
    ensures r.typ == t
  {
    if t == TokenOr then Token(t, "or")
    else if t == TokenAnd then Token(t, "and")
    else if t == TokenUnless then Token(t, "unless")
    else if t == TokenBy then Token(t, "by")
    else if t == TokenWithout then Token(t, "without")
    else Token(t, Spelling(t))
  }

  function Name(s: string): Token { Token(TokenIdentifier, s) }

  /* Printers take the tokens to follow. */

  function PrintMatchers(ms: seq<Matcher>, post: TokenList): TokenList {
    if ms == [] then post
    else
      var tail := PrintMatchers(ms[1..], post);
      More(Name(ms[0].name), More(Symbol(ms[0].op), More(Token(TokenString, ms[0].value),
        if |ms| > 1 then More(Symbol(TokenComma), tail) else tail)))
  }

  function PrintBraces(ms: seq<Matcher>, post: TokenList): TokenList {
    if ms == [] then post
    else More(Symbol(TokenLeftBrace), PrintMatchers(ms, More(Symbol(TokenRightBrace), post)))
  }

  function PrintDuration(d: int, post: TokenList): TokenList {
    var seconds := if d < 0 then 0 else d / SECOND;
    More(Symbol(TokenLeftBracket),
         More(Token(TokenDuration, Digits(seconds) + "s"), More(Symbol(TokenRightBracket), post)))
  }

  function PrintLabels(labels: seq<string>, post: TokenList): TokenList {
    if labels == [] then post
    else if |labels| == 1 then More(Name(labels[0]), post)
    else More(Name(labels[0]), More(Symbol(TokenComma), PrintLabels(labels[1..], post)))
  }

  function PrintGrouping(grouping: seq<string>, without: bool, post: TokenList): TokenList {
    if grouping == [] && !without then post
    else More(Symbol(if without then TokenWithout else TokenBy),
              More(Symbol(TokenLeftParen), PrintLabels(grouping, More(Symbol(TokenRightParen), post))))
  }

  /** The tokens of `e`, then `post`. */
  function Print(e: Expr, post: TokenList): TokenList
    decreases e, 1
  {
    match e
    case VectorSelector(v) => More(Name(v.name), PrintBraces(v.matchers, post))
    case RangeSelector(v, d) => More(Name(v.name), PrintBraces(v.matchers, PrintDuration(d, post)))
    case FunctionCall(name, args) =>
      More(Name(name), More(Symbol(TokenLeftParen), PrintArguments(args, More(Symbol(TokenRightParen), post))))
    case UnaryExpr(op, x) => More(Symbol(op), Print(x, post))
    case BinaryExpr(l, op, r) => Print(l, More(Symbol(op), Print(r, post)))
    case AggregateExpr(op, grouping, without, body) =>
      More(Token(LookupKeyword(op), op), PrintGrouping(grouping, without,
        match body
        case None => post
        case Some(x) => More(Symbol(TokenLeftParen), Print(x, More(Symbol(TokenRightParen), post)))))
    case NumberLiteral(s) => More(Token(TokenNumber, s), post)
    case ParenExpr(x) => More(Symbol(TokenLeftParen), Print(x, More(Symbol(TokenRightParen), post)))
  }

  function PrintArguments(args: seq<Expr>, post: TokenList): TokenList
    decreases args, 0
  {
    if args == [] then post
    else if |args| == 1 then Print(args[0], post)
    else Print(args[0], More(Symbol(TokenComma), PrintArguments(args[1..], post)))
  }

  /** The durations a number of seconds below 2^63 nanoseconds denotes; every duration
      literal whose value fits in 64 bits has one of these. */
  predicate Representable(d: int) {
    0 <= d < TWO63 && d % SECOND == 0
  }

  predicate VectorShape(v: Vector) {
    forall i :: 0 <= i < |v.matchers| ==> IsLabelMatchOp(v.matchers[i].op)
  }

  /** `e` is a tree the grammar produces at level `k` or tighter. */
  predicate Shape(e: Expr, k: nat)
    decreases e, 1
  {
    match e
    case VectorSelector(v) => VectorShape(v)
    case RangeSelector(v, d) => VectorShape(v) && Representable(d)
    case FunctionCall(_, args) => ShapeAll(args)
    case UnaryExpr(op, x) => k <= UNARY && (op == TokenPlus || op == TokenMinus) && Shape(x, UNARY)
    case BinaryExpr(l, op, r) =>
      var j := OperatorLevel(op);
      && k <= j < UNARY
      && Shape(l, if LeftAssociative(j) then j else j + 1)
      && Shape(r, if j == POWER then j else j + 1)
    case AggregateExpr(op, _, _, body) => IsAggregation(LookupKeyword(op)) && (body.Some? ==> Shape(body.value, OR))
    case NumberLiteral(_) => true
    case ParenExpr(x) => Shape(x, OR)
  }

  predicate ShapeAll(args: seq<Expr>)
    decreases args, 0
  {
    args == [] || (Shape(args[0], OR) && ShapeAll(args[1..]))
  }

  /** The tokens that may stand after an expression. */
  predicate Follows(t: TokenType) {
    t == TokenRightParen || t == TokenComma || t == TokenEOF || OperatorLevel(t) < PRIMARY
  }

  /** The tokens that may follow an expression of level `k` without joining it. */
  predicate Stops(k: nat, t: TokenType) {
    Follows(t) && (OperatorLevel(t) < k || OperatorLevel(t) == PRIMARY)
  }

  /** What an expression starts with. */
  predicate Starts(t: TokenType) {
    t == TokenNumber || t == TokenLeftParen || t == TokenIdentifier || t == TokenPlus || t == TokenMinus || IsAggregation(t)
  }

  lemma {:induction false} FirstToken(e: Expr, k: nat, post: TokenList)
    requires Shape(e, k)
    ensures Starts(Print(e, post).Type())
    ensures !e.UnaryExpr? && !e.BinaryExpr? ==> Print(e, post).Type() != TokenPlus && Print(e, post).Type() != TokenMinus
    decreases e
  {
    hide Symbol, LookupKeyword;
    match e
    case BinaryExpr(l, op, r) =>
      var j := OperatorLevel(op);
      FirstToken(l, if LeftAssociative(j) then j else j + 1, More(Symbol(op), Print(r, post)));
    case _ =>
  }

  /* ---- selectors ---- */

  lemma MatchersStep(m: Matcher, acc: seq<Matcher>, more: bool, tail: TokenList)
    requires IsLabelMatchOp(m.op) && (!more ==> tail.Type() == TokenRightBrace)
    ensures var after := if more then More(Symbol(TokenComma), tail) else tail;
            ParseMatchers(More(Name(m.name), More(Symbol(m.op), More(Token(TokenString, m.value), after))), acc) ==
            ParseMatchers(tail, acc + [m])
  {
    hide Symbol, LookupKeyword, LeftOf;
  }

  lemma MatchersEnd(acc: seq<Matcher>, post: TokenList)
    requires post.Type() == TokenRightBrace
    ensures ParseMatchers(post, acc) == Parsed(acc, post)
  {
  }

  lemma {:induction false} MatchersBack(ms: seq<Matcher>, acc: seq<Matcher>, post: TokenList)
    requires forall i :: 0 <= i < |ms| ==> IsLabelMatchOp(ms[i].op)
    requires post.Type() == TokenRightBrace
    ensures var ts := PrintMatchers(ms, post);
            ParseMatchers(ts, acc) == Parsed(acc + ms, post)
    decreases |ms|
  {
    hide Symbol, Name, IsLabelMatchOp, ParseMatchers;
    MatchersEnd(acc, post);
    if ms == [] {
      assert acc + ms == acc;
    } else {
      MatchersBack(ms[1..], acc + [ms[0]], post);
      MatchersStep(ms[0], acc, |ms| > 1, PrintMatchers(ms[1..], post));
      assert acc + ms == acc + [ms[0]] + ms[1..];
    }
  }

  lemma {:induction false} BracesBack(ms: seq<Matcher>, post: TokenList)
    requires forall i :: 0 <= i < |ms| ==> IsLabelMatchOp(ms[i].op)
    requires post.Type() != TokenLeftBrace
    ensures var ts := PrintBraces(ms, post); ParseBraces(ts) == Parsed(ms, post)
  {
    hide Symbol, IsLabelMatchOp, ParseMatchers, PrintMatchers, LeftOf;
    if ms != [] {
      MatchersBack(ms, [], More(Symbol(TokenRightBrace), post));
      assert [] + ms == ms;
    }
  }

  lemma DurationBack(d: int)
    requires Representable(d)
    ensures Durations.ParseResult(Digits(d / SECOND) + "s") == d
  {
    Durations.ParseNumberAndUnit(d / SECOND, "s");
  }

  lemma {:induction false} RangeBack(v: Vector, d: int, post: TokenList)
    requires Representable(d)
    ensures var ts := PrintDuration(d, post);
            ts.Type() == TokenLeftBracket && ParseRange(v, ts) == Parsed(RangeSelector(v, d), post)
  {
    hide Symbol, Durations.ParseResult;
    DurationBack(d);
  }

  /* ---- aggregations ---- */

  lemma {:induction false} LabelsBack(labels: seq<string>, acc: seq<string>, post: TokenList)
    requires post.Type() == TokenRightParen
    ensures var ts := PrintLabels(labels, post);
            ParseLabels(ts, acc) == Parsed(acc + labels, post)
    decreases |labels|
  {
    hide Symbol, LookupKeyword;
    if labels == [] {
      assert acc + labels == acc;
    } else if |labels| == 1 {
      assert labels == [labels[0]];
    } else {
      LabelsBack(labels[1..], acc + [labels[0]], post);
      assert acc + labels == acc + [labels[0]] + labels[1..];
    }
  }

  lemma {:induction false} GroupingBack(grouping: seq<string>, without: bool, post: TokenList)
    requires post.Type() != TokenBy && post.Type() != TokenWithout
    ensures var ts := PrintGrouping(grouping, without, post);
            ParseGrouping(ts) == Parsed((grouping, without), post)
  {
    hide Symbol, PrintLabels, ParseLabels, LeftOf;
    var tail := More(Symbol(TokenRightParen), post);
    LabelsBack(grouping, [], tail);
    assert [] + grouping == grouping;
  }

  /* ---- expressions ---- */

  /** The round trip at one level, in front of tokens that do not join the expression. */
  lemma {:induction false} LevelBack(e: Expr, k: nat, post: TokenList)
    requires k <= PRIMARY && Shape(e, k) && Stops(k, post.Type())
    ensures ParseLevel(k, Print(e, post)) == Parsed(e, post)
    decreases e, 1, PRIMARY - k, 1
  {
    if k == PRIMARY {
      PrimaryBack(e, post);
    } else if k == UNARY {
      UnaryBack(e, post);
    } else if LeftAssociative(k) {
      SpineBack(e, k, post);
      RightStops(k, e, post);
    } else {
      OperandBack(e, k, post);
    }
  }

  lemma {:induction false} UnaryBack(e: Expr, post: TokenList)
    requires Shape(e, UNARY) && Stops(UNARY, post.Type())
    ensures ParseLevel(UNARY, Print(e, post)) == Parsed(e, post)
    decreases e, 1, 0, 0
  {
    hide Symbol, LookupKeyword;
    if e.UnaryExpr? {
      LevelBack(e.expr, UNARY, post);
    } else {
      FirstToken(e, UNARY, post);
      PrimaryBack(e, post);
    }
  }

  /** The operands of a binary tree have the shapes their positions ask for. */
  lemma OperandShapes(e: Expr, k: nat)
    requires Shape(e, k) && k < UNARY
    ensures if e.BinaryExpr? && OperatorLevel(e.op) == k
            then Shape(e.left, if LeftAssociative(k) then k else k + 1) && Shape(e.right, if k == POWER then k else k + 1)
            else Shape(e, k + 1)
  {
    hide ShapeAll, LookupKeyword, IsAggregation, Representable;
  }

  lemma PrintedBinary(e: Expr, post: TokenList)
    requires e.BinaryExpr?
    ensures Print(e, post) == Print(e.left, More(Symbol(e.op), Print(e.right, post)))
  {
  }

  /** At a left-associative level the tokens of `e` lead the loop to `e`, whatever operator
      of the level follows. */
  lemma {:induction false} SpineBack(e: Expr, k: nat, post: TokenList)
    requires LeftAssociative(k) && Shape(e, k) && Stops(k + 1, post.Type())
    ensures ParseLevel(k, Print(e, post)) == ParseRight(k, e, post)
    decreases e, 1, PRIMARY - k, 0
  {
    hide Symbol, Print, Shape, ParseLevel, ParseRight, LeftOf, ShapeAll, Representable;
    LevelUnfolds(k, Print(e, post));
    OperandShapes(e, k);
    if e.BinaryExpr? && OperatorLevel(e.op) == k {
      var tail := More(Symbol(e.op), Print(e.right, post));
      PrintedBinary(e, post);
      SpineBack(e.left, k, tail);
      LevelBack(e.right, k + 1, post);
      RightLoops(k, e.left, tail);
      LevelUnfolds(k, Print(e.left, tail));
    } else {
      LevelBack(e, k + 1, post);
    }
  }

  /** The comparison level takes at most one operator; the power level recurs on the right. */
  lemma {:induction false} OperandBack(e: Expr, k: nat, post: TokenList)
    requires (k == COMPARISON || k == POWER) && Shape(e, k) && Stops(k, post.Type())
    ensures ParseLevel(k, Print(e, post)) == Parsed(e, post)
    decreases e, 1, PRIMARY - k, 0
  {
    hide Symbol, Print, Shape, ParseLevel, ParseRight;
    LevelUnfolds(k, Print(e, post));
    OperandShapes(e, k);
    if e.BinaryExpr? && OperatorLevel(e.op) == k {
      var tail := More(Symbol(e.op), Print(e.right, post));
      PrintedBinary(e, post);
      LevelBack(e.left, k + 1, tail);
      LevelBack(e.right, if k == POWER then k else k + 1, post);
      RightOnce(k, e.left, tail);
    } else {
      LevelBack(e, k + 1, post);
      RightStops(k, e, post);
    }
  }

  lemma {:induction false} PrimaryBack(e: Expr, post: TokenList)
    requires Shape(e, PRIMARY) && Follows(post.Type())
    ensures ParsePrimary(Print(e, post)) == Parsed(e, post)
    decreases e, 0, 1
  {
    match e
    case VectorSelector(v) => SelectorBack(e, post);
    case RangeSelector(v, d) => SelectorBack(e, post);
    case FunctionCall(name, args) => CallBack(name, args, post, e);
    case AggregateExpr(_, _, _, _) => AggregateBack(e, post);
    case NumberLiteral(_) =>
    case ParenExpr(x) => ParenBack(e, post);
  }

  lemma PrimaryIsSelector(ts: TokenList)
    requires ts.Type() == TokenIdentifier && ts.Tail().Type() != TokenLeftParen
    ensures ParsePrimary(ts) == ParseVectorSelector(ts.Head().literal, ts.Tail())
  {
  }

  lemma PrimaryIsCall(ts: TokenList)
    requires ts.Type() == TokenIdentifier && ts.Tail().Type() == TokenLeftParen
    ensures var r := ParseArguments(ts.Tail().Tail(), []);
            ParsePrimary(ts) == Parsed(FunctionCall(ts.Head().literal, r.value), Skip(r.rest, TokenRightParen))
  {
    hide ParseArguments, LeftOf;
  }

  lemma PrimaryIsAggregation(ts: TokenList)
    requires IsAggregation(ts.Type())
    ensures ParsePrimary(ts) == ParseAggregation(ts.Head().literal, ts.Tail())
  {
  }

  /** What follows an expression starts neither matchers nor a range nor arguments. */
  lemma FollowsNothing(t: TokenType)
    ensures Follows(t) ==> t != TokenLeftBrace && t != TokenLeftBracket && t != TokenLeftParen
  {
  }

  lemma BracesStart(ms: seq<Matcher>, post: TokenList)
    ensures PrintBraces(ms, post).Type() == if ms == [] then post.Type() else TokenLeftBrace
  {
    hide Symbol, PrintMatchers;
  }

  lemma DurationStart(d: int, post: TokenList)
    ensures PrintDuration(d, post).Type() == TokenLeftBracket
  {
    hide Symbol;
  }

  lemma NoRange(v: Vector, post: TokenList)
    ensures post.Type() != TokenLeftBracket ==> ParseRange(v, post) == Parsed(VectorSelector(v), post)
  {
    hide LeftOf;
  }

  lemma {:induction false} SelectorBack(e: Expr, post: TokenList)
    requires (e.VectorSelector? || e.RangeSelector?) && Shape(e, PRIMARY) && Follows(post.Type())
    ensures ParsePrimary(Print(e, post)) == Parsed(e, post)
  {
    hide Symbol, ParseBraces, ParseRange, PrintBraces, PrintDuration, ParsePrimary, LeftOf, Representable;
    FollowsNothing(post.Type());
    BracesStart(e.vector.matchers, PrintDuration(if e.RangeSelector? then e.duration else 0, post));
    BracesStart(e.vector.matchers, post);
    DurationStart(if e.RangeSelector? then e.duration else 0, post);
    NoRange(e.vector, post);
    var ms := e.vector.matchers;
    match e {
      case VectorSelector(v) =>
        BracesBack(ms, post);
      case RangeSelector(v, d) =>
        RangeBack(v, d, post);
        BracesBack(ms, PrintDuration(d, post));
    }
    PrimaryIsSelector(Print(e, post));
  }

  lemma {:induction false} ParenBack(e: Expr, post: TokenList)
    requires e.ParenExpr? && Shape(e, PRIMARY)
    ensures ParsePrimary(Print(e, post)) == Parsed(e, post)
    decreases e, 0, 0
  {
    LevelBack(e.expr, OR, More(Symbol(TokenRightParen), post));
    hide Symbol, ParseLevel;
  }

  lemma PrintCall(name: string, args: seq<Expr>, post: TokenList)
    ensures Print(FunctionCall(name, args), post) ==
            More(Name(name), More(Symbol(TokenLeftParen), PrintArguments(args, More(Symbol(TokenRightParen), post))))
  {
    hide Symbol, PrintArguments;
  }

  lemma SkipsClosing(post: TokenList)
    ensures Skip(More(Symbol(TokenRightParen), post), TokenRightParen) == post
  {
  }

  lemma CallShape(name: string, args: seq<Expr>)
    requires Shape(FunctionCall(name, args), PRIMARY)
    ensures ShapeAll(args)
  {
    hide ShapeAll;
  }

  lemma {:induction false} CallBack(name: string, args: seq<Expr>, post: TokenList, e: Expr)
    requires e == FunctionCall(name, args) && Shape(e, PRIMARY)
    ensures ParsePrimary(Print(e, post)) == Parsed(e, post)
    decreases e, 0, 0
  {
    hide *;
    var close := More(Symbol(TokenRightParen), post);
    CallShape(name, args);
    assert close.Type() == TokenRightParen by { TypeOfMore(Symbol(TokenRightParen), post); }
    ArgumentsBack(args, [], close);
    PrintCall(name, args, post);
    SkipsClosing(post);
    CallStarts(name, PrintArguments(args, close));
    PrimaryIsCall(Print(e, post));
    assert [] + args == args;
  }

  lemma TypeOfMore(t: Token, ts: TokenList)
    ensures More(t, ts).Type() == t.typ
  {
  }

  lemma CallStarts(name: string, rest: TokenList)
    ensures var ts := More(Name(name), More(Symbol(TokenLeftParen), rest));
            ts.Type() == TokenIdentifier && ts.Tail().Type() == TokenLeftParen && ts.Tail().Tail() == rest && ts.Head().literal == name
  {
    hide Symbol;
  }

  function PrintBody(body: Option<Expr>, post: TokenList): TokenList {
    match body
    case None => post
    case Some(x) => More(Symbol(TokenLeftParen), Print(x, More(Symbol(TokenRightParen), post)))
  }

  lemma {:induction false} BodyBack(body: Option<Expr>, post: TokenList)
    requires body.Some? ==> Shape(body.value, OR)
    requires Follows(post.Type())
    ensures ParseBody(PrintBody(body, post)) == Parsed(body, post)
    ensures PrintBody(body, post).Type() != TokenBy && PrintBody(body, post).Type() != TokenWithout
    decreases body
  {
    if body.Some? { LevelBack(body.value, OR, More(Symbol(TokenRightParen), post)); }
    hide Symbol, ParseLevel, LeftOf, Print, Shape;
  }

  lemma {:induction false} AggregateBack(e: Expr, post: TokenList)
    requires e.AggregateExpr? && Shape(e, PRIMARY) && Follows(post.Type())
    ensures ParsePrimary(Print(e, post)) == Parsed(e, post)
    decreases e, 0, 0
  {
    hide Symbol, LookupKeyword, IsAggregation, ParseBody, ParseGrouping, PrintGrouping, ParsePrimary;
    var tail := PrintBody(e.body, post);
    BodyBack(e.body, post);
    GroupingBack(e.grouping, e.without, tail);
    PrimaryIsAggregation(Print(e, post));
  }

  lemma NoArguments(ts: TokenList, acc: seq<Expr>)
    requires ts.Type() == TokenRightParen
    ensures ParseArguments(ts, acc) == Parsed(acc, ts)
  {
  }

  lemma ArgumentsContinue(ts: TokenList, acc: seq<Expr>)
    requires Starts(ts.Type())
    ensures var a := ParseLevel(OR, ts);
            ParseArguments(ts, acc) ==
            if a.rest.Type() == TokenComma then ParseArguments(a.rest.Tail(), acc + [a.value])
            else Parsed(acc + [a.value], a.rest)
  {
    hide ParseLevel;
  }

  lemma {:induction false} ArgumentsBack(args: seq<Expr>, acc: seq<Expr>, post: TokenList)
    requires ShapeAll(args) && post.Type() == TokenRightParen
    ensures ParseArguments(PrintArguments(args, post), acc) == Parsed(acc + args, post)
    decreases args, 0
  {
    hide Symbol, ParseLevel, ParseArguments, Shape, Print;
    if args == [] {
      NoArguments(post, acc);
      assert acc + args == acc;
    } else {
      var tail := if |args| == 1 then post else More(Symbol(TokenComma), PrintArguments(args[1..], post));
      FirstToken(args[0], OR, tail);
      LevelBack(args[0], OR, tail);
      ArgumentsContinue(Print(args[0], tail), acc);
      if |args| == 1 {
        assert args == [args[0]];
      } else {
        ArgumentsBack(args[1..], acc + [args[0]], post);
        assert acc + args == acc + [args[0]] + args[1..];
      }
    }
  }

  /** The tree round trip: parsing the printed tokens of a grammar tree consumes them all
      and gives back the tree. */
  lemma {:induction false} ParsePrinted(e: Expr)
    requires Shape(e, OR)
    ensures ParseLevel(OR, Print(e, End)) == Parsed(e, End)
  {
    LevelBack(e, OR, End);
  }

  /** No two grammar trees print alike. */
  lemma {:induction false} PrintInjective(a: Expr, b: Expr)
    requires Shape(a, OR) && Shape(b, OR) && Print(a, End) == Print(b, End)
    ensures a == b
  {
    ParsePrinted(a);
    ParsePrinted(b);
  }
}
