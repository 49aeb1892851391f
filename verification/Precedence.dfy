/**
 Which operator binds tighter in the trees of the query parser (pkg/query/parser.go), stated on
 the operators themselves.
 */
module Precedence {
  import opened Tokens
  import opened Ast
  import opened Options
  import opened Parsing
  import opened ParserRoundTrip
  import Lexing

  /** How tight an operator binds, `or` loosest and `^` tightest; 0 for other tokens. */
  function Tightness(t: TokenType): (n: nat)
    ensures n <= 7
  {
    if t in {TokenOr} then 1
    else if t in {TokenAnd} then 2
    else if t in {TokenUnless} then 3
    else if t in {TokenEqualEqual, TokenNotEqual, TokenLess, TokenLessEqual, TokenGreater, TokenGreaterEqual} then 4
    else if t in {TokenPlus, TokenMinus} then 5
    else if t in {TokenMultiply, TokenDivide, TokenMod} then 6
    else if t in {TokenPower} then 7
    else 0
  }

  /** The operators that associate to the left. */
  predicate ToTheLeft(t: TokenType) {
    t in {TokenOr, TokenAnd, TokenUnless, TokenPlus, TokenMinus, TokenMultiply, TokenDivide, TokenMod}
  }

  /** A left operand binds tighter, or equally where the operator associates to the left. */
  predicate FitsLeft(op: TokenType, x: Expr) {
    x.BinaryExpr? ==> Tightness(x.op) > Tightness(op) || (Tightness(x.op) == Tightness(op) && ToTheLeft(op))
  }

  /** A right operand binds tighter, or is a power in a power. */
  predicate FitsRight(op: TokenType, x: Expr) {
    x.BinaryExpr? ==> Tightness(x.op) > Tightness(op) || (op == TokenPower && x.op == TokenPower)
  }

  /** In the whole tree every operand without parentheses fits its operator; a sign has no binary
      operand. */
  predicate WellBound(e: Expr)
    decreases e, 1
  {
    match e
    case VectorSelector(_) => true
    case RangeSelector(_, _) => true
    case FunctionCall(_, args) => AllBound(args)
    case UnaryExpr(_, x) => !x.BinaryExpr? && WellBound(x)
    case BinaryExpr(l, op, r) => Tightness(op) > 0 && FitsLeft(op, l) && FitsRight(op, r) && WellBound(l) && WellBound(r)
    case AggregateExpr(_, _, _, body) => body.Some? ==> WellBound(body.value)
    case NumberLiteral(_) => true
    case ParenExpr(x) => WellBound(x)
  }

  predicate AllBound(args: seq<Expr>)
    decreases args, 0
  {
    args == [] || (WellBound(args[0]) && AllBound(args[1..]))
  }

  /* ---- counting parentheses ---- */

  function Weight(t: TokenType): int { if t == TokenLeftParen then 1 else if t == TokenRightParen then -1 else 0 }

  /** How many more parentheses open than close. */
  function Depth(ts: TokenList): int { if ts.End? then 0 else Weight(ts.head.typ) + Depth(ts.tail) }

  lemma DepthOfTail(ts: TokenList)
    ensures Depth(ts) == Depth(ts.Tail()) + Weight(ts.Type())
  {
  }

  /** The tokens between `ts` and `rest` close all the parentheses they open. */
  predicate Even(ts: TokenList, rest: TokenList) { Depth(ts) == Depth(rest) }

  lemma DepthSkipped(ts: TokenList, t: TokenType)
    ensures Depth(Skip(ts, t)) == if ts.Type() == t then Depth(ts) - Weight(t) else Depth(ts)
  {
    DepthOfTail(ts);
  }

  lemma ThreePast(ts: TokenList)
    requires Weight(ts.Type()) == 0 && Weight(ts.Tail().Type()) == 0
    ensures Even(ts, ts.Tail()) && Even(ts, Past2(ts))
    ensures Weight(ts.Tail().Tail().Type()) == 0 ==> Even(ts, Past3(ts))
  {
    hide Depth, LeftOf, Weight;
    DepthOfTail(ts);
    DepthOfTail(ts.Tail());
    DepthOfTail(ts.Tail().Tail());
  }

  lemma {:induction false} MatchersFlat(ts: TokenList, acc: seq<Matcher>)
    ensures Even(ts, ParseMatchers(ts, acc).rest)
    decreases ts.Size()
  {
    hide Depth, LeftOf, Weight;
    Weights();
    if ts.Type() == TokenIdentifier {
      DepthOfTail(ts);
      if IsLabelMatchOp(ts.Tail().Type()) {
        ThreePast(ts);
        if ts.Tail().Tail().Type() == TokenString {
          var m := Matcher(ts.Head().literal, ts.Tail().Type(), ts.Tail().Tail().Head().literal);
          DepthSkipped(Past3(ts), TokenComma);
          MatchersFlat(Skip(Past3(ts), TokenComma), acc + [m]);
        }
      }
    }
  }

  lemma Weights()
    ensures Weight(TokenLeftParen) == 1 && Weight(TokenRightParen) == -1
    ensures forall t :: t != TokenLeftParen && t != TokenRightParen ==> Weight(t) == 0
  {
  }

  lemma {:induction false} LabelsFlat(ts: TokenList, acc: seq<string>)
    ensures Even(ts, ParseLabels(ts, acc).rest)
    decreases ts.Size()
  {
    hide Depth, LeftOf, Weight;
    Weights();
    DepthOfTail(ts);
    DepthOfTail(ts.Tail());
    if ts.Type() == TokenIdentifier && ts.Tail().Type() == TokenComma {
      LabelsFlat(Past2(ts), acc + [ts.Head().literal]);
    }
  }

  lemma BracesFlat(ts: TokenList)
    ensures Even(ts, ParseBraces(ts).rest)
  {
    hide Depth, LeftOf, Weight, ParseMatchers;
    Weights();
    DepthOfTail(ts);
    MatchersFlat(ts.Tail(), []);
    DepthSkipped(ParseMatchers(ts.Tail(), []).rest, TokenRightBrace);
  }

  lemma RangeFlat(vector: Vector, ts: TokenList)
    ensures var r := ParseRange(vector, ts); Even(ts, r.rest) && (r.value.VectorSelector? || r.value.RangeSelector?)
  {
    hide Depth, LeftOf, Weight;
    Weights();
    DepthOfTail(ts);
    DepthOfTail(ts.Tail());
    DepthSkipped(Past2(ts), TokenRightBracket);
  }

  lemma {:induction false} SelectorFlat(name: string, ts: TokenList)
    ensures var r := ParseVectorSelector(name, ts); Even(ts, r.rest) && WellBound(r.value) && !r.value.BinaryExpr?
  {
    hide Depth, LeftOf, ParseBraces, ParseRange;
    BracesFlat(ts);
    RangeFlat(Vector(name, ParseBraces(ts).value), ParseBraces(ts).rest);
  }

  /** A grouping clause opens no more than it may leave open. */
  lemma {:induction false} GroupingDepth(ts: TokenList)
    ensures Depth(ParseGrouping(ts).rest) <= Depth(ts)
  {
    hide Depth, LeftOf, Weight, ParseLabels;
    Weights();
    DepthOfTail(ts);
    DepthOfTail(ts.Tail());
    LabelsFlat(Past2(ts), []);
    DepthSkipped(ParseLabels(Past2(ts), []).rest, TokenRightParen);
  }

  /* ---- the parser ---- */

  /** The levels of the parser are the tightnesses, from 0 on. */
  lemma LevelIs(t: TokenType)
    ensures OperatorLevel(t) < UNARY ==> Tightness(t) == OperatorLevel(t) + 1 && (ToTheLeft(t) <==> LeftAssociative(OperatorLevel(t)))
    ensures OperatorLevel(t) >= UNARY <==> Tightness(t) == 0
    ensures OperatorLevel(t) == POWER <==> t == TokenPower
  {
  }

  predicate Tighter(e: Expr, k: nat) { e.BinaryExpr? ==> Tightness(e.op) > k }

  /** No more parentheses are closed than opened, and where as many are closed the tree is well
      bound and as tight as the level says. */
  predicate Bound(ts: TokenList, r: Parsed<Expr>, k: nat) {
    Depth(r.rest) <= Depth(ts) && (Even(ts, r.rest) ==> WellBound(r.value) && Tighter(r.value, k))
  }

  lemma PrimaryLevel(ts: TokenList)
    ensures ParseLevel(PRIMARY, ts) == ParsePrimary(ts)
  {
    hide ParsePrimary, ParseRight, LeftOf;
  }

  lemma SignLevel(ts: TokenList)
    ensures var r := ParseLevel(UNARY, ts.Tail());
            ParseLevel(UNARY, ts) ==
            if ts.Type() == TokenPlus || ts.Type() == TokenMinus then Parsed(UnaryExpr(ts.Type(), r.value), r.rest)
            else ParseLevel(PRIMARY, ts)
  {
    hide ParsePrimary, ParseRight, LeftOf;
  }

  lemma {:induction false} LevelBound(k: nat, ts: TokenList)
    requires k <= PRIMARY
    ensures Bound(ts, ParseLevel(k, ts), k)
    decreases ts.Size(), 3, PRIMARY - k
  {
    hide Depth, Weight, ParsePrimary, ParseRight, WellBound, Tighter, Even, ParseLevel, Bound, RightFits;
    if k == PRIMARY {
      PrimaryLevel(ts);
      PrimaryBound(ts);
    } else if k == UNARY {
      SignLevel(ts);
      if ts.Type() == TokenPlus || ts.Type() == TokenMinus {
        LevelBound(UNARY, ts.Tail());
        SignBound(ts, ParseLevel(UNARY, ts.Tail()));
      } else {
        LevelBound(PRIMARY, ts);
        Untied(ts, ParseLevel(PRIMARY, ts));
      }
    } else {
      LevelUnfolds(k, ts);
      var l := ParseLevel(k + 1, ts);
      LevelBound(k + 1, ts);
      RightBound(k, l.value, l.rest);
      LevelJoins(k, ts, l, ParseRight(k, l.value, l.rest));
    }
  }

  lemma SignBound(ts: TokenList, r: Parsed<Expr>)
    requires (ts.Type() == TokenPlus || ts.Type() == TokenMinus) && Bound(ts.Tail(), r, UNARY)
    ensures Bound(ts, Parsed(UnaryExpr(ts.Type(), r.value), r.rest), UNARY)
  {
    hide Depth, Weight;
    Weights();
    DepthOfTail(ts);
  }

  lemma Untied(ts: TokenList, r: Parsed<Expr>)
    requires Bound(ts, r, PRIMARY)
    ensures Bound(ts, r, UNARY)
  {
    hide Depth, WellBound;
  }

  lemma LevelJoins(k: nat, ts: TokenList, l: Parsed<Expr>, r: Parsed<Expr>)
    requires k < UNARY && Bound(ts, l, k + 1) && RightFits(k, l.value, l.rest, r)
    ensures Bound(ts, r, k)
  {
    hide Depth, WellBound;
  }

  /** What follows a left operand keeps the tree well bound. */
  predicate RightFits(k: nat, left: Expr, ts: TokenList, r: Parsed<Expr>) {
    && Depth(r.rest) <= Depth(ts)
    && (Even(ts, r.rest) && WellBound(left) && Tighter(left, if LeftAssociative(k) then k else k + 1) ==>
          WellBound(r.value) && Tighter(r.value, k))
  }

  lemma {:induction false} RightBound(k: nat, left: Expr, ts: TokenList)
    requires k < UNARY
    ensures RightFits(k, left, ts, ParseRight(k, left, ts))
    decreases ts.Size(), 0, 0
  {
    hide Depth, Weight, ParseLevel, WellBound, Tighter, Even;
    if OperatorLevel(ts.Type()) == k {
      var j := if k == POWER then k else k + 1;
      var r := ParseLevel(j, ts.Tail());
      LevelBound(j, ts.Tail());
      var e := BinaryExpr(left, ts.Type(), r.value);
      if LeftAssociative(k) {
        RightBound(k, e, r.rest);
        OperandJoins(k, left, ts, r, ParseRight(k, e, r.rest));
      } else {
        OperandEnds(k, left, ts, r);
      }
    } else {
      NothingFollows(k, left, ts);
    }
  }

  lemma NothingFollows(k: nat, left: Expr, ts: TokenList)
    ensures RightFits(k, left, ts, Parsed(left, ts))
  {
    hide Depth, WellBound;
  }

  lemma OperandFits(k: nat, left: Expr, ts: TokenList, r: Parsed<Expr>)
    requires k < UNARY && OperatorLevel(ts.Type()) == k && Bound(ts.Tail(), r, if k == POWER then k else k + 1)
    requires Even(ts, r.rest) && WellBound(left) && Tighter(left, if LeftAssociative(k) then k else k + 1)
    ensures var e := BinaryExpr(left, ts.Type(), r.value); WellBound(e) && Tighter(e, k)
  {
    hide Depth, Weight;
    Weights();
    DepthOfTail(ts);
    LevelIs(ts.Type());
  }

  lemma OperandEnds(k: nat, left: Expr, ts: TokenList, r: Parsed<Expr>)
    requires k < UNARY && OperatorLevel(ts.Type()) == k && Bound(ts.Tail(), r, if k == POWER then k else k + 1)
    ensures RightFits(k, left, ts, Parsed(BinaryExpr(left, ts.Type(), r.value), r.rest))
  {
    hide Depth, Weight, WellBound, Tighter;
    OperatorWeight(ts);
    if Even(ts, r.rest) && WellBound(left) && Tighter(left, if LeftAssociative(k) then k else k + 1) { OperandFits(k, left, ts, r); }
  }

  lemma OperatorWeight(ts: TokenList)
    requires OperatorLevel(ts.Type()) < UNARY
    ensures Depth(ts) == Depth(ts.Tail())
  {
    hide Depth;
    DepthOfTail(ts);
  }

  lemma OperandJoins(k: nat, left: Expr, ts: TokenList, r: Parsed<Expr>, s: Parsed<Expr>)
    requires k < UNARY && OperatorLevel(ts.Type()) == k && LeftAssociative(k) && Bound(ts.Tail(), r, k + 1)
    requires RightFits(k, BinaryExpr(left, ts.Type(), r.value), r.rest, s)
    ensures RightFits(k, left, ts, s)
  {
    hide Depth, Weight, WellBound, Tighter;
    OperatorWeight(ts);
    if Even(ts, s.rest) && WellBound(left) && Tighter(left, k) { OperandFits(k, left, ts, r); }
  }

  lemma {:induction false} PrimaryBound(ts: TokenList)
    ensures Bound(ts, ParsePrimary(ts), PRIMARY)
    decreases ts.Size(), 2, 0
  {
    hide Depth, Weight, ParseLevel, ParseArguments, ParseAggregation, ParseVectorSelector, WellBound, Even, Tighter;
    if ts.Type() == TokenNumber {
      NumberBound(ts);
    } else if ts.Type() == TokenLeftParen {
      LevelBound(OR, ts.Tail());
      ParenBound(ts, ParseLevel(OR, ts.Tail()));
    } else if ts.Type() == TokenIdentifier {
      if ts.Tail().Type() == TokenLeftParen {
        ArgumentsBound(Past2(ts), []);
        CallBound(ts, ParseArguments(Past2(ts), []));
      } else {
        SelectorFlat(ts.Head().literal, ts.Tail());
        SelectorBound(ts, ParseVectorSelector(ts.Head().literal, ts.Tail()));
      }
    } else if IsAggregation(ts.Type()) {
      AggregationBound(ts.Head().literal, ts.Tail());
      KeywordBound(ts, ParseAggregation(ts.Head().literal, ts.Tail()));
    } else {
      DummyBound(ts);
    }
  }

  lemma NumberBound(ts: TokenList)
    requires ts.Type() == TokenNumber
    ensures Bound(ts, Parsed(NumberLiteral(ts.Head().literal), ts.Tail()), PRIMARY)
  {
    DepthOfTail(ts);
  }

  lemma DummyBound(ts: TokenList)
    ensures Bound(ts, Parsed(NumberLiteral("0"), ts), PRIMARY)
  {
  }

  /** A parenthesis that is not closed leaves the tokens uneven. */
  lemma ParenBound(ts: TokenList, r: Parsed<Expr>)
    requires ts.Type() == TokenLeftParen && Bound(ts.Tail(), r, OR)
    ensures Bound(ts, if r.rest.Type() == TokenRightParen then Parsed(ParenExpr(r.value), r.rest.Tail()) else r, PRIMARY)
  {
    hide Depth, Weight;
    Weights();
    DepthOfTail(ts);
    DepthOfTail(r.rest);
  }

  lemma CallBound(ts: TokenList, r: Parsed<seq<Expr>>)
    requires ts.Type() == TokenIdentifier && ts.Tail().Type() == TokenLeftParen
    requires Depth(r.rest) <= Depth(Past2(ts)) && (Even(Past2(ts), r.rest) ==> AllBound(r.value))
    ensures Bound(ts, Parsed(FunctionCall(ts.Head().literal, r.value), Skip(r.rest, TokenRightParen)), PRIMARY)
  {
    hide Depth, Weight, AllBound;
    Weights();
    DepthOfTail(ts);
    DepthOfTail(ts.Tail());
    DepthSkipped(r.rest, TokenRightParen);
  }

  lemma SelectorBound(ts: TokenList, r: Parsed<Expr>)
    requires ts.Type() == TokenIdentifier && Even(ts.Tail(), r.rest) && WellBound(r.value) && !r.value.BinaryExpr?
    ensures Bound(ts, r, PRIMARY)
  {
    hide Depth, WellBound;
    DepthOfTail(ts);
  }

  lemma KeywordBound(ts: TokenList, r: Parsed<Expr>)
    requires IsAggregation(ts.Type()) && Bound(ts.Tail(), r, PRIMARY)
    ensures Bound(ts, r, PRIMARY)
  {
    hide Depth, WellBound;
    DepthOfTail(ts);
  }

  lemma {:induction false} BoundAppend(acc: seq<Expr>, e: Expr)
    ensures AllBound(acc + [e]) <==> AllBound(acc) && WellBound(e)
  {
    if acc == [] {
      assert ([] + [e])[1..] == [];
    } else {
      assert (acc + [e])[1..] == acc[1..] + [e];
      BoundAppend(acc[1..], e);
    }
  }

  lemma {:induction false} ArgumentsBound(ts: TokenList, acc: seq<Expr>)
    ensures var r := ParseArguments(ts, acc);
            Depth(r.rest) <= Depth(ts) && (Even(ts, r.rest) && AllBound(acc) ==> AllBound(r.value))
    decreases ts.Size(), 4, 0
  {
    hide Depth, Weight, ParseLevel, AllBound, WellBound;
    Weights();
    if ts.Type() != TokenRightParen && ts.Type() != TokenEOF {
      LevelBound(OR, ts);
      var a := ParseLevel(OR, ts);
      BoundAppend(acc, a.value);
      DepthOfTail(a.rest);
      if a.rest.Type() == TokenComma { ArgumentsBound(a.rest.Tail(), acc + [a.value]); }
    }
  }

  lemma {:induction false} BodyBound(ts: TokenList)
    ensures var r := ParseBody(ts);
            Depth(r.rest) <= Depth(ts) && (Even(ts, r.rest) && r.value.Some? ==> WellBound(r.value.value))
    decreases ts.Size(), 4, 0
  {
    hide Depth, Weight, ParseLevel;
    Weights();
    DepthOfTail(ts);
    if ts.Type() == TokenLeftParen {
      LevelBound(OR, ts.Tail());
      DepthSkipped(ParseLevel(OR, ts.Tail()).rest, TokenRightParen);
    }
  }

  lemma {:induction false} AggregationBound(op: string, ts: TokenList)
    ensures Bound(ts, ParseAggregation(op, ts), PRIMARY)
    decreases ts.Size(), 5, 0
  {
    hide Depth, Weight, ParseGrouping, ParseBody;
    GroupingDepth(ts);
    BodyBound(ParseGrouping(ts).rest);
  }

  /** For every token list: where the tokens of the tree close all the parentheses they open, every
      operand in the tree fits its operator. */
  lemma {:induction false} TreeIsWellBound(ts: TokenList)
    ensures var r := ParseLevel(OR, ts); Even(ts, r.rest) ==> WellBound(r.value)
  {
    LevelBound(OR, ts);
  }

  lemma {:induction false} StreamProper(s: string, i: nat)
    ensures Lexing.TokenStream(s, i).Proper()
    decreases |s| - i
  {
    hide Lexing.Next;
    var st := Lexing.Next(s, i);
    if st.tok.typ != TokenEOF { StreamProper(s, st.next); }
  }

  lemma {:induction false} ProperEnd(rest: TokenList, ts: TokenList)
    requires LeftOf(rest, ts) && ts.Proper() && rest.Type() == TokenEOF
    ensures rest == End
  {
    if rest != ts { ProperEnd(rest, ts.tail); }
  }

  /** A query that parses, and closes as many parentheses as it opens. */
  lemma {:induction false} QueryIsWellBound(input: string)
    requires ParseText(input).Success? && Depth(Lexing.TokenStream(input, 0)) == 0
    ensures WellBound(ParseText(input).expr)
  {
    hide ParseLevel, Lexing.TokenStream, Lexing.Panics, LeftOf, WellBound;
    var ts := Lexing.TokenStream(input, 0);
    StreamProper(input, 0);
    ProperEnd(ParseLevel(OR, ts).rest, ts);
    TreeIsWellBound(ts);
  }

  /* ---- well-bound trees are the trees of the grammar ---- */

  /** What the grammar asks of a tree besides the operators' places. */
  predicate Leaves(e: Expr)
    decreases e, 1
  {
    match e
    case VectorSelector(v) => VectorShape(v)
    case RangeSelector(v, d) => VectorShape(v) && Representable(d)
    case FunctionCall(_, args) => AllLeaves(args)
    case UnaryExpr(op, x) => (op == TokenPlus || op == TokenMinus) && Leaves(x)
    case BinaryExpr(l, _, r) => Leaves(l) && Leaves(r)
    case AggregateExpr(op, _, _, body) => IsAggregation(LookupKeyword(op)) && (body.Some? ==> Leaves(body.value))
    case NumberLiteral(_) => true
    case ParenExpr(x) => Leaves(x)
  }

  predicate AllLeaves(args: seq<Expr>)
    decreases args, 0
  {
    args == [] || (Leaves(args[0]) && AllLeaves(args[1..]))
  }

  lemma {:induction false} ShapeIs(e: Expr, k: nat)
    requires k <= UNARY
    ensures Shape(e, k) <==> Leaves(e) && WellBound(e) && Tighter(e, k)
    decreases e, 1
  {
    hide LookupKeyword, VectorShape, Representable, IsAggregation;
    match e
    case VectorSelector(_) =>
    case RangeSelector(_, _) =>
    case FunctionCall(_, args) => ShapesAre(args);
    case UnaryExpr(_, x) => ShapeIs(x, UNARY);
    case BinaryExpr(l, op, r) =>
      LevelIs(op);
      var j := OperatorLevel(op);
      if j < UNARY {
        ShapeIs(l, if LeftAssociative(j) then j else j + 1);
        ShapeIs(r, if j == POWER then j else j + 1);
      }
    case AggregateExpr(_, _, _, body) => if body.Some? { ShapeIs(body.value, OR); }
    case NumberLiteral(_) =>
    case ParenExpr(x) => ShapeIs(x, OR);
  }

  lemma {:induction false} ShapesAre(args: seq<Expr>)
    ensures ShapeAll(args) <==> AllLeaves(args) && AllBound(args)
    decreases args, 0
  {
    if args != [] {
      ShapeIs(args[0], OR);
      ShapesAre(args[1..]);
    }
  }

  /** Every well-bound tree is what its printed tokens parse to. */
  lemma {:induction false} WellBoundParses(e: Expr)
    requires Leaves(e) && WellBound(e)
    ensures ParseLevel(OR, Print(e, End)) == Parsed(e, End)
  {
    ShapeIs(e, OR);
    hide Shape, Print, ParseLevel, Leaves, WellBound;
    ParsePrinted(e);
  }

  /** A grouping clause drops its labels exactly when it says `without`. */
  lemma ClauseSays(ts: TokenList)
    ensures ParseGrouping(ts).value.1 <==> ts.Type() == TokenWithout
    ensures ts.Type() != TokenBy && ts.Type() != TokenWithout ==> ParseGrouping(ts).rest == ts
  {
    hide ParseLabels;
  }

  /* ---- an unclosed parenthesis ---- */

  /** A primary at the end of the tokens is the tree of every level. */
  lemma {:induction false} LevelAtEnd(k: nat, ts: TokenList, x: Expr)
    requires k <= PRIMARY && ParsePrimary(ts) == Parsed(x, End) && ts.Type() != TokenPlus && ts.Type() != TokenMinus
    ensures ParseLevel(k, ts) == Parsed(x, End)
    decreases PRIMARY - k
  {
    hide ParsePrimary, ParseRight, ParseLevel, LeftOf;
    if k == PRIMARY {
      PrimaryLevel(ts);
    } else {
      LevelAtEnd(k + 1, ts, x);
      if k == UNARY {
        SignLevel(ts);
      } else {
        LevelUnfolds(k, ts);
        RightStops(k, x, End);
      }
    }
  }

  /** A query without a token is the number zero. */
  lemma {:induction false} EmptyIsZero(k: nat)
    requires k <= PRIMARY
    ensures ParseLevel(k, End) == Parsed(NumberLiteral("0"), End)
  {
    LevelAtEnd(k, End, NumberLiteral("0"));
  }

  lemma {:induction false} UnclosedPrimary(x: Expr)
    requires Leaves(x) && WellBound(x)
    ensures ParsePrimary(More(Symbol(TokenLeftParen), Print(x, End))) == Parsed(x, End)
  {
    hide ParseLevel, Print, Leaves, WellBound, Symbol, LeftOf;
    WellBoundParses(x);
  }

  /** The tokens of `n op ( x`, the parenthesis left open. */
  function Unclosed(n: string, op: TokenType, x: Expr): TokenList {
    More(Token(TokenNumber, n), More(Symbol(op), More(Symbol(TokenLeftParen), Print(x, End))))
  }

  ghost predicate UnclosedAt(k: nat, n: string, op: TokenType, x: Expr)
    requires k <= PRIMARY
  {
    ParseLevel(k, Unclosed(n, op, x)) ==
    if k < Tightness(op) then Parsed(BinaryExpr(NumberLiteral(n), op, x), End) else Parsed(NumberLiteral(n), Unclosed(n, op, x).tail)
  }

  /** The level of the operator itself. */
  lemma {:induction false} UnclosedHere(n: string, op: TokenType, x: Expr)
    requires Tightness(op) > 0 && Leaves(x) && WellBound(x) && UnclosedAt(Tightness(op), n, op, x)
    ensures UnclosedAt(Tightness(op) - 1, n, op, x)
  {
    hide ParseRight, Print, Leaves, WellBound, Symbol, LeftOf, ParseLevel, ParsePrimary, LookupKeyword;
    var ts := Unclosed(n, op, x);
    var k, rest := Tightness(op) - 1, ts.tail;
    LevelIs(op);
    hide Tightness;
    LevelUnfolds(k, ts);
    UnclosedPrimary(x);
    LevelAtEnd(if k == POWER then k else k + 1, rest.tail, x);
    if LeftAssociative(k) { RightLoops(k, NumberLiteral(n), rest); } else { RightOnce(k, NumberLiteral(n), rest); }
    RightStops(k, BinaryExpr(NumberLiteral(n), op, x), End);
  }

  /** A tighter or a looser level. */
  lemma {:induction false} UnclosedThere(k: nat, n: string, op: TokenType, x: Expr)
    requires k < UNARY && Tightness(op) > 0 && k + 1 != Tightness(op) && UnclosedAt(k + 1, n, op, x)
    ensures UnclosedAt(k, n, op, x)
  {
    hide ParseRight, Print, Symbol, LeftOf, ParseLevel, ParsePrimary, LookupKeyword;
    var ts := Unclosed(n, op, x);
    LevelIs(op);
    hide Tightness;
    LevelUnfolds(k, ts);
    if k + 1 > Tightness(op) { RightStops(k, NumberLiteral(n), ts.tail); } else { RightStops(k, BinaryExpr(NumberLiteral(n), op, x), End); }
  }

  lemma {:induction false} UnclosedLevel(k: nat, n: string, op: TokenType, x: Expr)
    requires k <= PRIMARY && Tightness(op) > 0 && Leaves(x) && WellBound(x)
    ensures UnclosedAt(k, n, op, x)
    decreases PRIMARY - k
  {
    hide Leaves, WellBound, Tightness, UnclosedAt;
    if k >= UNARY {
      NumberFirst(k, Unclosed(n, op, x));
      UnclosedFirst(k, n, op, x);
    } else {
      UnclosedLevel(k + 1, n, op, x);
      if k + 1 == Tightness(op) { UnclosedHere(n, op, x); } else { UnclosedThere(k, n, op, x); }
    }
  }

  lemma UnclosedFirst(k: nat, n: string, op: TokenType, x: Expr)
    requires UNARY <= k <= PRIMARY && ParseLevel(k, Unclosed(n, op, x)) == Parsed(NumberLiteral(n), Unclosed(n, op, x).tail)
    ensures UnclosedAt(k, n, op, x)
  {
    hide ParseLevel, Unclosed;
  }

  lemma NumberFirst(k: nat, ts: TokenList)
    requires (k == UNARY || k == PRIMARY) && ts.Type() == TokenNumber
    ensures ParseLevel(k, ts) == Parsed(NumberLiteral(ts.Head().literal), ts.Tail())
  {
    PrimaryLevel(ts);
    if k == UNARY { SignLevel(ts); }
    hide ParseLevel;
  }

  /** A parenthesis left open at the end is accepted and forgotten: `n op ( x` parses to a tree whose
      operand fits exactly when `x` would fit without the parenthesis. */
  lemma {:induction false} UnclosedExactly(n: string, op: TokenType, x: Expr)
    requires Tightness(op) > 0 && Leaves(x) && WellBound(x)
    ensures ParseLevel(OR, Unclosed(n, op, x)) == Parsed(BinaryExpr(NumberLiteral(n), op, x), End)
    ensures WellBound(ParseLevel(OR, Unclosed(n, op, x)).value) <==> FitsRight(op, x)
  {
    hide ParseLevel, Print, Leaves, Symbol, Unclosed;
    UnclosedLevel(OR, n, op, x);
    assert WellBound(BinaryExpr(NumberLiteral(n), op, x)) <==> FitsRight(op, x);
  }
}
