/**
 Expression trees of the query language (pkg/query/types.go).
 */
module Ast {
  import opened Tokens
  import opened Options

  datatype Matcher = Matcher(name: string, op: TokenType, value: string)

  datatype Vector = Vector(name: string, matchers: seq<Matcher>)

  /** A number literal keeps its text; the source stores the float that text denotes.
      Durations are nanoseconds. */
  datatype Expr =
    | VectorSelector(vector: Vector)
    | RangeSelector(vector: Vector, duration: int)
    | FunctionCall(name: string, args: seq<Expr>)
    | UnaryExpr(op: TokenType, expr: Expr)
    | BinaryExpr(left: Expr, op: TokenType, right: Expr)
    | AggregateExpr(aggregation: string, grouping: seq<string>, without: bool, body: Option<Expr>)
    | NumberLiteral(literal: string)
    | ParenExpr(expr: Expr)
}
