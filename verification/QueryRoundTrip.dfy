/**
 From trees to text and back: the rendered text of a grammar tree parses to that tree.
 */
module QueryRoundTrip {
  import opened Decimal
  import opened Tokens
  import opened Ast
  import Instants
  import Lexing
  import opened LexerRoundTrip
  import opened Parsing
  import opened ParserRoundTrip

  /** Names the lexer reads as one identifier, and not as a keyword. */
  predicate ProperName(s: string) {
    IdentifierText(s) && LookupKeyword(s) == TokenIdentifier
  }

  predicate LexableMatchers(ms: seq<Matcher>) {
    ms == [] || (ProperName(ms[0].name) && StringText(ms[0].value) && LexableMatchers(ms[1..]))
  }

  predicate LexableLabels(labels: seq<string>) {
    labels == [] || (ProperName(labels[0]) && LexableLabels(labels[1..]))
  }

  /** Every name, number and string in the tree has a spelling the lexer can read. */
  ghost predicate Lexable(e: Expr)
    decreases e, 1
  {
    match e
    case VectorSelector(v) => ProperName(v.name) && LexableMatchers(v.matchers)
    case RangeSelector(v, _) => ProperName(v.name) && LexableMatchers(v.matchers)
    case FunctionCall(name, args) => ProperName(name) && LexableAll(args)
    case UnaryExpr(_, x) => Lexable(x)
    case BinaryExpr(l, _, r) => Lexable(l) && Lexable(r)
    case AggregateExpr(op, grouping, _, body) =>
      IdentifierText(op) && LexableLabels(grouping) && (body.Some? ==> Lexable(body.value))
    case NumberLiteral(s) => NumberText(s)
    case ParenExpr(x) => Lexable(x)
  }

  ghost predicate LexableAll(args: seq<Expr>)
    decreases args, 0
  {
    args == [] || (Lexable(args[0]) && LexableAll(args[1..]))
  }

  /** The symbols that printing uses. */
  predicate Printable(t: TokenType) {
    Spelling(t) != "" || t == TokenOr || t == TokenAnd || t == TokenUnless || t == TokenBy || t == TokenWithout
  }

  lemma {:induction false} LowerUnchanged(s: string)
    requires forall i :: 0 <= i < |s| ==> !('A' <= s[i] <= 'Z')
    ensures ToLower(s) == s
  {
    if s != [] { LowerUnchanged(s[1..]); }
  }

  /** The five keywords that printing uses. */
  function Keyword(word: string): TokenType {
    if word == "or" then TokenOr
    else if word == "and" then TokenAnd
    else if word == "unless" then TokenUnless
    else if word == "by" then TokenBy
    else if word == "without" then TokenWithout
    else TokenIllegal
  }

  lemma KeywordReadsBack(word: string)
    requires Keyword(word) != TokenIllegal
    ensures LookupKeyword(word) == Keyword(word)
  {
    LowerUnchanged(word);
    hide ToLower;
  }

  lemma KeywordIsIdentifierText(word: string)
    requires Keyword(word) != TokenIllegal
    ensures IdentifierText(word)
  {
    forall i | 0 <= i < |word| ensures Lexing.In(word[i], Lexing.Identifier) {}
  }

  lemma {:induction false} KeywordRenderable(word: string, t: TokenType)
    requires Keyword(word) == t != TokenIllegal
    ensures Renderable(Token(t, word))
  {
    hide LookupKeyword, IdentifierText, Keyword;
    KeywordReadsBack(word);
    KeywordIsIdentifierText(word);
  }

  lemma {:induction false} SymbolRenderable(t: TokenType)
    requires Printable(t)
    ensures Renderable(Symbol(t))
  {
    hide Renderable;
    if t == TokenOr { KeywordRenderable("or", t); }
    else if t == TokenAnd { KeywordRenderable("and", t); }
    else if t == TokenUnless { KeywordRenderable("unless", t); }
    else if t == TokenBy { KeywordRenderable("by", t); }
    else if t == TokenWithout { KeywordRenderable("without", t); }
    else { SpelledRenderable(t); }
  }

  lemma SpelledRenderable(t: TokenType)
    requires Spelling(t) != ""
    ensures Renderable(Token(t, Spelling(t)))
  {
    hide LookupKeyword, Spelling;
  }

  lemma ParenthesesRenderable()
    ensures Renderable(Symbol(TokenLeftParen)) && Renderable(Symbol(TokenRightParen)) && Renderable(Symbol(TokenComma))
  {
    hide Renderable, Symbol;
    SymbolRenderable(TokenLeftParen);
    SymbolRenderable(TokenRightParen);
    SymbolRenderable(TokenComma);
  }

  lemma BracketsRenderable()
    ensures Renderable(Symbol(TokenLeftBrace)) && Renderable(Symbol(TokenRightBrace))
    ensures Renderable(Symbol(TokenLeftBracket)) && Renderable(Symbol(TokenRightBracket))
  {
    hide Renderable, Symbol;
    SymbolRenderable(TokenLeftBrace);
    SymbolRenderable(TokenRightBrace);
    SymbolRenderable(TokenLeftBracket);
    SymbolRenderable(TokenRightBracket);
  }

  lemma {:induction false} GroupingWordsRenderable()
    ensures Renderable(Symbol(TokenBy)) && Renderable(Symbol(TokenWithout))
  {
    hide Renderable, Symbol;
    SymbolRenderable(TokenBy);
    SymbolRenderable(TokenWithout);
  }

  lemma ConsRenderable(t: Token, ts: TokenList)
    requires Renderable(t) && AllRenderable(ts)
    ensures AllRenderable(More(t, ts))
  {
  }

  lemma OperatorsPrintable(t: TokenType)
    ensures OperatorLevel(t) < UNARY ==> Printable(t)
    ensures IsLabelMatchOp(t) ==> Printable(t)
  {
  }

  lemma NameRenderable(s: string)
    requires ProperName(s)
    ensures Renderable(Name(s))
  {
    hide LookupKeyword, Spelling;
  }

  lemma StringRenderable(s: string)
    requires StringText(s)
    ensures Renderable(Token(TokenString, s))
  {
    hide Spelling, LookupKeyword;
  }

  lemma NumberRenderable(s: string)
    requires NumberText(s)
    ensures Renderable(Token(TokenNumber, s))
  {
    hide Spelling, LookupKeyword;
  }

  lemma DurationRenderable(n: nat)
    ensures Renderable(Token(TokenDuration, Digits(n) + "s"))
  {
    hide Spelling, LookupKeyword;
    var w := Digits(n);
    assert All(w, Lexing.Number) by {
      forall i | 0 <= i < |w| ensures Lexing.In(w[i], Lexing.Number) { assert IsDigit(w[i]); }
    }
    assert DurationParts(w, "", "", "s");
    assert w + "" + "" + "s" == w + "s";
  }

  lemma {:induction false} MatchersRenderable(ms: seq<Matcher>, post: TokenList)
    requires LexableMatchers(ms) && AllRenderable(post)
    requires forall i :: 0 <= i < |ms| ==> IsLabelMatchOp(ms[i].op)
    ensures AllRenderable(PrintMatchers(ms, post))
  {
    hide Renderable, Symbol, Printable, IsLabelMatchOp, ProperName, StringText;
    if ms != [] {
      MatchersRenderable(ms[1..], post);
      ParenthesesRenderable();
      OperatorsPrintable(ms[0].op);
      SymbolRenderable(ms[0].op);
      NameRenderable(ms[0].name);
      StringRenderable(ms[0].value);
      var tail := PrintMatchers(ms[1..], post);
      var after := if |ms| > 1 then More(Symbol(TokenComma), tail) else tail;
      ConsRenderable(Token(TokenString, ms[0].value), after);
      ConsRenderable(Symbol(ms[0].op), More(Token(TokenString, ms[0].value), after));
    }
  }

  lemma {:induction false} BracesRenderable(ms: seq<Matcher>, post: TokenList)
    requires LexableMatchers(ms) && AllRenderable(post)
    requires forall i :: 0 <= i < |ms| ==> IsLabelMatchOp(ms[i].op)
    ensures AllRenderable(PrintBraces(ms, post))
  {
    hide Renderable, Symbol, Printable, PrintMatchers;
    BracketsRenderable();
    MatchersRenderable(ms, More(Symbol(TokenRightBrace), post));
  }

  lemma {:induction false} RangeRenderable(d: int, post: TokenList)
    requires AllRenderable(post)
    ensures AllRenderable(PrintDuration(d, post))
  {
    hide Renderable, Symbol, Printable;
    BracketsRenderable();
    var seconds := if d < 0 then 0 else d / Instants.SECOND;
    var literal := Token(TokenDuration, Digits(seconds) + "s");
    DurationRenderable(seconds);
    ConsRenderable(literal, More(Symbol(TokenRightBracket), post));
  }

  lemma {:induction false} LabelsRenderable(labels: seq<string>, post: TokenList)
    requires LexableLabels(labels) && AllRenderable(post)
    ensures AllRenderable(PrintLabels(labels, post))
  {
    hide Renderable, Symbol, Printable, ProperName;
    if labels != [] {
      ParenthesesRenderable();
      NameRenderable(labels[0]);
      LabelsRenderable(labels[1..], post);
    }
  }

  lemma {:induction false} GroupingRenderable(grouping: seq<string>, without: bool, post: TokenList)
    requires LexableLabels(grouping) && AllRenderable(post)
    ensures AllRenderable(PrintGrouping(grouping, without, post))
  {
    hide Renderable, Symbol, Printable, PrintLabels;
    ParenthesesRenderable();
    GroupingWordsRenderable();
    LabelsRenderable(grouping, More(Symbol(TokenRightParen), post));
  }

  lemma AggregationRenderable(op: string)
    requires IdentifierText(op) && IsAggregation(LookupKeyword(op))
    ensures Renderable(Token(LookupKeyword(op), op))
  {
    hide LookupKeyword, Spelling;
  }

  /** Every token of a printed tree is one the lexer can read back. */
  lemma {:induction false} PrintRenderable(e: Expr, k: nat, post: TokenList)
    requires Shape(e, k) && Lexable(e) && AllRenderable(post)
    ensures AllRenderable(Print(e, post))
    decreases e, 1
  {
    hide Renderable, Symbol, Printable, ProperName, LookupKeyword, NumberText, IdentifierText, PrintBraces, PrintDuration, PrintGrouping;
    ParenthesesRenderable();
    var closed := More(Symbol(TokenRightParen), post);
    match e
    case VectorSelector(v) =>
      NameRenderable(v.name);
      BracesRenderable(v.matchers, post);
    case RangeSelector(v, d) =>
      NameRenderable(v.name);
      RangeRenderable(d, post);
      BracesRenderable(v.matchers, PrintDuration(d, post));
    case FunctionCall(name, args) =>
      NameRenderable(name);
      ArgumentsRenderable(args, closed);
    case UnaryExpr(op, x) =>
      OperatorsPrintable(op);
      SymbolRenderable(op);
      PrintRenderable(x, UNARY, post);
    case BinaryExpr(l, op, r) =>
      var j := OperatorLevel(op);
      OperatorsPrintable(op);
      SymbolRenderable(op);
      PrintRenderable(r, if j == POWER then j else j + 1, post);
      PrintRenderable(l, if LeftAssociative(j) then j else j + 1, More(Symbol(op), Print(r, post)));
    case AggregateExpr(op, grouping, without, body) =>
      AggregationRenderable(op);
      if body.Some? { PrintRenderable(body.value, OR, closed); }
      GroupingRenderable(grouping, without, PrintBody(body, post));
    case NumberLiteral(s) =>
      NumberRenderable(s);
    case ParenExpr(x) =>
      PrintRenderable(x, OR, closed);
  }

  lemma {:induction false} ArgumentsRenderable(args: seq<Expr>, post: TokenList)
    requires ShapeAll(args) && LexableAll(args) && AllRenderable(post)
    ensures AllRenderable(PrintArguments(args, post))
    decreases args, 0
  {
    hide Renderable, Symbol, Printable, Lexable, Shape, Print;
    if args != [] {
      ParenthesesRenderable();
      ArgumentsRenderable(args[1..], post);
      PrintRenderable(args[0], OR, if |args| == 1 then post else More(Symbol(TokenComma), PrintArguments(args[1..], post)));
    }
  }

  /** The text of a tree: its tokens, without added parentheses, separated by spaces. */
  function QueryText(e: Expr): string { Render(Print(e, End)) }

  /** The query round trip: the text of a grammar tree parses to exactly that tree. */
  lemma {:induction false} ParseQueryText(e: Expr)
    requires Shape(e, OR) && Lexable(e)
    ensures ParseText(QueryText(e)) == Success(e)
  {
    hide Shape, Lexable, Print, Render, Lexing.TokenStream, Lexing.Panics, ParseLevel, AllRenderable;
    var ts := Print(e, End);
    assert AllRenderable(End) by { EndRenderable(); }
    PrintRenderable(e, OR, End);
    LexRender(ts);
    ParsePrinted(e);
    RenderNeverPanics(ts, ts.Size() + 2);
  }

  lemma EndRenderable()
    ensures AllRenderable(End)
  {
  }

  /** Distinct grammar trees have distinct texts. */
  lemma {:induction false} QueryTextInjective(a: Expr, b: Expr)
    requires Shape(a, OR) && Lexable(a) && Shape(b, OR) && Lexable(b)
    requires QueryText(a) == QueryText(b)
    ensures a == b
  {
    hide *;
    ParseQueryText(a);
    ParseQueryText(b);
  }
}
