/**
 A deterministic recursive-descent parser for the Rue grammar. Binary
 expressions are parsed by precedence climbing over the `PREC` table; every
 other rule is one function. Each function reads a token sequence and, on
 success, returns the node it built and the tokens it did not consume.
 */
module Parser {

  import opened Results
  import opened Precedence
  import opened Tokens
  import opened Syntax

  /** What the parser expected and the token it found instead (none at end of input). */
  datatype SyntaxError = SyntaxError(expected: string, found: Option<Token>)

  datatype Parsed<+T> = Parsed(node: T, rest: seq<Token>)

  type ParseResult<T> = Result<Parsed<T>, SyntaxError>

  function Unexpected<T>(expected: string, ts: seq<Token>): ParseResult<T> {
    Err(SyntaxError(expected, if |ts| > 0 then Some(ts[0]) else None))
  }

  predicate StartsWith(ts: seq<Token>, t: Token) {
    |ts| > 0 && ts[0] == t
  }

  /** The next token is a binary operator that binds at `minPrec` or tighter. */
  predicate ContinuesAt(ts: seq<Token>, minPrec: nat) {
    |ts| > 0 && ts[0].Op? && Prec(ts[0].op) >= minPrec
  }

  // ---------------------------------------------------------------------
  // Types

  /** `_type`: only `i32`, `i64`, `bool` and the single token `()`. */
  function ParseType(ts: seq<Token>): (r: ParseResult<Type>)
    ensures r.Ok? <==> |ts| > 0 && ts[0] in {Kw(I32), Kw(I64), Kw(Bool), UnitParens}
    ensures r.Ok? ==> r.value.rest == ts[1..]
    ensures r.Ok? ==> (r.value.node.UnitType? <==> ts[0] == UnitParens)
    ensures r.Ok? && r.value.node.PrimitiveType? ==> ts[0] == Kw(r.value.node.keyword)
  {
    if |ts| == 0 then Unexpected("type", ts)
    else
      match ts[0]
      case UnitParens => Ok(Parsed(UnitType, ts[1..]))
      case Kw(k) =>
        if k == I32 || k == I64 || k == Bool then Ok(Parsed(PrimitiveType(k), ts[1..]))
        else Unexpected("type", ts)
      case _ => Unexpected("type", ts)
  }

  // ---------------------------------------------------------------------
  // Expressions

  /**
   Precedence climbing: a primary expression followed by every binary
   operator that binds at `minPrec` or tighter. The result obeys the
   nesting discipline and stops before the first operator it may not take.
   */
  function ParseExpr(ts: seq<Token>, minPrec: nat): (r: ParseResult<Expr>)
    requires minPrec <= FunctionCalls
    ensures r.Ok? ==> |r.value.rest| < |ts|
    ensures r.Ok? ==> WellNested(r.value.node) && Strength(r.value.node) >= minPrec
    ensures r.Ok? ==> !ContinuesAt(r.value.rest, minPrec)
    decreases |ts|, 2
  {
    var primary :- ParsePrimary(ts);
    ParseOperators(primary.node, primary.rest, minPrec)
  }

  /**
   The loop of precedence climbing. Each operator's right operand is parsed
   at one level above the operator, so operators of the same level
   associate to the left.
   */
  function ParseOperators(lhs: Expr, ts: seq<Token>, minPrec: nat): (r: ParseResult<Expr>)
    requires WellNested(lhs) && Strength(lhs) >= minPrec
    requires ContinuesAt(ts, 0) ==> Prec(ts[0].op) <= Strength(lhs)
    ensures r.Ok? ==> |r.value.rest| <= |ts|
    ensures r.Ok? ==> WellNested(r.value.node) && Strength(r.value.node) >= minPrec
    ensures r.Ok? ==> !ContinuesAt(r.value.rest, minPrec)
    decreases |ts|, 0
  {
    if ContinuesAt(ts, minPrec) then
      var op := ts[0].op;
      var rhs :- ParseExpr(ts[1..], Prec(op) + 1);
      ParseOperators(BinaryExpression(lhs, op, rhs.node), rhs.rest, minPrec)
    else
      Ok(Parsed(lhs, ts))
  }

  /** `_primary_expression`, `call_expression`, `if_expression` and `while_expression`. */
  function ParsePrimary(ts: seq<Token>): (r: ParseResult<Expr>)
    ensures r.Ok? ==> |r.value.rest| < |ts|
    ensures r.Ok? ==> WellNested(r.value.node) && !r.value.node.BinaryExpression?
    decreases |ts|, 1
  {
    if |ts| == 0 then Unexpected("expression", ts)
    else
      match ts[0]
      case Kw(If) =>
        var i :- ParseIf(ts);
        Ok(Parsed(IfExpression(i.node), i.rest))
      case Kw(While) => ParseWhile(ts)
      case Kw(True) => Ok(Parsed(BooleanLiteral(true), ts[1..]))
      case Kw(False) => Ok(Parsed(BooleanLiteral(false), ts[1..]))
      case Integer(digits) => Ok(Parsed(IntegerLiteral(digits), ts[1..]))
      case UnitParens => Ok(Parsed(UnitLiteral, ts[1..]))
      case LParen =>
        if StartsWith(ts[1..], RParen) then Ok(Parsed(UnitLiteral, ts[2..]))
        else
          var inner :- ParseExpr(ts[1..], 0);
          if StartsWith(inner.rest, RParen) then
            Ok(Parsed(ParenthesizedExpression(inner.node), inner.rest[1..]))
          else
            Unexpected("')'", inner.rest)
      case Ident(name) =>
        if StartsWith(ts[1..], LParen) || StartsWith(ts[1..], UnitParens) then
          var args :- ParseArguments(ts[1..]);
          Ok(Parsed(CallExpression(name, args.node), args.rest))
        else
          Ok(Parsed(Identifier(name), ts[1..]))
      case _ => Unexpected("expression", ts)
  }

  /**
   `if_expression`. An `else` right after the consequence is always taken
   (`prec.right`), so no `else` is ever left for an enclosing construct.
   */
  function ParseIf(ts: seq<Token>): (r: ParseResult<IfExpr>)
    ensures r.Ok? ==> |r.value.rest| < |ts|
    ensures r.Ok? ==> WellNestedIf(r.value.node)
    ensures r.Ok? && r.value.node.alternative.None? ==> !StartsWith(r.value.rest, Kw(Else))
    decreases |ts|, 0
  {
    if !StartsWith(ts, Kw(If)) then Unexpected("'if'", ts)
    else
      var condition :- ParseExpr(ts[1..], 0);
      var consequence :- ParseBlock(condition.rest);
      if StartsWith(consequence.rest, Kw(Else)) then
        var alternative :- ParseElse(consequence.rest);
        Ok(Parsed(IfExpr(condition.node, consequence.node, Some(alternative.node)), alternative.rest))
      else
        Ok(Parsed(IfExpr(condition.node, consequence.node, None), consequence.rest))
  }

  /** `else_clause`: `else` followed by a nested `if_expression` or a block. */
  function ParseElse(ts: seq<Token>): (r: ParseResult<ElseClause>)
    ensures r.Ok? ==> |r.value.rest| < |ts|
    ensures r.Ok? ==> WellNestedElse(r.value.node)
    ensures r.Ok? ==> StartsWith(ts, Kw(Else))
    decreases |ts|, 0
  {
    if !StartsWith(ts, Kw(Else)) then Unexpected("'else'", ts)
    else if StartsWith(ts[1..], Kw(If)) then
      var nested :- ParseIf(ts[1..]);
      Ok(Parsed(ElseIf(nested.node), nested.rest))
    else
      var block :- ParseBlock(ts[1..]);
      Ok(Parsed(ElseBlock(block.node), block.rest))
  }

  function ParseWhile(ts: seq<Token>): (r: ParseResult<Expr>)
    ensures r.Ok? ==> |r.value.rest| < |ts|
    ensures r.Ok? ==> WellNested(r.value.node) && r.value.node.WhileExpression?
    decreases |ts|, 0
  {
    if !StartsWith(ts, Kw(While)) then Unexpected("'while'", ts)
    else
      var condition :- ParseExpr(ts[1..], 0);
      var body :- ParseBlock(condition.rest);
      Ok(Parsed(WhileExpression(condition.node, body.node), body.rest))
  }

  /** `arguments`: `(` then an optional comma-separated list of expressions, then `)`. */
  function ParseArguments(ts: seq<Token>): (r: ParseResult<seq<Expr>>)
    ensures r.Ok? ==> |r.value.rest| < |ts|
    ensures r.Ok? ==> forall i :: 0 <= i < |r.value.node| ==> WellNested(r.value.node[i])
    decreases |ts|, 0
  {
    if StartsWith(ts, UnitParens) then Ok(Parsed([], ts[1..]))
    else if !StartsWith(ts, LParen) then Unexpected("'('", ts)
    else if StartsWith(ts[1..], RParen) then Ok(Parsed([], ts[2..]))
    else ParseArgumentList(ts[1..], [])
  }

  /** `commaSep(_expression)` and the closing `)`; `acc` holds the arguments read so far. */
  function ParseArgumentList(ts: seq<Token>, acc: seq<Expr>): (r: ParseResult<seq<Expr>>)
    requires forall i :: 0 <= i < |acc| ==> WellNested(acc[i])
    ensures r.Ok? ==> |r.value.rest| < |ts|
    ensures r.Ok? ==> |r.value.node| > |acc| && r.value.node[..|acc|] == acc
    ensures r.Ok? ==> forall i :: 0 <= i < |r.value.node| ==> WellNested(r.value.node[i])
    decreases |ts|, 3
  {
    var arg :- ParseExpr(ts, 0);
    if StartsWith(arg.rest, Comma) then
      ParseArgumentList(arg.rest[1..], acc + [arg.node])
    else if StartsWith(arg.rest, RParen) then
      Ok(Parsed(acc + [arg.node], arg.rest[1..]))
    else
      Unexpected("',' or ')'", arg.rest)
  }

  // ---------------------------------------------------------------------
  // Blocks and statements

  function ParseBlock(ts: seq<Token>): (r: ParseResult<Block>)
    ensures r.Ok? ==> |r.value.rest| < |ts|
    ensures r.Ok? ==> WellNestedBlock(r.value.node)
    decreases |ts|, 0
  {
    if !StartsWith(ts, LBrace) then Unexpected("'{'", ts)
    else ParseBlockBody(ts[1..], [])
  }

  /**
   The inside of a `block` after `{`: statements until `}`. An expression
   followed by `;` is an `expression_statement`; one followed by `}` is the
   block's trailing expression and ends the block.
   */
  function ParseBlockBody(ts: seq<Token>, acc: seq<Statement>): (r: ParseResult<Block>)
    requires forall i :: 0 <= i < |acc| ==> WellNestedStatement(acc[i])
    ensures r.Ok? ==> |r.value.rest| < |ts|
    ensures r.Ok? ==> WellNestedBlock(r.value.node)
    decreases |ts|, 3
  {
    if |ts| == 0 then Unexpected("'}'", ts)
    else if ts[0] == RBrace then Ok(Parsed(Block(acc, None), ts[1..]))
    else if ts[0] == Kw(Let) then
      var s :- ParseLet(ts);
      ParseBlockBody(s.rest, acc + [s.node])
    else if ts[0].Ident? && StartsWith(ts[1..], Assign) then
      var s :- ParseAssignment(ts);
      ParseBlockBody(s.rest, acc + [s.node])
    else
      var e :- ParseExpr(ts, 0);
      if StartsWith(e.rest, Semicolon) then
        ParseBlockBody(e.rest[1..], acc + [ExpressionStatement(e.node)])
      else if StartsWith(e.rest, RBrace) then
        Ok(Parsed(Block(acc, Some(e.node)), e.rest[1..]))
      else
        Unexpected("';' or '}'", e.rest)
  }

  /** `let_statement`: the `:` type annotation is mandatory. */
  function ParseLet(ts: seq<Token>): (r: ParseResult<Statement>)
    ensures r.Ok? ==> |r.value.rest| < |ts|
    ensures r.Ok? ==> WellNestedStatement(r.value.node) && r.value.node.LetStatement?
    decreases |ts|, 0
  {
    if !(|ts| >= 3 && ts[0] == Kw(Let) && ts[1].Ident? && ts[2] == Colon) then
      Unexpected("'let' identifier ':'", ts)
    else
      var ty :- ParseType(ts[3..]);
      if !StartsWith(ty.rest, Assign) then Unexpected("'='", ty.rest)
      else
        var value :- ParseExpr(ty.rest[1..], 0);
        if !StartsWith(value.rest, Semicolon) then Unexpected("';'", value.rest)
        else Ok(Parsed(LetStatement(ts[1].name, ty.node, value.node), value.rest[1..]))
  }

  function ParseAssignment(ts: seq<Token>): (r: ParseResult<Statement>)
    ensures r.Ok? ==> |r.value.rest| < |ts|
    ensures r.Ok? ==> WellNestedStatement(r.value.node) && r.value.node.AssignmentStatement?
    decreases |ts|, 0
  {
    if !(|ts| >= 2 && ts[0].Ident? && ts[1] == Assign) then
      Unexpected("identifier '='", ts)
    else
      var value :- ParseExpr(ts[2..], 0);
      if !StartsWith(value.rest, Semicolon) then Unexpected("';'", value.rest)
      else Ok(Parsed(AssignmentStatement(ts[0].name, value.node), value.rest[1..]))
  }

  // ---------------------------------------------------------------------
  // Definitions

  /** `parameter`: the `:` type annotation is mandatory. */
  function ParseParameter(ts: seq<Token>): (r: ParseResult<Parameter>)
    ensures r.Ok? <==> |ts| >= 2 && ts[0].Ident? && ts[1] == Colon && ParseType(ts[2..]).Ok?
    ensures r.Ok? ==> r.value == Parsed(Parameter(ts[0].name, ParseType(ts[2..]).value.node), ts[3..])
  {
    if !(|ts| >= 2 && ts[0].Ident? && ts[1] == Colon) then
      Unexpected("identifier ':'", ts)
    else
      var ty :- ParseType(ts[2..]);
      Ok(Parsed(Parameter(ts[0].name, ty.node), ty.rest))
  }

  /** `parameters`: `(` then an optional comma-separated list of parameters, then `)`. */
  function ParseParameters(ts: seq<Token>): (r: ParseResult<seq<Parameter>>)
    ensures r.Ok? ==> |r.value.rest| < |ts|
  {
    if StartsWith(ts, UnitParens) then Ok(Parsed([], ts[1..]))
    else if !StartsWith(ts, LParen) then Unexpected("'('", ts)
    else if StartsWith(ts[1..], RParen) then Ok(Parsed([], ts[2..]))
    else ParseParameterList(ts[1..], [])
  }

  /** `commaSep(parameter)` and the closing `)`; `acc` holds the parameters read so far. */
  function ParseParameterList(ts: seq<Token>, acc: seq<Parameter>): (r: ParseResult<seq<Parameter>>)
    ensures r.Ok? ==> |r.value.rest| < |ts|
    ensures r.Ok? ==> |r.value.node| > |acc| && r.value.node[..|acc|] == acc
    decreases |ts|
  {
    var p :- ParseParameter(ts);
    if StartsWith(p.rest, Comma) then
      ParseParameterList(p.rest[1..], acc + [p.node])
    else if StartsWith(p.rest, RParen) then
      Ok(Parsed(acc + [p.node], p.rest[1..]))
    else
      Unexpected("',' or ')'", p.rest)
  }

  /** `function_item`: `fn` name parameters `->` return type, then the body. */
  function ParseFunctionItem(ts: seq<Token>): (r: ParseResult<FunctionItem>)
    ensures r.Ok? ==> |r.value.rest| < |ts|
    ensures r.Ok? ==> WellNestedFunction(r.value.node)
  {
    if !(|ts| >= 2 && ts[0] == Kw(Fn) && ts[1].Ident?) then
      Unexpected("'fn' identifier", ts)
    else
      var parameters :- ParseParameters(ts[2..]);
      if !StartsWith(parameters.rest, Arrow) then Unexpected("'->'", parameters.rest)
      else
        var returnType :- ParseType(parameters.rest[1..]);
        var body :- ParseBlock(returnType.rest);
        Ok(Parsed(FunctionItem(ts[1].name, parameters.node, returnType.node, body.node), body.rest))
  }

  /** `source_file`: function items until the end of the input; `acc` holds those read so far. */
  function ParseItems(ts: seq<Token>, acc: seq<FunctionItem>): (r: Result<SourceFile, SyntaxError>)
    requires forall i :: 0 <= i < |acc| ==> WellNestedFunction(acc[i])
    ensures r.Ok? ==> WellNestedFile(r.value)
    decreases |ts|
  {
    if |ts| == 0 then Ok(SourceFile(acc))
    else
      var item :- ParseFunctionItem(ts);
      ParseItems(item.rest, acc + [item.node])
  }

  /** A whole token sequence as a `source_file`. */
  function ParseSourceFile(ts: seq<Token>): (r: Result<SourceFile, SyntaxError>)
    ensures r.Ok? ==> WellNestedFile(r.value)
    ensures ts == [] ==> r == Ok(SourceFile([]))
  {
    ParseItems(ts, [])
  }
}
