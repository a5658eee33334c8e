/**
 The inverse of the parser: the token sequence a syntax tree was parsed
 from. Lists use `commaSep` exactly as the grammar writes it.
 */
module Printer {

  import opened Results
  import opened Precedence
  import opened Tokens
  import opened Syntax

  function Concat(parts: seq<seq<Token>>): seq<Token> {
    if |parts| == 0 then [] else parts[0] + Concat(parts[1..])
  }

  /** `commaSep(rule)`: one element, then every further element after a single `,`. */
  function CommaSep(parts: seq<seq<Token>>): seq<Token>
    requires |parts| > 0
  {
    if |parts| == 1 then parts[0] else parts[0] + [Comma] + CommaSep(parts[1..])
  }

  /** `(` optional(commaSep(...)) `)`, the shape of `parameters` and `arguments`. */
  function Delimited(parts: seq<seq<Token>>): seq<Token> {
    [LParen] + (if |parts| == 0 then [] else CommaSep(parts)) + [RParen]
  }

  /** Tokens that can begin an expression. */
  predicate StartsExpression(t: Token) {
    || t.Ident? || t.Integer? || t == LParen || t == UnitParens
    || t == Kw(If) || t == Kw(While) || t == Kw(True) || t == Kw(False)
  }

  function PrintType(t: Type): seq<Token> {
    match t
    case PrimitiveType(k) => [Kw(k)]
    case UnitType => [UnitParens]
  }

  function PrintParameter(p: Parameter): seq<Token> {
    [Ident(p.name), Colon] + PrintType(p.ty)
  }

  function ParameterTokens(ps: seq<Parameter>): (parts: seq<seq<Token>>)
    ensures |parts| == |ps|
    ensures forall i :: 0 <= i < |ps| ==> parts[i] == PrintParameter(ps[i])
  {
    seq(|ps|, i requires 0 <= i < |ps| => PrintParameter(ps[i]))
  }

  /**
   An expression's tokens begin with a token that can begin an expression,
   and a leading identifier is never directly followed by `=`, so no
   expression statement can be mistaken for an assignment.
   */
  function PrintExpr(e: Expr): (r: seq<Token>)
    ensures |r| > 0 && StartsExpression(r[0])
    ensures r[0].Ident? && |r| > 1 ==> r[1] != Assign
    decreases e, 1
  {
    match e
    case IfExpression(i) => PrintIf(i)
    case WhileExpression(c, b) => [Kw(While)] + PrintExpr(c) + PrintBlock(b)
    case BinaryExpression(l, op, r) => PrintExpr(l) + [Op(op)] + PrintExpr(r)
    case CallExpression(f, _) => [Ident(f)] + Delimited(ArgumentTokens(e))
    case Identifier(n) => [Ident(n)]
    case IntegerLiteral(d) => [Integer(d)]
    case BooleanLiteral(v) => [Kw(if v then True else False)]
    case UnitLiteral => [LParen, RParen]
    case ParenthesizedExpression(x) => [LParen] + PrintExpr(x) + [RParen]
  }

  function ArgumentTokens(e: Expr): (parts: seq<seq<Token>>)
    requires e.CallExpression?
    ensures |parts| == |e.arguments|
    ensures forall i :: 0 <= i < |parts| ==> parts[i] == PrintExpr(e.arguments[i])
    decreases e, 0
  {
    seq(|e.arguments|, i requires 0 <= i < |e.arguments| => PrintExpr(e.arguments[i]))
  }

  function PrintIf(i: IfExpr): (r: seq<Token>)
    ensures |r| > 0 && r[0] == Kw(If)
    decreases i
  {
    [Kw(If)] + PrintExpr(i.condition) + PrintBlock(i.consequence)
    + (if i.alternative.Some? then PrintElse(i.alternative.value) else [])
  }

  function PrintElse(c: ElseClause): (r: seq<Token>)
    ensures |r| > 0 && r[0] == Kw(Else)
    decreases c
  {
    match c
    case ElseBlock(b) => [Kw(Else)] + PrintBlock(b)
    case ElseIf(n) => [Kw(Else)] + PrintIf(n)
  }

  function PrintBlock(b: Block): (r: seq<Token>)
    ensures |r| > 0 && r[0] == LBrace
    decreases b, 1
  {
    [LBrace] + Concat(StatementTokens(b))
    + (if b.tail.Some? then PrintExpr(b.tail.value) else [])
    + [RBrace]
  }

  function StatementTokens(b: Block): (parts: seq<seq<Token>>)
    ensures |parts| == |b.statements|
    ensures forall i :: 0 <= i < |parts| ==> parts[i] == PrintStatement(b.statements[i])
    decreases b, 0
  {
    seq(|b.statements|, i requires 0 <= i < |b.statements| => PrintStatement(b.statements[i]))
  }

  function PrintStatement(s: Statement): seq<Token>
    decreases s
  {
    match s
    case LetStatement(n, t, v) => [Kw(Let), Ident(n), Colon] + PrintType(t) + [Assign] + PrintExpr(v) + [Semicolon]
    case AssignmentStatement(n, v) => [Ident(n), Assign] + PrintExpr(v) + [Semicolon]
    case ExpressionStatement(x) => PrintExpr(x) + [Semicolon]
  }

  function PrintFunctionItem(f: FunctionItem): seq<Token> {
    [Kw(Fn), Ident(f.name)] + Delimited(ParameterTokens(f.parameters))
    + [Arrow] + PrintType(f.returnType) + PrintBlock(f.body)
  }

  function ItemTokens(sf: SourceFile): (parts: seq<seq<Token>>)
    ensures |parts| == |sf.items|
    ensures forall i :: 0 <= i < |parts| ==> parts[i] == PrintFunctionItem(sf.items[i])
  {
    seq(|sf.items|, i requires 0 <= i < |sf.items| => PrintFunctionItem(sf.items[i]))
  }

  function PrintSourceFile(sf: SourceFile): seq<Token> {
    Concat(ItemTokens(sf))
  }
}
