/**
 The concrete syntax tree of the Rue grammar, with the grammar's field
 names. Hidden rules (`_type`, `_statement`, `_expression`,
 `_primary_expression`) become datatypes whose variants are the node kinds
 they choose between; `parameters` and `arguments` are sequences.
 */
module Syntax {

  import opened Results
  import opened Precedence
  import opened Tokens

  /** The keywords `primitive_type` accepts. */
  type PrimitiveKeyword = k: Keyword | k == I32 || k == I64 || k == Bool witness I32

  /** `_type`: a `primitive_type` or the `unit_type` `()`. */
  datatype Type = PrimitiveType(keyword: PrimitiveKeyword) | UnitType

  datatype Parameter = Parameter(name: string, ty: Type)

  datatype FunctionItem = FunctionItem(name: string, parameters: seq<Parameter>, returnType: Type, body: Block)

  /** `source_file`: function items only. */
  datatype SourceFile = SourceFile(items: seq<FunctionItem>)

  /** `block`: statements, then at most one trailing expression. */
  datatype Block = Block(statements: seq<Statement>, tail: Option<Expr>)

  datatype Statement =
    | LetStatement(name: string, ty: Type, value: Expr)
    | AssignmentStatement(name: string, value: Expr)
    | ExpressionStatement(expr: Expr)

  datatype Expr =
    | IfExpression(ifx: IfExpr)
    | WhileExpression(condition: Expr, body: Block)
    | BinaryExpression(left: Expr, operator: BinOp, right: Expr)
    | CallExpression(callee: string, arguments: seq<Expr>)
    | Identifier(name: string)
    | IntegerLiteral(digits: string)
    | BooleanLiteral(value: bool)
    | UnitLiteral
    | ParenthesizedExpression(inner: Expr)

  datatype IfExpr = IfExpr(condition: Expr, consequence: Block, alternative: Option<ElseClause>)

  /** `else_clause`: either a block or a nested `if_expression`. */
  datatype ElseClause = ElseBlock(block: Block) | ElseIf(nested: IfExpr)

  /**
   How tightly an expression binds as an operand: a binary expression at its
   operator's level, everything else (calls, literals, parenthesized, `if`
   and `while`) at least as tightly as a function call.
   */
  function Strength(e: Expr): nat {
    if e.BinaryExpression? then Prec(e.operator) else FunctionCalls
  }

  /**
   Binary operators nest as `prec.left` dictates: a left operand binds at
   least as tightly as its operator (left associativity), a right operand
   strictly more tightly (higher precedence). Parentheses reset the
   discipline; every nested expression must obey it too.
   */
  predicate WellNested(e: Expr)
    decreases e, 0
  {
    match e
    case IfExpression(i) => WellNestedIf(i)
    case WhileExpression(c, b) => WellNested(c) && WellNestedBlock(b)
    case BinaryExpression(l, op, r) =>
      && WellNested(l) && WellNested(r)
      && Strength(l) >= Prec(op)
      && Strength(r) > Prec(op)
    case CallExpression(_, args) => forall i :: 0 <= i < |args| ==> WellNested(args[i])
    case ParenthesizedExpression(x) => WellNested(x)
    case _ => true
  }

  /**
   `WellNested` in the table's own terms: a binary operand that is itself a
   binary expression has an operator of the same level or higher on the
   left, of a strictly higher level on the right; any other operand is free.
   */
  lemma OperandLevels(l: Expr, op: BinOp, r: Expr)
    ensures WellNested(BinaryExpression(l, op, r)) <==>
      && WellNested(l) && WellNested(r)
      && (l.BinaryExpression? ==> Prec(l.operator) >= Prec(op))
      && (r.BinaryExpression? ==> Prec(r.operator) > Prec(op))
  {
    assert Prec(op) < FunctionCalls;
  }

  predicate WellNestedIf(i: IfExpr)
    decreases i
  {
    && WellNested(i.condition)
    && WellNestedBlock(i.consequence)
    && (i.alternative.Some? ==> WellNestedElse(i.alternative.value))
  }

  predicate WellNestedElse(c: ElseClause)
    decreases c
  {
    match c
    case ElseBlock(b) => WellNestedBlock(b)
    case ElseIf(n) => WellNestedIf(n)
  }

  predicate WellNestedBlock(b: Block)
    decreases b
  {
    && (forall i :: 0 <= i < |b.statements| ==> WellNestedStatement(b.statements[i]))
    && (b.tail.Some? ==> WellNested(b.tail.value))
  }

  predicate WellNestedStatement(s: Statement)
    decreases s
  {
    match s
    case LetStatement(_, _, v) => WellNested(v)
    case AssignmentStatement(_, v) => WellNested(v)
    case ExpressionStatement(e) => WellNested(e)
  }

  predicate WellNestedFunction(f: FunctionItem) {
    WellNestedBlock(f.body)
  }

  predicate WellNestedFile(sf: SourceFile) {
    forall i :: 0 <= i < |sf.items| ==> WellNestedFunction(sf.items[i])
  }
}
