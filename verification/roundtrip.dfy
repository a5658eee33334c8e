/**
 Parsing inverts printing: every syntax tree that obeys the nesting
 discipline of the precedence table is exactly what the parser returns for
 its own tokens. Together with the parser's postconditions (it only ever
 returns such trees) this pins down precedence, associativity, `else`
 attachment, list shapes and block shapes completely.
 */
module RoundTrip {

  import opened Results
  import opened Precedence
  import opened Tokens
  import opened Syntax
  import opened Parser
  import opened Printer

  /**
   Tokens that may follow a complete expression without extending it: not
   `(` (which would turn an identifier into a call) and not `else` (which
   an `if` would take).
   */
  predicate MayFollowExpr(rest: seq<Token>) {
    !StartsWith(rest, LParen) && !StartsWith(rest, UnitParens) && !StartsWith(rest, Kw(Else))
  }

  // ---------------------------------------------------------------------
  // Expressions

  /** A well-nested expression followed by a stopping token parses back to itself. */
  lemma {:induction false} ExprRoundTrip(e: Expr, rest: seq<Token>)
    requires WellNested(e) && MayFollowExpr(rest) && !ContinuesAt(rest, 0)
    ensures ParseExpr(PrintExpr(e) + rest, 0) == Ok(Parsed(e, rest))
    decreases e, 4
  {
    ExprThenOperators(e, rest, 0);
  }

  /**
   The heart of precedence climbing: the tokens of `e` are consumed as `e`
   itself, and the climbing loop resumes with `e` as its left operand. An
   operator after `e` that binds more loosely than `e` (or equally, being
   left-associative) cannot reach inside it.
   */
  lemma {:induction false} ExprThenOperators(e: Expr, rest: seq<Token>, minPrec: nat)
    requires WellNested(e) && minPrec <= Strength(e) && minPrec <= FunctionCalls
    requires MayFollowExpr(rest)
    requires ContinuesAt(rest, 0) ==> Prec(rest[0].op) <= Strength(e)
    ensures ParseExpr(PrintExpr(e) + rest, minPrec) == ParseOperators(e, rest, minPrec)
    decreases e, 3
  {
    if e.BinaryExpression? {
      var l, op, r := e.left, e.operator, e.right;
      var rest1 := BinaryTokens(e, rest);
      ExprThenOperators(l, rest1, minPrec);
      ExprThenOperators(r, rest, Prec(op) + 1);
      OperatorStep(l, op, r, rest, minPrec);
    } else {
      PrimaryRoundTrip(e, rest);
    }
  }

  /** The tokens of a binary expression and what follows it, split after its left operand. */
  lemma BinaryTokens(e: Expr, rest: seq<Token>) returns (rest1: seq<Token>)
    requires e.BinaryExpression?
    ensures rest1 == [Op(e.operator)] + (PrintExpr(e.right) + rest)
    ensures PrintExpr(e) + rest == PrintExpr(e.left) + rest1
    ensures rest1[1..] == PrintExpr(e.right) + rest
  {
    rest1 := [Op(e.operator)] + (PrintExpr(e.right) + rest);
  }

  /**
   One round of the climbing loop: after `l`, the operator `op` is taken
   and its right operand `r` is read at the next level up.
   */
  lemma OperatorStep(l: Expr, op: BinOp, r: Expr, rest: seq<Token>, minPrec: nat)
    requires WellNested(l) && WellNested(r) && minPrec <= Prec(op) <= Strength(l) && Prec(op) < Strength(r)
    requires ContinuesAt(rest, 0) ==> Prec(rest[0].op) <= Prec(op)
    requires ParseExpr(PrintExpr(r) + rest, Prec(op) + 1) == ParseOperators(r, rest, Prec(op) + 1)
    ensures ParseOperators(l, [Op(op)] + (PrintExpr(r) + rest), minPrec)
         == ParseOperators(BinaryExpression(l, op, r), rest, minPrec)
  {
    var ts := [Op(op)] + (PrintExpr(r) + rest);
    assert ts[1..] == PrintExpr(r) + rest;
    assert ParseOperators(r, rest, Prec(op) + 1) == Ok(Parsed(r, rest));
  }

  lemma {:induction false} PrimaryRoundTrip(e: Expr, rest: seq<Token>)
    requires WellNested(e) && !e.BinaryExpression? && MayFollowExpr(rest)
    ensures ParsePrimary(PrintExpr(e) + rest) == Ok(Parsed(e, rest))
    decreases e, 2
  {
    match e
    case IfExpression(i) =>
      IfRoundTrip(i, rest);
      assert PrintExpr(e) + rest == PrintIf(i) + rest;
    case WhileExpression(c, b) =>
      WhileRoundTrip(e, rest);
    case CallExpression(f, args) =>
      var ts := [Ident(f)] + (Delimited(ArgumentTokens(e)) + rest);
      assert PrintExpr(e) + rest == ts;
      assert ts[1..] == Delimited(ArgumentTokens(e)) + rest;
      ArgumentsRoundTrip(e, rest);
    case Identifier(n) =>
      assert PrintExpr(e) + rest == [Ident(n)] + rest;
      assert ([Ident(n)] + rest)[1..] == rest;
    case IntegerLiteral(d) =>
      assert PrintExpr(e) + rest == [Integer(d)] + rest;
      assert ([Integer(d)] + rest)[1..] == rest;
    case BooleanLiteral(v) =>
      var t := Kw(if v then True else False);
      assert PrintExpr(e) + rest == [t] + rest;
      assert ([t] + rest)[1..] == rest;
    case UnitLiteral =>
      assert PrintExpr(e) + rest == [LParen, RParen] + rest;
      assert ([LParen, RParen] + rest)[2..] == rest;
    case ParenthesizedExpression(x) =>
      ParenthesizedRoundTrip(e, rest);
  }

  lemma {:induction false} WhileRoundTrip(e: Expr, rest: seq<Token>)
    requires WellNested(e) && e.WhileExpression?
    ensures ParsePrimary(PrintExpr(e) + rest) == Ok(Parsed(e, rest))
    decreases e, 1
  {
    var rest1 := PrintBlock(e.body) + rest;
    var ts := WhileTokens(e, rest);
    ExprRoundTrip(e.condition, rest1);
    BlockRoundTrip(e.body, rest);
    WhileFromParts(ts, e, rest1, rest);
  }

  lemma WhileTokens(e: Expr, rest: seq<Token>) returns (ts: seq<Token>)
    requires e.WhileExpression?
    ensures ts == PrintExpr(e) + rest
    ensures StartsWith(ts, Kw(While))
    ensures ts[1..] == PrintExpr(e.condition) + (PrintBlock(e.body) + rest)
  {
    ts := [Kw(While)] + (PrintExpr(e.condition) + (PrintBlock(e.body) + rest));
  }

  lemma WhileFromParts(ts: seq<Token>, e: Expr, rest1: seq<Token>, rest: seq<Token>)
    requires e.WhileExpression? && StartsWith(ts, Kw(While))
    requires ParseExpr(ts[1..], 0) == Ok(Parsed(e.condition, rest1))
    requires ParseBlock(rest1) == Ok(Parsed(e.body, rest))
    ensures ParsePrimary(ts) == Ok(Parsed(e, rest))
  {
  }

  lemma {:induction false} ParenthesizedRoundTrip(e: Expr, rest: seq<Token>)
    requires WellNested(e) && e.ParenthesizedExpression?
    ensures ParsePrimary(PrintExpr(e) + rest) == Ok(Parsed(e, rest))
    decreases e, 1
  {
    var rest1 := [RParen] + rest;
    var ts := [LParen] + (PrintExpr(e.inner) + rest1);
    assert PrintExpr(e) + rest == ts;
    assert ts[1..] == PrintExpr(e.inner) + rest1;
    assert ts[1] == PrintExpr(e.inner)[0];
    ExprRoundTrip(e.inner, rest1);
    assert ParseExpr(ts[1..], 0) == Ok(Parsed(e.inner, rest1));
    assert rest1[1..] == rest;
  }

  lemma {:induction false} ArgumentsRoundTrip(e: Expr, rest: seq<Token>)
    requires e.CallExpression? && WellNested(e)
    ensures ParseArguments(Delimited(ArgumentTokens(e)) + rest) == Ok(Parsed(e.arguments, rest))
    decreases e, 1
  {
    var ts := Delimited(ArgumentTokens(e)) + rest;
    if |e.arguments| == 0 {
      assert ts[2..] == rest;
    } else {
      ArgumentListTokensOpen(e, rest);
      ArgumentListRoundTrip(e, 0, rest);
      assert e.arguments[..0] == [];
    }
  }

  /** The tokens of the arguments from the `k`-th on, up to and including `)`. */
  function ArgumentListTokens(e: Expr, k: nat): seq<Token>
    requires e.CallExpression? && k < |e.arguments|
  {
    CommaSep(ArgumentTokens(e)[k..]) + [RParen]
  }

  lemma ArgumentListTokensOpen(e: Expr, rest: seq<Token>)
    requires e.CallExpression? && |e.arguments| > 0
    ensures var ts := Delimited(ArgumentTokens(e)) + rest;
      StartsWith(ts, LParen) && ts[1..] == ArgumentListTokens(e, 0) + rest && !StartsWith(ts[1..], RParen)
  {
    var parts := ArgumentTokens(e);
    assert parts[0..] == parts;
    assert parts[0] == PrintExpr(e.arguments[0]);
  }

  lemma ArgumentListTokensLast(e: Expr, k: nat, rest: seq<Token>)
    requires e.CallExpression? && k + 1 == |e.arguments|
    ensures ArgumentListTokens(e, k) + rest == PrintExpr(e.arguments[k]) + ([RParen] + rest)
  {
    var parts := ArgumentTokens(e)[k..];
    assert |parts| == 1 && parts[0] == PrintExpr(e.arguments[k]);
  }

  lemma ArgumentListTokensStep(e: Expr, k: nat, rest: seq<Token>)
    requires e.CallExpression? && k + 1 < |e.arguments|
    ensures ArgumentListTokens(e, k) + rest
         == PrintExpr(e.arguments[k]) + ([Comma] + (ArgumentListTokens(e, k + 1) + rest))
  {
    var parts := ArgumentTokens(e)[k..];
    assert parts[0] == PrintExpr(e.arguments[k]);
    assert parts[1..] == ArgumentTokens(e)[k + 1..];
    assert CommaSep(parts) == PrintExpr(e.arguments[k]) + [Comma] + CommaSep(parts[1..]);
  }

  lemma {:induction false} ArgumentListRoundTrip(e: Expr, k: nat, rest: seq<Token>)
    requires e.CallExpression? && WellNested(e) && k < |e.arguments|
    ensures ParseArgumentList(ArgumentListTokens(e, k) + rest, e.arguments[..k])
         == Ok(Parsed(e.arguments, rest))
    decreases e, 0, |e.arguments| - k, 1
  {
    if k + 1 == |e.arguments| {
      FinalArgumentRoundTrip(e, k, rest);
    } else {
      ArgumentListTokensStep(e, k, rest);
      InnerArgumentRoundTrip(e, k, ArgumentListTokens(e, k + 1) + rest);
      ArgumentListRoundTrip(e, k + 1, rest);
    }
  }

  lemma {:induction false} FinalArgumentRoundTrip(e: Expr, k: nat, rest: seq<Token>)
    requires e.CallExpression? && WellNested(e) && k + 1 == |e.arguments|
    ensures ParseArgumentList(ArgumentListTokens(e, k) + rest, e.arguments[..k])
         == Ok(Parsed(e.arguments, rest))
    decreases e, 0, |e.arguments| - k, 0
  {
    var arg := e.arguments[k];
    ArgumentListTokensLast(e, k, rest);
    ExprRoundTrip(arg, [RParen] + rest);
    LastArgument(PrintExpr(arg) + ([RParen] + rest), arg, e.arguments[..k], rest);
    assert e.arguments[..k] + [arg] == e.arguments;
  }

  lemma {:induction false} InnerArgumentRoundTrip(e: Expr, k: nat, more: seq<Token>)
    requires e.CallExpression? && WellNested(e) && k + 1 < |e.arguments|
    ensures ParseArgumentList(PrintExpr(e.arguments[k]) + ([Comma] + more), e.arguments[..k])
         == ParseArgumentList(more, e.arguments[..k + 1])
    decreases e, 0, |e.arguments| - k, 0
  {
    var arg := e.arguments[k];
    ExprRoundTrip(arg, [Comma] + more);
    NextArgument(PrintExpr(arg) + ([Comma] + more), arg, e.arguments[..k], more);
    PrefixStep(e.arguments, k);
  }

  lemma LastArgument(ts: seq<Token>, arg: Expr, acc: seq<Expr>, rest: seq<Token>)
    requires forall i :: 0 <= i < |acc| ==> WellNested(acc[i])
    requires ParseExpr(ts, 0) == Ok(Parsed(arg, [RParen] + rest))
    ensures ParseArgumentList(ts, acc) == Ok(Parsed(acc + [arg], rest))
  {
    assert ([RParen] + rest)[1..] == rest;
  }

  lemma NextArgument(ts: seq<Token>, arg: Expr, acc: seq<Expr>, more: seq<Token>)
    requires forall i :: 0 <= i < |acc| ==> WellNested(acc[i])
    requires ParseExpr(ts, 0) == Ok(Parsed(arg, [Comma] + more))
    ensures ParseArgumentList(ts, acc) == ParseArgumentList(more, acc + [arg])
  {
    assert ([Comma] + more)[1..] == more;
  }

  /** An `if` and everything after it: the `else` chain is read back link by link. */
  lemma {:induction false} IfRoundTrip(i: IfExpr, rest: seq<Token>)
    requires WellNestedIf(i) && !StartsWith(rest, Kw(Else))
    ensures ParseIf(PrintIf(i) + rest) == Ok(Parsed(i, rest))
    decreases i
  {
    var rest2 := ElseTokens(i) + rest;
    var rest1 := PrintBlock(i.consequence) + rest2;
    var ts := IfTokens(i, rest);
    ExprRoundTrip(i.condition, rest1);
    BlockRoundTrip(i.consequence, rest2);
    if i.alternative.Some? {
      ElseRoundTrip(i.alternative.value, rest);
    }
    IfFromParts(ts, i, rest1, rest2, rest);
  }

  function ElseTokens(i: IfExpr): seq<Token> {
    if i.alternative.Some? then PrintElse(i.alternative.value) else []
  }

  /** The tokens of an `if` and what follows it, split at its parts. */
  lemma IfTokens(i: IfExpr, rest: seq<Token>) returns (ts: seq<Token>)
    ensures ts == PrintIf(i) + rest
    ensures StartsWith(ts, Kw(If))
    ensures ts[1..] == PrintExpr(i.condition) + (PrintBlock(i.consequence) + (ElseTokens(i) + rest))
  {
    var rest1 := PrintBlock(i.consequence) + (ElseTokens(i) + rest);
    ts := [Kw(If)] + (PrintExpr(i.condition) + rest1);
    assert PrintIf(i) + rest == ts;
  }

  /** `ParseIf` assembles an `if` from the parses of its parts. */
  lemma IfFromParts(ts: seq<Token>, i: IfExpr, rest1: seq<Token>, rest2: seq<Token>, rest: seq<Token>)
    requires StartsWith(ts, Kw(If))
    requires ParseExpr(ts[1..], 0) == Ok(Parsed(i.condition, rest1))
    requires ParseBlock(rest1) == Ok(Parsed(i.consequence, rest2))
    requires i.alternative.Some? ==> ParseElse(rest2) == Ok(Parsed(i.alternative.value, rest))
    requires i.alternative.None? ==> rest2 == rest && !StartsWith(rest, Kw(Else))
    ensures ParseIf(ts) == Ok(Parsed(i, rest))
  {
  }

  lemma {:induction false} ElseRoundTrip(c: ElseClause, rest: seq<Token>)
    requires WellNestedElse(c) && !StartsWith(rest, Kw(Else))
    ensures ParseElse(PrintElse(c) + rest) == Ok(Parsed(c, rest))
    decreases c
  {
    var ts := PrintElse(c) + rest;
    match c
    case ElseBlock(b) =>
      assert ts[1..] == PrintBlock(b) + rest;
      BlockRoundTrip(b, rest);
    case ElseIf(n) =>
      assert ts[1..] == PrintIf(n) + rest;
      IfRoundTrip(n, rest);
  }

  // ---------------------------------------------------------------------
  // Blocks and statements

  /** A block parses back to itself whatever follows it. */
  lemma {:induction false} BlockRoundTrip(b: Block, rest: seq<Token>)
    requires WellNestedBlock(b)
    ensures ParseBlock(PrintBlock(b) + rest) == Ok(Parsed(b, rest))
    decreases b, 1
  {
    var ts := PrintBlock(b) + rest;
    BlockTokens(b, rest);
    BodyRoundTrip(b, 0, rest);
  }

  function TailTokens(b: Block): seq<Token> {
    if b.tail.Some? then PrintExpr(b.tail.value) else []
  }

  /** The tokens of a block from its `k`-th statement up to and including `}`. */
  function BodyTokens(b: Block, k: nat): seq<Token>
    requires k <= |b.statements|
  {
    Concat(StatementTokens(b)[k..]) + TailTokens(b) + [RBrace]
  }

  lemma BlockTokens(b: Block, rest: seq<Token>)
    ensures StartsWith(PrintBlock(b) + rest, LBrace)
    ensures (PrintBlock(b) + rest)[1..] == BodyTokens(b, 0) + rest
    ensures b.statements[..0] == []
  {
    assert StatementTokens(b)[0..] == StatementTokens(b);
  }

  lemma BodyTokensStep(b: Block, k: nat, rest: seq<Token>)
    requires k < |b.statements|
    ensures BodyTokens(b, k) + rest == PrintStatement(b.statements[k]) + (BodyTokens(b, k + 1) + rest)
    ensures b.statements[..k] + [b.statements[k]] == b.statements[..k + 1]
  {
    var parts := StatementTokens(b);
    assert parts[k..] == [parts[k]] + parts[k + 1..];
  }

  lemma BodyTokensEnd(b: Block, rest: seq<Token>)
    ensures BodyTokens(b, |b.statements|) + rest == TailTokens(b) + [RBrace] + rest
    ensures b.statements[..|b.statements|] == b.statements
  {
    assert StatementTokens(b)[|b.statements|..] == [];
  }

  lemma {:induction false} BodyRoundTrip(b: Block, k: nat, rest: seq<Token>)
    requires WellNestedBlock(b) && k <= |b.statements|
    ensures ParseBlockBody(BodyTokens(b, k) + rest, b.statements[..k]) == Ok(Parsed(b, rest))
    decreases b, 0, |b.statements| - k + 1
  {
    if k == |b.statements| {
      BodyTokensEnd(b, rest);
      TailRoundTrip(b, rest);
    } else {
      BodyTokensStep(b, k, rest);
      StatementStep(b.statements[k], BodyTokens(b, k + 1) + rest, b.statements[..k]);
      BodyRoundTrip(b, k + 1, rest);
    }
  }

  /** The end of a block: its trailing expression, if any, then `}`. */
  lemma {:induction false} TailRoundTrip(b: Block, rest: seq<Token>)
    requires WellNestedBlock(b)
    ensures ParseBlockBody(TailTokens(b) + [RBrace] + rest, b.statements) == Ok(Parsed(b, rest))
    decreases b, 0, 0
  {
    var rest1 := [RBrace] + rest;
    assert rest1[1..] == rest;
    if b.tail.Some? {
      var x := b.tail.value;
      assert TailTokens(b) + [RBrace] + rest == PrintExpr(x) + rest1;
      NotAnAssignment(x, rest1);
      ExprRoundTrip(x, rest1);
    } else {
      assert TailTokens(b) + [RBrace] + rest == rest1;
    }
  }

  /** A statement is read as that statement, and the block goes on after it. */
  lemma {:induction false} StatementStep(s: Statement, more: seq<Token>, acc: seq<Statement>)
    requires WellNestedStatement(s)
    requires forall i :: 0 <= i < |acc| ==> WellNestedStatement(acc[i])
    ensures ParseBlockBody(PrintStatement(s) + more, acc) == ParseBlockBody(more, acc + [s])
    decreases s, 1
  {
    var ts := PrintStatement(s) + more;
    match s
    case LetStatement(n, t, v) =>
      LetRoundTrip(s, more);
      StatementThenBody(ts, s, more, acc);
    case AssignmentStatement(n, v) =>
      AssignmentRoundTrip(s, more);
      StatementThenBody(ts, s, more, acc);
    case ExpressionStatement(x) =>
      var rest1 := [Semicolon] + more;
      assert ts == PrintExpr(x) + rest1;
      NotAnAssignment(x, rest1);
      ExprRoundTrip(x, rest1);
      ExpressionThenBody(ts, x, more, acc);
  }

  /** A `let` or an assignment that reads back is followed by the rest of the block. */
  lemma StatementThenBody(ts: seq<Token>, s: Statement, more: seq<Token>, acc: seq<Statement>)
    requires forall i :: 0 <= i < |acc| ==> WellNestedStatement(acc[i])
    requires s.LetStatement? || s.AssignmentStatement?
    requires s.LetStatement? ==> ts == PrintStatement(s) + more && ParseLet(ts) == Ok(Parsed(s, more))
    requires s.AssignmentStatement? ==> ts == PrintStatement(s) + more && ParseAssignment(ts) == Ok(Parsed(s, more))
    ensures ParseBlockBody(ts, acc) == ParseBlockBody(more, acc + [s])
  {
    if s.AssignmentStatement? {
      assert ts[1] == Assign;
    }
  }

  /** An expression followed by `;` is an expression statement, and the block goes on after it. */
  lemma ExpressionThenBody(ts: seq<Token>, x: Expr, more: seq<Token>, acc: seq<Statement>)
    requires forall i :: 0 <= i < |acc| ==> WellNestedStatement(acc[i])
    requires |ts| > 0 && ts[0] != RBrace && ts[0] != Kw(Let) && !(ts[0].Ident? && StartsWith(ts[1..], Assign))
    requires ParseExpr(ts, 0) == Ok(Parsed(x, [Semicolon] + more))
    ensures ParseBlockBody(ts, acc) == ParseBlockBody(more, acc + [ExpressionStatement(x)])
  {
    assert ([Semicolon] + more)[1..] == more;
  }

  /** An expression statement is never taken for a `let` or an assignment. */
  lemma NotAnAssignment(x: Expr, rest: seq<Token>)
    requires |rest| > 0 && rest[0] != Assign
    ensures var ts := PrintExpr(x) + rest;
      ts[0] != RBrace && ts[0] != Kw(Let) && !(ts[0].Ident? && StartsWith(ts[1..], Assign))
  {
    var ts := PrintExpr(x) + rest;
    assert ts[0] == PrintExpr(x)[0];
    if |PrintExpr(x)| > 1 {
      assert ts[1] == PrintExpr(x)[1];
    } else {
      assert ts[1] == rest[0];
    }
  }

  lemma {:induction false} LetRoundTrip(s: Statement, rest: seq<Token>)
    requires s.LetStatement? && WellNestedStatement(s)
    ensures ParseLet(PrintStatement(s) + rest) == Ok(Parsed(s, rest))
    decreases s, 0
  {
    var rest2 := [Semicolon] + rest;
    var rest1 := [Assign] + (PrintExpr(s.value) + rest2);
    var ts := LetTokens(s, rest);
    TypeRoundTrip(s.ty, rest1);
    ExprRoundTrip(s.value, rest2);
    LetFromParts(ts, s, rest1, rest2, rest);
  }

  lemma LetTokens(s: Statement, rest: seq<Token>) returns (ts: seq<Token>)
    requires s.LetStatement?
    ensures ts == PrintStatement(s) + rest
    ensures |ts| >= 3 && ts[0] == Kw(Let) && ts[1] == Ident(s.name) && ts[2] == Colon
    ensures ts[3..] == PrintType(s.ty) + ([Assign] + (PrintExpr(s.value) + ([Semicolon] + rest)))
  {
    ts := [Kw(Let), Ident(s.name), Colon] + (PrintType(s.ty) + ([Assign] + (PrintExpr(s.value) + ([Semicolon] + rest))));
  }

  lemma LetFromParts(ts: seq<Token>, s: Statement, rest1: seq<Token>, rest2: seq<Token>, rest: seq<Token>)
    requires s.LetStatement?
    requires |ts| >= 3 && ts[0] == Kw(Let) && ts[1] == Ident(s.name) && ts[2] == Colon
    requires ParseType(ts[3..]) == Ok(Parsed(s.ty, rest1))
    requires StartsWith(rest1, Assign) && ParseExpr(rest1[1..], 0) == Ok(Parsed(s.value, rest2))
    requires rest2 == [Semicolon] + rest
    ensures ParseLet(ts) == Ok(Parsed(s, rest))
  {
    assert rest2[1..] == rest;
  }

  lemma {:induction false} AssignmentRoundTrip(s: Statement, rest: seq<Token>)
    requires s.AssignmentStatement? && WellNestedStatement(s)
    ensures ParseAssignment(PrintStatement(s) + rest) == Ok(Parsed(s, rest))
    decreases s, 0
  {
    var rest1 := [Semicolon] + rest;
    var ts := [Ident(s.name), Assign] + (PrintExpr(s.value) + rest1);
    assert PrintStatement(s) + rest == ts;
    assert ts[2..] == PrintExpr(s.value) + rest1;
    ExprRoundTrip(s.value, rest1);
    AssignmentFromParts(ts, s, rest1, rest);
  }

  lemma AssignmentFromParts(ts: seq<Token>, s: Statement, rest1: seq<Token>, rest: seq<Token>)
    requires s.AssignmentStatement?
    requires |ts| >= 2 && ts[0] == Ident(s.name) && ts[1] == Assign
    requires ParseExpr(ts[2..], 0) == Ok(Parsed(s.value, rest1))
    requires rest1 == [Semicolon] + rest
    ensures ParseAssignment(ts) == Ok(Parsed(s, rest))
  {
    assert rest1[1..] == rest;
  }

  // ---------------------------------------------------------------------
  // Items

  lemma TypeRoundTrip(t: Type, rest: seq<Token>)
    ensures ParseType(PrintType(t) + rest) == Ok(Parsed(t, rest))
  {
    assert (PrintType(t) + rest)[1..] == rest;
  }

  lemma ParameterRoundTrip(p: Parameter, rest: seq<Token>)
    ensures ParseParameter(PrintParameter(p) + rest) == Ok(Parsed(p, rest))
  {
    var ts := PrintParameter(p) + rest;
    assert ts[2..] == PrintType(p.ty) + rest;
    TypeRoundTrip(p.ty, rest);
  }

  /** A parameter list, including the empty one, reads back as itself. */
  lemma {:induction false} ParametersRoundTrip(ps: seq<Parameter>, rest: seq<Token>)
    ensures ParseParameters(Delimited(ParameterTokens(ps)) + rest) == Ok(Parsed(ps, rest))
  {
    var ts := Delimited(ParameterTokens(ps)) + rest;
    if |ps| == 0 {
      assert ts[2..] == rest;
    } else {
      ParameterListTokensOpen(ps, rest);
      ParameterListRoundTrip(ps, [], rest);
    }
  }

  /** The tokens of a non-empty parameter list after its `(`, up to and including `)`. */
  function ParameterListTokens(ps: seq<Parameter>): seq<Token>
    requires |ps| > 0
  {
    CommaSep(ParameterTokens(ps)) + [RParen]
  }

  lemma ParameterListTokensOpen(ps: seq<Parameter>, rest: seq<Token>)
    requires |ps| > 0
    ensures var ts := Delimited(ParameterTokens(ps)) + rest;
      StartsWith(ts, LParen) && ts[1..] == ParameterListTokens(ps) + rest && ts[1] == Ident(ps[0].name)
  {
    var parts := ParameterTokens(ps);
    assert parts[0] == PrintParameter(ps[0]);
  }

  lemma ParameterListTokensLast(ps: seq<Parameter>, rest: seq<Token>)
    requires |ps| == 1
    ensures ParameterListTokens(ps) + rest == PrintParameter(ps[0]) + ([RParen] + rest)
  {
    var parts := ParameterTokens(ps);
    assert CommaSep(parts) == PrintParameter(ps[0]);
  }

  lemma ParameterListTokensStep(ps: seq<Parameter>, rest: seq<Token>)
    requires |ps| > 1
    ensures ParameterListTokens(ps) + rest == PrintParameter(ps[0]) + ([Comma] + (ParameterListTokens(ps[1..]) + rest))
  {
    var parts := ParameterTokens(ps);
    assert parts[1..] == ParameterTokens(ps[1..]);
    assert CommaSep(parts) == PrintParameter(ps[0]) + [Comma] + CommaSep(ParameterTokens(ps[1..]));
  }

  lemma {:induction false} ParameterListRoundTrip(ps: seq<Parameter>, acc: seq<Parameter>, rest: seq<Token>)
    requires |ps| > 0
    ensures ParseParameterList(ParameterListTokens(ps) + rest, acc) == Ok(Parsed(acc + ps, rest))
    decreases |ps|
  {
    if |ps| == 1 {
      FinalParameterRoundTrip(ps, acc, rest);
    } else {
      InnerParameterRoundTrip(ps, acc, rest);
      ParameterListRoundTrip(ps[1..], acc + [ps[0]], rest);
      assert acc + [ps[0]] + ps[1..] == acc + ps;
    }
  }

  lemma FinalParameterRoundTrip(ps: seq<Parameter>, acc: seq<Parameter>, rest: seq<Token>)
    requires |ps| == 1
    ensures ParseParameterList(ParameterListTokens(ps) + rest, acc) == Ok(Parsed(acc + ps, rest))
  {
    ParameterListTokensLast(ps, rest);
    LastParameter(ps[0], acc, rest);
    assert acc + [ps[0]] == acc + ps;
  }

  lemma InnerParameterRoundTrip(ps: seq<Parameter>, acc: seq<Parameter>, rest: seq<Token>)
    requires |ps| > 1
    ensures ParseParameterList(ParameterListTokens(ps) + rest, acc)
         == ParseParameterList(ParameterListTokens(ps[1..]) + rest, acc + [ps[0]])
  {
    ParameterListTokensStep(ps, rest);
    NextParameter(ps[0], acc, ParameterListTokens(ps[1..]) + rest);
  }

  lemma LastParameter(p: Parameter, acc: seq<Parameter>, rest: seq<Token>)
    ensures ParseParameterList(PrintParameter(p) + ([RParen] + rest), acc) == Ok(Parsed(acc + [p], rest))
  {
    ParameterRoundTrip(p, [RParen] + rest);
    assert ([RParen] + rest)[1..] == rest;
  }

  lemma NextParameter(p: Parameter, acc: seq<Parameter>, more: seq<Token>)
    ensures ParseParameterList(PrintParameter(p) + ([Comma] + more), acc) == ParseParameterList(more, acc + [p])
  {
    ParameterRoundTrip(p, [Comma] + more);
    assert ([Comma] + more)[1..] == more;
  }

  lemma {:induction false} FunctionItemRoundTrip(f: FunctionItem, rest: seq<Token>)
    requires WellNestedFunction(f)
    ensures ParseFunctionItem(PrintFunctionItem(f) + rest) == Ok(Parsed(f, rest))
  {
    var afterBody := PrintBlock(f.body) + rest;
    var afterType := PrintType(f.returnType) + afterBody;
    var afterParams := [Arrow] + afterType;
    var ts := FunctionTokens(f, rest);
    ParametersRoundTrip(f.parameters, afterParams);
    TypeRoundTrip(f.returnType, afterBody);
    BlockRoundTrip(f.body, rest);
    FunctionFromParts(ts, f, afterParams, afterBody, rest);
  }

  lemma FunctionTokens(f: FunctionItem, rest: seq<Token>) returns (ts: seq<Token>)
    ensures ts == PrintFunctionItem(f) + rest
    ensures |ts| >= 2 && ts[0] == Kw(Fn) && ts[1] == Ident(f.name)
    ensures ts[2..] == Delimited(ParameterTokens(f.parameters)) + ([Arrow] + (PrintType(f.returnType) + (PrintBlock(f.body) + rest)))
  {
    var afterParams := [Arrow] + (PrintType(f.returnType) + (PrintBlock(f.body) + rest));
    ts := [Kw(Fn), Ident(f.name)] + (Delimited(ParameterTokens(f.parameters)) + afterParams);
  }

  lemma FunctionFromParts(ts: seq<Token>, f: FunctionItem, afterParams: seq<Token>, afterBody: seq<Token>, rest: seq<Token>)
    requires |ts| >= 2 && ts[0] == Kw(Fn) && ts[1] == Ident(f.name)
    requires ParseParameters(ts[2..]) == Ok(Parsed(f.parameters, afterParams))
    requires StartsWith(afterParams, Arrow) && ParseType(afterParams[1..]) == Ok(Parsed(f.returnType, afterBody))
    requires ParseBlock(afterBody) == Ok(Parsed(f.body, rest))
    ensures ParseFunctionItem(ts) == Ok(Parsed(f, rest))
  {
  }

  /** The tokens of a source file from its `k`-th item on. */
  function ItemsFrom(sf: SourceFile, k: nat): seq<Token>
    requires k <= |sf.items|
  {
    Concat(ItemTokens(sf)[k..])
  }

  lemma ItemsFromStep(sf: SourceFile, k: nat)
    requires k < |sf.items|
    ensures ItemsFrom(sf, k) == PrintFunctionItem(sf.items[k]) + ItemsFrom(sf, k + 1)
  {
    var parts := ItemTokens(sf);
    var tail := parts[k..];
    assert tail[0] == PrintFunctionItem(sf.items[k]);
    assert tail[1..] == parts[k + 1..];
    assert Concat(tail) == tail[0] + Concat(tail[1..]);
  }

  lemma PrefixStep<T>(xs: seq<T>, k: nat)
    requires k < |xs|
    ensures xs[..k] + [xs[k]] == xs[..k + 1]
  {
  }

  lemma ItemsFromEnds(sf: SourceFile)
    ensures ItemsFrom(sf, |sf.items|) == []
    ensures ItemsFrom(sf, 0) == PrintSourceFile(sf)
    ensures sf.items[..|sf.items|] == sf.items && sf.items[..0] == []
  {
    assert ItemTokens(sf)[|sf.items|..] == [];
    assert ItemTokens(sf)[0..] == ItemTokens(sf);
  }

  /** A function item is read as that item, and the file goes on after it. */
  lemma ItemStep(ts: seq<Token>, f: FunctionItem, more: seq<Token>, acc: seq<FunctionItem>)
    requires WellNestedFunction(f) && forall i :: 0 <= i < |acc| ==> WellNestedFunction(acc[i])
    requires |ts| > 0 && ParseFunctionItem(ts) == Ok(Parsed(f, more))
    ensures ParseItems(ts, acc) == ParseItems(more, acc + [f])
  {
  }

  lemma {:induction false} ItemsRoundTrip(sf: SourceFile, k: nat)
    requires WellNestedFile(sf) && k <= |sf.items|
    ensures ParseItems(ItemsFrom(sf, k), sf.items[..k]) == Ok(sf)
    decreases |sf.items| - k
  {
    if k == |sf.items| {
      ItemsFromEnds(sf);
    } else {
      var f := sf.items[k];
      ItemsFromStep(sf, k);
      PrefixStep(sf.items, k);
      FunctionItemRoundTrip(f, ItemsFrom(sf, k + 1));
      ItemStep(ItemsFrom(sf, k), f, ItemsFrom(sf, k + 1), sf.items[..k]);
      ItemsRoundTrip(sf, k + 1);
    }
  }

  /** A whole well-nested source file reads back as itself from its tokens. */
  lemma SourceFileRoundTrip(sf: SourceFile)
    requires WellNestedFile(sf)
    ensures ParseSourceFile(PrintSourceFile(sf)) == Ok(sf)
  {
    ItemsFromEnds(sf);
    ItemsRoundTrip(sf, 0);
  }
}
