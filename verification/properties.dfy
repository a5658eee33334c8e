/**
 The grammar's promises about shapes, stated on token sequences: how
 operators group, where an `else` goes, what lists and blocks may look
 like, and which inputs are syntax errors.
 */
module Properties {

  import opened Results
  import opened Precedence
  import opened Tokens
  import opened Syntax
  import opened Parser
  import opened Printer
  import opened RoundTrip

  /** The tokens of a well-nested expression read back as that expression. */
  lemma ReadsAs(ts: seq<Token>, e: Expr)
    requires WellNested(e) && PrintExpr(e) == ts
    ensures ParseExpr(ts, 0) == Ok(Parsed(e, []))
  {
    assert PrintExpr(e) + [] == ts;
    ExprRoundTrip(e, []);
  }

  /**
   The precedence and associativity annotations leave no ambiguity: two
   well-nested expressions spelled by the same tokens are the same tree.
   */
  lemma ExpressionsAreUnambiguous(e1: Expr, e2: Expr)
    requires WellNested(e1) && WellNested(e2) && PrintExpr(e1) == PrintExpr(e2)
    ensures e1 == e2
  {
    ReadsAs(PrintExpr(e1), e1);
    ReadsAs(PrintExpr(e1), e2);
  }

  /** The same holds of whole files: a well-nested file is determined by its tokens. */
  lemma SourceFilesAreUnambiguous(f1: SourceFile, f2: SourceFile)
    requires WellNestedFile(f1) && WellNestedFile(f2) && PrintSourceFile(f1) == PrintSourceFile(f2)
    ensures f1 == f2
  {
    SourceFileRoundTrip(f1);
    SourceFileRoundTrip(f2);
  }

  // ---------------------------------------------------------------------
  // Operators

  /** `a o1 b o2 c` with `o2` binding tighter groups the right pair first. */
  lemma TighterOperatorGroupsFirst(a: string, o1: BinOp, b: string, o2: BinOp, c: string)
    requires Prec(o1) < Prec(o2)
    ensures ParseExpr([Ident(a), Op(o1), Ident(b), Op(o2), Ident(c)], 0)
         == Ok(Parsed(BinaryExpression(Identifier(a), o1, BinaryExpression(Identifier(b), o2, Identifier(c))), []))
  {
    var inner := BinaryExpression(Identifier(b), o2, Identifier(c));
    var e := BinaryExpression(Identifier(a), o1, inner);
    assert PrintExpr(inner) == [Ident(b), Op(o2), Ident(c)];
    ReadsAs([Ident(a), Op(o1), Ident(b), Op(o2), Ident(c)], e);
  }

  /**
   `a o1 b o2 c` where `o1` binds at least as tightly groups the left pair
   first; with two operators of one level this is left associativity.
   */
  lemma LeftPairGroupsFirst(a: string, o1: BinOp, b: string, o2: BinOp, c: string)
    requires Prec(o1) >= Prec(o2)
    ensures ParseExpr([Ident(a), Op(o1), Ident(b), Op(o2), Ident(c)], 0)
         == Ok(Parsed(BinaryExpression(BinaryExpression(Identifier(a), o1, Identifier(b)), o2, Identifier(c)), []))
  {
    var inner := BinaryExpression(Identifier(a), o1, Identifier(b));
    var e := BinaryExpression(inner, o2, Identifier(c));
    assert PrintExpr(inner) == [Ident(a), Op(o1), Ident(b)];
    ReadsAs([Ident(a), Op(o1), Ident(b), Op(o2), Ident(c)], e);
  }

  /** `a + b * c` is `a + (b * c)`, and `a - b - c` is `(a - b) - c`. */
  lemma ArithmeticExamples()
    ensures ParseExpr([Ident("a"), Op(Add), Ident("b"), Op(Mul), Ident("c")], 0)
         == Ok(Parsed(BinaryExpression(Identifier("a"), Add, BinaryExpression(Identifier("b"), Mul, Identifier("c"))), []))
    ensures ParseExpr([Ident("a"), Op(Sub), Ident("b"), Op(Sub), Ident("c")], 0)
         == Ok(Parsed(BinaryExpression(BinaryExpression(Identifier("a"), Sub, Identifier("b")), Sub, Identifier("c")), []))
  {
    TighterOperatorGroupsFirst("a", Add, "b", Mul, "c");
    LeftPairGroupsFirst("a", Sub, "b", Sub, "c");
  }

  /** A call binds tighter than any binary operator on its right... */
  lemma CallBindsBeforeOperator(f: string, x: string, o: BinOp, y: string)
    ensures ParseExpr([Ident(f), LParen, Ident(x), RParen, Op(o), Ident(y)], 0)
         == Ok(Parsed(BinaryExpression(CallExpression(f, [Identifier(x)]), o, Identifier(y)), []))
  {
    var call := CallExpression(f, [Identifier(x)]);
    assert ArgumentTokens(call) == [[Ident(x)]];
    assert PrintExpr(call) == [Ident(f), LParen, Ident(x), RParen];
    var e := BinaryExpression(call, o, Identifier(y));
    assert PrintExpr(e) + [] == [Ident(f), LParen, Ident(x), RParen, Op(o), Ident(y)];
    ExprRoundTrip(e, []);
  }

  /** ... and on its left. */
  lemma CallBindsAfterOperator(f: string, x: string, o: BinOp, y: string)
    ensures ParseExpr([Ident(y), Op(o), Ident(f), LParen, Ident(x), RParen], 0)
         == Ok(Parsed(BinaryExpression(Identifier(y), o, CallExpression(f, [Identifier(x)])), []))
  {
    var call := CallExpression(f, [Identifier(x)]);
    assert ArgumentTokens(call) == [[Ident(x)]];
    assert PrintExpr(call) == [Ident(f), LParen, Ident(x), RParen];
    var e := BinaryExpression(Identifier(y), o, call);
    assert PrintExpr(e) + [] == [Ident(y), Op(o), Ident(f), LParen, Ident(x), RParen];
    ExprRoundTrip(e, []);
  }

  /** Parentheses override the table: `(a + b) * c`. */
  lemma ParenthesesOverride(a: string, b: string, c: string)
    ensures ParseExpr([LParen, Ident(a), Op(Add), Ident(b), RParen, Op(Mul), Ident(c)], 0)
         == Ok(Parsed(BinaryExpression(ParenthesizedExpression(BinaryExpression(Identifier(a), Add, Identifier(b))), Mul, Identifier(c)), []))
  {
    var sum := BinaryExpression(Identifier(a), Add, Identifier(b));
    var e := BinaryExpression(ParenthesizedExpression(sum), Mul, Identifier(c));
    assert PrintExpr(sum) == [Ident(a), Op(Add), Ident(b)];
    assert Prec(Add) == Additive && Prec(Mul) == Multiplicative;
    assert Strength(Identifier(a)) == FunctionCalls && Strength(Identifier(b)) == FunctionCalls;
    assert WellNested(Identifier(a)) && WellNested(Identifier(b));
    assert WellNested(sum);
    assert PrintExpr(e) + [] == [LParen, Ident(a), Op(Add), Ident(b), RParen, Op(Mul), Ident(c)];
    ExprRoundTrip(e, []);
  }

  /** After `(` and an expression only `)` may come: `(a,)` and `(a b)` are errors. */
  lemma ParenthesisMustClose(e: Expr, t: Token, rest: seq<Token>)
    requires WellNested(e) && t != RParen
    requires MayFollowExpr([t] + rest) && !ContinuesAt([t] + rest, 0)
    ensures ParsePrimary([LParen] + (PrintExpr(e) + ([t] + rest))).Err?
    ensures ParseExpr([LParen] + (PrintExpr(e) + ([t] + rest)), 0).Err?
  {
    var after := [t] + rest;
    var body := PrintExpr(e) + after;
    ExprRoundTrip(e, after);
    assert body[0] == PrintExpr(e)[0];
    var ts := [LParen] + body;
    assert ts[1..] == body;
    UnclosedParenthesis(ts);
  }

  lemma UnclosedParenthesis(ts: seq<Token>)
    requires StartsWith(ts, LParen) && !StartsWith(ts[1..], RParen)
    requires var inner := ParseExpr(ts[1..], 0); inner.Ok? && !StartsWith(inner.value.rest, RParen)
    ensures ParsePrimary(ts).Err? && ParseExpr(ts, 0).Err?
  {
  }

  // ---------------------------------------------------------------------
  // if / else

  const EmptyBlock := Block([], None)

  /**
   `if a {} else if b {} else {}` is one `if` whose alternative is a nested
   `if`, and the final `else` belongs to the nearest `if`, the nested one.
   */
  lemma ElseIfChainsNest(a: string, b: string)
    ensures ParseExpr([Kw(If), Ident(a), LBrace, RBrace, Kw(Else), Kw(If), Ident(b), LBrace, RBrace, Kw(Else), LBrace, RBrace], 0)
         == Ok(Parsed(IfExpression(IfExpr(Identifier(a), EmptyBlock,
              Some(ElseIf(IfExpr(Identifier(b), EmptyBlock, Some(ElseBlock(EmptyBlock))))))), []))
  {
    var inner := IfExpr(Identifier(b), EmptyBlock, Some(ElseBlock(EmptyBlock)));
    var e := IfExpression(IfExpr(Identifier(a), EmptyBlock, Some(ElseIf(inner))));
    assert StatementTokens(EmptyBlock) == [];
    assert PrintBlock(EmptyBlock) == [LBrace, RBrace];
    assert WellNestedBlock(EmptyBlock);
    assert PrintElse(ElseBlock(EmptyBlock)) == [Kw(Else), LBrace, RBrace];
    assert PrintIf(inner) == [Kw(If), Ident(b), LBrace, RBrace, Kw(Else), LBrace, RBrace];
    assert WellNestedElse(ElseBlock(EmptyBlock));
    assert WellNestedIf(inner);
    var outer := IfExpr(Identifier(a), EmptyBlock, Some(ElseIf(inner)));
    assert PrintElse(ElseIf(inner)) == [Kw(Else)] + PrintIf(inner);
    assert PrintIf(outer) == [Kw(If), Ident(a), LBrace, RBrace] + PrintElse(ElseIf(inner));
    assert PrintExpr(e) + [] == [Kw(If), Ident(a), LBrace, RBrace, Kw(Else), Kw(If), Ident(b), LBrace, RBrace, Kw(Else), LBrace, RBrace];
    ExprRoundTrip(e, []);
  }

  // ---------------------------------------------------------------------
  // Lists

  /** `f()` and `f( )` are calls with no arguments. */
  lemma EmptyArgumentList(f: string)
    ensures ParseExpr([Ident(f), UnitParens], 0) == Ok(Parsed(CallExpression(f, []), []))
    ensures ParseExpr([Ident(f), LParen, RParen], 0) == Ok(Parsed(CallExpression(f, []), []))
  {
    var e := CallExpression(f, []);
    assert ArgumentTokens(e) == [];
    assert PrintExpr(e) + [] == [Ident(f), LParen, RParen];
    ExprRoundTrip(e, []);
    assert ParsePrimary([Ident(f), UnitParens]) == Ok(Parsed(e, []));
  }

  /**
   The lexer joins an adjacent `(` `)` into the single `()` token. As an
   argument list that token means the same as `(` `)`: no arguments.
   */
  lemma EmptyArgumentsJoined(rest: seq<Token>)
    ensures ParseArguments([UnitParens] + rest) == Ok(Parsed([], rest))
    ensures ParseArguments([LParen, RParen] + rest) == Ok(Parsed([], rest))
  {
    assert ([UnitParens] + rest)[1..] == rest;
    assert ([LParen, RParen] + rest)[2..] == rest;
  }

  /** `f()` is a call with no arguments, whichever way `()` was lexed. */
  lemma EmptyCallJoined(f: string, rest: seq<Token>)
    ensures ParsePrimary([Ident(f), UnitParens] + rest) == Ok(Parsed(CallExpression(f, []), rest))
    ensures ParsePrimary([Ident(f), LParen, RParen] + rest) == Ok(Parsed(CallExpression(f, []), rest))
  {
    EmptyArgumentsJoined(rest);
    assert ([Ident(f), UnitParens] + rest)[1..] == [UnitParens] + rest;
    assert ([Ident(f), LParen, RParen] + rest)[1..] == [LParen, RParen] + rest;
  }

  /**
   Once an element is required (after a `(` not followed by `)`, or after
   a `,`), a `)` or another `,` there is a syntax error, so there are no
   trailing, doubled or leading commas.
   */
  lemma ArgumentListNeedsAnElement(ts: seq<Token>, acc: seq<Expr>)
    requires forall i :: 0 <= i < |acc| ==> WellNested(acc[i])
    requires |ts| > 0 && (ts[0] == RParen || ts[0] == Comma)
    ensures ParseArgumentList(ts, acc).Err?
  {
    assert ParsePrimary(ts).Err?;
  }

  /** `f(x,)` is a syntax error. */
  lemma TrailingCommaIsAnError(f: string, x: string)
    ensures ParseExpr([Ident(f), LParen, Ident(x), Comma, RParen], 0).Err?
  {
    var ts := [Ident(f), LParen, Ident(x), Comma, RParen];
    assert ParseExpr(ts[2..], 0) == Ok(Parsed(Identifier(x), [Comma, RParen]));
    ArgumentListNeedsAnElement([RParen], [Identifier(x)]);
    assert ParseArgumentList(ts[2..], []).Err?;
    assert ParsePrimary(ts).Err?;
  }

  /** `f(x,,y)` is a syntax error. */
  lemma DoubledCommaIsAnError(f: string, x: string, y: string)
    ensures ParseExpr([Ident(f), LParen, Ident(x), Comma, Comma, Ident(y), RParen], 0).Err?
  {
    var ts := [Ident(f), LParen, Ident(x), Comma, Comma, Ident(y), RParen];
    assert ParseExpr(ts[2..], 0) == Ok(Parsed(Identifier(x), ts[3..]));
    assert ts[3..][1..] == ts[4..];
    assert [] + [Identifier(x)] == [Identifier(x)];
    ArgumentListNeedsAnElement(ts[4..], [Identifier(x)]);
    assert ParseArgumentList(ts[2..], []).Err?;
    assert ParsePrimary(ts).Err?;
  }

  /** `f(,x)` is a syntax error. */
  lemma LeadingCommaIsAnError(f: string, x: string)
    ensures ParseExpr([Ident(f), LParen, Comma, Ident(x), RParen], 0).Err?
  {
    var ts := [Ident(f), LParen, Comma, Ident(x), RParen];
    ArgumentListNeedsAnElement(ts[2..], []);
    assert ParsePrimary(ts).Err?;
  }

  // ---------------------------------------------------------------------
  // Blocks

  /** `{ a; b }`: a statement, then the trailing expression. */
  lemma StatementThenTail(a: string, b: string)
    ensures ParseBlock([LBrace, Ident(a), Semicolon, Ident(b), RBrace])
         == Ok(Parsed(Block([ExpressionStatement(Identifier(a))], Some(Identifier(b))), []))
  {
    var blk := Block([ExpressionStatement(Identifier(a))], Some(Identifier(b)));
    assert PrintStatement(ExpressionStatement(Identifier(a))) == [Ident(a), Semicolon];
    assert StatementTokens(blk) == [[Ident(a), Semicolon]];
    assert Concat(StatementTokens(blk)) == [Ident(a), Semicolon];
    assert PrintBlock(blk) + [] == [LBrace, Ident(a), Semicolon, Ident(b), RBrace];
    BlockRoundTrip(blk, []);
  }

  /** `{ a b }`: only the last expression may lack its `;`. */
  lemma MissingSemicolonIsAnError(a: string, b: string)
    ensures ParseBlock([LBrace, Ident(a), Ident(b), RBrace]).Err?
  {
    assert ParseExpr([Ident(a), Ident(b), RBrace], 0) == Ok(Parsed(Identifier(a), [Ident(b), RBrace]));
  }

  /** `{ if a {} if b {} }`: an `if` is an expression, so it too needs `;` unless it is last. */
  lemma IfStatementNeedsSemicolon(a: string, b: string)
    ensures ParseBlock([LBrace, Kw(If), Ident(a), LBrace, RBrace, Kw(If), Ident(b), LBrace, RBrace, RBrace]).Err?
  {
    var rest := [Kw(If), Ident(b), LBrace, RBrace, RBrace];
    var e := IfExpression(IfExpr(Identifier(a), EmptyBlock, None));
    assert StatementTokens(EmptyBlock) == [];
    assert PrintBlock(EmptyBlock) == [LBrace, RBrace];
    assert PrintIf(IfExpr(Identifier(a), EmptyBlock, None)) == [Kw(If), Ident(a), LBrace, RBrace];
    assert PrintExpr(e) + rest == [Kw(If), Ident(a), LBrace, RBrace] + rest;
    assert WellNestedBlock(EmptyBlock);
    ExprRoundTrip(e, rest);
    var ts := [LBrace, Kw(If), Ident(a), LBrace, RBrace, Kw(If), Ident(b), LBrace, RBrace, RBrace];
    assert ts[1..] == [Kw(If), Ident(a), LBrace, RBrace] + rest;
    assert ParseBlockBody(ts[1..], []).Err?;
  }

  /** A `let` name must be followed by `:`: its type is mandatory, in a block as alone. */
  lemma LetTypeIsMandatory(x: string, t: Token, rest: seq<Token>, acc: seq<Statement>)
    requires forall i :: 0 <= i < |acc| ==> WellNestedStatement(acc[i])
    requires t != Colon
    ensures ParseLet([Kw(Let), Ident(x), t] + rest).Err?
    ensures ParseBlockBody([Kw(Let), Ident(x), t] + rest, acc).Err?
  {
    var ts := [Kw(Let), Ident(x), t] + rest;
    assert ts[0] == Kw(Let) && ts[2] == t;
  }

  // ---------------------------------------------------------------------
  // Items

  /** After `(` or `,` a parameter list needs an identifier: no trailing or doubled commas. */
  lemma ParameterListNeedsAParameter(ts: seq<Token>, acc: seq<Parameter>)
    requires |ts| > 0 && !ts[0].Ident?
    ensures ParseParameterList(ts, acc).Err?
  {
  }

  /** A parameter's name must be followed by `:`: its type is mandatory. */
  lemma ParameterTypeIsMandatory(x: string, t: Token, rest: seq<Token>, acc: seq<Parameter>)
    requires t != Colon
    ensures ParseParameterList([Ident(x), t] + rest, acc).Err?
    ensures ParseParameters([LParen, Ident(x), t] + rest).Err?
  {
    var ts := [LParen, Ident(x), t] + rest;
    assert ParseParameter(ts[1..]).Err?;
    assert ParseParameterList(ts[1..], []).Err?;
  }

  /** `(x: i32,)` is a syntax error. */
  lemma TrailingParameterCommaIsAnError(x: string)
    ensures ParseParameters([LParen, Ident(x), Colon, Kw(I32), Comma, RParen]).Err?
  {
    var p := Parameter(x, PrimitiveType(I32));
    var ts := [LParen, Ident(x), Colon, Kw(I32), Comma, RParen];
    assert ParseParameter(ts[1..]) == Ok(Parsed(p, [Comma, RParen]));
    ParameterListNeedsAParameter([RParen], [p]);
    assert ParseParameterList(ts[1..], []).Err?;
  }

  /** `(x: i32)` is one parameter. */
  lemma SingleParameter(x: string)
    ensures ParseParameters([LParen, Ident(x), Colon, Kw(I32), RParen])
         == Ok(Parsed([Parameter(x, PrimitiveType(I32))], []))
  {
    var p := Parameter(x, PrimitiveType(I32));
    var ts := [LParen, Ident(x), Colon, Kw(I32), RParen];
    assert ParseParameter(ts[1..]) == Ok(Parsed(p, [RParen]));
    assert ParseParameterList(ts[1..], []) == Ok(Parsed([p], []));
  }

  /** After the parameters of `fn` must come `->`: the return type is mandatory. */
  lemma ReturnTypeIsMandatory(f: string, ps: seq<Parameter>, t: Token, rest: seq<Token>)
    requires t != Arrow
    ensures ParseFunctionItem([Kw(Fn), Ident(f)] + (Delimited(ParameterTokens(ps)) + ([t] + rest))).Err?
    ensures ParseFunctionItem([Kw(Fn), Ident(f), UnitParens] + ([t] + rest)).Err?
  {
    var after := [t] + rest;
    var params := Delimited(ParameterTokens(ps)) + after;
    ParametersRoundTrip(ps, after);
    var ts := [Kw(Fn), Ident(f)] + params;
    assert ts[2..] == params;
    MissingArrow(ts, after);
    var us := [Kw(Fn), Ident(f), UnitParens] + after;
    assert us[2..] == [UnitParens] + after && us[3..] == after;
    MissingArrow(us, after);
  }

  lemma MissingArrow(ts: seq<Token>, after: seq<Token>)
    requires |ts| >= 2 && ts[0] == Kw(Fn) && ts[1].Ident?
    requires ParseParameters(ts[2..]).Ok? && ParseParameters(ts[2..]).value.rest == after
    requires !StartsWith(after, Arrow)
    ensures ParseFunctionItem(ts).Err?
  {
  }

  /** As a parameter list, the joined `()` token means the same as `(` `)`: no parameters. */
  lemma EmptyParametersJoined(rest: seq<Token>)
    ensures ParseParameters([UnitParens] + rest) == Ok(Parsed([], rest))
    ensures ParseParameters([LParen, RParen] + rest) == Ok(Parsed([], rest))
  {
    assert ([UnitParens] + rest)[1..] == rest;
    assert ([LParen, RParen] + rest)[2..] == rest;
  }

  /**
   A function without parameters, written `fn name() -> type { ... }` with
   the lexer's joined `()`, reads back as itself.
   */
  lemma ParameterlessFunctionJoined(f: FunctionItem, rest: seq<Token>)
    requires WellNestedFunction(f) && f.parameters == []
    ensures ParseFunctionItem([Kw(Fn), Ident(f.name), UnitParens] + ([Arrow] + (PrintType(f.returnType) + (PrintBlock(f.body) + rest))))
      == Ok(Parsed(f, rest))
  {
    var afterBody := PrintBlock(f.body) + rest;
    var afterParams := [Arrow] + (PrintType(f.returnType) + afterBody);
    var ts := [Kw(Fn), Ident(f.name), UnitParens] + afterParams;
    assert ts[2..] == [UnitParens] + afterParams;
    EmptyParametersJoined(afterParams);
    TypeRoundTrip(f.returnType, afterBody);
    BlockRoundTrip(f.body, rest);
    FunctionFromParts(ts, f, afterParams, afterBody, rest);
  }

  /** A file holding one function without parameters, its `()` joined, reads back as that file. */
  lemma ParameterlessFileJoined(f: FunctionItem)
    requires WellNestedFunction(f) && f.parameters == []
    ensures ParseSourceFile([Kw(Fn), Ident(f.name), UnitParens] + ([Arrow] + (PrintType(f.returnType) + PrintBlock(f.body))))
      == Ok(SourceFile([f]))
  {
    var ts := [Kw(Fn), Ident(f.name), UnitParens] + ([Arrow] + (PrintType(f.returnType) + PrintBlock(f.body)));
    assert PrintBlock(f.body) + [] == PrintBlock(f.body);
    ParameterlessFunctionJoined(f, []);
    assert ParseFunctionItem(ts) == Ok(Parsed(f, []));
    assert [] + [f] == [f];
    assert ParseItems(ts, []) == ParseItems([], [f]);
    assert ParseItems([], [f]) == Ok(SourceFile([f]));
    assert ParseSourceFile(ts) == ParseItems(ts, []);
  }

  /** `(` `)` as two tokens is not the unit type: only the joined `()` token is. */
  lemma SplitParensAreNotAType()
    ensures ParseType([LParen, RParen]).Err?
  {
  }

  /** A source file holds function items only: any other first token is an error. */
  lemma OnlyFunctionItems(ts: seq<Token>)
    requires |ts| > 0 && ts[0] != Kw(Fn)
    ensures ParseSourceFile(ts).Err?
  {
  }
}
