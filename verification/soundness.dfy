/**
 The converse of the round trip: whatever the parser accepts is spelled by
 the tree it returns, followed by the tokens it leaves. The lexer reads
 `()` as one token and the parser accepts it wherever `(` `)` may stand, so
 token sequences are compared with every `()` written as `(` then `)`.
 */
module Soundness {

  import opened Results
  import opened Precedence
  import opened Tokens
  import opened Syntax
  import opened Parser
  import opened Printer
  import opened RoundTrip

  /** The tokens with every `()` written as `(` followed by `)`. */
  function Unjoin(ts: seq<Token>): seq<Token> {
    if |ts| == 0 then []
    else (if ts[0] == UnitParens then [LParen, RParen] else [ts[0]]) + Unjoin(ts[1..])
  }

  /** `ts` reads as `printed` and then `rest`. */
  predicate Spells(ts: seq<Token>, printed: seq<Token>, rest: seq<Token>) {
    Unjoin(ts) == Unjoin(printed) + Unjoin(rest)
  }

  /** The printed form of each expression of a list, as `arguments` lays them out. */
  function ExprList(es: seq<Expr>): (parts: seq<seq<Token>>)
    ensures |parts| == |es|
    ensures forall i :: 0 <= i < |es| ==> parts[i] == PrintExpr(es[i])
  {
    seq(|es|, i requires 0 <= i < |es| => PrintExpr(es[i]))
  }

  // ---------------------------------------------------------------------
  // Reading tokens in pieces

  lemma {:induction false} UnjoinAppend(a: seq<Token>, b: seq<Token>)
    ensures Unjoin(a + b) == Unjoin(a) + Unjoin(b)
    decreases |a|
  {
    if |a| == 0 {
      assert a + b == b;
    } else {
      assert (a + b)[1..] == a[1..] + b;
      UnjoinAppend(a[1..], b);
    }
  }

  /** Rewriting `()` does not change how the tokens are spelled. */
  lemma {:induction false} SpellingOfUnjoin(ts: seq<Token>)
    ensures Spelling(Unjoin(ts)) == Spelling(ts)
    decreases |ts|
  {
    if |ts| > 0 {
      SpellingOfUnjoin(ts[1..]);
      var head := if ts[0] == UnitParens then [LParen, RParen] else [ts[0]];
      SpellingAppend(head, Unjoin(ts[1..]));
      if ts[0] == UnitParens {
        assert Spelling(head) == "(" + Spelling([RParen]);
      }
    }
  }

  lemma {:induction false} SpellingAppend(a: seq<Token>, b: seq<Token>)
    ensures Spelling(a + b) == Spelling(a) + Spelling(b)
    decreases |a|
  {
    if |a| == 0 {
      assert a + b == b;
    } else {
      assert (a + b)[1..] == a[1..] + b;
      SpellingAppend(a[1..], b);
    }
  }

  lemma Split(ts: seq<Token>, k: nat)
    requires k <= |ts|
    ensures Spells(ts, ts[..k], ts[k..])
  {
    assert ts == ts[..k] + ts[k..];
    UnjoinAppend(ts[..k], ts[k..]);
  }

  lemma Split1(ts: seq<Token>)
    requires |ts| > 0
    ensures Spells(ts, [ts[0]], ts[1..])
  {
    Split(ts, 1);
    assert ts[..1] == [ts[0]];
  }

  lemma SplitAt(ts: seq<Token>, t: Token)
    requires StartsWith(ts, t)
    ensures Spells(ts, [t], ts[1..])
  {
    Split1(ts);
    assert [ts[0]] == [t];
  }

  lemma UnjoinUnit()
    ensures Unjoin([UnitParens]) == Unjoin([LParen, RParen]) == [LParen, RParen]
  {
    assert [LParen, RParen][1..] == [RParen];
  }

  /** Two readings in a row make one. */
  lemma Then(ts: seq<Token>, a: seq<Token>, mid: seq<Token>, b: seq<Token>, rest: seq<Token>)
    requires Spells(ts, a, mid) && Spells(mid, b, rest)
    ensures Spells(ts, a + b, rest)
  {
    UnjoinAppend(a, b);
  }

  /** Reading the single token `t` at the front of `ts`. */
  lemma Then1(ts: seq<Token>, a: seq<Token>, mid: seq<Token>, t: Token)
    requires Spells(ts, a, mid) && StartsWith(mid, t)
    ensures Spells(ts, a + [t], mid[1..])
  {
    Split1(mid);
    Then(ts, a, mid, [t], mid[1..]);
  }

  lemma CommaSepStep(es: seq<Expr>)
    requires |es| > 1
    ensures CommaSep(ExprList(es)) == PrintExpr(es[0]) + [Comma] + CommaSep(ExprList(es[1..]))
  {
    assert ExprList(es)[1..] == ExprList(es[1..]);
  }

  lemma CallTokens(f: string, args: seq<Expr>)
    ensures PrintExpr(CallExpression(f, args)) == [Ident(f)] + Delimited(ExprList(args))
  {
    assert ArgumentTokens(CallExpression(f, args)) == ExprList(args);
  }

  // ---------------------------------------------------------------------
  // Expressions

  /** An expression the parser accepts is spelled by the tree it returns. */
  lemma {:induction false} ExprSound(ts: seq<Token>, minPrec: nat)
    requires minPrec <= FunctionCalls
    ensures var r := ParseExpr(ts, minPrec);
      r.Ok? ==> Spells(ts, PrintExpr(r.value.node), r.value.rest)
    decreases |ts|, 2
  {
    var p := ParsePrimary(ts);
    if p.Ok? {
      PrimarySound(ts);
      OperatorsSound(p.value.node, p.value.rest, minPrec);
    }
  }

  /** Climbing adds each operator and its right operand to the left operand's tokens. */
  lemma {:induction false} OperatorsSound(lhs: Expr, ts: seq<Token>, minPrec: nat)
    requires WellNested(lhs) && Strength(lhs) >= minPrec
    requires ContinuesAt(ts, 0) ==> Prec(ts[0].op) <= Strength(lhs)
    ensures var r := ParseOperators(lhs, ts, minPrec);
      r.Ok? ==> Unjoin(PrintExpr(lhs)) + Unjoin(ts) == Unjoin(PrintExpr(r.value.node)) + Unjoin(r.value.rest)
    decreases |ts|, 0
  {
    if ContinuesAt(ts, minPrec) {
      var op := ts[0].op;
      var rhs := ParseExpr(ts[1..], Prec(op) + 1);
      if rhs.Ok? {
        ExprSound(ts[1..], Prec(op) + 1);
        OperatorsSound(BinaryExpression(lhs, op, rhs.value.node), rhs.value.rest, minPrec);
        BinarySpelling(lhs, op, ts, rhs.value.node, rhs.value.rest);
      }
    }
  }

  lemma BinarySpelling(lhs: Expr, op: BinOp, ts: seq<Token>, rhs: Expr, rest: seq<Token>)
    requires StartsWith(ts, Op(op)) && Spells(ts[1..], PrintExpr(rhs), rest)
    ensures Unjoin(PrintExpr(lhs)) + Unjoin(ts) == Unjoin(PrintExpr(BinaryExpression(lhs, op, rhs))) + Unjoin(rest)
  {
    OperatorThen(ts, op, PrintExpr(rhs), rest);
    BinaryTokens(lhs, op, rhs);
    Prepend(PrintExpr(lhs), ts, [Op(op)] + PrintExpr(rhs), rest);
  }

  lemma OperatorThen(ts: seq<Token>, op: BinOp, b: seq<Token>, rest: seq<Token>)
    requires StartsWith(ts, Op(op)) && Spells(ts[1..], b, rest)
    ensures Spells(ts, [Op(op)] + b, rest)
  {
    Split1(ts);
    Then(ts, [Op(op)], ts[1..], b, rest);
  }

  lemma BinaryTokens(lhs: Expr, op: BinOp, rhs: Expr)
    ensures PrintExpr(BinaryExpression(lhs, op, rhs)) == PrintExpr(lhs) + ([Op(op)] + PrintExpr(rhs))
  {
    assert PrintExpr(BinaryExpression(lhs, op, rhs)) == PrintExpr(lhs) + [Op(op)] + PrintExpr(rhs);
  }

  /** Whatever comes before `ts` also comes before what `ts` spells. */
  lemma Prepend(a: seq<Token>, ts: seq<Token>, b: seq<Token>, rest: seq<Token>)
    requires Spells(ts, b, rest)
    ensures Unjoin(a) + Unjoin(ts) == Unjoin(a + b) + Unjoin(rest)
  {
    UnjoinAppend(a, b);
    Regroup(Unjoin(a), Unjoin(ts), Unjoin(a + b), Unjoin(b), Unjoin(rest));
  }

  lemma Regroup(x: seq<Token>, yz: seq<Token>, xy: seq<Token>, y: seq<Token>, z: seq<Token>)
    requires yz == y + z && xy == x + y
    ensures x + yz == xy + z
  {
  }

  lemma {:induction false} PrimarySound(ts: seq<Token>)
    ensures var r := ParsePrimary(ts);
      r.Ok? ==> Spells(ts, PrintExpr(r.value.node), r.value.rest)
    decreases |ts|, 1
  {
    if |ts| > 0 {
      var t := ts[0];
      if t == Kw(If) {
        IfSound(ts);
      } else if t == Kw(While) {
        WhileSound(ts);
      } else if t == LParen {
        ParenSound(ts);
      } else if t.Ident? {
        NameSound(ts);
      } else {
        LiteralSound(ts);
      }
    }
  }

  /** Literals and `()` are one token each; any other token begins no primary. */
  lemma LiteralSound(ts: seq<Token>)
    requires |ts| > 0 && !ts[0].Ident? && ts[0] !in {Kw(If), Kw(While), LParen}
    ensures var r := ParsePrimary(ts);
      r.Ok? ==> Spells(ts, PrintExpr(r.value.node), r.value.rest)
  {
    var t := ts[0];
    if t == UnitParens {
      UnitLiteralSound(ts);
    } else if t == Kw(True) {
      BooleanSound(ts, true);
    } else if t == Kw(False) {
      BooleanSound(ts, false);
    } else if t.Integer? {
      IntegerSound(ts, t.digits);
    } else {
      assert ParsePrimary(ts) == Unexpected("expression", ts);
    }
  }

  lemma UnitLiteralSound(ts: seq<Token>)
    requires StartsWith(ts, UnitParens)
    ensures ParsePrimary(ts) == Ok(Parsed(UnitLiteral, ts[1..]))
    ensures Spells(ts, PrintExpr(UnitLiteral), ts[1..])
  {
    Split1(ts);
    UnjoinUnit();
  }

  lemma BooleanSound(ts: seq<Token>, v: bool)
    requires StartsWith(ts, Kw(if v then True else False))
    ensures ParsePrimary(ts) == Ok(Parsed(BooleanLiteral(v), ts[1..]))
    ensures Spells(ts, PrintExpr(BooleanLiteral(v)), ts[1..])
  {
    var t := Kw(if v then True else False);
    SplitAt(ts, t);
    assert PrintExpr(BooleanLiteral(v)) == [t];
  }

  lemma IntegerSound(ts: seq<Token>, digits: string)
    requires StartsWith(ts, Integer(digits))
    ensures ParsePrimary(ts) == Ok(Parsed(IntegerLiteral(digits), ts[1..]))
    ensures Spells(ts, PrintExpr(IntegerLiteral(digits)), ts[1..])
  {
    SplitAt(ts, Integer(digits));
    assert PrintExpr(IntegerLiteral(digits)) == [Integer(digits)];
  }

  /** `(` `)` is the unit literal; otherwise `(` expression `)`. */
  lemma {:induction false} ParenSound(ts: seq<Token>)
    requires StartsWith(ts, LParen)
    ensures var r := ParsePrimary(ts);
      r.Ok? ==> Spells(ts, PrintExpr(r.value.node), r.value.rest)
    decreases |ts|, 0
  {
    if StartsWith(ts[1..], RParen) {
      Split(ts, 2);
      assert ts[..2] == [LParen, RParen];
    } else {
      var inner := ParseExpr(ts[1..], 0);
      if inner.Ok? && StartsWith(inner.value.rest, RParen) {
        var x := inner.value.node;
        ExprSound(ts[1..], 0);
        Split1(ts);
        Then(ts, [LParen], ts[1..], PrintExpr(x), inner.value.rest);
        Then1(ts, [LParen] + PrintExpr(x), inner.value.rest, RParen);
      }
    }
  }

  /** An identifier, or a call: the name, then its arguments. */
  lemma {:induction false} NameSound(ts: seq<Token>)
    requires |ts| > 0 && ts[0].Ident?
    ensures var r := ParsePrimary(ts);
      r.Ok? ==> Spells(ts, PrintExpr(r.value.node), r.value.rest)
    decreases |ts|, 0
  {
    Split1(ts);
    if StartsWith(ts[1..], LParen) || StartsWith(ts[1..], UnitParens) {
      var args := ParseArguments(ts[1..]);
      if args.Ok? {
        ArgumentsSound(ts[1..]);
        Then(ts, [ts[0]], ts[1..], Delimited(ExprList(args.value.node)), args.value.rest);
        CallTokens(ts[0].name, args.value.node);
      }
    }
  }

  /** `arguments` is spelled `(`, the comma-separated arguments, `)`. */
  lemma {:induction false} ArgumentsSound(ts: seq<Token>)
    ensures var r := ParseArguments(ts);
      r.Ok? ==> Spells(ts, Delimited(ExprList(r.value.node)), r.value.rest)
    decreases |ts|, 0
  {
    assert Delimited(ExprList([])) == [LParen, RParen];
    if StartsWith(ts, UnitParens) {
      Split1(ts);
      UnjoinUnit();
    } else if StartsWith(ts, LParen) {
      if StartsWith(ts[1..], RParen) {
        Split(ts, 2);
        assert ts[..2] == [LParen, RParen];
      } else {
        var r := ParseArgumentList(ts[1..], []);
        ArgumentListSound(ts[1..], []);
        if r.Ok? {
          var args := r.value.node;
          var list := CommaSep(ExprList(args)) + [RParen];
          assert args[0..] == args;
          assert Delimited(ExprList(args)) == [LParen] + list;
          Split1(ts);
          Then(ts, [LParen], ts[1..], list, r.value.rest);
        }
      }
    }
  }

  /** The arguments after `acc` are spelled comma-separated, up to and including `)`. */
  lemma {:induction false} ArgumentListSound(ts: seq<Token>, acc: seq<Expr>)
    requires forall i :: 0 <= i < |acc| ==> WellNested(acc[i])
    ensures var r := ParseArgumentList(ts, acc);
      r.Ok? ==>
        |r.value.node| > |acc| && Spells(ts, CommaSep(ExprList(r.value.node[|acc|..])) + [RParen], r.value.rest)
    decreases |ts|, 3
  {
    var arg := ParseExpr(ts, 0);
    if arg.Ok? {
      ExprSound(ts, 0);
      var a := arg.value.node;
      var mid := arg.value.rest;
      if StartsWith(mid, Comma) {
        var r := ParseArgumentList(mid[1..], acc + [a]);
        ArgumentListSound(mid[1..], acc + [a]);
        if r.Ok? {
          NextArgumentSpelling(ts, a, mid, acc, r.value.node, r.value.rest);
        }
      } else if StartsWith(mid, RParen) {
        LastArgumentSpelling(ts, a, mid, acc);
      }
    }
  }

  lemma NextArgumentSpelling(ts: seq<Token>, a: Expr, mid: seq<Token>, acc: seq<Expr>, args: seq<Expr>, rest: seq<Token>)
    requires Spells(ts, PrintExpr(a), mid) && StartsWith(mid, Comma)
    requires |args| > |acc| + 1 && args[..|acc| + 1] == acc + [a]
    requires Spells(mid[1..], CommaSep(ExprList(args[|acc| + 1..])) + [RParen], rest)
    ensures Spells(ts, CommaSep(ExprList(args[|acc|..])) + [RParen], rest)
  {
    var xs := args[|acc|..];
    var later := CommaSep(ExprList(xs[1..])) + [RParen];
    assert xs[0] == a by { assert args[|acc|] == (acc + [a])[|acc|]; }
    assert xs[1..] == args[|acc| + 1..];
    assert CommaSep(ExprList(xs)) + [RParen] == PrintExpr(a) + [Comma] + later by {
      CommaSepStep(xs);
    }
    Then1(ts, PrintExpr(a), mid, Comma);
    Then(ts, PrintExpr(a) + [Comma], mid[1..], later, rest);
  }

  lemma LastArgumentSpelling(ts: seq<Token>, a: Expr, mid: seq<Token>, acc: seq<Expr>)
    requires Spells(ts, PrintExpr(a), mid) && StartsWith(mid, RParen)
    ensures Spells(ts, CommaSep(ExprList((acc + [a])[|acc|..])) + [RParen], mid[1..])
  {
    assert (acc + [a])[|acc|..] == [a];
    assert CommaSep(ExprList([a])) == PrintExpr(a);
    Then1(ts, PrintExpr(a), mid, RParen);
  }

  /** `if` condition block, then the `else` clause when one follows. */
  lemma {:induction false} IfSound(ts: seq<Token>)
    ensures var r := ParseIf(ts);
      r.Ok? ==> Spells(ts, PrintIf(r.value.node), r.value.rest)
    decreases |ts|, 0
  {
    if StartsWith(ts, Kw(If)) {
      var c := ParseExpr(ts[1..], 0);
      if c.Ok? {
        ExprSound(ts[1..], 0);
        var b := ParseBlock(c.value.rest);
        BlockSound(c.value.rest);
        if b.Ok? {
          var head := [Kw(If)] + PrintExpr(c.value.node) + PrintBlock(b.value.node);
          Split1(ts);
          Then(ts, [Kw(If)], ts[1..], PrintExpr(c.value.node), c.value.rest);
          Then(ts, [Kw(If)] + PrintExpr(c.value.node), c.value.rest, PrintBlock(b.value.node), b.value.rest);
          if StartsWith(b.value.rest, Kw(Else)) {
            var e := ParseElse(b.value.rest);
            ElseSound(b.value.rest);
            if e.Ok? {
              Then(ts, head, b.value.rest, PrintElse(e.value.node), e.value.rest);
            }
          } else {
            assert head + [] == head;
          }
        }
      }
    }
  }

  lemma {:induction false} ElseSound(ts: seq<Token>)
    ensures var r := ParseElse(ts);
      r.Ok? ==> Spells(ts, PrintElse(r.value.node), r.value.rest)
    decreases |ts|, 0
  {
    if StartsWith(ts, Kw(Else)) {
      Split1(ts);
      if StartsWith(ts[1..], Kw(If)) {
        var n := ParseIf(ts[1..]);
        IfSound(ts[1..]);
        if n.Ok? {
          Then(ts, [Kw(Else)], ts[1..], PrintIf(n.value.node), n.value.rest);
        }
      } else {
        var b := ParseBlock(ts[1..]);
        BlockSound(ts[1..]);
        if b.Ok? {
          Then(ts, [Kw(Else)], ts[1..], PrintBlock(b.value.node), b.value.rest);
        }
      }
    }
  }

  lemma {:induction false} WhileSound(ts: seq<Token>)
    ensures var r := ParseWhile(ts);
      r.Ok? ==> Spells(ts, PrintExpr(r.value.node), r.value.rest)
    decreases |ts|, 0
  {
    if StartsWith(ts, Kw(While)) {
      var c := ParseExpr(ts[1..], 0);
      if c.Ok? {
        ExprSound(ts[1..], 0);
        var b := ParseBlock(c.value.rest);
        BlockSound(c.value.rest);
        if b.Ok? {
          Split1(ts);
          Then(ts, [Kw(While)], ts[1..], PrintExpr(c.value.node), c.value.rest);
          Then(ts, [Kw(While)] + PrintExpr(c.value.node), c.value.rest, PrintBlock(b.value.node), b.value.rest);
        }
      }
    }
  }

  // ---------------------------------------------------------------------
  // Blocks and statements

  lemma {:induction false} BlockSound(ts: seq<Token>)
    ensures var r := ParseBlock(ts);
      r.Ok? ==> Spells(ts, PrintBlock(r.value.node), r.value.rest)
    decreases |ts|, 0
  {
    if StartsWith(ts, LBrace) {
      var r := ParseBlockBody(ts[1..], []);
      BlockBodySound(ts[1..], []);
      if r.Ok? {
        var b := r.value.node;
        assert PrintBlock(b) == [LBrace] + BodyTokens(b, 0) by {
          BlockTokens(b, []);
          assert PrintBlock(b) + [] == PrintBlock(b);
          assert BodyTokens(b, 0) + [] == BodyTokens(b, 0);
        }
        Split1(ts);
        Then(ts, [LBrace], ts[1..], BodyTokens(b, 0), r.value.rest);
      }
    }
  }

  /**
   After `acc`, the statements and the tail of the block are spelled by the
   tokens up to and including `}`.
   */
  lemma {:induction false} BlockBodySound(ts: seq<Token>, acc: seq<Statement>)
    requires forall i :: 0 <= i < |acc| ==> WellNestedStatement(acc[i])
    ensures var r := ParseBlockBody(ts, acc);
      r.Ok? ==>
        && |acc| <= |r.value.node.statements| && r.value.node.statements[..|acc|] == acc
        && Spells(ts, BodyTokens(r.value.node, |acc|), r.value.rest)
    decreases |ts|, 4
  {
    if |ts| > 0 {
      if ts[0] == RBrace {
        var b := Block(acc, None);
        assert BodyTokens(b, |acc|) == [RBrace] by {
          BodyTokensEnd(b, []);
          assert BodyTokens(b, |acc|) + [] == BodyTokens(b, |acc|);
        }
        Split1(ts);
      } else if ts[0] == Kw(Let) {
        LetStepSound(ts, acc);
      } else if ts[0].Ident? && StartsWith(ts[1..], Assign) {
        AssignmentStepSound(ts, acc);
      } else {
        ExpressionStepSound(ts, acc);
      }
    }
  }

  lemma {:induction false} LetStepSound(ts: seq<Token>, acc: seq<Statement>)
    requires forall i :: 0 <= i < |acc| ==> WellNestedStatement(acc[i])
    requires |ts| > 0 && ts[0] == Kw(Let)
    ensures var r := ParseBlockBody(ts, acc);
      r.Ok? ==>
        && |acc| <= |r.value.node.statements| && r.value.node.statements[..|acc|] == acc
        && Spells(ts, BodyTokens(r.value.node, |acc|), r.value.rest)
    decreases |ts|, 3
  {
    var s := ParseLet(ts);
    if s.Ok? {
      LetSound(ts);
      assert ParseBlockBody(ts, acc) == ParseBlockBody(s.value.rest, acc + [s.value.node]);
      var r := ParseBlockBody(s.value.rest, acc + [s.value.node]);
      BlockBodySound(s.value.rest, acc + [s.value.node]);
      if r.Ok? {
        StatementSpelling(ts, acc, s.value.node, s.value.rest, r.value.node, r.value.rest);
      }
    }
  }

  lemma {:induction false} AssignmentStepSound(ts: seq<Token>, acc: seq<Statement>)
    requires forall i :: 0 <= i < |acc| ==> WellNestedStatement(acc[i])
    requires |ts| > 0 && ts[0].Ident? && StartsWith(ts[1..], Assign)
    ensures var r := ParseBlockBody(ts, acc);
      r.Ok? ==>
        && |acc| <= |r.value.node.statements| && r.value.node.statements[..|acc|] == acc
        && Spells(ts, BodyTokens(r.value.node, |acc|), r.value.rest)
    decreases |ts|, 3
  {
    var s := ParseAssignment(ts);
    if s.Ok? {
      AssignmentSound(ts);
      assert ParseBlockBody(ts, acc) == ParseBlockBody(s.value.rest, acc + [s.value.node]);
      var r := ParseBlockBody(s.value.rest, acc + [s.value.node]);
      BlockBodySound(s.value.rest, acc + [s.value.node]);
      if r.Ok? {
        StatementSpelling(ts, acc, s.value.node, s.value.rest, r.value.node, r.value.rest);
      }
    }
  }

  /** An expression then `;` is a statement; an expression then `}` is the tail. */
  lemma {:induction false} ExpressionStepSound(ts: seq<Token>, acc: seq<Statement>)
    requires forall i :: 0 <= i < |acc| ==> WellNestedStatement(acc[i])
    requires |ts| > 0 && ts[0] != RBrace && ts[0] != Kw(Let)
    requires !(ts[0].Ident? && StartsWith(ts[1..], Assign))
    ensures var r := ParseBlockBody(ts, acc);
      r.Ok? ==>
        && |acc| <= |r.value.node.statements| && r.value.node.statements[..|acc|] == acc
        && Spells(ts, BodyTokens(r.value.node, |acc|), r.value.rest)
    decreases |ts|, 3
  {
    var e := ParseExpr(ts, 0);
    if e.Ok? {
      ExprSound(ts, 0);
      var x := e.value.node;
      var mid := e.value.rest;
      if StartsWith(mid, Semicolon) {
        var s := ExpressionStatement(x);
        assert ParseBlockBody(ts, acc) == ParseBlockBody(mid[1..], acc + [s]);
        Then1(ts, PrintExpr(x), mid, Semicolon);
        var r := ParseBlockBody(mid[1..], acc + [s]);
        BlockBodySound(mid[1..], acc + [s]);
        if r.Ok? {
          StatementSpelling(ts, acc, s, mid[1..], r.value.node, r.value.rest);
        }
      } else if StartsWith(mid, RBrace) {
        assert ParseBlockBody(ts, acc) == Ok(Parsed(Block(acc, Some(x)), mid[1..]));
        TailSpelling(ts, acc, x, mid);
      }
    }
  }

  lemma StatementSpelling(ts: seq<Token>, acc: seq<Statement>, s: Statement, mid: seq<Token>, b: Block, rest: seq<Token>)
    requires |acc| + 1 <= |b.statements| && b.statements[..|acc| + 1] == acc + [s]
    requires Spells(ts, PrintStatement(s), mid) && Spells(mid, BodyTokens(b, |acc| + 1), rest)
    ensures |acc| <= |b.statements| && b.statements[..|acc|] == acc
    ensures Spells(ts, BodyTokens(b, |acc|), rest)
  {
    var k := |acc|;
    assert b.statements[k] == s by { assert b.statements[k] == (acc + [s])[k]; }
    assert b.statements[..k] == (acc + [s])[..k];
    assert BodyTokens(b, k) == PrintStatement(s) + BodyTokens(b, k + 1) by {
      BodyTokensStep(b, k, []);
      assert BodyTokens(b, k) + [] == BodyTokens(b, k);
      assert BodyTokens(b, k + 1) + [] == BodyTokens(b, k + 1);
    }
    Then(ts, PrintStatement(s), mid, BodyTokens(b, k + 1), rest);
  }

  lemma TailSpelling(ts: seq<Token>, acc: seq<Statement>, x: Expr, mid: seq<Token>)
    requires Spells(ts, PrintExpr(x), mid) && StartsWith(mid, RBrace)
    ensures acc[..|acc|] == acc
    ensures Spells(ts, BodyTokens(Block(acc, Some(x)), |acc|), mid[1..])
  {
    var b := Block(acc, Some(x));
    assert BodyTokens(b, |acc|) == PrintExpr(x) + [RBrace] by {
      BodyTokensEnd(b, []);
      assert BodyTokens(b, |acc|) + [] == BodyTokens(b, |acc|);
      assert PrintExpr(x) + [RBrace] + [] == PrintExpr(x) + [RBrace];
    }
    Then1(ts, PrintExpr(x), mid, RBrace);
  }

  /** `let` name `:` type `=` value `;`. */
  lemma {:induction false} LetSound(ts: seq<Token>)
    ensures var r := ParseLet(ts);
      r.Ok? ==> Spells(ts, PrintStatement(r.value.node), r.value.rest)
    decreases |ts|, 0
  {
    var r := ParseLet(ts);
    if r.Ok? {
      var ty := ParseType(ts[3..]).value;
      TypeSound(ts[3..]);
      assert ty.rest[1..] == ts[5..];
      var v := ParseExpr(ts[5..], 0).value;
      ExprSound(ts[5..], 0);
      Split(ts, 5);
      assert ts[..5] == [Kw(Let), Ident(ts[1].name), Colon] + PrintType(ty.node) + [Assign];
      Then(ts, ts[..5], ts[5..], PrintExpr(v.node), v.rest);
      Then1(ts, ts[..5] + PrintExpr(v.node), v.rest, Semicolon);
    }
  }

  /** Name `=` value `;`. */
  lemma {:induction false} AssignmentSound(ts: seq<Token>)
    ensures var r := ParseAssignment(ts);
      r.Ok? ==> Spells(ts, PrintStatement(r.value.node), r.value.rest)
    decreases |ts|, 0
  {
    var r := ParseAssignment(ts);
    if r.Ok? {
      var v := ParseExpr(ts[2..], 0).value;
      ExprSound(ts[2..], 0);
      Split(ts, 2);
      assert ts[..2] == [Ident(ts[0].name), Assign];
      Then(ts, ts[..2], ts[2..], PrintExpr(v.node), v.rest);
      Then1(ts, ts[..2] + PrintExpr(v.node), v.rest, Semicolon);
    }
  }

  // ---------------------------------------------------------------------
  // Definitions

  /** A type is the one token it was read from. */
  lemma TypeSound(ts: seq<Token>)
    ensures var r := ParseType(ts);
      r.Ok? ==> PrintType(r.value.node) == [ts[0]] && r.value.rest == ts[1..]
  {
  }

  /** A parameter is exactly the tokens it was read from. */
  lemma ParameterSound(ts: seq<Token>)
    ensures var r := ParseParameter(ts);
      r.Ok? ==> ts == PrintParameter(r.value.node) + r.value.rest
  {
    var r := ParseParameter(ts);
    if r.Ok? {
      TypeSound(ts[2..]);
      assert ts == ts[..3] + ts[3..];
      assert ts[..3] == [Ident(ts[0].name), Colon, ts[2]];
    }
  }

  /** `parameters` is spelled `(`, the comma-separated parameters, `)`. */
  lemma ParametersSound(ts: seq<Token>)
    ensures var r := ParseParameters(ts);
      r.Ok? ==> Spells(ts, Delimited(ParameterTokens(r.value.node)), r.value.rest)
  {
    assert Delimited(ParameterTokens([])) == [LParen, RParen];
    if StartsWith(ts, UnitParens) {
      Split1(ts);
      UnjoinUnit();
    } else if StartsWith(ts, LParen) {
      if StartsWith(ts[1..], RParen) {
        Split(ts, 2);
        assert ts[..2] == [LParen, RParen];
      } else {
        var r := ParseParameterList(ts[1..], []);
        ParameterListSound(ts[1..], []);
        if r.Ok? {
          var ps := r.value.node;
          assert ps[0..] == ps;
          assert Delimited(ParameterTokens(ps)) == [LParen] + ParameterListTokens(ps) by {
            ParameterListTokensOpen(ps, []);
            assert Delimited(ParameterTokens(ps)) + [] == Delimited(ParameterTokens(ps));
            assert ParameterListTokens(ps) + [] == ParameterListTokens(ps);
          }
          Split1(ts);
          Then(ts, [LParen], ts[1..], ParameterListTokens(ps), r.value.rest);
        }
      }
    }
  }

  /** The parameters after `acc` are spelled comma-separated, up to and including `)`. */
  lemma {:induction false} ParameterListSound(ts: seq<Token>, acc: seq<Parameter>)
    ensures var r := ParseParameterList(ts, acc);
      r.Ok? ==> Spells(ts, ParameterListTokens(r.value.node[|acc|..]), r.value.rest)
    decreases |ts|
  {
    var p := ParseParameter(ts);
    if p.Ok? {
      ParameterSound(ts);
      UnjoinAppend(PrintParameter(p.value.node), p.value.rest);
      var mid := p.value.rest;
      if StartsWith(mid, Comma) {
        var r := ParseParameterList(mid[1..], acc + [p.value.node]);
        ParameterListSound(mid[1..], acc + [p.value.node]);
        if r.Ok? {
          NextParameterSpelling(ts, p.value.node, mid, acc, r.value.node, r.value.rest);
        }
      } else if StartsWith(mid, RParen) {
        var ps := (acc + [p.value.node])[|acc|..];
        assert ParameterListTokens(ps) == PrintParameter(p.value.node) + [RParen] by {
          assert ps == [p.value.node];
          ParameterListTokensLast(ps, []);
          assert ParameterListTokens(ps) + [] == ParameterListTokens(ps);
        }
        Then1(ts, PrintParameter(p.value.node), mid, RParen);
      }
    }
  }

  lemma NextParameterSpelling(ts: seq<Token>, p: Parameter, mid: seq<Token>, acc: seq<Parameter>, ps: seq<Parameter>, rest: seq<Token>)
    requires Spells(ts, PrintParameter(p), mid) && StartsWith(mid, Comma)
    requires |ps| > |acc| + 1 && ps[..|acc| + 1] == acc + [p]
    requires Spells(mid[1..], ParameterListTokens(ps[|acc| + 1..]), rest)
    ensures Spells(ts, ParameterListTokens(ps[|acc|..]), rest)
  {
    var xs := ps[|acc|..];
    var later := ParameterListTokens(xs[1..]);
    assert xs[0] == p by { assert ps[|acc|] == (acc + [p])[|acc|]; }
    assert xs[1..] == ps[|acc| + 1..];
    assert ParameterListTokens(xs) == PrintParameter(p) + [Comma] + later by {
      ParameterListTokensStep(xs, []);
      assert ParameterListTokens(xs) + [] == ParameterListTokens(xs);
      assert later + [] == later;
    }
    Then1(ts, PrintParameter(p), mid, Comma);
    Then(ts, PrintParameter(p) + [Comma], mid[1..], later, rest);
  }

  /** `fn` name parameters `->` type block. */
  lemma FunctionItemSound(ts: seq<Token>)
    ensures var r := ParseFunctionItem(ts);
      r.Ok? ==> Spells(ts, PrintFunctionItem(r.value.node), r.value.rest)
  {
    var r := ParseFunctionItem(ts);
    if r.Ok? {
      var ps := ParseParameters(ts[2..]).value;
      ParametersSound(ts[2..]);
      var rt := ParseType(ps.rest[1..]).value;
      TypeSound(ps.rest[1..]);
      var body := ParseBlock(rt.rest).value;
      BlockSound(rt.rest);
      FunctionSpelling(ts, ps.node, ps.rest, rt.node, body.node, body.rest);
    }
  }

  lemma FunctionSpelling(ts: seq<Token>, ps: seq<Parameter>, mid: seq<Token>, rt: Type, body: Block, rest: seq<Token>)
    requires |ts| >= 2 && ts[0] == Kw(Fn) && ts[1].Ident?
    requires Spells(ts[2..], Delimited(ParameterTokens(ps)), mid)
    requires |mid| >= 2 && mid[0] == Arrow && PrintType(rt) == [mid[1]]
    requires Spells(mid[2..], PrintBlock(body), rest)
    ensures Spells(ts, PrintFunctionItem(FunctionItem(ts[1].name, ps, rt, body)), rest)
  {
    var f := FunctionItem(ts[1].name, ps, rt, body);
    var name := [Kw(Fn), Ident(ts[1].name)];
    var head := name + Delimited(ParameterTokens(ps));
    var arrow := [Arrow] + PrintType(rt);
    assert PrintFunctionItem(f) == head + arrow + PrintBlock(body);
    Split(ts, 2);
    assert ts[..2] == name;
    Then(ts, name, ts[2..], Delimited(ParameterTokens(ps)), mid);
    Split(mid, 2);
    assert mid[..2] == arrow;
    Then(ts, head, mid, arrow, mid[2..]);
    Then(ts, head + arrow, mid[2..], PrintBlock(body), rest);
  }

  /** After `acc`, the items of the file are spelled by all the remaining tokens. */
  lemma {:induction false} ItemsSound(ts: seq<Token>, acc: seq<FunctionItem>)
    requires forall i :: 0 <= i < |acc| ==> WellNestedFunction(acc[i])
    ensures var r := ParseItems(ts, acc);
      r.Ok? ==>
        && |acc| <= |r.value.items| && r.value.items[..|acc|] == acc
        && Unjoin(ts) == Unjoin(ItemsFrom(r.value, |acc|))
    decreases |ts|
  {
    if |ts| == 0 {
      ItemsFromEnds(SourceFile(acc));
    } else {
      var item := ParseFunctionItem(ts);
      if item.Ok? {
        FunctionItemSound(ts);
        var r := ParseItems(item.value.rest, acc + [item.value.node]);
        assert ParseItems(ts, acc) == r;
        ItemsSound(item.value.rest, acc + [item.value.node]);
        if r.Ok? {
          ItemSpelling(ts, acc, item.value.node, item.value.rest, r.value);
        }
      } else {
        assert ParseItems(ts, acc).Err?;
      }
    }
  }

  lemma ItemSpelling(ts: seq<Token>, acc: seq<FunctionItem>, f: FunctionItem, mid: seq<Token>, sf: SourceFile)
    requires |acc| + 1 <= |sf.items| && sf.items[..|acc| + 1] == acc + [f]
    requires Spells(ts, PrintFunctionItem(f), mid) && Unjoin(mid) == Unjoin(ItemsFrom(sf, |acc| + 1))
    ensures |acc| <= |sf.items| && sf.items[..|acc|] == acc
    ensures Unjoin(ts) == Unjoin(ItemsFrom(sf, |acc|))
  {
    var k := |acc|;
    assert sf.items[k] == (acc + [f])[k];
    assert sf.items[..k] == (acc + [f])[..k];
    ItemsFromStep(sf, k);
    UnjoinAppend(PrintFunctionItem(f), ItemsFrom(sf, k + 1));
  }

  /** An accepted token sequence is the printed file, up to how `()` is split. */
  lemma SourceFileSound(ts: seq<Token>)
    ensures var r := ParseSourceFile(ts);
      r.Ok? ==> Unjoin(ts) == Unjoin(PrintSourceFile(r.value))
  {
    ItemsSound(ts, []);
    var r := ParseSourceFile(ts);
    if r.Ok? {
      ItemsFromEnds(r.value);
    }
  }

  /**
   Parsing and printing are inverse on the accepted inputs: the file an
   accepted token sequence yields prints as those tokens, and parses back
   from its print to itself.
   */
  lemma AcceptedFilesReprint(ts: seq<Token>)
    ensures var r := ParseSourceFile(ts);
      r.Ok? ==>
        && Unjoin(ts) == Unjoin(PrintSourceFile(r.value))
        && ParseSourceFile(PrintSourceFile(r.value)) == r
  {
    SourceFileSound(ts);
    var r := ParseSourceFile(ts);
    if r.Ok? {
      SourceFileRoundTrip(r.value);
    }
  }
}
