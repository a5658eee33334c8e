/**
 The precedence table of the Rue grammar: the four binding strengths of
 `PREC`, the eleven binary operators, and the rows of the
 `binary_expression` table that assign each operator its level.
 */
module Precedence {

  import opened Results

  /** The binary operators of `binary_expression`. */
  datatype BinOp =
    | Mul | Div | Mod
    | Add | Sub
    | Eq | Ne | Lt | Le | Gt | Ge

  /** The `PREC` constants. */
  const FunctionCalls: nat := 4
  const Multiplicative: nat := 3
  const Additive: nat := 2
  const Comparative: nat := 1

  /** One row of the `binary_expression` table: a level and the operators it binds. */
  datatype Row = Row(level: nat, operators: set<BinOp>)

  /** The table exactly as the grammar lists it, tightest row first. */
  const Table: seq<Row> := [
    Row(Multiplicative, {Mul, Div, Mod}),
    Row(Additive, {Add, Sub}),
    Row(Comparative, {Eq, Ne, Lt, Le, Gt, Ge})
  ]

  /** The level of the first table row that lists `op`. */
  function LevelIn(op: BinOp, rows: seq<Row>): (r: Option<nat>)
    ensures r.Some? <==> exists i :: 0 <= i < |rows| && op in rows[i].operators
    ensures r.Some? ==> exists i :: 0 <= i < |rows| && op in rows[i].operators && rows[i].level == r.value
  {
    if |rows| == 0 then None
    else if op in rows[0].operators then Some(rows[0].level)
    else
      var r := LevelIn(op, rows[1..]);
      assert forall i :: 1 <= i < |rows| ==> rows[i] == rows[1..][i - 1];
      r
  }

  /**
   The precedence of a binary operator, read off the table: `* / %` are
   multiplicative, `+ -` additive, and the six comparisons comparative.
   */
  function Prec(op: BinOp): (p: nat)
    ensures op == Mul || op == Div || op == Mod <==> p == Multiplicative
    ensures op == Add || op == Sub <==> p == Additive
    ensures op == Eq || op == Ne || op == Lt || op == Le || op == Gt || op == Ge <==> p == Comparative
  {
    var level := LevelIn(op, Table);
    assert level.Some? by {
      if op.Mul? || op.Div? || op.Mod? {
        assert op in Table[0].operators;
      } else if op.Add? || op.Sub? {
        assert op in Table[1].operators;
      } else {
        assert op in Table[2].operators;
      }
    }
    level.value
  }

  /**
   Every operator occurs in exactly one row of the table, so its precedence
   depends on the operator alone.
   */
  lemma EachOperatorHasOneRow(op: BinOp)
    ensures exists i :: 0 <= i < |Table| && op in Table[i].operators
    ensures forall i :: 0 <= i < |Table| && op in Table[i].operators ==> Table[i].level == Prec(op)
  {
    var p := Prec(op);
    if op.Mul? || op.Div? || op.Mod? {
      assert op in Table[0].operators && p == Table[0].level;
      assert op !in Table[1].operators && op !in Table[2].operators;
    } else if op.Add? || op.Sub? {
      assert op in Table[1].operators && p == Table[1].level;
      assert op !in Table[0].operators && op !in Table[2].operators;
    } else {
      assert op in Table[2].operators && p == Table[2].level;
      assert op !in Table[0].operators && op !in Table[1].operators;
    }
  }

  /** No operator is listed in two rows, and the rows bind ever more loosely, all below calls. */
  lemma RowsAreDisjointAndOrdered()
    ensures forall i, j :: 0 <= i < j < |Table| ==> Table[i].operators !! Table[j].operators
    ensures forall i, j :: 0 <= i < j < |Table| ==> Table[j].level < Table[i].level < FunctionCalls
  {
  }
}
