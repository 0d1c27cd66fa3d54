/**
 * Writes into a row-major matrix of reals, such as the target functional
 * buffer P_target_row. A branch of the target dispatch is described by the
 * sequence of writes it performs, in program order: an assignment `P(r, c) = v`
 * or an accumulation `P(r, c) += v` (a subtraction `-= v` is an accumulation
 * of -v). CellAfter is the value a cell holds after such a sequence, and
 * ApplyEdits performs the sequence in place.
 */
module RowEdits {

  datatype Edit = Assign(row: nat, col: nat, value: real) | Accumulate(row: nat, col: nat, value: real)

  /** The value of a cell that held v after edit e writes it. */
  function Step(v: real, e: Edit): real
  {
    match e
    case Assign(_, _, x) => x
    case Accumulate(_, _, x) => v + x
  }

  /** The value of cell (r, c), which held init, after the edits run in order. */
  function CellAfter(init: real, edits: seq<Edit>, r: nat, c: nat): real
    decreases |edits|
  {
    if |edits| == 0 then init
    else
      var prev := CellAfter(init, edits[..|edits| - 1], r, c);
      var e := edits[|edits| - 1];
      if e.row == r && e.col == c then Step(prev, e) else prev
  }

  predicate FitsIn(edits: seq<Edit>, rows: nat, cols: nat)
  {
    forall k :: 0 <= k < |edits| ==> edits[k].row < rows && edits[k].col < cols
  }

  /** Writes of a counted loop `for (i = 0; i < n; ++i) body(i)`. */
  function Concat(n: nat, body: nat -> seq<Edit>): seq<Edit>
  {
    if n == 0 then [] else Concat(n - 1, body) + body(n - 1)
  }

  /** `for (j = 0; j < |values|; ++j) P(row, base + j) = values[j]`. */
  function AssignRow(row: nat, base: nat, values: seq<real>): seq<Edit>
    ensures |AssignRow(row, base, values)| == |values|
  {
    seq(|values|, j requires 0 <= j < |values| => Assign(row, base + j, values[j]))
  }

  /** `P(row, cols[0]) = value; P(row, cols[1]) = value; ...` */
  function AssignEach(row: nat, cols: seq<nat>, value: real): seq<Edit>
    ensures |AssignEach(row, cols, value)| == |cols|
  {
    seq(|cols|, k requires 0 <= k < |cols| => Assign(row, cols[k], value))
  }

  /** `for (j = 0; j < |values|; ++j) P(row, j) += values[j]`. */
  function AccumulateRow(row: nat, values: seq<real>): seq<Edit>
    ensures |AccumulateRow(row, values)| == |values|
  {
    seq(|values|, j requires 0 <= j < |values| => Accumulate(row, j, values[j]))
  }

  // ---------------------------------------------------------------------
  // Properties of CellAfter
  // ---------------------------------------------------------------------

  /** Running a + b is running a, then b from the cell a left behind. */
  lemma {:induction false} CellAfterAppend(init: real, a: seq<Edit>, b: seq<Edit>, r: nat, c: nat)
    ensures CellAfter(init, a + b, r, c) == CellAfter(CellAfter(init, a, r, c), b, r, c)
    decreases |b|
  {
    if |b| > 0 {
      var b' := b[..|b| - 1];
      assert (a + b)[..|a + b| - 1] == a + b';
      CellAfterAppend(init, a, b', r, c);
    } else {
      assert a + b == a;
    }
  }

  /** A cell that no edit writes keeps its value. */
  lemma {:induction false} CellAfterUntouched(init: real, edits: seq<Edit>, r: nat, c: nat)
    requires forall k :: 0 <= k < |edits| ==> edits[k].row != r || edits[k].col != c
    ensures CellAfter(init, edits, r, c) == init
    decreases |edits|
  {
    if |edits| > 0 {
      CellAfterUntouched(init, edits[..|edits| - 1], r, c);
    }
  }

  /** After an assignment to the cell, only the writes that follow it matter. */
  lemma {:induction false} CellAfterAssigned(init: real, edits: seq<Edit>, k: nat, r: nat, c: nat)
    requires k < |edits| && edits[k].Assign? && edits[k].row == r && edits[k].col == c
    ensures CellAfter(init, edits, r, c) == CellAfter(edits[k].value, edits[k + 1..], r, c)
    decreases |edits|
  {
    if k == |edits| - 1 {
      assert edits[k + 1..] == [];
    } else {
      var front := edits[..|edits| - 1];
      CellAfterAssigned(init, front, k, r, c);
      assert front[k + 1..] == edits[k + 1..][..|edits[k + 1..]| - 1];
    }
  }

  /** Each write of Concat(n, body) is a write of some body(i), i < n. */
  lemma {:induction false} ConcatMember(n: nat, body: nat -> seq<Edit>, k: nat)
    requires k < |Concat(n, body)|
    ensures exists i, j :: 0 <= i < n && 0 <= j < |body(i)| && Concat(n, body)[k] == body(i)[j]
  {
    var front := Concat(n - 1, body);
    if k < |front| {
      ConcatMember(n - 1, body, k);
      var i, j :| 0 <= i < n - 1 && 0 <= j < |body(i)| && front[k] == body(i)[j];
      assert Concat(n, body)[k] == front[k];
    } else {
      assert Concat(n, body)[k] == body(n - 1)[k - |front|];
    }
  }

  /** Concat fits a matrix when every iteration does. */
  lemma ConcatFits(n: nat, body: nat -> seq<Edit>, rows: nat, cols: nat)
    requires forall i :: 0 <= i < n ==> FitsIn(body(i), rows, cols)
    ensures FitsIn(Concat(n, body), rows, cols)
  {
    forall k | 0 <= k < |Concat(n, body)|
      ensures Concat(n, body)[k].row < rows && Concat(n, body)[k].col < cols
    {
      ConcatMember(n, body, k);
    }
  }

  /** A cell none of whose iterations write it keeps its value through the whole loop. */
  lemma ConcatUntouched(init: real, n: nat, body: nat -> seq<Edit>, r: nat, c: nat)
    requires forall i, j :: 0 <= i < n && 0 <= j < |body(i)| ==> body(i)[j].row != r || body(i)[j].col != c
    ensures CellAfter(init, Concat(n, body), r, c) == init
  {
    forall k | 0 <= k < |Concat(n, body)|
      ensures Concat(n, body)[k].row != r || Concat(n, body)[k].col != c
    {
      ConcatMember(n, body, k);
    }
    CellAfterUntouched(init, Concat(n, body), r, c);
  }

  /** A row assignment leaves exactly the assigned values in its columns and nothing else changed. */
  lemma AssignRowCell(init: real, row: nat, base: nat, values: seq<real>, r: nat, c: nat)
    ensures CellAfter(init, AssignRow(row, base, values), r, c)
      == if r == row && base <= c < base + |values| then values[c - base] else init
  {
    var edits := AssignRow(row, base, values);
    if r == row && base <= c < base + |values| {
      CellAfterAssigned(init, edits, c - base, r, c);
      CellAfterUntouched(values[c - base], edits[c - base + 1..], r, c);
    } else {
      CellAfterUntouched(init, edits, r, c);
    }
  }

  /** Assigning one value at a list of columns sets exactly those columns of that row. */
  lemma {:induction false} AssignEachCell(init: real, row: nat, cols: seq<nat>, value: real, r: nat, c: nat)
    ensures CellAfter(init, AssignEach(row, cols, value), r, c) == if r == row && c in cols then value else init
    decreases |cols|
  {
    var edits := AssignEach(row, cols, value);
    if |cols| > 0 {
      var n := |cols| - 1;
      assert edits[..n] == AssignEach(row, cols[..n], value);
      AssignEachCell(init, row, cols[..n], value, r, c);
      assert cols == cols[..n] + [cols[n]];
    }
  }

  /** Accumulating a row adds each value to its column. */
  lemma {:induction false} AccumulateRowCell(init: real, row: nat, values: seq<real>, r: nat, c: nat)
    ensures CellAfter(init, AccumulateRow(row, values), r, c)
      == if r == row && c < |values| then init + values[c] else init
    decreases |values|
  {
    var edits := AccumulateRow(row, values);
    if |values| > 0 {
      var n := |values| - 1;
      assert edits[..n] == AccumulateRow(row, values[..n]);
      AccumulateRowCell(init, row, values[..n], r, c);
    }
  }

  // ---------------------------------------------------------------------
  // Performing the writes
  // ---------------------------------------------------------------------

  /** Performs the writes in order on P. */
  method ApplyEdits(P: array2<real>, edits: seq<Edit>)
    requires FitsIn(edits, P.Length0, P.Length1)
    modifies P
    ensures forall r, c :: 0 <= r < P.Length0 && 0 <= c < P.Length1 ==>
      P[r, c] == CellAfter(old(P[r, c]), edits, r, c)
  {
    var k := 0;
    while k < |edits|
      invariant k <= |edits|
      invariant forall r, c :: 0 <= r < P.Length0 && 0 <= c < P.Length1 ==>
        P[r, c] == CellAfter(old(P[r, c]), edits[..k], r, c)
    {
      assert edits[..k + 1][..k] == edits[..k];
      match edits[k] {
        case Assign(r, c, x) =>
          P[r, c] := x;
        case Accumulate(r, c, x) =>
          P[r, c] := P[r, c] + x;
      }
      k := k + 1;
    }
    assert edits[..k] == edits;
  }
}
