/** Cells, boards and the small sequence vocabulary shared by the move engine
    and the session layer. A cell is an optional tile value (`null` in the
    source is `None` here); a board is a sequence of rows. */
module Board {

  datatype Option<+T> = None | Some(value: T)

  datatype Result<+R, +E> = Success(value: R) | Failure(error: E)

  /** `number | null` of the source; tile values are integers. */
  type Cell = Option<int>

  /** `Map2048 = Cell[][]` of the source. */
  type Map2048 = seq<seq<Cell>>

  /** The board has `n` rows and every row has `m` cells. */
  predicate HasDims(b: Map2048, n: nat, m: nat)
  {
    |b| == n && forall i :: 0 <= i < n ==> |b[i]| == m
  }

  /** The board has at least one row and all rows are as long as the first. */
  predicate IsGrid(b: Map2048)
  {
    |b| > 0 && HasDims(b, |b|, |b[0]|)
  }

  function Reverse<T>(s: seq<T>): (r: seq<T>)
    ensures |r| == |s|
    ensures forall i :: 0 <= i < |s| ==> r[i] == s[|s| - 1 - i]
  {
    seq(|s|, i requires 0 <= i < |s| => s[|s| - 1 - i])
  }

  lemma ReverseInvolution<T>(s: seq<T>)
    ensures Reverse(Reverse(s)) == s
  {
    assert forall i :: 0 <= i < |s| ==> Reverse(Reverse(s))[i] == s[i];
  }

  /** Column `j` of a grid, read from the top row down. */
  function Column(b: Map2048, j: nat): (col: seq<Cell>)
    requires IsGrid(b) && j < |b[0]|
    ensures |col| == |b|
    ensures forall i :: 0 <= i < |b| ==> col[i] == b[i][j]
  {
    seq(|b|, i requires 0 <= i < |b| => b[i][j])
  }

  /** Turning a grid upside down reverses each of its columns. */
  lemma {:induction false} ColumnOfReverse(b: Map2048, j: nat)
    requires IsGrid(b) && j < |b[0]|
    ensures IsGrid(Reverse(b)) && Column(Reverse(b), j) == Reverse(Column(b, j))
  {
    assert HasDims(Reverse(b), |b|, |b[0]|);
  }

  /** Sum of the present values of a row, read left to right. */
  function RowMass(row: seq<Cell>): int
  {
    if |row| == 0 then 0
    else RowMass(row[..|row| - 1]) + (if row[|row| - 1].Some? then row[|row| - 1].value else 0)
  }

  function Sum(s: seq<int>): int
  {
    if |s| == 0 then 0 else s[0] + Sum(s[1..])
  }

  lemma {:induction false} SumConcat(a: seq<int>, b: seq<int>)
    ensures Sum(a + b) == Sum(a) + Sum(b)
  {
    if |a| > 0 {
      assert (a + b)[1..] == a[1..] + b;
      SumConcat(a[1..], b);
    } else {
      assert a + b == b;
    }
  }

  lemma {:induction false} SumReverse(s: seq<int>)
    ensures Sum(Reverse(s)) == Sum(s)
  {
    if |s| > 0 {
      assert Reverse(s) == Reverse(s[1..]) + [s[0]];
      SumConcat(Reverse(s[1..]), [s[0]]);
      SumReverse(s[1..]);
    }
  }

  lemma {:induction false} SumPointwise(a: seq<int>, c: seq<int>)
    requires |a| == |c|
    ensures Sum(seq(|a|, j requires 0 <= j < |a| => a[j] + c[j])) == Sum(a) + Sum(c)
  {
    if |a| > 0 {
      var s := seq(|a|, j requires 0 <= j < |a| => a[j] + c[j]);
      assert s[1..] == seq(|a| - 1, j requires 0 <= j < |a| - 1 => a[1..][j] + c[1..][j]);
      SumPointwise(a[1..], c[1..]);
    }
  }

  // ---------------------------------------------------------------------
  // The total tile value of a board

  /** The value a cell adds to the total: its tile, or nothing. */
  function Val(c: Cell): int
  {
    if c.Some? then c.value else 0
  }

  function Values(row: seq<Cell>): (v: seq<int>)
    ensures |v| == |row| && forall i :: 0 <= i < |row| ==> v[i] == Val(row[i])
  {
    seq(|row|, i requires 0 <= i < |row| => Val(row[i]))
  }

  lemma {:induction false} RowMassSnoc(q: seq<Cell>, x: Cell)
    ensures RowMass(q + [x]) == RowMass(q) + Val(x)
  {
    assert (q + [x])[..|q|] == q;
  }

  lemma {:induction false} RowMassValues(row: seq<Cell>)
    ensures RowMass(row) == Sum(Values(row))
  {
    if |row| > 0 {
      var q := row[..|row| - 1];
      assert Values(row) == Values(q) + [Val(row[|row| - 1])];
      RowMassValues(q);
      SumConcat(Values(q), [Val(row[|row| - 1])]);
    }
  }

  lemma {:induction false} RowMassReverse(row: seq<Cell>)
    ensures RowMass(Reverse(row)) == RowMass(row)
  {
    assert Values(Reverse(row)) == Reverse(Values(row));
    RowMassValues(row);
    RowMassValues(Reverse(row));
    SumReverse(Values(row));
  }

  function RowMasses(b: Map2048): (v: seq<int>)
    ensures |v| == |b| && forall i :: 0 <= i < |b| ==> v[i] == RowMass(b[i])
  {
    seq(|b|, i requires 0 <= i < |b| => RowMass(b[i]))
  }

  /** The sum of all tile values on the board. */
  function BoardMass(b: Map2048): int
  {
    Sum(RowMasses(b))
  }

  function ColumnMasses(b: Map2048): (v: seq<int>)
    requires IsGrid(b)
    ensures |v| == |b[0]| && forall j :: 0 <= j < |b[0]| ==> v[j] == RowMass(Column(b, j))
  {
    seq(|b[0]|, j requires 0 <= j < |b[0]| => RowMass(Column(b, j)))
  }

  lemma {:induction false} ColumnsMassOneRow(b: Map2048)
    requires IsGrid(b) && |b| == 1
    ensures Sum(ColumnMasses(b)) == BoardMass(b)
  {
    var last := b[0];
    forall j | 0 <= j < |last| ensures ColumnMasses(b)[j] == Values(last)[j] {
      assert Column(b, j) == [] + [last[j]];
      RowMassSnoc([], last[j]);
    }
    assert ColumnMasses(b) == Values(last);
    RowMassValues(last);
    assert RowMasses(b) == [] + [RowMass(last)];
    SumConcat([], [RowMass(last)]);
  }

  lemma {:induction false} ColumnsMassLastRow(b: Map2048)
    requires IsGrid(b) && |b| > 1
    ensures IsGrid(b[..|b| - 1])
    ensures Sum(ColumnMasses(b)) == Sum(ColumnMasses(b[..|b| - 1])) + RowMass(b[|b| - 1])
    ensures BoardMass(b) == BoardMass(b[..|b| - 1]) + RowMass(b[|b| - 1])
  {
    var b' := b[..|b| - 1];
    assert HasDims(b', |b| - 1, |b[0]|);
    ColumnMassesLastRow(b);
    SumPointwise(ColumnMasses(b'), Values(b[|b| - 1]));
    RowMassValues(b[|b| - 1]);
    RowMassesLastRow(b);
  }

  lemma {:induction false} ColumnMassesLastRow(b: Map2048)
    requires IsGrid(b) && |b| > 1
    ensures IsGrid(b[..|b| - 1])
    ensures ColumnMasses(b) == seq(|b[0]|, j requires 0 <= j < |b[0]| =>
              ColumnMasses(b[..|b| - 1])[j] + Values(b[|b| - 1])[j])
  {
    var n, m := |b|, |b[0]|;
    var last := b[n - 1];
    var b' := b[..n - 1];
    assert HasDims(b', n - 1, m);
    forall j | 0 <= j < m ensures ColumnMasses(b)[j] == ColumnMasses(b')[j] + Values(last)[j] {
      assert Column(b, j) == Column(b', j) + [last[j]];
      RowMassSnoc(Column(b', j), last[j]);
    }
  }

  lemma {:induction false} RowMassesLastRow(b: Map2048)
    requires |b| > 0
    ensures BoardMass(b) == BoardMass(b[..|b| - 1]) + RowMass(b[|b| - 1])
  {
    var b' := b[..|b| - 1];
    assert RowMasses(b) == RowMasses(b') + [RowMass(b[|b| - 1])];
    SumConcat(RowMasses(b'), [RowMass(b[|b| - 1])]);
  }

  /** Summing a grid column by column gives the same total as row by row. */
  lemma {:induction false} ColumnsMass(b: Map2048)
    requires IsGrid(b)
    ensures Sum(ColumnMasses(b)) == BoardMass(b)
    decreases |b|
  {
    if |b| == 1 {
      ColumnsMassOneRow(b);
    } else {
      ColumnsMassLastRow(b);
      ColumnsMass(b[..|b| - 1]);
    }
  }

  /** Every tile on the board is positive. */
  predicate PositiveTiles(b: Map2048)
  {
    forall i, j :: 0 <= i < |b| && 0 <= j < |b[i]| && b[i][j].Some? ==> b[i][j].value > 0
  }
}
