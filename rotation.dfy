/** Counter-clockwise rotation of a rectangular board
    (`rotateMapCounterClockwise` in src/game/2048/logic.ts). */
module Rotation {
  import opened Board

  /** The four rotation angles `0 | 90 | 180 | 270`. */
  datatype Degree = D0 | D90 | D180 | D270

  /** Rotates a grid counter-clockwise. The source reads `map[0].length`
      before looking at the angle, so every angle needs at least one row;
      it is only ever called on boards whose rows all have one length. */
  function Rotate(b: Map2048, degree: Degree): (r: Map2048)
    requires IsGrid(b)
    ensures degree.D90? || degree.D270? ==> HasDims(r, |b[0]|, |b|)
    ensures degree.D0? || degree.D180? ==> HasDims(r, |b|, |b[0]|)
  {
    var rowLength, columnLength := |b|, |b[0]|;
    match degree
    case D0 => b
    case D90 =>
      seq(columnLength, columnIndex requires 0 <= columnIndex < columnLength =>
        seq(rowLength, rowIndex requires 0 <= rowIndex < rowLength =>
          b[rowIndex][columnLength - columnIndex - 1]))
    case D180 =>
      seq(rowLength, rowIndex requires 0 <= rowIndex < rowLength =>
        seq(columnLength, columnIndex requires 0 <= columnIndex < columnLength =>
          b[rowLength - rowIndex - 1][columnLength - columnIndex - 1]))
    case D270 =>
      seq(columnLength, columnIndex requires 0 <= columnIndex < columnLength =>
        seq(rowLength, rowIndex requires 0 <= rowIndex < rowLength =>
          b[rowLength - rowIndex - 1][columnIndex]))
  }

  /** The angle that undoes a rotation: together they make a full turn. */
  function Inverse(d: Degree): (e: Degree)
    ensures (Angle(d) + Angle(e)) % 360 == 0
  {
    match d
    case D0 => D0
    case D90 => D270
    case D180 => D180
    case D270 => D90
  }

  function Angle(d: Degree): nat
  {
    match d
    case D0 => 0
    case D90 => 90
    case D180 => 180
    case D270 => 270
  }

  /** A quarter turn of an N x 0 board has no rows left to turn back. */
  predicate Reversible(b: Map2048, d: Degree)
    requires IsGrid(b)
  {
    (d.D90? || d.D270?) ==> |b[0]| > 0
  }

  lemma {:induction false} RotateQuarterBack(b: Map2048)
    requires IsGrid(b) && |b[0]| > 0
    ensures IsGrid(Rotate(b, D90)) && Rotate(Rotate(b, D90), D270) == b
  {
    var r := Rotate(b, D90);
    var back := Rotate(r, D270);
    assert |back| == |b|;
    forall i | 0 <= i < |b| ensures back[i] == b[i] {
      forall j | 0 <= j < |b[0]| ensures back[i][j] == b[i][j] {
        assert back[i][j] == r[|b[0]| - j - 1][i];
      }
    }
  }

  lemma {:induction false} RotateThreeQuartersBack(b: Map2048)
    requires IsGrid(b) && |b[0]| > 0
    ensures IsGrid(Rotate(b, D270)) && Rotate(Rotate(b, D270), D90) == b
  {
    var r := Rotate(b, D270);
    var back := Rotate(r, D90);
    assert |back| == |b|;
    forall i | 0 <= i < |b| ensures back[i] == b[i] {
      forall j | 0 <= j < |b[0]| ensures back[i][j] == b[i][j] {
        assert back[i][j] == r[j][|b| - i - 1];
      }
    }
  }

  /** A half turn is its own inverse. */
  lemma {:induction false} RotateHalfInvolution(b: Map2048)
    requires IsGrid(b)
    ensures IsGrid(Rotate(b, D180)) && Rotate(Rotate(b, D180), D180) == b
  {
    var r := Rotate(b, D180);
    var back := Rotate(r, D180);
    forall i | 0 <= i < |b| ensures back[i] == b[i] {
      forall j | 0 <= j < |b[0]| ensures back[i][j] == b[i][j] {
        assert back[i][j] == r[|b| - i - 1][|b[0]| - j - 1];
      }
    }
  }

  /** Rotating by an angle and then by its inverse gives the board back. */
  lemma {:induction false} RotateInverse(b: Map2048, d: Degree)
    requires IsGrid(b) && Reversible(b, d)
    ensures IsGrid(Rotate(b, d))
    ensures Rotate(Rotate(b, d), Inverse(d)) == b
  {
    match d
    case D0 =>
    case D90 => RotateQuarterBack(b);
    case D180 => RotateHalfInvolution(b);
    case D270 => RotateThreeQuartersBack(b);
  }

  /** Rotation moves tiles around without changing their total value. */
  lemma {:induction false} RotateConservesMass(b: Map2048, d: Degree)
    requires IsGrid(b)
    ensures BoardMass(Rotate(b, d)) == BoardMass(b)
  {
    var n, m := |b|, |b[0]|;
    var r := Rotate(b, d);
    match d
    case D0 =>
    case D90 =>
      forall ci | 0 <= ci < m ensures RowMasses(r)[ci] == Reverse(ColumnMasses(b))[ci] {
        assert r[ci] == Column(b, m - 1 - ci);
      }
      assert RowMasses(r) == Reverse(ColumnMasses(b));
      SumReverse(ColumnMasses(b));
      ColumnsMass(b);
    case D180 =>
      forall ri | 0 <= ri < n ensures RowMasses(r)[ri] == Reverse(RowMasses(b))[ri] {
        assert r[ri] == Reverse(b[n - 1 - ri]);
        RowMassReverse(b[n - 1 - ri]);
      }
      assert RowMasses(r) == Reverse(RowMasses(b));
      SumReverse(RowMasses(b));
    case D270 =>
      forall ci | 0 <= ci < m ensures RowMasses(r)[ci] == ColumnMasses(b)[ci] {
        assert r[ci] == Reverse(Column(b, ci));
        RowMassReverse(Column(b, ci));
      }
      assert RowMasses(r) == ColumnMasses(b);
      ColumnsMass(b);
  }

  /** Every cell of a rotated board is a cell of the board, so positive tiles stay positive. */
  lemma {:induction false} RotateKeepsPositive(b: Map2048, d: Degree)
    requires IsGrid(b) && PositiveTiles(b)
    ensures PositiveTiles(Rotate(b, d))
  {
    var n, m := |b|, |b[0]|;
    var r: Map2048 := Rotate(b, d);
    forall i: nat, j: nat | i < |r| && j < |r[i]| && r[i][j].Some? ensures r[i][j].value > 0 {
      match d
      case D0 =>
      case D90 => assert r[i][j] == b[j][m - i - 1];
      case D180 => assert r[i][j] == b[n - i - 1][m - j - 1];
      case D270 => assert r[i][j] == b[n - j - 1][i];
    }
  }
}
