/** The move engine of src/game/2048/logic.ts: validate the board, rotate it
    so that the requested direction becomes "left", collapse every row, and
    rotate back. */
module MoveEngine {
  import opened Board
  import opened Rotation
  import opened RowCollapse

  datatype Direction = Up | Left | Right | Down

  datatype MoveResult = MoveResult(result: Map2048, isMoved: bool, gained: int)

  /** `NotNByM` is the explicit "Map is not N by M" error. `NoFirstRow` is the
      failure of reading `map[0].length` on a board without rows: the source
      hits it when validating an empty board, and when rotating back the empty
      result that a quarter turn makes of an N x 0 board. */
  datatype MoveError = NotNByM | NoFirstRow

  /** `rotateDegreeMap`. */
  function RotateDegree(dir: Direction): Degree
  {
    match dir
    case Up => D90
    case Right => D180
    case Down => D270
    case Left => D0
  }

  /** `revertDegreeMap`. */
  function RevertDegree(dir: Direction): Degree
  {
    match dir
    case Up => D270
    case Right => D180
    case Down => D90
    case Left => D0
  }

  /** `validateMapIsNByM`: every row as long as the first one. */
  function ValidateMapIsNByM(b: Map2048): (r: bool)
    requires |b| > 0
    ensures r <==> forall i, j :: 0 <= i < j < |b| ==> |b[i]| == |b[j]|
    ensures r <==> IsGrid(b)
  {
    forall i :: 0 <= i < |b| ==> |b[i]| == |b[0]|
  }

  /** `movedRows.reduce((sum, m) => sum + m.gained, 0)`. */
  function TotalGained(rows: seq<RowResult>): int
  {
    if |rows| == 0 then 0 else TotalGained(rows[..|rows| - 1]) + rows[|rows| - 1].gained
  }

  /** `moveLeft`: collapse every row. */
  function MoveLeft(b: Map2048): (r: MoveResult)
    ensures |r.result| == |b|
    ensures forall i :: 0 <= i < |b| ==> |r.result[i]| == |b[i]|
    ensures r.isMoved <==> r.result != b
  {
    var movedRows := seq(|b|, i requires 0 <= i < |b| => MoveRowLeft(b[i]));
    var result := seq(|b|, i requires 0 <= i < |b| => movedRows[i].result);
    var isMoved := exists i :: 0 <= i < |b| && movedRows[i].isMoved;
    assert isMoved <==> result != b by {
      if result != b {
        var i :| 0 <= i < |b| && result[i] != b[i];
        assert movedRows[i].isMoved;
      }
    }
    MoveResult(result, isMoved, TotalGained(movedRows))
  }

  /** `moveMapIn2048Rule`. */
  function MoveMapIn2048Rule(b: Map2048, dir: Direction): (r: Result<MoveResult, MoveError>)
    ensures r == Failure(NotNByM) <==> |b| > 0 && !IsGrid(b)
    ensures r == Failure(NoFirstRow) <==> |b| == 0 || (IsGrid(b) && !Reversible(b, RotateDegree(dir)))
    ensures r.Success? ==> HasDims(r.value.result, |b|, |b[0]|)
  {
    if |b| == 0 then Failure(NoFirstRow)
    else if !ValidateMapIsNByM(b) then Failure(NotNByM)
    else
      var rotatedMap := Rotate(b, RotateDegree(dir));
      var moved := MoveLeft(rotatedMap);
      if |moved.result| == 0 then Failure(NoFirstRow)
      else
        assert HasDims(moved.result, |rotatedMap|, |rotatedMap[0]|);
        Success(MoveResult(Rotate(moved.result, RevertDegree(dir)), moved.isMoved, moved.gained))
  }

  // ---------------------------------------------------------------------
  // Properties

  /** The two tables are inverse to each other for every direction. */
  lemma {:induction false} DegreeTablesInverse(b: Map2048, dir: Direction)
    requires IsGrid(b) && Reversible(b, RotateDegree(dir))
    ensures IsGrid(Rotate(b, RotateDegree(dir)))
    ensures Rotate(Rotate(b, RotateDegree(dir)), RevertDegree(dir)) == b
  {
    RotateInverse(b, RotateDegree(dir));
  }

  /** A successful move reports `isMoved` exactly when the board changed. */
  lemma {:induction false} MoveReportsChange(b: Map2048, dir: Direction)
    requires MoveMapIn2048Rule(b, dir).Success?
    ensures MoveMapIn2048Rule(b, dir).value.isMoved <==> MoveMapIn2048Rule(b, dir).value.result != b
  {
    var d, e := RotateDegree(dir), RevertDegree(dir);
    var rotatedMap := Rotate(b, d);
    var moved := MoveLeft(rotatedMap);
    var out := MoveMapIn2048Rule(b, dir).value.result;
    DegreeTablesInverse(b, dir);
    assert HasDims(moved.result, |rotatedMap|, |rotatedMap[0]|);
    assert out == Rotate(moved.result, e);
    if moved.result == rotatedMap {
      assert out == b;
    } else if out == b {
      assert Inverse(e) == d;
      RotateInverse(moved.result, e);
      assert false;
    }
  }

  /** Moving left collapses every row. */
  lemma {:induction false} MoveLeftRows(b: Map2048)
    requires IsGrid(b)
    ensures MoveMapIn2048Rule(b, Left).Success?
    ensures forall i :: 0 <= i < |b| ==>
              MoveMapIn2048Rule(b, Left).value.result[i] == MoveRowLeft(b[i]).result
  {
  }

  lemma {:induction false} HalfTurnRow(b: Map2048, i: nat)
    requires IsGrid(b) && i < |b|
    ensures Rotate(b, D180)[i] == Reverse(b[|b| - 1 - i])
  {
  }

  /** Moving right collapses every row read from right to left. */
  lemma {:induction false} MoveRightRows(b: Map2048)
    requires IsGrid(b)
    ensures MoveMapIn2048Rule(b, Right).Success?
    ensures forall i :: 0 <= i < |b| ==>
              MoveMapIn2048Rule(b, Right).value.result[i] == Reverse(MoveRowLeft(Reverse(b[i])).result)
  {
    var n := |b|;
    var rotatedMap := Rotate(b, D180);
    var moved := MoveLeft(rotatedMap).result;
    assert HasDims(moved, n, |b[0]|);
    var out := MoveMapIn2048Rule(b, Right).value.result;
    assert out == Rotate(moved, D180);
    forall i | 0 <= i < n ensures out[i] == Reverse(MoveRowLeft(Reverse(b[i])).result) {
      HalfTurnRow(b, n - 1 - i);
      HalfTurnRow(moved, i);
      assert moved[n - 1 - i] == MoveRowLeft(rotatedMap[n - 1 - i]).result;
    }
  }

  /** Moving up collapses every column towards the top row. */
  lemma {:induction false} MoveUpColumns(b: Map2048)
    requires IsGrid(b) && |b[0]| > 0
    ensures MoveMapIn2048Rule(b, Up).Success?
    ensures IsGrid(MoveMapIn2048Rule(b, Up).value.result)
    ensures forall j :: 0 <= j < |b[0]| ==>
              Column(MoveMapIn2048Rule(b, Up).value.result, j) == MoveRowLeft(Column(b, j)).result
  {
    var m := |b[0]|;
    var rotatedMap := Rotate(b, D90);
    var moved := MoveLeft(rotatedMap).result;
    assert HasDims(moved, m, |b|);
    var out := MoveMapIn2048Rule(b, Up).value.result;
    assert out == Rotate(moved, D270);
    forall j | 0 <= j < m ensures Column(out, j) == MoveRowLeft(Column(b, j)).result {
      QuarterTurnRow(b, j);
      ThreeQuarterTurnColumn(moved, m - 1 - j);
      assert moved[m - 1 - j] == MoveRowLeft(rotatedMap[m - 1 - j]).result;
    }
  }

  lemma {:induction false} QuarterTurnRow(b: Map2048, j: nat)
    requires IsGrid(b) && j < |b[0]|
    ensures Rotate(b, D90)[|b[0]| - 1 - j] == Column(b, j)
  {
  }

  lemma {:induction false} ThreeQuarterTurnColumn(x: Map2048, k: nat)
    requires IsGrid(x) && |x[0]| > 0 && k < |x|
    ensures IsGrid(Rotate(x, D270))
    ensures Column(Rotate(x, D270), |x| - 1 - k) == x[k]
  {
  }

  lemma {:induction false} ThreeQuarterTurnRow(b: Map2048, j: nat)
    requires IsGrid(b) && j < |b[0]|
    ensures Rotate(b, D270)[j] == Reverse(Column(b, j))
  {
  }

  lemma {:induction false} QuarterTurnColumn(x: Map2048, j: nat)
    requires IsGrid(x) && |x[0]| > 0 && j < |x|
    ensures IsGrid(Rotate(x, D90))
    ensures Column(Rotate(x, D90), j) == Reverse(x[j])
  {
  }

  /** Moving down collapses every column, read from the bottom up, towards the bottom row. */
  lemma {:induction false} MoveDownColumns(b: Map2048)
    requires IsGrid(b) && |b[0]| > 0
    ensures MoveMapIn2048Rule(b, Down).Success?
    ensures IsGrid(MoveMapIn2048Rule(b, Down).value.result)
    ensures forall j :: 0 <= j < |b[0]| ==>
              Column(MoveMapIn2048Rule(b, Down).value.result, j)
              == Reverse(MoveRowLeft(Reverse(Column(b, j))).result)
  {
    var m := |b[0]|;
    var rotatedMap := Rotate(b, D270);
    var moved := MoveLeft(rotatedMap).result;
    assert HasDims(moved, m, |b|);
    var out := MoveMapIn2048Rule(b, Down).value.result;
    assert out == Rotate(moved, D90);
    forall j | 0 <= j < m
      ensures Column(out, j) == Reverse(MoveRowLeft(Reverse(Column(b, j))).result)
    {
      ThreeQuarterTurnRow(b, j);
      QuarterTurnColumn(moved, j);
      assert moved[j] == MoveRowLeft(rotatedMap[j]).result;
    }
  }

  // ---------------------------------------------------------------------
  // Tile mass and points

  /** The points each row earns: the sum of the tiles its merges create. */
  function RowGains(b: Map2048): (g: seq<int>)
    ensures |g| == |b| && forall i :: 0 <= i < |b| ==> g[i] == MergeGain(Compact(b[i]))
  {
    seq(|b|, i requires 0 <= i < |b| => MergeGain(Compact(b[i])))
  }

  function Gains(rows: seq<RowResult>): (g: seq<int>)
    ensures |g| == |rows| && forall k :: 0 <= k < |rows| ==> g[k] == rows[k].gained
  {
    seq(|rows|, k requires 0 <= k < |rows| => rows[k].gained)
  }

  lemma {:induction false} TotalGainedIsSum(rows: seq<RowResult>)
    ensures TotalGained(rows) == Sum(Gains(rows))
  {
    if |rows| > 0 {
      var front := rows[..|rows| - 1];
      var x := rows[|rows| - 1].gained;
      assert Gains(rows) == Gains(front) + [x];
      SumConcat(Gains(front), [x]);
      assert Sum([x]) == x + Sum([]);
      TotalGainedIsSum(front);
    }
  }

  /** `moveLeft` moved when some row moved, and earns the points of all rows together. */
  lemma {:induction false} MoveLeftAggregates(b: Map2048)
    ensures MoveLeft(b).isMoved <==> exists i :: 0 <= i < |b| && MoveRowLeft(b[i]).isMoved
    ensures MoveLeft(b).gained == Sum(RowGains(b))
  {
    var movedRows := seq(|b|, i requires 0 <= i < |b| => MoveRowLeft(b[i]));
    forall i | 0 <= i < |b| ensures Gains(movedRows)[i] == RowGains(b)[i] {
      MoveRowLeftIsReference(b[i]);
    }
    assert Gains(movedRows) == RowGains(b);
    TotalGainedIsSum(movedRows);
    if MoveLeft(b).isMoved {
      var i :| 0 <= i < |b| && MoveLeft(b).result[i] != b[i];
      assert MoveRowLeft(b[i]).isMoved;
    }
  }

  /** Collapsing every row conserves the board's total tile value. */
  lemma {:induction false} MoveLeftConservesMass(b: Map2048)
    ensures BoardMass(MoveLeft(b).result) == BoardMass(b)
  {
    forall i | 0 <= i < |b| ensures RowMasses(MoveLeft(b).result)[i] == RowMasses(b)[i] {
      MoveRowLeftConservesMass(b[i]);
    }
    assert RowMasses(MoveLeft(b).result) == RowMasses(b);
  }

  /** A move in any direction conserves the board's total tile value. */
  lemma {:induction false} MoveConservesMass(b: Map2048, dir: Direction)
    requires MoveMapIn2048Rule(b, dir).Success?
    ensures BoardMass(MoveMapIn2048Rule(b, dir).value.result) == BoardMass(b)
  {
    var rotatedMap := Rotate(b, RotateDegree(dir));
    var moved := MoveLeft(rotatedMap).result;
    assert HasDims(moved, |rotatedMap|, |rotatedMap[0]|);
    RotateConservesMass(b, RotateDegree(dir));
    MoveLeftConservesMass(rotatedMap);
    RotateConservesMass(moved, RevertDegree(dir));
  }

  lemma {:induction false} TotalGainedNonNegative(rows: seq<RowResult>)
    requires forall k :: 0 <= k < |rows| ==> rows[k].gained >= 0
    ensures TotalGained(rows) >= 0
  {
    if |rows| > 0 { TotalGainedNonNegative(rows[..|rows| - 1]); }
  }

  /** With positive tiles, collapsing the rows never loses points. */
  lemma {:induction false} MoveLeftGainNonNegative(b: Map2048)
    requires PositiveTiles(b)
    ensures MoveLeft(b).gained >= 0
  {
    var movedRows := seq(|b|, i requires 0 <= i < |b| => MoveRowLeft(b[i]));
    forall k | 0 <= k < |b| ensures movedRows[k].gained >= 0 {
      CompactPositive(b[k]);
      MoveRowLeftGain(b[k]);
    }
    TotalGainedNonNegative(movedRows);
  }

  /** With positive tiles, a move in any direction never loses points. */
  lemma {:induction false} MoveGainNonNegative(b: Map2048, dir: Direction)
    requires MoveMapIn2048Rule(b, dir).Success? && PositiveTiles(b)
    ensures MoveMapIn2048Rule(b, dir).value.gained >= 0
  {
    RotateKeepsPositive(b, RotateDegree(dir));
    MoveLeftGainNonNegative(Rotate(b, RotateDegree(dir)));
  }

  // ---------------------------------------------------------------------
  // Direction symmetry

  /** Every row reversed: the board seen in a vertical mirror. */
  function MirrorRows(b: Map2048): (r: Map2048)
    ensures |r| == |b| && forall i :: 0 <= i < |b| ==> r[i] == Reverse(b[i])
  {
    seq(|b|, i requires 0 <= i < |b| => Reverse(b[i]))
  }

  lemma {:induction false} MirroredBoards(b: Map2048)
    requires IsGrid(b)
    ensures IsGrid(MirrorRows(b))
    ensures MoveMapIn2048Rule(MirrorRows(b), Right).Success?
    ensures MoveMapIn2048Rule(MirrorRows(b), Right).value.result
         == MirrorRows(MoveMapIn2048Rule(b, Left).value.result)
  {
    var b' := MirrorRows(b);
    assert HasDims(b', |b|, |b[0]|);
    MoveLeftRows(b);
    MoveRightRows(b');
    var left := MoveMapIn2048Rule(b, Left).value.result;
    var right := MoveMapIn2048Rule(b', Right).value.result;
    assert |right| == |b| == |left|;
    forall i | 0 <= i < |b| ensures right[i] == MirrorRows(left)[i] {
      ReverseInvolution(b[i]);
    }
  }

  /** A grid is determined by its columns. */
  lemma {:induction false} ColumnsDetermineGrid(x: Map2048, y: Map2048)
    requires IsGrid(x) && HasDims(y, |x|, |x[0]|)
    requires forall j :: 0 <= j < |x[0]| ==> Column(x, j) == Column(y, j)
    ensures x == y
  {
    forall i | 0 <= i < |x| ensures x[i] == y[i] {
      forall j | 0 <= j < |x[0]| ensures x[i][j] == y[i][j] {
        assert Column(x, j)[i] == Column(y, j)[i];
      }
    }
  }

  lemma {:induction false} FlippedColumns(b: Map2048, up: Map2048, down: Map2048)
    requires IsGrid(b) && |b[0]| > 0
    requires HasDims(up, |b|, |b[0]|) && HasDims(down, |b|, |b[0]|)
    requires forall j :: 0 <= j < |b[0]| ==> Column(up, j) == MoveRowLeft(Column(b, j)).result
    requires forall j :: 0 <= j < |b[0]| ==>
               Column(down, j) == Reverse(MoveRowLeft(Reverse(Column(Reverse(b), j))).result)
    ensures down == Reverse(up)
  {
    var flipped := Reverse(up);
    forall j | 0 <= j < |b[0]| ensures Column(down, j) == Column(flipped, j) {
      ColumnOfReverse(b, j);
      ReverseInvolution(Column(b, j));
      ColumnOfReverse(up, j);
    }
    ColumnsDetermineGrid(down, flipped);
  }

  lemma {:induction false} FlippedBoards(b: Map2048)
    requires IsGrid(b) && |b[0]| > 0
    ensures IsGrid(Reverse(b))
    ensures MoveMapIn2048Rule(Reverse(b), Down).Success?
    ensures MoveMapIn2048Rule(Reverse(b), Down).value.result
         == Reverse(MoveMapIn2048Rule(b, Up).value.result)
  {
    var b' := Reverse(b);
    assert HasDims(b', |b|, |b[0]|);
    MoveUpColumns(b);
    MoveDownColumns(b');
    FlippedColumns(b, MoveMapIn2048Rule(b, Up).value.result, MoveMapIn2048Rule(b', Down).value.result);
  }

  lemma {:induction false} MirrorInvolution(x: Map2048)
    ensures MirrorRows(MirrorRows(x)) == x
  {
    forall i | 0 <= i < |x| ensures MirrorRows(MirrorRows(x))[i] == x[i] {
      ReverseInvolution(x[i]);
    }
  }

  lemma {:induction false} MirroredHalfTurnRow(b: Map2048, i: nat)
    requires IsGrid(b) && i < |b|
    ensures IsGrid(MirrorRows(b))
    ensures Rotate(MirrorRows(b), D180)[i] == b[|b| - 1 - i]
  {
    assert HasDims(MirrorRows(b), |b|, |b[0]|);
    HalfTurnRow(MirrorRows(b), i);
    ReverseInvolution(b[|b| - 1 - i]);
  }

  /** The half turn of the mirrored board holds the board's rows in reverse order. */
  lemma {:induction false} MirroredHalfTurnGains(b: Map2048)
    requires IsGrid(b)
    ensures IsGrid(MirrorRows(b))
    ensures RowGains(Rotate(MirrorRows(b), D180)) == Reverse(RowGains(b))
  {
    assert HasDims(MirrorRows(b), |b|, |b[0]|);
    var x := Rotate(MirrorRows(b), D180);
    forall i | 0 <= i < |b| ensures RowGains(x)[i] == Reverse(RowGains(b))[i] {
      MirroredHalfTurnRow(b, i);
    }
  }

  /** The points of a successful move are the points its rotated board earns row by row. */
  lemma {:induction false} MoveGained(b: Map2048, dir: Direction)
    requires MoveMapIn2048Rule(b, dir).Success?
    ensures IsGrid(b)
    ensures MoveMapIn2048Rule(b, dir).value.gained == Sum(RowGains(Rotate(b, RotateDegree(dir))))
  {
    MoveLeftAggregates(Rotate(b, RotateDegree(dir)));
  }

  lemma {:induction false} LeftRightMoved(b: Map2048)
    requires IsGrid(b)
    ensures IsGrid(MirrorRows(b))
    ensures MoveMapIn2048Rule(MirrorRows(b), Right).Success?
    ensures MoveMapIn2048Rule(MirrorRows(b), Right).value.isMoved == MoveMapIn2048Rule(b, Left).value.isMoved
  {
    var b' := MirrorRows(b);
    MirroredBoards(b);
    MoveReportsChange(b, Left);
    MoveReportsChange(b', Right);
    MirrorInvolution(b);
    MirrorInvolution(MoveMapIn2048Rule(b, Left).value.result);
  }

  lemma {:induction false} LeftRightGained(b: Map2048)
    requires IsGrid(b)
    ensures IsGrid(MirrorRows(b))
    ensures MoveMapIn2048Rule(MirrorRows(b), Right).Success?
    ensures MoveMapIn2048Rule(MirrorRows(b), Right).value.gained == MoveMapIn2048Rule(b, Left).value.gained
  {
    var b' := MirrorRows(b);
    assert HasDims(b', |b|, |b[0]|);
    MoveGained(b, Left);
    MoveGained(b', Right);
    MirroredHalfTurnGains(b);
    var g := RowGains(b);
    SumReverse(g);
    assert Sum(RowGains(Rotate(b', D180))) == Sum(g);
  }

  /** Moving the mirrored board right gives the mirror of moving the board left:
      its board is the mirror image, and it moves and earns exactly as much. */
  lemma {:induction false} LeftRightSymmetry(b: Map2048)
    requires IsGrid(b)
    ensures IsGrid(MirrorRows(b))
    ensures MoveMapIn2048Rule(MirrorRows(b), Right).Success?
    ensures var left := MoveMapIn2048Rule(b, Left).value;
            MoveMapIn2048Rule(MirrorRows(b), Right).value == MoveResult(MirrorRows(left.result), left.isMoved, left.gained)
  {
    MirroredBoards(b);
    LeftRightMoved(b);
    LeftRightGained(b);
  }

  lemma {:induction false} FlippedTurnRow(b: Map2048, j: nat)
    requires IsGrid(b) && j < |b[0]|
    ensures IsGrid(Reverse(b))
    ensures Rotate(Reverse(b), D270)[j] == Rotate(b, D90)[|b[0]| - 1 - j]
  {
    ThreeQuarterTurnRow(Reverse(b), j);
    ColumnOfReverse(b, j);
    ReverseInvolution(Column(b, j));
    QuarterTurnRow(b, j);
  }

  /** The three-quarter turn of the upside-down board holds the rows of the
      quarter turn of the board in reverse order. */
  lemma {:induction false} FlippedTurnGains(b: Map2048)
    requires IsGrid(b) && |b[0]| > 0
    ensures IsGrid(Reverse(b))
    ensures RowGains(Rotate(Reverse(b), D270)) == Reverse(RowGains(Rotate(b, D90)))
  {
    var m := |b[0]|;
    assert HasDims(Reverse(b), |b|, m);
    var x, y := Rotate(Reverse(b), D270), Rotate(b, D90);
    forall j | 0 <= j < m ensures RowGains(x)[j] == Reverse(RowGains(y))[j] {
      FlippedTurnRow(b, j);
    }
  }

  lemma {:induction false} UpDownMoved(b: Map2048)
    requires IsGrid(b) && |b[0]| > 0
    ensures IsGrid(Reverse(b))
    ensures MoveMapIn2048Rule(Reverse(b), Down).Success?
    ensures MoveMapIn2048Rule(Reverse(b), Down).value.isMoved == MoveMapIn2048Rule(b, Up).value.isMoved
  {
    var b' := Reverse(b);
    FlippedBoards(b);
    MoveReportsChange(b, Up);
    MoveReportsChange(b', Down);
    ReverseInvolution(b);
    ReverseInvolution(MoveMapIn2048Rule(b, Up).value.result);
  }

  lemma {:induction false} UpDownGained(b: Map2048)
    requires IsGrid(b) && |b[0]| > 0
    ensures IsGrid(Reverse(b))
    ensures MoveMapIn2048Rule(Reverse(b), Down).Success?
    ensures MoveMapIn2048Rule(Reverse(b), Down).value.gained == MoveMapIn2048Rule(b, Up).value.gained
  {
    var b' := Reverse(b);
    assert HasDims(b', |b|, |b[0]|);
    MoveGained(b, Up);
    MoveGained(b', Down);
    FlippedTurnGains(b);
    var g := RowGains(Rotate(b, D90));
    SumReverse(g);
    assert Sum(RowGains(Rotate(b', D270))) == Sum(g);
  }

  /** Moving the upside-down board down gives the upside-down result of moving
      the board up: its board is turned upside down, and it moves and earns exactly as much. */
  lemma {:induction false} UpDownSymmetry(b: Map2048)
    requires IsGrid(b) && |b[0]| > 0
    ensures IsGrid(Reverse(b))
    ensures MoveMapIn2048Rule(Reverse(b), Down).Success?
    ensures var up := MoveMapIn2048Rule(b, Up).value;
            MoveMapIn2048Rule(Reverse(b), Down).value == MoveResult(Reverse(up.result), up.isMoved, up.gained)
  {
    FlippedBoards(b);
    UpDownMoved(b);
    UpDownGained(b);
  }

  // ---------------------------------------------------------------------
  // A worked example

  const EmptyRow4: seq<Cell> := [None, None, None, None]
  const LoneBottomLeft: Map2048 := [EmptyRow4, EmptyRow4, EmptyRow4, [Some(2), None, None, None]]
  const LoneTopLeft: Map2048 := [[Some(2), None, None, None], EmptyRow4, EmptyRow4, EmptyRow4]
  const LoneColumn: seq<Cell> := [None, None, None, Some(2)]
  const LoneRotated: Map2048 := [EmptyRow4, EmptyRow4, EmptyRow4, LoneColumn]
  const LoneCollapsed: Map2048 := [EmptyRow4, EmptyRow4, EmptyRow4, [Some(2), None, None, None]]

  lemma LoneTileTurned()
    ensures IsGrid(LoneBottomLeft) && Rotate(LoneBottomLeft, D90) == LoneRotated
  {
    var b := LoneBottomLeft;
    var r := Rotate(b, D90);
    forall ci | 0 <= ci < 4 ensures r[ci] == LoneRotated[ci] {
      forall ri | 0 <= ri < 4 ensures r[ci][ri] == LoneRotated[ci][ri] {
        assert r[ci][ri] == b[ri][3 - ci];
      }
    }
  }

  lemma LoneColumnCollapses()
    ensures MoveRowLeft(LoneColumn) == RowResult([Some(2), None, None, None], true, 0)
  {
    var three: seq<Cell>, two: seq<Cell>, one: seq<Cell> := [None, None, None], [None, None], [None];
    assert LoneColumn[..3] == three && three[..2] == two && two[..1] == one && one[..0] == [];
    assert Reduce(one) == Acc(None, [], 0);
    assert Reduce(two) == Acc(None, [], 0);
    assert Reduce(three) == Acc(None, [], 0);
    assert Reduce(LoneColumn) == Acc(Some(2), [], 0);
  }

  lemma LoneRowsCollapse()
    ensures MoveLeft(LoneRotated) == MoveResult(LoneCollapsed, true, 0)
  {
    var e := EmptyRow4;
    assert e == seq(4, _ => None);
    EmptyRowStays(4);
    LoneColumnCollapses();
    var still, slid := MoveRowLeft(e), MoveRowLeft(LoneColumn);
    var movedRows := [still, still, still, slid];
    assert movedRows == seq(4, i requires 0 <= i < 4 => MoveRowLeft(LoneRotated[i]));
    NoGains(still, slid);
    assert MoveLeft(LoneRotated).result == LoneCollapsed;
  }

  lemma NoGains(still: RowResult, slid: RowResult)
    requires still.gained == 0 && slid.gained == 0
    ensures TotalGained([still, still, still, slid]) == 0
  {
    assert [still][..0] == [] && [still, still][..1] == [still];
    assert [still, still, still][..2] == [still, still];
    assert [still, still, still, slid][..3] == [still, still, still];
    assert TotalGained([still]) == 0;
    assert TotalGained([still, still]) == 0;
    assert TotalGained([still, still, still]) == 0;
  }

  lemma LoneTileTurnedBack()
    ensures IsGrid(LoneCollapsed) && Rotate(LoneCollapsed, D270) == LoneTopLeft
  {
    var b := LoneCollapsed;
    var r := Rotate(b, D270);
    forall ci | 0 <= ci < 4 ensures r[ci] == LoneTopLeft[ci] {
      forall ri | 0 <= ri < 4 ensures r[ci][ri] == LoneTopLeft[ci][ri] {
        assert r[ci][ri] == b[3 - ri][ci];
      }
    }
  }

  /** A lone 2 in the bottom-left corner slides to the top-left corner on a move up,
      the move counts as a change and earns no points. */
  lemma LoneTileMovesUp()
    ensures MoveMapIn2048Rule(LoneBottomLeft, Up) == Success(MoveResult(LoneTopLeft, true, 0))
  {
    LoneTileTurned();
    LoneRowsCollapse();
    LoneTileTurnedBack();
  }
}
