/** Collapsing one row to the left (`moveRowLeft` in src/game/2048/logic.ts).

    The source folds over the row with an accumulator holding a pending
    `lastCell`, the finalized values and the points gained; `Reduce` is that
    fold. `Compact`, `Merge` and `MergeGain` are an independent reference
    definition of the same collapse (slide the tiles together, then merge
    equal neighbours pairwise from the left), and `MoveRowLeftIsReference`
    proves the two agree on every row. */
module RowCollapse {
  import opened Board

  /** The fold accumulator `{ lastCell, result, gained }`. The finalized
      cells in the source are always numbers, so they are kept as `int`s. */
  datatype Acc = Acc(lastCell: Cell, result: seq<int>, gained: int)

  datatype RowResult = RowResult(result: seq<Cell>, isMoved: bool, gained: int)

  /** One step of the reduce callback. */
  function Step(acc: Acc, cell: Cell): Acc
  {
    if cell.None? then acc
    else if acc.lastCell.None? then acc.(lastCell := cell)
    else if acc.lastCell == cell then
      Acc(None, acc.result + [2 * cell.value], acc.gained + 2 * cell.value)
    else Acc(cell, acc.result + [acc.lastCell.value], acc.gained)
  }

  /** `row.reduce(Step, { lastCell: null, result: [], gained: 0 })`. */
  function Reduce(row: seq<Cell>): Acc
  {
    if |row| == 0 then Acc(None, [], 0)
    else Step(Reduce(row[..|row| - 1]), row[|row| - 1])
  }

  /** `[...reduced.result, reduced.lastCell]`, padded with `null` (or cut)
      to the row's length, then compared with the row cell by cell. */
  function MoveRowLeft(row: seq<Cell>): (r: RowResult)
    ensures |r.result| == |row|
    ensures r.isMoved <==> r.result != row
  {
    var reduced := Reduce(row);
    var fin := reduced.result;
    var resultRow := seq(|row|, i requires 0 <= i < |row| =>
                           if i < |fin| then Some(fin[i])
                           else if i == |fin| then reduced.lastCell
                           else None);
    var isMoved := exists i :: 0 <= i < |row| && row[i] != resultRow[i];
    RowResult(resultRow, isMoved, reduced.gained)
  }

  // ---------------------------------------------------------------------
  // Reference definition

  /** The present values of a row, in order. */
  function Compact(row: seq<Cell>): seq<int>
  {
    if |row| == 0 then []
    else Compact(row[..|row| - 1]) + CellValues(row[|row| - 1])
  }

  function CellValues(x: Cell): seq<int>
  {
    if x.Some? then [x.value] else []
  }

  /** Greedy pairwise merge from the left: a merged value is never merged again. */
  function Merge(v: seq<int>): seq<int>
  {
    if |v| < 2 then v
    else if v[0] == v[1] then [2 * v[0]] + Merge(v[2..])
    else [v[0]] + Merge(v[1..])
  }

  /** The sum of the values that `Merge` creates. */
  function MergeGain(v: seq<int>): int
  {
    if |v| < 2 then 0
    else if v[0] == v[1] then 2 * v[0] + MergeGain(v[2..])
    else MergeGain(v[1..])
  }

  /** The values `v` followed by empty cells, to length `n`. */
  function Pad(v: seq<int>, n: nat): (r: seq<Cell>)
    ensures |r| == n
    ensures forall i :: 0 <= i < n ==> (r[i].Some? <==> i < |v|)
  {
    seq(n, i requires 0 <= i < n => if i < |v| then Some(v[i]) else None)
  }

  /** Some two neighbouring values are equal. */
  predicate HasEqualNeighbours(v: seq<int>)
  {
    exists i :: 0 <= i < |v| - 1 && v[i] == v[i + 1]
  }

  /** Every present cell comes before every empty cell. */
  predicate IsPacked(row: seq<Cell>)
  {
    forall i, j :: 0 <= i < j < |row| && row[i].None? ==> row[j].None?
  }

  predicate AllPositive(v: seq<int>)
  {
    forall i :: 0 <= i < |v| ==> v[i] > 0
  }

  function Pending(a: Acc): seq<int>
  {
    if a.lastCell.Some? then [a.lastCell.value] else []
  }

  // ---------------------------------------------------------------------
  // The fold computes the reference collapse

  lemma {:induction false} CompactConcat(p: seq<Cell>, s: seq<Cell>)
    ensures Compact(p + s) == Compact(p) + Compact(s)
  {
    if |s| > 0 {
      var s' := s[..|s| - 1];
      assert (p + s)[..|p + s| - 1] == p + s';
      CompactConcat(p, s');
    } else {
      assert p + s == p;
    }
  }

  lemma {:induction false} CompactLength(row: seq<Cell>)
    ensures |Compact(row)| <= |row|
  {
    if |row| > 0 { CompactLength(row[..|row| - 1]); }
  }

  lemma {:induction false} MergePair(v: int, s: seq<int>)
    ensures Merge([v, v] + s) == [2 * v] + Merge(s)
    ensures MergeGain([v, v] + s) == 2 * v + MergeGain(s)
  {
    assert ([v, v] + s)[2..] == s;
  }

  lemma {:induction false} MergeDistinct(v: int, y: int, s: seq<int>)
    requires v != y
    ensures Merge([v, y] + s) == [v] + Merge([y] + s)
    ensures MergeGain([v, y] + s) == MergeGain([y] + s)
  {
    assert ([v, y] + s)[1..] == [y] + s;
  }

  // The four branches of the reduce callback, one lemma each.

  lemma {:induction false} StepSkip(a: Acc, x: Cell, s: seq<int>)
    requires x.None?
    ensures a.result + Merge(Pending(a) + (CellValues(x) + s))
         == Step(a, x).result + Merge(Pending(Step(a, x)) + s)
    ensures a.gained + MergeGain(Pending(a) + (CellValues(x) + s))
         == Step(a, x).gained + MergeGain(Pending(Step(a, x)) + s)
  {
    assert CellValues(x) + s == s;
  }

  lemma {:induction false} StepHold(a: Acc, x: Cell, s: seq<int>)
    requires x.Some? && a.lastCell.None?
    ensures a.result + Merge(Pending(a) + (CellValues(x) + s))
         == Step(a, x).result + Merge(Pending(Step(a, x)) + s)
    ensures a.gained + MergeGain(Pending(a) + (CellValues(x) + s))
         == Step(a, x).gained + MergeGain(Pending(Step(a, x)) + s)
  {
    assert Pending(a) + (CellValues(x) + s) == Pending(Step(a, x)) + s;
  }

  lemma {:induction false} StepCombine(a: Acc, x: Cell, s: seq<int>)
    requires x.Some? && a.lastCell == x
    ensures a.result + Merge(Pending(a) + (CellValues(x) + s))
         == Step(a, x).result + Merge(Pending(Step(a, x)) + s)
    ensures a.gained + MergeGain(Pending(a) + (CellValues(x) + s))
         == Step(a, x).gained + MergeGain(Pending(Step(a, x)) + s)
  {
    var v := x.value;
    assert x == Some(v);
    PendingPair(a, v, s);
    MergePair(v, s);
    CombinedStep(a, v);
    var next := Step(a, x);
    assert Pending(next) + s == s;
    ConcatAssoc(a.result, [2 * v], Merge(s));
  }

  lemma ConcatAssoc<T>(p: seq<T>, q: seq<T>, r: seq<T>)
    ensures p + (q + r) == (p + q) + r
  {
  }

  lemma PendingPair(a: Acc, v: int, s: seq<int>)
    requires a.lastCell == Some(v)
    ensures Pending(a) + (CellValues(Some(v)) + s) == [v, v] + s
  {
  }

  lemma CombinedStep(a: Acc, v: int)
    requires a.lastCell == Some(v)
    ensures Step(a, Some(v)) == Acc(None, a.result + [2 * v], a.gained + 2 * v)
    ensures Pending(Step(a, Some(v))) == []
  {
  }

  lemma {:induction false} StepLockIn(a: Acc, x: Cell, s: seq<int>)
    requires x.Some? && a.lastCell.Some? && a.lastCell != x
    ensures a.result + Merge(Pending(a) + (CellValues(x) + s))
         == Step(a, x).result + Merge(Pending(Step(a, x)) + s)
    ensures a.gained + MergeGain(Pending(a) + (CellValues(x) + s))
         == Step(a, x).gained + MergeGain(Pending(Step(a, x)) + s)
  {
    var v, y := a.lastCell.value, x.value;
    var next := Step(a, x);
    assert next == Acc(x, a.result + [v], a.gained);
    assert Pending(a) + (CellValues(x) + s) == [v, y] + s;
    MergeDistinct(v, y, s);
    assert Pending(next) + s == [y] + s;
    ConcatAssoc(a.result, [v], Merge([y] + s));
  }

  /** One fold step hands over to the greedy merge exactly what it finalizes. */
  lemma {:induction false} StepMerge(a: Acc, x: Cell, s: seq<int>)
    ensures a.result + Merge(Pending(a) + (CellValues(x) + s))
         == Step(a, x).result + Merge(Pending(Step(a, x)) + s)
    ensures a.gained + MergeGain(Pending(a) + (CellValues(x) + s))
         == Step(a, x).gained + MergeGain(Pending(Step(a, x)) + s)
  {
    if x.None? {
      StepSkip(a, x, s);
    } else if a.lastCell.None? {
      StepHold(a, x, s);
    } else if a.lastCell == x {
      StepCombine(a, x, s);
    } else {
      StepLockIn(a, x, s);
    }
  }

  /** After any prefix `p`, the fold holds exactly what the greedy merge of
      `Compact(p)` has finalized, whatever values `s` follow. */
  lemma {:induction false} ReduceInvariant(p: seq<Cell>, s: seq<int>)
    ensures Merge(Compact(p) + s) == Reduce(p).result + Merge(Pending(Reduce(p)) + s)
    ensures MergeGain(Compact(p) + s) == Reduce(p).gained + MergeGain(Pending(Reduce(p)) + s)
    decreases |p|
  {
    if |p| == 0 {
      assert Compact(p) + s == s;
      assert Pending(Reduce(p)) + s == s;
    } else {
      var q, x := p[..|p| - 1], p[|p| - 1];
      ReduceInvariant(q, CellValues(x) + s);
      assert Compact(p) + s == Compact(q) + (CellValues(x) + s);
      StepMerge(Reduce(q), x, s);
    }
  }

  lemma {:induction false} MergeShort(v: seq<int>)
    requires |v| < 2
    ensures Merge(v) == v && MergeGain(v) == 0
  {
  }

  /** The fold's output, before padding, is the reference merge of the row's values. */
  lemma {:induction false} ReduceIsMerge(row: seq<Cell>)
    ensures Merge(Compact(row)) == Reduce(row).result + Pending(Reduce(row))
    ensures MergeGain(Compact(row)) == Reduce(row).gained
  {
    ReduceInvariant(row, []);
    assert Compact(row) + [] == Compact(row);
    assert Pending(Reduce(row)) + [] == Pending(Reduce(row));
    MergeShort(Pending(Reduce(row)));
  }

  /** `moveRowLeft` slides the tiles together and merges equal neighbours
      pairwise from the left; `gained` is the sum of the merged values. */
  lemma {:induction false} MoveRowLeftIsReference(row: seq<Cell>)
    ensures MoveRowLeft(row).result == Pad(Merge(Compact(row)), |row|)
    ensures MoveRowLeft(row).gained == MergeGain(Compact(row))
  {
    ReduceIsMerge(row);
    var r := MoveRowLeft(row).result;
    var p := Pad(Merge(Compact(row)), |row|);
    forall i | 0 <= i < |row| ensures r[i] == p[i] {
    }
  }

  // ---------------------------------------------------------------------
  // Properties of the reference collapse

  lemma {:induction false} MergeLength(v: seq<int>)
    ensures |Merge(v)| <= |v| <= 2 * |Merge(v)|
  {
    if |v| >= 2 {
      if v[0] == v[1] { MergeLength(v[2..]); } else { MergeLength(v[1..]); }
    }
  }

  lemma {:induction false} MergeSum(v: seq<int>)
    ensures Sum(Merge(v)) == Sum(v)
  {
    if |v| >= 2 {
      if v[0] == v[1] {
        MergeSum(v[2..]);
        assert v[1..][1..] == v[2..];
      } else {
        MergeSum(v[1..]);
      }
      SumConcat([Merge(v)[0]], Merge(v)[1..]);
    }
  }

  /** Without equal neighbours nothing merges and nothing is gained. */
  lemma {:induction false} MergeNoNeighbours(v: seq<int>)
    requires !HasEqualNeighbours(v)
    ensures Merge(v) == v && MergeGain(v) == 0
  {
    if |v| >= 2 {
      assert v[0] != v[1];
      assert !HasEqualNeighbours(v[1..]) by {
        forall i | 0 <= i < |v[1..]| - 1 ensures v[1..][i] != v[1..][i + 1] {
          assert v[1..][i] == v[i + 1] && v[1..][i + 1] == v[i + 2];
        }
      }
      MergeNoNeighbours(v[1..]);
      assert v == [v[0]] + v[1..];
    }
  }

  /** With equal neighbours at least one merge happens, so the row shrinks. */
  lemma {:induction false} MergeShrinks(v: seq<int>)
    requires HasEqualNeighbours(v)
    ensures |Merge(v)| < |v|
  {
    var i :| 0 <= i < |v| - 1 && v[i] == v[i + 1];
    if v[0] == v[1] {
      MergeLength(v[2..]);
    } else {
      assert i > 0;
      assert v[1..][i - 1] == v[1..][i];
      MergeShrinks(v[1..]);
    }
  }

  /** The gain of positive values is non-negative, and positive exactly when a merge happened. */
  lemma {:induction false} MergeGainSign(v: seq<int>)
    requires AllPositive(v)
    ensures MergeGain(v) >= 0
    ensures MergeGain(v) > 0 <==> HasEqualNeighbours(v)
  {
    if |v| >= 2 {
      var t := if v[0] == v[1] then v[2..] else v[1..];
      assert AllPositive(t) by {
        forall i | 0 <= i < |t| ensures t[i] > 0 {
          assert t[i] == v[i + |v| - |t|];
        }
      }
      MergeGainSign(t);
      if v[0] != v[1] {
        if HasEqualNeighbours(v) {
          var i :| 0 <= i < |v| - 1 && v[i] == v[i + 1];
          assert i > 0 && t[i - 1] == t[i];
        }
        if HasEqualNeighbours(t) {
          var i :| 0 <= i < |t| - 1 && t[i] == t[i + 1];
          assert v[i + 1] == v[i + 2];
        }
      }
    } else {
      assert !HasEqualNeighbours(v);
    }
  }

  lemma {:induction false} RowMassIsSum(row: seq<Cell>)
    ensures RowMass(row) == Sum(Compact(row))
  {
    if |row| > 0 {
      var q, x := row[..|row| - 1], row[|row| - 1];
      RowMassIsSum(q);
      SumConcat(Compact(q), CellValues(x));
    }
  }

  lemma {:induction false} CompactPad(v: seq<int>, n: nat)
    requires |v| <= n
    ensures Compact(Pad(v, n)) == v
  {
    if n > 0 {
      var row := Pad(v, n);
      var v' := if |v| == n then v[..n - 1] else v;
      assert row[..n - 1] == Pad(v', n - 1);
      CompactPad(v', n - 1);
      assert Compact(row) == v' + CellValues(row[n - 1]);
      if |v| == n {
        assert CellValues(row[n - 1]) == [v[n - 1]];
        assert v == v[..n - 1] + [v[n - 1]];
      } else {
        assert CellValues(row[n - 1]) == [];
      }
    }
  }

  lemma {:induction false} PackedIsPad(row: seq<Cell>)
    requires IsPacked(row)
    ensures row == Pad(Compact(row), |row|)
  {
    if |row| > 0 {
      var q, x := row[..|row| - 1], row[|row| - 1];
      assert IsPacked(q);
      PackedIsPad(q);
      CompactLength(q);
      if x.Some? {
        assert forall i :: 0 <= i < |q| ==> q[i].Some?;
        AllPresent(q);
      }
      var p := Pad(Compact(row), |row|);
      forall i | 0 <= i < |row| ensures row[i] == p[i] {
        if i < |q| { assert row[i] == q[i]; }
      }
    }
  }

  lemma {:induction false} AllPresent(row: seq<Cell>)
    requires forall i :: 0 <= i < |row| ==> row[i].Some?
    ensures |Compact(row)| == |row|
  {
    if |row| > 0 { AllPresent(row[..|row| - 1]); }
  }

  /** The values of a row whose tiles are positive are positive. */
  lemma {:induction false} CompactPositive(row: seq<Cell>)
    requires forall j :: 0 <= j < |row| && row[j].Some? ==> row[j].value > 0
    ensures AllPositive(Compact(row))
  {
    if |row| > 0 { CompactPositive(row[..|row| - 1]); }
  }

  // ---------------------------------------------------------------------
  // Properties of moveRowLeft

  /** The result has the row's length and every tile comes before every empty cell. */
  lemma {:induction false} MoveRowLeftPacked(row: seq<Cell>)
    ensures |MoveRowLeft(row).result| == |row|
    ensures IsPacked(MoveRowLeft(row).result)
  {
    MoveRowLeftIsReference(row);
  }

  /** Collapsing conserves the sum of the tile values. */
  lemma {:induction false} MoveRowLeftConservesMass(row: seq<Cell>)
    ensures RowMass(MoveRowLeft(row).result) == RowMass(row)
  {
    MoveRowLeftIsReference(row);
    var v := Merge(Compact(row));
    MergeLength(Compact(row));
    CompactLength(row);
    CompactPad(v, |row|);
    RowMassIsSum(row);
    RowMassIsSum(Pad(v, |row|));
    MergeSum(Compact(row));
  }

  /** For positive tiles the gain is non-negative, and it is zero exactly when no merge happens. */
  lemma {:induction false} MoveRowLeftGain(row: seq<Cell>)
    requires AllPositive(Compact(row))
    ensures MoveRowLeft(row).gained >= 0
    ensures MoveRowLeft(row).gained == 0 <==> !HasEqualNeighbours(Compact(row))
  {
    MoveRowLeftIsReference(row);
    MergeGainSign(Compact(row));
  }

  /** A row does not move exactly when it is already packed and no two
      neighbouring tiles are equal. */
  lemma {:induction false} MoveRowLeftStable(row: seq<Cell>)
    ensures !MoveRowLeft(row).isMoved <==> IsPacked(row) && !HasEqualNeighbours(Compact(row))
  {
    MoveRowLeftIsReference(row);
    var c := Compact(row);
    CompactLength(row);
    MergeLength(c);
    if IsPacked(row) && !HasEqualNeighbours(c) {
      PackedIsPad(row);
      MergeNoNeighbours(c);
    }
    if !MoveRowLeft(row).isMoved {
      assert row == Pad(Merge(c), |row|);
      CompactPad(Merge(c), |row|);
      if HasEqualNeighbours(c) {
        MergeShrinks(c);
        assert false;
      }
    }
  }

  /** Collapsing a collapsed row again changes nothing exactly when the first
      collapse left no equal neighbours: merges do not cascade within one
      move, so a second move may merge again. */
  lemma {:induction false} MoveRowLeftTwice(row: seq<Cell>)
    ensures var once := MoveRowLeft(row).result;
            !MoveRowLeft(once).isMoved <==> !HasEqualNeighbours(Merge(Compact(row)))
  {
    var once := MoveRowLeft(row).result;
    MoveRowLeftIsReference(row);
    MoveRowLeftPacked(row);
    MergeLength(Compact(row));
    CompactLength(row);
    CompactPad(Merge(Compact(row)), |row|);
    MoveRowLeftStable(once);
  }

  // ---------------------------------------------------------------------
  // Concrete rows

  /** `[4, 2, 2, null]` becomes `[4, 4, null, null]`: the merged 4 does not merge again. */
  lemma NoCascade()
    ensures MoveRowLeft([Some(4), Some(2), Some(2), None])
         == RowResult([Some(4), Some(4), None, None], true, 4)
  {
    NoCascadeReduces();
  }

  lemma NoCascadeReduces()
    ensures Reduce([Some(4), Some(2), Some(2), None]) == Acc(None, [4, 4], 4)
  {
    assert [Some(4)][..0] == [];
    assert Reduce([Some(4)]) == Acc(Some(4), [], 0);
    assert [Some(4), Some(2)][..1] == [Some(4)];
    assert Reduce([Some(4), Some(2)]) == Acc(Some(2), [4], 0);
    assert [Some(4), Some(2), Some(2)][..2] == [Some(4), Some(2)];
    assert Reduce([Some(4), Some(2), Some(2)]) == Acc(None, [4, 4], 4);
    assert [Some(4), Some(2), Some(2), None][..3] == [Some(4), Some(2), Some(2)];
  }

  /** `[2, 2, 2, 2]` becomes `[4, 4, null, null]` and gains 8. */
  lemma TwoPairs()
    ensures MoveRowLeft([Some(2), Some(2), Some(2), Some(2)])
         == RowResult([Some(4), Some(4), None, None], true, 8)
  {
    TwoPairsReduces();
  }

  lemma TwoPairsReduces()
    ensures Reduce([Some(2), Some(2), Some(2), Some(2)]) == Acc(None, [4, 4], 8)
  {
    assert [Some(2)][..0] == [];
    assert Reduce([Some(2)]) == Acc(Some(2), [], 0);
    assert [Some(2), Some(2)][..1] == [Some(2)];
    assert Reduce([Some(2), Some(2)]) == Acc(None, [4], 4);
    assert [Some(2), Some(2), Some(2)][..2] == [Some(2), Some(2)];
    assert Reduce([Some(2), Some(2), Some(2)]) == Acc(Some(2), [4], 4);
    assert [Some(2), Some(2), Some(2), Some(2)][..3] == [Some(2), Some(2), Some(2)];
  }

  /** Empty cells are skipped: `[2, null, 2, null]` becomes `[4, null, null, null]`. */
  lemma GapMerges()
    ensures MoveRowLeft([Some(2), None, Some(2), None])
         == RowResult([Some(4), None, None, None], true, 4)
  {
    GapMergesReduces();
  }

  lemma GapMergesReduces()
    ensures Reduce([Some(2), None, Some(2), None]) == Acc(None, [4], 4)
  {
    assert [Some(2)][..0] == [];
    assert Reduce([Some(2)]) == Acc(Some(2), [], 0);
    assert [Some(2), None][..1] == [Some(2)];
    assert Reduce([Some(2), None]) == Acc(Some(2), [], 0);
    assert [Some(2), None, Some(2)][..2] == [Some(2), None];
    assert Reduce([Some(2), None, Some(2)]) == Acc(None, [4], 4);
    assert [Some(2), None, Some(2), None][..3] == [Some(2), None, Some(2)];
  }

  /** An all-empty row does not move and gains nothing. */
  lemma {:induction false} EmptyRowStays(n: nat)
    ensures MoveRowLeft(seq(n, _ => None)) == RowResult(seq(n, _ => None), false, 0)
  {
    var row: seq<Cell> := seq(n, _ => None);
    assert Compact(row) == [] by { NoneCompact(n); }
    MoveRowLeftIsReference(row);
    assert Pad([], n) == row;
  }

  lemma {:induction false} NoneCompact(n: nat)
    ensures Compact(seq(n, _ => None)) == []
  {
    if n > 0 {
      var row: seq<Cell> := seq(n, _ => None);
      assert row[..n - 1] == seq(n - 1, _ => None);
      NoneCompact(n - 1);
    }
  }

  /** Moving a collapsed row again is not always a no-op: `[2, 2, 4]` gives
      `[4, 4, null]`, which merges again into `[8, null, null]`. */
  lemma SecondMoveMayMerge()
    ensures MoveRowLeft([Some(2), Some(2), Some(4)]).result == [Some(4), Some(4), None]
    ensures MoveRowLeft([Some(4), Some(4), None]) == RowResult([Some(8), None, None], true, 8)
  {
    FirstMoveReduces();
    SecondMoveReduces();
  }

  lemma FirstMoveReduces()
    ensures Reduce([Some(2), Some(2), Some(4)]) == Acc(Some(4), [4], 4)
  {
    assert [Some(2)][..0] == [];
    assert Reduce([Some(2)]) == Acc(Some(2), [], 0);
    assert [Some(2), Some(2)][..1] == [Some(2)];
    assert Reduce([Some(2), Some(2)]) == Acc(None, [4], 4);
    assert [Some(2), Some(2), Some(4)][..2] == [Some(2), Some(2)];
  }

  lemma SecondMoveReduces()
    ensures Reduce([Some(4), Some(4), None]) == Acc(None, [8], 8)
  {
    assert [Some(4)][..0] == [];
    assert Reduce([Some(4)]) == Acc(Some(4), [], 0);
    assert [Some(4), Some(4)][..1] == [Some(4)];
    assert Reduce([Some(4), Some(4)]) == Acc(None, [8], 8);
    assert [Some(4), Some(4), None][..2] == [Some(4), Some(4)];
  }
}
