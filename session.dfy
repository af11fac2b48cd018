/** The session layer of src/hooks/useGame.ts without React: board helpers,
    tile spawning with the random choices passed in, and a `Game` object
    holding the `map` (here `board`) and `over` state that `doMove` and `reset` update. */
module Session {
  import opened Board
  import opened Rotation
  import opened MoveEngine

  /** A cell coordinate `{ r, c }`. */
  datatype Pos = Pos(r: nat, c: nat)

  /** `createEmptyMap(rows, cols)`. */
  function CreateEmptyMap(rows: nat, cols: nat): (b: Map2048)
    ensures HasDims(b, rows, cols)
    ensures forall i, j :: 0 <= i < rows && 0 <= j < cols ==> b[i][j].None?
  {
    seq(rows, _ => seq(cols, _ => None))
  }

  /** The number of columns `getEmptyCells` scans: `map[0].length`, read only
      when the board has a row. */
  function Width(b: Map2048): nat
  {
    if |b| == 0 then 0 else |b[0]|
  }

  /** Reading `map[r][c]` past the end of a row gives `undefined`, which is not `null`. */
  predicate IsEmptyAt(b: Map2048, p: Pos)
  {
    p.r < |b| && p.c < Width(b) && p.c < |b[p.r]| && b[p.r][p.c].None?
  }

  /** The empty cells among the first `w` cells of `row`, which is row `r`. */
  function RowEmpties(row: seq<Cell>, r: nat, w: nat): (ps: seq<Pos>)
    ensures forall k :: 0 <= k < |ps| ==>
              ps[k].r == r && ps[k].c < w && ps[k].c < |row| && row[ps[k].c].None?
  {
    if w == 0 then []
    else RowEmpties(row, r, w - 1) + (if w - 1 < |row| && row[w - 1].None? then [Pos(r, w - 1)] else [])
  }

  /** The empty cells of the rows of `b`, `w` columns wide, row by row. */
  function EmptyRows(b: Map2048, w: nat): (ps: seq<Pos>)
    ensures forall k :: 0 <= k < |ps| ==>
              ps[k].r < |b| && ps[k].c < w && ps[k].c < |b[ps[k].r]| && b[ps[k].r][ps[k].c].None?
  {
    if |b| == 0 then []
    else EmptyRows(b[..|b| - 1], w) + RowEmpties(b[|b| - 1], |b| - 1, w)
  }

  /** What `getEmptyCells` returns. */
  function EmptyCells(b: Map2048): (ps: seq<Pos>)
    ensures forall k :: 0 <= k < |ps| ==> IsEmptyAt(b, ps[k])
  {
    EmptyRows(b, Width(b))
  }

  /** `getEmptyCells`: the nested loops over rows and columns. */
  method GetEmptyCells(b: Map2048) returns (cells: seq<Pos>)
    ensures cells == EmptyCells(b)
  {
    cells := [];
    var r := 0;
    while r < |b|
      invariant 0 <= r <= |b|
      invariant cells == EmptyRows(b[..r], Width(b))
    {
      var c := 0;
      while c < |b[0]|
        invariant 0 <= c <= |b[0]| == Width(b)
        invariant cells == EmptyRows(b[..r], Width(b)) + RowEmpties(b[r], r, c)
      {
        if c < |b[r]| && b[r][c] == None {
          cells := cells + [Pos(r, c)];
        }
        c := c + 1;
      }
      NextRow(b, r);
      r := r + 1;
    }
    assert b[..|b|] == b;
  }

  lemma {:induction false} NextRow(b: Map2048, r: nat)
    requires r < |b|
    ensures EmptyRows(b[..r + 1], Width(b)) == EmptyRows(b[..r], Width(b)) + RowEmpties(b[r], r, Width(b))
  {
    assert b[..r + 1][..r] == b[..r];
  }

  // ---------------------------------------------------------------------
  // What the empty-cell list contains

  lemma {:induction false} RowEmptiesComplete(row: seq<Cell>, r: nat, w: nat, c: nat)
    requires c < w && c < |row| && row[c].None?
    ensures Pos(r, c) in RowEmpties(row, r, w)
  {
    if c < w - 1 { RowEmptiesComplete(row, r, w - 1, c); }
  }

  lemma {:induction false} EmptyRowsComplete(b: Map2048, w: nat, p: Pos)
    requires p.r < |b| && p.c < w && p.c < |b[p.r]| && b[p.r][p.c].None?
    ensures p in EmptyRows(b, w)
  {
    if p.r < |b| - 1 {
      EmptyRowsComplete(b[..|b| - 1], w, p);
    } else {
      RowEmptiesComplete(b[|b| - 1], p.r, w, p.c);
    }
  }

  /** `p` comes before `q` in row-major order. */
  predicate Before(p: Pos, q: Pos)
  {
    p.r < q.r || (p.r == q.r && p.c < q.c)
  }

  predicate RowMajor(ps: seq<Pos>)
  {
    forall k, l :: 0 <= k < l < |ps| ==> Before(ps[k], ps[l])
  }

  lemma {:induction false} RowEmptiesOrdered(row: seq<Cell>, r: nat, w: nat)
    ensures RowMajor(RowEmpties(row, r, w))
  {
    if w > 0 { RowEmptiesOrdered(row, r, w - 1); }
  }

  lemma {:induction false} EmptyRowsOrdered(b: Map2048, w: nat)
    ensures RowMajor(EmptyRows(b, w))
  {
    if |b| > 0 {
      EmptyRowsOrdered(b[..|b| - 1], w);
      RowEmptiesOrdered(b[|b| - 1], |b| - 1, w);
    }
  }

  /** `getEmptyCells` lists exactly the empty cells, each once, in row-major order. */
  lemma {:induction false} EmptyCellsExact(b: Map2048)
    ensures forall p :: p in EmptyCells(b) <==> IsEmptyAt(b, p)
    ensures RowMajor(EmptyCells(b))
  {
    forall p | IsEmptyAt(b, p) ensures p in EmptyCells(b) {
      EmptyRowsComplete(b, Width(b), p);
    }
    EmptyRowsOrdered(b, Width(b));
  }

  // ---------------------------------------------------------------------
  // How many cells are empty

  lemma {:induction false} RowEmptiesAllEmpty(row: seq<Cell>, r: nat, w: nat)
    requires w <= |row| && forall c :: 0 <= c < |row| ==> row[c].None?
    ensures |RowEmpties(row, r, w)| == w
  {
    if w > 0 { RowEmptiesAllEmpty(row, r, w - 1); }
  }

  lemma {:induction false} EmptyRowsAllEmpty(b: Map2048, n: nat, w: nat)
    requires HasDims(b, n, w) && forall i, j :: 0 <= i < n && 0 <= j < w ==> b[i][j].None?
    ensures |EmptyRows(b, w)| == n * w
  {
    if n > 0 {
      var front := b[..n - 1];
      assert HasDims(front, n - 1, w);
      EmptyRowsAllEmpty(front, n - 1, w);
      RowEmptiesAllEmpty(b[n - 1], n - 1, w);
      assert |EmptyRows(b, w)| == |EmptyRows(front, w)| + |RowEmpties(b[n - 1], n - 1, w)|;
      OneMoreRow(n - 1, w);
    }
  }

  lemma OneMoreRow(k: nat, w: nat)
    ensures k * w + w == (k + 1) * w
  {
  }

  /** A fresh `rows` x `cols` board has `rows * cols` empty cells. */
  lemma {:induction false} EmptyMapCount(rows: nat, cols: nat)
    ensures |EmptyCells(CreateEmptyMap(rows, cols))| == rows * cols
  {
    EmptyRowsAllEmpty(CreateEmptyMap(rows, cols), rows, cols);
  }

  /** Filling one empty cell of a row removes one entry from its empties when it is scanned. */
  lemma {:induction false} RowEmptiesFill(row: seq<Cell>, r: nat, w: nat, c: nat, x: int)
    requires c < |row| && row[c].None?
    ensures |RowEmpties(row[c := Some(x)], r, w)| == |RowEmpties(row, r, w)| - (if c < w then 1 else 0)
  {
    if w > 0 { RowEmptiesFill(row, r, w - 1, c, x); }
  }

  lemma {:induction false} EmptyRowsFill(b: Map2048, w: nat, p: Pos, x: int)
    requires p.r < |b| && p.c < w && p.c < |b[p.r]| && b[p.r][p.c].None?
    ensures |EmptyRows(SetCell(b, p, x), w)| == |EmptyRows(b, w)| - 1
  {
    var b' := SetCell(b, p, x);
    var n := |b|;
    var last, last' := RowEmpties(b[n - 1], n - 1, w), RowEmpties(b'[n - 1], n - 1, w);
    assert |EmptyRows(b, w)| == |EmptyRows(b[..n - 1], w)| + |last|;
    assert |EmptyRows(b', w)| == |EmptyRows(b'[..n - 1], w)| + |last'|;
    if p.r < n - 1 {
      assert b'[..n - 1] == SetCell(b[..n - 1], p, x);
      assert b'[n - 1] == b[n - 1];
      EmptyRowsFill(b[..n - 1], w, p, x);
    } else {
      assert b'[..n - 1] == b[..n - 1];
      assert b'[n - 1] == b[n - 1][p.c := Some(x)];
      RowEmptiesFill(b[n - 1], n - 1, w, p.c, x);
    }
  }

  // ---------------------------------------------------------------------
  // Spawning a tile

  /** `next[r][c] = value` on a copy of the rows. */
  function SetCell(b: Map2048, p: Pos, value: int): (b': Map2048)
    requires p.r < |b| && p.c < |b[p.r]|
    ensures |b'| == |b| && forall i :: 0 <= i < |b| ==> |b'[i]| == |b[i]|
  {
    b[p.r := b[p.r][p.c := Some(value)]]
  }

  /** The random index `Math.floor(Math.random() * empty.length)` is below the
      number of empty cells whenever there is one. */
  predicate PickFits(b: Map2048, pick: nat)
  {
    |EmptyCells(b)| == 0 || pick < |EmptyCells(b)|
  }

  /** A spawned tile is 2 or 4. */
  predicate IsSpawnValue(v: int)
  {
    v == 2 || v == 4
  }

  /** The board `spawnRandomTile` returns, for a given random index and value. */
  function SpawnTile(b: Map2048, pick: nat, value: int): (next: Map2048)
    requires PickFits(b, pick)
    ensures |next| == |b| && forall i :: 0 <= i < |b| ==> |next[i]| == |b[i]|
  {
    var empty := EmptyCells(b);
    if |empty| == 0 then b else SetCell(b, empty[pick], value)
  }

  /** `spawnRandomTile`, with the two random draws passed in as `pick` and `value`. */
  method SpawnRandomTile(b: Map2048, pick: nat, value: int) returns (next: Map2048)
    requires IsSpawnValue(value) && PickFits(b, pick)
    ensures next == SpawnTile(b, pick, value)
  {
    var empty := GetEmptyCells(b);
    if |empty| == 0 {
      return b;
    }
    var p := empty[pick];
    next := b;
    next := next[p.r := next[p.r][p.c := Some(value)]];
  }

  /** Without an empty cell nothing is spawned. Otherwise exactly the chosen
      empty cell receives the value and every other cell stays as it was. */
  lemma {:induction false} SpawnTileEffect(b: Map2048, pick: nat, value: int)
    requires PickFits(b, pick)
    ensures EmptyCells(b) == [] ==> SpawnTile(b, pick, value) == b
    ensures EmptyCells(b) != [] ==>
              var p, next := EmptyCells(b)[pick], SpawnTile(b, pick, value);
              && IsEmptyAt(b, p)
              && next[p.r][p.c] == Some(value)
              && |next| == |b| && (forall i :: 0 <= i < |b| ==> |next[i]| == |b[i]|)
              && (forall i, j :: 0 <= i < |b| && 0 <= j < |b[i]| && Pos(i, j) != p ==> next[i][j] == b[i][j])
              && |EmptyCells(next)| == |EmptyCells(b)| - 1
  {
    if EmptyCells(b) != [] {
      var p := EmptyCells(b)[pick];
      assert IsEmptyAt(b, p);
      var next := SetCell(b, p, value);
      assert Width(next) == Width(b);
      EmptyRowsFill(b, Width(b), p, value);
    }
  }

  /** A grid without empty cells is returned unchanged. */
  lemma {:induction false} SpawnOnFullBoard(b: Map2048, pick: nat, value: int)
    requires forall i, j :: 0 <= i < |b| && 0 <= j < |b[i]| ==> b[i][j].Some?
    ensures PickFits(b, pick) && SpawnTile(b, pick, value) == b
  {
    var empty := EmptyCells(b);
    assert |empty| > 0 ==> IsEmptyAt(b, empty[0]);
  }

  // ---------------------------------------------------------------------
  // The starting board and the end condition

  /** The board holds tiles of 2 or 4 at `p1` and `p2` and nothing else. */
  predicate StartTilesAt(m: Map2048, p1: Pos, p2: Pos)
  {
    && p1 != p2
    && p1.r < |m| && p1.c < |m[p1.r]| && p2.r < |m| && p2.c < |m[p2.r]|
    && m[p1.r][p1.c].Some? && IsSpawnValue(m[p1.r][p1.c].value)
    && m[p2.r][p2.c].Some? && IsSpawnValue(m[p2.r][p2.c].value)
    && forall i, j :: 0 <= i < |m| && 0 <= j < |m[i]| && Pos(i, j) != p1 && Pos(i, j) != p2 ==> m[i][j].None?
  }

  /** `initMap`: an empty 4 x 4 board with two tiles spawned on it. The first
      spawn chooses among 16 empty cells, the second among the 15 left. */
  method InitMap(pick1: nat, value1: int, pick2: nat, value2: int) returns (m: Map2048)
    requires pick1 < 16 && pick2 < 15 && IsSpawnValue(value1) && IsSpawnValue(value2)
    ensures HasDims(m, 4, 4)
    ensures exists p1, p2 :: StartTilesAt(m, p1, p2)
  {
    var e := CreateEmptyMap(4, 4);
    m := e;
    EmptyMapCount(4, 4);
    SpawnTileEffect(m, pick1, value1);
    var p1 := EmptyCells(m)[pick1];
    m := SpawnRandomTile(m, pick1, value1);
    var m1 := m;
    SpawnTileEffect(m, pick2, value2);
    var p2 := EmptyCells(m)[pick2];
    assert IsEmptyAt(m1, p2);
    m := SpawnRandomTile(m, pick2, value2);
    assert StartTilesAt(m, p1, p2) by {
      forall i, j | 0 <= i < 4 && 0 <= j < 4 && Pos(i, j) != p1 && Pos(i, j) != p2
        ensures m[i][j].None?
      {
        assert m[i][j] == m1[i][j] && m1[i][j] == e[i][j];
      }
    }
  }

  /** `row.some((v) => v === 128)`. */
  function RowHas128(row: seq<Cell>): (r: bool)
    ensures r <==> exists j :: 0 <= j < |row| && row[j] == Some(128)
  {
    |row| > 0 && (row[0] == Some(128) || RowHas128(row[1..]))
  }

  /** `has128`: some row has a cell equal to 128. */
  function Has128(b: Map2048): (r: bool)
    ensures r <==> exists i, j :: 0 <= i < |b| && 0 <= j < |b[i]| && b[i][j] == Some(128)
  {
    |b| > 0 && (RowHas128(b[0]) || Has128(b[1..]))
  }

  lemma {:induction false} StartBoardBelow128(m: Map2048, p1: Pos, p2: Pos)
    requires StartTilesAt(m, p1, p2)
    ensures !Has128(m)
  {
  }

  // ---------------------------------------------------------------------
  // The session

  /** A move on a grid with at least one column always has a result of the same size. */
  lemma {:induction false} GridMoves(b: Map2048, dir: Direction)
    requires HasDims(b, 4, 4)
    ensures MoveMapIn2048Rule(b, dir).Success?
    ensures HasDims(MoveMapIn2048Rule(b, dir).value.result, 4, 4)
    ensures IsEffective(b, dir) <==> MoveMapIn2048Rule(b, dir).value.isMoved
  {
    assert IsGrid(b) && Reversible(b, RotateDegree(dir));
  }

  lemma SpawnKeepsSize(b: Map2048, pick: nat, value: int)
    requires HasDims(b, 4, 4) && PickFits(b, pick)
    ensures HasDims(SpawnTile(b, pick, value), 4, 4)
  {
  }

  /** The move reached `moveMapIn2048Rule` with a result and reported a change. */
  predicate IsEffective(b: Map2048, dir: Direction)
  {
    MoveMapIn2048Rule(b, dir).Success? && MoveMapIn2048Rule(b, dir).value.isMoved
  }

  /** The `map` and `over` state of `useGame`. Restoring it from storage is
      not modelled, so a game starts from `initMap`. */
  class Game {
    /** The `map` state. */
    var board: Map2048
    var over: bool

    /** The board stays 4 x 4, and the game is over exactly when a 128 tile is on it. */
    predicate Valid()
      reads this
    {
      HasDims(board, 4, 4) && (over <==> Has128(board))
    }

    constructor (pick1: nat, value1: int, pick2: nat, value2: int)
      requires pick1 < 16 && pick2 < 15 && IsSpawnValue(value1) && IsSpawnValue(value2)
      ensures Valid() && !over
      ensures exists p1, p2 :: StartTilesAt(board, p1, p2)
    {
      var m := InitMap(pick1, value1, pick2, value2);
      board := m;
      over := false;
      var p1, p2 :| StartTilesAt(m, p1, p2);
      StartBoardBelow128(m, p1, p2);
    }

    /** `doMove`: ignored once the game is over or when nothing moved;
        otherwise a tile is spawned on the moved board, and the game ends
        when that board holds a 128. */
    method DoMove(dir: Direction, pick: nat, value: int)
      requires Valid() && IsSpawnValue(value)
      requires !over && IsEffective(board, dir) ==> PickFits(MoveMapIn2048Rule(board, dir).value.result, pick)
      modifies this
      ensures Valid()
      ensures old(over) || !IsEffective(old(board), dir) ==> board == old(board) && over == old(over)
      ensures !old(over) && IsEffective(old(board), dir) ==>
                board == SpawnTile(MoveMapIn2048Rule(old(board), dir).value.result, pick, value)
                && over == Has128(board)
    {
      if over {
        return;
      }
      var current := board;
      var res := MoveMapIn2048Rule(current, dir);
      GridMoves(current, dir);
      if !res.value.isMoved {
        return;
      }
      var spawned := SpawnRandomTile(res.value.result, pick, value);
      SpawnKeepsSize(res.value.result, pick, value);
      board := spawned;
      if Has128(spawned) {
        over := true;
      }
    }

    /** `reset`: a new starting board, and the game is no longer over. */
    method Reset(pick1: nat, value1: int, pick2: nat, value2: int)
      requires pick1 < 16 && pick2 < 15 && IsSpawnValue(value1) && IsSpawnValue(value2)
      modifies this
      ensures Valid() && !over
      ensures exists p1, p2 :: StartTilesAt(board, p1, p2)
    {
      var m := InitMap(pick1, value1, pick2, value2);
      board := m;
      over := false;
      var p1, p2 :| StartTilesAt(m, p1, p2);
      StartBoardBelow128(m, p1, p2);
    }
  }
}
