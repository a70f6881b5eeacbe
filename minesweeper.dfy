/** The Minesweeper engine: the difficulty presets, a grid of cells, mine
    placement around the first click, neighbour counts, the flood reveal, the
    win and loss rules, flags with their counter, and the three-digit displays. */
module Minesweeper {
  import opened Numerals


  datatype Cell = Cell(isMine: bool, isRevealed: bool, isFlagged: bool, adjacentMines: int)

  datatype GameState = Playing | Won | Lost

  datatype Difficulty = Beginner | Intermediate | Expert

  datatype Preset = Preset(rows: nat, cols: nat, mines: nat)

  /** The three board sizes and their mine counts. */
  function PresetOf(d: Difficulty): (p: Preset)
    ensures p.mines + 9 <= p.rows * p.cols
  {
    match d
    case Beginner => Preset(8, 8, 10)
    case Intermediate => Preset(16, 16, 40)
    case Expert => Preset(16, 30, 99)
  }

  /** Rows of cells; row `r`, column `c` is `g[r][c]`. */
  type Grid = seq<seq<Cell>>

  const Blank: Cell := Cell(false, false, false, 0)

  predicate Shaped(g: Grid, rows: int, cols: int)
  {
    |g| == rows && forall i :: 0 <= i < |g| ==> |g[i]| == cols
  }

  predicate InBounds(g: Grid, r: int, c: int)
  {
    0 <= r < |g| && 0 <= c < |g[r]|
  }

  function Abs(n: int): nat { if n < 0 then -n else n }

  /** (r2, c2) lies in the 3×3 block centred on (r, c), the centre included. */
  predicate Near(r: int, c: int, r2: int, c2: int)
  {
    Abs(r2 - r) <= 1 && Abs(c2 - c) <= 1
  }

  /** A fresh board: every cell hidden, unflagged, mine-free, with count 0. */
  function NewGrid(rows: nat, cols: nat): (g: Grid)
    ensures Shaped(g, rows, cols)
    ensures forall r, c :: InBounds(g, r, c) ==> g[r][c] == Blank
  {
    seq(rows, _ => seq(cols, _ => Blank))
  }

  // ---------------------------------------------------------------- counts

  /** 1 when (r, c) is on the board and holds a mine. */
  function MineAt(g: Grid, r: int, c: int): nat
  {
    if InBounds(g, r, c) && g[r][c].isMine then 1 else 0
  }

  /** Mines in row `row` at columns `c - 1` up to `c - 2 + k`: the first `k`
      steps of the inner neighbour loop. */
  function RowSum(g: Grid, row: int, c: int, k: nat): nat
    requires k <= 3
  {
    if k == 0 then 0 else RowSum(g, row, c, k - 1) + MineAt(g, row, c + k - 2)
  }

  /** Mines in the first `j` rows of the 3×3 block: the first `j` steps of the outer loop. */
  function BlockSum(g: Grid, r: int, c: int, j: nat): nat
    requires j <= 3
  {
    if j == 0 then 0 else BlockSum(g, r, c, j - 1) + RowSum(g, r + j - 2, c, 3)
  }

  /** The number of on-board mines in the 3×3 block around (r, c). For a cell
      without a mine this is the number of mines among its eight neighbours. */
  function AdjCount(g: Grid, r: int, c: int): nat
  {
    BlockSum(g, r, c, 3)
  }

  predicate SameShape(g1: Grid, g2: Grid)
  {
    |g1| == |g2| && forall i :: 0 <= i < |g1| ==> |g1[i]| == |g2[i]|
  }

  /** Two boards of the same shape with the mines in the same cells. */
  ghost predicate SameMines(g1: Grid, g2: Grid)
  {
    SameShape(g1, g2) && forall r, c :: InBounds(g1, r, c) ==> g1[r][c].isMine == g2[r][c].isMine
  }

  /** No mine lies in the 3×3 block around (r, c). */
  ghost predicate NoMineNear(g: Grid, r: int, c: int)
  {
    forall r2, c2 :: InBounds(g, r2, c2) && Near(r, c, r2, c2) ==> !g[r2][c2].isMine
  }

  lemma {:induction false} RowSumSame(g1: Grid, g2: Grid, row: int, c: int, k: nat)
    requires SameMines(g1, g2) && k <= 3
    ensures RowSum(g1, row, c, k) == RowSum(g2, row, c, k)
  {
    if k > 0 {
      RowSumSame(g1, g2, row, c, k - 1);
      assert MineAt(g1, row, c + k - 2) == MineAt(g2, row, c + k - 2);
    }
  }

  lemma {:induction false} BlockSumSame(g1: Grid, g2: Grid, r: int, c: int, j: nat)
    requires SameMines(g1, g2) && j <= 3
    ensures BlockSum(g1, r, c, j) == BlockSum(g2, r, c, j)
  {
    if j > 0 {
      BlockSumSame(g1, g2, r, c, j - 1);
      RowSumSame(g1, g2, r + j - 2, c, 3);
    }
  }

  /** A count depends on nothing but where the mines are. */
  lemma AdjCountSame(g1: Grid, g2: Grid, r: int, c: int)
    requires SameMines(g1, g2)
    ensures AdjCount(g1, r, c) == AdjCount(g2, r, c)
  {
    BlockSumSame(g1, g2, r, c, 3);
  }

  lemma {:induction false} RowSumZero(g: Grid, row: int, c: int, k: nat)
    requires k <= 3
    ensures RowSum(g, row, c, k) == 0 <==> forall c2 :: c - 1 <= c2 <= c + k - 2 ==> MineAt(g, row, c2) == 0
  {
    if k > 0 {
      RowSumZero(g, row, c, k - 1);
      assert RowSum(g, row, c, k) == RowSum(g, row, c, k - 1) + MineAt(g, row, c + k - 2);
    }
  }

  lemma {:induction false} BlockSumZero(g: Grid, r: int, c: int, j: nat)
    requires j <= 3
    ensures BlockSum(g, r, c, j) == 0 <==>
      forall r2, c2 :: r - 1 <= r2 <= r + j - 2 && c - 1 <= c2 <= c + 1 ==> MineAt(g, r2, c2) == 0
  {
    if j > 0 {
      BlockSumZero(g, r, c, j - 1);
      RowSumZero(g, r + j - 2, c, 3);
      assert BlockSum(g, r, c, j) == BlockSum(g, r, c, j - 1) + RowSum(g, r + j - 2, c, 3);
      if BlockSum(g, r, c, j) == 0 {
        forall r2, c2 | r - 1 <= r2 <= r + j - 2 && c - 1 <= c2 <= c + 1 ensures MineAt(g, r2, c2) == 0 {
          if r2 == r + j - 2 {
            assert MineAt(g, r + j - 2, c2) == 0;
          }
        }
      }
    }
  }

  /** A count is zero exactly when no mine lies in the 3×3 block. */
  lemma AdjCountZero(g: Grid, r: int, c: int)
    ensures AdjCount(g, r, c) == 0 <==> NoMineNear(g, r, c)
  {
    BlockSumZero(g, r, c, 3);
    if AdjCount(g, r, c) == 0 {
      forall r2, c2 | InBounds(g, r2, c2) && Near(r, c, r2, c2) ensures !g[r2][c2].isMine {
        assert MineAt(g, r2, c2) == 0;
      }
    } else {
      var r2, c2 :| r - 1 <= r2 <= r + 1 && c - 1 <= c2 <= c + 1 && MineAt(g, r2, c2) != 0;
      assert InBounds(g, r2, c2) && Near(r, c, r2, c2) && g[r2][c2].isMine;
    }
  }

  /** Every cell without a mine carries the count of the mines around it. */
  ghost predicate ValidCounts(g: Grid)
  {
    forall r, c :: InBounds(g, r, c) && !g[r][c].isMine ==> g[r][c].adjacentMines == AdjCount(g, r, c)
  }

  /** Every mine-free cell with count 0 has no mine around it: what the flood
      reveal relies on. */
  ghost predicate ZeroSafe(g: Grid)
  {
    forall r, c :: InBounds(g, r, c) && !g[r][c].isMine && g[r][c].adjacentMines == 0 ==> NoMineNear(g, r, c)
  }

  lemma ValidCountsZeroSafe(g: Grid)
    requires ValidCounts(g)
    ensures ZeroSafe(g)
  {
    forall r, c | InBounds(g, r, c) && !g[r][c].isMine && g[r][c].adjacentMines == 0
      ensures NoMineNear(g, r, c)
    {
      AdjCountZero(g, r, c);
    }
  }

  // ---------------------------------------------------------------- mine placement

  /** The coordinates of every mine on the board. */
  function MineSet(g: Grid): set<(int, int)>
  {
    set r, c | 0 <= r < |g| && 0 <= c < |g[r]| && g[r][c].isMine :: (r, c)
  }

  /** A draw may take a mine when it is on the board, not a mine yet, and
      outside the 3×3 block around the first click. */
  predicate Legal(g: Grid, exR: int, exC: int, p: (int, int))
  {
    InBounds(g, p.0, p.1) && !g[p.0][p.1].isMine && !Near(exR, exC, p.0, p.1)
  }

  /** The distinct legal cells among the draws. */
  function LegalSet(g: Grid, exR: int, exC: int, draws: seq<(int, int)>): set<(int, int)>
  {
    set k | 0 <= k < |draws| && Legal(g, exR, exC, draws[k]) :: draws[k]
  }

  lemma LegalSetSnoc(g: Grid, exR: int, exC: int, draws: seq<(int, int)>, i: nat)
    requires i < |draws|
    ensures LegalSet(g, exR, exC, draws[..i + 1]) ==
      LegalSet(g, exR, exC, draws[..i]) + if Legal(g, exR, exC, draws[i]) then {draws[i]} else {}
  {
    var a, b := draws[..i + 1], draws[..i];
    assert forall k :: 0 <= k < i ==> a[k] == b[k];
    assert a[i] == draws[i];
  }

  lemma MineSetPlace(g: Grid, r: int, c: int)
    requires InBounds(g, r, c)
    ensures MineSet(g[r := g[r][c := g[r][c].(isMine := true)]]) == MineSet(g) + {(r, c)}
  {
    var g' := g[r := g[r][c := g[r][c].(isMine := true)]];
    forall p | p in MineSet(g') ensures p in MineSet(g) + {(r, c)} {
      var r2, c2 :| 0 <= r2 < |g'| && 0 <= c2 < |g'[r2]| && g'[r2][c2].isMine && p == (r2, c2);
      if (r2, c2) != (r, c) {
        assert g[r2][c2] == g'[r2][c2];
      }
    }
    forall p | p in MineSet(g) + {(r, c)} ensures p in MineSet(g') {
      if p != (r, c) {
        var r2, c2 :| 0 <= r2 < |g| && 0 <= c2 < |g[r2]| && g[r2][c2].isMine && p == (r2, c2);
        assert g[r2][c2] == g'[r2][c2];
      } else {
        assert g'[r][c].isMine;
      }
    }
  }

  /** Mines and only mines may differ: reveals, flags and counts are shared. */
  ghost predicate SameButMines(g1: Grid, g2: Grid)
  {
    SameShape(g1, g2) && forall r, c :: InBounds(g1, r, c) ==>
      g1[r][c].isRevealed == g2[r][c].isRevealed && g1[r][c].isFlagged == g2[r][c].isFlagged
      && g1[r][c].adjacentMines == g2[r][c].adjacentMines
  }

  lemma InMineSet(g: Grid, r: int, c: int)
    requires InBounds(g, r, c)
    ensures (r, c) in MineSet(g) <==> g[r][c].isMine
  {
  }

  /** Legal draws are never cells that already hold a mine. */
  lemma LegalDisjoint(g: Grid, exR: int, exC: int, draws: seq<(int, int)>)
    ensures MineSet(g) !! LegalSet(g, exR, exC, draws)
  {
    forall p | p in LegalSet(g, exR, exC, draws) ensures p !in MineSet(g) {
      var k :| 0 <= k < |draws| && Legal(g, exR, exC, draws[k]) && draws[k] == p;
      InMineSet(g, p.0, p.1);
    }
  }

  /** Every legal draw lies outside the block around the first click. */
  lemma LegalOutsideBlock(g: Grid, exR: int, exC: int, draws: seq<(int, int)>, p: (int, int))
    requires p in LegalSet(g, exR, exC, draws)
    ensures !Near(exR, exC, p.0, p.1)
  {
    var k :| 0 <= k < |draws| && Legal(g, exR, exC, draws[k]) && draws[k] == p;
  }

  /** The board with a mine laid at (r, c). */
  function WithMine(g: Grid, r: int, c: int): Grid
    requires InBounds(g, r, c)
  {
    g[r := g[r][c := g[r][c].(isMine := true)]]
  }

  /** The board `g` with a mine added on every cell of `extra`. */
  function Overlay(g: Grid, extra: set<(int, int)>): (o: Grid)
    ensures SameShape(g, o)
    ensures forall r, c :: InBounds(g, r, c) ==> o[r][c] == g[r][c].(isMine := g[r][c].isMine || (r, c) in extra)
  {
    seq(|g|, r requires 0 <= r < |g| =>
      seq(|g[r]|, c requires 0 <= c < |g[r]| => g[r][c].(isMine := g[r][c].isMine || (r, c) in extra)))
  }

  lemma OverlayEmpty(g: Grid)
    ensures Overlay(g, {}) == g
  {
    var o := Overlay(g, {});
    forall r | 0 <= r < |g| ensures o[r] == g[r] {
      assert forall c :: 0 <= c < |g[r]| ==> o[r][c] == g[r][c];
    }
  }

  lemma OverlayAdd(g: Grid, extra: set<(int, int)>, r: int, c: int)
    requires InBounds(g, r, c)
    ensures InBounds(Overlay(g, extra), r, c)
    ensures WithMine(Overlay(g, extra), r, c) == Overlay(g, extra + {(r, c)})
  {
    var a, b := WithMine(Overlay(g, extra), r, c), Overlay(g, extra + {(r, c)});
    forall i | 0 <= i < |g| ensures a[i] == b[i] {
      assert forall j :: 0 <= j < |g[i]| ==> a[i][j] == b[i][j];
    }
  }

  lemma OverlayMineSet(g: Grid, extra: set<(int, int)>)
    requires forall p :: p in extra ==> InBounds(g, p.0, p.1)
    ensures MineSet(Overlay(g, extra)) == MineSet(g) + extra
  {
    var o := Overlay(g, extra);
    forall p | p in MineSet(o) ensures p in MineSet(g) + extra {
      var r, c :| 0 <= r < |o| && 0 <= c < |o[r]| && o[r][c].isMine && p == (r, c);
      InMineSet(g, r, c);
    }
    forall p | p in MineSet(g) + extra ensures p in MineSet(o) {
      InMineSet(g, p.0, p.1);
      InMineSet(o, p.0, p.1);
    }
  }

  lemma LegalInBounds(g: Grid, exR: int, exC: int, draws: seq<(int, int)>)
    ensures forall p :: p in LegalSet(g, exR, exC, draws) ==> InBounds(g, p.0, p.1)
  {
    forall p | p in LegalSet(g, exR, exC, draws) ensures InBounds(g, p.0, p.1) {
      var k :| 0 <= k < |draws| && Legal(g, exR, exC, draws[k]) && draws[k] == p;
    }
  }

  lemma LegalSetAll(g: Grid, exR: int, exC: int, draws: seq<(int, int)>)
    ensures LegalSet(g, exR, exC, draws[..|draws|]) == LegalSet(g, exR, exC, draws)
  {
    assert draws[..|draws|] == draws;
  }

  /** One turn of the mine-laying loop: the board stays the original plus the
      legal draws seen so far, and a mine is laid exactly when the draw is a
      legal cell not seen before. */
  lemma LayStep(g: Grid, exR: int, exC: int, draws: seq<(int, int)>, i: nat)
    requires i < |draws| && InBounds(g, draws[i].0, draws[i].1)
    ensures var r, c := draws[i].0, draws[i].1;
      var ng := Overlay(g, LegalSet(g, exR, exC, draws[..i]));
      var after := LegalSet(g, exR, exC, draws[..i + 1]);
      InBounds(ng, r, c) &&
      if !ng[r][c].isMine && !Near(exR, exC, r, c) then
        WithMine(ng, r, c) == Overlay(g, after) && |after| == |LegalSet(g, exR, exC, draws[..i])| + 1
      else
        ng == Overlay(g, after) && |after| == |LegalSet(g, exR, exC, draws[..i])|
  {
    var r: int, c: int := draws[i].0, draws[i].1;
    var before := LegalSet(g, exR, exC, draws[..i]);
    LegalSetSnoc(g, exR, exC, draws, i);
    OverlayAdd(g, before, r, c);
    var ng: Grid := Overlay(g, before);
    assert draws[i] == (r, c);
    if !ng[r][c].isMine && !Near(exR, exC, r, c) {
      assert Legal(g, exR, exC, draws[i]) && (r, c) !in before;
    } else if Legal(g, exR, exC, draws[i]) {
      assert (r, c) in before;
      var after := LegalSet(g, exR, exC, draws[..i + 1]);
      assert after == before;
      assert ng == Overlay(g, after);
      assert !(!ng[r][c].isMine && !Near(exR, exC, r, c));
    } else {
      assert LegalSet(g, exR, exC, draws[..i + 1]) == before;
    }
  }

  /** The mine-laying loop: each draw (a random cell supplied by the caller)
      takes a mine when it is legal, until `mines` mines are down. The draws
      must hold at least `mines` distinct legal cells for the loop to end. */
  method LayMines(g: Grid, mines: nat, exR: int, exC: int, draws: seq<(int, int)>) returns (ng: Grid)
    requires forall k :: 0 <= k < |draws| ==> InBounds(g, draws[k].0, draws[k].1)
    requires |LegalSet(g, exR, exC, draws)| >= mines
    ensures SameButMines(g, ng)
    ensures MineSet(g) <= MineSet(ng) && |MineSet(ng)| == |MineSet(g)| + mines
    ensures forall p :: p in MineSet(ng) && p !in MineSet(g) ==> !Near(exR, exC, p.0, p.1)
  {
    ng := g;
    var placed := 0;
    var i := 0;
    assert LegalSet(g, exR, exC, draws[..0]) == {};
    OverlayEmpty(g);
    while placed < mines
      invariant 0 <= i <= |draws|
      invariant ng == Overlay(g, LegalSet(g, exR, exC, draws[..i]))
      invariant placed == |LegalSet(g, exR, exC, draws[..i])| && placed <= mines
      decreases |draws| - i
    {
      if i == |draws| {
        LegalSetAll(g, exR, exC, draws);
        assert false;
      }
      var r, c := draws[i].0, draws[i].1;
      LayStep(g, exR, exC, draws, i);
      i := i + 1;
      if !ng[r][c].isMine && !(Abs(r - exR) <= 1 && Abs(c - exC) <= 1) {
        ng := WithMine(ng, r, c);
        placed := placed + 1;
      }
    }
    LegalInBounds(g, exR, exC, draws[..i]);
    OverlayMineSet(g, LegalSet(g, exR, exC, draws[..i]));
    LayFinish(g, ng, exR, exC, draws[..i], mines);
  }

  /** What the mine-laying loop has achieved once it stops. */
  lemma LayFinish(g: Grid, ng: Grid, exR: int, exC: int, seen: seq<(int, int)>, mines: nat)
    requires MineSet(ng) == MineSet(g) + LegalSet(g, exR, exC, seen)
    requires |LegalSet(g, exR, exC, seen)| == mines
    ensures MineSet(g) <= MineSet(ng) && |MineSet(ng)| == |MineSet(g)| + mines
    ensures forall p :: p in MineSet(ng) && p !in MineSet(g) ==> !Near(exR, exC, p.0, p.1)
  {
    LegalDisjoint(g, exR, exC, seen);
    forall p | p in MineSet(ng) && p !in MineSet(g) ensures !Near(exR, exC, p.0, p.1) {
      LegalOutsideBlock(g, exR, exC, seen, p);
    }
  }

  /** Cells whose mine, reveal and flag fields agree. */
  ghost predicate SameButCounts(g1: Grid, g2: Grid)
  {
    SameShape(g1, g2) && forall r, c :: InBounds(g1, r, c) ==>
      g1[r][c].isMine == g2[r][c].isMine && g1[r][c].isRevealed == g2[r][c].isRevealed
      && g1[r][c].isFlagged == g2[r][c].isFlagged
  }

  /** The counting loops: every cell without a mine gets the number of mines
      in its 3×3 block; cells with a mine keep their count. */
  method CountAdjacent(g: Grid, rows: nat, cols: nat) returns (ng: Grid)
    requires Shaped(g, rows, cols)
    ensures SameButCounts(g, ng) && Shaped(ng, rows, cols)
    ensures ValidCounts(ng)
    ensures forall r, c :: InBounds(g, r, c) && g[r][c].isMine ==> ng[r][c].adjacentMines == g[r][c].adjacentMines
  {
    ng := g;
    for r := 0 to rows
      invariant SameButCounts(g, ng) && Shaped(ng, rows, cols)
      invariant forall r2, c2 :: InBounds(g, r2, c2) && g[r2][c2].isMine ==> ng[r2][c2].adjacentMines == g[r2][c2].adjacentMines
      invariant forall r2, c2 :: InBounds(g, r2, c2) && r2 < r && !g[r2][c2].isMine ==> ng[r2][c2].adjacentMines == AdjCount(g, r2, c2)
    {
      for c := 0 to cols
        invariant SameButCounts(g, ng) && Shaped(ng, rows, cols)
        invariant forall r2, c2 :: InBounds(g, r2, c2) && g[r2][c2].isMine ==> ng[r2][c2].adjacentMines == g[r2][c2].adjacentMines
        invariant forall r2, c2 :: InBounds(g, r2, c2) && (r2 < r || (r2 == r && c2 < c)) && !g[r2][c2].isMine ==>
          ng[r2][c2].adjacentMines == AdjCount(g, r2, c2)
      {
        if !ng[r][c].isMine {
          var count := CountAround(ng, rows, cols, r, c);
          assert SameMines(g, ng);
          AdjCountSame(g, ng, r, c);
          ng := ng[r := ng[r][c := ng[r][c].(adjacentMines := count)]];
        }
      }
    }
    forall r, c | InBounds(ng, r, c) && !ng[r][c].isMine ensures ng[r][c].adjacentMines == AdjCount(ng, r, c) {
      assert SameMines(g, ng);
      AdjCountSame(g, ng, r, c);
    }
  }

  /** The neighbour loop for one cell: on-board mines in its 3×3 block. */
  method CountAround(g: Grid, rows: nat, cols: nat, r: int, c: int) returns (count: nat)
    requires Shaped(g, rows, cols)
    ensures count == AdjCount(g, r, c)
  {
    count := 0;
    for dr := -1 to 2
      invariant count == BlockSum(g, r, c, dr + 1)
    {
      for dc := -1 to 2
        invariant count == BlockSum(g, r, c, dr + 1) + RowSum(g, r + dr, c, dc + 1)
      {
        var nr, nc := r + dr, c + dc;
        if nr >= 0 && nr < rows && nc >= 0 && nc < cols && g[nr][nc].isMine {
          count := count + 1;
        }
      }
    }
  }

  /** Mine placement for a first click at (exR, exC): exactly `mines` new mines,
      none in the 3×3 block around the click, then every count recomputed. */
  method PlaceMines(g: Grid, rows: nat, cols: nat, mines: nat, exR: int, exC: int, draws: seq<(int, int)>) returns (ng: Grid)
    requires Shaped(g, rows, cols)
    requires forall k :: 0 <= k < |draws| ==> InBounds(g, draws[k].0, draws[k].1)
    requires |LegalSet(g, exR, exC, draws)| >= mines
    ensures Shaped(ng, rows, cols) && ValidCounts(ng)
    ensures forall r, c :: InBounds(g, r, c) ==>
      ng[r][c].isRevealed == g[r][c].isRevealed && ng[r][c].isFlagged == g[r][c].isFlagged
    ensures MineSet(g) <= MineSet(ng) && |MineSet(ng)| == |MineSet(g)| + mines
    ensures forall p :: p in MineSet(ng) && p !in MineSet(g) ==> !Near(exR, exC, p.0, p.1)
  {
    var laid := LayMines(g, mines, exR, exC, draws);
    ng := CountAdjacent(laid, rows, cols);
    assert MineSet(ng) == MineSet(laid) by {
      forall p | p in MineSet(ng) ensures p in MineSet(laid) {
        var r2, c2 :| 0 <= r2 < |ng| && 0 <= c2 < |ng[r2]| && ng[r2][c2].isMine && p == (r2, c2);
      }
      forall p | p in MineSet(laid) ensures p in MineSet(ng) {
        var r2, c2 :| 0 <= r2 < |laid| && 0 <= c2 < |laid[r2]| && laid[r2][c2].isMine && p == (r2, c2);
      }
    }
  }

  // ---------------------------------------------------------------- flood reveal

  /** A cell is covered when it is revealed or flagged: the flood never needs to open it. */
  predicate Covered(g: Grid, r: int, c: int)
    requires InBounds(g, r, c)
  {
    g[r][c].isRevealed || g[r][c].isFlagged
  }

  /** The cells the flood can still open: on the board, hidden and unflagged. */
  function Hidden(g: Grid): set<(int, int)>
  {
    set r, c | 0 <= r < |g| && 0 <= c < |g[r]| && !g[r][c].isRevealed && !g[r][c].isFlagged :: (r, c)
  }

  /** `g2` only reveals more cells of `g1`: mines, flags and counts are kept. */
  ghost predicate Grows(g1: Grid, g2: Grid)
  {
    SameShape(g1, g2) && forall r, c :: InBounds(g1, r, c) ==>
      && g2[r][c].isMine == g1[r][c].isMine && g2[r][c].isFlagged == g1[r][c].isFlagged
      && g2[r][c].adjacentMines == g1[r][c].adjacentMines
      && (g1[r][c].isRevealed ==> g2[r][c].isRevealed)
  }

  /** No cell newly revealed in `g2` holds a mine or a flag. */
  ghost predicate SafeReveals(g1: Grid, g2: Grid)
  {
    forall r, c :: InBounds(g1, r, c) && !g1[r][c].isRevealed && InBounds(g2, r, c) && g2[r][c].isRevealed ==>
      !g2[r][c].isMine && !g2[r][c].isFlagged
  }

  /** Every cell in the 3×3 block around (r, c) is covered. */
  ghost predicate NeighboursCovered(g: Grid, r: int, c: int)
  {
    forall r2, c2 :: InBounds(g, r2, c2) && Near(r, c, r2, c2) ==> Covered(g, r2, c2)
  }

  /** Every zero-count cell newly revealed in `g2` has its whole block covered. */
  ghost predicate Closed(g1: Grid, g2: Grid)
  {
    forall r, c ::
      (InBounds(g1, r, c) && !g1[r][c].isRevealed && InBounds(g2, r, c) && g2[r][c].isRevealed && g2[r][c].adjacentMines == 0)
      ==> NeighboursCovered(g2, r, c)
  }

  /** The three together: what one flood reveal guarantees. */
  ghost predicate Flooded(g1: Grid, g2: Grid)
  {
    Grows(g1, g2) && SafeReveals(g1, g2) && Closed(g1, g2)
  }

  lemma FloodedTrans(g0: Grid, g1: Grid, g2: Grid)
    requires Flooded(g0, g1) && Flooded(g1, g2)
    ensures Flooded(g0, g2)
  {
    forall r, c | InBounds(g0, r, c) && !g0[r][c].isRevealed && g2[r][c].isRevealed && g2[r][c].adjacentMines == 0
      ensures NeighboursCovered(g2, r, c)
    {
      if g1[r][c].isRevealed {
        forall r2, c2 | InBounds(g2, r2, c2) && Near(r, c, r2, c2) ensures Covered(g2, r2, c2) {
          assert Covered(g1, r2, c2);
        }
      }
    }
  }

  lemma GrowsHidden(g1: Grid, g2: Grid)
    requires Grows(g1, g2)
    ensures Hidden(g2) <= Hidden(g1)
  {
    forall p | p in Hidden(g2) ensures p in Hidden(g1) {
      var r, c :| 0 <= r < |g2| && 0 <= c < |g2[r]| && !g2[r][c].isRevealed && !g2[r][c].isFlagged && p == (r, c);
    }
  }

  /** Opening a hidden, unflagged cell takes it out of the hidden set. */
  lemma OpenShrinks(g: Grid, r: int, c: int)
    requires InBounds(g, r, c) && !g[r][c].isRevealed && !g[r][c].isFlagged
    ensures var g1 := g[r := g[r][c := g[r][c].(isRevealed := true)]];
      Grows(g, g1) && Hidden(g1) < Hidden(g)
  {
    var g1 := g[r := g[r][c := g[r][c].(isRevealed := true)]];
    GrowsHidden(g, g1);
    assert (r, c) in Hidden(g) && (r, c) !in Hidden(g1);
  }

  /** Opening one safe cell and flooding on from there is a flood from the
      start, once the opened cell's block is covered whenever its count is 0. */
  lemma OpenThenFlood(g: Grid, r: int, c: int, g2: Grid)
    requires InBounds(g, r, c) && !g[r][c].isRevealed && !g[r][c].isFlagged && !g[r][c].isMine
    requires Flooded(g[r := g[r][c := g[r][c].(isRevealed := true)]], g2)
    requires g[r][c].adjacentMines == 0 ==> NeighboursCovered(g2, r, c)
    ensures Flooded(g, g2)
  {
    var g1 := g[r := g[r][c := g[r][c].(isRevealed := true)]];
    forall r2, c2 | InBounds(g, r2, c2) && (r2, c2) != (r, c) ensures g1[r2][c2] == g[r2][c2] {
    }
    assert g1[r][c] == g[r][c].(isRevealed := true);
  }

  lemma GrowsZeroSafe(g1: Grid, g2: Grid)
    requires Grows(g1, g2) && ZeroSafe(g1)
    ensures ZeroSafe(g2)
  {
    forall r, c | InBounds(g2, r, c) && !g2[r][c].isMine && g2[r][c].adjacentMines == 0
      ensures NoMineNear(g2, r, c)
    {
      assert NoMineNear(g1, r, c);
    }
  }

  /** (r, c) is hidden in `g1` and revealed in `g2`. */
  ghost predicate Opened(g1: Grid, g2: Grid, r: int, c: int)
  {
    InBounds(g1, r, c) && !g1[r][c].isRevealed && InBounds(g2, r, c) && g2[r][c].isRevealed
  }

  /** The cell `q` is hidden in `g1` and revealed in `g2`: `Opened` on a pair,
      the form a path states it in. */
  ghost predicate OpenedCell(g1: Grid, g2: Grid, q: (int, int))
  {
    && 0 <= q.0 < |g1| && 0 <= q.1 < |g1[q.0]| && !g1[q.0][q.1].isRevealed
    && 0 <= q.0 < |g2| && 0 <= q.1 < |g2[q.0]| && g2[q.0][q.1].isRevealed
  }

  /** A mine-free cell with count 0: the only kind the reveal spreads from. */
  predicate ZeroAt(g: Grid, r: int, c: int)
  {
    InBounds(g, r, c) && !g[r][c].isMine && g[r][c].adjacentMines == 0
  }

  /** `p` walks through neighbouring cells, all opened from `g1` to `g2`, and
      every cell on it but the last is a mine-free zero: the path a chain of
      recursive reveal calls takes. */
  ghost predicate Linked(g1: Grid, g2: Grid, p: seq<(int, int)>)
    decreases |p|
  {
    && |p| >= 1
    && OpenedCell(g1, g2, p[0])
    && (|p| > 1 ==> ZeroAt(g2, p[0].0, p[0].1) && Near(p[0].0, p[0].1, p[1].0, p[1].1) && Linked(g1, g2, p[1..]))
  }

  /** Some path leads from (r, c) to (i, j). */
  ghost predicate Reaches(g1: Grid, g2: Grid, r: int, c: int, i: int, j: int)
  {
    exists p :: Linked(g1, g2, p) && p[0] == (r, c) && p[|p| - 1] == (i, j)
  }

  /** Every cell opened from `g1` to `g2` is reached from (r, c) along a path. */
  ghost predicate Reached(g1: Grid, g2: Grid, r: int, c: int)
  {
    forall i, j {:trigger Reaches(g1, g2, r, c, i, j)} :: Opened(g1, g2, i, j) ==> Reaches(g1, g2, r, c, i, j)
  }

  /** Opening one cell reaches just that cell. */
  lemma ReachedStart(g: Grid, r: int, c: int)
    requires InBounds(g, r, c)
    ensures Reached(g, g[r := g[r][c := g[r][c].(isRevealed := true)]], r, c)
  {
    var g1 := g[r := g[r][c := g[r][c].(isRevealed := true)]];
    forall i, j | Opened(g, g1, i, j) ensures Reaches(g, g1, r, c, i, j) {
      assert (i, j) == (r, c);
      assert Linked(g, g1, [(r, c)]);
    }
  }

  /** A path stays a path when the start board reveals less and the end board more. */
  lemma {:induction false} LinkedWiden(g: Grid, g1: Grid, h: Grid, h2: Grid, p: seq<(int, int)>)
    requires Grows(g, g1) && Grows(h, h2) && Linked(g1, h, p)
    ensures Linked(g, h2, p)
    decreases |p|
  {
    assert OpenedCell(g, h2, p[0]);
    if |p| > 1 {
      assert ZeroAt(h2, p[0].0, p[0].1);
      LinkedWiden(g, g1, h, h2, p[1..]);
    }
  }

  /** A path from a neighbour of an opened zero cell, with that cell put in front. */
  lemma LinkedPrepend(g: Grid, h: Grid, r: int, c: int, p: seq<(int, int)>)
    requires OpenedCell(g, h, (r, c)) && ZeroAt(h, r, c) && Linked(g, h, p) && Near(r, c, p[0].0, p[0].1)
    ensures Linked(g, h, [(r, c)] + p) && ([(r, c)] + p)[|p|] == p[|p| - 1]
  {
    assert ([(r, c)] + p)[1..] == p;
  }

  /** The path to a cell the neighbour's reveal opened, reached through (r, c). */
  lemma ReachedThrough(g: Grid, h: Grid, h2: Grid, r: int, c: int, nr: int, nc: int, i: int, j: int)
    requires Grows(g, h) && Grows(h, h2) && Reached(h, h2, nr, nc) && Opened(h, h2, i, j)
    requires Opened(g, h, r, c) && ZeroAt(h, r, c) && Near(r, c, nr, nc)
    ensures Reaches(g, h2, r, c, i, j)
  {
    assert Reaches(h, h2, nr, nc, i, j);
    var p: seq<(int, int)> :| Linked(h, h2, p) && p[0] == (nr, nc) && p[|p| - 1] == (i, j);
    LinkedWiden(g, h, h2, h2, p);
    LinkedPrepend(g, h2, r, c, p);
    var q := [(r, c)] + p;
    assert Linked(g, h2, q) && q[0] == (r, c) && q[|q| - 1] == (i, j);
  }

  /** After the reveal from a neighbour of the opened zero cell (r, c), every
      opened cell is still reached from (r, c). */
  lemma ReachedStep(g: Grid, g1: Grid, h: Grid, h2: Grid, r: int, c: int, nr: int, nc: int)
    requires ZeroAt(g, r, c) && !g[r][c].isRevealed && g1 == g[r := g[r][c := g[r][c].(isRevealed := true)]]
    requires Grows(g1, h) && Grows(h, h2)
    requires Reached(g, h, r, c) && Reached(h, h2, nr, nc) && Near(r, c, nr, nc)
    ensures Reached(g, h2, r, c)
  {
    assert Grows(g, h) by {
      forall i, j | InBounds(g, i, j) && (i, j) != (r, c) ensures g1[i][j] == g[i][j] {
      }
    }
    assert g1[r][c].isRevealed;
    forall i, j | Opened(g, h2, i, j) ensures Reaches(g, h2, r, c, i, j) {
      if h[i][j].isRevealed {
        assert Opened(g, h, i, j);
        assert Reaches(g, h, r, c, i, j);
        var q: seq<(int, int)> :| Linked(g, h, q) && q[0] == (r, c) && q[|q| - 1] == (i, j);
        LinkedWiden(g, g, h, h2, q);
      } else {
        ReachedThrough(g, h, h2, r, c, nr, nc, i, j);
      }
    }
  }

  /** Along a path, every cell is revealed by any flood that reveals the
      first: each opened zero on it has its block covered. */
  lemma {:induction false} LinkedRevealed(g: Grid, g2: Grid, g3: Grid, p: seq<(int, int)>)
    requires Linked(g, g2, p) && OpenedCell(g, g2, p[|p| - 1])
    requires Grows(g, g2) && SafeReveals(g, g2) && Grows(g, g3) && Closed(g, g3)
    requires g3[p[0].0][p[0].1].isRevealed
    ensures g3[p[|p| - 1].0][p[|p| - 1].1].isRevealed
    decreases |p|
  {
    if |p| > 1 {
      var (a, b) := p[0];
      var (i, j) := p[1];
      assert ZeroAt(g2, a, b) && InBounds(g, a, b) && !g[a][b].isRevealed;
      assert NeighboursCovered(g3, a, b);
      assert OpenedCell(g, g2, p[1]) by {
        assert Linked(g, g2, p[1..]);
      }
      assert Covered(g3, i, j);
      LinkedRevealed(g, g2, g3, p[1..]);
    }
  }

  /** The flood's contract fixes its result: two boards that both meet it
      from the same board and cell are equal. */
  lemma FloodDeterminate(g: Grid, g2: Grid, g3: Grid, r: int, c: int)
    requires Flooded(g, g2) && Reached(g, g2, r, c) && (InBounds(g, r, c) && !g[r][c].isFlagged ==> g2[r][c].isRevealed)
    requires Flooded(g, g3) && Reached(g, g3, r, c) && (InBounds(g, r, c) && !g[r][c].isFlagged ==> g3[r][c].isRevealed)
    ensures g2 == g3
  {
    forall i, j | InBounds(g, i, j) ensures g2[i][j] == g3[i][j] {
      if Opened(g, g2, i, j) {
        assert Reaches(g, g2, r, c, i, j);
        var p: seq<(int, int)> :| Linked(g, g2, p) && p[0] == (r, c) && p[|p| - 1] == (i, j);
        assert OpenedCell(g, g2, (r, c));
        LinkedRevealed(g, g2, g3, p);
      }
      if Opened(g, g3, i, j) {
        assert Reaches(g, g3, r, c, i, j);
        var p: seq<(int, int)> :| Linked(g, g3, p) && p[0] == (r, c) && p[|p| - 1] == (i, j);
        assert OpenedCell(g, g3, (r, c));
        LinkedRevealed(g, g3, g2, p);
      }
      assert g2[i][j].isRevealed == g3[i][j].isRevealed;
    }
    forall i | 0 <= i < |g| ensures g2[i] == g3[i] {
      assert forall j :: 0 <= j < |g2[i]| ==> g2[i][j] == g3[i][j] by {
        forall j | 0 <= j < |g2[i]| ensures g2[i][j] == g3[i][j] {
          assert InBounds(g, i, j);
        }
      }
    }
  }

  /** A click on a numbered cell opens that cell alone. */
  lemma NumberedOpensOne(g: Grid, g2: Grid, r: int, c: int)
    requires InBounds(g, r, c) && g[r][c].adjacentMines != 0
    requires Flooded(g, g2) && Reached(g, g2, r, c)
    ensures forall i, j :: Opened(g, g2, i, j) ==> (i, j) == (r, c)
  {
    forall i, j | Opened(g, g2, i, j) ensures (i, j) == (r, c) {
      assert Reaches(g, g2, r, c, i, j);
      var p: seq<(int, int)> :| Linked(g, g2, p) && p[0] == (r, c) && p[|p| - 1] == (i, j);
      if |p| > 1 {
        assert false;
      }
    }
  }

  /** One more cell of the block, in row-major order, is covered. */
  lemma CoveredAdvance(g: Grid, h: Grid, r: int, c: int, dr: int, dc: int)
    requires Grows(g, h)
    requires forall r2, c2 :: InBounds(g, r2, c2) && Near(r, c, r2, c2) && (r2 < r + dr || (r2 == r + dr && c2 < c + dc)) ==>
      Covered(g, r2, c2)
    requires InBounds(h, r + dr, c + dc) && !h[r + dr][c + dc].isFlagged ==> h[r + dr][c + dc].isRevealed
    ensures forall r2, c2 :: InBounds(h, r2, c2) && Near(r, c, r2, c2) && (r2 < r + dr || (r2 == r + dr && c2 < c + dc + 1)) ==>
      Covered(h, r2, c2)
  {
    forall r2, c2 | InBounds(h, r2, c2) && Near(r, c, r2, c2) && (r2 < r + dr || (r2 == r + dr && c2 < c + dc + 1))
      ensures Covered(h, r2, c2)
    {
      if r2 != r + dr || c2 != c + dc {
        assert Covered(g, r2, c2);
      }
    }
  }

  /** The recursive reveal from (r, c): an off-board, revealed or flagged cell
      stops it; otherwise the cell opens and, when it holds no mine and counts
      0, the reveal goes on into every cell of its 3×3 block. Started on a
      cell without a mine, it opens no mine and no flag, leaves every opened
      zero cell with its block covered, and ends because each call opens a
      cell or returns. */
  method RevealCell(g: Grid, r: int, c: int) returns (g': Grid)
    requires ZeroSafe(g)
    requires InBounds(g, r, c) ==> !g[r][c].isMine
    ensures Flooded(g, g')
    ensures Reached(g, g', r, c)
    ensures InBounds(g, r, c) && !g[r][c].isFlagged ==> g'[r][c].isRevealed
    ensures !InBounds(g, r, c) || g[r][c].isRevealed || g[r][c].isFlagged ==> g' == g
    ensures InBounds(g, r, c) && !g[r][c].isRevealed && !g[r][c].isFlagged && g[r][c].adjacentMines != 0 ==>
      g' == g[r := g[r][c := g[r][c].(isRevealed := true)]]
    decreases Hidden(g)
  {
    if !InBounds(g, r, c) || g[r][c].isRevealed || g[r][c].isFlagged {
      return g;
    }
    var g1 := g[r := g[r][c := g[r][c].(isRevealed := true)]];
    OpenShrinks(g, r, c);
    GrowsZeroSafe(g, g1);
    ReachedStart(g, r, c);
    g' := g1;
    if g1[r][c].adjacentMines == 0 && !g1[r][c].isMine {
      assert NoMineNear(g1, r, c);
      for dr := -1 to 2
        invariant Flooded(g1, g') && ZeroSafe(g') && Reached(g, g', r, c)
        invariant forall r2, c2 :: InBounds(g', r2, c2) && Near(r, c, r2, c2) && r2 < r + dr ==> Covered(g', r2, c2)
      {
        for dc := -1 to 2
          invariant Flooded(g1, g') && ZeroSafe(g') && Reached(g, g', r, c)
          invariant forall r2, c2 :: InBounds(g', r2, c2) && Near(r, c, r2, c2) && (r2 < r + dr || (r2 == r + dr && c2 < c + dc)) ==>
            Covered(g', r2, c2)
        {
          GrowsHidden(g1, g');
          assert InBounds(g', r + dr, c + dc) ==> !g'[r + dr][c + dc].isMine by {
            if InBounds(g', r + dr, c + dc) {
              assert Near(r, c, r + dr, c + dc) && !g1[r + dr][c + dc].isMine;
            }
          }
          var next := RevealCell(g', r + dr, c + dc);
          ReachedStep(g, g1, g', next, r, c, r + dr, c + dc);
          FloodedTrans(g1, g', next);
          GrowsZeroSafe(g', next);
          CoveredAdvance(g', next, r, c, dr, dc);
          g' := next;
        }
      }
      assert NeighboursCovered(g', r, c);
    }
    OpenThenFlood(g, r, c, g');
  }

  // ---------------------------------------------------------------- win and loss

  /** The game is won when every cell without a mine is revealed. */
  ghost predicate AllSafeRevealed(g: Grid)
  {
    forall r, c :: InBounds(g, r, c) ==> g[r][c].isMine || g[r][c].isRevealed
  }

  /** The win scan: true exactly when no mine-free cell is hidden. */
  method CheckWin(g: Grid, rows: nat, cols: nat) returns (won: bool)
    requires Shaped(g, rows, cols)
    ensures won <==> AllSafeRevealed(g)
  {
    for r := 0 to rows
      invariant forall r2, c2 :: InBounds(g, r2, c2) && r2 < r ==> g[r2][c2].isMine || g[r2][c2].isRevealed
    {
      for c := 0 to cols
        invariant forall r2, c2 :: InBounds(g, r2, c2) && (r2 < r || (r2 == r && c2 < c)) ==> g[r2][c2].isMine || g[r2][c2].isRevealed
      {
        if !g[r][c].isMine && !g[r][c].isRevealed {
          return false;
        }
      }
    }
    return true;
  }

  /** The loss scan: every mine, flagged or not, is revealed; nothing else changes. */
  method RevealAllMines(g: Grid, rows: nat, cols: nat) returns (g': Grid)
    requires Shaped(g, rows, cols)
    ensures Shaped(g', rows, cols) && Grows(g, g')
    ensures forall r, c :: InBounds(g, r, c) ==> g'[r][c] == if g[r][c].isMine then g[r][c].(isRevealed := true) else g[r][c]
  {
    g' := g;
    for i := 0 to rows
      invariant Shaped(g', rows, cols)
      invariant forall r, c :: InBounds(g, r, c) ==>
        g'[r][c] == if g[r][c].isMine && r < i then g[r][c].(isRevealed := true) else g[r][c]
    {
      for j := 0 to cols
        invariant Shaped(g', rows, cols)
        invariant forall r, c :: InBounds(g, r, c) ==>
          g'[r][c] == if g[r][c].isMine && (r < i || (r == i && c < j)) then g[r][c].(isRevealed := true) else g[r][c]
      {
        if g'[i][j].isMine {
          g' := g'[i := g'[i][j := g'[i][j].(isRevealed := true)]];
        }
      }
    }
  }

  // ---------------------------------------------------------------- flags

  /** The coordinates of every flagged cell. */
  function FlagSet(g: Grid): set<(int, int)>
  {
    set r, c | 0 <= r < |g| && 0 <= c < |g[r]| && g[r][c].isFlagged :: (r, c)
  }

  /** The board with the flag at (r, c) toggled. */
  function Toggled(g: Grid, r: int, c: int): (t: Grid)
    requires InBounds(g, r, c)
    ensures |t| == |g| && forall i :: 0 <= i < |g| && i != r ==> t[i] == g[i]
    ensures |t[r]| == |g[r]| && forall j :: 0 <= j < |g[r]| && j != c ==> t[r][j] == g[r][j]
    ensures t[r][c].isFlagged != g[r][c].isFlagged
    ensures t[r][c].isMine == g[r][c].isMine && t[r][c].isRevealed == g[r][c].isRevealed
    ensures t[r][c].adjacentMines == g[r][c].adjacentMines
  {
    g[r := g[r][c := g[r][c].(isFlagged := !g[r][c].isFlagged)]]
  }

  /** Toggling the same flag twice gives the board back. */
  lemma ToggleTwice(g: Grid, r: int, c: int)
    requires InBounds(g, r, c)
    ensures Toggled(Toggled(g, r, c), r, c) == g
  {
    var t := Toggled(Toggled(g, r, c), r, c);
    assert t[r] == g[r];
  }

  /** Toggling a flag adds or removes exactly that cell among the flagged ones. */
  lemma FlagSetToggle(g: Grid, r: int, c: int)
    requires InBounds(g, r, c)
    ensures g[r][c].isFlagged ==> FlagSet(Toggled(g, r, c)) == FlagSet(g) - {(r, c)} && (r, c) in FlagSet(g)
    ensures !g[r][c].isFlagged ==> FlagSet(Toggled(g, r, c)) == FlagSet(g) + {(r, c)} && (r, c) !in FlagSet(g)
  {
    var t := Toggled(g, r, c);
    forall p | p in FlagSet(t) ensures p in FlagSet(g) || p == (r, c) {
      var r2, c2 :| 0 <= r2 < |t| && 0 <= c2 < |t[r2]| && t[r2][c2].isFlagged && p == (r2, c2);
      if p != (r, c) {
        assert t[r2][c2] == g[r2][c2];
      }
    }
    forall p | p in FlagSet(g) && p != (r, c) ensures p in FlagSet(t) {
      var r2, c2 :| 0 <= r2 < |g| && 0 <= c2 < |g[r2]| && g[r2][c2].isFlagged && p == (r2, c2);
      assert t[r2][c2] == g[r2][c2];
    }
    if g[r][c].isFlagged {
      assert (r, c) in FlagSet(g) && (r, c) !in FlagSet(t);
    } else {
      assert (r, c) !in FlagSet(g) && (r, c) in FlagSet(t);
    }
  }

  /** Toggling a flag keeps shape, mines and counts, and moves the number of
      flags by one. */
  lemma ToggleKeeps(g: Grid, rows: nat, cols: nat, r: int, c: int)
    requires Shaped(g, rows, cols) && InBounds(g, r, c)
    ensures Shaped(Toggled(g, r, c), rows, cols)
    ensures MineSet(Toggled(g, r, c)) == MineSet(g)
    ensures ValidCounts(g) ==> ValidCounts(Toggled(g, r, c))
    ensures |FlagSet(Toggled(g, r, c))| == |FlagSet(g)| + (if g[r][c].isFlagged then -1 else 1)
    ensures Toggled(g, r, c)[r][c].isFlagged == !g[r][c].isFlagged
  {
    var t := Toggled(g, r, c);
    FlagSetToggle(g, r, c);
    assert SameMines(g, t);
    SameMineSet(g, t);
    if ValidCounts(g) {
      ValidCountsKept(g, t);
    }
  }

  /** Boards of the same shape with the same flags have the same flag set. */
  lemma SameFlagSet(g1: Grid, g2: Grid)
    requires SameShape(g1, g2)
    requires forall r, c :: InBounds(g1, r, c) ==> g1[r][c].isFlagged == g2[r][c].isFlagged
    ensures FlagSet(g1) == FlagSet(g2)
  {
    forall p | p in FlagSet(g2) ensures p in FlagSet(g1) {
      var r, c :| 0 <= r < |g2| && 0 <= c < |g2[r]| && g2[r][c].isFlagged && p == (r, c);
    }
  }

  /** Boards with the mines in the same cells have the same mine set. */
  lemma SameMineSet(g1: Grid, g2: Grid)
    requires SameMines(g1, g2)
    ensures MineSet(g1) == MineSet(g2)
  {
    forall p | p in MineSet(g2) ensures p in MineSet(g1) {
      var r, c :| 0 <= r < |g2| && 0 <= c < |g2[r]| && g2[r][c].isMine && p == (r, c);
    }
  }

  /** Counts stay valid when mines and counts are kept. */
  lemma ValidCountsKept(g1: Grid, g2: Grid)
    requires SameMines(g1, g2) && ValidCounts(g1)
    requires forall r, c :: InBounds(g1, r, c) ==> g1[r][c].adjacentMines == g2[r][c].adjacentMines
    ensures ValidCounts(g2)
  {
    forall r, c | InBounds(g2, r, c) && !g2[r][c].isMine ensures g2[r][c].adjacentMines == AdjCount(g2, r, c) {
      AdjCountSame(g1, g2, r, c);
    }
  }

  /** A fresh board holds no mine and no flag, every cell of it is hidden,
      and its zero counts are right. */
  lemma NewGridEmpty(rows: nat, cols: nat)
    ensures MineSet(NewGrid(rows, cols)) == {} && FlagSet(NewGrid(rows, cols)) == {}
    ensures forall r, c :: 0 <= r < rows && 0 <= c < cols ==> (r, c) in Hidden(NewGrid(rows, cols))
    ensures ValidCounts(NewGrid(rows, cols))
  {
    var g := NewGrid(rows, cols);
    forall r, c | 0 <= r < rows && 0 <= c < cols ensures (r, c) in Hidden(g) {
      assert InBounds(g, r, c);
    }
    forall r, c | InBounds(g, r, c) ensures g[r][c].adjacentMines == AdjCount(g, r, c) {
      AdjCountZero(g, r, c);
    }
  }

  /** Only reveals count for the flood guarantees, so a board that differs
      from the start only in mines and counts may stand in for it. */
  lemma FloodFromSameReveals(g0: Grid, g1: Grid, g2: Grid)
    requires SameShape(g0, g1)
    requires forall r, c :: InBounds(g0, r, c) ==> g0[r][c].isRevealed == g1[r][c].isRevealed
    requires SafeReveals(g1, g2) && Closed(g1, g2)
    ensures SafeReveals(g0, g2) && Closed(g0, g2)
  {
  }

  lemma {:induction false} LinkedSameReveals(g0: Grid, g1: Grid, g2: Grid, p: seq<(int, int)>)
    requires SameShape(g0, g1) && forall r, c :: InBounds(g0, r, c) ==> g0[r][c].isRevealed == g1[r][c].isRevealed
    requires Linked(g1, g2, p)
    ensures Linked(g0, g2, p)
    decreases |p|
  {
    assert OpenedCell(g0, g2, p[0]);
    if |p| > 1 {
      LinkedSameReveals(g0, g1, g2, p[1..]);
    }
  }

  /** The same holds for the paths from the clicked cell. */
  lemma ReachedSameReveals(g0: Grid, g1: Grid, g2: Grid, r: int, c: int)
    requires SameShape(g0, g1) && forall i, j :: InBounds(g0, i, j) ==> g0[i][j].isRevealed == g1[i][j].isRevealed
    requires Reached(g1, g2, r, c)
    ensures Reached(g0, g2, r, c)
  {
    forall i, j | Opened(g0, g2, i, j) ensures Reaches(g0, g2, r, c, i, j) {
      assert Opened(g1, g2, i, j) && Reaches(g1, g2, r, c, i, j);
      var p: seq<(int, int)> :| Linked(g1, g2, p) && p[0] == (r, c) && p[|p| - 1] == (i, j);
      LinkedSameReveals(g0, g1, g2, p);
    }
  }

  // ---------------------------------------------------------------- counters

  /** What the three-digit displays show: the value clamped to 0..999. */
  function Clamp(n: int): (v: nat)
    ensures v <= 999
    ensures 0 <= n <= 999 ==> v == n
    ensures n < 0 ==> v == 0
    ensures n > 999 ==> v == 999
  {
    if n < 0 then 0 else if n > 999 then 999 else n
  }

  /** The counters' display: clamped to 0..999, zero-padded to exactly three digits. */
  function FormatNumber(n: int): (s: string)
    ensures |s| == 3 && forall i :: 0 <= i < 3 ==> IsDigit(s[i])
  {
    var d := Decimal(Clamp(n));
    assert PadStart(d, 3, '0') == if |d| >= 3 then d else Zeros(3 - |d|) + d;
    PadStart(d, 3, '0')
  }

  /** Reading the display back gives the clamped value. */
  lemma FormatNumberValue(n: int)
    ensures NumeralValue(FormatNumber(n)) == Clamp(n)
  {
    var v := Clamp(n);
    var d := Decimal(v);
    DecimalValue(v);
    if |d| < 3 {
      ZerosValue(3 - |d|, d);
      assert FormatNumber(n) == Zeros(3 - |d|) + d;
    } else {
      assert FormatNumber(n) == d;
    }
  }

  // ---------------------------------------------------------------- the game

  /** A click on a mine: that cell and every other mine are revealed; flags,
      mines and counts stay. */
  method LoseAt(g: Grid, rows: nat, cols: nat, r: int, c: int) returns (g': Grid)
    requires Shaped(g, rows, cols) && InBounds(g, r, c) && g[r][c].isMine && ValidCounts(g)
    ensures Shaped(g', rows, cols) && ValidCounts(g') && SameMines(g, g') && FlagSet(g') == FlagSet(g)
    ensures forall i, j :: InBounds(g, i, j) ==>
      g'[i][j] == if g[i][j].isMine then g[i][j].(isRevealed := true) else g[i][j]
  {
    var g1 := g[r := g[r][c := g[r][c].(isRevealed := true)]];
    g' := RevealAllMines(g1, rows, cols);
    assert Grows(g, g');
    ValidCountsKept(g, g');
    SameFlagSet(g, g');
  }

  /** The board a first click plays on: the mines laid around the clicked
      cell and the counts filled in; reveals and flags are those of `g`. */
  method FirstClickBoard(g: Grid, rows: nat, cols: nat, mines: nat, r: int, c: int, draws: seq<(int, int)>)
    returns (g': Grid)
    requires Shaped(g, rows, cols) && InBounds(g, r, c) && MineSet(g) == {}
    requires forall k :: 0 <= k < |draws| ==> InBounds(g, draws[k].0, draws[k].1)
    requires |LegalSet(g, r, c, draws)| >= mines
    ensures Shaped(g', rows, cols) && ValidCounts(g') && !g'[r][c].isMine
    ensures forall i, j :: InBounds(g, i, j) ==>
      g'[i][j].isRevealed == g[i][j].isRevealed && g'[i][j].isFlagged == g[i][j].isFlagged
    ensures FlagSet(g') == FlagSet(g) && |MineSet(g')| == mines
    ensures forall q :: q in MineSet(g') ==> !Near(r, c, q.0, q.1)
  {
    g' := PlaceMines(g, rows, cols, mines, r, c, draws);
    SameFlagSet(g, g');
    assert !g'[r][c].isMine by {
      InMineSet(g', r, c);
    }
  }

  /** A click on a safe cell: the flood from it, and whether the game is then
      won. `g0` is the board before the click, which differs from `g` only in
      the mines a first click lays. */
  method OpenAt(g0: Grid, g: Grid, rows: nat, cols: nat, r: int, c: int) returns (g': Grid, won: bool)
    requires Shaped(g, rows, cols) && InBounds(g, r, c) && !g[r][c].isMine && !g[r][c].isFlagged && ValidCounts(g)
    requires SameShape(g0, g) && forall i, j :: InBounds(g0, i, j) ==> g0[i][j].isRevealed == g[i][j].isRevealed
    ensures Shaped(g', rows, cols) && ValidCounts(g') && Grows(g, g')
    ensures SameMines(g, g') && MineSet(g') == MineSet(g) && FlagSet(g') == FlagSet(g)
    ensures g'[r][c].isRevealed && SafeReveals(g0, g') && Closed(g0, g') && Reached(g0, g', r, c)
    ensures won <==> AllSafeRevealed(g')
  {
    ValidCountsZeroSafe(g);
    g' := RevealCell(g, r, c);
    FloodFromSameReveals(g0, g, g');
    ReachedSameReveals(g0, g, g', r, c);
    ValidCountsKept(g, g');
    SameFlagSet(g, g');
    SameMineSet(g, g');
    won := CheckWin(g', rows, cols);
  }

  /** One game: its fields are the component's state. */
  class Game {
    var difficulty: Difficulty
    var grid: Grid
    var gameState: GameState
    var mineCount: int
    var time: int
    var isFirstClick: bool

    /** The board fits the preset; before the first click it has no mine,
        after it every count is right; the clock is within 0..999; and the
        mine counter is the preset's mines minus the flags placed. */
    ghost predicate Valid()
      reads this
    {
      var p := PresetOf(difficulty);
      && Shaped(grid, p.rows, p.cols)
      && (isFirstClick ==> MineSet(grid) == {} && gameState == Playing)
      && (!isFirstClick ==> ValidCounts(grid))
      && 0 <= time <= 999
      && mineCount == p.mines - |FlagSet(grid)|
    }

    /** The state once the board of the default difficulty has been set up. */
    constructor ()
      ensures Valid()
      ensures difficulty == Beginner && grid == NewGrid(8, 8) && gameState == Playing
      ensures mineCount == 10 && time == 0 && isFirstClick
    {
      difficulty := Beginner;
      grid := NewGrid(8, 8);
      gameState := Playing;
      mineCount := 10;
      time := 0;
      isFirstClick := true;
      NewGridEmpty(8, 8);
    }

    /** A new game on the current difficulty (the face button). */
    method NewGame()
      modifies this
      ensures Valid()
      ensures var p := PresetOf(difficulty);
        grid == NewGrid(p.rows, p.cols) && gameState == Playing && mineCount == p.mines
        && time == 0 && isFirstClick
      ensures difficulty == old(difficulty)
    {
      var p := PresetOf(difficulty);
      grid := NewGrid(p.rows, p.cols);
      gameState := Playing;
      mineCount := p.mines;
      time := 0;
      isFirstClick := true;
      NewGridEmpty(p.rows, p.cols);
    }

    /** Choosing a difficulty: a different one starts a new game on its board,
        the current one changes nothing. */
    method SetDifficulty(d: Difficulty)
      requires Valid()
      modifies this
      ensures Valid() && difficulty == d
      ensures d == old(difficulty) ==>
        grid == old(grid) && gameState == old(gameState) && mineCount == old(mineCount)
        && time == old(time) && isFirstClick == old(isFirstClick)
      ensures d != old(difficulty) ==>
        grid == NewGrid(PresetOf(d).rows, PresetOf(d).cols) && gameState == Playing
        && mineCount == PresetOf(d).mines && time == 0 && isFirstClick
    {
      if d != difficulty {
        difficulty := d;
        NewGame();
      }
    }

    /** One second of the clock: it runs only while playing after the first
        click, and stops at 999. */
    method Tick()
      requires Valid()
      modifies this
      ensures Valid()
      ensures time == if old(gameState) == Playing && !old(isFirstClick) then
        (if old(time) + 1 < 999 then old(time) + 1 else 999) else old(time)
      ensures grid == old(grid) && gameState == old(gameState) && mineCount == old(mineCount)
      ensures difficulty == old(difficulty) && isFirstClick == old(isFirstClick)
    {
      if gameState == Playing && !isFirstClick {
        time := if time + 1 < 999 then time + 1 else 999;
      }
    }

    /** A right click toggles the flag of a hidden cell while playing and
        moves the counter the other way, below zero if need be. */
    method RightClick(r: int, c: int)
      requires Valid() && InBounds(grid, r, c)
      modifies this
      ensures Valid()
      ensures old(gameState) != Playing || old(grid)[r][c].isRevealed ==>
        grid == old(grid) && mineCount == old(mineCount)
      ensures old(gameState) == Playing && !old(grid)[r][c].isRevealed ==>
        && grid == Toggled(old(grid), r, c)
        && mineCount == if grid[r][c].isFlagged then old(mineCount) - 1 else old(mineCount) + 1
      ensures difficulty == old(difficulty) && gameState == old(gameState) && time == old(time)
      ensures isFirstClick == old(isFirstClick)
    {
      if gameState != Playing || grid[r][c].isRevealed {
        return;
      }
      ToggleKeeps(grid, PresetOf(difficulty).rows, PresetOf(difficulty).cols, r, c);
      var newGrid := Toggled(grid, r, c);
      grid := newGrid;
      mineCount := if newGrid[r][c].isFlagged then mineCount - 1 else mineCount + 1;
    }

    /** A left click on a hidden, unflagged cell while playing. The first
        click lays the mines (from the caller's draws) around it. A mine ends
        the game lost with every mine shown; otherwise the flood reveal runs
        and the game is won when every safe cell is open. */
    method CellClick(r: int, c: int, draws: seq<(int, int)>)
      requires Valid() && InBounds(grid, r, c)
      requires isFirstClick ==>
        && (forall k :: 0 <= k < |draws| ==> InBounds(grid, draws[k].0, draws[k].1))
        && |LegalSet(grid, r, c, draws)| >= PresetOf(difficulty).mines
      modifies this
      ensures Valid()
      ensures difficulty == old(difficulty) && time == old(time) && mineCount == old(mineCount)
      ensures old(gameState) != Playing || old(grid)[r][c].isFlagged || old(grid)[r][c].isRevealed ==>
        grid == old(grid) && gameState == old(gameState) && isFirstClick == old(isFirstClick)
      ensures old(gameState) == Playing && !old(grid)[r][c].isFlagged && !old(grid)[r][c].isRevealed ==>
        && !isFirstClick && SameShape(old(grid), grid)
        && (forall i, j :: InBounds(grid, i, j) ==> grid[i][j].isFlagged == old(grid)[i][j].isFlagged)
        && (forall i, j :: InBounds(grid, i, j) && old(grid)[i][j].isRevealed ==> grid[i][j].isRevealed)
        && (old(isFirstClick) ==>
              |MineSet(grid)| == PresetOf(difficulty).mines
              && (forall p :: p in MineSet(grid) ==> !Near(r, c, p.0, p.1)) && gameState != Lost)
        && (!old(isFirstClick) ==> SameMines(old(grid), grid))
        && if !old(isFirstClick) && old(grid)[r][c].isMine then
             && gameState == Lost
             && forall i, j :: InBounds(grid, i, j) ==>
                  grid[i][j] == if old(grid)[i][j].isMine then old(grid)[i][j].(isRevealed := true) else old(grid)[i][j]
           else
             && grid[r][c].isRevealed && SafeReveals(old(grid), grid) && Closed(old(grid), grid)
             && Reached(old(grid), grid, r, c)
             && gameState == if AllSafeRevealed(grid) then Won else Playing
    {
      if gameState == Playing && !grid[r][c].isFlagged && !grid[r][c].isRevealed {
        var p := PresetOf(difficulty);
        var g0 := grid;
        var currentGrid := grid;
        if isFirstClick {
          currentGrid := FirstClickBoard(currentGrid, p.rows, p.cols, p.mines, r, c, draws);
          isFirstClick := false;
        } else {
          assert SameMines(g0, currentGrid);
        }
        if currentGrid[r][c].isMine {
          grid := LoseAt(currentGrid, p.rows, p.cols, r, c);
          gameState := Lost;
        } else {
          var won;
          grid, won := OpenAt(g0, currentGrid, p.rows, p.cols, r, c);
          if won {
            gameState := Won;
          }
        }
      }
    }
  }
}
