/**
  `createBricks`: the grid of bricks laid out under the top border, one
  strategy built for each brick from the shared double-strategy counter,
  which is reset after every brick.
 */
module BrickGrid {
  import opened Outcomes
  import opened Geometry
  import opened Random
  import opened World
  import opened GameManager
  import opened Strategies
  import opened Bricks

  function Abs(n: int): int {
    if n < 0 then -n else n
  }

  /** Java's `/` on `int`: the quotient of the magnitudes, negated when the signs differ. */
  function JavaDiv(a: int, b: int): (q: int)
    requires b != 0
    ensures a >= 0 && b > 0 ==> q == a / b
    ensures Abs(q) == Abs(a) / Abs(b)
    ensures q > 0 ==> (a < 0) == (b < 0)
    ensures q < 0 ==> (a < 0) != (b < 0)
  {
    var magnitude: int := Abs(a) / Abs(b);
    assert magnitude >= 0 by { QuotientNonNegative(Abs(a), Abs(b)); }
    if (a < 0) == (b < 0) then magnitude else -magnitude
  }

  lemma QuotientNonNegative(x: int, y: int)
    requires x >= 0 && y > 0
    ensures x / y >= 0
  {
  }

  lemma DivMod(x: int, y: int)
    requires x >= 0 && y > 0
    ensures x == (x / y) * y + x % y && 0 <= x % y < y
  {
  }

  lemma NegMul(m: int, y: int)
    ensures (-m) * y == -(m * y) && m * (-y) == -(m * y)
  {
  }

  /**
    `JavaDiv` rounds toward zero: the remainder it leaves is smaller than
    the divisor in magnitude and takes the sign of the dividend.
   */
  lemma JavaDivRounding(a: int, b: int)
    requires b != 0
    ensures a >= 0 ==> 0 <= a - JavaDiv(a, b) * b < Abs(b)
    ensures a < 0 ==> -Abs(b) < a - JavaDiv(a, b) * b <= 0
  {
    var m: int := Abs(a) / Abs(b);
    DivMod(Abs(a), Abs(b));
    NegMul(m, Abs(b));
    if a >= 0 && b > 0 {
    } else if a >= 0 {
      assert JavaDiv(a, b) * b == m * Abs(b);
    } else {
      assert JavaDiv(a, b) * b == -(m * Abs(b));
    }
  }

  /** What is left of the window's width for the bricks of one row after the gaps and borders. */
  function RowSpace(width: int, cols: int): int {
    width - GAP_BET_BRICKS * cols - 1 - 2 * BORDER_WIDTH
  }

  /**
    The brick width `createBricks` computes; with no columns the division
    throws. With room to spare it is the widest whole width for which
    `cols` bricks fit into the row space.
   */
  function BrickWidth(width: int, cols: int): (r: Result<int>)
    ensures r.Failure? <==> cols == 0
    ensures cols == 0 ==> r == Failure(DivisionByZero)
    ensures cols > 0 && RowSpace(width, cols) >= 0 ==>
      && r.value >= 0
      && cols * r.value <= RowSpace(width, cols) < cols * (r.value + 1)
  {
    if cols == 0 then Failure(DivisionByZero)
    else
      var space := RowSpace(width, cols);
      if space >= 0 && cols > 0 then
        WholeWidths(space, cols);
        Success(JavaDiv(space, cols))
      else
        Success(JavaDiv(space, cols))
  }

  /** The quotient of two naturals is the largest multiplier that stays within the dividend. */
  lemma WholeWidths(space: int, cols: int)
    requires space >= 0 && cols > 0
    ensures var q := space / cols; q >= 0 && cols * q <= space < cols * (q + 1)
  {
    var q := space / cols;
    DivMod(space, cols);
    assert cols * q == q * cols;
    assert cols * (q + 1) == q * cols + cols;
  }

  /** The left edge of the bricks in column `col`. */
  function BrickX(col: int, brickWidth: int): int {
    col * (brickWidth + GAP_BET_BRICKS) + GAP_BET_BRICKS + BORDER_WIDTH
  }

  /** The top edge of the bricks in row `row`. */
  function BrickY(row: int): int {
    row * (BRICK_HEIGHT + GAP_BET_BRICKS) + GAP_BET_BRICKS + BORDER_WIDTH
  }

  /** The brick object placed at `row`, `col`. */
  function BrickEntity(row: int, col: int, brickWidth: int): Entity {
    Entity(BrickObject, Vec(BrickX(col, brickWidth) as real, BrickY(row) as real),
           Vec(brickWidth as real, BRICK_HEIGHT as real))
  }

  /**
    The layout: every brick of a row lies inside the window with a gap of
    2 after the left border and at least 6 before the right edge, and two
    neighbouring bricks are exactly 2 apart. Rows are 17 apart.
   */
  lemma RowFitsWindow(width: int, cols: int, col: int)
    requires cols > 0 && RowSpace(width, cols) >= 0 && 0 <= col < cols
    ensures var bw := BrickWidth(width, cols).value;
      && BrickX(col, bw) >= GAP_BET_BRICKS + BORDER_WIDTH
      && BrickX(col, bw) + bw <= width - BORDER_WIDTH - 1
      && BrickX(col + 1, bw) - (BrickX(col, bw) + bw) == GAP_BET_BRICKS
    ensures forall row :: BrickY(row + 1) - (BrickY(row) + BRICK_HEIGHT) == GAP_BET_BRICKS
  {
    var bw := BrickWidth(width, cols).value;
    var step := bw + GAP_BET_BRICKS;
    MulMonotone(col, cols - 1, step);
    MulStep(col, step);
    MulStep(cols - 1, step);
    assert cols * bw == bw * cols;
    forall row: int
      ensures BrickY(row + 1) - (BrickY(row) + BRICK_HEIGHT) == GAP_BET_BRICKS
    {
      MulStep(row, BRICK_HEIGHT + GAP_BET_BRICKS);
    }
  }

  lemma MulMonotone(a: int, b: int, c: int)
    requires 0 <= a <= b && c >= 0
    ensures 0 <= a * c <= b * c
  {
    assert b * c - a * c == (b - a) * c;
  }

  lemma MulStep(a: int, c: int)
    ensures (a + 1) * c == a * c + c
  {
  }

  /** How many bricks the two nested loops create. */
  function GridSize(rows: int, cols: int): nat {
    if rows > 0 && cols > 0 then rows * cols else 0
  }

  /**
    The counter the factory sees when it builds brick `k`: the first brick
    sees whatever the counter held on entry, every later one sees 0.
   */
  function CounterAt(k: nat, entry: nat): nat {
    if k == 0 then entry else 0
  }

  /** A brick of the grid and the row and column it was placed at. */
  datatype Placed = Placed(brick: Brick, row: int, col: int)

  datatype Grid = Grid(st: RoundState, rng: Rng, placed: seq<Placed>)

  /**
    What the bricks laid so far satisfy: the `k`-th has id `nextId + k`, a
    place in the grid whose row-major index is `k`, its object at that
    place, and the strategy its own draw selects; nothing else in the
    round changed but the collection, the id counter and the factory
    counter, which is 0 once a brick has been made.
   */
  ghost predicate Laid(st: RoundState, rng: Rng, bw: int, g: Grid) {
    && LaidCounters(st, rng, g)
    && LaidPlaces(st, g)
    && LaidObjects(st, bw, g)
    && LaidDraws(st, rng, g)
  }

  ghost predicate LaidCounters(st: RoundState, rng: Rng, g: Grid) {
    && g.rng.source == rng.source && g.rng.used == rng.used + |g.placed|
    && g.st.doubleCounter == (if |g.placed| == 0 then st.doubleCounter else 0)
    && g.st == st.(objects := g.st.objects, nextId := st.nextId + |g.placed|, doubleCounter := g.st.doubleCounter)
  }

  ghost predicate LaidPlaces(st: RoundState, g: Grid) {
    forall k :: 0 <= k < |g.placed| ==>
      && g.placed[k].brick.id == st.nextId + k
      && 0 <= g.placed[k].row < st.rows && 0 <= g.placed[k].col < st.cols
      && g.placed[k].row * st.cols + g.placed[k].col == k
  }

  ghost predicate LaidObjects(st: RoundState, bw: int, g: Grid) {
    && LaidAt(st, bw, g)
    && (forall id :: id in g.st.objects && id !in st.objects ==> g.st.objects[id].kind == BrickObject)
    && (FreshIds(st) ==> Extends(st.objects, g.st.objects, IdsBetween(st.nextId, g.st.nextId)))
  }

  ghost predicate LaidAt(st: RoundState, bw: int, g: Grid) {
    forall k :: 0 <= k < |g.placed| ==>
      var p := g.placed[k];
      p.brick.id in g.st.objects && g.st.objects[p.brick.id] == BrickEntity(p.row, p.col, bw)
  }

  ghost predicate LaidDraws(st: RoundState, rng: Rng, g: Grid) {
    forall k :: 0 <= k < |g.placed| ==>
      Select(rng.source(rng.used + k) % DrawRange(CounterAt(k, st.doubleCounter))) == Some(g.placed[k].brick.strategy)
  }

  /**
    One pass of the inner loop body: build a strategy, reset the counter,
    add the brick at `row`, `col`.
   */
  function PlaceBrick(g: Grid, row: int, col: int, bw: int): (r: Grid)
    ensures |r.placed| == |g.placed| + 1 && r.placed[..|g.placed|] == g.placed
    ensures var last := r.placed[|g.placed|];
      && last.brick.id == g.st.nextId && last.row == row && last.col == col
      && Select(g.rng.source(g.rng.used) % DrawRange(g.st.doubleCounter)) == Some(last.brick.strategy)
    ensures r.rng.source == g.rng.source && r.rng.used == g.rng.used + 1
    ensures r.st.doubleCounter == 0
    ensures r.st.objects.Keys == g.st.objects.Keys + {g.st.nextId}
    ensures r.st.objects[g.st.nextId] == BrickEntity(row, col, bw)
    ensures r.st.bricks == g.st.bricks && r.st.nextId == g.st.nextId + 1
  {
    var built := Build(g.st.doubleCounter, g.rng);
    var brick := Brick(g.st.nextId, built.strategy);
    Grid(Spawn(g.st.(doubleCounter := 0), BrickEntity(row, col, bw)), built.rng, g.placed + [Placed(brick, row, col)])
  }

  lemma PlaceBrickKeepsLaid(st: RoundState, rng: Rng, bw: int, g: Grid, row: int, col: int)
    requires Laid(st, rng, bw, g)
    requires 0 <= row < st.rows && 0 <= col < st.cols && row * st.cols + col == |g.placed|
    ensures Laid(st, rng, bw, PlaceBrick(g, row, col, bw))
  {
    PlaceKeepsCounters(st, rng, g, row, col, bw);
    PlaceKeepsPlaces(st, rng, g, row, col, bw);
    PlaceKeepsObjects(st, rng, g, row, col, bw);
    PlaceKeepsDraws(st, rng, g, row, col, bw);
  }

  lemma PlaceKeepsCounters(st: RoundState, rng: Rng, g: Grid, row: int, col: int, bw: int)
    requires LaidCounters(st, rng, g)
    ensures LaidCounters(st, rng, PlaceBrick(g, row, col, bw))
  {
  }

  lemma PlaceKeepsPlaces(st: RoundState, rng: Rng, g: Grid, row: int, col: int, bw: int)
    requires LaidCounters(st, rng, g) && LaidPlaces(st, g)
    requires 0 <= row < st.rows && 0 <= col < st.cols && row * st.cols + col == |g.placed|
    ensures LaidPlaces(st, PlaceBrick(g, row, col, bw))
  {
  }

  lemma PlaceKeepsObjects(st: RoundState, rng: Rng, g: Grid, row: int, col: int, bw: int)
    requires LaidCounters(st, rng, g) && LaidPlaces(st, g) && LaidObjects(st, bw, g)
    ensures LaidObjects(st, bw, PlaceBrick(g, row, col, bw))
  {
    assert g.st.nextId == st.nextId + |g.placed|;
    PlaceKeepsAt(st, g, row, col, bw);
    PlaceKeepsFresh(st, g, row, col, bw);
  }

  lemma PlaceKeepsFresh(st: RoundState, g: Grid, row: int, col: int, bw: int)
    requires st.nextId <= g.st.nextId
    requires forall id :: id in g.st.objects && id !in st.objects ==> g.st.objects[id].kind == BrickObject
    requires FreshIds(st) ==> Extends(st.objects, g.st.objects, IdsBetween(st.nextId, g.st.nextId))
    ensures var r := PlaceBrick(g, row, col, bw);
      && (forall id :: id in r.st.objects && id !in st.objects ==> r.st.objects[id].kind == BrickObject)
      && (FreshIds(st) ==> Extends(st.objects, r.st.objects, IdsBetween(st.nextId, r.st.nextId)))
  {
    PlaceKeepsKinds(st, g, row, col, bw);
    if FreshIds(st) {
      var r := PlaceBrick(g, row, col, bw);
      assert r.st.objects == g.st.objects[g.st.nextId := BrickEntity(row, col, bw)];
      assert r.st.nextId == g.st.nextId + 1;
      SpawnExtends(st, g.st.objects, g.st.nextId, BrickEntity(row, col, bw));
    }
  }

  lemma PlaceKeepsKinds(st: RoundState, g: Grid, row: int, col: int, bw: int)
    requires forall id :: id in g.st.objects && id !in st.objects ==> g.st.objects[id].kind == BrickObject
    ensures var r := PlaceBrick(g, row, col, bw);
      forall id :: id in r.st.objects && id !in st.objects ==> r.st.objects[id].kind == BrickObject
  {
  }

  lemma SpawnExtends(st: RoundState, objects: map<EntityId, Entity>, next: nat, e: Entity)
    requires FreshIds(st) && st.nextId <= next
    requires Extends(st.objects, objects, IdsBetween(st.nextId, next))
    ensures Extends(st.objects, objects[next := e], IdsBetween(st.nextId, next + 1))
  {
    IdsBetweenStep(st.nextId, next);
    ExtendsByOne(st.objects, objects, IdsBetween(st.nextId, next), next, e);
  }

  lemma IdsBetweenStep(lo: nat, hi: nat)
    requires lo <= hi
    ensures IdsBetween(lo, hi + 1) == IdsBetween(lo, hi) + {hi}
  {
  }

  lemma ExtendsByOne(a: map<EntityId, Entity>, b: map<EntityId, Entity>, ids: set<EntityId>, x: EntityId, e: Entity)
    requires Extends(a, b, ids) && x !in a
    ensures Extends(a, b[x := e], ids + {x})
  {
  }

  lemma PlaceKeepsAt(st: RoundState, g: Grid, row: int, col: int, bw: int)
    requires LaidPlaces(st, g) && g.st.nextId == st.nextId + |g.placed| && LaidAt(st, bw, g)
    ensures LaidAt(st, bw, PlaceBrick(g, row, col, bw))
  {
    var n := |g.placed|;
    var r := PlaceBrick(g, row, col, bw);
    assert r.st.objects == g.st.objects[g.st.nextId := BrickEntity(row, col, bw)];
    assert r.placed == g.placed + [Placed(Brick(g.st.nextId, r.placed[n].brick.strategy), row, col)];
    forall k | 0 <= k < n + 1
      ensures r.placed[k].brick.id in r.st.objects
      ensures r.st.objects[r.placed[k].brick.id] == BrickEntity(r.placed[k].row, r.placed[k].col, bw)
    {
      if k < n {
        assert r.placed[k] == g.placed[k];
        assert g.placed[k].brick.id < g.st.nextId;
      }
    }
  }

  lemma PlaceKeepsDraws(st: RoundState, rng: Rng, g: Grid, row: int, col: int, bw: int)
    requires LaidCounters(st, rng, g) && LaidDraws(st, rng, g)
    ensures LaidDraws(st, rng, PlaceBrick(g, row, col, bw))
  {
    assert DrawRange(g.st.doubleCounter) == DrawRange(CounterAt(|g.placed|, st.doubleCounter));
  }

  lemma NothingLaid(st: RoundState, rng: Rng, bw: int)
    ensures Laid(st, rng, bw, Grid(st, rng, []))
  {
    assert IdsBetween(st.nextId, st.nextId) == {};
  }

  /** The inner loop of `createBricks`: the bricks of row `row`, left to right. */
  method PlaceRow(st: RoundState, rng: Rng, bw: int, g: Grid, row: int) returns (r: Grid)
    requires Laid(st, rng, bw, g)
    requires st.cols > 0 && 0 <= row < st.rows && |g.placed| == row * st.cols
    ensures Laid(st, rng, bw, r)
    ensures |r.placed| == (row + 1) * st.cols
  {
    r := g;
    var j := 0;
    while j < st.cols
      invariant 0 <= j <= st.cols
      invariant |r.placed| == row * st.cols + j
      invariant Laid(st, rng, bw, r)
    {
      PlaceBrickKeepsLaid(st, rng, bw, r, row, j);
      r := PlaceBrick(r, row, j, bw);
      j := j + 1;
    }
  }

  /**
    `createBricks`: bricks in row-major order, one fresh id each, each at
    its place in the layout with the strategy its own draw selects, and
    the counter 0 once any brick has been made.
   */
  method CreateBricks(st: RoundState, rng: Rng) returns (r: Result<Grid>)
    ensures r.Failure? <==> st.cols == 0
    ensures r.Failure? ==> r.error == DivisionByZero
    ensures r.Success? ==>
      && |r.value.placed| == GridSize(st.rows, st.cols)
      && Laid(st, rng, BrickWidth(st.width, st.cols).value, r.value)
  {
    var width := BrickWidth(st.width, st.cols);
    if width.Failure? {
      return Failure(DivisionByZero);
    }
    var bw := width.value;
    var g := Grid(st, rng, []);
    NothingLaid(st, rng, bw);
    if st.cols < 0 {
      // The inner loop never runs: no bricks, whatever the rows.
      return Success(g);
    }
    var i := 0;
    while i < st.rows
      invariant 0 <= i && (i <= st.rows || i == 0)
      invariant |g.placed| == i * st.cols
      invariant Laid(st, rng, bw, g)
    {
      g := PlaceRow(st, rng, bw, g, i);
      i := i + 1;
    }
    return Success(g);
  }

  /**
    When the grid goes into a collection whose ids are all below the first
    new one, the collection holds exactly `n` more bricks than before.
   */
  lemma {:induction false} GridAddsBricks(before: map<EntityId, Entity>, after: map<EntityId, Entity>, lo: nat, n: nat)
    requires forall id :: id in before ==> id < lo
    requires Extends(before, after, IdsBetween(lo, lo + n))
    requires forall id :: id in after && id !in before ==> after[id].kind == BrickObject
    ensures BrickIds(after) == BrickIds(before) + IdsBetween(lo, lo + n)
    ensures |BrickIds(after)| == |BrickIds(before)| + n
  {
    var added := IdsBetween(lo, lo + n);
    GridBrickIds(before, after, lo, n);
    assert BrickIds(after) == BrickIds(before) + added;
    assert BrickIds(before) !! added;
    RangeCount(lo, n);
    UnionCount(BrickIds(after), BrickIds(before), added, n);
  }

  lemma RangeCount(lo: nat, n: nat)
    ensures |IdsBetween(lo, lo + n)| == n
  {
    IdsBetweenSize(lo, lo + n);
  }

  lemma UnionCount(c: set<EntityId>, a: set<EntityId>, b: set<EntityId>, n: nat)
    requires c == a + b && a !! b && |b| == n
    ensures |c| == |a| + n
  {
    DisjointUnionSize(a, b);
  }

  lemma {:induction false} GridBrickIds(before: map<EntityId, Entity>, after: map<EntityId, Entity>, lo: nat, n: nat)
    requires forall id :: id in before ==> id < lo
    requires Extends(before, after, IdsBetween(lo, lo + n))
    requires forall id :: id in after && id !in before ==> after[id].kind == BrickObject
    ensures BrickIds(after) == BrickIds(before) + IdsBetween(lo, lo + n)
    ensures BrickIds(before) !! IdsBetween(lo, lo + n)
  {
    var added := IdsBetween(lo, lo + n);
    forall id | id in added
      ensures id in BrickIds(after)
    {
      assert id !in before;
    }
    forall id | id in BrickIds(before)
      ensures id !in added
    {
      assert id < lo;
    }
  }

  lemma DisjointUnionSize(a: set<EntityId>, b: set<EntityId>)
    requires a !! b
    ensures |a + b| == |a| + |b|
  {
    assert a * b == {};
  }

  /**
    On a fresh factory counter every brick of the grid can carry any of
    the six strategies, `Double` included, because the counter is reset
    after each brick.
   */
  lemma EveryBrickMayBeDouble(entry: nat, k: nat)
    requires entry < DOUBLE_LIMIT || k > 0
    ensures DrawRange(CounterAt(k, entry)) == 10
    ensures Select(9 % DrawRange(CounterAt(k, entry))) == Some(Double)
  {
  }
}
