/**
  The constructor of `BrickerGameManager` and `initializeGame`: the ball in
  the middle of the window, the brick grid, the row of five life hearts,
  the life counter and the user's paddle. Borders, background, images and
  sounds are not part of the round state. The random signs of the ball's
  first velocity are inputs.
 */
module Setup {
  import opened Outcomes
  import opened Geometry
  import opened Random
  import opened World
  import opened GameManager
  import opened Strategies
  import opened Bricks
  import opened BrickGrid
  import opened Decimal
  import opened LifeCounter
  import opened Paddles
  import opened RoundInvariant
  import GameLoop

  /**
    `main`: exactly two command-line arguments (here already parsed) give
    the rows and the columns; any other number gives the 7 by 8 default
    grid of 56 bricks.
   */
  function GridDimensions(args: seq<int>): (r: (int, int))
    ensures |args| == 2 ==> r == (args[0], args[1])
    ensures |args| != 2 ==> r == (BRICK_ROWS, BRICK_COLS) && GridSize(r.0, r.1) == 56
  {
    if |args| == 2 then (args[0], args[1]) else (BRICK_ROWS, BRICK_COLS)
  }

  /**
    The constructor with the field initialisers: five lives, the brick
    counter at rows * columns (whatever the grid will hold), turbo off,
    both counters at 0, empty lists and an empty collection. The window
    size is the one `initializeGame` reads from the window controller.
    There is no life counter yet: the display is blank until `createNumeric`.
   */
  function NewRound(width: int, height: int, rows: int, cols: int): (r: RoundState)
    ensures r.width == width && r.height == height && r.rows == rows && r.cols == cols
    ensures r.lives == LIFE && r.bricks == cols * rows
    ensures !r.turbo && r.paddleGuard == 0 && r.doubleCounter == 0
    ensures r.objects == map[] && r.nextId == 0 && r.pucks == [] && r.sweepHearts == []
  {
    RoundState(width, height, rows, cols, LIFE, [], cols * rows, false, 0, 0,
               Ball(Zero, Zero, 0, 0), [], [], map[], 0, Display("", Green))
  }

  /**
    Answering yes to "Play again?" resets lives, the brick counter, turbo
    and the guard to what the constructor set them to, but not the shared
    double-strategy counter.
   */
  lemma RestartLikeConstructor(st: RoundState)
    ensures var r := GameLoop.Restart(st);
      var n := NewRound(st.width, st.height, st.rows, st.cols);
      && r.lives == n.lives && r.bricks == n.bricks && r.turbo == n.turbo && r.paddleGuard == n.paddleGuard
      && r.doubleCounter == st.doubleCounter
  {
  }

  /**
    `createBall`: centred in the window, moving at 200 along each axis,
    each sign chosen by a coin, with both collision counters at 0.
   */
  function CreateBall(st: RoundState, flipX: bool, flipY: bool): (r: RoundState)
    ensures r.ball.centre == Vec(st.width as real / 2.0, st.height as real / 2.0)
    ensures r.ball.velocity.x == (if flipX then -BALL_SPEED else BALL_SPEED)
    ensures r.ball.velocity.y == (if flipY then -BALL_SPEED else BALL_SPEED)
    ensures r.ball.turboCounter == 0 && r.ball.collisionCounter == 0
    ensures r == st.(ball := r.ball)
  {
    var vx := if flipX then BALL_SPEED * -1.0 else BALL_SPEED;
    var vy := if flipY then BALL_SPEED * -1.0 else BALL_SPEED;
    st.(ball := Ball(Mult(Vec(st.width as real, st.height as real), 0.5), Vec(vx, vy), 0, 0))
  }

  /**
    `createHearts`: a fresh array of five slots, filled in order with new
    life hearts along the bottom of the window.
   */
  method CreateHearts(st: RoundState) returns (r: RoundState)
    ensures |r.hearts| == MAX_LIFE && r.nextId == st.nextId + LIFE
    ensures forall slot :: 0 <= slot < LIFE ==>
      r.hearts[slot] == st.nextId + slot && r.hearts[slot] in r.objects && r.objects[r.hearts[slot]] == LifeHeart(slot, st.height)
    ensures FreshIds(st) ==> Extends(st.objects, r.objects, IdsBetween(st.nextId, r.nextId))
    ensures r == st.(hearts := r.hearts, objects := r.objects, nextId := r.nextId)
  {
    r := st.(hearts := []);
    var i := 0;
    while i < LIFE
      invariant 0 <= i <= LIFE
      invariant |r.hearts| == i && r.nextId == st.nextId + i
      invariant forall slot :: 0 <= slot < i ==>
        r.hearts[slot] == st.nextId + slot && r.hearts[slot] in r.objects && r.objects[r.hearts[slot]] == LifeHeart(slot, st.height)
      invariant FreshIds(st) ==> Extends(st.objects, r.objects, IdsBetween(st.nextId, r.nextId))
      invariant r == st.(hearts := r.hearts, objects := r.objects, nextId := r.nextId)
    {
      assert IdsBetween(st.nextId, r.nextId + 1) == IdsBetween(st.nextId, r.nextId) + {r.nextId};
      r := Spawn(r, LifeHeart(i, st.height)).(hearts := r.hearts + [r.nextId]);
      i := i + 1;
    }
  }

  /** `createNumeric`: a green counter showing the current number of lives. */
  function CreateNumeric(st: RoundState): (r: RoundState)
    ensures ParseDecimal(r.display.text) == Some(st.lives) && r.display.color == Green
    ensures r == st.(display := r.display)
  {
    st.(display := LifeCounter.New(st.lives, Green))
  }

  /** `createPaddle`: the user's paddle, centred 30 above the bottom of the window. */
  function CreatePaddle(st: RoundState): (r: RoundState)
    ensures st.nextId in r.objects && r.objects[st.nextId] == MainPaddle(st.width, st.height)
    ensures r.objects == st.objects[st.nextId := MainPaddle(st.width, st.height)]
    ensures r == st.(objects := r.objects, nextId := st.nextId + 1)
  {
    Spawn(st, MainPaddle(st.width, st.height))
  }

  /**
    `initializeGame` on a new manager. It throws when there are no columns
    (the brick width divides by them). Otherwise the collection holds
    exactly one brick per grid place, the counter shows five lives in
    green, and with a non-negative number of rows and some columns the
    round starts valid. With a negative count the brick counter
    (rows * columns) disagrees with the bricks actually laid.
   */
  method InitializeGame(width: int, height: int, rows: int, cols: int, rng: Rng, flipX: bool, flipY: bool)
    returns (r: Result<Grid>)
    ensures r.Failure? <==> cols == 0
    ensures r.Failure? ==> r.error == DivisionByZero
    ensures r.Success? ==>
      && |r.value.placed| == GridSize(rows, cols)
      && |BrickIds(r.value.st.objects)| == GridSize(rows, cols)
      && r.value.st.bricks == rows * cols
      && r.value.st.lives == LIFE
      && ParseDecimal(r.value.st.display.text) == Some(LIFE) && r.value.st.display.color == Green
      && r.value.st.ball.centre == Vec(width as real / 2.0, height as real / 2.0)
      && (rows >= 0 && cols > 0 ==> Valid(r.value.st))
  {
    var st := CreateBall(NewRound(width, height, rows, cols), flipX, flipY);
    assert st.ball.centre == Vec(width as real / 2.0, height as real / 2.0);
    assert st.bricks == rows * cols by {
      assert cols * rows == rows * cols;
    }
    var grid := CreateBricks(st, rng);
    if grid.Failure? {
      return Failure(grid.error);
    }
    var g := grid.value;
    BricksLaidOnEmptyRound(st, rng, BrickWidth(width, cols).value, g);
    assert rows >= 0 && cols > 0 ==> GridSize(rows, cols) == rows * cols;
    var withHearts := CreateHearts(g.st);
    var shown := CreateNumeric(withHearts);
    var done := CreatePaddle(shown);
    FinishedRoundValid(g.st, withHearts, done);
    IntToStringRoundTrip(LIFE);
    r := Success(g.(st := done));
  }

  /** On an empty collection the grid is all there is: its bricks, under the first ids. */
  lemma BricksLaidOnEmptyRound(st: RoundState, rng: Rng, bw: int, g: Grid)
    requires st.objects == map[] && st.nextId == 0
    requires Laid(st, rng, bw, g)
    ensures g.st == st.(objects := g.st.objects, nextId := |g.placed|, doubleCounter := g.st.doubleCounter)
    ensures g.st.ball == st.ball && g.st.bricks == st.bricks && g.st.lives == st.lives
    ensures FreshIds(g.st) && TempPaddleIds(g.st.objects) == {}
    ensures |BrickIds(g.st.objects)| == |g.placed|
  {
    var n := |g.placed|;
    GridAddsBricks(st.objects, g.st.objects, 0, n);
    assert BrickIds(st.objects) == {};
  }

  /** The hearts, the counter and the paddle add no brick and no temporary paddle, and leave a valid round. */
  lemma FinishedRoundValid(bricked: RoundState, withHearts: RoundState, done: RoundState)
    requires FreshIds(bricked) && TempPaddleIds(bricked.objects) == {}
    requires bricked.lives == LIFE && bricked.pucks == [] && bricked.sweepHearts == [] && bricked.paddleGuard == 0
    requires |withHearts.hearts| == MAX_LIFE && withHearts.nextId == bricked.nextId + LIFE
    requires forall slot :: 0 <= slot < LIFE ==>
      withHearts.hearts[slot] == bricked.nextId + slot && withHearts.hearts[slot] in withHearts.objects
      && withHearts.objects[withHearts.hearts[slot]] == LifeHeart(slot, bricked.height)
    requires Extends(bricked.objects, withHearts.objects, IdsBetween(bricked.nextId, withHearts.nextId))
    requires withHearts == bricked.(hearts := withHearts.hearts, objects := withHearts.objects, nextId := withHearts.nextId)
    requires done == CreatePaddle(CreateNumeric(withHearts))
    ensures BrickIds(done.objects) == BrickIds(bricked.objects)
    ensures done.ball == bricked.ball && done.bricks == bricked.bricks && done.lives == bricked.lives
    ensures bricked.bricks == |BrickIds(bricked.objects)| ==> Valid(done)
  {
    assert BrickIds(withHearts.objects) == BrickIds(bricked.objects) by {
      forall id | id in withHearts.objects && id !in bricked.objects
        ensures withHearts.objects[id].kind == HudHeartObject
      {
        assert bricked.nextId <= id < withHearts.nextId;
        assert withHearts.hearts[id - bricked.nextId] == id;
      }
    }
    assert TempPaddleIds(withHearts.objects) == {} by {
      forall id | id in withHearts.objects && id !in bricked.objects
        ensures withHearts.objects[id].kind == HudHeartObject
      {
        assert withHearts.hearts[id - bricked.nextId] == id;
      }
    }
    assert BrickIds(done.objects) == BrickIds(withHearts.objects);
    assert TempPaddleIds(done.objects) == {};
    IntToStringRoundTrip(LIFE);
  }
}
