/**
  The collision strategies a brick can carry and `CollsionStrategyFactory`,
  which picks one from a random draw and the shared double-strategy counter.

  The factory reads and writes the game manager's `doubleStrategrCounter`;
  here the counter is passed in and its new value handed back.
 */
module Strategies {
  import opened Outcomes
  import opened Random

  /** One constructor per implementation of the `CollisionStrategy` interface. */
  datatype Strategy = Basic | MoreBalls | AddLife | TempPaddle | Turbo | Double

  /** Below this counter value the draw range still includes `Double`. */
  const DOUBLE_LIMIT: nat := 2

  /** `nextInt(10)` while the counter is below 2, `nextInt(9)` afterwards. */
  function DrawRange(counter: nat): (n: nat)
    ensures n == 9 || n == 10
    ensures n == 10 <==> counter < DOUBLE_LIMIT
  {
    if counter < DOUBLE_LIMIT then 10 else 9
  }

  /**
    The `if`/`else if` chain over the draw. `None` is the `null` the
    strategy variable starts as, left in place when no branch matches.
   */
  function Select(draw: int): Option<Strategy> {
    if 0 <= draw <= 4 then Some(Basic)
    else if draw == 5 then Some(MoreBalls)
    else if draw == 6 then Some(AddLife)
    else if draw == 7 then Some(TempPaddle)
    else if draw == 8 then Some(Turbo)
    else if draw == 9 then Some(Double)
    else None
  }

  /** An independent statement of the mapping: the draws that select each strategy. */
  function DrawsOf(s: Strategy): set<int> {
    match s
    case Basic => {0, 1, 2, 3, 4}
    case MoreBalls => {5}
    case AddLife => {6}
    case TempPaddle => {7}
    case Turbo => {8}
    case Double => {9}
  }

  /** The chain and the table agree, in both directions. */
  lemma SelectMatchesDraws(draw: int, s: Strategy)
    ensures Select(draw) == Some(s) <==> draw in DrawsOf(s)
  {
  }

  /** Exactly the draws of `[0, 10)` overwrite the `null` initialiser. */
  lemma SelectDefinedExactlyOnRange(draw: int)
    ensures Select(draw).Some? <==> 0 <= draw < 10
  {
  }

  /** The factory's result: the strategy, the new counter and the generator after the draw. */
  datatype Built = Built(strategy: Strategy, counter: nat, rng: Rng)

  /**
    `buildCollisionStrategy`. Below the limit the counter is incremented
    with the draw, and every call then adds one more (`increaseBy(1)`).
   */
  function Build(counter: nat, rng: Rng): (b: Built)
    ensures counter < DOUBLE_LIMIT ==> b.counter == counter + 2
    ensures counter >= DOUBLE_LIMIT ==> b.counter == counter + 1
    ensures b.counter >= DOUBLE_LIMIT
    ensures b.strategy == Double ==> counter < DOUBLE_LIMIT
    ensures b.rng.source == rng.source && b.rng.used == rng.used + 1
    ensures Select(rng.source(rng.used) % DrawRange(counter)) == Some(b.strategy)
  {
    var (draw, rng') := NextInt(rng, DrawRange(counter));
    var counter' := if counter < DOUBLE_LIMIT then counter + 1 else counter;
    var chosen := Select(draw);
    assert chosen.Some?;
    Built(chosen.value, counter' + 1, rng')
  }

  /**
    Every strategy the current range allows can be built: all six while
    the counter is below 2, all but `Double` afterwards.
   */
  lemma BuildReachable(counter: nat, rng: Rng, s: Strategy)
    requires s != Double || counter < DOUBLE_LIMIT
    ensures exists d: nat :: Build(counter, Forcing(rng, d)).strategy == s
  {
    var d: nat := match s
      case Basic => 0
      case MoreBalls => 5
      case AddLife => 6
      case TempPaddle => 7
      case Turbo => 8
      case Double => 9;
    assert d < DrawRange(counter);
    var b := Build(counter, Forcing(rng, d));
    assert Select(d % DrawRange(counter)) == Some(b.strategy);
  }

  /**
    Successive builds only raise the counter, and after the first one it is
    at least 2, so a factory can produce `Double` on its first build at most.
   */
  lemma SecondBuildNeverDouble(counter: nat, rng: Rng)
    ensures Build(Build(counter, rng).counter, Build(counter, rng).rng).strategy != Double
    ensures Build(Build(counter, rng).counter, Build(counter, rng).rng).counter > counter + 1
  {
  }
}
