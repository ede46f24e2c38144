/**
  What each collision strategy does when its brick is hit (`onCollision`),
  as one recursive transition of the round state. `Double` builds two more
  strategies from the shared counter at the moment of the hit and applies
  them in order, so its recursion is bounded by that counter.
 */
module Effects {
  import opened Geometry
  import opened Random
  import opened World
  import opened GameManager
  import opened Strategies

  /** `TurboCollisionStrategy.MULT_SPEED`. */
  const TURBO_FACTOR: real := 1.4

  /** 1 while the counter still lets a build produce `Double`, 0 afterwards. */
  function Budget(counter: nat): nat {
    if counter < DOUBLE_LIMIT then 1 else 0
  }

  function Rank(s: Strategy): nat {
    if s == Double then 1 else 0
  }

  /** The parts of the round no strategy touches: lives, hearts, bricks, display, window and grid. */
  predicate Untouched(before: RoundState, after: RoundState) {
    && after.lives == before.lives
    && after.hearts == before.hearts
    && after.bricks == before.bricks
    && after.sweepHearts == before.sweepHearts
    && after.display == before.display
    && after.width == before.width && after.height == before.height
    && after.rows == before.rows && after.cols == before.cols
  }

  datatype Applied = Applied(st: RoundState, rng: Rng)

  /**
    What every strategy may do to the round: leave lives, hearts, bricks
    and the display alone, only add objects under fresh ids, and move the
    paddle guard only from 0 to 2.
   */
  ghost predicate EffectOnly(before: RoundState, after: RoundState) {
    && Untouched(before, after)
    && Grows(before, after)
    && (after.paddleGuard == before.paddleGuard || (before.paddleGuard == 0 && after.paddleGuard == 2))
    && (FreshIds(before) ==> FreshIds(after) && Extends(before.objects, after.objects, IdsBetween(before.nextId, after.nextId)))
  }

  /** `BasicCollisionStrategy.onCollision`: nothing. */
  function BasicOnCollision(st: RoundState): (r: RoundState)
    ensures EffectOnly(st, r) && r.nextId == st.nextId && r.objects == st.objects
  {
    st
  }

  /** `MoreBallsCollisionStrategy.onCollision`: two pucks at the other object's centre. */
  function MoreBallsOnCollision(other: Vec, st: RoundState): (r: RoundState)
    ensures EffectOnly(st, r)
    ensures r.nextId == st.nextId + 2 && r.pucks == st.pucks + [st.nextId, st.nextId + 1]
    ensures r.turbo == st.turbo && r.ball == st.ball && r.paddleGuard == st.paddleGuard
  {
    var r := CreatePuck(CreatePuck(st, other), other);
    assert IdsBetween(st.nextId, st.nextId + 2) == {st.nextId, st.nextId + 1};
    r
  }

  /** `AddLifeCollisionStrategy.onCollision`: one falling heart at the other object's centre. */
  function AddLifeOnCollision(other: Vec, st: RoundState): (r: RoundState)
    ensures EffectOnly(st, r)
    ensures r.nextId == st.nextId + 1 && st.nextId in r.objects
    ensures r.objects[st.nextId] == FallingHeart(other)
    ensures r.pucks == st.pucks && r.turbo == st.turbo && r.ball == st.ball && r.paddleGuard == st.paddleGuard
  {
    var r := CreateFallenHeart(st, other);
    assert IdsBetween(st.nextId, st.nextId + 1) == {st.nextId};
    r
  }

  /** `TemporaryPaddleCollisionStrategy.onCollision`: a paddle only while the guard is 0. */
  function TempPaddleOnCollision(st: RoundState): (r: RoundState)
    ensures EffectOnly(st, r)
    ensures st.paddleGuard != 0 ==> r == st
    ensures st.paddleGuard == 0 ==> r.paddleGuard == 2 && r.nextId == st.nextId + 1 && IsTempPaddle(r.objects, st.nextId)
    ensures r.pucks == st.pucks && r.turbo == st.turbo && r.ball == st.ball
  {
    if st.paddleGuard == 0 then
      var r := CreateTemporaryPaddle(st);
      assert IdsBetween(st.nextId, st.nextId + 1) == {st.nextId};
      r
    else
      st
  }

  /** `TurboCollisionStrategy.onCollision`: turbo on and the ball sped up, unless already on. */
  function TurboOnCollision(st: RoundState): (r: RoundState)
    ensures EffectOnly(st, r) && r.objects == st.objects && r.nextId == st.nextId
    ensures st.turbo ==> r == st
    ensures !st.turbo ==> r.turbo && r.ball == st.ball.(velocity := Mult(st.ball.velocity, TURBO_FACTOR))
    ensures r == st.(turbo := r.turbo, ball := r.ball)
  {
    if !TurboMode(st) then SetTurboBall(SetTurbo(st, true), TURBO_FACTOR) else st
  }

  /**
    `onCollision(thisObj, otherObj)` of strategy `s`, where `other` is the
    centre of `otherObj`. Only `Double` draws, and only `Double` moves the
    shared counter; it consumes two draws, or four when a nested `Double`
    was built while the counter was still below 2.
   */
  function Apply(s: Strategy, other: Vec, st: RoundState, rng: Rng): (r: Applied)
    ensures EffectOnly(st, r.st)
    ensures r.rng.source == rng.source
    ensures s != Double ==> r.rng.used == rng.used && r.st.doubleCounter == st.doubleCounter
    ensures s == Double ==> r.st.doubleCounter >= st.doubleCounter + 2 && r.st.doubleCounter >= DOUBLE_LIMIT + 1
    ensures s == Double ==> r.rng.used == rng.used + 2 || (st.doubleCounter < DOUBLE_LIMIT && r.rng.used == rng.used + 4)
    decreases Budget(st.doubleCounter), Rank(s), 1
  {
    match s
    case Basic => Applied(BasicOnCollision(st), rng)
    case MoreBalls => Applied(MoreBallsOnCollision(other, st), rng)
    case AddLife => Applied(AddLifeOnCollision(other, st), rng)
    case TempPaddle => Applied(TempPaddleOnCollision(st), rng)
    case Turbo => Applied(TurboOnCollision(st), rng)
    case Double => ApplyDouble(other, st, rng)
  }

  /**
    `DoubleBehvaviorCollisionStrategy.onCollision`: build a strategy and
    apply it, then build another from the counter as the first left it and
    apply that one, both to the same pair of objects.
   */
  function ApplyDouble(other: Vec, st: RoundState, rng: Rng): (r: Applied)
    ensures EffectOnly(st, r.st)
    ensures r.rng.source == rng.source
    ensures r.st.doubleCounter >= st.doubleCounter + 2 && r.st.doubleCounter >= DOUBLE_LIMIT + 1
    ensures r.rng.used == rng.used + 2 || (st.doubleCounter < DOUBLE_LIMIT && r.rng.used == rng.used + 4)
    decreases Budget(st.doubleCounter), 1, 0
  {
    var first := Build(st.doubleCounter, rng);
    var afterFirst := Apply(first.strategy, other, st.(doubleCounter := first.counter), first.rng);
    var second := Build(afterFirst.st.doubleCounter, afterFirst.rng);
    var r := Apply(second.strategy, other, afterFirst.st.(doubleCounter := second.counter), second.rng);
    GrowsTransitive(st, afterFirst.st, r.st);
    if FreshIds(st) then
      ExtendsTransitive(st.objects, afterFirst.st.objects, r.st.objects, st.nextId, afterFirst.st.nextId, r.st.nextId);
      r
    else
      r
  }

  /**
    Objects are only ever added, and only under ids handed out in between:
    an object missing before and present after has an id from that range.
   */
  predicate Grows(before: RoundState, after: RoundState) {
    && before.nextId <= after.nextId
    && before.objects.Keys <= after.objects.Keys
    && forall id :: id in after.objects && id !in before.objects ==> before.nextId <= id < after.nextId
  }

  lemma GrowsTransitive(a: RoundState, b: RoundState, c: RoundState)
    requires Grows(a, b) && Grows(b, c)
    ensures Grows(a, c)
  {
  }

  /** Growing the collection twice by consecutive id ranges grows it by their union. */
  lemma ExtendsTransitive(a: map<EntityId, Entity>, b: map<EntityId, Entity>, c: map<EntityId, Entity>, i: nat, j: nat, k: nat)
    requires i <= j <= k
    requires Extends(a, b, IdsBetween(i, j)) && Extends(b, c, IdsBetween(j, k))
    ensures Extends(a, c, IdsBetween(i, k))
  {
    assert IdsBetween(i, j) + IdsBetween(j, k) == IdsBetween(i, k);
  }

  /**
    How deeply `Double` applications nest in one hit: 0 for any other
    strategy, otherwise one more than the deeper of its two nested ones.
   */
  function DoubleDepth(s: Strategy, other: Vec, st: RoundState, rng: Rng): nat
    decreases Budget(st.doubleCounter), Rank(s)
  {
    if s != Double then 0
    else
      var first := Build(st.doubleCounter, rng);
      var st1 := st.(doubleCounter := first.counter);
      var afterFirst := Apply(first.strategy, other, st1, first.rng);
      var second := Build(afterFirst.st.doubleCounter, afterFirst.rng);
      var st3 := afterFirst.st.(doubleCounter := second.counter);
      var d1 := DoubleDepth(first.strategy, other, st1, first.rng);
      var d2 := DoubleDepth(second.strategy, other, st3, second.rng);
      1 + if d1 >= d2 then d1 else d2
  }

  /**
    The recursion is bounded: at most two `Double`s nest, and once the
    counter is at 2 a `Double` only applies plain strategies. The second
    nested build is never a `Double`.
   */
  lemma {:induction false} DoubleDepthBounded(s: Strategy, other: Vec, st: RoundState, rng: Rng)
    ensures DoubleDepth(s, other, st, rng) <= 1 + Budget(st.doubleCounter)
    ensures s == Double ==> DoubleDepth(s, other, st, rng) >= 1
    ensures s != Double ==> DoubleDepth(s, other, st, rng) == 0
    decreases Budget(st.doubleCounter), Rank(s)
  {
    if s == Double {
      var first := Build(st.doubleCounter, rng);
      var st1 := st.(doubleCounter := first.counter);
      var afterFirst := Apply(first.strategy, other, st1, first.rng);
      var second := Build(afterFirst.st.doubleCounter, afterFirst.rng);
      var st3 := afterFirst.st.(doubleCounter := second.counter);
      DoubleDepthBounded(first.strategy, other, st1, first.rng);
      DoubleDepthBounded(second.strategy, other, st3, second.rng);
      assert second.strategy != Double;
    }
  }

  /** `n` hits of the same strategy on the same other object, one after the other. */
  function ApplyTimes(s: Strategy, n: nat, other: Vec, st: RoundState, rng: Rng): Applied {
    if n == 0 then Applied(st, rng)
    else
      var once := Apply(s, other, st, rng);
      ApplyTimes(s, n - 1, other, once.st, once.rng)
  }

  /** `BasicCollisionStrategy` does nothing, however often it is applied. */
  lemma {:induction false} BasicTimesIsIdentity(n: nat, other: Vec, st: RoundState, rng: Rng)
    ensures ApplyTimes(Basic, n, other, st, rng) == Applied(st, rng)
  {
    if n > 0 {
      BasicTimesIsIdentity(n - 1, other, st, rng);
    }
  }

  /**
    `MoreBallsCollisionStrategy`: each hit appends exactly two pucks, both
    with their corner at the other object's centre; the turbo flag, the
    guard and the counter stay as they were.
   */
  lemma MoreBallsSpawnsTwo(other: Vec, st: RoundState, rng: Rng)
    requires FreshIds(st)
    ensures var r := Apply(MoreBalls, other, st, rng).st;
      && r.pucks == st.pucks + [st.nextId, st.nextId + 1]
      && Extends(st.objects, r.objects, {st.nextId, st.nextId + 1})
      && r.objects[st.nextId] == Puck(other) && r.objects[st.nextId + 1] == Puck(other)
      && r.turbo == st.turbo && r.paddleGuard == st.paddleGuard && r.doubleCounter == st.doubleCounter
  {
    assert IdsBetween(st.nextId, st.nextId + 2) == {st.nextId, st.nextId + 1};
  }

  /**
    `n` hits of `MoreBallsCollisionStrategy` in a row: exactly `2n` pucks
    appended under the next `2n` ids, there is no cap; nothing else the
    round records changes.
   */
  function MoreBallsHits(n: nat, other: Vec, st: RoundState): (r: RoundState)
    ensures |r.pucks| == |st.pucks| + 2 * n && r.pucks[..|st.pucks|] == st.pucks
    ensures r.nextId == st.nextId + 2 * n
    ensures r.lives == st.lives && r.bricks == st.bricks && r.turbo == st.turbo
    ensures r.paddleGuard == st.paddleGuard && r.doubleCounter == st.doubleCounter
  {
    if n == 0 then st
    else
      var r := MoreBallsHits(n - 1, other, MoreBallsOnCollision(other, st));
      assert r.pucks[..|st.pucks|] == MoreBallsOnCollision(other, st).pucks[..|st.pucks|];
      r
  }

  /** Applying the strategy `n` times is `MoreBallsHits`, and draws nothing. */
  lemma {:induction false} MoreBallsTimes(n: nat, other: Vec, st: RoundState, rng: Rng)
    ensures ApplyTimes(MoreBalls, n, other, st, rng) == Applied(MoreBallsHits(n, other, st), rng)
  {
    if n > 0 {
      var once := Apply(MoreBalls, other, st, rng);
      MoreBallsStep(other, st, rng);
      MoreBallsTimes(n - 1, other, once.st, once.rng);
    }
  }

  /** One `MoreBalls` hit is exactly `MoreBallsOnCollision`, with no draw. */
  lemma MoreBallsStep(other: Vec, st: RoundState, rng: Rng)
    ensures Apply(MoreBalls, other, st, rng) == Applied(MoreBallsOnCollision(other, st), rng)
  {
  }

  /**
    `AddLifeCollisionStrategy`: one falling heart, its corner at the other
    object's centre, moving straight down at 100; lives stay as they are,
    there is no cap check, and the heart is not put on the sweep list.
   */
  lemma AddLifeSpawnsOneHeart(other: Vec, st: RoundState, rng: Rng)
    requires FreshIds(st)
    ensures var r := Apply(AddLife, other, st, rng).st;
      && Extends(st.objects, r.objects, {st.nextId})
      && r.objects[st.nextId].kind == FallingHeartObject(Vec(0.0, 100.0))
      && r.objects[st.nextId].topLeft == other
      && r.lives == st.lives && r.sweepHearts == st.sweepHearts && r.pucks == st.pucks
  {
    assert IdsBetween(st.nextId, st.nextId + 1) == {st.nextId};
  }

  /**
    `TemporaryPaddleCollisionStrategy`: with the guard at 0 one paddle is
    created and the guard ends at 2; with the guard set nothing changes.
   */
  lemma TempPaddleGated(other: Vec, st: RoundState, rng: Rng)
    ensures st.paddleGuard != 0 ==> Apply(TempPaddle, other, st, rng) == Applied(st, rng)
    ensures st.paddleGuard == 0 ==>
      var r := Apply(TempPaddle, other, st, rng).st;
      && r.paddleGuard == 2
      && IsTempPaddle(r.objects, st.nextId)
      && (FreshIds(st) ==> Extends(st.objects, r.objects, {st.nextId}))
  {
    assert IdsBetween(st.nextId, st.nextId + 1) == {st.nextId};
  }

  /** Two paddle hits in a row, with no removal between them, create one paddle only. */
  lemma TempPaddleTwiceIsOnce(other: Vec, st: RoundState, rng: Rng)
    ensures var once := Apply(TempPaddle, other, st, rng);
      Apply(TempPaddle, other, once.st, once.rng) == once
  {
  }

  /**
    `TurboCollisionStrategy`: off, it turns turbo on and scales the primary
    ball's velocity by 1.4 once; on, it changes nothing at all.
   */
  lemma TurboSwitchesOnOnce(other: Vec, st: RoundState, rng: Rng)
    ensures st.turbo ==> Apply(Turbo, other, st, rng) == Applied(st, rng)
    ensures !st.turbo ==>
      var r := Apply(Turbo, other, st, rng).st;
      && r.turbo
      && r.ball == st.ball.(velocity := Vec(st.ball.velocity.x * 1.4, st.ball.velocity.y * 1.4))
      && r == st.(turbo := true, ball := r.ball)
  {
  }

  /** Applying the turbo strategy twice is the same as applying it once. */
  lemma TurboIdempotent(other: Vec, st: RoundState, rng: Rng)
    ensures var once := Apply(Turbo, other, st, rng);
      Apply(Turbo, other, once.st, once.rng) == once
  {
  }

  /**
    `DoubleBehvaviorCollisionStrategy` draws its two strategies when it is
    hit, from the counter as it is then: with the counter at 2 or more it
    consumes exactly two draws and applies no nested `Double`.
   */
  lemma DoubleAtLimitIsShallow(other: Vec, st: RoundState, rng: Rng)
    requires st.doubleCounter >= DOUBLE_LIMIT
    ensures Apply(Double, other, st, rng).rng.used == rng.used + 2
    ensures Apply(Double, other, st, rng).st.doubleCounter == st.doubleCounter + 2
    ensures DoubleDepth(Double, other, st, rng) == 1
  {
    DoubleDepthBounded(Double, other, st, rng);
  }
}
