/**
  What a `Double` brick visibly does. `DoubleBehvaviorCollisionStrategy`
  builds a strategy, applies it, builds another and applies that, all to
  the same pair of objects. Unfolded, a hit applies a short list of plain
  strategies (anything but `Double`) in order: two of them, or three when
  the first build was itself a `Double`. That list is read off the draws
  here, independently of the factory and of `Effects.Apply`, and what the
  plain strategies add up to is counted strategy by strategy.
 */
module DoubleStrategy {
  import opened Geometry
  import opened Random
  import opened World
  import opened GameManager
  import opened Strategies
  import opened Effects

  predicate AllPlain(ss: seq<Strategy>) {
    forall i :: 0 <= i < |ss| ==> ss[i] != Double
  }

  /** The strategy the `k`-th draw from `rng` selects when it is reduced into `bound`. */
  function Drawn(rng: Rng, k: nat, bound: nat): Strategy
    requires bound == 9 || bound == 10
  {
    var d := rng.source(rng.used + k) % bound;
    assert Select(d).Some? by { SelectDefinedExactlyOnRange(d); }
    Select(d).value
  }

  /**
    The plain strategies one `Double` hit applies, in order, read off the
    draws: the first draw is from the range the counter allows; when it
    selects `Double`, that one applies the next two draws before the outer
    one draws its second. Every later draw is from 9 values.
   */
  function DoubleLeaves(counter: nat, rng: Rng): (leaves: seq<Strategy>)
    ensures AllPlain(leaves)
    ensures |leaves| == 2 || (|leaves| == 3 && counter < DOUBLE_LIMIT)
  {
    var first := Drawn(rng, 0, DrawRange(counter));
    if first == Double then [Drawn(rng, 1, 9), Drawn(rng, 2, 9), Drawn(rng, 3, 9)]
    else [first, Drawn(rng, 1, 9)]
  }

  /** `onCollision` of a plain strategy, which draws nothing. */
  function PlainEffect(s: Strategy, other: Vec, st: RoundState): RoundState
    requires s != Double
  {
    match s
    case Basic => BasicOnCollision(st)
    case MoreBalls => MoreBallsOnCollision(other, st)
    case AddLife => AddLifeOnCollision(other, st)
    case TempPaddle => TempPaddleOnCollision(st)
    case Turbo => TurboOnCollision(st)
    case Double => st
  }

  /** Plain strategies applied one after the other to the same pair. */
  function RunPlain(ss: seq<Strategy>, other: Vec, st: RoundState): RoundState
    requires AllPlain(ss)
    decreases |ss|
  {
    if |ss| == 0 then st
    else RunPlain(ss[1..], other, PlainEffect(ss[0], other, st))
  }

  /** How often `s` occurs in `ss`. */
  function Count(ss: seq<Strategy>, s: Strategy): nat {
    if |ss| == 0 then 0
    else (if ss[0] == s then 1 else 0) + Count(ss[1..], s)
  }

  /** The falling hearts among the ids `[lo, hi)` of a collection. */
  function FallingHeartsBetween(objects: map<EntityId, Entity>, lo: nat, hi: nat): nat
    decreases hi - lo
  {
    if hi <= lo then 0
    else
      var here := if lo in objects && objects[lo].kind.FallingHeartObject? then 1 else 0;
      here + FallingHeartsBetween(objects, lo + 1, hi)
  }

  /**
    A `Double` hit is its plain strategies applied in order to the same
    pair: the round is theirs, except that the counter has risen by 2
    (from 2 on), by 3 (below 2), or by 5 (when the first build was a
    `Double`); two draws are consumed, or four in the nested case.
   */
  lemma DoubleAppliesLeaves(other: Vec, st: RoundState, rng: Rng)
    ensures var leaves := DoubleLeaves(st.doubleCounter, rng);
      var r := ApplyDouble(other, st, rng);
      && r.st == RunPlain(leaves, other, st).(doubleCounter := r.st.doubleCounter)
      && r.rng == Rng(rng.source, rng.used + (if |leaves| == 3 then 4 else 2))
      && r.st.doubleCounter == st.doubleCounter +
           (if st.doubleCounter >= DOUBLE_LIMIT then 2 else if |leaves| == 3 then 5 else 3)
  {
    var c := st.doubleCounter;
    if c >= DOUBLE_LIMIT {
      DoubleAtLimit(other, st, rng);
    } else if Build(c, rng).strategy == Double {
      NestedDouble(other, st, rng);
    } else {
      TwoPlain(other, st, rng, Build(c, rng).strategy);
    }
  }

  /**
    Below 2 the first build may be a `Double`; that one applies the next
    two draws' strategies, and the outer `Double` then applies the fourth.
   */
  lemma NestedDouble(other: Vec, st: RoundState, rng: Rng)
    requires st.doubleCounter < DOUBLE_LIMIT && Build(st.doubleCounter, rng).strategy == Double
    ensures var r := ApplyDouble(other, st, rng);
      var leaves := [Drawn(rng, 1, 9), Drawn(rng, 2, 9), Drawn(rng, 3, 9)];
      && DoubleLeaves(st.doubleCounter, rng) == leaves
      && r.st == RunPlain(leaves, other, st).(doubleCounter := st.doubleCounter + 5)
      && r.rng == Rng(rng.source, rng.used + 4)
  {
    var c := st.doubleCounter;
    var first := Build(c, rng);
    var st1 := st.(doubleCounter := first.counter);
    var pair := DoubleLeaves(first.counter, first.rng);
    assert pair == [Drawn(rng, 1, 9), Drawn(rng, 2, 9)] by {
      assert first.rng == Rng(rng.source, rng.used + 1);
    }
    var afterFirst := Apply(Double, other, st1, first.rng);
    assert afterFirst == ApplyDouble(other, st1, first.rng);
    DoubleAtLimit(other, st1, first.rng);
    RunPlainIgnoresCounter(pair, other, st, first.counter);
    var inner := RunPlain(pair, other, st);
    assert afterFirst.st == inner.(doubleCounter := c + 4);
    assert afterFirst.rng == Rng(rng.source, rng.used + 3);
    var second := Build(afterFirst.st.doubleCounter, afterFirst.rng);
    var s2 := second.strategy;
    assert s2 == Drawn(rng, 3, 9);
    PlainApply(s2, other, afterFirst.st.(doubleCounter := second.counter), second.rng);
    PlainIgnoresCounter(s2, other, inner, second.counter);
    RunPlainSnoc(pair, s2, other, st);
    assert pair + [s2] == [Drawn(rng, 1, 9), Drawn(rng, 2, 9), Drawn(rng, 3, 9)];
    assert ApplyDouble(other, st, rng) == Apply(s2, other, afterFirst.st.(doubleCounter := second.counter), second.rng);
  }

  /** From a counter of 2 on, a `Double` applies exactly the two strategies its two draws select. */
  lemma DoubleAtLimit(other: Vec, st: RoundState, rng: Rng)
    requires st.doubleCounter >= DOUBLE_LIMIT
    ensures var r := ApplyDouble(other, st, rng);
      && r.st == RunPlain(DoubleLeaves(st.doubleCounter, rng), other, st).(doubleCounter := st.doubleCounter + 2)
      && r.rng == Rng(rng.source, rng.used + 2)
  {
    TwoPlain(other, st, rng, Build(st.doubleCounter, rng).strategy);
  }

  /** A `Double` whose first build is plain: the two builds' strategies in order. */
  lemma TwoPlain(other: Vec, st: RoundState, rng: Rng, s1: Strategy)
    requires s1 == Build(st.doubleCounter, rng).strategy && s1 != Double
    ensures var r := ApplyDouble(other, st, rng);
      var rise := if st.doubleCounter >= DOUBLE_LIMIT then 2 else 3;
      && DoubleLeaves(st.doubleCounter, rng) == [s1, Drawn(rng, 1, 9)]
      && r.st == RunPlain([s1, Drawn(rng, 1, 9)], other, st).(doubleCounter := st.doubleCounter + rise)
      && r.rng == Rng(rng.source, rng.used + 2)
  {
    var first := Build(st.doubleCounter, rng);
    var st1 := st.(doubleCounter := first.counter);
    PlainApply(s1, other, st1, first.rng);
    PlainIgnoresCounter(s1, other, st, first.counter);
    var afterFirst := Apply(s1, other, st1, first.rng);
    var second := Build(afterFirst.st.doubleCounter, afterFirst.rng);
    var s2 := second.strategy;
    assert s2 == Drawn(rng, 1, 9);
    var mid := PlainEffect(s1, other, st);
    PlainApply(s2, other, afterFirst.st.(doubleCounter := second.counter), second.rng);
    PlainIgnoresCounter(s2, other, mid, second.counter);
    assert afterFirst.st.(doubleCounter := second.counter) == mid.(doubleCounter := second.counter);
    assert second.counter == st.doubleCounter + (if st.doubleCounter >= DOUBLE_LIMIT then 2 else 3);
    assert ApplyDouble(other, st, rng).st == PlainEffect(s2, other, mid).(doubleCounter := second.counter);
    assert RunPlain([s1, s2], other, st) == PlainEffect(s2, other, mid) by {
      assert [s1, s2][1..] == [s2];
      assert RunPlain([s2], other, mid) == RunPlain([], other, PlainEffect(s2, other, mid));
    }
  }

  /** Through the dispatcher, a plain strategy is its `onCollision` and draws nothing. */
  lemma PlainApply(s: Strategy, other: Vec, st: RoundState, rng: Rng)
    requires s != Double
    ensures Apply(s, other, st, rng) == Applied(PlainEffect(s, other, st), rng)
  {
  }

  /** No plain strategy reads or writes the double counter. */
  lemma PlainIgnoresCounter(s: Strategy, other: Vec, st: RoundState, c: nat)
    requires s != Double
    ensures PlainEffect(s, other, st.(doubleCounter := c)) == PlainEffect(s, other, st).(doubleCounter := c)
  {
    var moved := st.(doubleCounter := c);
    match s
    case Basic =>
    case MoreBalls =>
      assert CreatePuck(moved, other) == CreatePuck(st, other).(doubleCounter := c);
      assert CreatePuck(CreatePuck(moved, other), other) == CreatePuck(CreatePuck(st, other), other).(doubleCounter := c);
    case AddLife =>
      assert CreateFallenHeart(moved, other) == CreateFallenHeart(st, other).(doubleCounter := c);
    case TempPaddle =>
      assert CreateTemporaryPaddle(moved) == CreateTemporaryPaddle(st).(doubleCounter := c);
    case Turbo =>
  }

  lemma {:induction false} RunPlainIgnoresCounter(ss: seq<Strategy>, other: Vec, st: RoundState, c: nat)
    requires AllPlain(ss)
    ensures RunPlain(ss, other, st.(doubleCounter := c)) == RunPlain(ss, other, st).(doubleCounter := c)
    decreases |ss|
  {
    if |ss| > 0 {
      PlainIgnoresCounter(ss[0], other, st, c);
      RunPlainIgnoresCounter(ss[1..], other, PlainEffect(ss[0], other, st), c);
    }
  }

  lemma {:induction false} RunPlainSnoc(ss: seq<Strategy>, s: Strategy, other: Vec, st: RoundState)
    requires AllPlain(ss) && s != Double
    ensures AllPlain(ss + [s])
    ensures RunPlain(ss + [s], other, st) == PlainEffect(s, other, RunPlain(ss, other, st))
    decreases |ss|
  {
    if |ss| == 0 {
      assert ss + [s] == [s];
      assert [s][1..] == [];
    } else {
      assert (ss + [s])[1..] == ss[1..] + [s];
      RunPlainSnoc(ss[1..], s, other, PlainEffect(ss[0], other, st));
    }
  }

  /**
    The visible outcome of plain strategies applied in order: turbo on,
    and the ball sped up once, if any was `Turbo`; the guard at 2 exactly
    when one was `TempPaddle` and it was 0. Old objects are kept, new ones
    only get fresh ids, and lives, hearts, bricks and the display are
    untouched.
   */
  lemma {:induction false} RunPlainFrame(ss: seq<Strategy>, other: Vec, st: RoundState)
    requires AllPlain(ss) && FreshIds(st)
    ensures var r := RunPlain(ss, other, st);
      && r.turbo == (st.turbo || Turbo in ss)
      && r.ball == (if !st.turbo && Turbo in ss then st.ball.(velocity := Mult(st.ball.velocity, TURBO_FACTOR)) else st.ball)
      && r.paddleGuard == (if st.paddleGuard == 0 && TempPaddle in ss then 2 else st.paddleGuard)
      && r.doubleCounter == st.doubleCounter
      && Untouched(st, r) && Grows(st, r) && FreshIds(r)
      && forall id :: id in st.objects ==> r.objects[id] == st.objects[id]
    decreases |ss|
  {
    if |ss| > 0 {
      var s := ss[0];
      var st1 := PlainEffect(s, other, st);
      PlainStepFrame(s, other, st);
      RunPlainFrame(ss[1..], other, st1);
      assert ss == [s] + ss[1..];
      assert Turbo in ss <==> s == Turbo || Turbo in ss[1..];
      assert TempPaddle in ss <==> s == TempPaddle || TempPaddle in ss[1..];
    }
  }

  /**
    What plain strategies applied in order add: two pucks per `MoreBalls`,
    and ids for those, one per `AddLife` and one for a temporary paddle
    exactly when one was `TempPaddle` and the guard was 0.
   */
  lemma {:induction false} RunPlainCounts(ss: seq<Strategy>, other: Vec, st: RoundState)
    requires AllPlain(ss) && FreshIds(st)
    ensures var r := RunPlain(ss, other, st);
      var paddle := st.paddleGuard == 0 && TempPaddle in ss;
      && |r.pucks| == |st.pucks| + 2 * Count(ss, MoreBalls) && r.pucks[..|st.pucks|] == st.pucks
      && r.nextId == st.nextId + 2 * Count(ss, MoreBalls) + Count(ss, AddLife) + (if paddle then 1 else 0)
    decreases |ss|
  {
    if |ss| > 0 {
      var s := ss[0];
      var st1 := PlainEffect(s, other, st);
      var r := RunPlain(ss[1..], other, st1);
      PlainStepFrame(s, other, st);
      PlainStepCounts(s, other, st);
      RunPlainCounts(ss[1..], other, st1);
      assert ss == [s] + ss[1..];
      assert TempPaddle in ss <==> s == TempPaddle || TempPaddle in ss[1..];
      assert r.pucks[..|st.pucks|] == st1.pucks[..|st.pucks|];
    }
  }

  /** One falling heart among the new ids per `AddLife`, and no other. */
  lemma {:induction false} RunPlainHearts(ss: seq<Strategy>, other: Vec, st: RoundState)
    requires AllPlain(ss) && FreshIds(st)
    ensures var r := RunPlain(ss, other, st);
      FallingHeartsBetween(r.objects, st.nextId, r.nextId) == Count(ss, AddLife)
    decreases |ss|
  {
    if |ss| > 0 {
      var s := ss[0];
      var st1 := PlainEffect(s, other, st);
      var r := RunPlain(ss[1..], other, st1);
      assert r == RunPlain(ss, other, st);
      PlainStepFrame(s, other, st);
      PlainStepCounts(s, other, st);
      RunPlainFrame(ss[1..], other, st1);
      RunPlainHearts(ss[1..], other, st1);
      FallingHeartsFrame(st1.objects, r.objects, st.nextId, st1.nextId);
      FallingHeartsSplit(r.objects, st.nextId, st1.nextId, r.nextId);
    }
  }

  /** One plain strategy: what `RunPlainFrame` states, for a single step. */
  lemma PlainStepFrame(s: Strategy, other: Vec, st: RoundState)
    requires s != Double && FreshIds(st)
    ensures var r := PlainEffect(s, other, st);
      && r.turbo == (st.turbo || s == Turbo)
      && r.ball == (if !st.turbo && s == Turbo then st.ball.(velocity := Mult(st.ball.velocity, TURBO_FACTOR)) else st.ball)
      && r.paddleGuard == (if st.paddleGuard == 0 && s == TempPaddle then 2 else st.paddleGuard)
      && r.doubleCounter == st.doubleCounter
      && Untouched(st, r) && Grows(st, r) && FreshIds(r)
      && forall id :: id in st.objects ==> r.objects[id] == st.objects[id]
  {
  }

  /** One plain strategy: what `RunPlainCounts` states, for a single step. */
  lemma PlainStepCounts(s: Strategy, other: Vec, st: RoundState)
    requires s != Double && FreshIds(st)
    ensures var r := PlainEffect(s, other, st);
      var paddle := st.paddleGuard == 0 && s == TempPaddle;
      && r.pucks == st.pucks + (if s == MoreBalls then [st.nextId, st.nextId + 1] else [])
      && FallingHeartsBetween(r.objects, st.nextId, r.nextId) == (if s == AddLife then 1 else 0)
      && r.nextId == st.nextId + (if s == MoreBalls then 2 else if s == AddLife || paddle then 1 else 0)
  {
    var r := PlainEffect(s, other, st);
    var n := st.nextId;
    if s == MoreBalls {
      assert r.objects[n].kind == PuckObject && r.objects[n + 1].kind == PuckObject;
      assert FallingHeartsBetween(r.objects, n + 2, n + 2) == 0;
    } else if s == AddLife {
      assert r.objects[n].kind.FallingHeartObject?;
      assert FallingHeartsBetween(r.objects, n + 1, n + 1) == 0;
    } else if s == TempPaddle && st.paddleGuard == 0 {
      assert IsTempPaddle(r.objects, n);
      assert FallingHeartsBetween(r.objects, n + 1, n + 1) == 0;
    }
  }

  /** The count only looks at the ids of the range. */
  lemma {:induction false} FallingHeartsFrame(a: map<EntityId, Entity>, b: map<EntityId, Entity>, lo: nat, hi: nat)
    requires forall id :: lo <= id < hi && id in a ==> id in b && b[id] == a[id]
    requires forall id :: lo <= id < hi && id in b ==> id in a
    ensures FallingHeartsBetween(a, lo, hi) == FallingHeartsBetween(b, lo, hi)
    decreases hi - lo
  {
    if lo < hi {
      FallingHeartsFrame(a, b, lo + 1, hi);
    }
  }

  lemma {:induction false} FallingHeartsSplit(objects: map<EntityId, Entity>, lo: nat, mid: nat, hi: nat)
    requires lo <= mid <= hi
    ensures FallingHeartsBetween(objects, lo, hi)
      == FallingHeartsBetween(objects, lo, mid) + FallingHeartsBetween(objects, mid, hi)
    decreases mid - lo
  {
    if lo < mid {
      FallingHeartsSplit(objects, lo + 1, mid, hi);
    }
  }

  /**
    What a `Double` hit visibly does, by the strategies its draws select:
    two pucks for each `MoreBalls`, one falling heart for each `AddLife`,
    turbo on if one was `Turbo`, and one temporary paddle exactly when one
    was `TempPaddle` while the guard was 0. Two `MoreBalls` draws give four
    pucks; a `Double` drawn first contributes the strategies of its own two
    draws.
   */
  lemma DoubleVisibleEffects(other: Vec, st: RoundState, rng: Rng)
    requires FreshIds(st)
    ensures var leaves := DoubleLeaves(st.doubleCounter, rng);
      var r := ApplyDouble(other, st, rng).st;
      var paddle := st.paddleGuard == 0 && TempPaddle in leaves;
      && |r.pucks| == |st.pucks| + 2 * Count(leaves, MoreBalls) && r.pucks[..|st.pucks|] == st.pucks
      && FallingHeartsBetween(r.objects, st.nextId, r.nextId) == Count(leaves, AddLife)
      && r.nextId == st.nextId + 2 * Count(leaves, MoreBalls) + Count(leaves, AddLife) + (if paddle then 1 else 0)
      && r.turbo == (st.turbo || Turbo in leaves)
      && r.paddleGuard == (if paddle then 2 else st.paddleGuard)
      && r.lives == st.lives && r.bricks == st.bricks
  {
    DoubleAppliesLeaves(other, st, rng);
    RunPlainFrame(DoubleLeaves(st.doubleCounter, rng), other, st);
    RunPlainCounts(DoubleLeaves(st.doubleCounter, rng), other, st);
    RunPlainHearts(DoubleLeaves(st.doubleCounter, rng), other, st);
  }
}
