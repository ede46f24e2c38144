/**
  `Brick`: a brick carries the strategy the factory built for it. When it
  is hit, the strategy runs first and the brick is removed afterwards;
  nothing stops a brick that is hit again before it has left the
  collection from running its strategy again.
 */
module Bricks {
  import opened Geometry
  import opened Random
  import opened World
  import opened GameManager
  import opened Strategies
  import opened Effects

  /** A brick object: its id in the collection and the strategy it was built with. */
  datatype Brick = Brick(id: EntityId, strategy: Strategy)

  /**
    `onCollisionEnter`: the brick's strategy, then `removeBrick`. The brick
    is gone afterwards; the brick counter drops by one when it was still
    in the collection and is unchanged when it had already left it.
   */
  function OnCollisionEnter(b: Brick, other: Vec, st: RoundState, rng: Rng): (r: Applied)
    ensures b.id !in r.st.objects
    ensures b.id in st.objects ==> r.st.bricks == st.bricks - 1
    ensures b.id !in st.objects && b.id < st.nextId ==> r.st.bricks == st.bricks
    ensures r.st.lives == st.lives && r.st.hearts == st.hearts && r.st.display == st.display
    ensures r.rng.source == rng.source
    ensures r.st.doubleCounter == Apply(b.strategy, other, st, rng).st.doubleCounter
    ensures var a := Apply(b.strategy, other, st, rng);
      && r.rng == a.rng
      && r.st == a.st.(objects := a.st.objects - {b.id}, bricks := r.st.bricks)
  {
    var applied := Apply(b.strategy, other, st, rng);
    Applied(RemoveBrick(applied.st, b.id), applied.rng)
  }

  /**
    A second hit on a brick that has already been removed still runs its
    strategy in full, but the brick counter only dropped on the first.
   */
  lemma SecondHitCountsOnce(b: Brick, other: Vec, st: RoundState, rng: Rng)
    requires b.id in st.objects && FreshIds(st)
    ensures var once := OnCollisionEnter(b, other, st, rng);
      var twice := OnCollisionEnter(b, other, once.st, once.rng);
      && once.st.bricks == st.bricks - 1
      && twice.st.bricks == st.bricks - 1
  {
    var once := OnCollisionEnter(b, other, st, rng);
    var applied := Apply(b.strategy, other, st, rng);
    assert once.st.nextId == applied.st.nextId;
  }

  /**
    A `MoreBalls` brick hit twice releases four pucks although it is
    counted as removed only once.
   */
  lemma MoreBallsBrickHitTwice(id: EntityId, other: Vec, st: RoundState, rng: Rng)
    requires id in st.objects && FreshIds(st)
    ensures var b := Brick(id, MoreBalls);
      var once := OnCollisionEnter(b, other, st, rng);
      var twice := OnCollisionEnter(b, other, once.st, once.rng);
      && |twice.st.pucks| == |st.pucks| + 4
      && twice.st.bricks == st.bricks - 1
  {
    SecondHitCountsOnce(Brick(id, MoreBalls), other, st, rng);
  }
}
