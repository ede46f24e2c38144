/**
  What a round in play keeps true between frames: one to five lives, the
  first `lives` slots of the heart row shown and the others empty, the
  brick counter equal to the bricks still in the collection, the
  temporary-paddle guard at 0 exactly when no temporary paddle is out
  (and at 2 with exactly one out), the puck and sweep lists naming only
  pucks and life hearts, and the life counter showing the lives in the
  colour the thresholds give. Every rule of the round keeps it.
 */
module RoundInvariant {
  import opened Outcomes
  import opened Geometry
  import opened Random
  import opened World
  import opened GameManager
  import opened Strategies
  import opened Effects
  import opened Decimal
  import opened LifeCounter
  import Bricks
  import Hearts
  import BallObject
  import TemporaryPaddleObject
  import GameLoop

  /** The ids of the temporary paddles in the collection. */
  function TempPaddleIds(objects: map<EntityId, Entity>): set<EntityId> {
    set id | id in objects && objects[id].kind == TempPaddleObject
  }

  /**
    The colour the life counter shows for a count reached by play: red at
    one, yellow at two, green otherwise (five keeps the green of four).
   */
  function ExpectedColor(lives: int): Color {
    if lives == 2 then Yellow else if lives == 1 then Red else Green
  }

  predicate LivesOk(st: RoundState) {
    1 <= st.lives <= MAX_LIFE && |st.hearts| == MAX_LIFE
  }

  predicate HeartRow(st: RoundState) {
    forall slot :: 0 <= slot < |st.hearts| ==>
      && st.hearts[slot] < st.nextId
      && (slot < st.lives ==> st.hearts[slot] in st.objects && st.objects[st.hearts[slot]] == LifeHeart(slot, st.height))
      && (slot >= st.lives ==> st.hearts[slot] !in st.objects)
  }

  predicate BricksCounted(st: RoundState) {
    st.bricks == |BrickIds(st.objects)|
  }

  predicate GuardOk(st: RoundState) {
    || (st.paddleGuard == 0 && TempPaddleIds(st.objects) == {})
    || (st.paddleGuard == 2 && |TempPaddleIds(st.objects)| == 1)
  }

  predicate PucksOk(st: RoundState) {
    forall id :: id in st.pucks ==> id < st.nextId && (id in st.objects ==> st.objects[id].kind == PuckObject)
  }

  predicate SweepOk(st: RoundState) {
    forall id :: id in st.sweepHearts ==>
      && id < st.nextId
      && (id in st.objects ==> st.objects[id].kind == HudHeartObject && Centre(st.objects[id]).y <= st.height as real)
  }

  predicate DisplayOk(st: RoundState) {
    st.display == Display(IntToString(st.lives), ExpectedColor(st.lives))
  }

  /** Everything but the life counter's display. */
  predicate ObjectsOk(st: RoundState) {
    && LivesOk(st)
    && FreshIds(st)
    && HeartRow(st)
    && BricksCounted(st)
    && GuardOk(st)
    && PucksOk(st)
    && SweepOk(st)
  }

  predicate Valid(st: RoundState) {
    ObjectsOk(st) && DisplayOk(st)
  }

  /** A valid round's counter reads back as its number of lives. */
  lemma DisplayShowsLives(st: RoundState)
    requires Valid(st)
    ensures ParseDecimal(st.display.text) == Some(st.lives)
    ensures st.display.color == Red <==> st.lives == 1
    ensures st.display.color == Yellow <==> st.lives == 2
  {
    IntToStringRoundTrip(st.lives);
  }

  /** Exactly `lives` slots of the heart row are shown: one distinct life heart per slot below `lives`. */
  lemma HeartsShown(st: RoundState, i: int, j: int)
    requires Valid(st)
    requires 0 <= i < j < st.lives
    ensures st.hearts[i] != st.hearts[j]
    ensures st.hearts[i] in st.objects && st.objects[st.hearts[i]].kind == HudHeartObject
  {
    LifeHeartsDiffer(i, j, st.height);
  }

  lemma LifeHeartsDiffer(i: int, j: int, height: int)
    requires i != j
    ensures LifeHeart(i, height) != LifeHeart(j, height)
  {
    assert LifeHeart(i, height).topLeft.x != LifeHeart(j, height).topLeft.x;
  }

  /** The shared double-strategy counter plays no part in the invariant. */
  lemma ValidIgnoresCounter(st: RoundState, counter: nat)
    requires Valid(st)
    ensures Valid(st.(doubleCounter := counter))
  {
  }

  lemma {:induction false} OneElement(s: set<EntityId>, x: EntityId)
    requires |s| == 1 && x in s
    ensures s == {x}
  {
    assert |s - {x}| == 0;
  }

  /** Adding an object that is neither a brick nor a temporary paddle under the next id. */
  lemma SpawnKeepsValid(st: RoundState, e: Entity)
    requires Valid(st)
    requires e.kind != BrickObject && e.kind != TempPaddleObject
    ensures Valid(Spawn(st, e))
  {
    var r := Spawn(st, e);
    assert BrickIds(r.objects) == BrickIds(st.objects);
    assert TempPaddleIds(r.objects) == TempPaddleIds(st.objects);
    assert HeartRow(r) by {
      forall slot | 0 <= slot < |r.hearts|
        ensures st.hearts[slot] != st.nextId
      {
      }
    }
  }

  lemma CreatePuckKeepsValid(st: RoundState, position: Vec)
    requires Valid(st)
    ensures Valid(CreatePuck(st, position))
  {
    SpawnKeepsValid(st, Puck(position));
  }

  lemma CreateFallenHeartKeepsValid(st: RoundState, position: Vec)
    requires Valid(st)
    ensures Valid(CreateFallenHeart(st, position))
  {
    SpawnKeepsValid(st, FallingHeart(position));
  }

  lemma CreateTemporaryPaddleKeepsValid(st: RoundState)
    requires Valid(st) && st.paddleGuard == 0
    ensures Valid(CreateTemporaryPaddle(st))
    ensures TempPaddleIds(CreateTemporaryPaddle(st).objects) == {st.nextId}
  {
    var r := CreateTemporaryPaddle(st);
    assert r.objects == st.objects[st.nextId := TemporaryPaddleAt(st.width, st.height)];
    assert BrickIds(r.objects) == BrickIds(st.objects);
    assert TempPaddleIds(r.objects) == {st.nextId};
    assert HeartRow(r) by {
      forall slot | 0 <= slot < |r.hearts|
        ensures st.hearts[slot] != st.nextId
      {
      }
    }
  }

  /** Removing an object that is neither a brick, a temporary paddle nor a life heart. */
  lemma RemoveKeepsValid(st: RoundState, id: EntityId)
    requires Valid(st)
    requires id in st.objects ==> st.objects[id].kind !in {BrickObject, TempPaddleObject, HudHeartObject}
    ensures Valid(st.(objects := st.objects - {id}))
  {
    var r := st.(objects := st.objects - {id});
    assert BrickIds(r.objects) == BrickIds(st.objects);
    assert TempPaddleIds(r.objects) == TempPaddleIds(st.objects);
  }

  /** Every strategy keeps a valid round valid, `Double` included, however it nests. */
  lemma ApplyKeepsValid(s: Strategy, other: Vec, st: RoundState, rng: Rng)
    requires Valid(st)
    ensures Valid(Apply(s, other, st, rng).st)
    decreases Budget(st.doubleCounter), Rank(s), 1
  {
    match s
    case Basic =>
    case MoreBalls =>
      CreatePuckKeepsValid(st, other);
      CreatePuckKeepsValid(CreatePuck(st, other), other);
    case AddLife =>
      CreateFallenHeartKeepsValid(st, other);
    case TempPaddle =>
      if st.paddleGuard == 0 {
        CreateTemporaryPaddleKeepsValid(st);
      }
    case Turbo =>
    case Double =>
      ApplyDoubleKeepsValid(other, st, rng);
  }

  lemma ApplyDoubleKeepsValid(other: Vec, st: RoundState, rng: Rng)
    requires Valid(st)
    ensures Valid(ApplyDouble(other, st, rng).st)
    decreases Budget(st.doubleCounter), 1, 0
  {
    var first := Build(st.doubleCounter, rng);
    var st1 := st.(doubleCounter := first.counter);
    ValidIgnoresCounter(st, first.counter);
    ApplyKeepsValid(first.strategy, other, st1, first.rng);
    var afterFirst := Apply(first.strategy, other, st1, first.rng);
    var second := Build(afterFirst.st.doubleCounter, afterFirst.rng);
    ValidIgnoresCounter(afterFirst.st, second.counter);
    ApplyKeepsValid(second.strategy, other, afterFirst.st.(doubleCounter := second.counter), second.rng);
  }

  /** Taking a brick out of the collection lowers the number of bricks by one; taking out a missing id changes nothing. */
  lemma BrickRemovalCount(objects: map<EntityId, Entity>, id: EntityId)
    requires id in objects ==> objects[id].kind == BrickObject
    ensures |BrickIds(objects - {id})| == if id in objects then |BrickIds(objects)| - 1 else |BrickIds(objects)|
    ensures TempPaddleIds(objects - {id}) == TempPaddleIds(objects)
  {
    assert TempPaddleIds(objects - {id}) == TempPaddleIds(objects);
    if id in objects {
      assert BrickIds(objects - {id}) == BrickIds(objects) - {id};
      assert id in BrickIds(objects);
    } else {
      assert objects - {id} == objects;
    }
  }

  /** Removing a brick, or a brick id that has already left, keeps the counter equal to the bricks left. */
  lemma RemoveBrickKeepsValid(st: RoundState, id: EntityId)
    requires Valid(st)
    requires id in st.objects ==> st.objects[id].kind == BrickObject
    ensures Valid(RemoveBrick(st, id))
  {
    var bricks := if id in st.objects then st.bricks - 1 else st.bricks;
    assert RemoveBrick(st, id) == st.(objects := st.objects - {id}, bricks := bricks);
    BrickRemovalCount(st.objects, id);
    BrickGoneKeepsValid(st, id, bricks);
  }

  lemma BrickGoneKeepsValid(st: RoundState, id: EntityId, bricks: int)
    requires Valid(st)
    requires id in st.objects ==> st.objects[id].kind == BrickObject
    requires bricks == |BrickIds(st.objects - {id})|
    requires TempPaddleIds(st.objects - {id}) == TempPaddleIds(st.objects)
    ensures Valid(st.(objects := st.objects - {id}, bricks := bricks))
  {
  }

  /**
    `Brick.onCollisionEnter` keeps a valid round valid, whether the brick
    is still in the collection or has already been removed by an earlier
    hit.
   */
  lemma BrickHitKeepsValid(b: Bricks.Brick, other: Vec, st: RoundState, rng: Rng)
    requires Valid(st) && b.id < st.nextId
    requires b.id in st.objects ==> st.objects[b.id].kind == BrickObject
    ensures Valid(Bricks.OnCollisionEnter(b, other, st, rng).st)
  {
    ApplyKeepsValid(b.strategy, other, st, rng);
    var after := Apply(b.strategy, other, st, rng).st;
    assert b.id !in IdsBetween(st.nextId, after.nextId);
    RemoveBrickKeepsValid(after, b.id);
  }

  /** A collision of the primary ball, turbo expiry included, touches nothing the invariant reads. */
  lemma MainBallHitKeepsValid(st: RoundState, reflected: Vec)
    requires Valid(st)
    ensures Valid(BallObject.MainBallHit(st, reflected))
  {
  }

  lemma PuckHitKeepsValid(puck: Ball, reflected: Vec, st: RoundState)
    requires Valid(st)
    ensures Valid(BallObject.PuckHit(puck, reflected, st).1)
  {
  }

  /**
    A hit on the temporary paddle in play keeps the round valid: the
    removing hit takes the only temporary paddle out as the guard drops
    to 0.
   */
  lemma TempPaddleHitKeepsValid(p: TemporaryPaddleObject.TempPaddle, st: RoundState)
    requires Valid(st) && IsTempPaddle(st.objects, p.id)
    ensures Valid(TemporaryPaddleObject.Hit(p, st).1)
  {
    if p.hitsLeft == 1 {
      assert p.id in TempPaddleIds(st.objects);
      OneElement(TempPaddleIds(st.objects), p.id);
      var r := TemporaryPaddleObject.Hit(p, st).1;
      assert r == st.(objects := st.objects - {p.id}, paddleGuard := 0);
      assert TempPaddleIds(r.objects) == {};
      assert BrickIds(r.objects) == BrickIds(st.objects);
    }
  }

  /** `addHeart` below the maximum: a new life heart fills slot `lives`. The counter is refreshed later. */
  lemma AddHeartKeepsObjects(st: RoundState)
    requires ObjectsOk(st) && st.lives < MAX_LIFE
    ensures AddHeart(st).Success? && ObjectsOk(AddHeart(st).value)
  {
    var r := AddHeart(st).value;
    assert r.objects == st.objects[st.nextId := LifeHeart(st.lives, st.height)];
    assert BrickIds(r.objects) == BrickIds(st.objects);
    assert TempPaddleIds(r.objects) == TempPaddleIds(st.objects);
    assert HeartRow(r) by {
      forall slot | 0 <= slot < |r.hearts|
        ensures slot != st.lives ==> r.hearts[slot] == st.hearts[slot] && st.hearts[slot] != st.nextId
      {
      }
    }
  }

  /** `incText` on a count between 2 and 5 that went up by one from a correctly shown count. */
  lemma IncTextShows(st: RoundState)
    requires 2 <= st.lives <= MAX_LIFE
    requires st.display.color == ExpectedColor(st.lives - 1) || st.display.color == ExpectedColor(st.lives)
    ensures DisplayOk(IncText(st))
  {
  }

  /** Removing an object that is not a brick, a temporary paddle or a life heart keeps all but the display. */
  lemma RemoveKeepsObjects(st: RoundState, id: EntityId)
    requires ObjectsOk(st)
    requires id in st.objects ==> st.objects[id].kind !in {BrickObject, TempPaddleObject, HudHeartObject}
    ensures ObjectsOk(st.(objects := st.objects - {id}))
  {
    var r := st.(objects := st.objects - {id});
    assert BrickIds(r.objects) == BrickIds(st.objects);
    assert TempPaddleIds(r.objects) == TempPaddleIds(st.objects);
  }

  /** `addHeart` then `removeFallenHeart` on a caught falling heart, before the counter is refreshed. */
  lemma CatchKeepsObjects(heart: EntityId, st: RoundState)
    requires Valid(st) && heart < st.nextId
    requires heart in st.objects ==> st.objects[heart].kind.FallingHeartObject?
    ensures AddHeart(st).Success?
    ensures var removed := RemoveFallenHeart(AddHeart(st).value, heart);
      && ObjectsOk(removed)
      && removed.display == st.display
      && removed.lives == (if st.lives < MAX_LIFE then st.lives + 1 else st.lives)
  {
    var added := AddHeart(st).value;
    if st.lives < MAX_LIFE {
      AddHeartKeepsObjects(st);
      assert added.objects == st.objects[st.nextId := LifeHeart(st.lives, st.height)];
    } else {
      assert added == st;
    }
    assert heart in added.objects ==> added.objects[heart].kind.FallingHeartObject?;
    RemoveKeepsObjects(added, heart);
    assert RemoveFallenHeart(added, heart) == added.(objects := added.objects - {heart});
  }

  /**
    Catching a falling heart keeps the round valid and never fails; at
    full lives only the caught heart goes.
   */
  lemma HeartCatchKeepsValid(heart: EntityId, otherTag: string, st: RoundState)
    requires Valid(st) && heart < st.nextId
    requires heart in st.objects ==> st.objects[heart].kind.FallingHeartObject?
    ensures Hearts.OnCollisionEnter(heart, otherTag, st).Success?
    ensures Valid(Hearts.OnCollisionEnter(heart, otherTag, st).value)
  {
    if Hearts.ShouldCollideWith(otherTag) {
      CaughtValid(heart, st);
      CaughtIsAddRemoveShow(heart, otherTag, st);
    }
  }

  /** The round after `addHeart`, `removeFallenHeart` and `incText` on a caught heart is valid. */
  lemma CaughtValid(heart: EntityId, st: RoundState)
    requires Valid(st) && heart < st.nextId
    requires heart in st.objects ==> st.objects[heart].kind.FallingHeartObject?
    ensures AddHeart(st).Success?
    ensures Valid(IncText(RemoveFallenHeart(AddHeart(st).value, heart)))
  {
    var removed := RemoveFallenHeart(AddHeart(st).value, heart);
    var shown := IncText(removed);
    assert AddHeart(st).Success? && ObjectsOk(removed) && removed.display == st.display
      && removed.lives == (if st.lives < MAX_LIFE then st.lives + 1 else st.lives) by {
      CatchKeepsObjects(heart, st);
    }
    assert DisplayOk(shown) by {
      IncTextShows(removed);
    }
    assert ObjectsOk(shown) by {
      ObjectsIgnoreDisplay(removed, shown.display);
    }
  }

  lemma CaughtIsAddRemoveShow(heart: EntityId, otherTag: string, st: RoundState)
    requires Hearts.ShouldCollideWith(otherTag) && AddHeart(st).Success?
    ensures Hearts.OnCollisionEnter(heart, otherTag, st) == Success(IncText(RemoveFallenHeart(AddHeart(st).value, heart)))
  {
  }

  lemma ObjectsIgnoreDisplay(st: RoundState, d: Display)
    requires ObjectsOk(st)
    ensures ObjectsOk(st.(display := d))
  {
  }

  /**
    The `fallenHeart` sweep never removes anything: the list only names
    life hearts, which sit inside the window.
   */
  lemma HeartSweepIsNoOp(st: RoundState)
    requires SweepOk(st)
    ensures GameLoop.CleanUpFallenObjects(st.objects, st.sweepHearts, st.height) == st.objects
  {
    var r := GameLoop.CleanUpFallenObjects(st.objects, st.sweepHearts, st.height);
    assert r.Keys == st.objects.Keys;
  }

  /** The puck sweep removes fallen pucks only. */
  lemma PuckSweepKeepsObjects(st: RoundState)
    requires ObjectsOk(st)
    ensures ObjectsOk(st.(objects := GameLoop.CleanUpFallenObjects(st.objects, st.pucks, st.height)))
  {
    var r := st.(objects := GameLoop.CleanUpFallenObjects(st.objects, st.pucks, st.height));
    assert BrickIds(r.objects) == BrickIds(st.objects);
    assert TempPaddleIds(r.objects) == TempPaddleIds(st.objects);
    assert HeartRow(r) by {
      forall slot | 0 <= slot < st.lives
        ensures st.hearts[slot] !in st.pucks
      {
        assert st.objects[st.hearts[slot]].kind == HudHeartObject;
      }
    }
  }

  /**
    The sweeps at the start of `update` keep a valid round valid, and of
    the two only the puck sweep can remove anything.
   */
  lemma SweepKeepsValid(st: RoundState)
    requires Valid(st)
    ensures Valid(GameLoop.SweepFallen(st))
    ensures GameLoop.SweepFallen(st).objects == GameLoop.CleanUpFallenObjects(st.objects, st.pucks, st.height)
  {
    var swept := st.(objects := GameLoop.CleanUpFallenObjects(st.objects, st.pucks, st.height));
    PuckSweepKeepsObjects(st);
    HeartSweepIsNoOp(swept);
  }

  /**
    `handleBallFall` on a valid round never fails; a lost ball costs one
    life, and while a life is left the round stays valid.
   */
  lemma BallFallKeepsValid(st: RoundState, flipX: bool, flipY: bool)
    requires Valid(st)
    ensures GameLoop.HandleBallFall(st, flipX, flipY).Success?
    ensures var r := GameLoop.HandleBallFall(st, flipX, flipY).value;
      && r.lives == (if st.ball.centre.y > st.height as real then st.lives - 1 else st.lives)
      && (r.lives >= 1 ==> Valid(r))
  {
    if st.ball.centre.y > st.height as real {
      var lives := st.lives - 1;
      var r := GameLoop.HandleBallFall(st, flipX, flipY).value;
      assert r.objects == st.objects - {st.hearts[lives]};
      if lives >= 1 {
        assert ObjectsOk(r) by {
          assert BrickIds(r.objects) == BrickIds(st.objects);
          assert TempPaddleIds(r.objects) == TempPaddleIds(st.objects);
          forall slot | 0 <= slot < lives
            ensures st.hearts[slot] != st.hearts[lives]
          {
            LifeHeartsDiffer(slot, lives, st.height);
          }
        }
        assert DisplayOk(r);
      }
    }
  }

  /**
    One frame of a valid round never fails, and a round that goes on is
    still valid. It ends lost exactly when the ball falls on the last life.
   */
  lemma UpdateKeepsValid(st: RoundState, input: GameLoop.FrameInput)
    requires Valid(st)
    ensures GameLoop.Update(st, input).Success?
    ensures GameLoop.Update(st, input).value.Continue? ==> Valid(GameLoop.Update(st, input).value.st)
    ensures var fallen := GameLoop.HandleBallFall(GameLoop.SweepFallen(st), input.flipX, input.flipY).value;
      var lost := GameLoop.EndVerdict(fallen.lives, fallen.bricks, input.winKey) == GameLoop.Lost;
      lost <==> st.ball.centre.y > st.height as real && st.lives == 1
  {
    SweepKeepsValid(st);
    BallFallKeepsValid(GameLoop.SweepFallen(st), input.flipX, input.flipY);
  }
}
