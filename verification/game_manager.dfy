/**
  The mutators `BrickerGameManager` offers to strategies and game objects,
  as transitions of the round state. Rendering (images, the red turbo ball)
  is not modelled; only the state the rules read is.
 */
module GameManager {
  import opened Outcomes
  import opened Geometry
  import opened World
  import LifeCounter

  /** `after` holds every object of `before`, unchanged, plus exactly the ids of `added`. */
  ghost predicate Extends(before: map<EntityId, Entity>, after: map<EntityId, Entity>, added: set<EntityId>) {
    && after.Keys == before.Keys + added
    && forall id :: id in before ==> after[id] == before[id]
  }

  /**
    `addGameObject` under the next id: the collection gains that id, holding
    `e`, every other object is kept, and the next id moves on.
   */
  function Spawn(st: RoundState, e: Entity): (r: RoundState)
    ensures r.objects.Keys == st.objects.Keys + {st.nextId} && r.objects[st.nextId] == e
    ensures st.nextId !in st.objects ==> Extends(st.objects, r.objects, {st.nextId})
    ensures r.nextId == st.nextId + 1
    ensures r == st.(objects := r.objects, nextId := r.nextId)
  {
    st.(objects := st.objects[st.nextId := e], nextId := st.nextId + 1)
  }

  /** `gameObjects().removeGameObject(obj)`: whether it was present, and the collection without it. */
  function RemoveObject(objects: map<EntityId, Entity>, id: EntityId): (r: (bool, map<EntityId, Entity>))
    ensures r.0 <==> id in objects
    ensures r.1.Keys == objects.Keys - {id}
    ensures forall k :: k in r.1 ==> r.1[k] == objects[k]
  {
    (id in objects, objects - {id})
  }

  /** `removeBrick`: the counter drops by one exactly when the brick was still in the collection. */
  function RemoveBrick(st: RoundState, brick: EntityId): (r: RoundState)
    ensures brick !in r.objects
    ensures r.bricks == if brick in st.objects then st.bricks - 1 else st.bricks
    ensures Extends(r.objects, st.objects, if brick in st.objects then {brick} else {})
    ensures r == st.(objects := r.objects, bricks := r.bricks)
  {
    var (removed, objects) := RemoveObject(st.objects, brick);
    if removed then st.(objects := objects, bricks := st.bricks - 1) else st.(objects := objects)
  }

  /** Removing the same brick a second time changes nothing. */
  lemma RemoveBrickIdempotent(st: RoundState, brick: EntityId)
    ensures RemoveBrick(RemoveBrick(st, brick), brick) == RemoveBrick(st, brick)
    ensures RemoveBrick(RemoveBrick(st, brick), brick).bricks >= st.bricks - 1
  {
  }

  /** `turboMode`. */
  function TurboMode(st: RoundState): bool {
    st.turbo
  }

  /**
    `turboMode` reads back what the last of `setTurbo`, `setTurboBall` and
    `setBallToOriginal` wrote, and adding or removing objects does not move it.
   */
  lemma TurboModeReadsBack(st: RoundState, on: bool, factor: real, e: Entity, id: EntityId)
    ensures TurboMode(SetTurbo(st, on)) == on
    ensures TurboMode(SetTurboBall(st, factor))
    ensures !TurboMode(SetBallToOriginal(st))
    ensures TurboMode(Spawn(st, e)) == TurboMode(st)
    ensures TurboMode(RemoveBrick(st, id)) == TurboMode(st)
    ensures TurboMode(RemoveTemporaryPaddle(st, id)) == TurboMode(st)
  {
  }

  /** `setTurbo`: only the flag changes, and `turboMode` reads the new value back. */
  function SetTurbo(st: RoundState, turbo: bool): (r: RoundState)
    ensures TurboMode(r) == turbo
    ensures r.(turbo := st.turbo) == st
  {
    st.(turbo := turbo)
  }

  /** `removeTemporaryPaddle`: the paddle leaves the collection and the guard is reset. */
  function RemoveTemporaryPaddle(st: RoundState, paddle: EntityId): (r: RoundState)
    ensures r.paddleGuard == 0
    ensures paddle !in r.objects
    ensures Extends(r.objects, st.objects, if paddle in st.objects then {paddle} else {})
    ensures r == st.(objects := r.objects, paddleGuard := 0)
  {
    st.(objects := RemoveObject(st.objects, paddle).1, paddleGuard := 0)
  }

  /** `setBallToOriginal`: turbo off and the primary ball back to (+200, +200), whatever it had. */
  function SetBallToOriginal(st: RoundState): (r: RoundState)
    ensures !TurboMode(r)
    ensures r.ball.velocity == Vec(BALL_SPEED, BALL_SPEED)
    ensures r.ball.centre == st.ball.centre
    ensures r.ball.turboCounter == st.ball.turboCounter
    ensures r == st.(ball := r.ball, turbo := false)
  {
    st.(ball := st.ball.(velocity := Vec(BALL_SPEED, BALL_SPEED)), turbo := false)
  }

  /** `setTurboBall`: the primary ball's velocity scaled by `multSpeed`, and turbo on. */
  function SetTurboBall(st: RoundState, multSpeed: real): (r: RoundState)
    ensures TurboMode(r)
    ensures r.ball.velocity.x == st.ball.velocity.x * multSpeed
    ensures r.ball.velocity.y == st.ball.velocity.y * multSpeed
    ensures r == st.(ball := r.ball, turbo := true)
    ensures r.ball == st.ball.(velocity := r.ball.velocity)
  {
    st.(ball := st.ball.(velocity := Mult(st.ball.velocity, multSpeed)), turbo := true)
  }

  /** The object `createFallenHeart(position)` adds: a 20x20 heart falling at 100. */
  function FallingHeart(position: Vec): Entity {
    Entity(FallingHeartObject(Vec(0.0, SPEED_OF_HEART)), position, Vec(HEART_WIDTH as real, HEART_HEIGHT as real))
  }

  /**
    `createFallenHeart`: one new falling heart whose top-left corner is
    `position`. It is not appended to the `fallenHeart` sweep list.
   */
  function CreateFallenHeart(st: RoundState, position: Vec): (r: RoundState)
    ensures st.nextId !in st.objects ==> Extends(st.objects, r.objects, {st.nextId})
    ensures st.nextId in r.objects && r.objects[st.nextId].kind == FallingHeartObject(Vec(0.0, 100.0))
    ensures r.objects[st.nextId].topLeft == position
    ensures r.sweepHearts == st.sweepHearts && r.lives == st.lives
    ensures r == st.(objects := r.objects, nextId := st.nextId + 1)
  {
    Spawn(st, FallingHeart(position))
  }

  /** The object `createPuck(position)` adds: a ball three quarters the primary ball's size. */
  function Puck(position: Vec): Entity {
    var side := BALL_RADIUS as real * PUKE_RADIUS_RATIO;
    Entity(PuckObject, position, Vec(side, side))
  }

  /**
    `createPuck`: one new puck whose top-left corner is `position`, also
    appended to the `pukes` list. Its random direction is not modelled.
   */
  function CreatePuck(st: RoundState, position: Vec): (r: RoundState)
    ensures st.nextId !in st.objects ==> Extends(st.objects, r.objects, {st.nextId})
    ensures st.nextId in r.objects && r.objects[st.nextId].kind == PuckObject && r.objects[st.nextId].topLeft == position
    ensures r.pucks == st.pucks + [st.nextId]
    ensures r == st.(objects := r.objects, nextId := st.nextId + 1, pucks := r.pucks)
  {
    Spawn(st, Puck(position)).(pucks := st.pucks + [st.nextId])
  }

  /** The temporary paddle object, centred in the window. */
  function TemporaryPaddleAt(width: int, height: int): Entity {
    var size := Vec(PADDLE_WIDTH as real, PADDLE_HEIGHT as real);
    Entity(TempPaddleObject, TopLeftFor(Vec(width as real / 2.0, height as real / 2.0), size), size)
  }

  /**
    `createTemporaryPaddle`: one new paddle centred in the window; the guard
    is raised twice (`increaseBy(1)` and `increment()`), so by 2.
   */
  function CreateTemporaryPaddle(st: RoundState): (r: RoundState)
    ensures r.paddleGuard == st.paddleGuard + 2
    ensures st.nextId !in st.objects ==> Extends(st.objects, r.objects, {st.nextId})
    ensures IsTempPaddle(r.objects, st.nextId)
    ensures Centre(r.objects[st.nextId]) == Vec(st.width as real / 2.0, st.height as real / 2.0)
    ensures r == st.(objects := r.objects, nextId := st.nextId + 1, paddleGuard := r.paddleGuard)
  {
    var raised := st.(paddleGuard := st.paddleGuard + 1);
    var added := Spawn(raised, TemporaryPaddleAt(st.width, st.height));
    added.(paddleGuard := added.paddleGuard + 1)
  }

  /** `removeFallenHeart`: the heart leaves the collection; nothing else changes. */
  function RemoveFallenHeart(st: RoundState, heart: EntityId): (r: RoundState)
    ensures heart !in r.objects
    ensures Extends(r.objects, st.objects, if heart in st.objects then {heart} else {})
    ensures r == st.(objects := r.objects)
  {
    st.(objects := RemoveObject(st.objects, heart).1)
  }

  /**
    `addHeart`: below the maximum, a new life heart goes into slot `lives`
    of the heart row and of the `hearts` array, and lives go up by one; at
    the maximum nothing happens. The new heart is also appended to the
    `fallenHeart` sweep list. A negative count would index outside the array.
   */
  function AddHeart(st: RoundState): (r: Result<RoundState>)
    ensures st.lives >= MAX_LIFE ==> r == Success(st)
    ensures st.lives < MAX_LIFE && 0 <= st.lives < |st.hearts| ==>
      && r.Success?
      && r.value.lives == st.lives + 1
      && r.value.hearts == st.hearts[st.lives := st.nextId]
      && (st.nextId !in st.objects ==> Extends(st.objects, r.value.objects, {st.nextId}))
      && st.nextId in r.value.objects && r.value.objects[st.nextId] == LifeHeart(st.lives, st.height)
      && r.value.sweepHearts == st.sweepHearts + [st.nextId]
      && r.value == st.(lives := r.value.lives, hearts := r.value.hearts, objects := r.value.objects,
                        nextId := st.nextId + 1, sweepHearts := r.value.sweepHearts)
    ensures st.lives < MAX_LIFE && !(0 <= st.lives < |st.hearts|) ==> r == Failure(IndexOutOfBounds)
  {
    if st.lives < MAX_LIFE then
      if 0 <= st.lives < |st.hearts| then
        var added := Spawn(st, LifeHeart(st.lives, st.height));
        Success(added.(hearts := st.hearts[st.lives := st.nextId],
                       lives := st.lives + 1,
                       sweepHearts := st.sweepHearts + [st.nextId]))
      else
        Failure(IndexOutOfBounds)
    else
      Success(st)
  }

  /** `incText`: the life counter shows the current number of lives, text then colour. */
  function IncText(st: RoundState): (r: RoundState)
    ensures r.display.text == LifeCounter.UpdateText(st.display, st.lives).text
    ensures r.display == LifeCounter.UpdateColor(r.display.(color := st.display.color), st.lives)
    ensures r == st.(display := r.display)
  {
    st.(display := LifeCounter.UpdateColor(LifeCounter.UpdateText(st.display, st.lives), st.lives))
  }
}
