/**
  The round state `BrickerGameManager` owns, and the game objects it keeps
  in danogl's object collection, as plain values.
 */
module World {
  import opened Geometry
  import LifeCounter

  // The constants of `BrickerGameManager`.
  const BORDER_WIDTH: int := 5
  const WINDOW_WIDTH: int := 1000
  const WINDOW_HEIGHT: int := 700
  const PADDLE_HEIGHT: int := 20
  const PADDLE_WIDTH: int := 100
  const BRICK_HEIGHT: int := 15
  const PADDLE_GAP_FROM_BOTTOM: int := 30
  const GAP_BET_BRICKS: int := 2
  const GAP_BET_LIFE: int := 5
  const BRICK_COLS: int := 8
  const BRICK_ROWS: int := 7
  const LIFE_GAP_FROM_BORDER: int := 40
  const LIFE: int := 5
  const MAX_LIFE: int := 5
  const HEART_WIDTH: int := 20
  const HEART_HEIGHT: int := 20
  const BALL_RADIUS: int := 20
  const SPEED_OF_HEART: real := 100.0
  const BALL_SPEED: real := 200.0
  const PUKE_RADIUS_RATIO: real := 0.75
  const MULT_SPEED: real := 1.4

  /** The tag `createPaddle` gives the user's paddle; hearts react to nothing else. */
  const MAIN_PADDLE_TAG := "main paddle"

  /** Identity of a game object; each object created gets a fresh one. */
  type EntityId = nat

  /** What a game object in the collection is; a falling heart also carries its velocity. */
  datatype Kind =
    | BrickObject
    | PuckObject
    | FallingHeartObject(velocity: Vec)
    | HudHeartObject
    | TempPaddleObject
    | MainPaddleObject

  datatype Entity = Entity(kind: Kind, topLeft: Vec, size: Vec)

  function Centre(e: Entity): Vec {
    CentreOf(e.topLeft, e.size)
  }

  /**
    A `Ball` object: its centre and velocity, which the physics engine
    drives, and its own two collision counters.
   */
  datatype Ball = Ball(centre: Vec, velocity: Vec, turboCounter: int, collisionCounter: int)

  /**
    The fields of `BrickerGameManager` that the rules read or write.
    `hearts` is the `GameObject[MAX_LIFE]` array of life hearts; `pucks` and
    `sweepHearts` are the `pukes` and `fallenHeart` lists, which are only
    ever appended to; `objects` is the engine's object collection.
   */
  datatype RoundState = RoundState(
    width: int,
    height: int,
    rows: int,
    cols: int,
    lives: int,
    hearts: seq<EntityId>,
    bricks: int,
    turbo: bool,
    paddleGuard: nat,
    doubleCounter: nat,
    ball: Ball,
    pucks: seq<EntityId>,
    sweepHearts: seq<EntityId>,
    objects: map<EntityId, Entity>,
    nextId: EntityId,
    display: LifeCounter.Display
  )

  /** Every object in the collection has an id below `nextId`, so `nextId` is fresh. */
  predicate FreshIds(st: RoundState) {
    forall id :: id in st.objects ==> id < st.nextId
  }

  /** The ids handed out between two values of `nextId`. */
  function IdsBetween(lo: nat, hi: nat): (ids: set<EntityId>)
    ensures forall id :: id in ids <==> lo <= id < hi
    decreases hi
  {
    if hi <= lo then {} else IdsBetween(lo, hi - 1) + {hi - 1}
  }

  /** `IdsBetween(lo, hi)` holds exactly `hi - lo` ids. */
  lemma {:induction false} IdsBetweenSize(lo: nat, hi: nat)
    requires lo <= hi
    ensures |IdsBetween(lo, hi)| == hi - lo
    decreases hi
  {
    if lo < hi {
      var below := IdsBetween(lo, hi - 1);
      IdsBetweenSize(lo, hi - 1);
      assert hi - 1 !in below;
      assert IdsBetween(lo, hi) == below + {hi - 1};
      assert |below + {hi - 1}| == |below| + 1;
    }
  }

  /** The ids of the bricks still in the collection. */
  function BrickIds(objects: map<EntityId, Entity>): set<EntityId> {
    set id | id in objects && objects[id].kind == BrickObject
  }

  predicate IsTempPaddle(objects: map<EntityId, Entity>, id: EntityId) {
    id in objects && objects[id].kind == TempPaddleObject
  }

  /** The life heart `addHeart` or `createHearts` puts in slot `slot` of the heart row. */
  function LifeHeart(slot: int, height: int): Entity {
    Entity(
      HudHeartObject,
      Vec((slot * (HEART_WIDTH + GAP_BET_LIFE) + LIFE_GAP_FROM_BORDER) as real,
          (height - HEART_HEIGHT) as real),
      Vec(HEART_WIDTH as real, HEART_HEIGHT as real))
  }
}
