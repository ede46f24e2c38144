/**
  `Ball`: every collision bumps the ball's collision counter; while the
  game is in turbo mode it also bumps the turbo counter, and the sixth
  such collision ends turbo through `setBallToOriginal`. Pucks are balls
  too: their collisions count toward turbo expiry, which resets the
  primary ball. The reflection of the velocity is the engine's; the
  reflected velocity is an input here.
 */
module BallObject {
  import opened Geometry
  import opened World
  import opened GameManager

  const MAX_TURBO_COLLISION: int := 6

  /** The turbo part of `handleTurboMode`: the new turbo counter and whether turbo expires now. */
  function TurboTick(turboCounter: int, turbo: bool): (r: (int, bool))
    ensures r.1 ==> turbo && r.0 == 0
    ensures !turbo ==> r == (turboCounter, false)
    ensures turbo && 0 <= turboCounter < MAX_TURBO_COLLISION ==> 0 <= r.0 < MAX_TURBO_COLLISION
    ensures turbo && turboCounter + 1 < MAX_TURBO_COLLISION ==> r == (turboCounter + 1, false)
    ensures turbo && turboCounter + 1 >= MAX_TURBO_COLLISION ==> r == (0, true)
  {
    if turbo then
      var counter := turboCounter + 1;
      if counter >= MAX_TURBO_COLLISION then (0, true) else (counter, false)
    else
      (turboCounter, false)
  }

  /**
    `onCollisionEnter` of the primary ball: it takes the reflected velocity,
    counts the collision, and on the sixth turbo collision in a row is put
    back to (+200, +200) with turbo off.
   */
  function MainBallHit(st: RoundState, reflected: Vec): (r: RoundState)
    ensures r.ball.collisionCounter == st.ball.collisionCounter + 1
    ensures r.ball.centre == st.ball.centre
    ensures !st.turbo ==> r == st.(ball := st.ball.(velocity := reflected, collisionCounter := r.ball.collisionCounter))
    ensures st.turbo && st.ball.turboCounter + 1 < MAX_TURBO_COLLISION ==>
      r.turbo && r.ball.turboCounter == st.ball.turboCounter + 1 && r.ball.velocity == reflected
    ensures st.turbo && st.ball.turboCounter + 1 >= MAX_TURBO_COLLISION ==>
      !r.turbo && r.ball.turboCounter == 0 && r.ball.velocity == Vec(200.0, 200.0)
    ensures r == st.(ball := r.ball, turbo := r.turbo)
  {
    var bounced := st.(ball := st.ball.(velocity := reflected, collisionCounter := st.ball.collisionCounter + 1));
    var (counter, expired) := TurboTick(bounced.ball.turboCounter, TurboMode(bounced));
    var counted := bounced.(ball := bounced.ball.(turboCounter := counter));
    if expired then SetBallToOriginal(counted) else counted
  }

  /**
    `onCollisionEnter` of a puck: the puck counts the collision; when its
    own turbo count reaches six it is the primary ball that is reset.
   */
  function PuckHit(puck: Ball, reflected: Vec, st: RoundState): (r: (Ball, RoundState))
    ensures r.0.collisionCounter == puck.collisionCounter + 1
    ensures r.0.velocity == reflected && r.0.centre == puck.centre
    ensures !st.turbo ==> r.1 == st && r.0.turboCounter == puck.turboCounter
    ensures r.1 == st || (st.turbo && r.1 == SetBallToOriginal(st) && r.0.turboCounter == 0)
    ensures st.turbo && puck.turboCounter + 1 < MAX_TURBO_COLLISION ==>
      r.1 == st && r.0.turboCounter == puck.turboCounter + 1
    ensures st.turbo && puck.turboCounter + 1 >= MAX_TURBO_COLLISION ==>
      r.1 == SetBallToOriginal(st) && r.0.turboCounter == 0
  {
    var bounced := puck.(velocity := reflected, collisionCounter := puck.collisionCounter + 1);
    var (counter, expired) := TurboTick(bounced.turboCounter, TurboMode(st));
    (bounced.(turboCounter := counter), if expired then SetBallToOriginal(st) else st)
  }

  /** `getCollisionCounter`. */
  function CollisionCounter(b: Ball): int {
    b.collisionCounter
  }

  /**
    `getCollisionCounter` reads the number of collisions: after any run of
    hits it has risen by exactly their number, whether turbo was on, ended
    or stayed off along the way.
   */
  lemma {:induction false} CollisionCounterCountsHits(st: RoundState, reflections: seq<Vec>)
    ensures CollisionCounter(MainBallHits(st, reflections).ball) == CollisionCounter(st.ball) + |reflections|
    decreases |reflections|
  {
    if |reflections| > 0 {
      CollisionCounterCountsHits(MainBallHit(st, reflections[0]), reflections[1..]);
    }
  }

  /** The primary ball hit `|reflections|` times in a row, taking each reflected velocity in turn. */
  function MainBallHits(st: RoundState, reflections: seq<Vec>): RoundState
    decreases |reflections|
  {
    if |reflections| == 0 then st
    else MainBallHits(MainBallHit(st, reflections[0]), reflections[1..])
  }

  /**
    Turbo that starts with a fresh counter survives five collisions and
    ends on exactly the sixth, leaving the ball at (+200, +200) and the
    counter at 0; the collision counter counts every one of them.
   */
  lemma {:induction false} TurboEndsOnSixthCollision(st: RoundState, reflections: seq<Vec>)
    requires st.turbo && 0 <= st.ball.turboCounter < MAX_TURBO_COLLISION
    requires st.ball.turboCounter + |reflections| <= MAX_TURBO_COLLISION
    ensures var r := MainBallHits(st, reflections);
      && r.ball.collisionCounter == st.ball.collisionCounter + |reflections|
      && (st.ball.turboCounter + |reflections| < MAX_TURBO_COLLISION ==>
            r.turbo && r.ball.turboCounter == st.ball.turboCounter + |reflections|)
      && (st.ball.turboCounter + |reflections| == MAX_TURBO_COLLISION ==>
            !r.turbo && r.ball.turboCounter == 0 && r.ball.velocity == Vec(BALL_SPEED, BALL_SPEED))
    decreases |reflections|
  {
    if |reflections| > 0 {
      var once := MainBallHit(st, reflections[0]);
      if st.ball.turboCounter + 1 < MAX_TURBO_COLLISION {
        TurboEndsOnSixthCollision(once, reflections[1..]);
      } else {
        assert |reflections| == 1;
        assert reflections[1..] == [];
        assert MainBallHits(st, reflections) == MainBallHits(once, []) == once;
      }
    }
  }

  /** With turbo off, collisions leave the turbo counter and the flag alone. */
  lemma {:induction false} TurboOffKeepsCounter(st: RoundState, reflections: seq<Vec>)
    requires !st.turbo
    ensures var r := MainBallHits(st, reflections);
      && !r.turbo
      && r.ball.turboCounter == st.ball.turboCounter
      && r.ball.collisionCounter == st.ball.collisionCounter + |reflections|
    decreases |reflections|
  {
    if |reflections| > 0 {
      TurboOffKeepsCounter(MainBallHit(st, reflections[0]), reflections[1..]);
    }
  }
}
