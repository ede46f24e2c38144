/**
  The per-frame rules of `BrickerGameManager.update`: sweeping fallen
  pucks and hearts, losing a life when the ball falls out of the window,
  and deciding whether the round is lost or won. The engine's own update
  (moving objects, detecting collisions) happens before and is not part of
  this model; the random signs of the relaunched ball and the player's
  answers are inputs.
 */
module GameLoop {
  import opened Outcomes
  import opened Geometry
  import opened World
  import LifeCounter
  import Decimal

  /**
    `cleanUpFallenObjects(list)`: every object on the list whose centre is
    below the bottom of the window leaves the collection; every other
    object stays as it was.
   */
  function CleanUpFallenObjects(objects: map<EntityId, Entity>, listed: seq<EntityId>, height: int): (r: map<EntityId, Entity>)
    ensures forall id :: id in r <==> id in objects && !(id in listed && Centre(objects[id]).y > height as real)
    ensures forall id :: id in r ==> r[id] == objects[id]
    decreases |listed|
  {
    if |listed| == 0 then objects
    else
      var id := listed[0];
      var rest := if id in objects && Centre(objects[id]).y > height as real then objects - {id} else objects;
      CleanUpFallenObjects(rest, listed[1..], height)
  }

  /** Sweeping the same list twice removes nothing more. */
  lemma CleanUpIdempotent(objects: map<EntityId, Entity>, listed: seq<EntityId>, height: int)
    ensures var once := CleanUpFallenObjects(objects, listed, height);
      CleanUpFallenObjects(once, listed, height) == once
  {
    var once := CleanUpFallenObjects(objects, listed, height);
    var twice := CleanUpFallenObjects(once, listed, height);
    assert twice.Keys == once.Keys;
  }

  /** The speed the ball is relaunched with: 200, or 200 * 1.4 in turbo mode. */
  function RelaunchSpeed(turbo: bool): (s: real)
    ensures s == if turbo then 280.0 else 200.0
  {
    if turbo then BALL_SPEED * MULT_SPEED else BALL_SPEED
  }

  /**
    `handleBallFall`: when the ball's centre is below the window, one life
    is lost, the heart in the slot that count now names leaves the
    collection, the counter shows the new count, and the ball is put back
    in the middle of the window moving diagonally at the relaunch speed,
    each sign chosen by a coin. Turbo mode is left as it was. With no life
    left to take, the heart array is indexed at -1.
   */
  function HandleBallFall(st: RoundState, flipX: bool, flipY: bool): (r: Result<RoundState>)
    ensures st.ball.centre.y <= st.height as real ==> r == Success(st)
    ensures st.ball.centre.y > st.height as real && !(0 <= st.lives - 1 < |st.hearts|) ==> r == Failure(IndexOutOfBounds)
    ensures st.ball.centre.y > st.height as real && 0 <= st.lives - 1 < |st.hearts| ==>
      && r.Success?
      && r.value.lives == st.lives - 1
      && r.value.objects == st.objects - {st.hearts[st.lives - 1]}
      && Decimal.ParseDecimal(r.value.display.text) == Some(st.lives - 1)
      && r.value.display.color == LifeCounter.UpdateColor(st.display, st.lives - 1).color
      && r.value.ball.centre == Vec(st.width as real / 2.0, st.height as real / 2.0)
      && r.value.ball.velocity.x == (if flipX then -1.0 else 1.0) * RelaunchSpeed(st.turbo)
      && r.value.ball.velocity.y == (if flipY then -1.0 else 1.0) * RelaunchSpeed(st.turbo)
      && r.value.turbo == st.turbo
      && r.value == st.(lives := r.value.lives, objects := r.value.objects, display := r.value.display,
                        ball := st.ball.(centre := r.value.ball.centre, velocity := r.value.ball.velocity))
  {
    if st.ball.centre.y > st.height as real then
      var lives := st.lives - 1;
      if 0 <= lives < |st.hearts| then
        var display := LifeCounter.UpdateText(LifeCounter.UpdateColor(st.display, lives), lives);
        var speed := RelaunchSpeed(st.turbo);
        var velocity := Vec(if flipX then -speed else speed, if flipY then -speed else speed);
        var centre := Vec(st.width as real / 2.0, st.height as real / 2.0);
        Success(st.(lives := lives, objects := st.objects - {st.hearts[lives]}, display := display,
                    ball := st.ball.(centre := centre, velocity := velocity)))
      else
        Failure(IndexOutOfBounds)
    else
      Success(st)
  }

  /** How a round stands after a frame. */
  datatype Verdict = Playing | Lost | Won

  /**
    The test of `checkForGameEnd`: no lives left loses, even when every
    brick is gone; otherwise no bricks left, or the W key held, wins.
   */
  function EndVerdict(lives: int, bricks: int, winKey: bool): (v: Verdict)
    ensures v == Lost <==> lives == 0
    ensures v == Won <==> lives != 0 && (bricks == 0 || winKey)
    ensures v == Playing <==> lives != 0 && bricks != 0 && !winKey
  {
    if lives == 0 then Lost
    else if bricks == 0 || winKey then Won
    else Playing
  }

  /** The outcome of `checkForGameEnd`: the round goes on, is restarted, or the window closes. */
  datatype Ending = Continue(st: RoundState) | Restarted(st: RoundState) | Closed(st: RoundState, verdict: Verdict)

  /**
    What `checkForGameEnd` resets when the player answers yes: turbo off,
    full lives, the brick counter back to rows * columns and the
    temporary-paddle guard at 0. The shared double-strategy counter is not
    reset.
   */
  function Restart(st: RoundState): (r: RoundState)
    ensures !r.turbo && r.lives == LIFE && r.bricks == st.rows * st.cols && r.paddleGuard == 0
    ensures r.doubleCounter == st.doubleCounter && r.objects == st.objects && r.ball == st.ball
    ensures r == st.(turbo := false, lives := LIFE, bricks := r.bricks, paddleGuard := 0)
  {
    st.(turbo := false, lives := LIFE, bricks := st.cols * st.rows, paddleGuard := 0)
  }

  /**
    `checkForGameEnd`: while playing nothing happens; on a loss or a win
    the player is asked to play again, which restarts the round, or the
    window closes.
   */
  function CheckForGameEnd(st: RoundState, winKey: bool, playAgain: bool): (r: Ending)
    ensures EndVerdict(st.lives, st.bricks, winKey) == Playing <==> r == Continue(st)
    ensures EndVerdict(st.lives, st.bricks, winKey) != Playing && playAgain ==> r == Restarted(Restart(st))
    ensures EndVerdict(st.lives, st.bricks, winKey) != Playing && !playAgain ==>
      r == Closed(st, EndVerdict(st.lives, st.bricks, winKey))
  {
    var verdict := EndVerdict(st.lives, st.bricks, winKey);
    if verdict == Playing then Continue(st)
    else if playAgain then Restarted(Restart(st))
    else Closed(st, verdict)
  }

  /** The outside inputs of one frame: the relaunch coins, the W key, the dialog's answer. */
  datatype FrameInput = FrameInput(flipX: bool, flipY: bool, winKey: bool, playAgain: bool)

  /** The sweeps `update` does before anything else: the puck list, then the heart list. */
  function SweepFallen(st: RoundState): (r: RoundState)
    ensures forall id :: id in r.objects ==> id in st.objects && r.objects[id] == st.objects[id]
    ensures forall id :: id in st.objects && id !in st.pucks && id !in st.sweepHearts ==> id in r.objects
    ensures r == st.(objects := r.objects)
  {
    var swept := CleanUpFallenObjects(st.objects, st.pucks, st.height);
    st.(objects := CleanUpFallenObjects(swept, st.sweepHearts, st.height))
  }

  /** `update`: sweep, handle a fallen ball, then check for the end of the round. */
  function Update(st: RoundState, input: FrameInput): (r: Result<Ending>)
    ensures r.Failure? <==> st.ball.centre.y > st.height as real && !(0 <= st.lives - 1 < |st.hearts|)
    ensures r.Success? ==>
      var fallen := HandleBallFall(SweepFallen(st), input.flipX, input.flipY).value;
      r.value == CheckForGameEnd(fallen, input.winKey, input.playAgain)
  {
    var fallen :- HandleBallFall(SweepFallen(st), input.flipX, input.flipY);
    Success(CheckForGameEnd(fallen, input.winKey, input.playAgain))
  }

  /**
    A ball lost on the last life ends the round as lost, whatever the
    bricks and the W key say: the player is asked, and a yes restarts
    with full lives.
   */
  lemma LastLifeLost(st: RoundState, input: FrameInput)
    requires st.lives == 1 && 1 <= |st.hearts| && st.ball.centre.y > st.height as real
    ensures Update(st, input).Success?
    ensures input.playAgain ==> Update(st, input).value.Restarted? && Update(st, input).value.st.lives == LIFE
    ensures !input.playAgain ==> Update(st, input).value.Closed? && Update(st, input).value.verdict == Lost
  {
  }

  /** With the ball in the window and lives left, the frame ends in a win exactly when no brick is left or W is held. */
  lemma WinWithoutFall(st: RoundState, input: FrameInput)
    requires st.lives > 0 && st.ball.centre.y <= st.height as real
    ensures Update(st, input).Success?
    ensures Update(st, input).value.Continue? <==> st.bricks != 0 && !input.winKey
    ensures (st.bricks == 0 || input.winKey) && !input.playAgain ==> Update(st, input).value == Closed(SweepFallen(st), Won)
  {
  }
}
