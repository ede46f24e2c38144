/**
  `Paddle`: the user's paddle (and the temporary paddle, which extends it)
  moves horizontally while an arrow key is held, and refuses to be driven
  further past the window's left or right edge.
 */
module Paddles {
  import opened Geometry
  import opened World

  const MOVEMENT_SPEED: real := 400.0

  /** Which arrow keys are held during this frame. */
  datatype ArrowKeys = ArrowKeys(left: bool, right: bool)

  /**
    The horizontal movement direction `update` adds up: left unless the
    paddle's left edge is at or past 0, plus right unless its right edge
    is at or past the window's width; the two cancel when both apply.
   */
  function MovementDir(keys: ArrowKeys, topLeftX: real, width: real, windowWidth: real): (d: int)
    ensures -1 <= d <= 1
    ensures d == -1 <==> keys.left && topLeftX > 0.0 && !(keys.right && topLeftX + width < windowWidth)
    ensures d == 1 <==> keys.right && topLeftX + width < windowWidth && !(keys.left && topLeftX > 0.0)
  {
    (if keys.left && topLeftX > 0.0 then -1 else 0)
    + (if keys.right && topLeftX + width < windowWidth then 1 else 0)
  }

  /** `update`: the velocity is the direction times 400, and never vertical. */
  function Velocity(keys: ArrowKeys, topLeft: Vec, size: Vec, windowWidth: real): (v: Vec)
    ensures v.y == 0.0
    ensures v.x == 0.0 || v.x == MOVEMENT_SPEED || v.x == -MOVEMENT_SPEED
    ensures v.x < 0.0 ==> keys.left && topLeft.x > 0.0
    ensures v.x > 0.0 ==> keys.right && topLeft.x + size.x < windowWidth
  {
    Mult(Vec(MovementDir(keys, topLeft.x, size.x, windowWidth) as real, 0.0), MOVEMENT_SPEED)
  }

  /**
    The paddle is never driven further out of the window: at or past the
    left edge it does not move left, at or past the right edge it does not
    move right, and with no key held it stands still.
   */
  lemma StaysInWindow(keys: ArrowKeys, topLeft: Vec, size: Vec, windowWidth: real)
    ensures topLeft.x <= 0.0 ==> Velocity(keys, topLeft, size, windowWidth).x >= 0.0
    ensures topLeft.x + size.x >= windowWidth ==> Velocity(keys, topLeft, size, windowWidth).x <= 0.0
    ensures !keys.left && !keys.right ==> Velocity(keys, topLeft, size, windowWidth) == Vec(0.0, 0.0)
    ensures keys.left && keys.right && topLeft.x > 0.0 && topLeft.x + size.x < windowWidth ==>
      Velocity(keys, topLeft, size, windowWidth) == Vec(0.0, 0.0)
  {
  }

  /**
    `createPaddle`: the user's paddle, 100 by 20, centred horizontally and
    with its centre 30 above the bottom of the window.
   */
  function MainPaddle(width: int, height: int): (e: Entity)
    ensures e.kind == MainPaddleObject
    ensures Centre(e) == Vec(width as real / 2.0, (height - PADDLE_GAP_FROM_BOTTOM) as real)
    ensures e.size == Vec(PADDLE_WIDTH as real, PADDLE_HEIGHT as real)
  {
    var size := Vec(PADDLE_WIDTH as real, PADDLE_HEIGHT as real);
    Entity(MainPaddleObject, TopLeftFor(Vec(width as real / 2.0, (height - PADDLE_GAP_FROM_BOTTOM) as real), size), size)
  }
}
