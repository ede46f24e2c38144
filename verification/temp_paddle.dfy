/**
  `TemporaryPaddle`: a second paddle that disappears after it has been hit
  four times. Its hit counter belongs to the object, so it is a record the
  caller holds alongside the round state.
 */
module TemporaryPaddleObject {
  import opened World
  import opened GameManager

  const PADDLE_MAX_COLLISION: int := 4

  datatype TempPaddle = TempPaddle(id: EntityId, hitsLeft: int)

  /** A newly created temporary paddle, with all four hits left. */
  function Fresh(id: EntityId): TempPaddle {
    TempPaddle(id, PADDLE_MAX_COLLISION)
  }

  /**
    `onCollisionEnter`: one hit is used up; the hit that brings the count
    to zero removes the paddle through `removeTemporaryPaddle`, which also
    resets the guard, and the count starts again at four. Any other hit
    leaves the round as it was.
   */
  function Hit(p: TempPaddle, st: RoundState): (r: (TempPaddle, RoundState))
    ensures r.0.id == p.id
    ensures 1 <= p.hitsLeft <= PADDLE_MAX_COLLISION ==> 1 <= r.0.hitsLeft <= PADDLE_MAX_COLLISION
    ensures p.hitsLeft == 1 ==> r.1.paddleGuard == 0 && p.id !in r.1.objects && r.0.hitsLeft == PADDLE_MAX_COLLISION
    ensures p.hitsLeft != 1 ==> r.1 == st && r.0.hitsLeft == p.hitsLeft - 1
    ensures Extends(r.1.objects, st.objects, if p.id in st.objects && p.id !in r.1.objects then {p.id} else {})
  {
    var counted := p.(hitsLeft := p.hitsLeft - 1);
    if counted.hitsLeft == 0 then
      (counted.(hitsLeft := PADDLE_MAX_COLLISION), RemoveTemporaryPaddle(st, p.id))
    else
      (counted, st)
  }

  /** `n` hits in a row on the same paddle. */
  function Hits(p: TempPaddle, n: nat, st: RoundState): (TempPaddle, RoundState)
    decreases n
  {
    if n == 0 then (p, st)
    else
      var once := Hit(p, st);
      Hits(once.0, n - 1, once.1)
  }

  /**
    A fresh paddle survives three hits untouched and is removed by the
    fourth, which also lets the temporary-paddle strategy fire again.
   */
  lemma RemovedOnFourthHit(id: EntityId, st: RoundState)
    requires IsTempPaddle(st.objects, id)
    ensures Hits(Fresh(id), 3, st) == (TempPaddle(id, 1), st)
    ensures var r := Hits(Fresh(id), PADDLE_MAX_COLLISION, st);
      && !IsTempPaddle(r.1.objects, id)
      && r.1.paddleGuard == 0
      && r.0 == Fresh(id)
      && r.1 == st.(objects := st.objects - {id}, paddleGuard := 0)
  {
    var last := Hit(TempPaddle(id, 1), st);
    assert Hits(TempPaddle(id, 1), 1, st) == Hits(last.0, 0, last.1) == last;
    assert Hits(TempPaddle(id, 2), 2, st) == Hits(TempPaddle(id, 1), 1, st);
    assert Hits(TempPaddle(id, 3), 3, st) == Hits(TempPaddle(id, 2), 2, st);
    assert Hits(Fresh(id), 4, st) == Hits(TempPaddle(id, 3), 3, st);
    assert Hits(TempPaddle(id, 1), 0, st) == (TempPaddle(id, 1), st);
    assert Hits(TempPaddle(id, 2), 1, st) == Hits(TempPaddle(id, 1), 0, st);
    assert Hits(TempPaddle(id, 3), 2, st) == Hits(TempPaddle(id, 2), 1, st);
    assert Hits(Fresh(id), 3, st) == Hits(TempPaddle(id, 3), 2, st);
  }

  /**
    The hit count cycles: a paddle with `k` hits left (1 to 4) has
    `((k - 1 - n) mod 4) + 1` left after `n` more hits, however often it
    has been removed on the way.
   */
  lemma {:induction false} HitsCycle(p: TempPaddle, n: nat, st: RoundState)
    requires 1 <= p.hitsLeft <= PADDLE_MAX_COLLISION
    ensures Hits(p, n, st).0 == TempPaddle(p.id, (p.hitsLeft - 1 - n) % PADDLE_MAX_COLLISION + 1)
    decreases n
  {
    if n > 0 {
      var once := Hit(p, st);
      HitsCycle(once.0, n - 1, once.1);
    }
  }
}
