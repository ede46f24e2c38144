/**
  `Heart`: a heart reacts only to the user's paddle. Catching one adds a
  life (up to the maximum), removes the caught heart, and refreshes the
  life counter.
 */
module Hearts {
  import opened Outcomes
  import opened World
  import opened GameManager
  import LifeCounter
  import Decimal

  /** `shouldCollideWith`: only an object tagged "main paddle". */
  function ShouldCollideWith(otherTag: string): (r: bool)
    ensures r <==> otherTag == "main paddle"
  {
    otherTag == MAIN_PADDLE_TAG
  }

  /**
    `onCollisionEnter`: when the other object is the main paddle,
    `addHeart`, then `removeFallenHeart` on this heart, then `incText`;
    otherwise nothing. A negative life count makes `addHeart` index outside
    the heart array.
   */
  function OnCollisionEnter(heart: EntityId, otherTag: string, st: RoundState): (r: Result<RoundState>)
    ensures !ShouldCollideWith(otherTag) ==> r == Success(st)
    ensures ShouldCollideWith(otherTag) && st.lives < MAX_LIFE && !(0 <= st.lives < |st.hearts|) ==>
      r == Failure(IndexOutOfBounds)
    ensures ShouldCollideWith(otherTag) && (st.lives >= MAX_LIFE || 0 <= st.lives < |st.hearts|) ==>
      && r.Success?
      && r.value.lives == (if st.lives < MAX_LIFE then st.lives + 1 else st.lives)
      && heart !in r.value.objects
      && Decimal.ParseDecimal(r.value.display.text) == Some(r.value.lives)
      && r.value.bricks == st.bricks && r.value.turbo == st.turbo && r.value.pucks == st.pucks
  {
    if ShouldCollideWith(otherTag) then
      var added :- AddHeart(st);
      Success(IncText(RemoveFallenHeart(added, heart)))
    else
      Success(st)
  }

  /** A heart caught at full lives is removed and changes nothing else but the counter's text. */
  lemma CaughtAtFullLives(heart: EntityId, st: RoundState)
    requires st.lives == MAX_LIFE
    ensures var r := OnCollisionEnter(heart, MAIN_PADDLE_TAG, st);
      && r.Success?
      && r.value == st.(objects := st.objects - {heart}, display := r.value.display)
      && r.value.display == LifeCounter.UpdateText(st.display, MAX_LIFE)
  {
  }

  /**
    A heart caught below full lives fills the first empty slot of the heart
    row with a new life heart and removes the caught one.
   */
  lemma CaughtBelowFullLives(heart: EntityId, st: RoundState)
    requires 0 <= st.lives < MAX_LIFE && |st.hearts| == MAX_LIFE
    requires heart < st.nextId && FreshIds(st)
    ensures var r := OnCollisionEnter(heart, MAIN_PADDLE_TAG, st);
      && r.Success?
      && r.value.lives == st.lives + 1
      && r.value.hearts == st.hearts[st.lives := st.nextId]
      && r.value.objects == (st.objects - {heart})[st.nextId := LifeHeart(st.lives, st.height)]
      && r.value.sweepHearts == st.sweepHearts + [st.nextId]
  {
    var added := AddHeart(st).value;
    assert added.objects == st.objects[st.nextId := LifeHeart(st.lives, st.height)];
  }
}
