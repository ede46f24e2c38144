/**
  `NumericLifeCounter`: the number shown next to the life hearts and its
  colour. Only the text and the colour are modelled; the renderable is not.
 */
module LifeCounter {
  import opened Decimal
  import opened Outcomes

  datatype Color = Green | Yellow | Red

  datatype Display = Display(text: string, color: Color)

  /**
    The constructor: the text shows the initial count; the colour stays
    whatever the renderable already had (the game manager sets green).
   */
  function New(heartCount: int, initialColor: Color): (d: Display)
    ensures ParseDecimal(d.text) == Some(heartCount)
    ensures d.color == initialColor
  {
    IntToStringRoundTrip(heartCount);
    Display(IntToString(heartCount), initialColor)
  }

  /** `updateText`: the display shows the decimal count, whatever it was before. */
  function UpdateText(d: Display, heartCount: int): (r: Display)
    ensures ParseDecimal(r.text) == Some(heartCount)
    ensures r.color == d.color
  {
    IntToStringRoundTrip(heartCount);
    d.(text := IntToString(heartCount))
  }

  /** The colour the threshold rule assigns to a count, when it assigns one. */
  function ThresholdColor(heartCount: int): Option<Color> {
    if heartCount == 2 then Some(Yellow)
    else if heartCount == 1 then Some(Red)
    else if heartCount == 3 || heartCount == 4 then Some(Green)
    else None
  }

  /** `updateColor`: counts 1 to 4 pick their colour; any other count keeps the current one. */
  function UpdateColor(d: Display, heartCount: int): (r: Display)
    ensures r.text == d.text
    ensures heartCount == 1 ==> r.color == Red
    ensures heartCount == 2 ==> r.color == Yellow
    ensures heartCount == 3 || heartCount == 4 ==> r.color == Green
    ensures !(1 <= heartCount <= 4) ==> r == d
  {
    match ThresholdColor(heartCount)
    case Some(c) => d.(color := c)
    case None => d
  }
}
