/** The background colour table of `lvgl_change_bg_color` (main/main.cpp). */
module Colours {
  import opened Optional

  /** A 24-bit RGB value, as handed to `lv_color_hex`. */
  newtype Rgb = x: int | 0 <= x < 0x100_0000

  const BLUE: Rgb := 0x0000FF
  const RED: Rgb := 0xFF0000
  const MAGENTA: Rgb := 0xFF00FF
  const WHITE: Rgb := 0xFFFFFF

  /** The colours the table gives to its three listed indices. */
  predicate IsListedColour(c: Rgb) {
    c == BLUE || c == RED || c == MAGENTA
  }

  /** Which listed index, if any, paints the screen in colour `c`. */
  function IndexOf(c: Rgb): (r: Option<int>)
    ensures r.Some? <==> IsListedColour(c)
    ensures r.Some? ==> 0 <= r.value <= 2
  {
    if c == BLUE then Some(0)
    else if c == RED then Some(1)
    else if c == MAGENTA then Some(2)
    else None
  }

  /** The colour `lvgl_change_bg_color(index)` paints: a switch with a default. */
  function ColourOf(index: int): (c: Rgb)
    ensures c == WHITE <==> !(0 <= index <= 2)
    ensures IndexOf(c) == if 0 <= index <= 2 then Some(index) else None
  {
    match index
    case 0 => BLUE
    case 1 => RED
    case 2 => MAGENTA
    case _ => WHITE
  }

  /** The other direction of the round trip: a colour found in the table is painted by its index. */
  lemma ColourOfIndexOf(c: Rgb)
    ensures IndexOf(c).Some? ==> ColourOf(IndexOf(c).value) == c
  {
  }

  /** Two listed indices paint the same colour only if they are the same index. */
  lemma ColourOfInjective(i: int, j: int)
    requires 0 <= i <= 2 && 0 <= j <= 2
    requires ColourOf(i) == ColourOf(j)
    ensures i == j
  {
  }
}
