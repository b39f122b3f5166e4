/** The colour rule of the full-screen touch overlay callback `lvgl_full_overlay_cb`. */
module TouchOverlay {
  import opened Colours

  /** The code of an LVGL event reaching the overlay: the two it reacts to, and every other one. */
  datatype LvEvent = Pressed | Released | OtherEvent(code: nat)

  /**
   * The colours the callback writes, in order: two separate `if`s, one per
   * event code it recognises.
   */
  function TouchPaints(e: LvEvent): (r: seq<Rgb>)
    ensures |r| <= 1
    ensures r == [] <==> e.OtherEvent?
    ensures r != [] ==> IsListedColour(r[0])
  {
    (if e == Pressed then [BLUE] else []) + (if e == Released then [RED] else [])
  }

  /** The background after the callback has handled `e`, starting from `bg`. */
  function TouchNext(bg: Rgb, e: LvEvent): (c: Rgb)
    ensures e.Pressed? ==> c == BLUE
    ensures e.Released? ==> c == RED
    ensures e.OtherEvent? ==> c == bg
  {
    var writes := TouchPaints(e);
    if writes == [] then bg else writes[|writes| - 1]
  }

  /** Pressing paints the colour of table index 0, releasing that of index 1. */
  lemma TouchMatchesTable(bg: Rgb)
    ensures TouchNext(bg, Pressed) == ColourOf(0)
    ensures TouchNext(bg, Released) == ColourOf(1)
  {
  }
}
