/**
 * The active screen as the loop of `app_main` and the overlay callback see it:
 * its background colour, the display lock, and a record of every colour write.
 */
module Display {
  import opened Colours
  import opened CanFrames
  import opened TouchOverlay

  class Screen {
    /** Background colour of the active screen. */
    var bg: Rgb
    /** Whether the display lock is held. */
    var locked: bool
    /** Every colour written to the background, oldest first. */
    ghost var painted: seq<Rgb>

    /** The screen as the loop first finds it: unlocked, in whatever colour the display started with. */
    constructor (initial: Rgb)
      ensures bg == initial && !locked && painted == []
    {
      bg := initial;
      locked := false;
      painted := [];
    }

    /** `bsp_display_lock(0)`: waits without limit, so it always takes the lock. */
    method Lock()
      requires !locked
      modifies this`locked
      ensures locked
    {
      locked := true;
    }

    /** `bsp_display_unlock()`. */
    method Unlock()
      requires locked
      modifies this`locked
      ensures !locked
    {
      locked := false;
    }

    /** The single primitive that writes the background; callable only under the lock. */
    method SetBgColor(c: Rgb)
      requires locked
      modifies this`bg, this`painted
      ensures bg == c && painted == old(painted) + [c]
    {
      bg := c;
      painted := painted + [c];
    }

    /** `lvgl_change_bg_color(index)`. */
    method ChangeBgColor(index: int)
      requires locked
      modifies this`bg, this`painted
      ensures bg == ColourOf(index) && painted == old(painted) + [ColourOf(index)]
    {
      match index {
        case 0 => SetBgColor(BLUE);
        case 1 => SetBgColor(RED);
        case 2 => SetBgColor(MAGENTA);
        case _ => SetBgColor(WHITE);
      }
    }

    /** One pass of the receive loop, after the receive call has returned. */
    method Step(receiveReturnedNonZero: bool, frame: Frame)
      requires !locked
      modifies this`bg, this`locked, this`painted
      ensures !locked
      ensures bg == Next(old(bg), Reception(receiveReturnedNonZero, frame))
      ensures painted == old(painted) + Paints(Reception(receiveReturnedNonZero, frame))
    {
      if receiveReturnedNonZero {
        if frame.identifier != CLUTCH_ID {
          Lock();
          ChangeBgColor(OTHER_TRAFFIC_INDEX);
          Unlock();
        } else {
          if frame.data[2] == CLUTCH_DEPRESSED {
            Lock();
            ChangeBgColor(DEPRESSED_INDEX);
            Unlock();
          }
          if frame.data[2] == CLUTCH_RELEASED {
            Lock();
            ChangeBgColor(RELEASED_INDEX);
            Unlock();
          }
        }
      }
    }

    /** The loop of `app_main`, run over a finite sequence of receive outcomes. */
    method RunLoop(rxs: seq<Reception>)
      requires !locked
      modifies this`bg, this`locked, this`painted
      ensures !locked
      ensures bg == Final(old(bg), rxs)
      ensures painted == old(painted) + AllPaints(rxs)
    {
      var i := 0;
      while i < |rxs|
        invariant 0 <= i <= |rxs|
        invariant !locked
        invariant bg == Final(old(bg), rxs[..i])
        invariant painted == old(painted) + AllPaints(rxs[..i])
      {
        assert rxs[..i + 1][..i] == rxs[..i];
        Step(rxs[i].receiveReturnedNonZero, rxs[i].frame);
        i := i + 1;
      }
      assert rxs[..i] == rxs;
    }

    /**
     * `lvgl_full_overlay_cb`: LVGL runs it from the display task, which holds
     * the display lock while it dispatches input events.
     */
    method OnTouch(e: LvEvent)
      requires locked
      modifies this`bg, this`painted
      ensures bg == TouchNext(old(bg), e)
      ensures painted == old(painted) + TouchPaints(e)
    {
      if e == Pressed {
        SetBgColor(BLUE);
      }
      if e == Released {
        SetBgColor(RED);
      }
    }
  }
}
