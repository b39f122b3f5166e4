/**
 * How one pass of the receive loop of `app_main` (main/main.cpp) turns a CAN
 * frame into a background colour, and what a finite run of passes does.
 */
module CanFrames {
  import opened Optional
  import opened Colours

  newtype byte = x: int | 0 <= x < 0x100
  newtype u32 = x: int | 0 <= x < 0x1_0000_0000

  /** The eight data bytes of a TWAI message; byte 2 is read whatever the data length code says. */
  type Payload = s: seq<byte> | |s| == 8 witness [0, 0, 0, 0, 0, 0, 0, 0]

  datatype Frame = Frame(identifier: u32, data: Payload)

  /** Identifier of the clutch message. */
  const CLUTCH_ID: u32 := 0x130
  /** Values of data byte 2 of the clutch message. */
  const CLUTCH_DEPRESSED: byte := 0x21
  const CLUTCH_RELEASED: byte := 0x61

  /** Colour-table indices the loop passes to `lvgl_change_bg_color`. */
  const DEPRESSED_INDEX: int := 0
  const RELEASED_INDEX: int := 1
  const OTHER_TRAFFIC_INDEX: int := 2

  /**
   * One call of the receive function: whether its return value tested
   * non-zero (the condition the loop branches on), and the frame buffer.
   */
  datatype Reception = Reception(receiveReturnedNonZero: bool, frame: Frame)

  /**
   * The table index a frame selects, or None when it selects nothing (the
   * clutch identifier with an unrecognised byte 2).
   */
  function Classify(f: Frame): (r: Option<int>)
    ensures r.None? <==> f.identifier == CLUTCH_ID && f.data[2] != CLUTCH_DEPRESSED && f.data[2] != CLUTCH_RELEASED
    ensures r.Some? ==> ColourOf(r.value) != WHITE
  {
    if f.identifier != CLUTCH_ID then Some(OTHER_TRAFFIC_INDEX)
    else if f.data[2] == CLUTCH_DEPRESSED then Some(DEPRESSED_INDEX)
    else if f.data[2] == CLUTCH_RELEASED then Some(RELEASED_INDEX)
    else None
  }

  /** A frame is classified from its identifier and byte 2 alone; any other identifier from the identifier alone. */
  lemma ClassifyReadsOnlyIdAndByte2(f: Frame, g: Frame)
    requires f.identifier == g.identifier
    requires f.identifier != CLUTCH_ID || f.data[2] == g.data[2]
    ensures Classify(f) == Classify(g)
  {
  }

  /** Does this pass of the loop paint the background? */
  predicate Repaints(rx: Reception) {
    rx.receiveReturnedNonZero && Classify(rx.frame).Some?
  }

  /** The background after one pass of the loop, starting from `bg`. */
  function Next(bg: Rgb, rx: Reception): (c: Rgb)
    ensures !rx.receiveReturnedNonZero ==> c == bg
    ensures rx.receiveReturnedNonZero && rx.frame.identifier != CLUTCH_ID ==> c == MAGENTA
    ensures rx.receiveReturnedNonZero && rx.frame.identifier == CLUTCH_ID ==>
              (rx.frame.data[2] == CLUTCH_DEPRESSED ==> c == BLUE) &&
              (rx.frame.data[2] == CLUTCH_RELEASED ==> c == RED) &&
              (rx.frame.data[2] != CLUTCH_DEPRESSED && rx.frame.data[2] != CLUTCH_RELEASED ==> c == bg)
  {
    if Repaints(rx) then ColourOf(Classify(rx.frame).value) else bg
  }

  /**
   * The colours one pass writes, in program order: the identifier test, then
   * two independent tests of byte 2 (not an else-if chain).
   */
  function Paints(rx: Reception): (r: seq<Rgb>)
    ensures |r| <= 1
    ensures r == [] <==> !Repaints(rx)
    ensures r != [] ==> r[0] == ColourOf(Classify(rx.frame).value)
  {
    if !rx.receiveReturnedNonZero then []
    else if rx.frame.identifier != CLUTCH_ID then [ColourOf(OTHER_TRAFFIC_INDEX)]
    else
      (if rx.frame.data[2] == CLUTCH_DEPRESSED then [ColourOf(DEPRESSED_INDEX)] else []) +
      (if rx.frame.data[2] == CLUTCH_RELEASED then [ColourOf(RELEASED_INDEX)] else [])
  }

  /** The background after the passes `rxs`, in order, starting from `bg`. */
  function Final(bg: Rgb, rxs: seq<Reception>): Rgb {
    if rxs == [] then bg else Next(Final(bg, rxs[..|rxs| - 1]), rxs[|rxs| - 1])
  }

  /** Every colour the passes `rxs` write, in order. */
  function AllPaints(rxs: seq<Reception>): seq<Rgb> {
    if rxs == [] then [] else AllPaints(rxs[..|rxs| - 1]) + Paints(rxs[|rxs| - 1])
  }

  /** Running `a` and then `b` is running `a + b`. */
  lemma {:induction false} FinalAppend(bg: Rgb, a: seq<Reception>, b: seq<Reception>)
    ensures Final(bg, a + b) == Final(Final(bg, a), b)
  {
    if b == [] {
      assert a + b == a;
    } else {
      var b' := b[..|b| - 1];
      assert (a + b)[..|a + b| - 1] == a + b';
      assert (a + b)[|a + b| - 1] == b[|b| - 1];
      FinalAppend(bg, a, b');
    }
  }

  /** Passes that repaint nothing leave the background as it was. */
  lemma {:induction false} FinalWithoutRepaint(bg: Rgb, rxs: seq<Reception>)
    requires forall i :: 0 <= i < |rxs| ==> !Repaints(rxs[i])
    ensures Final(bg, rxs) == bg
  {
    if rxs != [] {
      var init := rxs[..|rxs| - 1];
      assert forall i :: 0 <= i < |init| ==> init[i] == rxs[i];
      FinalWithoutRepaint(bg, init);
    }
  }

  /** The screen shows the colour selected by the last pass that repainted it. */
  lemma {:induction false} FinalIsLastRepaint(bg: Rgb, rxs: seq<Reception>, i: int)
    requires 0 <= i < |rxs| && Repaints(rxs[i])
    requires forall j :: i < j < |rxs| ==> !Repaints(rxs[j])
    ensures Final(bg, rxs) == ColourOf(Classify(rxs[i].frame).value)
  {
    var before, after := rxs[..i + 1], rxs[i + 1..];
    assert rxs == before + after;
    assert before[..|before| - 1] == rxs[..i];
    FinalAppend(bg, before, after);
    assert forall j :: 0 <= j < |after| ==> after[j] == rxs[i + 1 + j];
    FinalWithoutRepaint(Final(bg, before), after);
  }

  /**
   * Once any pass has repainted the screen, it stays blue, red or magenta:
   * the loop never selects the table's white default.
   */
  lemma {:induction false} FinalAfterRepaint(bg: Rgb, rxs: seq<Reception>, i: int)
    requires 0 <= i < |rxs| && Repaints(rxs[i])
    ensures IsListedColour(Final(bg, rxs))
  {
    var last := rxs[|rxs| - 1];
    if Repaints(last) {
    } else {
      var init := rxs[..|rxs| - 1];
      assert i < |init| && init[i] == rxs[i];
      FinalAfterRepaint(bg, init, i);
    }
  }

  /** Whatever the passes, the screen ends either as it started or in a listed colour. */
  lemma {:induction false} FinalReachable(bg: Rgb, rxs: seq<Reception>)
    ensures Final(bg, rxs) == bg || IsListedColour(Final(bg, rxs))
  {
    if rxs != [] {
      FinalReachable(bg, rxs[..|rxs| - 1]);
    }
  }

  /** Every colour the loop writes is blue, red or magenta. */
  lemma {:induction false} AllPaintsListed(rxs: seq<Reception>)
    ensures forall k :: 0 <= k < |AllPaints(rxs)| ==> IsListedColour(AllPaints(rxs)[k])
  {
    if rxs != [] {
      AllPaintsListed(rxs[..|rxs| - 1]);
    }
  }

  /** The background is the last colour written, or the starting one if nothing was written. */
  lemma {:induction false} FinalIsLastPaint(bg: Rgb, rxs: seq<Reception>)
    ensures AllPaints(rxs) == [] ==> Final(bg, rxs) == bg
    ensures AllPaints(rxs) != [] ==> Final(bg, rxs) == AllPaints(rxs)[|AllPaints(rxs)| - 1]
  {
    if rxs != [] {
      FinalIsLastPaint(bg, rxs[..|rxs| - 1]);
    }
  }

  /** Indices of the passes among `rxs` that repaint the screen. */
  function RepaintingPasses(rxs: seq<Reception>): set<int> {
    set i | 0 <= i < |rxs| && Repaints(rxs[i])
  }

  /** Adding one pass adds its index exactly when it repaints. */
  lemma RepaintingPassesSnoc(rxs: seq<Reception>)
    requires rxs != []
    ensures var n := |rxs| - 1;
      RepaintingPasses(rxs) ==
        RepaintingPasses(rxs[..n]) + (if Repaints(rxs[n]) then {n} else {})
  {
    var n := |rxs| - 1;
    assert forall i :: 0 <= i < n ==> rxs[..n][i] == rxs[i];
  }

  /** The passes write exactly one colour per repainting pass. */
  lemma {:induction false} AllPaintsCount(rxs: seq<Reception>)
    ensures |AllPaints(rxs)| == |RepaintingPasses(rxs)|
  {
    if rxs != [] {
      var n := |rxs| - 1;
      AllPaintsCount(rxs[..n]);
      RepaintingPassesSnoc(rxs);
      assert n !in RepaintingPasses(rxs[..n]);
    }
  }
}
