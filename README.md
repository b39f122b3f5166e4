# Clutch-colour display: a Dafny model

The firmware runs on an ESP32-P4 board with a touch LCD and two TWAI (CAN)
controllers. After bring-up it loops forever. Each pass waits on controller 0
for a frame and paints the whole screen in a colour that the frame selects:

- magenta for any identifier other than `0x130`;
- blue when byte 2 of a `0x130` frame is `0x21` (clutch depressed);
- red when byte 2 of a `0x130` frame is `0x61` (clutch released).

A `0x130` frame with any other byte 2 changes nothing. Every colour write is
bracketed by `bsp_display_lock(0)` / `bsp_display_unlock()`. A full-screen
touch overlay also paints the screen: blue when pressed, red when released.

The model has these modules:

- `Colours`: the table of `lvgl_change_bg_color`. `ColourOf` maps an index to
  a 24-bit RGB value. `IndexOf` is its inverse on the three listed colours.
- `CanFrames`: frames and one pass of the loop, as functions.
  - `Classify` gives the table index a frame selects.
  - `Next` gives the background after one pass.
  - `Paints` lists the colour writes of one pass in program order.
  - `Final` and `AllPaints` fold those over a finite sequence of passes.
  - Lemmas state what any finite run does.
- `TouchOverlay`: the event-to-colour rule of `lvgl_full_overlay_cb`.
- `Display`: the class `Screen`. It holds the background `bg`, the lock flag
  `locked` and a ghost record `painted` of every colour write. Its methods
  mirror the lock, the colour write, one loop pass (`Step`), the loop over a
  finite input (`RunLoop`) and the touch callback (`OnTouch`).
  - `SetBgColor` is the only method that writes `bg`, and it requires
    `locked`, so every write is verified to happen under the lock.
  - `Lock` requires `!locked`, so the code is also shown never to take the
    lock twice.
  - `Step` and `RunLoop` start and end unlocked.

The loop branches on the truthiness of `twai_receive_v2`'s return value
(main/main.cpp:112). The model keeps that test as an opaque boolean,
`receiveReturnedNonZero`, and does not read it as "a frame arrived". The
return type is ESP-IDF's `esp_err_t`, and ESP-IDF defines success as zero.
Taken literally, the branch that reads the frame therefore runs when the call
reports an error.

The frame's data is eight bytes (`Payload`). Byte 2 is read without looking
at the data length code, as in the code.

## Model

| member | source | states |
|---|---|---|
| `Colours.ColourOf` | main/main.cpp:85-104 | The result is white exactly when the index is outside 0..2. For 0..2, `IndexOf` of the result gives the index back, so indices 0, 1, 2 paint three different colours, none of them white. |
| `Colours.IndexOf` | main/main.cpp:85-104 | Inverse of the table: defined exactly on blue, red and magenta, and always an index in 0..2. |
| `Colours.ColourOfIndexOf` | main/main.cpp:85-104 | Round trip in the other direction: a listed colour is painted by the index `IndexOf` gives for it. |
| `Colours.ColourOfInjective` | main/main.cpp:85-104 | Two indices in 0..2 that paint the same colour are equal. |
| `CanFrames.Classify` | main/main.cpp:113-131 | A frame selects nothing exactly when its identifier is `0x130` and byte 2 is neither `0x21` nor `0x61`. Whatever index it selects never paints white. |
| `CanFrames.ClassifyReadsOnlyIdAndByte2` | main/main.cpp:113-131 | The selection depends only on the identifier and byte 2. For an identifier other than `0x130` it depends on the identifier alone, whatever the payload. |
| `CanFrames.Next` | main/main.cpp:112-134 | After one pass: unchanged if the receive test fails; magenta for an identifier other than `0x130`; blue for `0x130` with byte 2 `0x21`; red for `0x130` with `0x61`; unchanged for `0x130` with any other byte 2. |
| `CanFrames.Paints` | main/main.cpp:113-131 | A pass writes at most one colour, even though the two byte-2 tests are separate `if`s. It writes one exactly when the pass repaints, and that colour is the one `Classify` selects. |
| `CanFrames.FinalAppend` | main/main.cpp:110-135 | Running the loop over `a` and then `b` equals running it over `a + b`. |
| `CanFrames.FinalWithoutRepaint` | main/main.cpp:117-134 | Passes that select nothing, or whose receive test fails, leave the background as it was. |
| `CanFrames.FinalIsLastRepaint` | main/main.cpp:110-135 | After a run, the screen shows the colour selected by the last pass that repainted it. |
| `CanFrames.FinalAfterRepaint` | main/main.cpp:110-135 | After any run in which at least one pass repainted, the background is blue, red or magenta, never the table's white default. |
| `CanFrames.FinalReachable` | main/main.cpp:110-135 | After any run, the background is either the starting colour or one of blue, red, magenta. |
| `CanFrames.AllPaintsListed` | main/main.cpp:113-131 | Every colour the loop writes is blue, red or magenta. |
| `CanFrames.FinalIsLastPaint` | main/main.cpp:110-135 | The background is the last colour written, or the starting colour if nothing was written. |
| `CanFrames.AllPaintsCount` | main/main.cpp:113-131 | A run writes exactly as many colours as it has repainting passes. |
| `TouchOverlay.TouchPaints` | main/main.cpp:40-52 | The callback writes at most one colour, and a listed one. It writes nothing exactly for events other than pressed and released. |
| `TouchOverlay.TouchNext` | main/main.cpp:40-52 | Pressed gives blue, released gives red, any other event leaves the background unchanged. |
| `TouchOverlay.TouchMatchesTable` | main/main.cpp:42-51 | Pressing paints the colour of table index 0. Releasing paints that of index 1. |
| `Display.Screen.constructor` | main/main.cpp:106-110 | At loop entry the screen is unlocked, nothing has been written, and the background is the display's initial colour. |
| `Display.Screen.Lock` | main/main.cpp:114 | Takes the display lock, which must not already be held. |
| `Display.Screen.Unlock` | main/main.cpp:116 | Releases the display lock. |
| `Display.Screen.SetBgColor` | main/main.cpp:44-45 | Sets the background and records the write. It may only be called with the lock held. |
| `Display.Screen.ChangeBgColor` | main/main.cpp:85-104 | Sets the background to `ColourOf(index)` with exactly one recorded write, under the lock. |
| `Display.Screen.Step` | main/main.cpp:111-134 | One pass starts and ends unlocked. It leaves the background at `Next` of the old one and appends exactly `Paints` of the pass to the write record. |
| `Display.Screen.RunLoop` | main/main.cpp:110-135 | The loop over a finite input keeps `locked == false` between passes. It leaves the background at `Final` of the old one and the write record extended by `AllPaints`. |
| `Display.Screen.OnTouch` | main/main.cpp:40-52 | Under the lock held by the caller, the callback leaves the background at `TouchNext` and appends exactly `TouchPaints`. |

## Left out

- Display bring-up (`config_lvgl`): buffer and DMA flags, backlight and brightness. These are vendor BSP calls with no logic of their own.
- Bus bring-up (`dual_twai_config`): pins, 500 kbit timing, the accept-all filter, driver install and start, and the aborts of `ESP_ERROR_CHECK`. This is vendor driver configuration. Controller 1 is configured but never read.
- Creation of the touch overlay object (`lvgl_fullscreen_btn`): LVGL object calls. Only its callback's colour rule is modelled.
- The blocking receive call and FreeRTOS scheduling. The receive outcome is an input to the model: the boolean the loop tests, plus the frame buffer.
- LVGL's numeric event codes. `lvgl.h` is not part of this model, so an event is pressed, released or another code.
- The display's initial background colour (LVGL's theme). It is a constructor parameter.
- Lock timeouts and the ignored return value of `bsp_display_lock(0)`. A timeout of 0 waits without limit, so acquiring the lock always succeeds.
- Display.Screen.OnTouch: it requires the lock rather than taking it. The callback takes no lock itself; it relies on LVGL's display task holding the lock while it dispatches input events. That task is not part of this model.
- Concurrency between the receive loop and the display task. The lock serialises them, so the model runs their steps one after another.
- Logging (`ESP_LOGI`).
- The non-terminating `while (true)`. It is modelled as one pass (`Step`) and as a loop over a finite sequence of passes (`RunLoop`).
- Rendering of the colour. The background value is the model's whole display state.
