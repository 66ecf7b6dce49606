# IS31FL3741 LED-matrix driver, modelled in Dafny

This project models the Rust driver for the IS31FL3741 LED-matrix
controller (`src/lib.rs`), which has two parts.

- **The frame buffer `LedMatrix`** (`frame.dfy`, module `Frame`). It holds two
  page images: `buffer1` of 181 bytes for register page 0 and `buffer2` of
  178 bytes for page 1.
  - Byte 0 of each image is the command byte the chip expects first, and the
    frame never writes it.
  - `set_led` routes a flat channel index in [0, 357) to one of the images.
  - `set_pixel` maps a grid pixel (x, y) and a colour (r, g, b) to three
    consecutive channels:
    - the row goes through the table `YS`;
    - columns 0-9 use a stride-10 block and columns 10-12 a stride-3 block
      starting at channel 270;
    - odd columns and column 12 store green, red, blue; the others store
      blue, green, red.
  - The class keeps the two images as arrays. A ghost field `channels` holds
    the flat view of the 357 channels, and `Valid` ties it to the arrays.
- **The session `Is31`** (`driver.dfy`, module `Driver`). It talks to the chip
  at bus address 0x30 through a paged register map.
  - Every operation first makes sure the right page is selected. The session
    caches the last page it selected and skips the selection when the cache
    already matches. A selection is an unlock write `[0xfe, 0xc5]` followed by
    the select `[0xfd, page]`.
  - The operation then writes its fixed command bytes.
  - A failed bus transfer ends the operation at once and is returned, as the
    source's `?` operator does.

The bus (`protocol.dfy`, class `Protocol.Bus`) is an abstract transport.
- Each `Write` or `WriteRead` may succeed or fail, and a read fills its buffer
  with arbitrary bytes.
- A ghost `trace` records every transfer: its address, request, status and
  the bytes read back.

Module `Protocol` states the behaviour of each driver operation.
- Each operation has a *script*: the list of transfers it issues when every
  transfer succeeds. The script depends on the cached page at entry and, for
  the read-modify-write of the shutdown bit, on the byte read back.
- `Transcript` says what a run of a script leaves in the trace: the script's
  transfers in order, stopping right after the first one that fails.
- `Performs(t0, t1, p0, p1, script, r)` states the whole effect of a call:
  - the trace grew from `t0` to `t1` by a transcript of `script`;
  - the cache went from `p0` to the page the successful selects left it on;
  - the call returned the last transfer's status.
- Every `Is31` operation is proved to `Performs` its script. There are two
  exceptions: the constructor `Bind` issues nothing, and the raw `Write`
  gets `Performs` only for data that is not a page select. The
  lemmas then derive the promised properties from the scripts:
  - success means the whole script ran;
  - nothing follows a failure;
  - the page the cache ends on;
  - the exact bytes of construction;
  - two voltage writes in a row select the page once.

Three behaviours of the code that the model reproduces as written:
- `set_page` (`src/lib.rs:92-96`) is unconditional: calling it twice unlocks
  and selects twice. Only its callers compare against the cache.
- When a selection fails, the cache keeps its previous value. It does not
  become "unknown": `set_page` assigns it only after the select write
  succeeds (`src/lib.rs:95`).
- A new session starts with the cache at 0, not in an unknown state. So
  construction always selects page 4, and an upload from cache 0 skips the
  select of page 0.

## Model

| member | source | states |
|---|---|---|
| Frame.Locate | src/lib.rs:42-48 | channels below 180 go to byte index+1 of the first image and the rest to byte index-179 of the second; position 0 (the command byte) is never a target and the index is recoverable from the location |
| Frame.Row | src/lib.rs:11 | YS maps every logical row below 9 to a physical row below 9, and RowOf inverts it |
| Frame.RowInverse | src/lib.rs:11 | YS undoes RowOf, so the table is a permutation of 0..8 |
| Frame.PixelOffset | src/lib.rs:24-30 | the first channel of a pixel is a multiple of 3; columns 0-9 stay below channel 270 and columns 10-12 stay in 270..350, so every write of an in-grid pixel is in bounds |
| Frame.FirstBlockDecode | src/lib.rs:26-27 | in the stride-10 block, channel / 3 decodes back to (x, row), so each of a pixel's three channels belongs to it |
| Frame.SecondBlockDecode | src/lib.rs:28-29 | the same for the stride-3 block starting at channel 270 |
| Frame.PixelAtOffset | src/lib.rs:24-30 | for every grid pixel and k < 3, channel offset+k is on the grid and decodes back to that pixel |
| Frame.OffsetOfPixelAt | src/lib.rs:24-30 | every grid channel lies among the three channels of the pixel it decodes to, so the grid covers channels 0..350 |
| Frame.PixelsDisjoint | src/lib.rs:24-39 | two grid pixels whose channels coincide are the same pixel with the same colour slot, so painting one pixel never overwrites another |
| Frame.ColumnThirteenAliases | src/lib.rs:24-30 | x = 13 is not rejected and stays in bounds on every row y < 9: on physical rows 0-7 it lands on the channels of the column-10 pixel one physical row down (for y = 6, pixel (10, 5)), and on physical row 8 on channels 351-353, past the grid |
| Frame.OutOfRangeFirstChannel | src/lib.rs:24-32 | a pixel whose last channel would be past channel 356 already has its first channel past it, so the source panics at the first set_led, before writing anything |
| Frame.ChannelColours | src/lib.rs:31-39 | the colour order of a column is a permutation of red, green and blue, so every colour gets exactly one channel |
| Frame.ColoursFollowOrder | src/lib.rs:31-39 | the stored bytes are (g, r, b) for odd columns and column 12 and (b, g, r) otherwise, channel i carrying colour ChannelColours(x)[i] |
| Frame.PageImage | src/lib.rs:12-15 | an image has its page's length (181 or 178) and starts with the command byte |
| Frame.Routing | src/lib.rs:42-48 | storing one channel changes exactly one byte of the two images (the one Locate names) and leaves the other image and both command bytes unchanged |
| Frame.LedMatrix.constructor | src/lib.rs:17-22 | a new frame has two fresh, distinct, all-zero images, all channels 0 and command bytes 0 |
| Frame.LedMatrix.StoredAt | src/lib.rs:42-48 | a channel's value is the image byte Locate names |
| Frame.LedMatrix.Images | src/lib.rs:12-15 | each image is its command byte followed by its page's channels in index order, so the arrays are determined by the channels and the command bytes |
| Frame.LedMatrix.SetLed | src/lib.rs:42-48 | exactly channel index takes value; the command bytes are unchanged and the frame stays consistent |
| Frame.LedMatrix.SetPixel | src/lib.rs:24-40 | the three channels of pixel (x, y) take the column's colour order of (r, g, b); every other channel and both command bytes keep their values |
| Protocol.ShutdownOff | src/lib.rs:117 | the written-back configuration byte has bit 0 set and bits 1-7 equal to the byte read |
| Protocol.ScaleImage | src/lib.rs:130-131 | a scale image of n bytes has command byte 0 and every other byte equal to scale |
| Protocol.TranscriptPositions | src/lib.rs:156-167 | the recursive transcript agrees, in both directions, with a positional reference: a prefix of the script in order, every transfer but the last succeeded, and a short prefix ends in a failure |
| Protocol.OkTranscript | src/lib.rs:156-167 | a transcript that ends in success ran every transfer of its script, all of them successfully |
| Protocol.SuccessfulPage | src/lib.rs:92-96 | when every transfer succeeds, the cache follows the script's own page selections |
| Protocol.SuccessRunsWholeScript | src/lib.rs:156-167 | an operation returning Ok issued its whole script in order, every transfer succeeded, and the cache ends on the page the script selects last |
| Protocol.FailureStops | src/lib.rs:156-167 | nothing is issued after the first failed transfer, and the operation returns that failure |
| Protocol.PageAfterAppend | src/lib.rs:92-96 | the page left by two runs of transfers is that of the second run started from the page of the first |
| Protocol.ScriptPageAppend | src/lib.rs:92-96 | the same for scripts |
| Protocol.TranscriptAppend | src/lib.rs:156-167 | a fully successful transcript followed by a transcript of a second script is a transcript of the concatenated scripts |
| Protocol.FailedPrefix | src/lib.rs:156-167 | a transcript of a prefix that ended in failure is a transcript of the whole script |
| Protocol.Sequence | src/lib.rs:156-167 | the `?` operator on success: performing c1 to Ok and then c2 performs c1 + c2, with the result and cache of c2 |
| Protocol.Abort | src/lib.rs:156-167 | the `?` operator on failure: a failed prefix performs the whole script and issues no more transfers than the prefix has |
| Protocol.Nothing | src/lib.rs:83-85 | a skipped page guard issues nothing, keeps the cache and succeeds |
| Protocol.NoSelectKeepsPage | src/lib.rs:74-76 | a script without page-select commands leaves the cache where it was |
| Protocol.SetPageEffect | src/lib.rs:89-96 | set_page's cache becomes the page only if both writes succeed (two transfers); on failure the cache is unchanged, and a failed unlock is the only transfer issued |
| Protocol.SetPageScriptPage | src/lib.rs:92-96 | the script of set_page leaves the cache on the selected page |
| Protocol.EndsAfterSelect | src/lib.rs:134-138 | a script ending with a select and one more plain write leaves the cache on the selected page |
| Protocol.GuardedEndsOnPage | src/lib.rs:98-103 | a guarded operation returning Ok leaves the cache on its page, so the same guard next time issues nothing |
| Protocol.ConsecutiveVoltageWrites | src/lib.rs:98-103 | two successful set_global_voltage calls in a row select the page at most once; the second writes only [1, w] |
| Protocol.ConstructionSequence | src/lib.rs:63-72 | construction issues exactly [0xfe, 0xc5], [0xfd, 4], [0x3f, 0xae] and on success ends on page 4 with three transfers |
| Protocol.MultiPageEnds | src/lib.rs:126-176 | on full success set_all_led_scales ends on page 3, set_led_0 and set_led_1 on page 2, set_leds on page 3 and write_led_matrix on page 1 |
| Protocol.ScalesStopAfterFailedImage | src/lib.rs:126-139 | when the first scale image fails, set_all_led_scales returns that failure and never selects page 3 nor writes the second image |
| Protocol.FirstReplyAfterWrites | src/lib.rs:115-116 | plain writes before a write-read do not change the byte read back |
| Protocol.GuardedRead | src/lib.rs:111-117 | after a successful page guard, the byte read back is the first byte of the reply to the write-read that follows it |
| Protocol.ZeroFrameUpload | src/lib.rs:169-176 | uploading a fresh all-zero frame from another page issues the select of page 0, 181 zero bytes, the select of page 1 and 178 zero bytes |
| Protocol.Bus.constructor | src/lib.rs:55 | a new transport has an empty trace |
| Protocol.Bus.Write | src/lib.rs:75 | a write appends one event with its address, data and status, and no reply |
| Protocol.Bus.WriteRead | src/lib.rs:79 | a write-read appends one event whose reply is the buffer's new contents |
| Driver.Is31.Bind | src/lib.rs:64-68 | a session is bound to its bus with the cache at page 0 |
| Driver.Is31.New | src/lib.rs:63-72 | construction performs the reset script from cache 0 and returns its status |
| Driver.Is31.Write | src/lib.rs:74-76 | a raw write issues one transfer to 0x30 and leaves the cache alone; for a non-select write that is exactly a one-transfer script |
| Driver.Is31.WriteRead | src/lib.rs:78-80 | one write-read to 0x30, whose reply fills the buffer; the cache is unchanged |
| Driver.Is31.Reset | src/lib.rs:82-87 | performs the reset script: the page-4 guard, then [0x3f, 0xae] |
| Driver.Is31.Unlock | src/lib.rs:89-91 | issues [0xfe, 0xc5] and nothing else |
| Driver.Is31.SetPage | src/lib.rs:92-96 | unlock and then select, unconditionally; the select is issued only if the unlock succeeded and the cache takes the page only if the select succeeded |
| Driver.Is31.SetGlobalVoltage | src/lib.rs:98-103 | the page-4 guard, then [1, voltage] |
| Driver.Is31.GetGlobalVoltage | src/lib.rs:105-110 | the page-4 guard, then a write-read of [1]; the buffer holds the reply when the read was issued and is untouched otherwise |
| Driver.Is31.SetSoftwareShutdownModeOff | src/lib.rs:111-119 | the page-4 guard, a write-read of [0] into a one-byte buffer (its event carries a one-byte reply) and, only if it succeeds, the write [0, b \| 1] of the byte b read |
| Driver.Is31.GetSoftwareShutdownMode | src/lib.rs:120-125 | the page-4 guard, then a write-read of [0]; the buffer holds the reply when the read was issued and is untouched otherwise |
| Driver.Is31.ScaleBuffer | src/lib.rs:130-131 | a fresh buffer of n bytes that is the scale image |
| Driver.Is31.SetAllLedScales | src/lib.rs:126-139 | the page-2 guard, the 181-byte scale image, an unconditional set_page(3) and the 178-byte scale image, stopping at the first failure |
| Driver.Is31.SetLed0 | src/lib.rs:140-147 | the page-0 guard, [0, 0xaa], an unconditional set_page(2), then [0, 0xaa] |
| Driver.Is31.SetLed1 | src/lib.rs:148-155 | the page-0 guard, [1, 0xff, 0xff, 0xff], an unconditional set_page(2), then the same bytes |
| Driver.Is31.SetLeds | src/lib.rs:156-167 | the page-0 guard and [1, 0xff, 0xff, 0xff], then set_page(1), set_page(2) and set_page(3), each followed by the same write |
| Driver.Is31.WriteLedMatrix | src/lib.rs:169-176 | the page-0 guard, the first image verbatim, an unconditional set_page(1), then the second image verbatim |

## Left out

- The HAL types (`rp2040_hal::I2C`, the register-block `Deref` bound and the
  `embedded_hal` blocking traits) are replaced by the abstract `Bus`. I2C
  timing, clocking and the chip's actual register contents are not modelled:
  read-back bytes are arbitrary, and failures are opaque statuses.
- Driver.Is31.New: the source unwraps the reset result and panics on failure.
  The model returns the status instead, and a caller that sees an `Err` has
  the session the source would never hand out.
- A partial fill of the read buffer by a failed write-read is not modelled
  separately: the transport fills the whole buffer on every write-read,
  successful or not.
- Driver.Is31.Write: a raw write of a select command `[0xfd, p]` changes the
  chip's page without updating the cache, as in the source. Its contract then
  states only the appended event, not a script, because the cache no longer
  tracks the chip.
- Frame.LedMatrix.SetLed: the source panics on an index of 357 or more. This
  is a precondition (`index < 357`), and the 16-bit index type is an
  unbounded `nat`.
- Frame.LedMatrix.SetLed: the buffer-level effect is not in its postcondition.
  It follows from `Images` and `Routing` applied to the new `channels`.
- Frame.LedMatrix.SetPixel: the source panics on a row of 9 or more, or on a
  pixel whose last channel would be 357 or more, in both cases before writing
  any channel: offsets are multiples of 3, and so is 357
  (OutOfRangeFirstChannel). Both conditions are preconditions. x is not bounded, as
  in the source: columns 13 and up are accepted when their channels exist.
- Frame.LedMatrix.SetPixel: the 16-bit offset arithmetic cannot overflow for
  8-bit inputs (at most 1077), so it is modelled on unbounded integers.
- Lifetimes, the exclusive borrow of the bus and `no_std` have no behaviour
  to model. The placeholder unit test asserts nothing about the code.
