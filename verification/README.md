# ST7036 character-LCD driver, modelled in Dafny

This project models the Python driver for the Sitronix ST7036 dot-matrix
LCD controller. The controller is driven over SPI, with a separate
register-select line: low for a command byte, high for a display-data byte.
The repository has two variants of the driver class `st7036`:

- `library/st7036.py` is the maintained 1.4.4 driver. It keeps the
  display-mode flags (display on, cursor shown, cursor blinking), a
  double-height bit, and a table of eight animation slots. Every command goes
  out as an instruction-set select byte followed by the command byte, each
  followed by a 60 µs sleep.
- `python/st7036.py` is the older, stateless driver. Its select byte carries
  no double-height bit, and each transfer of a command is followed by a
  50 µs sleep (a `_write_char` byte by 100 µs). Nothing waits after a clear
  or a cursor move. `create_char` ends by re-sending the default display mode
  instead of homing the cursor.

Nothing is read back from the controller. A driver's observable behaviour is
therefore the exact sequence of bytes it puts on the bus, each tagged with its
register-select level, together with the sleeps between them. The model
records this as an append-only log `log: seq<Event>`, where
`Event = Xfer(rs, b) | Wait(us)`. Every method's contract states exactly what
the call appends. Frames written per field (`modifies this`log`) state what
it leaves alone.

Files:

- `bus.dfy` (module `Bus`) defines:
  - events;
  - how a call ends (`Done`, `Refused` for create_char's `return False`,
    `Raised(ValueError | IndexError)`);
  - the byte the SPI layer sends for a Python integer, which is its low
    eight bits;
  - the command transaction `Frame` (select byte, sleep, command byte, sleep);
  - `Sent(log, rs)`, the bytes sent at one register-select level, with its
    algebra.
- `protocol.dfy` (module `Protocol`) holds the bit-packing that both variants
  share:
  - select byte, contrast nibbles, bias, display-mode mask;
  - DDRAM row offsets and addresses, CGRAM addresses;
  - the start-up sequence;
  - the event sequences produced by the `write` and `create_char` loops.
- `driver.dfy` (module `Driver`) is `library/st7036.py` as class
  `Driver.St7036`. It has the four mode fields, an `array` of eight animation
  slots, and the bus log.
- `legacy_driver.dfy` (module `LegacyDriver`) is `python/st7036.py` as class
  `LegacyDriver.St7036`.
- `variants.dfy` (module `Variants`) compares the two drivers on the wire.

Inputs that come from the environment are parameters:

- The wall clock in `update_animations` is a parameter
  `clock: (int, real) -> int`. `clock(i, fps)` stands for
  `round(time.time() * fps)` read when the loop reaches slot `i`. The time is
  read afresh for every slot, after the earlier slots' uploads and their
  sleeps, so two slots with the same rate may show different frames.
- The GPIO pins, the SPI device, and the sleeps are not modelled as effects.
  Sleeps are recorded as `Wait` events in whole microseconds.

The model follows the code, including where it departs from what the
drivers' documentation suggests:

- An out-of-range argument raises `ValueError`, not a dedicated
  out-of-range error.
- `create_char` does not reject bitmaps whose length is not 8. Extra entries
  are ignored. A short bitmap sends its rows, then the address of the first
  missing row, and then raises `IndexError`.
- The maintained `create_char` only homes the cursor. It does not re-apply
  the display mode. The older one re-sends the fixed byte 0x0C rather than
  any stored mode.
- `write` sleeps 50 µs per character in both variants.
- The maintained `set_bias` does not distinguish its two settings (see
  Findings).

## Model

| member | source | states |
|---|---|---|
| Bus.FrameSent | library/st7036.py:260-274 | a command transaction sends exactly its select byte and its command byte, both with register-select low, and no data |
| Bus.DataSent | library/st7036.py:254-258 | a `_write_char` transfer sends exactly its byte as data and no command byte |
| Protocol.SelectByte | library/st7036.py:260-263 | the select byte carries the template and instruction-set bits, and has bit 2 set exactly when double height is on or the template or set already has it |
| Protocol.DoubleHeightBit | library/st7036.py:249-252 | with the default-style template (bit 2 clear) and sets 0..2, bit 2 of every select byte equals the double-height flag, and the remaining bits are template OR set |
| Protocol.ContrastCommands | library/st7036.py:102-111 | for contrast 0..0x3F: three commands with opcodes 0x54, 0x6B and 0x70, from which the contrast is recovered exactly (two high bits from the first, four low bits from the third) |
| Protocol.DefaultContrast | library/st7036.py:77 | contrast 40 is sent as 0x56, 0x6B, 0x78 |
| Protocol.BiasIgnoredAsWritten | library/st7036.py:86-87 | as written, set_bias(0) and set_bias(1) both send 0x15 |
| Protocol.BiasCommand | library/st7036.py:86-87 | corrected bias command: bias 0 and 1 differ exactly in bit 3, and the other bits are the opcode 0x15 |
| Protocol.BiasDistinguished | library/st7036.py:75 | the corrected set_bias(1) sends 0x1D and differs from set_bias(0) |
| Protocol.DisplayModeCommand | library/st7036.py:127-132 | the display-mode mask lies in 0x08..0x0F, and its bits 2, 1 and 0 are exactly enable, cursor and blink |
| Protocol.RowOffsets | library/st7036.py:46 | for 1 to 3 rows: one offset per row, starting at 0, rows evenly spaced (0x40 apart for two rows, 0x10 for three) |
| Protocol.DdramCommand | library/st7036.py:142-149 | the set-DDRAM-address command always has bit 7 set, and carries any offset 0..0x7F unchanged in its low seven bits |
| Protocol.CursorAddressing | library/st7036.py:162-167 | on a screen whose rows fit their address span, distinct cells get distinct DDRAM addresses, and each address survives into the command byte |
| Protocol.ThirdRowExample | library/st7036.py:165-167 | row 2, column 5 of a three-row display is command 0xA5 |
| Protocol.CgramCommandFields | library/st7036.py:230-232 | the CGRAM command for slot 0..7 and row 0..7 is 0x40 + 8·slot + row, lies in 0x40..0x7F, and slot and row can be read back from its bits |
| Protocol.SetupSent | library/st7036.py:70-77 | the start-up commands (display mode 0x0C, entry mode 0x06, the given bias command in set 1, contrast 0x56/0x6B/0x78 in set 1) go out in that order, with no data |
| Protocol.TextSent | library/st7036.py:185-196 | write sends one data transfer per character, in order, whose byte is the character's code, and no command byte |
| Protocol.GlyphRowsSent | library/st7036.py:229-233 | programming n rows of a slot sends the first n bitmap entries as data in order, and as commands the select byte alternating with the CGRAM addresses of rows 0..n-1 |
| Protocol.ShortRowsSent | library/st7036.py:229-233 | programming a bitmap of fewer than eight rows sends those rows as data, and as commands the addressing of every row it has and of the first row it lacks |
| Protocol.AddressingFields | library/st7036.py:229-232 | in that command stream every even byte is the select byte and every odd one is the CGRAM address 0x40 + 8·slot + row, always within 0x40..0x7F |
| Driver.UploadSent | library/st7036.py:226-235 | create_char with slot 0..7 and at least eight rows succeeds, sends exactly the first eight rows as data, addresses rows 0..7 of the slot, then homes (0x80) |
| Driver.ShortUploadSent | library/st7036.py:226-233 | with fewer than eight rows it raises IndexError after sending every row it has and the address of the first missing row, without homing |
| Driver.HomeSent | library/st7036.py:171-175 | home sends the select byte and 0x80 and no data |
| Driver.RefreshOutcome | library/st7036.py:218-224 | update_animations raises IndexError exactly when some stored animation's chosen frame is shorter than eight rows; otherwise it sends the first eight rows of every stored animation's chosen frame, in slot order |
| Driver.NegativeSlotAsWritten | library/st7036.py:206-216 | as written, create_animation(-1, …) stores the animation in slot 7 while create_char refuses -1 and programs nothing |
| Driver.AnimationSlot | library/st7036.py:206-207 | corrected slot check: a slot is accepted exactly when it is 0..7, it is then the slot the first frame is programmed into, and create_char succeeds there for every select byte and every bitmap of at least eight rows |
| Driver.St7036.constructor | library/st7036.py:30-78 | flags start as display on, cursor off, blink off, double height off; all eight slots are empty; the log is the start-up sequence, with the bias byte 0x15 that set_bias(1) sends, followed by clear |
| Driver.St7036.WriteInstructionSet | library/st7036.py:260-263 | appends the current select byte with register-select low, then a 60 µs sleep |
| Driver.St7036.WriteCommand | library/st7036.py:265-274 | appends the select byte for the set, then the command, with register-select low and a 60 µs sleep after each |
| Driver.St7036.WriteChar | library/st7036.py:254-258 | appends the byte with register-select high, then a 100 µs sleep |
| Driver.St7036.SetBias | library/st7036.py:86-87 | appends the bias command as written (0x15 for both bias 0 and bias 1, see Protocol.BiasIgnoredAsWritten) in instruction set 1 |
| Driver.St7036.SetContrast | library/st7036.py:89-111 | outside 0..0x3F: ValueError and nothing sent; otherwise the three contrast commands in instruction set 1, in order |
| Driver.St7036.SetDisplayMode | library/st7036.py:113-125 | stores the three flags, changes nothing else, and sends the mask built from them |
| Driver.St7036.UpdateDisplayMode | library/st7036.py:127-132 | sends the mask of the stored flags and changes no field |
| Driver.St7036.EnableCursor | library/st7036.py:134-136 | changes only the cursor flag, then sends the display mode |
| Driver.St7036.EnableBlink | library/st7036.py:138-140 | changes only the blink flag, then sends the display mode |
| Driver.St7036.SetCursorOffset | library/st7036.py:142-149 | sends the DDRAM-address command for the offset |
| Driver.St7036.SetCursorPosition | library/st7036.py:151-169 | off-screen row or column: ValueError and nothing sent; otherwise the DDRAM address row offset + column, then a 1500 µs sleep |
| Driver.St7036.Home | library/st7036.py:171-175 | sends the DDRAM address 0 (0x80), then the 1500 µs sleep |
| Driver.St7036.Clear | library/st7036.py:177-183 | sends 0x01, sleeps 1500 µs, then homes |
| Driver.St7036.Write | library/st7036.py:185-196 | appends the write events for the text (see Protocol.TextSent) |
| Driver.St7036.CreateChar | library/st7036.py:226-235 | slot outside 0..7: returns False and sends nothing; otherwise the upload of Driver.UploadSent / Driver.ShortUploadSent with its status |
| Driver.St7036.CreateAnimation | library/st7036.py:198-216 | bad slot: ValueError; no frames: IndexError; first frame shorter than 8: ValueError, in that order and with nothing sent or stored; otherwise programs the first frame into the slot and stores the animation there, leaving the other seven slots as they were |
| Driver.St7036.UpdateAnimations | library/st7036.py:218-224 | sends exactly what Driver.RefreshOutcome describes and ends with its status |
| Driver.St7036.CursorLeft | library/st7036.py:237-238 | sends command 0x10 in set 0 |
| Driver.St7036.CursorRight | library/st7036.py:240-241 | sends command 0x14 in set 0 |
| Driver.St7036.ShiftLeft | library/st7036.py:243-244 | sends command 0x18 in set 0 |
| Driver.St7036.ShiftRight | library/st7036.py:246-247 | sends command 0x1C in set 0 |
| Driver.St7036.DoubleHeight | library/st7036.py:249-252 | stores the flag that every later select byte carries in bit 2, then sends a bare set-0 select byte and the double-height position command in set 2 |
| LegacyDriver.UploadSent | python/st7036.py:152-161 | create_char with slot 0..7 and at least eight rows sends the first eight rows as data, addresses rows 0..7, then re-sends display mode 0x0C |
| LegacyDriver.St7036.constructor | python/st7036.py:15-44 | the log is the start-up sequence followed by clear, with 50 µs sleeps and no long waits |
| LegacyDriver.St7036.WriteCommand | python/st7036.py:169-180 | appends template OR set, then the command, with register-select low and a 50 µs sleep after each |
| LegacyDriver.St7036.WriteChar | python/st7036.py:163-167 | appends the byte with register-select high, then a 100 µs sleep |
| LegacyDriver.St7036.SetContrast | python/st7036.py:46-68 | outside 0..0x3F: ValueError and nothing sent; otherwise the three contrast commands in set 1 |
| LegacyDriver.St7036.SetDisplayMode | python/st7036.py:70-83 | sends the mask of its arguments and stores nothing |
| LegacyDriver.St7036.SetCursorOffset | python/st7036.py:85-92 | sends the DDRAM-address command for the offset |
| LegacyDriver.St7036.SetCursorPosition | python/st7036.py:94-110 | off-screen: ValueError and nothing sent; otherwise the DDRAM address row offset + column, with no long sleep |
| LegacyDriver.St7036.Home | python/st7036.py:112-116 | sends 0x80 |
| LegacyDriver.St7036.Clear | python/st7036.py:118-123 | sends 0x01, then homes |
| LegacyDriver.St7036.Write | python/st7036.py:125-136 | appends the write events for the text (see Protocol.TextSent) |
| LegacyDriver.St7036.CreateChar | python/st7036.py:152-161 | slot outside 0..7: returns False and sends nothing; otherwise the upload of LegacyDriver.UploadSent / Variants.ShortUploadsAgree with its status |
| Variants.DriverInitSent | library/st7036.py:70-78 | the maintained constructor sends 0x0C, 0x06, 0x15, 0x56, 0x6B, 0x78, 0x01 and 0x80, each after its select byte, and no data |
| Variants.LegacyInitSent | python/st7036.py:35-44 | the older constructor sends 0x0C, 0x06, 0x1D, 0x56, 0x6B, 0x78, 0x01 and 0x80, each after its select byte, and no data |
| Variants.InitBytesAgree | python/st7036.py:35-44 | neither constructor sends data; their sixteen command bytes agree everywhere except the bias, 0x15 from the maintained driver (the as-written command) against 0x1D from the older one (what the corrected command sends) |
| Variants.UploadBytesAgree | python/st7036.py:152-161 | a full custom character is sent as the same data and CGRAM addressing by both drivers; only the trailing command differs (0x80 against 0x0C) |
| Variants.ShortUploadsAgree | python/st7036.py:156-159 | with fewer than eight rows both drivers raise IndexError after sending the same bytes at each register-select level |

## Left out

- The reset pulse in the constructor and `reset()` (library/st7036.py:50-55, 80-84) only toggle a GPIO pin.
- GPIO set-up, the SPI device (`spidev`, and the `spi` module of the older driver), and the pin and chip-select parameters are not modelled. Only the bytes and register-select levels they produce are. The SPI layer's treatment of integers outside 0..255 is taken to be truncation to the low eight bits (`Bus.LowByte`); that layer is not part of this model.
- Sleeps are `Wait` events in whole microseconds, with no timing semantics.
- The `type(...) is not int` / `is not list` checks (TypeError in set_contrast, ValueError for a non-list animation map or frame) are vacuous once parameters are typed `int`, `seq<Glyph>` and `Glyph`.
- `update_animations` reads the wall clock and rounds a float. The model takes the per-slot readings `clock(i, fps)` in place of `round(time.time() * fps)`.
- The animation table of python/st7036.py: `[]*8` is an empty list, so its `create_animation` and `update_animations` cannot store or play anything. They are not modelled.
- The `__main__` test cycles of both files, and the example scripts (threads, system statistics, external display modules).
- Driver.St7036.constructor: requires 1 ≤ rows ≤ 3 and columns ≥ 1. For other sizes the source raises IndexError when choosing the row offsets, or raises ValueError from the final home after sending the rest of the start-up sequence. Those partial start-ups are not modelled.
- LegacyDriver.St7036.constructor: the same restriction, for the same reason.
- Driver.St7036.DoubleHeight: `enable` is a `bool`. The source shifts any integer left by two into the select byte, and values other than 0 and 1 are not modelled.
- Driver.St7036.CreateAnimation: stores the frames as a value. The source stores the caller's list by reference, so a later change to that list by the caller (emptying it makes update_animations divide by zero) is not modelled.
- Default arguments are not modelled; callers pass every argument. The source's defaults are set_bias(bias=1), set_display_mode(enable=True, cursor=False, blink=False), enable_cursor(cursor=False), enable_blink(blink=False) and double_height(enable=0, position=1), so enable_cursor() with no argument turns the cursor off.
- Driver.St7036.CreateAnimation: rejects negative slots with ValueError (Driver.AnimationSlot). The code as written lets them through (Driver.StoredSlotAsWritten). See Findings.

## Findings

| source | as written | input that shows it | evidently intended | confidence | as-written member | corrected member |
|---|---|---|---|---|---|---|
| library/st7036.py:86-87 | the bias is shifted left by four onto bit 4, which the opcode 0x14 already sets | set_bias(0) and set_bias(1) both send 0x15 | bias on bit 3, so set_bias(1) sends 0x1D as the older driver's start-up does | not executed | Protocol.BiasIgnoredAsWritten | Protocol.BiasDistinguished |
| library/st7036.py:206-216 | create_animation only rejects `anim_pos >= 8` | anim_pos = -1: create_char refuses it and programs nothing, but the animation is stored in slot 7 | ValueError for negative slots, like create_char's own range check | not executed | Driver.NegativeSlotAsWritten | Driver.AnimationSlot |

The maintained driver class sends the bias byte as written (Driver.St7036.SetBias,
Driver.St7036.constructor); the corrected command is kept beside it, and
Variants.InitBytesAgree shows it is the one byte by which the two
constructors differ on the wire.
