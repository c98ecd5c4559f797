/** The maintained ST7036 driver: a handle that keeps the display-mode flags,
    the double-height bit and a table of eight animation slots, and turns each
    call into transfers on the SPI bus. Every command goes out as a pair of
    transfers, an instruction-set select byte and then the command byte. */
module Driver {
  import opened Bus
  import opened Protocol

  datatype Option<T> = None | Some(value: T)

  /** A custom character: one entry per pixel row; create_char sends the
      first eight. */
  type Glyph = seq<int>

  /** An animation stored in a slot: its frames and its rate in frames per
      second. */
  datatype Animation = Animation(frames: seq<Glyph>, fps: real)

  /** The sleep after each transfer of a command transaction, in microseconds. */
  const Settle: nat := 60

  /** The sleep after a clear or a cursor-position command, in microseconds. */
  const LongSettle: nat := 1500

  /** An animation update_animations can pick a frame from. */
  predicate Playable(slot: Option<Animation>)
  {
    slot.Some? ==> |slot.value.frames| > 0
  }

  /** The frame of the animation in `slot` that update_animations shows.
      `clock(slot, fps)` is the rounded product of the frame rate and the
      wall-clock time at which the loop reaches that slot; the time is read
      afresh for every slot, after the uploads of the earlier ones. */
  function Chosen(a: Animation, clock: (int, real) -> int, slot: int): Glyph
    requires |a.frames| > 0
  {
    a.frames[clock(slot, a.fps) % |a.frames|]
  }

  /** What home() sends: the DDRAM-address command for offset 0, then the
      long settle. */
  function HomeEvents(select0: bv8): seq<Event>
  {
    Frame(select0, 0x80, Settle) + [Wait(LongSettle)]
  }

  /** What create_char(slot, bitmap) sends and how it ends. Outside slots
      0..7 it sends nothing and returns False. With eight or more entries it
      programs rows 0..7 and then homes the cursor. With fewer, the command
      addressing the first missing row goes out before the bitmap lookup
      raises IndexError. */
  function Upload(select0: bv8, slot: int, bitmap: Glyph): (seq<Event>, Status)
  {
    if slot < 0 || slot > 7 then ([], Refused)
    else if |bitmap| >= 8 then (GlyphRows(select0, slot, bitmap, 8, Settle) + HomeEvents(select0), Done)
    else
      (GlyphRows(select0, slot, bitmap, |bitmap|, Settle) + Frame(select0, CgramCommand(slot, |bitmap|), Settle),
       Raised(IndexError))
  }

  /** A complete upload sends the first eight rows of the bitmap and nothing
      else as data, and addresses exactly rows 0..7 of the slot before
      homing the cursor. */
  lemma UploadSent(select0: bv8, slot: int, bitmap: Glyph)
    requires 0 <= slot < 8 && |bitmap| >= 8
    ensures Upload(select0, slot, bitmap).1 == Done
    ensures Sent(Upload(select0, slot, bitmap).0, true) == Bytes(bitmap[..8])
    ensures Sent(Upload(select0, slot, bitmap).0, false) == Addressing(select0, slot, 8) + [select0, 0x80]
  {
    var rows := GlyphRows(select0, slot, bitmap, 8, Settle);
    GlyphRowsSent(select0, slot, bitmap, 8, Settle);
    FrameSent(select0, 0x80, Settle);
    HomeSent(select0);
    SentAppend(rows, HomeEvents(select0), true);
    SentAppend(rows, HomeEvents(select0), false);
  }

  /** A short bitmap gets every row it has, and the address of the first
      row it lacks, before the upload raises; the cursor is not homed. */
  lemma ShortUploadSent(select0: bv8, slot: int, bitmap: Glyph)
    requires 0 <= slot < 8 && |bitmap| < 8
    ensures Upload(select0, slot, bitmap).1 == Raised(IndexError)
    ensures Sent(Upload(select0, slot, bitmap).0, true) == Bytes(bitmap)
    ensures Sent(Upload(select0, slot, bitmap).0, false) == Addressing(select0, slot, |bitmap| + 1)
  {
    ShortRowsSent(select0, slot, bitmap, Settle);
  }

  lemma HomeSent(select0: bv8)
    ensures Sent(HomeEvents(select0), true) == []
    ensures Sent(HomeEvents(select0), false) == [select0, 0x80]
  {
    FrameSent(select0, 0x80, Settle);
    SentAppend(Frame(select0, 0x80, Settle), [Wait(LongSettle)], true);
    SentAppend(Frame(select0, 0x80, Settle), [Wait(LongSettle)], false);
    assert [Wait(LongSettle)][..0] == [];
  }

  /** What update_animations sends for slots i..7 and how it ends: each
      stored animation reprograms its own slot with the chosen frame, in
      slot order, until an upload raises. */
  function Refresh(select0: bv8, slots: seq<Option<Animation>>, clock: (int, real) -> int, i: nat): (seq<Event>, Status)
    requires i <= |slots| <= 8
    requires forall k :: 0 <= k < |slots| ==> Playable(slots[k])
    decreases |slots| - i
  {
    if i == |slots| then ([], Done)
    else if slots[i].None? then Refresh(select0, slots, clock, i + 1)
    else
      assert Playable(slots[i]);
      var up := Upload(select0, i, Chosen(slots[i].value, clock, i));
      if up.1.Raised? then up
      else
        var rest := Refresh(select0, slots, clock, i + 1);
        (up.0 + rest.0, rest.1)
  }

  /** One step of Refresh: an empty slot adds nothing; a stored animation
      adds its upload and stops there if the upload raised. */
  lemma RefreshStep(select0: bv8, slots: seq<Option<Animation>>, clock: (int, real) -> int, i: nat)
    requires i < |slots| <= 8
    requires forall k :: 0 <= k < |slots| ==> Playable(slots[k])
    ensures Playable(slots[i])
    ensures slots[i].None? ==> Refresh(select0, slots, clock, i) == Refresh(select0, slots, clock, i + 1)
    ensures slots[i].Some? ==>
      var up := Upload(select0, i, Chosen(slots[i].value, clock, i));
      Refresh(select0, slots, clock, i)
      == if up.1.Raised? then up
         else (up.0 + Refresh(select0, slots, clock, i + 1).0, Refresh(select0, slots, clock, i + 1).1)
  {
  }

  /** One slot of update_animations, in terms of the whole log: if the
      upload of a stored animation raised, the log is complete; otherwise
      the rest of the slots account for what remains. */
  lemma RefreshAdvance(select0: bv8, slots: seq<Option<Animation>>, clock: (int, real) -> int, i: nat,
                       whole: seq<Event>, before: seq<Event>, after: seq<Event>)
    requires i < |slots| <= 8
    requires forall k :: 0 <= k < |slots| ==> Playable(slots[k])
    requires slots[i].Some?
    requires before + Refresh(select0, slots, clock, i).0 == whole
    requires after == before + Upload(select0, i, Chosen(slots[i].value, clock, i)).0
    ensures var status := Upload(select0, i, Chosen(slots[i].value, clock, i)).1;
      if status.Raised? then after == whole && status == Refresh(select0, slots, clock, i).1
      else after + Refresh(select0, slots, clock, i + 1).0 == whole
           && Refresh(select0, slots, clock, i + 1).1 == Refresh(select0, slots, clock, i).1
  {
    RefreshStep(select0, slots, clock, i);
    var up := Upload(select0, i, Chosen(slots[i].value, clock, i));
    if !up.1.Raised? {
      assert before + (up.0 + Refresh(select0, slots, clock, i + 1).0) == after + Refresh(select0, slots, clock, i + 1).0;
    }
  }

  /** A chosen frame too short to program. */
  predicate Short(slot: Option<Animation>, clock: (int, real) -> int, i: int)
    requires Playable(slot)
  {
    slot.Some? && |Chosen(slot.value, clock, i)| < 8
  }

  /** The data bytes slots i..7 are reprogrammed with: the first eight rows
      of each stored animation's chosen frame, in slot order. */
  function Programmed(slots: seq<Option<Animation>>, clock: (int, real) -> int, i: nat): seq<bv8>
    requires i <= |slots|
    requires forall k :: 0 <= k < |slots| ==> Playable(slots[k]) && !Short(slots[k], clock, k)
    decreases |slots| - i
  {
    if i == |slots| then []
    else
      assert Playable(slots[i]) && !Short(slots[i], clock, i);
      (if slots[i].Some? then Bytes(Chosen(slots[i].value, clock, i)[..8]) else []) + Programmed(slots, clock, i + 1)
  }

  /** update_animations fails exactly when a stored animation's chosen frame
      is shorter than eight rows; otherwise it sends, as data, the chosen
      frame of every stored animation, in slot order. */
  lemma {:induction false} RefreshOutcome(select0: bv8, slots: seq<Option<Animation>>, clock: (int, real) -> int, i: nat)
    requires i <= |slots| <= 8
    requires forall k :: 0 <= k < |slots| ==> Playable(slots[k])
    ensures Refresh(select0, slots, clock, i).1
         == if exists k :: i <= k < |slots| && Short(slots[k], clock, k) then Raised(IndexError) else Done
    ensures (forall k :: 0 <= k < |slots| ==> !Short(slots[k], clock, k))
         ==> Sent(Refresh(select0, slots, clock, i).0, true) == Programmed(slots, clock, i)
    decreases |slots| - i
  {
    if i < |slots| {
      RefreshOutcome(select0, slots, clock, i + 1);
      if slots[i].Some? {
        var g := Chosen(slots[i].value, clock, i);
        if |g| >= 8 {
          var up := Upload(select0, i, g);
          var rest := Refresh(select0, slots, clock, i + 1);
          UploadSent(select0, i, g);
          SentAppend(up.0, rest.0, true);
        }
      }
    }
  }

  /** The commands the constructor sends, in order: display on with no
      cursor, entry mode, bias, the default contrast, then clear. */
  function InitEvents(template: bv8): seq<Event>
  {
    var s0 := SelectByte(template, 0, false);
    var s1 := SelectByte(template, 1, false);
    SetupEvents(s0, s1, BiasCommandAsWritten(1), Settle) + Frame(s0, 0x01, Settle) + [Wait(LongSettle)] + HomeEvents(s0)
  }

  /** Which table slot create_animation stores into, as written: positions
      from 8 up raise ValueError, but a negative position passes the check
      and Python's list indexing counts it from the end (below -8 the store
      raises IndexError). */
  function StoredSlotAsWritten(position: int): Option<int>
  {
    if position >= 8 then None
    else if position >= 0 then Some(position)
    else if position >= -8 then Some(position + 8)
    else None
  }

  /** create_animation(-1, ...) stores its animation in slot 7 while its call
      to create_char refuses -1 and programs nothing, so slot 7 keeps
      showing whatever it held until the next update_animations. */
  lemma NegativeSlotAsWritten(bitmap: Glyph)
    ensures StoredSlotAsWritten(-1) == Some(7)
    ensures Upload(0x38, -1, bitmap) == ([], Refused)
  {
  }

  /** The slot create_animation stores into once negative positions are
      rejected: always the one its first frame was programmed into. */
  function AnimationSlot(position: int): (r: Option<int>)
    ensures r.Some? <==> 0 <= position < 8
    ensures r.Some? ==> r.value == position
    ensures r.Some? ==> forall select0: bv8, bitmap: Glyph :: |bitmap| >= 8 ==> Upload(select0, position, bitmap).1 == Done
  {
    if 0 <= position < 8 then Some(position) else None
  }

  class St7036 {
    const rows: int
    const columns: int
    const rowOffsets: seq<int>
    const template: bv8
    const animations: array<Option<Animation>>
    var enabled: bool
    var cursorEnabled: bool
    var cursorBlink: bool
    var doubleHeight: bool
    /** Everything sent on the bus so far. */
    var log: seq<Event>

    ghost predicate Valid()
      reads animations
    {
      && 1 <= rows <= 3 && 1 <= columns
      && rowOffsets == RowOffsets(rows)
      && animations.Length == 8
      && forall k :: 0 <= k < 8 ==> Playable(animations[k])
    }

    /** The select byte this handle sends before a command of instruction
        set `instructionSet`. */
    function Select(instructionSet: bv8): bv8
      reads this`doubleHeight
    {
      SelectByte(template, instructionSet, doubleHeight)
    }

    constructor (rows: int, columns: int, instructionSetTemplate: int)
      requires 1 <= rows <= 3 && 1 <= columns
      ensures Valid() && fresh(animations)
      ensures this.rows == rows && this.columns == columns && rowOffsets == RowOffsets(rows)
      ensures template == LowByte(instructionSetTemplate)
      ensures enabled && !cursorEnabled && !cursorBlink && !doubleHeight
      ensures forall k :: 0 <= k < 8 ==> animations[k] == None
      ensures log == InitEvents(template)
    {
      this.rows := rows;
      this.columns := columns;
      rowOffsets := RowOffsets(rows);
      template := LowByte(instructionSetTemplate);
      animations := new Option<Animation>[8](_ => None);
      enabled, cursorEnabled, cursorBlink, doubleHeight := true, false, false, false;
      log := [];
      new;
      ghost var s0, s1 := SelectByte(template, 0, false), SelectByte(template, 1, false);
      UpdateDisplayMode();
      WriteCommand(0x06, 0);
      SetBias(1);
      BiasIgnoredAsWritten();
      ghost var modes := log;
      assert modes == Frame(s0, 0x0C, Settle) + Frame(s0, 0x06, Settle) + Frame(s1, 0x15, Settle);
      DefaultContrast();
      var status := SetContrast(40);
      ghost var contrast := log;
      assert contrast == SetupEvents(s0, s1, 0x15, Settle);
      Clear();
    }

    /** _write_instruction_set: the select byte alone, register-select low. */
    method WriteInstructionSet(instructionSet: bv8)
      modifies this`log
      ensures log == old(log) + [Xfer(false, Select(instructionSet)), Wait(Settle)]
    {
      log := log + [Xfer(false, SelectByte(template, instructionSet, doubleHeight)), Wait(Settle)];
    }

    /** _write_command: select the instruction set, then send the command
        byte, each transfer followed by the settle sleep. */
    method WriteCommand(value: bv8, instructionSet: bv8)
      modifies this`log
      ensures log == old(log) + Frame(Select(instructionSet), value, Settle)
    {
      WriteInstructionSet(instructionSet);
      log := log + [Xfer(false, value), Wait(Settle)];
    }

    /** _write_char: one data byte, register-select high. */
    method WriteChar(value: int)
      modifies this`log
      ensures log == old(log) + [Xfer(true, LowByte(value)), Wait(CharSettle)]
    {
      log := log + [Xfer(true, LowByte(value)), Wait(CharSettle)];
    }

    method SetBias(bias: int)
      modifies this`log
      ensures log == old(log) + Frame(Select(1), BiasCommandAsWritten(bias), Settle)
    {
      WriteCommand(BiasCommandAsWritten(bias), 1);
    }

    /** set_contrast: ValueError before any transfer outside 0..0x3F,
        otherwise the three contrast commands in instruction set 1. */
    method SetContrast(contrast: int) returns (r: Status)
      modifies this`log
      ensures r == if 0 <= contrast < 0x40 then Done else Raised(ValueError)
      ensures r.Raised? ==> log == old(log)
      ensures r.Done? ==>
        var c, s1 := ContrastCommands(contrast), Select(1);
        log == old(log) + Frame(s1, c[0], Settle) + Frame(s1, c[1], Settle) + Frame(s1, c[2], Settle)
    {
      if !(0 <= contrast < 0x40) {
        return Raised(ValueError);
      }
      var c := ContrastCommands(contrast);
      WriteCommand(c[0], 1);
      WriteCommand(c[1], 1);
      WriteCommand(c[2], 1);
      r := Done;
    }

    /** set_display_mode: store the three flags and send them. */
    method SetDisplayMode(enable: bool, cursor: bool, blink: bool)
      modifies this`log, this`enabled, this`cursorEnabled, this`cursorBlink
      ensures enabled == enable && cursorEnabled == cursor && cursorBlink == blink
      ensures log == old(log) + Frame(Select(0), DisplayModeCommand(enable, cursor, blink), Settle)
    {
      enabled, cursorEnabled, cursorBlink := enable, cursor, blink;
      UpdateDisplayMode();
    }

    /** update_display_mode: send the stored flags as a display-mode command. */
    method UpdateDisplayMode()
      modifies this`log
      ensures log == old(log) + Frame(Select(0), DisplayModeCommand(enabled, cursorEnabled, cursorBlink), Settle)
    {
      WriteCommand(DisplayModeCommand(enabled, cursorEnabled, cursorBlink), 0);
    }

    method EnableCursor(cursor: bool)
      modifies this`log, this`cursorEnabled
      ensures cursorEnabled == cursor
      ensures log == old(log) + Frame(Select(0), DisplayModeCommand(enabled, cursor, cursorBlink), Settle)
    {
      cursorEnabled := cursor;
      UpdateDisplayMode();
    }

    method EnableBlink(blink: bool)
      modifies this`log, this`cursorBlink
      ensures cursorBlink == blink
      ensures log == old(log) + Frame(Select(0), DisplayModeCommand(enabled, cursorEnabled, blink), Settle)
    {
      cursorBlink := blink;
      UpdateDisplayMode();
    }

    method SetCursorOffset(offset: int)
      modifies this`log
      ensures log == old(log) + Frame(Select(0), DdramCommand(offset), Settle)
    {
      WriteCommand(DdramCommand(offset), 0);
    }

    /** set_cursor_position: ValueError before any transfer unless the cell
        is on the screen; otherwise the DDRAM address of the cell and the
        long settle. */
    method SetCursorPosition(column: int, row: int) returns (r: Status)
      requires Valid()
      modifies this`log
      ensures r == if 0 <= row < rows && 0 <= column < columns then Done else Raised(ValueError)
      ensures r.Raised? ==> log == old(log)
      ensures r.Done? ==>
        log == old(log) + Frame(Select(0), DdramCommand(rowOffsets[row] + column), Settle) + [Wait(LongSettle)]
    {
      if !(0 <= row < rows) || !(0 <= column < columns) {
        return Raised(ValueError);
      }
      var offset := rowOffsets[row] + column;
      WriteCommand(DdramCommand(offset), 0);
      log := log + [Wait(LongSettle)];
      r := Done;
    }

    method Home()
      requires Valid()
      modifies this`log
      ensures log == old(log) + HomeEvents(Select(0))
    {
      var status := SetCursorPosition(0, 0);
    }

    method Clear()
      requires Valid()
      modifies this`log
      ensures log == old(log) + Frame(Select(0), 0x01, Settle) + [Wait(LongSettle)] + HomeEvents(Select(0))
    {
      WriteCommand(0x01, 0);
      log := log + [Wait(LongSettle)];
      Home();
    }

    /** write: one data transfer per character, in order. */
    method Write(text: string)
      modifies this`log
      ensures log == old(log) + TextEvents(text)
    {
      var i := 0;
      while i < |text|
        invariant 0 <= i <= |text|
        invariant log == old(log) + TextEvents(text[..i])
      {
        assert text[..i + 1][..i] == text[..i];
        log := log + [Xfer(true, LowByte(text[i] as int)), Wait(TextSettle)];
        i := i + 1;
      }
      assert text[..i] == text;
    }

    /** create_char: program one custom character into CGRAM. */
    method CreateChar(position: int, bitmap: Glyph) returns (r: Status)
      requires Valid()
      modifies this`log
      ensures log == old(log) + Upload(Select(0), position, bitmap).0
      ensures r == Upload(Select(0), position, bitmap).1
    {
      if position < 0 || position > 7 {
        assert log + [] == log;
        return Refused;
      }
      var complete := WriteGlyphRows(position, bitmap);
      if !complete {
        return Raised(IndexError);
      }
      ghost var rows := log;
      Home();
      assert log == rows + HomeEvents(Select(0));
      r := Done;
    }

    /** The row loop of create_char: address each row of the slot and send
        its pattern; at the first row the bitmap lacks, the addressing
        command has gone out when the lookup fails. */
    method WriteGlyphRows(position: int, bitmap: Glyph) returns (complete: bool)
      requires 0 <= position < 8
      modifies this`log
      ensures complete <==> |bitmap| >= 8
      ensures complete ==> log == old(log) + GlyphRows(Select(0), position, bitmap, 8, Settle)
      ensures !complete ==>
        log == old(log) + GlyphRows(Select(0), position, bitmap, |bitmap|, Settle)
               + Frame(Select(0), CgramCommand(position, |bitmap|), Settle)
    {
      ghost var select0 := Select(0);
      var i := 0;
      while i < 8
        invariant 0 <= i <= 8 && i <= |bitmap|
        invariant log == old(log) + GlyphRows(select0, position, bitmap, i, Settle)
      {
        WriteCommand(CgramCommand(position, i), 0);
        if i >= |bitmap| {
          assert i == |bitmap|;
          return false;
        }
        WriteChar(bitmap[i]);
        assert GlyphRows(select0, position, bitmap, i + 1, Settle)
            == GlyphRows(select0, position, bitmap, i, Settle) + Frame(select0, CgramCommand(position, i), Settle)
               + [Xfer(true, LowByte(bitmap[i])), Wait(CharSettle)];
        i := i + 1;
      }
      return true;
    }

    /** create_animation: program the first frame into the slot and store the
        animation there. Negative positions are rejected (see
        StoredSlotAsWritten for what the code does with them). */
    method CreateAnimation(position: int, frames: seq<Glyph>, fps: real) returns (r: Status)
      requires Valid()
      modifies this`log, animations
      ensures Valid()
      ensures r == if AnimationSlot(position).None? then Raised(ValueError)
                   else if |frames| == 0 then Raised(IndexError)
                   else if |frames[0]| < 8 then Raised(ValueError)
                   else Done
      ensures r.Raised? ==> log == old(log) && animations[..] == old(animations[..])
      ensures r.Done? ==>
        && log == old(log) + Upload(Select(0), position, frames[0]).0
        && animations[..] == old(animations[..])[position := Some(Animation(frames, fps))]
    {
      if AnimationSlot(position).None? {
        return Raised(ValueError);
      }
      if |frames| == 0 {
        return Raised(IndexError);
      }
      if |frames[0]| < 8 {
        return Raised(ValueError);
      }
      r := CreateChar(position, frames[0]);
      animations[position] := Some(Animation(frames, fps));
    }

    /** update_animations: reprogram every stored animation's slot with the
        frame `clock` selects for it, in slot order. */
    method UpdateAnimations(clock: (int, real) -> int) returns (r: Status)
      requires Valid()
      modifies this`log
      ensures log == old(log) + Refresh(Select(0), animations[..], clock, 0).0
      ensures r == Refresh(Select(0), animations[..], clock, 0).1
    {
      ghost var select0 := Select(0);
      ghost var slots := animations[..];
      var i := 0;
      while i < 8
        invariant 0 <= i <= 8
        invariant log + Refresh(select0, slots, clock, i).0 == old(log) + Refresh(select0, slots, clock, 0).0
        invariant Refresh(select0, slots, clock, i).1 == Refresh(select0, slots, clock, 0).1
      {
        RefreshStep(select0, slots, clock, i);
        if animations[i].Some? {
          var a := animations[i].value;
          assert slots[i] == Some(a);
          ghost var before := log;
          var status := CreateChar(i, Chosen(a, clock, i));
          RefreshAdvance(select0, slots, clock, i, old(log) + Refresh(select0, slots, clock, 0).0, before, log);
          if status.Raised? {
            return status;
          }
        }
        i := i + 1;
      }
      assert log + [] == log;
      r := Done;
    }

    method CursorLeft()
      modifies this`log
      ensures log == old(log) + Frame(Select(0), 0x10, Settle)
    {
      WriteCommand(0x10, 0);
    }

    method CursorRight()
      modifies this`log
      ensures log == old(log) + Frame(Select(0), 0x14, Settle)
    {
      WriteCommand(0x10 | 4, 0);
    }

    method ShiftLeft()
      modifies this`log
      ensures log == old(log) + Frame(Select(0), 0x18, Settle)
    {
      WriteCommand(0x10 | 8, 0);
    }

    method ShiftRight()
      modifies this`log
      ensures log == old(log) + Frame(Select(0), 0x1C, Settle)
    {
      WriteCommand(0x10 | 8 | 4, 0);
    }

    /** double_height: store the bit that every later select byte carries,
        then send a bare instruction-set-0 select and the double-height
        position command in instruction set 2. */
    method DoubleHeight(enable: bool, position: int)
      modifies this`log, this`doubleHeight
      ensures doubleHeight == enable
      ensures log == old(log) + [Xfer(false, SelectByte(template, 0, enable)), Wait(Settle)]
                     + Frame(SelectByte(template, 2, enable), 0x10 | LowByte(position * 8), Settle)
    {
      doubleHeight := enable;
      WriteInstructionSet(0);
      WriteCommand(0x10 | LowByte(position * 8), 2);
    }
  }
}
