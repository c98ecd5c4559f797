/** The older, stateless ST7036 driver. It keeps no display-mode flags and no
    double-height bit: its select byte is the template with the instruction
    set ORed in, every settle sleep is 50 microseconds, nothing waits after
    a clear or a cursor move, and create_char ends by re-sending the default
    display mode instead of homing the cursor. */
module LegacyDriver {
  import opened Bus
  import opened Protocol

  type Glyph = seq<int>

  /** The sleep after each transfer of a command transaction, in microseconds. */
  const Settle: nat := 50

  /** The display mode set_display_mode sends when called without arguments:
      display on, no cursor, no blink. */
  const DefaultMode: bv8 := 0x0C

  /** What home() sends: the DDRAM-address command for offset 0. */
  function HomeEvents(select0: bv8): seq<Event>
  {
    Frame(select0, 0x80, Settle)
  }

  /** What create_char(slot, bitmap) sends and how it ends. Outside slots
      0..7 it sends nothing and returns False. With eight or more entries it
      programs rows 0..7 and then re-sends the default display mode. With
      fewer, the command addressing the first missing row goes out before
      the bitmap lookup raises IndexError. */
  function Upload(select0: bv8, slot: int, bitmap: Glyph): (seq<Event>, Status)
  {
    if slot < 0 || slot > 7 then ([], Refused)
    else if |bitmap| >= 8 then
      (GlyphRows(select0, slot, bitmap, 8, Settle) + Frame(select0, DefaultMode, Settle), Done)
    else
      (GlyphRows(select0, slot, bitmap, |bitmap|, Settle) + Frame(select0, CgramCommand(slot, |bitmap|), Settle),
       Raised(IndexError))
  }

  /** A complete upload sends the first eight rows of the bitmap as data and
      addresses exactly rows 0..7 of the slot, then the default display
      mode, as commands. */
  lemma UploadSent(select0: bv8, slot: int, bitmap: Glyph)
    requires 0 <= slot < 8 && |bitmap| >= 8
    ensures Upload(select0, slot, bitmap).1 == Done
    ensures Sent(Upload(select0, slot, bitmap).0, true) == Bytes(bitmap[..8])
    ensures Sent(Upload(select0, slot, bitmap).0, false) == Addressing(select0, slot, 8) + [select0, 0x0C]
  {
    GlyphRowsSent(select0, slot, bitmap, 8, Settle);
    FrameAppendSent(GlyphRows(select0, slot, bitmap, 8, Settle), select0, DefaultMode, Settle);
  }

  /** The commands the constructor sends, in order: display on with no
      cursor, entry mode, the bias byte 0x1D, the default contrast, then
      clear. */
  function InitEvents(template: bv8): seq<Event>
  {
    var s0 := SelectByte(template, 0, false);
    var s1 := SelectByte(template, 1, false);
    SetupEvents(s0, s1, 0x1D, Settle) + Frame(s0, 0x01, Settle) + HomeEvents(s0)
  }

  class St7036 {
    const rows: int
    const columns: int
    const rowOffsets: seq<int>
    const template: bv8
    /** Everything sent on the bus so far. */
    var log: seq<Event>

    ghost predicate Valid()
    {
      && 1 <= rows <= 3 && 1 <= columns
      && rowOffsets == RowOffsets(rows)
    }

    /** The select byte sent before a command of instruction set
        `instructionSet`: the template with the set ORed in. */
    function Select(instructionSet: bv8): bv8
    {
      SelectByte(template, instructionSet, false)
    }

    constructor (rows: int, columns: int, instructionSetTemplate: int)
      requires 1 <= rows <= 3 && 1 <= columns
      ensures Valid()
      ensures this.rows == rows && this.columns == columns
      ensures template == LowByte(instructionSetTemplate)
      ensures log == InitEvents(template)
    {
      this.rows := rows;
      this.columns := columns;
      rowOffsets := RowOffsets(rows);
      template := LowByte(instructionSetTemplate);
      log := [];
      new;
      ghost var s0, s1 := SelectByte(template, 0, false), SelectByte(template, 1, false);
      SetDisplayMode(true, false, false);
      WriteCommand(0x06, 0);
      WriteCommand(0x1D, 1);
      ghost var modes := log;
      assert modes == Frame(s0, 0x0C, Settle) + Frame(s0, 0x06, Settle) + Frame(s1, 0x1D, Settle);
      DefaultContrast();
      var status := SetContrast(40);
      ghost var contrast := log;
      assert contrast == SetupEvents(s0, s1, 0x1D, Settle);
      Clear();
    }

    /** _write_command: the select byte, then the command byte, both with
        register-select low and each followed by the settle sleep. */
    method WriteCommand(value: bv8, instructionSet: bv8)
      modifies this`log
      ensures log == old(log) + Frame(Select(instructionSet), value, Settle)
    {
      log := log + [Xfer(false, template | instructionSet), Wait(Settle)];
      log := log + [Xfer(false, value), Wait(Settle)];
    }

    /** _write_char: one data byte, register-select high. */
    method WriteChar(value: int)
      modifies this`log
      ensures log == old(log) + [Xfer(true, LowByte(value)), Wait(CharSettle)]
    {
      log := log + [Xfer(true, LowByte(value)), Wait(CharSettle)];
    }

    /** set_contrast: ValueError before any transfer outside 0..0x3F,
        otherwise the three contrast commands in instruction set 1. */
    method SetContrast(contrast: int) returns (r: Status)
      modifies this`log
      ensures r == if 0 <= contrast < 0x40 then Done else Raised(ValueError)
      ensures r.Raised? ==> log == old(log)
      ensures r.Done? ==>
        var c, s1 := ContrastCommands(contrast), Select(1);
        log == old(log) + Frame(s1, c[0], Settle) + Frame(s1, c[1], Settle) + Frame(s1, c[2], Settle)
    {
      if !(0 <= contrast < 0x40) {
        return Raised(ValueError);
      }
      var c := ContrastCommands(contrast);
      WriteCommand(c[0], 1);
      WriteCommand(c[1], 1);
      WriteCommand(c[2], 1);
      r := Done;
    }

    /** set_display_mode: the mask built from the arguments alone. */
    method SetDisplayMode(enable: bool, cursor: bool, blink: bool)
      modifies this`log
      ensures log == old(log) + Frame(Select(0), DisplayModeCommand(enable, cursor, blink), Settle)
    {
      WriteCommand(DisplayModeCommand(enable, cursor, blink), 0);
    }

    method SetCursorOffset(offset: int)
      modifies this`log
      ensures log == old(log) + Frame(Select(0), DdramCommand(offset), Settle)
    {
      WriteCommand(DdramCommand(offset), 0);
    }

    /** set_cursor_position: ValueError before any transfer unless the cell
        is on the screen; otherwise the DDRAM address of the cell, with no
        extra wait. */
    method SetCursorPosition(column: int, row: int) returns (r: Status)
      requires Valid()
      modifies this`log
      ensures r == if 0 <= row < rows && 0 <= column < columns then Done else Raised(ValueError)
      ensures r.Raised? ==> log == old(log)
      ensures r.Done? ==> log == old(log) + Frame(Select(0), DdramCommand(rowOffsets[row] + column), Settle)
    {
      if !(0 <= row < rows) || !(0 <= column < columns) {
        return Raised(ValueError);
      }
      var offset := rowOffsets[row] + column;
      WriteCommand(DdramCommand(offset), 0);
      r := Done;
    }

    method Home()
      requires Valid()
      modifies this`log
      ensures log == old(log) + HomeEvents(Select(0))
    {
      var status := SetCursorPosition(0, 0);
    }

    method Clear()
      requires Valid()
      modifies this`log
      ensures log == old(log) + Frame(Select(0), 0x01, Settle) + HomeEvents(Select(0))
    {
      WriteCommand(0x01, 0);
      Home();
    }

    /** write: one data transfer per character, in order. */
    method Write(text: string)
      modifies this`log
      ensures log == old(log) + TextEvents(text)
    {
      var i := 0;
      while i < |text|
        invariant 0 <= i <= |text|
        invariant log == old(log) + TextEvents(text[..i])
      {
        assert text[..i + 1][..i] == text[..i];
        log := log + [Xfer(true, LowByte(text[i] as int)), Wait(TextSettle)];
        i := i + 1;
      }
      assert text[..i] == text;
    }

    /** create_char: program one custom character into CGRAM. */
    method CreateChar(position: int, bitmap: Glyph) returns (r: Status)
      modifies this`log
      ensures log == old(log) + Upload(Select(0), position, bitmap).0
      ensures r == Upload(Select(0), position, bitmap).1
    {
      if position < 0 || position > 7 {
        assert log + [] == log;
        return Refused;
      }
      var complete := WriteGlyphRows(position, bitmap);
      if !complete {
        return Raised(IndexError);
      }
      SetDisplayMode(true, false, false);
      r := Done;
    }

    /** The row loop of create_char: address each row of the slot and send
        its pattern; at the first row the bitmap lacks, the addressing
        command has gone out when the lookup fails. */
    method WriteGlyphRows(position: int, bitmap: Glyph) returns (complete: bool)
      requires 0 <= position < 8
      modifies this`log
      ensures complete <==> |bitmap| >= 8
      ensures complete ==> log == old(log) + GlyphRows(Select(0), position, bitmap, 8, Settle)
      ensures !complete ==>
        log == old(log) + GlyphRows(Select(0), position, bitmap, |bitmap|, Settle)
               + Frame(Select(0), CgramCommand(position, |bitmap|), Settle)
    {
      ghost var select0 := Select(0);
      var i := 0;
      while i < 8
        invariant 0 <= i <= 8 && i <= |bitmap|
        invariant log == old(log) + GlyphRows(select0, position, bitmap, i, Settle)
      {
        WriteCommand(CgramCommand(position, i), 0);
        if i >= |bitmap| {
          assert i == |bitmap|;
          return false;
        }
        WriteChar(bitmap[i]);
        assert GlyphRows(select0, position, bitmap, i + 1, Settle)
            == GlyphRows(select0, position, bitmap, i, Settle) + Frame(select0, CgramCommand(position, i), Settle)
               + [Xfer(true, LowByte(bitmap[i])), Wait(CharSettle)];
        i := i + 1;
      }
      return true;
    }
  }
}
