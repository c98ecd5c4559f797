/** The ST7036 command set as both driver variants pack it: every operation
    here is a bit-packing of small integers into one command byte, or the
    fixed sequence of bus events a loop of the drivers produces. */
module Protocol {
  import opened Bus

  /** The wait after write() sends one character, in microseconds. */
  const TextSettle: nat := 50

  /** The wait after _write_char sends one byte, in microseconds. */
  const CharSettle: nat := 100

  // ---------------------------------------------------------------------
  // Instruction-set select

  /** The select byte sent before every command: the template's fixed high
      bits, the instruction-set number and, in the maintained driver, the
      double-height bit at bit 2. */
  function SelectByte(template: bv8, instructionSet: bv8, doubleHeight: bool): (r: bv8)
    ensures r & 0xFB == (template | instructionSet) & 0xFB
    ensures (r & 4 != 0) == (doubleHeight || template & 4 != 0 || instructionSet & 4 != 0)
  {
    template | instructionSet | (if doubleHeight then 4 else 0)
  }

  /** With a template whose bit 2 is clear (the default 0b00111000 is one)
      and any of the instruction sets the drivers use, bit 2 of the select
      byte is exactly the double-height flag. */
  lemma DoubleHeightBit(template: bv8, instructionSet: bv8, doubleHeight: bool)
    requires template & 4 == 0 && instructionSet <= 2
    ensures (SelectByte(template, instructionSet, doubleHeight) & 4 != 0) == doubleHeight
    ensures SelectByte(template, instructionSet, doubleHeight) & 0xFB == template | instructionSet
  {
  }

  // ---------------------------------------------------------------------
  // Contrast, bias, display mode

  /** The contrast value carried by a booster command and a low-nibble
      command: two bits from the first, four from the second. */
  function DecodeContrast(booster: bv8, low: bv8): int
  {
    (((booster & 3) << 4) | (low & 0x0F)) as int
  }

  /** The three extended-instruction-set commands set_contrast sends:
      booster on with the contrast's two high bits, the fixed
      follower-control byte, then the contrast's four low bits. */
  function ContrastCommands(contrast: int): (r: seq<bv8>)
    requires 0 <= contrast < 0x40
    ensures |r| == 3
    ensures r[0] & 0xFC == 0x54 && r[1] == 0x6B && r[2] & 0xF0 == 0x70
    ensures DecodeContrast(r[0], r[2]) == contrast
  {
    var c := contrast as bv8;
    assert c as int == contrast;
    [0x54 | ((c >> 4) & 0x03), 0x6B, 0x70 | (c & 0x0F)]
  }

  /** The default contrast of both constructors. */
  lemma DefaultContrast()
    ensures ContrastCommands(40) == [0x56, 0x6B, 0x78]
  {
  }

  /** The bias-set command as the maintained driver writes it
      (`COMMAND_BIAS | (bias << 4) | 1`). */
  function BiasCommandAsWritten(bias: int): bv8
  {
    0x14 | LowByte(bias * 16) | 1
  }

  /** The shift by four lands on bit 4, which the opcode already sets, so the
      argument has no effect: both bias settings send the same byte. */
  lemma BiasIgnoredAsWritten()
    ensures BiasCommandAsWritten(0) == BiasCommandAsWritten(1) == 0x15
  {
  }

  /** The bias-set command with the bias bit where the opcode has room for it
      (bit 3); set_bias(1) then sends 0x1D, the byte the older driver sends
      during its initialisation. */
  function BiasCommand(bias: int): (r: bv8)
    ensures bias == 0 || bias == 1 ==> r & 0xF7 == 0x15 && (r & 8 != 0) == (bias == 1)
  {
    0x14 | LowByte(bias * 8) | 1
  }

  /** The two bias settings are told apart on the wire. */
  lemma BiasDistinguished()
    ensures BiasCommand(0) != BiasCommand(1) && BiasCommand(1) == 0x1D
  {
  }

  /** The display-mode command: opcode 0b1000 with the display-on,
      cursor-on and blink-on bits. */
  function DisplayModeCommand(enable: bool, cursor: bool, blink: bool): (r: bv8)
    ensures 0x08 <= r <= 0x0F
    ensures (r & 4 != 0) == enable && (r & 2 != 0) == cursor && (r & 1 != 0) == blink
  {
    0x08 | (if enable then 4 else 0) | (if cursor then 2 else 0) | (if blink then 1 else 0)
  }

  // ---------------------------------------------------------------------
  // Display RAM addressing

  /** The DDRAM address of the first column of each row, for 1, 2 or 3 rows. */
  function RowOffsets(rows: int): (r: seq<int>)
    requires 1 <= rows <= 3
    ensures |r| == rows && r[0] == 0
    ensures forall k :: 0 <= k < rows ==> r[k] == k * RowSpan(rows)
  {
    [[0x00], [0x00, 0x40], [0x00, 0x10, 0x20]][rows - 1]
  }

  /** The distance between the DDRAM addresses of consecutive rows (for one
      row, the whole seven-bit address range of the DDRAM-address command). */
  function RowSpan(rows: int): nat
  {
    if rows == 2 then 0x40 else if rows == 3 then 0x10 else 0x80
  }

  /** The "set DDRAM address" command for a Python integer offset. */
  function DdramCommand(offset: int): (r: bv8)
    ensures r & 0x80 == 0x80
    ensures 0 <= offset < 0x80 ==> (r & 0x7F) as int == offset
  {
    var a := LowByte(offset);
    assert 0 <= offset < 0x80 ==> a as int == offset;
    0x80 | a
  }

  /** Where set_cursor_position puts the cursor: no two cells of a screen
      whose rows fit their DDRAM span share an address, and every cell's
      address survives the command byte. */
  lemma CursorAddressing(rows: int, columns: int, c1: int, r1: int, c2: int, r2: int)
    requires 1 <= rows <= 3 && columns <= RowSpan(rows)
    requires 0 <= r1 < rows && 0 <= c1 < columns && 0 <= r2 < rows && 0 <= c2 < columns
    ensures RowOffsets(rows)[r1] + c1 == RowOffsets(rows)[r2] + c2 ==> c1 == c2 && r1 == r2
    ensures (DdramCommand(RowOffsets(rows)[r1] + c1) & 0x7F) as int == RowOffsets(rows)[r1] + c1
  {
    var span := RowSpan(rows);
    assert RowOffsets(rows)[r1] == r1 * span && RowOffsets(rows)[r2] == r2 * span;
    if r1 < r2 {
      assert r1 * span + span <= r2 * span;
    } else if r2 < r1 {
      assert r2 * span + span <= r1 * span;
    }
    assert 0 <= r1 * span + c1 < 0x80 by {
      assert r1 * span <= (rows - 1) * span;
    }
  }

  /** Row 2, column 5 of a three-row display is DDRAM address 0x25. */
  lemma ThirdRowExample()
    ensures DdramCommand(RowOffsets(3)[2] + 5) == 0xA5
  {
  }

  /** The "set CGRAM address" command for one row of one custom-character
      slot. */
  function CgramCommand(slot: int, row: int): bv8
    requires 0 <= slot < 8 && 0 <= row < 8
  {
    0x40 | (slot * 8 + row) as bv8
  }

  /** A CGRAM address command is the "set CGRAM address" opcode 0x40 plus
      the slot's base address and the row, and the slot and the row can be
      read back from its address bits. */
  lemma CgramCommandFields(slot: int, row: int)
    requires 0 <= slot < 8 && 0 <= row < 8
    ensures CgramCommand(slot, row) as int == 0x40 + 8 * slot + row
    ensures ((CgramCommand(slot, row) & 0x3F) >> 3) as int == slot
    ensures (CgramCommand(slot, row) & 7) as int == row
  {
    var address := slot * 8 + row;
    OpcodeBitIsSum(address as bv8);
    AddressFields(address);
  }

  lemma OpcodeBitIsSum(a: bv8)
    requires a < 0x40
    ensures (0x40 | a) as int == 0x40 + a as int
    ensures ((0x40 | a) & 0x3F) >> 3 == a >> 3 && (0x40 | a) & 7 == a & 7
  {
  }

  lemma AddressFields(address: int)
    requires 0 <= address < 0x40
    ensures (address as bv8 >> 3) as int == address / 8
    ensures (address as bv8 & 7) as int == address % 8
  {
    var a := address as bv8;
    assert a as int == address;
  }

  // ---------------------------------------------------------------------
  // Start-up

  /** The commands both constructors send before clearing the display:
      display on without cursor or blink, entry mode (cursor moves right, no
      display shift), the bias command `bias`, and the default contrast. `s0`
      and `s1` are the select bytes of instruction sets 0 and 1. */
  function SetupEvents(s0: bv8, s1: bv8, bias: bv8, settle: nat): seq<Event>
  {
    Frame(s0, 0x0C, settle) + Frame(s0, 0x06, settle) + Frame(s1, bias, settle)
    + Frame(s1, 0x56, settle) + Frame(s1, 0x6B, settle) + Frame(s1, 0x78, settle)
  }

  /** The start-up commands are six command transactions and no data. */
  lemma SetupSent(s0: bv8, s1: bv8, bias: bv8, settle: nat)
    ensures Sent(SetupEvents(s0, s1, bias, settle), false) == [s0, 0x0C, s0, 0x06, s1, bias, s1, 0x56, s1, 0x6B, s1, 0x78]
    ensures Sent(SetupEvents(s0, s1, bias, settle), true) == []
  {
    var e0 := Frame(s0, 0x0C, settle);
    var e1 := e0 + Frame(s0, 0x06, settle);
    var e2 := e1 + Frame(s1, bias, settle);
    var e3 := e2 + Frame(s1, 0x56, settle);
    var e4 := e3 + Frame(s1, 0x6B, settle);
    FrameSent(s0, 0x0C, settle);
    FrameAppendSent(e0, s0, 0x06, settle);
    FrameAppendSent(e1, s1, bias, settle);
    FrameAppendSent(e2, s1, 0x56, settle);
    FrameAppendSent(e3, s1, 0x6B, settle);
    FrameAppendSent(e4, s1, 0x78, settle);
  }

  // ---------------------------------------------------------------------
  // What the loops of the drivers send

  /** The character codes of a string, as bytes. */
  function Codes(s: string): seq<bv8>
  {
    seq(|s|, i requires 0 <= i < |s| => LowByte(s[i] as int))
  }

  /** The entries of a bitmap, as bytes. */
  function Bytes(m: seq<int>): seq<bv8>
  {
    seq(|m|, i requires 0 <= i < |m| => LowByte(m[i]))
  }

  /** What write(s) puts on the bus: per character, in order, one data
      transfer of its code and a short sleep. */
  function TextEvents(s: string): seq<Event>
  {
    if s == [] then []
    else TextEvents(s[..|s| - 1]) + [Xfer(true, LowByte(s[|s| - 1] as int)), Wait(TextSettle)]
  }

  /** write(s) sends the codes of `s` as display data, in order, and no
      command byte at all. */
  lemma {:induction false} TextSent(s: string)
    ensures |TextEvents(s)| == 2 * |s|
    ensures Sent(TextEvents(s), true) == Codes(s)
    ensures Sent(TextEvents(s), false) == []
  {
    if s != [] {
      var t := s[..|s| - 1];
      var tail := [Xfer(true, LowByte(s[|s| - 1] as int)), Wait(TextSettle)];
      TextSent(t);
      SentAppend(TextEvents(t), tail, true);
      SentAppend(TextEvents(t), tail, false);
      DataSent(LowByte(s[|s| - 1] as int), TextSettle);
      assert Codes(s) == Codes(t) + [LowByte(s[|s| - 1] as int)];
    }
  }

  /** The first `n` rows of a custom character as create_char sends them:
      per row, a command transaction addressing that row of the slot's
      CGRAM, then the row's bitmap byte as data. */
  function GlyphRows(select: bv8, slot: int, bitmap: seq<int>, n: nat, settle: nat): seq<Event>
    requires 0 <= slot < 8 && n <= 8 && n <= |bitmap|
  {
    if n == 0 then []
    else
      GlyphRows(select, slot, bitmap, n - 1, settle)
      + Frame(select, CgramCommand(slot, n - 1), settle)
      + [Xfer(true, LowByte(bitmap[n - 1])), Wait(CharSettle)]
  }

  /** The command bytes that address the first `n` rows of a slot: the
      select byte and the CGRAM address of each row, alternately. */
  function Addressing(select: bv8, slot: int, n: nat): seq<bv8>
    requires 0 <= slot < 8 && n <= 8
  {
    seq(2 * n, j requires 0 <= j < 2 * n => if j % 2 == 0 then select else CgramCommand(slot, j / 2))
  }

  /** Every second addressing byte is the select byte, and the others are
      the CGRAM addresses of rows 0..n-1 of the slot, each within 0x40..0x7F. */
  lemma AddressingFields(select: bv8, slot: int, n: nat)
    requires 0 <= slot < 8 && n <= 8
    ensures |Addressing(select, slot, n)| == 2 * n
    ensures forall j :: 0 <= j < n ==> Addressing(select, slot, n)[2 * j] == select
    ensures forall j :: 0 <= j < n ==>
      var b := Addressing(select, slot, n)[2 * j + 1];
      0x40 <= b <= 0x7F && b as int == 0x40 + 8 * slot + j
  {
    forall j | 0 <= j < n
      ensures Addressing(select, slot, n)[2 * j] == select
      ensures 0x40 <= Addressing(select, slot, n)[2 * j + 1] <= 0x7F
      ensures Addressing(select, slot, n)[2 * j + 1] as int == 0x40 + 8 * slot + j
    {
      assert (2 * j + 1) / 2 == j && (2 * j + 1) % 2 == 1 && (2 * j) % 2 == 0;
      CgramCommandFields(slot, j);
    }
  }

  /** Programming `n` rows of a slot sends the first `n` bitmap entries as
      data, in order, and addresses rows 0..n-1 of that slot and nothing
      else. */
  lemma {:induction false} GlyphRowsSent(select: bv8, slot: int, bitmap: seq<int>, n: nat, settle: nat)
    requires 0 <= slot < 8 && n <= 8 && n <= |bitmap|
    ensures Sent(GlyphRows(select, slot, bitmap, n, settle), true) == Bytes(bitmap[..n])
    ensures Sent(GlyphRows(select, slot, bitmap, n, settle), false) == Addressing(select, slot, n)
  {
    if n > 0 {
      var prev := GlyphRows(select, slot, bitmap, n - 1, settle);
      var f := Frame(select, CgramCommand(slot, n - 1), settle);
      var d := [Xfer(true, LowByte(bitmap[n - 1])), Wait(CharSettle)];
      GlyphRowsSent(select, slot, bitmap, n - 1, settle);
      RowSent(prev, f, d, true);
      RowSent(prev, f, d, false);
      FrameSent(select, CgramCommand(slot, n - 1), settle);
      DataSent(LowByte(bitmap[n - 1]), CharSettle);
      BytesSnoc(bitmap, n);
      AddressingSnoc(select, slot, n);
    }
  }

  /** Programming a bitmap of fewer than eight rows sends those rows as
      data and, as commands, the addressing of every row it has and of the
      first row it lacks. */
  lemma ShortRowsSent(select: bv8, slot: int, bitmap: seq<int>, settle: nat)
    requires 0 <= slot < 8 && |bitmap| < 8
    ensures var events := GlyphRows(select, slot, bitmap, |bitmap|, settle)
                          + Frame(select, CgramCommand(slot, |bitmap|), settle);
      && Sent(events, true) == Bytes(bitmap)
      && Sent(events, false) == Addressing(select, slot, |bitmap| + 1)
  {
    var n := |bitmap|;
    GlyphRowsSent(select, slot, bitmap, n, settle);
    FrameAppendSent(GlyphRows(select, slot, bitmap, n, settle), select, CgramCommand(slot, n), settle);
    AddressingSnoc(select, slot, n + 1);
    assert bitmap[..n] == bitmap;
  }

  lemma RowSent(prev: seq<Event>, f: seq<Event>, d: seq<Event>, rs: bool)
    ensures Sent(prev + f + d, rs) == Sent(prev, rs) + Sent(f, rs) + Sent(d, rs)
  {
    SentAppend(prev, f, rs);
    SentAppend(prev + f, d, rs);
  }

  lemma BytesSnoc(m: seq<int>, n: nat)
    requires 0 < n <= |m|
    ensures Bytes(m[..n]) == Bytes(m[..n - 1]) + [LowByte(m[n - 1])]
  {
  }

  lemma AddressingSnoc(select: bv8, slot: int, n: nat)
    requires 0 <= slot < 8 && 0 < n <= 8
    ensures Addressing(select, slot, n) == Addressing(select, slot, n - 1) + [select, CgramCommand(slot, n - 1)]
  {
    var a, b := Addressing(select, slot, n), Addressing(select, slot, n - 1);
    forall j | 0 <= j < 2 * n - 2
      ensures a[j] == b[j]
    {
    }
    assert (2 * n - 1) / 2 == n - 1;
  }
}
