/** How the two drivers compare on the wire: they send the same data bytes
    and, but for the bias byte, the same command bytes when constructed, the
    same bytes when programming a custom character but for how create_char
    ends, and differ otherwise only in their sleeps. */
module Variants {
  import opened Bus
  import opened Protocol
  import Driver
  import LegacyDriver

  /** The command bytes of the start-up sequence, given the select bytes of
      instruction sets 0 and 1 and the bias command. */
  function InitCommands(s0: bv8, s1: bv8, bias: bv8): seq<bv8>
  {
    [s0, 0x0C, s0, 0x06, s1, bias, s1, 0x56, s1, 0x6B, s1, 0x78, s0, 0x01, s0, 0x80]
  }

  /** The maintained constructor sends the start-up commands, with the bias
      byte 0x15 that set_bias(1) produces, and no data. */
  lemma DriverInitSent(template: bv8)
    ensures Sent(Driver.InitEvents(template), false)
            == InitCommands(SelectByte(template, 0, false), SelectByte(template, 1, false), 0x15)
    ensures Sent(Driver.InitEvents(template), true) == []
  {
    var s0, s1 := SelectByte(template, 0, false), SelectByte(template, 1, false);
    BiasIgnoredAsWritten();
    var setup := SetupEvents(s0, s1, 0x15, Driver.Settle);
    var cleared := setup + Frame(s0, 0x01, Driver.Settle);
    var waited := cleared + [Wait(Driver.LongSettle)];
    var homed := waited + Frame(s0, 0x80, Driver.Settle);
    assert Driver.InitEvents(template) == homed + [Wait(Driver.LongSettle)];
    SetupSent(s0, s1, 0x15, Driver.Settle);
    FrameAppendSent(setup, s0, 0x01, Driver.Settle);
    WaitAppendSent(cleared, Driver.LongSettle, false);
    WaitAppendSent(cleared, Driver.LongSettle, true);
    FrameAppendSent(waited, s0, 0x80, Driver.Settle);
    WaitAppendSent(homed, Driver.LongSettle, false);
    WaitAppendSent(homed, Driver.LongSettle, true);
  }

  /** The older constructor sends the start-up commands with the bias byte
      0x1D, and no data. */
  lemma LegacyInitSent(template: bv8)
    ensures Sent(LegacyDriver.InitEvents(template), false)
            == InitCommands(SelectByte(template, 0, false), SelectByte(template, 1, false), 0x1D)
    ensures Sent(LegacyDriver.InitEvents(template), true) == []
  {
    var s0, s1 := SelectByte(template, 0, false), SelectByte(template, 1, false);
    var setup := SetupEvents(s0, s1, 0x1D, LegacyDriver.Settle);
    var cleared := setup + Frame(s0, 0x01, LegacyDriver.Settle);
    SetupSent(s0, s1, 0x1D, LegacyDriver.Settle);
    FrameAppendSent(setup, s0, 0x01, LegacyDriver.Settle);
    FrameAppendSent(cleared, s0, 0x80, LegacyDriver.Settle);
  }

  /** The two constructors send no data and the same sixteen command bytes
      except the sixth, the bias: 0x15 from the maintained driver, 0x1D from
      the older one, which is also what the corrected bias command sends. */
  lemma InitBytesAgree(template: bv8)
    ensures Sent(Driver.InitEvents(template), true) == Sent(LegacyDriver.InitEvents(template), true) == []
    ensures var mine, older := Sent(Driver.InitEvents(template), false), Sent(LegacyDriver.InitEvents(template), false);
      && |mine| == |older| == 16
      && (forall k :: 0 <= k < 16 && k != 5 ==> mine[k] == older[k])
      && mine[5] == BiasCommandAsWritten(1) == 0x15
      && older[5] == BiasCommand(1) == 0x1D
  {
    DriverInitSent(template);
    LegacyInitSent(template);
    BiasIgnoredAsWritten();
    BiasDistinguished();
  }

  /** A full custom character goes out as the same data bytes from both
      drivers and the same CGRAM addressing; the drivers' trailing command
      is home (0x80) in the maintained driver and the default display mode
      (0x0C) in the older one. */
  lemma UploadBytesAgree(select0: bv8, slot: int, bitmap: seq<int>)
    requires 0 <= slot < 8 && |bitmap| >= 8
    ensures Sent(Driver.Upload(select0, slot, bitmap).0, true)
            == Sent(LegacyDriver.Upload(select0, slot, bitmap).0, true)
            == Bytes(bitmap[..8])
    ensures Sent(Driver.Upload(select0, slot, bitmap).0, false) == Addressing(select0, slot, 8) + [select0, 0x80]
    ensures Sent(LegacyDriver.Upload(select0, slot, bitmap).0, false) == Addressing(select0, slot, 8) + [select0, 0x0C]
  {
    Driver.UploadSent(select0, slot, bitmap);
    LegacyDriver.UploadSent(select0, slot, bitmap);
  }

  /** A bitmap of fewer than eight rows makes both drivers raise IndexError
      after the same bytes: its rows as data, and the addressing of those
      rows and of the first missing one as commands. */
  lemma ShortUploadsAgree(select0: bv8, slot: int, bitmap: seq<int>, rs: bool)
    requires 0 <= slot < 8 && |bitmap| < 8
    ensures Driver.Upload(select0, slot, bitmap).1 == LegacyDriver.Upload(select0, slot, bitmap).1 == Raised(IndexError)
    ensures Sent(Driver.Upload(select0, slot, bitmap).0, rs) == Sent(LegacyDriver.Upload(select0, slot, bitmap).0, rs)
  {
    Driver.ShortUploadSent(select0, slot, bitmap);
    ShortRowsSent(select0, slot, bitmap, LegacyDriver.Settle);
  }
}
