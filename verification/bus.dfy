/** The SPI bus and the register-select line, as the ST7036 drivers use them.
    Nothing is read back from the controller, so everything a driver call does
    is captured by an append-only record of what went onto the wire and how
    long the driver slept afterwards. */
module Bus {

  /** One observable step of a driver: a single-byte SPI transfer made with the
      register-select line low (`rs == false`, a command byte) or high
      (`rs == true`, a display-data byte), or a sleep of `us` microseconds. */
  datatype Event = Xfer(rs: bool, b: bv8) | Wait(us: nat)

  /** The exceptions the drivers raise. */
  datatype Error = ValueError | IndexError

  /** How a driver call ended: normally, by returning False (create_char's
      answer to a slot outside 0..7), or by raising. */
  datatype Status = Done | Refused | Raised(error: Error)

  /** The byte the SPI layer sends for a Python integer: its low eight bits.
      Dafny's `%` is Euclidean, so this is also the two's-complement
      truncation of a negative value. */
  function LowByte(v: int): bv8
  {
    (v % 256) as bv8
  }

  /** One command transaction: the instruction-set select byte, a settle
      sleep, the command byte, and another settle sleep, all with the
      register-select line low. */
  function Frame(select: bv8, command: bv8, settle: nat): seq<Event>
  {
    [Xfer(false, select), Wait(settle), Xfer(false, command), Wait(settle)]
  }

  /** The bytes a log transferred with the register-select line at level
      `rs`, in order. */
  function Sent(log: seq<Event>, rs: bool): seq<bv8>
  {
    if log == [] then []
    else
      var e := log[|log| - 1];
      Sent(log[..|log| - 1], rs) + (if e.Xfer? && e.rs == rs then [e.b] else [])
  }

  /** The projection onto one register-select level distributes over
      appending to the log. */
  lemma {:induction false} SentAppend(a: seq<Event>, b: seq<Event>, rs: bool)
    ensures Sent(a + b, rs) == Sent(a, rs) + Sent(b, rs)
  {
    if b == [] {
      assert a + b == a;
    } else {
      assert (a + b)[..|a + b| - 1] == a + b[..|b| - 1];
      SentAppend(a, b[..|b| - 1], rs);
    }
  }

  /** A command transaction sends exactly its select byte and its command
      byte, both as commands, and no display data. */
  lemma FrameSent(select: bv8, command: bv8, settle: nat)
    ensures Sent(Frame(select, command, settle), false) == [select, command]
    ensures Sent(Frame(select, command, settle), true) == []
  {
    var f := Frame(select, command, settle);
    assert f == [f[0]] + [f[1]] + [f[2]] + [f[3]];
    SentAppend([f[0]] + [f[1]] + [f[2]], [f[3]], false);
    SentAppend([f[0]] + [f[1]], [f[2]], false);
    SentAppend([f[0]], [f[1]], false);
    SentAppend([f[0]] + [f[1]] + [f[2]], [f[3]], true);
    SentAppend([f[0]] + [f[1]], [f[2]], true);
    SentAppend([f[0]], [f[1]], true);
    assert [f[0]][..0] == [] && [f[1]][..0] == [] && [f[2]][..0] == [] && [f[3]][..0] == [];
  }

  /** A data transaction (one byte with register-select high and a settle
      sleep) sends exactly that byte as data and no command byte. */
  lemma DataSent(b: bv8, settle: nat)
    ensures Sent([Xfer(true, b), Wait(settle)], true) == [b]
    ensures Sent([Xfer(true, b), Wait(settle)], false) == []
  {
    var d := [Xfer(true, b), Wait(settle)];
    assert d == [d[0]] + [d[1]];
    SentAppend([d[0]], [d[1]], true);
    SentAppend([d[0]], [d[1]], false);
    assert [d[0]][..0] == [] && [d[1]][..0] == [];
  }

  /** Appending a command transaction to a log adds its two command bytes
      and no data. */
  lemma FrameAppendSent(log: seq<Event>, select: bv8, command: bv8, settle: nat)
    ensures Sent(log + Frame(select, command, settle), false) == Sent(log, false) + [select, command]
    ensures Sent(log + Frame(select, command, settle), true) == Sent(log, true)
  {
    FrameSent(select, command, settle);
    SentAppend(log, Frame(select, command, settle), false);
    SentAppend(log, Frame(select, command, settle), true);
  }

  /** A sleep transfers nothing. */
  lemma WaitAppendSent(log: seq<Event>, us: nat, rs: bool)
    ensures Sent(log + [Wait(us)], rs) == Sent(log, rs)
  {
    assert (log + [Wait(us)])[..|log|] == log;
  }
}
