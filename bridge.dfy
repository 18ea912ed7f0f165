/** The USB-to-I2C bridge of the firmware: the vendor requests (echo,
    capabilities, clock delay, status, I2C transfer) and the data stages that
    carry I2C bytes between the host and the bus. One class serves both
    builds: `UsbTiny` is firmware/main.c built against the usbtiny driver,
    `Digispark` is digispark/main.c (which matches the V-USB build of
    firmware/main.c apart from its clock scaling). */
module Bridge {
  import opened Bytes
  import opened I2c

  datatype Variant = UsbTiny | Digispark

  // Vendor request numbers (the second byte of the SETUP packet).
  const CmdEcho: Byte := 0
  const CmdGetFunc: Byte := 1
  const CmdSetDelay: Byte := 2
  const CmdGetStatus: Byte := 3
  const CmdI2cIo: Byte := 4
  // Flags added to CmdI2cIo.
  const CmdI2cBegin: Byte := 1
  const CmdI2cEnd: Byte := 2

  const StatusIdle: Byte := 0
  const StatusAddressAck: Byte := 1
  const StatusAddressNak: Byte := 2

  /** The reply length by which the firmware hands the data stage to its
      read / write callbacks. */
  const NoMsg: Byte := 0xff

  // ---------------------------------------------------------------------
  // The capability word reported by CMD_GET_FUNC (Linux i2c.h flags).

  const FuncI2c: bv32 := 0x0000_0001
  const FuncSmbusQuick: bv32 := 0x0001_0000
  const FuncSmbusReadByte: bv32 := 0x0002_0000
  const FuncSmbusWriteByte: bv32 := 0x0004_0000
  const FuncSmbusReadByteData: bv32 := 0x0008_0000
  const FuncSmbusWriteByteData: bv32 := 0x0010_0000
  const FuncSmbusReadWordData: bv32 := 0x0020_0000
  const FuncSmbusWriteWordData: bv32 := 0x0040_0000
  const FuncSmbusProcCall: bv32 := 0x0080_0000
  const FuncSmbusWriteBlockData: bv32 := 0x0200_0000
  const FuncSmbusReadI2cBlock: bv32 := 0x0400_0000
  const FuncSmbusWriteI2cBlock: bv32 := 0x0800_0000
  const FuncSmbusWriteBlockDataPec: bv32 := 0x8000_0000

  const FuncSmbusEmul: bv32 :=
    FuncSmbusQuick | FuncSmbusReadByte | FuncSmbusWriteByte
    | FuncSmbusReadByteData | FuncSmbusWriteByteData
    | FuncSmbusReadWordData | FuncSmbusWriteWordData
    | FuncSmbusProcCall | FuncSmbusWriteBlockData | FuncSmbusWriteBlockDataPec
    | FuncSmbusReadI2cBlock | FuncSmbusWriteI2cBlock

  const Func: bv32 := FuncI2c | FuncSmbusEmul

  /** A 32-bit word as it lies in AVR memory, least significant byte first. */
  function LittleEndian32(w: bv32): (s: seq<Byte>)
    ensures |s| == 4
  {
    [(w & 0xff) as int, ((w >> 8) & 0xff) as int, ((w >> 16) & 0xff) as int, ((w >> 24) & 0xff) as int]
  }

  /** The four bytes CMD_GET_FUNC copies out of program memory. */
  function FuncBytes(): seq<Byte> { LittleEndian32(Func) }

  /** Plain I2C plus SMBus emulation: the host reads 01 00 FF 8E. */
  lemma FuncBytesValue()
    ensures Func == 0x8EFF_0001
    ensures FuncBytes() == [0x01, 0x00, 0xFF, 0x8E]
  {
  }

  // ---------------------------------------------------------------------
  // The SETUP packet of an I2C transfer, read through `struct i2c_cmd`.

  datatype I2cCmd = I2cCmd(kind: Byte, cmd: Byte, flags: Word, addr: Word, len: Word)

  function ParseCmd(pkt: seq<Byte>): I2cCmd
    requires |pkt| >= 8
  {
    I2cCmd(pkt[0], pkt[1], LE16(pkt[2], pkt[3]), LE16(pkt[4], pkt[5]), LE16(pkt[6], pkt[7]))
  }

  /** The packet a host sends for a command record. */
  function CmdBytes(c: I2cCmd): (s: seq<Byte>)
    ensures |s| == 8
  {
    [c.kind, c.cmd, c.flags % 0x100, c.flags / 0x100, c.addr % 0x100, c.addr / 0x100,
     c.len % 0x100, c.len / 0x100]
  }

  lemma ParseCmdBytes(c: I2cCmd)
    ensures ParseCmd(CmdBytes(c)) == c
  {
  }

  lemma CmdBytesParse(pkt: seq<Byte>)
    requires |pkt| >= 8
    ensures CmdBytes(ParseCmd(pkt)) == pkt[..8]
  {
  }

  predicate Begins(cmd: Byte) { cmd % 2 == 1 }
  predicate Ends(cmd: Byte) { (cmd / 2) % 2 == 1 }
  /** I2C_M_RD in the message flags. */
  predicate IsRead(flags: Word) { flags % 2 == 1 }

  /** The address byte: the 16-bit address shifted left into an 8-bit
      variable, with the read flag as its low bit. */
  function AddressByte(addr: Word, flags: Word): Byte
  {
    (addr * 2) % 0x100 + (if IsRead(flags) then 1 else 0)
  }

  /** On the wire (UM10204 section 3.1.10): the seven low bits of the address
      MSB first, then the R/W bit, 1 for a read. Higher address bits are
      lost, so only 7-bit addresses reach the bus. */
  lemma AddressOnWire(addr: Word, flags: Word)
    ensures MsbBits(AddressByte(addr, flags)) == ToBits(addr % 0x80, 7) + [IsRead(flags)]
    ensures AddressByte(addr, flags) == AddressByte(addr % 0x80, flags)
  {
    var x := AddressByte(addr, flags);
    var r := if IsRead(flags) then 1 else 0;
    var m := addr % 0x80;
    assert addr == 0x80 * (addr / 0x80) + m;
    assert (addr * 2) % 0x100 == 2 * m;
    assert x == 2 * m + r;
    assert x / 2 == m && x % 2 == r;
    assert MsbBits(x) == ToBits(m, 7) + [r == 1];
  }

  /** The reply length of an I2C transfer request: NoMsg when a data stage
      follows that the callbacks must serve. usbtiny only needs them for
      reads; V-USB needs them for either direction. */
  function MoreData(v: Variant, c: I2cCmd): Byte
  {
    match v
    case UsbTiny => if IsRead(c.flags) && c.len != 0 then NoMsg else 0
    case Digispark => if c.len != 0 then NoMsg else 0
  }

  predicate IsI2cIo(cmd: Byte) { CmdI2cIo <= cmd <= CmdI2cIo + CmdI2cBegin + CmdI2cEnd }

  /** The value the setup handler returns for a request. */
  function SetupLength(v: Variant, pkt: seq<Byte>): Byte
    requires |pkt| >= 8
  {
    if pkt[1] == CmdEcho then 2
    else if pkt[1] == CmdGetFunc then 4
    else if pkt[1] == CmdGetStatus then 1
    else if IsI2cIo(pkt[1]) then MoreData(v, ParseCmd(pkt))
    else 0
  }

  /** The bytes the setup handler places in the reply buffer. */
  function SetupReply(pkt: seq<Byte>, status: Byte): seq<Byte>
    requires |pkt| >= 8
  {
    if pkt[1] == CmdEcho then [pkt[2], pkt[3]]
    else if pkt[1] == CmdGetFunc then FuncBytes()
    else if pkt[1] == CmdGetStatus then [status]
    else []
  }

  /** Every request but an I2C transfer answers with exactly the bytes it
      wrote; an I2C transfer writes none and answers 0 or NoMsg. */
  lemma ReplyFitsLength(v: Variant, pkt: seq<Byte>, status: Byte)
    requires |pkt| >= 8
    ensures !IsI2cIo(pkt[1]) ==> |SetupReply(pkt, status)| == SetupLength(v, pkt)
    ensures IsI2cIo(pkt[1]) ==>
      SetupReply(pkt, status) == [] && SetupLength(v, pkt) in {0, NoMsg}
  {
  }

  /** The data stage goes to the callbacks exactly for an I2C transfer with
      a length, and under usbtiny only for a read. */
  lemma NoMsgExactly(v: Variant, pkt: seq<Byte>)
    requires |pkt| >= 8
    ensures SetupLength(v, pkt) == NoMsg <==>
      IsI2cIo(pkt[1]) && ParseCmd(pkt).len != 0
      && (v == UsbTiny ==> IsRead(ParseCmd(pkt).flags))
  {
  }

  // ---------------------------------------------------------------------
  // I2C clock delay.

  /** clock_delay2 = clock_delay / 2, but never 0. */
  function Half(d: Word): (h: Word)
    ensures h >= 1 && (d >= 2 ==> 2 * h <= d < 2 * h + 2)
  {
    if d / 2 == 0 then 1 else d / 2
  }

  /** Extra delay cycles of the Digispark clock routine. */
  const DelayOverhead := 7

  /** The Digispark scaling of a requested delay from 12 MHz to 16.5 MHz,
      rounded and stored in 16 bits, minus the overhead (at least 1). */
  function ScaledDelay(v: Word): (d: Word)
    ensures d >= 1
  {
    var scaled := ((v * 1650 + 600) / 1200) % 0x1_0000;
    if scaled <= DelayOverhead then 1 else scaled - DelayOverhead
  }

  /** The clock_delay a CMD_SET_DELAY with value v leaves. */
  function DelayFor(variant: Variant, v: Word): (d: Word)
    ensures d >= 1
    ensures variant == UsbTiny && v != 0 ==> d == v
  {
    match variant
    case UsbTiny => if v == 0 then 1 else v
    case Digispark => ScaledDelay(v)
  }

  /** clock_delay at power-up. */
  function DefaultDelay(variant: Variant): Word
  {
    match variant
    case UsbTiny => 10
    case Digispark => (10 * 1650 + 60) / 1200 - DelayOverhead
  }

  /** A longer requested delay is never shorter, as long as the scaled value
      fits in 16 bits. */
  lemma ScaledDelayMonotone(v1: Word, v2: Word)
    requires v1 <= v2 <= 47662
    ensures ScaledDelay(v1) <= ScaledDelay(v2)
  {
    assert (v2 * 1650 + 600) / 1200 <= 65535;
  }

  /** From 47663 on the scaled value wraps in 16 bits: the delay drops from
      its maximum to the minimum between two neighbouring requests. */
  lemma ScaledDelayWraps()
    ensures ScaledDelay(47662) == 65528
    ensures ScaledDelay(47663) == 1
  {
  }

  /** The Digispark power-up delay (6 cycles) is not what the host's default
      request of 10 us sets (7 cycles): the default rounds with 60, the
      request handler with 600. */
  lemma DefaultDelayDiffers()
    ensures DefaultDelay(Digispark) == 6
    ensures DelayFor(Digispark, 10) == 7
  {
  }

  // ---------------------------------------------------------------------
  // What the bridge state looks like across one call.

  datatype BridgeView = BridgeView(
    status: Byte, expected: Word, savedCmd: Byte,
    clockDelay: Word, clockDelay2: Word, events: seq<Event>)

  /** i2c_start for a first message, i2c_repstart for a following one. */
  function Opening(cmd: Byte): Event
  {
    if Begins(cmd) then Event.Start else Event.RepStart
  }

  /** i2c_do: the address goes out; on a NAK the transfer is stopped and
      nothing is expected, on an ACK the announced length is expected and a
      transfer that ends with zero length is stopped at once. */
  ghost predicate I2cDoPost(v0: BridgeView, v1: BridgeView, c: I2cCmd)
  {
    var acked := v1.status == StatusAddressAck;
    (v1.status == StatusAddressAck || v1.status == StatusAddressNak)
    && v1.expected == (if acked then c.len else 0)
    && v1.savedCmd == (if acked then c.cmd else v0.savedCmd)
    && v1.clockDelay == v0.clockDelay && v1.clockDelay2 == v0.clockDelay2
    && v1.events == v0.events + [Opening(c.cmd), Write(AddressByte(c.addr, c.flags), acked)]
                    + (if !acked || (Ends(c.cmd) && c.len == 0) then [Event.Stop] else [])
  }

  /** The effect of one SETUP request on the bridge state. */
  ghost predicate SetupPost(variant: Variant, v0: BridgeView, v1: BridgeView, pkt: seq<Byte>)
    requires |pkt| >= 8
  {
    if pkt[1] == CmdSetDelay then
      var d := DelayFor(variant, LE16(pkt[2], pkt[3]));
      v1 == v0.(clockDelay := d, clockDelay2 := Half(d))
    else if IsI2cIo(pkt[1]) then I2cDoPost(v0, v1, ParseCmd(pkt))
    else v1 == v0
  }

  /** The bytes read by a run of i2c_get_u08 calls when `e0` bytes were
      expected before it: a byte is the last one (NAKed) when it brings the
      count to zero. */
  function Reads(e0: int, out: seq<Byte>): (es: seq<Event>)
    ensures |es| == |out|
  {
    if out == [] then []
    else Reads(e0, out[..|out| - 1]) + [Read(e0 - |out| == 0, out[|out| - 1])]
  }

  /** The bytes written by a run of i2c_put_u08 calls and their acknowledges. */
  function Writes(bytes: seq<Byte>, acks: seq<bool>): (es: seq<Event>)
    requires |acks| == |bytes|
    ensures |es| == |bytes|
  {
    if bytes == [] then []
    else Writes(bytes[..|bytes| - 1], acks[..|acks| - 1]) + [Write(bytes[|bytes| - 1], acks[|acks| - 1])]
  }

  /** The STOP at the end of a data stage: the last command set the end flag
      and nothing more is expected. */
  function Closing(savedCmd: Byte, remaining: int): seq<Event>
  {
    if Ends(savedCmd) && remaining == 0 then [Event.Stop] else []
  }

  /** usb_in / usbFunctionRead: after an acknowledged address, at most the
      expected number of bytes is read from the bus; otherwise the host gets
      zeros and nothing changes. */
  ghost predicate ReadPost(v0: BridgeView, v1: BridgeView, len: Byte, n: Byte, out: seq<Byte>)
  {
    if v0.status == StatusAddressAck then
      n == Min(len, v0.expected) && |out| == n
      && v1 == v0.(expected := v0.expected - n,
                   events := v0.events + Reads(v0.expected, out) + Closing(v0.savedCmd, v0.expected - n))
    else
      n == len && out == Zeros(len) && v1 == v0
  }

  /** usb_out / usbFunctionWrite: after an acknowledged address, at most the
      expected number of the host's bytes goes out on the bus, and the
      transfer failed when any of them was not acknowledged. */
  ghost predicate WritePost(v0: BridgeView, v1: BridgeView, bytes: seq<Byte>, n: Byte, failed: bool, acks: seq<bool>)
  {
    if v0.status == StatusAddressAck then
      n == Min(|bytes|, v0.expected) && |acks| == n
      && v1 == v0.(expected := v0.expected - n,
                   events := v0.events + Writes(bytes[..n], acks) + Closing(v0.savedCmd, v0.expected - n))
      && (failed <==> false in acks)
    else
      n == |bytes| && !failed && acks == [] && v1 == v0
  }

  /** The last byte of a read transfer, and only that one, is NAKed. */
  lemma {:induction false} ReadsLast(e0: int, out: seq<Byte>)
    requires |out| <= e0
    ensures forall k :: 0 <= k < |out| ==> Reads(e0, out)[k] == Read(k == e0 - 1, out[k])
  {
    if out != [] {
      ReadsLast(e0, out[..|out| - 1]);
    }
  }

  /** Splitting a read transfer into several data packets reads the same
      bytes with the same acknowledges as one packet would. */
  lemma {:induction false} ReadsSplit(e0: int, a: seq<Byte>, b: seq<Byte>)
    ensures Reads(e0, a) + Reads(e0 - |a|, b) == Reads(e0, a + b)
    decreases |b|
  {
    if b == [] {
      assert a + b == a;
    } else {
      var b' := b[..|b| - 1];
      assert (a + b)[..|a + b| - 1] == a + b';
      ReadsSplit(e0, a, b');
    }
  }

  /** The same for a write transfer. */
  lemma {:induction false} WritesSplit(a: seq<Byte>, acksA: seq<bool>, b: seq<Byte>, acksB: seq<bool>)
    requires |acksA| == |a| && |acksB| == |b|
    ensures Writes(a, acksA) + Writes(b, acksB) == Writes(a + b, acksA + acksB)
    decreases |b|
  {
    if b == [] {
      assert a + b == a && acksA + acksB == acksA;
    } else {
      var b' := b[..|b| - 1];
      var acksB' := acksB[..|acksB| - 1];
      assert (a + b)[..|a + b| - 1] == a + b';
      assert (acksA + acksB)[..|acksA + acksB| - 1] == acksA + acksB';
      WritesSplit(a, acksA, b', acksB');
    }
  }

  /** memset(data + off, 0, len) */
  method ZeroFill(data: array<Byte>, off: nat, len: nat)
    requires off + len <= data.Length
    modifies data
    ensures data[..] == Splice(old(data[..]), off, Zeros(len))
  {
    var i := 0;
    while i < len
      invariant 0 <= i <= len
      invariant forall k :: off <= k < off + i ==> data[k] == 0
      invariant forall k :: 0 <= k < data.Length && !(off <= k < off + i) ==> data[k] == old(data[k])
    {
      data[off + i] := 0;
      i := i + 1;
    }
    assert data[..] == Splice(old(data[..]), off, Zeros(len));
  }

  // ---------------------------------------------------------------------

  class Bridge {
    const variant: Variant
    const bus: Master
    /** The static reply buffer of the V-USB build; usbtiny replies in place
        in the packet buffer. */
    const replyBuf: array<Byte>
    var status: Byte
    var expected: Word
    var savedCmd: Byte
    var clockDelay: Word
    var clockDelay2: Word

    ghost predicate Valid()
      reads this, bus
    {
      status <= StatusAddressNak
      && (status != StatusAddressAck ==> expected == 0)
      && clockDelay >= 1 && clockDelay2 == Half(clockDelay)
      && replyBuf.Length == 4
    }

    ghost function View(): BridgeView
      reads this, bus
    {
      BridgeView(status, expected, savedCmd, clockDelay, clockDelay2, bus.events)
    }

    /** Power-up: i2c_init and the static initialisers. */
    constructor (v: Variant, slave: seq<Pin> -> bool)
      ensures Valid() && fresh(bus) && fresh(replyBuf) && variant == v
      ensures View() == BridgeView(StatusIdle, 0, 0, DefaultDelay(v), DefaultDelay(v) / 2, [])
      ensures bus.pins == [] && bus.sda == slave
    {
      variant := v;
      bus := new Master(slave);
      replyBuf := new Byte[4](_ => 0);
      status := StatusIdle;
      expected := 0;
      savedCmd := 0;
      clockDelay := DefaultDelay(v);
      clockDelay2 := DefaultDelay(v) / 2;
    }

    /** i2c_do */
    method I2cDo(c: I2cCmd) returns (r: Byte)
      requires Valid()
      modifies this, bus
      ensures Valid() && I2cDoPost(old(View()), View(), c)
      ensures r == MoreData(variant, c)
    {
      ghost var e0 := bus.events;
      var addr := AddressByte(c.addr, c.flags);
      if Begins(c.cmd) {
        bus.Start();
      } else {
        bus.RepStart();
      }
      assert bus.events == e0 + [Opening(c.cmd)];
      var ack := bus.PutU08(addr);
      ghost var e1 := bus.events;
      assert e1 == e0 + [Opening(c.cmd), Write(addr, ack)];
      if !ack {
        status := StatusAddressNak;
        expected := 0;
        bus.Stop();
        assert bus.events == e1 + [Event.Stop];
      } else {
        status := StatusAddressAck;
        expected := c.len;
        savedCmd := c.cmd;
        if Ends(c.cmd) && expected == 0 {
          bus.Stop();
          assert bus.events == e1 + [Event.Stop];
        } else {
          assert bus.events == e1 + [];
        }
      }
      r := MoreData(variant, c);
    }

    /** usb_setup / usbFunctionSetup: the SETUP packet lies at data[off..off+8];
        usbtiny writes the reply over it, V-USB into replyBuf. */
    method UsbSetup(data: array<Byte>, off: nat) returns (len: Byte)
      requires Valid() && off + 8 <= data.Length && data != replyBuf
      modifies this, bus, data, replyBuf
      ensures Valid()
      ensures len == SetupLength(variant, old(data[off..off + 8]))
      ensures SetupPost(variant, old(View()), View(), old(data[off..off + 8]))
      ensures variant == UsbTiny ==>
        data[..] == Splice(old(data[..]), off, SetupReply(old(data[off..off + 8]), old(status)))
        && replyBuf[..] == old(replyBuf[..])
      ensures variant == Digispark ==>
        replyBuf[..] == Splice(old(replyBuf[..]), 0, SetupReply(old(data[off..off + 8]), old(status)))
        && data[..] == old(data[..])
    {
      var pkt := data[off..off + 8];
      if IsI2cIo(pkt[1]) {
        len := I2cDo(ParseCmd(pkt));
      } else if variant == UsbTiny {
        len := Answer(pkt, data, off);
      } else {
        len := Answer(pkt, replyBuf, 0);
      }
    }

    /** The requests other than an I2C transfer, answered into reply[at..]. */
    method Answer(pkt: seq<Byte>, reply: array<Byte>, at: nat) returns (len: Byte)
      requires Valid() && |pkt| == 8 && !IsI2cIo(pkt[1])
      requires at + |SetupReply(pkt, status)| <= reply.Length
      modifies this, reply
      ensures Valid()
      ensures len == SetupLength(variant, pkt)
      ensures SetupPost(variant, old(View()), View(), pkt)
      ensures reply[..] == Splice(old(reply[..]), at, SetupReply(pkt, old(status)))
    {
      var cmd := pkt[1];
      if cmd == CmdEcho {
        reply[at] := pkt[2];
        reply[at + 1] := pkt[3];
        len := 2;
      } else if cmd == CmdGetFunc {
        var f := FuncBytes();
        reply[at] := f[0];
        reply[at + 1] := f[1];
        reply[at + 2] := f[2];
        reply[at + 3] := f[3];
        len := 4;
      } else if cmd == CmdSetDelay {
        clockDelay := DelayFor(variant, LE16(pkt[2], pkt[3]));
        clockDelay2 := Half(clockDelay);
        len := 0;
      } else if cmd == CmdGetStatus {
        reply[at] := status;
        len := 1;
      } else {
        len := 0;
      }
      assert reply[..] == Splice(old(reply[..]), at, SetupReply(pkt, old(status)));
    }

    /** usb_in / usbFunctionRead: fill data[off..off+n] for the host. */
    method UsbIn(data: array<Byte>, off: nat, len: Byte) returns (n: Byte)
      requires Valid() && off + len <= data.Length
      modifies this, bus, data
      ensures Valid() && n <= len
      ensures ReadPost(old(View()), View(), len, n, data[off..off + n])
      ensures forall k :: 0 <= k < data.Length && !(off <= k < off + n) ==> data[k] == old(data[k])
    {
      if status == StatusAddressAck {
        n := len;
        if n > expected {
          n := expected;
        }
        GetBytes(data, off, n);
        ghost var mid := bus.events;
        if Ends(savedCmd) && expected == 0 {
          bus.Stop();
        }
        assert bus.events == mid + Closing(savedCmd, expected);
      } else {
        n := len;
        ZeroFill(data, off, len);
        assert data[off..off + n] == Zeros(len);
      }
    }

    /** The byte loop of usb_in: n bytes off the bus into data[off..off+n],
        each counted off `expected`. */
    method GetBytes(data: array<Byte>, off: nat, n: Byte)
      requires Valid() && status == StatusAddressAck && n <= expected && off + n <= data.Length
      modifies this, bus, data
      ensures Valid() && status == StatusAddressAck
      ensures View() == old(View()).(expected := old(expected) - n,
                                     events := old(bus.events) + Reads(old(expected), data[off..off + n]))
      ensures forall k :: 0 <= k < data.Length && !(off <= k < off + n) ==> data[k] == old(data[k])
    {
      var i: Byte := 0;
      ghost var got: seq<Byte> := [];
      while i < n
        invariant 0 <= i <= n && Valid() && status == StatusAddressAck
        invariant expected == old(expected) - i
        invariant savedCmd == old(savedCmd) && clockDelay == old(clockDelay) && clockDelay2 == old(clockDelay2)
        invariant bus.events == old(bus.events) + Reads(old(expected), got)
        invariant data[off..off + i] == got
        invariant forall k :: 0 <= k < data.Length && !(off <= k < off + i) ==> data[k] == old(data[k])
      {
        expected := expected - 1;
        var b := bus.GetU08(expected == 0);
        data[off + i] := b;
        assert (got + [b])[..i] == got;
        got := got + [b];
        i := i + 1;
      }
    }

    /** usb_out / usbFunctionWrite: send the host's bytes data[off..off+len]
        to the bus. `n` is the count the V-USB build returns; `failed` is the
        local error flag, which the firmware does not act on. */
    method UsbOut(data: array<Byte>, off: nat, len: Byte) returns (n: Byte, failed: bool, ghost acks: seq<bool>)
      requires Valid() && off + len <= data.Length
      modifies this, bus, data
      ensures Valid() && n <= len
      ensures WritePost(old(View()), View(), old(data[off..off + len]), n, failed, acks)
      ensures old(status) == StatusAddressAck ==> data[..] == old(data[..])
      ensures old(status) != StatusAddressAck ==> data[..] == Splice(old(data[..]), off, Zeros(len))
    {
      if status == StatusAddressAck {
        n := len;
        if n > expected {
          n := expected;
        }
        assert data[off..off + len][..n] == data[off..off + n];
        failed, acks := PutBytes(data, off, n);
        ghost var mid := bus.events;
        if Ends(savedCmd) && expected == 0 {
          bus.Stop();
        }
        assert bus.events == mid + Closing(savedCmd, expected);
      } else {
        n := len;
        failed := false;
        acks := [];
        ZeroFill(data, off, len);
      }
    }

    /** The byte loop of usb_out: n bytes from data[off..off+n] onto the bus,
        each counted off `expected`; `failed` when one was not acknowledged. */
    method PutBytes(data: array<Byte>, off: nat, n: Byte) returns (failed: bool, ghost acks: seq<bool>)
      requires Valid() && status == StatusAddressAck && n <= expected && off + n <= data.Length
      modifies this, bus
      ensures Valid() && status == StatusAddressAck && |acks| == n
      ensures View() == old(View()).(expected := old(expected) - n,
                                     events := old(bus.events) + Writes(data[off..off + n], acks))
      ensures failed <==> false in acks
    {
      ghost var bytes := data[off..off + n];
      failed := false;
      acks := [];
      var i: Byte := 0;
      while i < n
        invariant 0 <= i <= n && Valid() && status == StatusAddressAck
        invariant expected == old(expected) - i && |acks| == i
        invariant savedCmd == old(savedCmd) && clockDelay == old(clockDelay) && clockDelay2 == old(clockDelay2)
        invariant bus.events == old(bus.events) + Writes(bytes[..i], acks)
        invariant failed <==> false in acks
      {
        expected := expected - 1;
        var ack := bus.PutU08(data[off + i]);
        if !ack {
          failed := true;
        }
        assert bytes[..i + 1][..i] == bytes[..i];
        assert (acks + [ack])[..i] == acks;
        acks := acks + [ack];
        i := i + 1;
      }
      assert bytes[..n] == bytes;
    }
  }
}
