/** The usbtiny control-transfer engine: the part of the low-level USB
    driver that runs outside the interrupt handler. It inspects the packets
    the interrupt handler stores, answers the standard requests itself,
    passes the others to the bridge, and cuts the reply into packets of at
    most 8 bytes. */
module UsbTiny {
  import opened Bytes
  import I2c
  import opened Bridge

  // ---------------------------------------------------------------------
  // Packet identifiers and buffer sizes.

  const PidSetup: Byte := 0x2d
  const PidOut: Byte := 0xe1
  const PidIn: Byte := 0x69
  const PidData0: Byte := 0xc3
  const PidData1: Byte := 0x4b

  /** PID + 8 data bytes + CRC16 */
  const BufSize := 11

  /** A data packet carries at most this many bytes on endpoint 0. */
  const MaxPacket := 8

  /** Flips between DATA0 and DATA1: XOR with DATA0 ^ DATA1. */
  function FlipPid(pid: Byte): Byte
  {
    ((pid as bv8) ^ 0x88) as int
  }

  /** The data PID alternates: the first packet after a SETUP is DATA1. */
  lemma FlipPidAlternates()
    ensures FlipPid(PidData0) == PidData1
    ensures FlipPid(PidData1) == PidData0
    ensures ((PidData0 as bv8) ^ (PidData1 as bv8)) as int == 0x88
  {
  }

  // ---------------------------------------------------------------------
  // Descriptors, as they lie in program memory.

  const DescriptorTypeDevice: Byte := 1
  const DescriptorTypeConfiguration: Byte := 2
  const DescriptorTypeString: Byte := 3
  const DescriptorTypeInterface: Byte := 4

  /** bus powered, 10 mA */
  const MaxPower := 10

  const DeviceDescriptor: seq<Byte> := [
    18, DescriptorTypeDevice, 0x10, 0x01,   // USB 1.1
    0xff, 0, 0,                              // vendor-specific class
    MaxPacket,
    0x03, 0x04,                              // vendor 0x0403
    0x31, 0xc6,                              // product 0xc631
    0x05, 0x02,                              // version 2.05
    1, 2, 0,                                 // vendor, product, no serial string
    1]

  const ConfigDescriptor: seq<Byte> := [
    9, DescriptorTypeConfiguration, 18, 0, 1, 1, 0,
    0x80, (MaxPower + 1) / 2,
    9, DescriptorTypeInterface, 0, 0, 0, 0xff, 0, 0, 0]

  const LangIdDescriptor: seq<Byte> := [4, DescriptorTypeString, 0x09, 0x04]

  const VendorName: string := "Till Harbaum"
  const DeviceName: string := "i2c-tiny-usb"

  /** The characters of a wide string literal stored as 16-bit `int`s,
      low byte first. */
  function Utf16Le(s: string): (r: seq<Byte>)
    ensures |r| == 2 * |s|
  {
    seq(2 * |s|, k requires 0 <= k < 2 * |s| =>
      if k % 2 == 0 then (s[k / 2] as int) % 0x100 else (s[k / 2] as int) / 0x100 % 0x100)
  }

  /** A string descriptor: its declared length counts the terminating NUL of
      the C string, and so equals the size of the structure. */
  function StringDescriptor(name: string): (d: seq<Byte>)
    ensures |d| == 2 + 2 * |name| && d[1] == DescriptorTypeString
    ensures |name| < 0x7f ==> d[0] == |d|
  {
    [(2 * (|name| + 1)) % 0x100, DescriptorTypeString] + Utf16Le(name)
  }

  const VendorDescriptor := StringDescriptor(VendorName)
  const ProductDescriptor := StringDescriptor(DeviceName)

  /** Program memory holding the tables, one after the other. */
  const Rom: seq<Byte> :=
    DeviceDescriptor + ConfigDescriptor + LangIdDescriptor + VendorDescriptor + ProductDescriptor

  /** The table GET_DESCRIPTOR answers with for a descriptor type and index,
      empty when there is none. */
  function Descriptor(dtype: Byte, index: Byte): (d: seq<Byte>)
    ensures |d| <= 26
  {
    if dtype == DescriptorTypeDevice then DeviceDescriptor
    else if dtype == DescriptorTypeConfiguration then ConfigDescriptor
    else if dtype == DescriptorTypeString then
      if index == 0 then LangIdDescriptor
      else if index == 1 then VendorDescriptor
      else if index == 2 then ProductDescriptor
      else []
    else []
  }

  /** Where that table starts in program memory. */
  function DescriptorOffset(dtype: Byte, index: Byte): nat
  {
    if dtype == DescriptorTypeDevice then 0
    else if dtype == DescriptorTypeConfiguration then 18
    else if index == 0 then 36
    else if index == 1 then 40
    else 66
  }

  /** Each table is found in program memory where its offset says. */
  lemma DescriptorInRom(dtype: Byte, index: Byte)
    ensures DescriptorOffset(dtype, index) + |Descriptor(dtype, index)| <= |Rom|
    ensures Rom[DescriptorOffset(dtype, index)..DescriptorOffset(dtype, index) + |Descriptor(dtype, index)|]
      == Descriptor(dtype, index)
  {
    var d := Descriptor(dtype, index);
    var o := DescriptorOffset(dtype, index);
    assert |VendorDescriptor| == 26 && |ProductDescriptor| == 26;
    assert |Rom| == 92;
    if dtype == DescriptorTypeDevice {
      assert Rom[0..18] == DeviceDescriptor;
    } else if dtype == DescriptorTypeConfiguration {
      assert Rom[18..36] == ConfigDescriptor;
    } else if dtype == DescriptorTypeString && index == 0 {
      assert Rom[36..40] == LangIdDescriptor;
    } else if dtype == DescriptorTypeString && index == 1 {
      assert Rom[40..66] == VendorDescriptor;
    } else if dtype == DescriptorTypeString && index == 2 {
      assert Rom[66..92] == ProductDescriptor;
    } else {
      assert d == [];
    }
  }

  /** Every table announces its own size: bLength, and for the configuration
      also wTotalLength over the interface that follows it. */
  lemma DescriptorsSelfDescribing()
    ensures DeviceDescriptor[0] == |DeviceDescriptor| == 18
    ensures ConfigDescriptor[0] + ConfigDescriptor[9] == LE16(ConfigDescriptor[2], ConfigDescriptor[3])
      == |ConfigDescriptor|
    ensures LangIdDescriptor[0] == |LangIdDescriptor|
    ensures VendorDescriptor[0] == |VendorDescriptor| == 26
    ensures ProductDescriptor[0] == |ProductDescriptor| == 26
    ensures DeviceDescriptor[7] == MaxPacket
  {
    assert |VendorName| == 12 && |DeviceName| == 12;
  }

  // ---------------------------------------------------------------------
  // SETUP packets.

  const ReqGetStatus: Byte := 0
  const ReqSetAddress: Byte := 5
  const ReqGetDescriptor: Byte := 6
  const ReqGetConfiguration: Byte := 8
  const ReqGetInterface: Byte := 10

  /** bmRequestType & 0x60 == 0: a standard request. */
  predicate IsStandard(pkt: seq<Byte>)
    requires |pkt| >= 8
  {
    (pkt[0] / 0x20) % 4 == 0
  }

  /** The most the host accepts: wLength, or 255 when its high byte is set. */
  function Limit(pkt: seq<Byte>): Byte
    requires |pkt| >= 8
  {
    if pkt[7] != 0 then 255 else pkt[6]
  }

  /** Bytes a standard request other than GET_DESCRIPTOR writes over the
      packet as its answer. */
  function StandardAnswer(pkt: seq<Byte>): seq<Byte>
    requires |pkt| >= 8
  {
    if pkt[1] == ReqGetStatus then [0, 0]     // bus powered, no remote wakeup
    else if pkt[1] == ReqGetConfiguration then [1]
    else if pkt[1] == ReqGetInterface then [0]
    else []
  }

  /** The reply a request asks for before it is cut to the host's limit. */
  function SetupData(pkt: seq<Byte>, status: Byte): seq<Byte>
    requires |pkt| >= 8
  {
    if IsStandard(pkt) then
      if pkt[1] == ReqGetDescriptor then Descriptor(pkt[3], pkt[2]) else StandardAnswer(pkt)
    else SetupReply(pkt, status)
  }

  datatype TxState = TxIdle | TxRam | TxRom | TxCallback

  /** Where the data stage of a request comes from. */
  function SetupState(pkt: seq<Byte>): TxState
    requires |pkt| >= 8
  {
    if IsStandard(pkt) then
      if pkt[1] == ReqGetDescriptor then TxRom else TxRam
    else if SetupLength(UsbTiny, pkt) == NoMsg then TxCallback
    else TxRam
  }

  /** The length the handlers compute, before the limit. */
  function RawLength(pkt: seq<Byte>): Byte
    requires |pkt| >= 8
  {
    if !IsStandard(pkt) then SetupLength(UsbTiny, pkt)
    else if pkt[1] == ReqGetDescriptor then |Descriptor(pkt[3], pkt[2])|
    else |StandardAnswer(pkt)|
  }

  /** The number of bytes queued for the data stage. */
  function SetupTotal(pkt: seq<Byte>): Byte
    requires |pkt| >= 8
  {
    Min(RawLength(pkt), Limit(pkt))
  }

  /** The device never queues more than the host asked for in wLength, and
      never more than 255; a long enough wLength gets the whole reply. */
  lemma SetupTotalWithinRequest(pkt: seq<Byte>)
    requires |pkt| >= 8
    ensures SetupTotal(pkt) == Min(RawLength(pkt), Min(LE16(pkt[6], pkt[7]), 255))
    ensures SetupTotal(pkt) <= LE16(pkt[6], pkt[7])
    ensures RawLength(pkt) <= LE16(pkt[6], pkt[7]) ==> SetupTotal(pkt) == RawLength(pkt)
  {
  }

  /** Unless the callbacks serve it, the queued length is the length of the
      reply, so the data stage is a prefix of that reply. */
  lemma RawLengthIsReply(pkt: seq<Byte>, status: Byte)
    requires |pkt| >= 8 && SetupState(pkt) != TxCallback
    ensures RawLength(pkt) == |SetupData(pkt, status)|
    ensures RawLength(pkt) <= 26
  {
    ReplyFitsLength(UsbTiny, pkt, status);
    assert |VendorDescriptor| == 26 && |ProductDescriptor| == 26;
  }

  /** The callbacks serve exactly the I2C reads with a length. */
  lemma CallbackExactly(pkt: seq<Byte>)
    requires |pkt| >= 8
    ensures SetupState(pkt) == TxCallback <==>
      !IsStandard(pkt) && IsI2cIo(pkt[1]) && ParseCmd(pkt).len != 0 && IsRead(ParseCmd(pkt).flags)
  {
    NoMsgExactly(UsbTiny, pkt);
  }

  // ---------------------------------------------------------------------
  // Packets of a data stage.

  /** The packets a reply is sent in: full packets, then one short packet,
      which is empty when the reply is a multiple of 8 bytes. */
  function Chunks(bytes: seq<Byte>): seq<seq<Byte>>
    decreases |bytes|
  {
    if |bytes| < MaxPacket then [bytes]
    else [bytes[..MaxPacket]] + Chunks(bytes[MaxPacket..])
  }

  function Concat(cs: seq<seq<Byte>>): seq<Byte>
  {
    if cs == [] then [] else cs[0] + Concat(cs[1..])
  }

  lemma {:induction false} ChunksShape(bytes: seq<Byte>)
    ensures |Chunks(bytes)| == |bytes| / MaxPacket + 1
    ensures Concat(Chunks(bytes)) == bytes
    ensures forall i :: 0 <= i < |Chunks(bytes)| - 1 ==> |Chunks(bytes)[i]| == MaxPacket
    ensures |Chunks(bytes)[|Chunks(bytes)| - 1]| == |bytes| % MaxPacket
    decreases |bytes|
  {
    if |bytes| >= MaxPacket {
      var rest := bytes[MaxPacket..];
      ChunksShape(rest);
      assert Chunks(bytes) == [bytes[..MaxPacket]] + Chunks(rest);
      assert Concat(Chunks(bytes)) == bytes[..MaxPacket] + Concat(Chunks(rest));
      assert bytes == bytes[..MaxPacket] + rest;
    }
  }

  /** The first packet, and what remains to send after it. */
  lemma ChunksStep(bytes: seq<Byte>)
    ensures Chunks(bytes)[0] == bytes[..Min(|bytes|, MaxPacket)]
    ensures |bytes| >= MaxPacket ==> Chunks(bytes)[1..] == Chunks(bytes[MaxPacket..])
  {
    if |bytes| < MaxPacket {
      assert bytes[..|bytes|] == bytes;
    }
  }

  // ---------------------------------------------------------------------

  /** Copies src[from..from+n] into dst[1..1+n], behind the PID byte. */
  method Load(dst: array<Byte>, src: seq<Byte>, from: nat, n: nat)
    requires from + n <= |src| && 1 + n <= dst.Length
    modifies dst
    ensures dst[..] == Splice(old(dst[..]), 1, src[from..from + n])
  {
    var i := 0;
    while i < n
      invariant 0 <= i <= n
      invariant forall k :: 1 <= k < 1 + i ==> dst[k] == src[from + k - 1]
      invariant forall k :: 0 <= k < dst.Length && !(1 <= k < 1 + i) ==> dst[k] == old(dst[k])
    {
      dst[1 + i] := src[from + i];
      i := i + 1;
    }
    ghost var t := Splice(old(dst[..]), 1, src[from..from + n]);
    assert forall k :: 0 <= k < dst.Length ==> dst[k] == t[k];
  }

  /** The memory a transmit state copies from: RAM (the receive buffers) or
      program memory. */
  function Memory(state: TxState, ram: seq<Byte>): seq<Byte>
  {
    if state == TxRam then ram else Rom
  }

  /** The bytes of a data stage still to send, `total` of them from index
      `data` of the memory the state names. */
  ghost function PendingOf(state: TxState, data: nat, total: nat, ram: seq<Byte>): seq<Byte>
  {
    if (state == TxRam || state == TxRom) && data + total <= |Memory(state, ram)|
    then Memory(state, ram)[data..data + total]
    else []
  }

  /** Sending the first n pending bytes leaves the rest pending. */
  lemma PendingAdvance(state: TxState, data: nat, total: nat, ram: seq<Byte>, n: nat)
    requires (state == TxRam || state == TxRom) && data + total <= |Memory(state, ram)| && n <= total
    ensures PendingOf(state, data, total, ram)[..n] == Memory(state, ram)[data..data + n]
    ensures PendingOf(state, data + n, total - n, ram) == PendingOf(state, data, total, ram)[n..]
  {
  }

  /** After a SETUP the memory the transmitter reads holds the reply, cut to
      the queued total. */
  lemma QueuedReply(pkt: seq<Byte>, status: Byte, at: nat, ram0: seq<Byte>, ram: seq<Byte>,
                    state: TxState, total: nat, data: nat)
    requires (at == 1 || at == BufSize + 1) && |ram0| == 2 * BufSize && pkt == ram0[at..at + 8]
    requires state == SetupState(pkt) && total == SetupTotal(pkt)
    requires data == if state == TxRom && |Descriptor(pkt[3], pkt[2])| > 0
                     then DescriptorOffset(pkt[3], pkt[2]) else at
    requires IsStandard(pkt) ==> ram == Splice(ram0, at, StandardAnswer(pkt))
    requires !IsStandard(pkt) ==> ram == Splice(ram0, at, SetupReply(pkt, status))
    ensures state == TxRam && total > 0 ==> data + total <= |ram|
    ensures state == TxRom && total > 0 ==> data + total <= |Rom|
    ensures state != TxCallback ==> PendingOf(state, data, total, ram) == SetupData(pkt, status)[..total]
  {
    if state == TxRom {
      QueuedRom(pkt, at, total, data, ram);
    } else if state == TxRam {
      RawLengthIsReply(pkt, status);
      ReplyFitsLength(UsbTiny, pkt, status);
      var d := SetupData(pkt, status);
      assert ram == Splice(ram0, at, d);
      QueuedRam(d, at, ram0, ram, total, data);
    }
  }

  /** The Rom half of QueuedReply: a descriptor request reads the table. */
  lemma QueuedRom(pkt: seq<Byte>, at: nat, total: nat, data: nat, ram: seq<Byte>)
    requires |pkt| >= 8 && at <= BufSize + 1 && SetupState(pkt) == TxRom && total == SetupTotal(pkt)
    requires data == if |Descriptor(pkt[3], pkt[2])| > 0 then DescriptorOffset(pkt[3], pkt[2]) else at
    ensures data + total <= |Rom|
    ensures PendingOf(TxRom, data, total, ram) == SetupData(pkt, 0)[..total]
  {
    var d := Descriptor(pkt[3], pkt[2]);
    assert SetupData(pkt, 0) == d && total <= |d|;
    DescriptorInRom(pkt[3], pkt[2]);
    assert |Rom| == 92;
    if |d| > 0 {
      MemoryPrefix(Rom, data, d, total);
    }
  }

  /** The RAM half of QueuedReply: the answer was written where the
      transmitter starts. */
  lemma QueuedRam(d: seq<Byte>, at: nat, ram0: seq<Byte>, ram: seq<Byte>, total: nat, data: nat)
    requires at + |d| <= |ram0| && ram == Splice(ram0, at, d) && total <= |d| && data == at
    ensures data + total <= |ram|
    ensures PendingOf(TxRam, data, total, ram) == d[..total]
  {
    MemoryPrefix(ram, at, d, total);
  }

  /** A prefix of a table stored at `o` is the memory right after `o`. */
  lemma MemoryPrefix(mem: seq<Byte>, o: nat, d: seq<Byte>, n: nat)
    requires o + |d| <= |mem| && mem[o..o + |d|] == d && n <= |d|
    ensures mem[o..o + n] == d[..n]
  {
    assert mem[o..o + n] == mem[o..o + |d|][..n];
  }

  // ---------------------------------------------------------------------
  // Snapshots of the driver, so that the steps of usb_poll can be chained.

  /** The variables of usb.c and the contents of its buffers at one moment. */
  datatype DriverView = DriverView(
    rxOff: Byte, rxLen: Byte, rxToken: Byte, txLen: Byte, address: Byte, newAddress: Byte,
    state: TxState, total: Byte, data: nat, ram: seq<Byte>, tx: seq<Byte>, bridge: BridgeView)

  /** The bytes of the data stage still to send in a snapshot. */
  ghost function PendingIn(s: DriverView): seq<Byte>
  {
    PendingOf(s.state, s.data, s.total, s.ram)
  }

  /** What usb_receive leaves after the SETUP packet at ram[at..]: the queued
      data stage is the reply cut to the queued total, SET_ADDRESS is
      recorded, the answer is written over the packet, and the bridge ran the
      request. */
  ghost predicate SetupEffect(at: nat, ram: seq<Byte>, newAddress0: Byte, v0: BridgeView, s: DriverView)
    requires at + 8 <= |ram|
  {
    var pkt := ram[at..at + 8];
    s.state == SetupState(pkt) && s.total == SetupTotal(pkt)
    && (s.state != TxCallback ==> PendingIn(s) == SetupData(pkt, v0.status)[..s.total])
    && s.newAddress == (if IsStandard(pkt) && pkt[1] == ReqSetAddress then pkt[2] else newAddress0)
    && (IsStandard(pkt) ==> s.bridge == v0 && s.ram == Splice(ram, at, StandardAnswer(pkt)))
    && (!IsStandard(pkt) ==>
          SetupPost(UsbTiny, v0, s.bridge, pkt) && s.ram == Splice(ram, at, SetupReply(pkt, v0.status)))
  }

  /** The facts usb_receive establishes for a SETUP packet add up to
      SetupEffect: in particular the memory holds the reply where the
      transmitter starts. */
  lemma SetupEffectFrom(pkt: seq<Byte>, at: nat, ram0: seq<Byte>, newAddress0: Byte, v0: BridgeView, s: DriverView)
    requires (at == 1 || at == BufSize + 1) && |ram0| == 2 * BufSize && pkt == ram0[at..at + 8]
    requires s.state == SetupState(pkt) && s.total == SetupTotal(pkt)
    requires s.data == if s.state == TxRom && |Descriptor(pkt[3], pkt[2])| > 0
                       then DescriptorOffset(pkt[3], pkt[2]) else at
    requires s.newAddress == if IsStandard(pkt) && pkt[1] == ReqSetAddress then pkt[2] else newAddress0
    requires IsStandard(pkt) ==> s.bridge == v0 && s.ram == Splice(ram0, at, StandardAnswer(pkt))
    requires !IsStandard(pkt) ==>
      SetupPost(UsbTiny, v0, s.bridge, pkt) && s.ram == Splice(ram0, at, SetupReply(pkt, v0.status))
    ensures SetupEffect(at, ram0, newAddress0, v0, s)
  {
    QueuedReply(pkt, v0.status, at, ram0, s.ram, s.state, s.total, s.data);
  }

  /** What usb_receive leaves after `len` OUT bytes at ram[at..]: usb_out
      wrote them (n of them, with these acknowledges) and an empty reply is
      queued for the status stage. */
  ghost predicate OutEffect(at: nat, len: Byte, ram: seq<Byte>, newAddress0: Byte, v0: BridgeView,
                            s: DriverView, n: Byte, failed: bool, acks: seq<bool>)
    requires at + len <= |ram|
  {
    s.state == TxRam && s.total == 0 && s.newAddress == newAddress0
    && (len > 0 ==> WritePost(v0, s.bridge, ram[at..at + len], n, failed, acks))
    && (len == 0 ==> s.bridge == v0)
    && (len == 0 || v0.status == StatusAddressAck ==> s.ram == ram)
    && (len > 0 && v0.status != StatusAddressAck ==> s.ram == Splice(ram, at, Zeros(len)))
  }

  /** usb_receive of the packet at ram[at..] with `len` data bytes, from
      snapshot s0 to s1: the token decides between SETUP and OUT, and the
      next data packet is prepared to go out as DATA1. */
  ghost predicate Received(s0: DriverView, at: nat, len: Byte, s1: DriverView, n: Byte, failed: bool, acks: seq<bool>)
  {
    at + 8 <= |s0.ram| && at + len <= |s0.ram| && |s1.tx| == |s0.tx| > 0
    && s1.tx[0] == PidData0 && s1.tx[1..] == s0.tx[1..]
    && (s0.rxToken == PidSetup ==> SetupEffect(at, s0.ram, s0.newAddress, s0.bridge, s1))
    && (s0.rxToken != PidSetup ==> OutEffect(at, len, s0.ram, s0.newAddress, s0.bridge, s1, n, failed, acks))
  }

  /** What usb_receive did does not depend on the two packet lengths, which
      usb_poll clears behind it. */
  lemma ReceivedKeepsWithLengths(s0: DriverView, at: nat, len: Byte, s1: DriverView,
                                 n: Byte, failed: bool, acks: seq<bool>, rxLen: Byte, txLen: Byte)
    requires Received(s0, at, len, s1, n, failed, acks)
    ensures Received(s0, at, len, s1.(rxLen := rxLen, txLen := txLen), n, failed, acks)
  {
  }

  /** usb_transmit from snapshot s0 to s1, sending n data bytes: the PID
      flips, the next packet of the pending data (or what usb_in delivered)
      goes behind it with its CRC, the total drops by n, and a short packet
      ends the transfer. */
  ghost predicate Transmitted(crc: seq<Byte> -> (Byte, Byte), s0: DriverView, s1: DriverView, n: Byte)
  {
    |s0.tx| == |s1.tx| == BufSize && n <= Min(s0.total, MaxPacket)
    && s1.tx[0] == FlipPid(s0.tx[0]) && crc(s1.tx[1..n + 1]) == (s1.tx[n + 1], s1.tx[n + 2])
    && s1.total == s0.total - n && s1.txLen == n + 3
    && s1.state == (if n < MaxPacket then TxIdle else s0.state)
    && s1.ram == s0.ram && s1.newAddress == s0.newAddress && s1.address == s0.address
    && s1.rxOff == s0.rxOff && s1.rxLen == s0.rxLen && s1.rxToken == s0.rxToken
    && (s0.state != TxCallback ==>
          n == Min(s0.total, MaxPacket) && s1.tx[1..n + 1] == Chunks(PendingIn(s0))[0]
          && (n == MaxPacket ==> Chunks(PendingIn(s1)) == Chunks(PendingIn(s0))[1..])
          && s1.bridge == s0.bridge)
    && (s0.state == TxCallback && s0.total > 0 ==>
          ReadPost(s0.bridge, s1.bridge, Min(s0.total, MaxPacket), n, s1.tx[1..n + 1]))
    && (s0.state == TxCallback && s0.total == 0 ==> s1.bridge == s0.bridge)
  }

  /** usb_poll takes a packet and then refills the empty transmit buffer:
      the first packet of the answer goes out as DATA1. After a SETUP whose
      reply comes from memory it carries the first bytes of that reply, cut
      to the queued total, and the rest stays pending for the next packets;
      after OUT it is the empty status packet that ends the transfer. */
  lemma PollReplies(crc: seq<Byte> -> (Byte, Byte), s0: DriverView, at: nat, len: Byte, s1: DriverView,
                    n: Byte, failed: bool, acks: seq<bool>, s2: DriverView, sent: Byte)
    requires Received(s0, at, len, s1, n, failed, acks) && Transmitted(crc, s1, s2, sent)
    requires s0.rxToken == PidSetup ==> SetupState(s0.ram[at..at + 8]) != TxCallback
    ensures s2.tx[0] == PidData1 && s2.txLen == sent + 3
    ensures s0.rxToken == PidSetup ==>
      var pkt := s0.ram[at..at + 8];
      var reply := SetupData(pkt, s0.bridge.status)[..SetupTotal(pkt)];
      sent == Min(|reply|, MaxPacket) && s2.tx[1..sent + 1] == reply[..sent]
      && (sent < MaxPacket ==> s2.state == TxIdle)
      && (sent == MaxPacket ==> Chunks(PendingIn(s2)) == Chunks(reply)[1..])
      && s2.bridge == s1.bridge
    ensures s0.rxToken != PidSetup ==> sent == 0 && s2.state == TxIdle && s2.bridge == s1.bridge
  {
    FlipPidAlternates();
    ChunksStep(PendingIn(s1));
    if s0.rxToken == PidSetup {
      var pkt := s0.ram[at..at + 8];
      var reply := SetupData(pkt, s0.bridge.status)[..SetupTotal(pkt)];
      assert PendingIn(s1) == reply;
    } else {
      assert PendingIn(s1) == [];
    }
  }

  /** The SETUP packet of ReadRequest queues a 16-byte data stage for the
      callbacks behind DATA0, after i2c_do has sent START and the address:
      on an ACK 16 bytes are expected and the message ends; on a NAK the bus
      is stopped. */
  lemma ReadRequestQueued(s0: DriverView, at: nat, s1: DriverView, n: Byte, failed: bool, acks: seq<bool>,
                          kind: Byte, addr: Word)
    requires Received(s0, at, MaxPacket, s1, n, failed, acks) && s0.rxToken == PidSetup
    requires s0.ram[at..at + 8] == CmdBytes(ReadRequest(kind, addr)) && (kind / 0x20) % 4 != 0
    ensures s1.state == TxCallback && s1.total == 16 && s1.tx[0] == PidData0
    ensures s1.bridge.status == StatusAddressAck || s1.bridge.status == StatusAddressNak
    ensures s1.bridge.status == StatusAddressAck ==>
      s1.bridge.expected == 16 && Ends(s1.bridge.savedCmd)
      && s1.bridge.events == s0.bridge.events + [I2c.Event.Start, I2c.Write(AddressByte(addr, 1), true)]
    ensures s1.bridge.status == StatusAddressNak ==>
      s1.bridge.events == s0.bridge.events
        + [I2c.Event.Start, I2c.Write(AddressByte(addr, 1), false), I2c.Event.Stop]
    ensures s1.bridge.clockDelay == s0.bridge.clockDelay && s1.bridge.clockDelay2 == s0.bridge.clockDelay2
  {
    var c := ReadRequest(kind, addr);
    var pkt := s0.ram[at..at + 8];
    ParseCmdBytes(c);
    assert ParseCmd(pkt) == c && pkt[1] == c.cmd && pkt[6] == 16 && pkt[7] == 0;
    assert !IsStandard(pkt) && IsI2cIo(pkt[1]) && Begins(c.cmd) && Ends(c.cmd) && IsRead(c.flags);
    assert SetupLength(UsbTiny, pkt) == NoMsg;
    assert SetupState(pkt) == TxCallback && SetupTotal(pkt) == 16;
    assert SetupEffect(at, s0.ram, s0.newAddress, s0.bridge, s1);
    assert I2cDoPost(s0.bridge, s1.bridge, c);
  }

  /** The driver state of usb.c. `crc` stands for the CRC16 routine in
      assembly, which the model does not contain. */
  class Driver {
    const bridge: Bridge
    const crc: seq<Byte> -> (Byte, Byte)
    /** two receive buffers of BufSize bytes */
    const rxBuf: array<Byte>
    const txBuf: array<Byte>
    /** 0 or BufSize: the half the interrupt handler fills next */
    var rxOff: Byte
    /** size of the stored packet with PID and CRC, 0 when empty */
    var rxLen: Byte
    /** PID of the token before it: SETUP or OUT */
    var rxToken: Byte
    /** size of the packet in txBuf, 0 when empty */
    var txLen: Byte
    var address: Byte
    var txState: TxState
    var txTotal: Byte
    /** index of the next byte to send, into rxBuf (TxRam) or Rom (TxRom) */
    var txData: nat
    var newAddress: Byte

    ghost predicate Valid()
      reads this, bridge, bridge.bus
    {
      bridge.Valid() && bridge.variant == UsbTiny
      && rxBuf.Length == 2 * BufSize && txBuf.Length == BufSize
      && rxBuf != txBuf && rxBuf != bridge.replyBuf && txBuf != bridge.replyBuf
      && (rxOff == 0 || rxOff == BufSize)
      && (rxLen == 0 || 3 <= rxLen <= BufSize)
      && (txLen == 0 || 3 <= txLen <= BufSize)
      && (txState == TxRam && txTotal > 0 ==> txData + txTotal <= rxBuf.Length)
      && (txState == TxRom && txTotal > 0 ==> txData + txTotal <= |Rom|)
    }

    /** The bytes still to send from memory. */
    ghost function Pending(): seq<Byte>
      reads this, rxBuf
    {
      PendingOf(txState, txData, txTotal, rxBuf[..])
    }

    ghost function Snap(): DriverView
      reads this, rxBuf, txBuf, bridge, bridge.bus
    {
      DriverView(rxOff, rxLen, rxToken, txLen, address, newAddress,
                 txState, txTotal, txData, rxBuf[..], txBuf[..], bridge.View())
    }

    /** The static initial state; the host has not addressed the device. */
    constructor (slave: seq<I2c.Pin> -> bool, crc16: seq<Byte> -> (Byte, Byte))
      ensures Valid() && fresh(bridge) && fresh(bridge.bus) && fresh(rxBuf) && fresh(txBuf)
      ensures bridge.View() == BridgeView(StatusIdle, 0, 0, 10, 5, [])
      ensures bridge.bus.sda == slave && crc == crc16
      ensures rxLen == 0 && txLen == 0 && rxOff == 0
      ensures txState == TxIdle && address == 0 && newAddress == 0
    {
      bridge := new Bridge(UsbTiny, slave);
      crc := crc16;
      rxBuf := new Byte[2 * BufSize](_ => 0);
      txBuf := new Byte[BufSize](_ => 0);
      rxOff, rxLen, rxToken, txLen := 0, 0, 0, 0;
      address, txState, txTotal, txData, newAddress := 0, TxIdle, 0, 0, 0;
    }

    /** The SETUP half of usb_receive: the 8-byte packet at rxBuf[at..].
        Returns the queued length, the state and where the data starts. */
    method Setup(at: nat, pkt: seq<Byte>) returns (len: Byte, state: TxState, src: nat)
      requires Valid() && (at == 1 || at == BufSize + 1) && pkt == rxBuf[at..at + 8]
      modifies this`newAddress, rxBuf, bridge, bridge.bus, bridge.replyBuf
      ensures Valid()
      ensures state == SetupState(pkt) && len == SetupTotal(pkt)
      ensures src == if state == TxRom && |Descriptor(pkt[3], pkt[2])| > 0
                     then DescriptorOffset(pkt[3], pkt[2]) else at
      ensures newAddress == if IsStandard(pkt) && pkt[1] == ReqSetAddress then pkt[2] else old(newAddress)
      ensures IsStandard(pkt) ==>
        rxBuf[..] == Splice(old(rxBuf[..]), at, StandardAnswer(pkt)) && bridge.View() == old(bridge.View())
      ensures !IsStandard(pkt) ==>
        rxBuf[..] == Splice(old(rxBuf[..]), at, SetupReply(pkt, old(bridge.status)))
        && SetupPost(UsbTiny, old(bridge.View()), bridge.View(), pkt)
    {
      var limit := if pkt[7] != 0 then 255 else pkt[6];
      if (pkt[0] / 0x20) % 4 == 0 {
        len, state, src := Standard(at, pkt);
      } else {
        len, state := Vendor(at, pkt);
        src := at;
      }
      if len > limit {
        len := limit;
      }
    }

    /** The other requests go to usb_setup of the bridge; NoMsg hands the
        data stage to the callbacks. */
    method Vendor(at: nat, pkt: seq<Byte>) returns (len: Byte, state: TxState)
      requires Valid() && (at == 1 || at == BufSize + 1) && pkt == rxBuf[at..at + 8] && !IsStandard(pkt)
      modifies rxBuf, bridge, bridge.bus, bridge.replyBuf
      ensures Valid()
      ensures state == SetupState(pkt) && len == RawLength(pkt)
      ensures rxBuf[..] == Splice(old(rxBuf[..]), at, SetupReply(pkt, old(bridge.status)))
      ensures SetupPost(UsbTiny, old(bridge.View()), bridge.View(), pkt)
    {
      len := bridge.UsbSetup(rxBuf, at);
      state := if len == NoMsg then TxCallback else TxRam;
    }

    /** The standard requests usb_receive answers itself. */
    method Standard(at: nat, pkt: seq<Byte>) returns (len: Byte, state: TxState, src: nat)
      requires Valid() && (at == 1 || at == BufSize + 1) && pkt == rxBuf[at..at + 8] && IsStandard(pkt)
      modifies this`newAddress, rxBuf
      ensures Valid()
      ensures state == SetupState(pkt) && len == RawLength(pkt)
      ensures src == if state == TxRom && |Descriptor(pkt[3], pkt[2])| > 0
                     then DescriptorOffset(pkt[3], pkt[2]) else at
      ensures newAddress == if pkt[1] == ReqSetAddress then pkt[2] else old(newAddress)
      ensures rxBuf[..] == Splice(old(rxBuf[..]), at, StandardAnswer(pkt))
    {
      var req := pkt[1];
      state, len, src := TxRam, 0, at;
      if req == ReqSetAddress {
        newAddress := pkt[2];
      } else if req == ReqGetDescriptor {
        state := TxRom;
        var d := Descriptor(pkt[3], pkt[2]);
        if |d| > 0 {
          src := DescriptorOffset(pkt[3], pkt[2]);
          len := |d|;
        }
      }
      var answer := StandardAnswer(pkt);
      if answer != [] {
        len := |answer|;
      }
      Answer(at, answer);
    }

    /** Writes a standard answer over the start of the packet. */
    method Answer(at: nat, answer: seq<Byte>)
      requires Valid() && (at == 1 || at == BufSize + 1) && |answer| <= 2
      modifies rxBuf
      ensures Valid()
      ensures rxBuf[..] == Splice(old(rxBuf[..]), at, answer)
    {
      if |answer| > 0 {
        rxBuf[at] := answer[0];
      }
      if |answer| > 1 {
        rxBuf[at + 1] := answer[1];
      }
      assert rxBuf[..] == Splice(old(rxBuf[..]), at, answer);
    }

    /** usb_receive: the packet in rxBuf[at..] with `len` data bytes, after a
        SETUP or an OUT token. The OUT data goes to the bridge; what it made
        of them is returned for the proof only. */
    method Receive(at: nat, len: Byte) returns (ghost n: Byte, ghost failed: bool, ghost acks: seq<bool>)
      requires Valid() && (at == 1 || at == BufSize + 1) && len <= MaxPacket
      modifies this`txState, this`txTotal, this`txData, this`newAddress, rxBuf, txBuf, bridge, bridge.bus, bridge.replyBuf
      ensures Valid()
      ensures Received(old(Snap()), at, len, Snap(), n, failed, acks)
    {
      n, failed, acks := 0, false, [];
      if rxToken == PidSetup {
        ReceiveSetup(at);
      } else {
        n, failed, acks := ReceiveOut(at, len);
      }
      txBuf[0] := PidData0;
    }

    method ReceiveSetup(at: nat)
      requires Valid() && (at == 1 || at == BufSize + 1)
      modifies this`txState, this`txTotal, this`txData, this`newAddress, rxBuf, bridge, bridge.bus, bridge.replyBuf
      ensures Valid()
      ensures SetupEffect(at, old(rxBuf[..]), old(newAddress), old(bridge.View()), Snap())
    {
      ghost var ram0 := rxBuf[..];
      ghost var v0 := bridge.View();
      var pkt := rxBuf[at..at + 8];
      assert ram0[at..at + 8] == pkt;
      var total, state, src := Setup(at, pkt);
      Queue(state, total, src);
      SetupEffectFrom(pkt, at, ram0, old(newAddress), v0, Snap());
    }

    /** Arms the transmitter for a data stage of `total` bytes from `data`. */
    method Queue(state: TxState, total: Byte, data: nat)
      requires Valid()
      requires state == TxRam && total > 0 ==> data + total <= rxBuf.Length
      requires state == TxRom && total > 0 ==> data + total <= |Rom|
      modifies this`txState, this`txTotal, this`txData
      ensures Valid() && txState == state && txTotal == total && txData == data
      ensures Pending() == PendingOf(state, data, total, rxBuf[..])
    {
      txState, txTotal, txData := state, total, data;
    }

    method ReceiveOut(at: nat, len: Byte) returns (n: Byte, failed: bool, ghost acks: seq<bool>)
      requires Valid() && (at == 1 || at == BufSize + 1) && len <= MaxPacket
      modifies this`txState, this`txTotal, rxBuf, bridge, bridge.bus
      ensures Valid()
      ensures OutEffect(at, len, old(rxBuf[..]), old(newAddress), old(bridge.View()), Snap(), n, failed, acks)
    {
      n, failed, acks := 0, false, [];
      if len > 0 {
        n, failed, acks := bridge.UsbOut(rxBuf, at, len);
      }
      txState, txTotal := TxRam, 0;
    }

    /** usb_transmit: loads the next packet of the data stage into txBuf:
        the flipped PID, up to 8 bytes, and their CRC. */
    method Transmit() returns (n: Byte)
      requires Valid() && txState != TxIdle
      modifies this`txData, this`txTotal, this`txLen, this`txState, txBuf, bridge, bridge.bus
      ensures Valid()
      ensures txBuf[0] == FlipPid(old(txBuf[0]))
      ensures n <= Min(old(txTotal), MaxPacket) && txTotal == old(txTotal) - n && txLen == n + 3
      ensures txState == if n < MaxPacket then TxIdle else old(txState)
      ensures crc(txBuf[1..n + 1]) == (txBuf[n + 1], txBuf[n + 2])
      ensures old(txState) != TxCallback ==>
        n == Min(old(txTotal), MaxPacket) && txBuf[1..n + 1] == Chunks(old(Pending()))[0]
        && (n == MaxPacket ==> Chunks(Pending()) == Chunks(old(Pending()))[1..])
        && bridge.View() == old(bridge.View())
      ensures old(txState) == TxCallback && old(txTotal) > 0 ==>
        ReadPost(old(bridge.View()), bridge.View(), Min(old(txTotal), MaxPacket), n, txBuf[1..n + 1])
      ensures old(txState) == TxCallback && old(txTotal) == 0 ==> bridge.View() == old(bridge.View())
    {
      ghost var p := Pending();
      txBuf[0] := FlipPid(txBuf[0]);
      n := if txTotal > MaxPacket then MaxPacket else txTotal;
      if n > 0 {
        if txState == TxCallback {
          n := CallIn(n);
        } else {
          CopyOut(n);
        }
      }
      Seal(n);
      ChunksStep(p);
    }

    /** The RAM and ROM copy loops of usb_transmit. */
    method CopyOut(n: Byte)
      requires Valid() && (txState == TxRam || txState == TxRom) && 0 < n == Min(txTotal, MaxPacket)
      modifies this`txData, this`txTotal, txBuf
      ensures Valid()
      ensures txBuf[..] == Splice(old(txBuf[..]), 1, old(Pending())[..n])
      ensures txBuf[0] == old(txBuf[0]) && txBuf[1..n + 1] == old(Pending())[..n]
      ensures txTotal == old(txTotal) - n && Pending() == old(Pending())[n..]
    {
      PendingAdvance(txState, txData, txTotal, rxBuf[..], n);
      Load(txBuf, Memory(txState, rxBuf[..]), txData, n);
      assert txBuf[1..n + 1] == txBuf[..][1..n + 1];
      txData := txData + n;
      txTotal := txTotal - n;
    }

    /** The usb_in branch of usb_transmit: the bridge reads the data and
        says how many bytes it delivered. */
    method CallIn(len: Byte) returns (n: Byte)
      requires Valid() && txState == TxCallback && 0 < len <= Min(txTotal, MaxPacket)
      modifies this`txTotal, txBuf, bridge, bridge.bus
      ensures Valid() && n <= len && txTotal == old(txTotal) - n
      ensures txBuf[0] == old(txBuf[0])
      ensures ReadPost(old(bridge.View()), bridge.View(), len, n, txBuf[1..n + 1])
    {
      n := bridge.UsbIn(txBuf, 1, len);
      txTotal := txTotal - n;
    }

    /** The tail of usb_transmit: CRC behind the data, packet length, and the
        end of the transfer after a short packet. */
    method Seal(n: Byte)
      requires Valid() && n <= MaxPacket
      modifies this`txLen, this`txState, txBuf
      ensures Valid()
      ensures txBuf[0] == old(txBuf[0]) && txBuf[1..n + 1] == old(txBuf[1..n + 1])
      ensures crc(txBuf[1..n + 1]) == (txBuf[n + 1], txBuf[n + 2])
      ensures txLen == n + 3 && txState == if n < MaxPacket then TxIdle else old(txState)
    {
      var c := crc(txBuf[1..n + 1]);
      txBuf[n + 1] := c.0;
      txBuf[n + 2] := c.1;
      assert txBuf[1..n + 1] == old(txBuf[1..n + 1]);
      txLen := n + 3;
      if n < MaxPacket {
        txState := TxIdle;
      }
    }

    /** The data stage of a 16-byte I2C read as usb_transmit serves it:
        two full packets filled by usb_in and a zero-length packet that ends
        the transfer. After an acknowledged address the bus reads the 16
        bytes and stops; otherwise the host gets zeros and the bus is left
        alone. `data` is what the two packets carried and `p1`, `p2`, `p3`
        are the PIDs the three packets went out with. */
    method StreamRead() returns (n1: Byte, n2: Byte, n3: Byte, ghost data: seq<Byte>,
                                 ghost p1: Byte, ghost p2: Byte, ghost p3: Byte)
      requires Valid() && txState == TxCallback && txTotal == 16 && txBuf[0] == PidData0
      requires bridge.status == StatusAddressAck ==> bridge.expected == 16 && Ends(bridge.savedCmd)
      modifies this`txData, this`txTotal, this`txLen, this`txState, txBuf, bridge, bridge.bus
      ensures Valid() && txState == TxIdle && txTotal == 0 && txLen == 3 && txBuf[0] == PidData1
      ensures n1 == MaxPacket && n2 == MaxPacket && n3 == 0 && |data| == 16
      ensures p1 == PidData1 && p2 == PidData0 && p3 == PidData1
      ensures old(bridge.status) == StatusAddressAck ==>
        bridge.View() == old(bridge.View()).(expected := 0,
          events := old(bridge.bus.events) + Reads(16, data) + [I2c.Event.Stop])
      ensures old(bridge.status) != StatusAddressAck ==>
        bridge.View() == old(bridge.View()) && data == Zeros(16)
    {
      FlipPidAlternates();
      n1 := Transmit();
      ghost var d1 := txBuf[1..n1 + 1];
      p1 := txBuf[0];
      n2 := Transmit();
      ghost var d2 := txBuf[1..n2 + 1];
      p2 := txBuf[0];
      n3 := Transmit();
      p3 := txBuf[0];
      data := d1 + d2;
      ReadsSplit(16, d1, d2);
    }

    /** The end-to-end read: usb_receive takes the SETUP packet of
        ReadRequest, the bridge runs the address phase, and the data stage
        follows. The host sees DATA1, DATA0, DATA1 packets of 8, 8 and 0
        bytes; of the 16 bytes read from the bus only the last is NAKed. */
    method ServeRead(at: nat, kind: Byte, addr: Word)
      returns (n1: Byte, n2: Byte, n3: Byte, ghost data: seq<Byte>, ghost p1: Byte, ghost p2: Byte, ghost p3: Byte)
      requires Valid() && (at == 1 || at == BufSize + 1) && rxToken == PidSetup && (kind / 0x20) % 4 != 0
      requires rxBuf[at..at + 8] == CmdBytes(ReadRequest(kind, addr))
      modifies this`txState, this`txTotal, this`txData, this`newAddress, this`txLen
      modifies rxBuf, txBuf, bridge, bridge.bus, bridge.replyBuf
      ensures Valid() && txState == TxIdle && txBuf[0] == PidData1
      ensures n1 == MaxPacket && n2 == MaxPacket && n3 == 0 && |data| == 16
      ensures p1 == PidData1 && p2 == PidData0 && p3 == PidData1
      ensures bridge.status == StatusAddressAck || bridge.status == StatusAddressNak
      ensures bridge.status == StatusAddressAck ==>
        bridge.bus.events == old(bridge.bus.events)
          + [I2c.Event.Start, I2c.Write(AddressByte(addr, 1), true)] + Reads(16, data) + [I2c.Event.Stop]
      ensures bridge.status == StatusAddressNak ==>
        bridge.bus.events == old(bridge.bus.events)
          + [I2c.Event.Start, I2c.Write(AddressByte(addr, 1), false), I2c.Event.Stop]
        && data == Zeros(16)
      ensures forall k :: 0 <= k < |data| ==> Reads(16, data)[k] == I2c.Read(k == 15, data[k])
    {
      ghost var s0 := Snap();
      ghost var n, failed, acks := Receive(at, MaxPacket);
      ReadRequestQueued(s0, at, Snap(), n, failed, acks, kind, addr);
      n1, n2, n3, data, p1, p2, p3 := StreamRead();
      ReadsLast(16, data);
    }

    /** usb_poll: takes a stored packet, refills an empty transmit buffer or
        applies a pending address at the end of a transfer, and checks D- for
        a bus reset. `dMinus` holds the levels the ten samples would read.
        `taken` is the state after the first step and `refilled` the state
        after the second; the OUT results and the length of a refilled
        packet are returned for the proof only. */
    method Poll(dMinus: seq<bool>) returns (ghost taken: DriverView, ghost refilled: DriverView,
                                            ghost n: Byte, ghost failed: bool, ghost acks: seq<bool>, ghost sent: Byte)
      requires Valid() && |dMinus| == 10
      modifies this`rxLen, this`txLen, this`newAddress, this`txState, this`txTotal, this`txData, this`address, rxBuf, txBuf, bridge, bridge.bus, bridge.replyBuf
      ensures Valid()
      ensures old(rxLen) != 0 ==>
        Received(old(Snap()), BufSize - old(rxOff) + 1, old(rxLen) - 3, taken, n, failed, acks)
        && taken.rxLen == 0 && taken.txLen == 0 && taken.address == old(address)
        && taken.rxOff == old(rxOff) && taken.rxToken == old(rxToken)
      ensures old(rxLen) == 0 ==> taken == old(Snap())
      ensures taken.txLen == 0 && taken.state != TxIdle ==> Transmitted(crc, taken, refilled, sent)
      ensures taken.txLen == 0 && taken.state == TxIdle ==> refilled == taken.(address := taken.newAddress)
      ensures taken.txLen != 0 ==> refilled == taken
      ensures (forall k :: 0 <= k < 10 ==> !dMinus[k]) ==>
        Snap() == refilled.(txLen := 0, rxLen := 0, newAddress := 0)
      ensures !(forall k :: 0 <= k < 10 ==> !dMinus[k]) ==> Snap() == refilled
    {
      n, failed, acks, sent := 0, false, [], 0;
      if rxLen != 0 {
        n, failed, acks := TakePacket();
      }
      taken := Snap();
      if txLen == 0 {
        sent := Refill();
      }
      refilled := Snap();
      CheckReset(dMinus);
    }

    /** The last step of usb_poll: SE0 on all ten samples is a bus reset,
        which drops both packets and the pending address. */
    method CheckReset(dMinus: seq<bool>)
      requires Valid() && |dMinus| == 10
      modifies this`rxLen, this`txLen, this`newAddress
      ensures Valid()
      ensures (forall k :: 0 <= k < 10 ==> !dMinus[k]) ==>
        Snap() == old(Snap()).(txLen := 0, rxLen := 0, newAddress := 0)
      ensures !(forall k :: 0 <= k < 10 ==> !dMinus[k]) ==> Snap() == old(Snap())
    {
      var i := SampleBusReset(dMinus);
      if i == 0 {
        txLen := 0;
        rxLen := 0;
        newAddress := 0;
      }
    }

    /** The first step of usb_poll: the stored packet, in the half the
        interrupt handler filled last, is received without its PID and CRC,
        and both buffers are emptied. */
    method TakePacket() returns (ghost n: Byte, ghost failed: bool, ghost acks: seq<bool>)
      requires Valid() && rxLen != 0
      modifies this`rxLen, this`txLen, this`newAddress, this`txState, this`txTotal, this`txData, rxBuf, txBuf, bridge, bridge.bus, bridge.replyBuf
      ensures Valid() && rxLen == 0 && txLen == 0
      ensures rxOff == old(rxOff) && rxToken == old(rxToken) && address == old(address)
      ensures Received(old(Snap()), BufSize - old(rxOff) + 1, old(rxLen) - 3, Snap(), n, failed, acks)
    {
      ghost var s0 := Snap();
      n, failed, acks := Receive(BufSize - rxOff + 1, rxLen - 3);
      ghost var s1 := Snap();
      txLen := 0;
      rxLen := 0;
      assert Snap() == s1.(rxLen := 0, txLen := 0);
      ReceivedKeepsWithLengths(s0, BufSize - old(rxOff) + 1, old(rxLen) - 3, s1, n, failed, acks, 0, 0);
    }

    /** The second step of usb_poll, with the transmit buffer empty: the next
        packet of an active transfer, of `sent` data bytes, or else the
        pending address. */
    method Refill() returns (ghost sent: Byte)
      requires Valid() && txLen == 0
      modifies this`txData, this`txTotal, this`txLen, this`txState, this`address, txBuf, bridge, bridge.bus
      ensures Valid()
      ensures old(txState) == TxIdle ==> Snap() == old(Snap()).(address := old(newAddress))
      ensures old(txState) != TxIdle ==> Transmitted(crc, old(Snap()), Snap(), sent)
    {
      sent := 0;
      if txState != TxIdle {
        sent := Transmit();
      } else {
        address := newAddress;
      }
    }
  }

  /** The SETUP packet of a 16-byte I2C read from `addr` in one transfer
      (BEGIN and END set), sent as a class or vendor request of type `kind`
      with wLength 16. */
  function ReadRequest(kind: Byte, addr: Word): I2cCmd
  {
    I2cCmd(kind, CmdI2cIo + CmdI2cBegin + CmdI2cEnd, 1, addr, 16)
  }

  /** The countdown of usb_poll: it stops at the first high D- sample, so it
      reaches 0 exactly when all ten samples are low (SE0). */
  method SampleBusReset(dMinus: seq<bool>) returns (i: Byte)
    requires |dMinus| == 10
    ensures i == 0 <==> forall k :: 0 <= k < 10 ==> !dMinus[k]
    ensures i != 0 ==> i <= 10 && dMinus[10 - i] && forall k :: 0 <= k < 10 - i ==> !dMinus[k]
  {
    i := 10;
    while i > 0 && !dMinus[10 - i]
      invariant 0 <= i <= 10
      invariant forall k :: 0 <= k < 10 - i ==> !dMinus[k]
    {
      i := i - 1;
    }
  }
}
