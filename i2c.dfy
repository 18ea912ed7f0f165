/** The bit-banged I2C master of the bridge (the i2c_* routines of both
    builds). The pins are modelled as the trace of what the master does to
    them: drive or release SDA, drive or release SCL, sample SDA. Whatever a
    slave does to SDA is an oracle over that trace. */
module I2c {
  import opened Bytes

  /** One action of the master on the two open-drain lines. `high` is the
      level the master leaves the line at (released = high); a `Sample` holds
      the level it read. */
  datatype Pin = Sda(high: bool) | Scl(high: bool) | Sample(high: bool)

  /** The routines the bridge calls, as seen from above the pins. */
  datatype Event =
    | Start
    | RepStart
    | Stop
    | Write(b: Byte, acked: bool)
    | Read(last: bool, b: Byte)

  // ---------------------------------------------------------------------
  // The waves each routine puts on the lines.

  const StartWave: seq<Pin> := [Sda(false), Scl(false)]
  const RepStartWave: seq<Pin> := [Sda(true), Scl(true), Sda(false), Scl(false)]
  const StopWave: seq<Pin> := [Sda(false), Scl(true), Sda(true)]
  /** i2c_scl_toggle */
  const Toggle: seq<Pin> := [Scl(true), Scl(false)]

  /** Put each bit on SDA and pulse SCL. */
  function DriveBits(bits: seq<bool>): (w: seq<Pin>)
    ensures |w| == 3 * |bits|
  {
    if bits == [] then [] else [Sda(bits[0])] + Toggle + DriveBits(bits[1..])
  }

  /** Raise SCL, read SDA, lower SCL, once per bit read. */
  function SampleBits(bits: seq<bool>): (w: seq<Pin>)
    ensures |w| == 3 * |bits|
  {
    if bits == [] then [] else [Scl(true), Sample(bits[0]), Scl(false)] + SampleBits(bits[1..])
  }

  /** The wave of i2c_put_u08(b) when the ninth clock reads `ackLevel`. */
  function PutWave(b: Byte, ackLevel: bool): seq<Pin>
  {
    DriveBits(MsbBits(b)) + [Sda(true), Scl(true), Sample(ackLevel), Scl(false)]
  }

  /** The wave of i2c_get_u08(last) when the eight clocks read `bits`. */
  function GetWave(bits: seq<bool>, last: bool): seq<Pin>
  {
    [Sda(true), Scl(false)] + SampleBits(bits) + [Sda(last)] + Toggle + [Sda(true)]
  }

  lemma GetWaveParts(start: seq<Pin>, bits: seq<bool>, last: bool)
    ensures start + GetWave(bits, last)
         == start + [Sda(true), Scl(false)] + SampleBits(bits) + ([Sda(last)] + Toggle + [Sda(true)])
  {
  }

  lemma {:induction false} DriveBitsSnoc(bits: seq<bool>, x: bool)
    ensures DriveBits(bits + [x]) == DriveBits(bits) + [Sda(x)] + Toggle
  {
    if bits != [] {
      assert (bits + [x])[1..] == bits[1..] + [x];
      DriveBitsSnoc(bits[1..], x);
    }
  }

  lemma {:induction false} SampleBitsSnoc(bits: seq<bool>, x: bool)
    ensures SampleBits(bits + [x]) == SampleBits(bits) + [Scl(true), Sample(x), Scl(false)]
  {
    if bits != [] {
      assert (bits + [x])[1..] == bits[1..] + [x];
      SampleBitsSnoc(bits[1..], x);
    }
  }

  // ---------------------------------------------------------------------
  // Bus-level reference semantics (UM10204 sections 3.1.3 to 3.1.5): a
  // START is SDA falling while SCL is high, a STOP is SDA rising while SCL
  // is high, and a data bit is the SDA level held over a whole SCL high
  // period. The decoder reads the levels the master leaves the lines at.

  datatype Symbol = StartCondition | StopCondition | Clock(sda: bool)

  /** Line levels; `steady` says SCL has been high since its last rising
      edge without SDA changing. */
  datatype Line = Line(sda: bool, scl: bool, steady: bool)

  const Idle := Line(true, true, false)

  function StepLine(p: Pin, l: Line): Line
  {
    match p
    case Sda(h) => Line(h, l.scl, l.steady && h == l.sda)
    case Scl(h) => Line(l.sda, h, h && (l.scl ==> l.steady))
    case Sample(_) => l
  }

  function StepSymbols(p: Pin, l: Line): seq<Symbol>
  {
    match p
    case Sda(h) =>
      if l.scl && l.sda && !h then [StartCondition]
      else if l.scl && !l.sda && h then [StopCondition]
      else []
    case Scl(h) => if !h && l.scl && l.steady then [Clock(l.sda)] else []
    case Sample(_) => []
  }

  function Final(w: seq<Pin>, l: Line): Line
  {
    if w == [] then l else Final(w[1..], StepLine(w[0], l))
  }

  function Decode(w: seq<Pin>, l: Line): seq<Symbol>
  {
    if w == [] then [] else StepSymbols(w[0], l) + Decode(w[1..], StepLine(w[0], l))
  }

  lemma {:induction false} DecodeAppend(a: seq<Pin>, b: seq<Pin>, l: Line)
    ensures Decode(a + b, l) == Decode(a, l) + Decode(b, Final(a, l))
    ensures Final(a + b, l) == Final(b, Final(a, l))
  {
    if a == [] {
      assert a + b == b;
    } else {
      assert (a + b)[1..] == a[1..] + b;
      DecodeAppend(a[1..], b, StepLine(a[0], l));
    }
  }

  function Clocks(bits: seq<bool>): (s: seq<Symbol>)
    ensures |s| == |bits|
  {
    if bits == [] then [] else [Clock(bits[0])] + Clocks(bits[1..])
  }

  /** SCL low, so the next SDA change is no condition. */
  predicate Low(l: Line) { !l.scl && !l.steady }

  lemma DecodeCons(p: Pin, w: seq<Pin>, l: Line)
    ensures Decode([p] + w, l) == StepSymbols(p, l) + Decode(w, StepLine(p, l))
    ensures Final([p] + w, l) == Final(w, StepLine(p, l))
  {
    assert ([p] + w)[1..] == w;
  }

  /** A START from the idle bus. */
  lemma StartDecodes()
    ensures Decode(StartWave, Idle) == [StartCondition]
    ensures Low(Final(StartWave, Idle)) && !Final(StartWave, Idle).sda
  {
    assert StartWave == [Sda(false)] + [Scl(false)];
    DecodeCons(Sda(false), [Scl(false)], Idle);
    DecodeCons(Scl(false), [], StepLine(Sda(false), Idle));
  }

  /** A START when SCL is low (after a byte) is a repeated START. */
  lemma RepStartDecodes(l: Line)
    requires Low(l)
    ensures Decode(RepStartWave, l) == [StartCondition]
    ensures Low(Final(RepStartWave, l)) && !Final(RepStartWave, l).sda
  {
    var l1 := StepLine(Sda(true), l);
    var l2 := StepLine(Scl(true), l1);
    var l3 := StepLine(Sda(false), l2);
    assert RepStartWave == [Sda(true)] + ([Scl(true)] + ([Sda(false)] + [Scl(false)]));
    DecodeCons(Sda(true), [Scl(true)] + ([Sda(false)] + [Scl(false)]), l);
    DecodeCons(Scl(true), [Sda(false)] + [Scl(false)], l1);
    DecodeCons(Sda(false), [Scl(false)], l2);
    DecodeCons(Scl(false), [], l3);
  }

  /** The STOP wave ends the transfer with SCL and SDA released. */
  lemma StopDecodes(l: Line)
    requires Low(l)
    ensures Decode(StopWave, l) == [StopCondition]
    ensures Final(StopWave, l) == Line(true, true, false)
  {
    var l1 := StepLine(Sda(false), l);
    var l2 := StepLine(Scl(true), l1);
    assert StopWave == [Sda(false)] + ([Scl(true)] + [Sda(true)]);
    DecodeCons(Sda(false), [Scl(true)] + [Sda(true)], l);
    DecodeCons(Scl(true), [Sda(true)], l1);
    DecodeCons(Sda(true), [], l2);
  }

  /** One data bit driven with SCL low is clocked out once. */
  lemma BitDecodes(x: bool, l: Line)
    requires Low(l)
    ensures Decode([Sda(x)] + Toggle, l) == [Clock(x)]
    ensures Final([Sda(x)] + Toggle, l) == Line(x, false, false)
  {
    var l1 := StepLine(Sda(x), l);
    var l2 := StepLine(Scl(true), l1);
    assert [Sda(x)] + Toggle == [Sda(x)] + ([Scl(true)] + [Scl(false)]);
    DecodeCons(Sda(x), [Scl(true)] + [Scl(false)], l);
    DecodeCons(Scl(true), [Scl(false)], l1);
    DecodeCons(Scl(false), [], l2);
  }

  /** One clock with SDA released, whatever the slave does meanwhile. */
  lemma SampleDecodes(x: bool)
    ensures Decode([Scl(true), Sample(x), Scl(false)], Line(true, false, false)) == [Clock(true)]
    ensures Final([Scl(true), Sample(x), Scl(false)], Line(true, false, false)) == Line(true, false, false)
  {
    var l := Line(true, false, false);
    var l1 := StepLine(Scl(true), l);
    assert [Scl(true), Sample(x), Scl(false)] == [Scl(true)] + ([Sample(x)] + [Scl(false)]);
    DecodeCons(Scl(true), [Sample(x)] + [Scl(false)], l);
    DecodeCons(Sample(x), [Scl(false)], l1);
    DecodeCons(Scl(false), [], l1);
  }

  /** Driving bits with SCL low clocks each of them out once, MSB first. */
  lemma {:induction false} DriveBitsDecodes(bits: seq<bool>, l: Line)
    requires Low(l)
    ensures Decode(DriveBits(bits), l) == Clocks(bits)
    ensures Low(Final(DriveBits(bits), l))
    ensures bits != [] ==> Final(DriveBits(bits), l).sda == bits[|bits| - 1]
    decreases |bits|
  {
    if bits != [] {
      var head := [Sda(bits[0])] + Toggle;
      DecodeAppend(head, DriveBits(bits[1..]), l);
      BitDecodes(bits[0], l);
      DriveBitsDecodes(bits[1..], Line(bits[0], false, false));
      if |bits| > 1 {
        assert bits[1..][|bits[1..]| - 1] == bits[|bits| - 1];
      }
    }
  }

  function Released(n: nat): (s: seq<bool>)
    ensures |s| == n
  {
    seq(n, _ => true)
  }

  /** Sampling bits leaves SDA released on every clock. */
  lemma {:induction false} SampleBitsDecodes(bits: seq<bool>)
    ensures Decode(SampleBits(bits), Line(true, false, false)) == Clocks(Released(|bits|))
    ensures Final(SampleBits(bits), Line(true, false, false)) == Line(true, false, false)
    decreases |bits|
  {
    var l := Line(true, false, false);
    if bits != [] {
      var head := [Scl(true), Sample(bits[0]), Scl(false)];
      DecodeAppend(head, SampleBits(bits[1..]), l);
      SampleDecodes(bits[0]);
      SampleBitsDecodes(bits[1..]);
      assert Released(|bits|)[1..] == Released(|bits| - 1);
    }
  }

  /** What a slave sees of i2c_put_u08: the eight data bits MSB first, then a
      ninth clock with SDA released for the slave's acknowledge. */
  lemma PutWaveDecodes(b: Byte, ackLevel: bool, l: Line)
    requires Low(l)
    ensures Decode(PutWave(b, ackLevel), l) == Clocks(MsbBits(b)) + [Clock(true)]
    ensures Final(PutWave(b, ackLevel), l) == Line(true, false, false)
  {
    var tail := [Sda(true)] + [Scl(true), Sample(ackLevel), Scl(false)];
    DriveBitsDecodes(MsbBits(b), l);
    var m := Final(DriveBits(MsbBits(b)), l);
    DecodeAppend(DriveBits(MsbBits(b)), tail, l);
    assert tail == [Sda(true), Scl(true), Sample(ackLevel), Scl(false)];
    DecodeCons(Sda(true), [Scl(true), Sample(ackLevel), Scl(false)], m);
    assert StepLine(Sda(true), m) == Line(true, false, false);
    SampleDecodes(ackLevel);
  }

  /** What a slave sees of i2c_get_u08(last): eight clocks with SDA released
      for the slave's data, then the master's acknowledge, which is a NAK
      (SDA released) exactly when `last` is set (UM10204 section 3.1.6). */
  lemma GetWaveDecodes(bits: seq<bool>, last: bool, l: Line)
    requires Low(l)
    ensures Decode(GetWave(bits, last), l) == Clocks(Released(|bits|)) + [Clock(last)]
    ensures Final(GetWave(bits, last), l) == Line(true, false, false)
  {
    var r := Line(true, false, false);
    var head: seq<Pin> := [Sda(true), Scl(false)];
    var tail: seq<Pin> := [Sda(last)] + Toggle + [Sda(true)];
    assert GetWave(bits, last) == head + (SampleBits(bits) + tail);
    DecodeAppend(head, SampleBits(bits) + tail, l);
    assert head == [Sda(true)] + [Scl(false)];
    DecodeCons(Sda(true), [Scl(false)], l);
    DecodeCons(Scl(false), [], StepLine(Sda(true), l));
    SampleBitsDecodes(bits);
    DecodeAppend(SampleBits(bits), tail, r);
    BitDecodes(last, r);
    DecodeAppend([Sda(last)] + Toggle, [Sda(true)], r);
    DecodeCons(Sda(true), [], Line(last, false, false));
  }

  /** A one-byte write transaction from an idle bus, as the bridge runs it
      for an address that acknowledges and a message of zero length: START,
      the address byte, the acknowledge clock, STOP. */
  lemma AddressOnlyTransaction(a: Byte, ackLevel: bool)
    ensures Decode(StartWave + PutWave(a, ackLevel) + StopWave, Idle)
         == [StartCondition] + Clocks(MsbBits(a)) + [Clock(true), StopCondition]
    ensures Final(StartWave + PutWave(a, ackLevel) + StopWave, Idle) == Idle
  {
    StartDecodes();
    var l1 := Final(StartWave, Idle);
    PutWaveDecodes(a, ackLevel, l1);
    var l2 := Final(PutWave(a, ackLevel), l1);
    StopDecodes(l2);
    DecodeAppend(StartWave, PutWave(a, ackLevel), Idle);
    DecodeAppend(StartWave + PutWave(a, ackLevel), StopWave, Idle);
  }

  /** Each of `bits` is the level SDA had when sampled on its own clock,
      the clocks following `ready` as SampleBits lays them out. */
  ghost predicate SampledOn(ready: seq<Pin>, bits: seq<bool>, sda: seq<Pin> -> bool)
  {
    forall k :: 0 <= k < |bits| ==> bits[k] == sda(ready + SampleBits(bits[..k]) + [Scl(true)])
  }

  lemma SampledOnSnoc(ready: seq<Pin>, bits: seq<bool>, c: bool, sda: seq<Pin> -> bool)
    requires SampledOn(ready, bits, sda)
    requires c == sda(ready + SampleBits(bits) + [Scl(true)])
    ensures SampledOn(ready, bits + [c], sda)
  {
    var q := bits + [c];
    forall k | 0 <= k < |q|
      ensures q[k] == sda(ready + SampleBits(q[..k]) + [Scl(true)])
    {
      if k < |bits| {
        assert q[..k] == bits[..k];
      } else {
        assert q[..k] == bits;
      }
    }
  }

  /** `b <<= 1; if (c) b |= 1;` on a byte holding fewer than eight bits
      appends c to them. */
  lemma ShiftInBit(got: seq<bool>, c: bool)
    requires |got| < 8
    ensures FromMsbBits(got) < 0x80
    ensures FromMsbBits(got + [c]) == (FromMsbBits(got) * 2) % 0x100 + (if c then 1 else 0)
  {
    var f := FromMsbBits(got);
    FromMsbBitsBound(got);
    Pow2Mono(|got|, 7);
    assert Pow2(3) == 8 && Pow2(5) == 32 && Pow2(7) == 128;
    assert f < 0x80;
    assert (got + [c])[..|got|] == got;
    assert FromMsbBits(got + [c]) == 2 * f + (if c then 1 else 0);
    var g := f * 2;
    assert 0 <= g < 0x100;
    assert g % 0x100 == g;
  }

  // ---------------------------------------------------------------------

  /** The master: the pin trace it has produced and the routines it has run.
      `sda` is the level SDA has when the master samples it after a given
      history (the slave's part of the conversation). */
  class Master {
    var pins: seq<Pin>
    ghost var events: seq<Event>
    const sda: seq<Pin> -> bool

    /** i2c_init: nothing has happened on the lines yet. */
    constructor (slave: seq<Pin> -> bool)
      ensures pins == [] && events == [] && sda == slave
    {
      pins := [];
      events := [];
      sda := slave;
    }

    /** i2c_io_set_sda */
    method SetSda(hi: bool)
      modifies this`pins
      ensures pins == old(pins) + [Sda(hi)] && events == old(events)
    {
      pins := pins + [Sda(hi)];
    }

    /** i2c_io_set_scl; the clock-stretch wait returns once SCL is high. */
    method SetScl(hi: bool)
      modifies this`pins
      ensures pins == old(pins) + [Scl(hi)] && events == old(events)
    {
      pins := pins + [Scl(hi)];
    }

    /** i2c_io_get_sda */
    method GetSda() returns (hi: bool)
      modifies this`pins
      ensures hi == sda(old(pins))
      ensures pins == old(pins) + [Sample(hi)] && events == old(events)
    {
      hi := sda(pins);
      pins := pins + [Sample(hi)];
    }

    /** i2c_scl_toggle */
    method SclToggle()
      modifies this`pins
      ensures pins == old(pins) + Toggle && events == old(events)
    {
      SetScl(true);
      SetScl(false);
    }

    /** i2c_start */
    method Start()
      modifies this`pins, this`events
      ensures pins == old(pins) + StartWave && events == old(events) + [Event.Start]
    {
      SetSda(false);
      SetScl(false);
      events := events + [Event.Start];
    }

    /** i2c_repstart */
    method RepStart()
      modifies this`pins, this`events
      ensures pins == old(pins) + RepStartWave && events == old(events) + [Event.RepStart]
    {
      SetSda(true);
      SetScl(true);
      SetSda(false);
      SetScl(false);
      events := events + [Event.RepStart];
    }

    /** i2c_stop */
    method Stop()
      modifies this`pins, this`events
      ensures pins == old(pins) + StopWave && events == old(events) + [Event.Stop]
    {
      SetSda(false);
      SetScl(true);
      SetSda(true);
      events := events + [Event.Stop];
    }

    /** The bit loop of i2c_put_u08: each bit of b on SDA, MSB first, with a
        clock pulse. */
    method ShiftOut(b: Byte)
      modifies this`pins
      ensures pins == old(pins) + DriveBits(MsbBits(b)) && events == old(events)
    {
      var i := 8;
      while i > 0
        invariant 0 <= i <= 8 && events == old(events)
        invariant pins == old(pins) + DriveBits(MsbBits(b)[..8 - i])
      {
        i := i - 1;
        ToBitsAt(b, 8, i);
        assert MsbBits(b)[..8 - i] == MsbBits(b)[..7 - i] + [Bit(b, i)];
        DriveBitsSnoc(MsbBits(b)[..7 - i], Bit(b, i));
        SetSda(Bit(b, i));
        SclToggle();
      }
      assert MsbBits(b)[..8] == MsbBits(b);
    }

    /** i2c_put_u08: shift b out MSB first, then read the acknowledge bit on
        the ninth clock; `ack` holds when the slave pulled SDA low. */
    method PutU08(b: Byte) returns (ack: bool)
      modifies this`pins, this`events
      ensures pins == old(pins) + PutWave(b, !ack)
      ensures ack <==> !sda(old(pins) + DriveBits(MsbBits(b)) + [Sda(true), Scl(true)])
      ensures events == old(events) + [Write(b, ack)]
    {
      ghost var start := pins;
      ShiftOut(b);
      SetSda(true);
      SetScl(true);
      assert pins == start + DriveBits(MsbBits(b)) + [Sda(true), Scl(true)];
      var level := GetSda();
      SetScl(false);
      ack := !level;
      assert pins == start + PutWave(b, level);
      events := events + [Write(b, ack)];
    }

    /** One turn of the bit loop of i2c_get_u08: a clock pulse with SDA
        sampled while SCL is high. */
    method ClockIn() returns (c: bool)
      modifies this`pins
      ensures c == sda(old(pins) + [Scl(true)])
      ensures pins == old(pins) + [Scl(true), Sample(c), Scl(false)]
    {
      SetScl(true);
      c := GetSda();
      SetScl(false);
    }

    /** The bit loop of i2c_get_u08: eight clocks, sampling SDA on each and
        shifting the level into the result from the right. */
    method ShiftIn() returns (b: Byte)
      modifies this`pins
      ensures pins == old(pins) + SampleBits(MsbBits(b)) && events == old(events)
      ensures SampledOn(old(pins), MsbBits(b), sda)
    {
      b := 0;
      var i := 0;
      ghost var got: seq<bool> := [];
      while i < 8
        invariant 0 <= i <= 8 && |got| == i && events == old(events)
        invariant b == FromMsbBits(got)
        invariant pins == old(pins) + SampleBits(got)
        invariant SampledOn(old(pins), got, sda)
      {
        var c := ClockIn();
        ShiftInBit(got, c);
        b := (b * 2) % 0x100;
        if c { b := b + 1; }
        SampleBitsSnoc(got, c);
        assert pins == old(pins) + (SampleBits(got) + [Scl(true), Sample(c), Scl(false)]);
        SampledOnSnoc(old(pins), got, c, sda);
        got := got + [c];
        i := i + 1;
      }
      BitsByteRoundTrip(got);
    }

    /** i2c_get_u08: clock eight bits in MSB first, then acknowledge, or not
        when `last` is set. Bit k of the result, counted from the MSB, is the
        level SDA had on the k-th clock. */
    method GetU08(last: bool) returns (b: Byte)
      modifies this`pins, this`events
      ensures pins == old(pins) + GetWave(MsbBits(b), last)
      ensures SampledOn(old(pins) + [Sda(true), Scl(false)], MsbBits(b), sda)
      ensures events == old(events) + [Read(last, b)]
    {
      ghost var start := pins;
      SetSda(true);
      SetScl(false);
      assert pins == start + [Sda(true), Scl(false)];
      b := ShiftIn();
      ghost var bits := MsbBits(b);
      ghost var shifted := pins;
      SetSda(last);
      SclToggle();
      SetSda(true);
      assert pins == shifted + ([Sda(last)] + Toggle + [Sda(true)]);
      GetWaveParts(start, bits, last);
      events := events + [Read(last, b)];
    }
  }
}
