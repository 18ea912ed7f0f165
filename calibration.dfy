/** The board-specific part of the Digispark build: the RC oscillator is
    calibrated against the USB frame length after every bus reset, the result
    is kept in EEPROM for the next power-up, and a three-digit serial number
    is kept in EEPROM as well. */
module Digispark {
  import opened Bytes

  /** `int` on the AVR */
  type Int16 = i: int | -0x8000 <= i < 0x8000

  /** The measurement never falls as the trim value rises. */
  ghost predicate Monotone(m: Byte -> nat)
  {
    forall a: Byte, b: Byte :: a <= b ==> m(a) <= m(b)
  }

  /** The trims the neighbourhood pass measures: trial - 1, trial and
      trial + 1, as far as they are trims at all. */
  function Cands(trial: Byte): (cs: seq<Byte>)
    ensures trial in cs && |cs| <= 3
    ensures forall j :: 0 <= j < |cs| ==> trial - 1 <= cs[j] <= trial + 1
  {
    (if trial >= 1 then [trial - 1] else []) + [trial] + (if trial <= 254 then [trial + 1] else [])
  }

  /** The trims v with lo <= v < hi, in ascending order. */
  function Between(lo: int, hi: int): (vs: seq<Byte>)
    decreases hi - lo
  {
    if hi <= lo then []
    else if 0 <= hi - 1 < 0x100 then Between(lo, hi - 1) + [hi - 1]
    else Between(lo, hi - 1)
  }

  lemma CandsBetween(trial: Byte)
    ensures Between(trial - 1, trial + 2) == Cands(trial)
  {
    var lo := trial - 1;
    assert Between(lo, trial) == (if trial >= 1 then [trial - 1] else []);
    assert Between(lo, trial + 1) == Between(lo, trial) + [trial];
    assert Between(lo, trial + 2) == Between(lo, trial + 1) + (if trial <= 254 then [trial + 1] else []);
  }

  // ---------------------------------------------------------------------
  // The neighbourhood loop as the C code evaluates it, on the 8-bit OSCCAL
  // register: `for (OSCCAL = t - 1; OSCCAL <= t + 1; OSCCAL++)`.

  function LoopStart(t: Byte): Byte { (t - 1) % 0x100 }

  /** The test compares the register with the promoted int t + 1. */
  predicate LoopTest(o: Byte, t: Byte) { o <= t + 1 }

  function LoopNext(o: Byte): Byte { (o + 1) % 0x100 }

  /** The register values the loop body runs with, in at most `fuel` turns. */
  function Visits(t: Byte, o: Byte, fuel: nat): seq<Byte>
    decreases fuel
  {
    if fuel == 0 || !LoopTest(o, t) then [] else [o] + Visits(t, LoopNext(o), fuel - 1)
  }

  /** For trial values 254 and 255 the test holds for every register value,
      so the loop body runs any number of times: the pass does not end. */
  lemma {:induction false} AsWrittenNeverEnds(t: Byte, o: Byte, n: nat)
    requires t >= 254
    ensures |Visits(t, o, n)| == n
    decreases n
  {
    if n > 0 {
      AsWrittenNeverEnds(t, LoopNext(o), n - 1);
    }
  }

  /** For trial 0 the start wraps to 255 and nothing is measured. */
  lemma AsWrittenSkipsZero(fuel: nat)
    ensures Visits(0, LoopStart(0), fuel) == []
    ensures Cands(0) == [0, 1]
  {
  }

  /** Between those edges the loop measures exactly the three neighbours,
      which is what the corrected pass does for every trial. */
  lemma AsWrittenAgrees(t: Byte, fuel: nat)
    requires 1 <= t <= 253 && fuel >= 4
    ensures Visits(t, LoopStart(t), fuel) == Cands(t)
  {
    var o := LoopStart(t);
    assert o == t - 1 && LoopNext(o) == t && LoopNext(t) == t + 1 && LoopNext(t + 1) == t + 2;
    assert Visits(t, t + 2, fuel - 3) == [];
    assert Visits(t, t + 1, fuel - 2) == [t + 1];
    assert Visits(t, t, fuel - 1) == [t, t + 1];
  }

  // ---------------------------------------------------------------------

  /** EEPROM address of the serial number digits */
  const SerialAddr := 32

  const DefaultSerial: seq<Byte> := ['1' as int, '1' as int, '3' as int]

  /** A byte read into a `char`, which is signed on the AVR. */
  function SignedChar(b: Byte): int
  {
    if b >= 0x80 then b - 0x100 else b
  }

  /** The digit test on a signed char accepts exactly the ASCII digits. */
  lemma SignedDigit(b: Byte)
    ensures 48 <= SignedChar(b) <= 57 <==> '0' as int <= b <= '9' as int
  {
  }

  predicate IsDigit(b: Byte) { '0' as int <= b <= '9' as int }

  /** The OSCCAL value the start-up code leaves: the stored calibration,
      unless the cell reads 0xFF (erased). */
  function BootTrim(stored: Byte, osccal0: Byte): Byte
  {
    if stored != 0xff then stored else osccal0
  }

  /** A trim stored after a bus reset comes back at the next power-up, except
      the trim 0xFF itself, which reads as an erased cell. */
  lemma TrimSurvivesReset(e: map<nat, Byte>, c: Byte, osccal0: Byte)
    ensures BootTrim(e[0 := c][0], osccal0) == c <==> c != 0xff || osccal0 == 0xff
  {
  }

  class Board {
    /** the oscillator calibration register */
    var osccal: Byte
    /** EEPROM cells written so far; the others read 0xFF */
    var eeprom: map<nat, Byte>
    /** usbDescriptorStringSerialNumber: header and three characters */
    const serial: array<Int16>
    /** usbMeasureFrameLength for each OSCCAL setting */
    const frameLength: Byte -> nat
    /** the OSCCAL values measured, in order */
    ghost var measured: seq<Byte>

    constructor (m: Byte -> nat, cells: map<nat, Byte>, osccal0: Byte)
      ensures frameLength == m && eeprom == cells && osccal == osccal0 && measured == []
      ensures fresh(serial) && serial.Length == 4 && serial[0] == 2 * 3 + 2 + 0x300
    {
      frameLength := m;
      eeprom := cells;
      osccal := osccal0;
      measured := [];
      serial := new Int16[4](i => if i == 0 then 2 * 3 + 2 + 0x300 else 0);
    }

    function Cell(a: nat): Byte
      reads this
    {
      if a in eeprom then eeprom[a] else 0xff
    }

    /** |usbMeasureFrameLength() - targetValue| at trim o */
    function Dev(o: Byte, target: int): nat
    {
      if frameLength(o) >= target then frameLength(o) - target else target - frameLength(o)
    }

    /** Index k of Cands chosen by the neighbourhood pass, -1 for none: the
        first candidate with the smallest deviation, if that is below x0. */
    ghost predicate Chosen(cs: seq<Byte>, target: int, x0: int, k: int)
    {
      -1 <= k < |cs|
      && (k == -1 ==> forall j :: 0 <= j < |cs| ==> Dev(cs[j], target) >= x0)
      && (k >= 0 ==>
            Dev(cs[k], target) < x0
            && (forall j :: 0 <= j < |cs| ==> Dev(cs[j], target) >= Dev(cs[k], target))
            && (forall j :: 0 <= j < k ==> Dev(cs[j], target) > Dev(cs[k], target)))
    }

    /** The binary search of calibrateOscillator: eight probes trial + step
        for step = 128, 64, ..., 1, keeping a step when the frequency is
        still too low. Returns the trial and the last measurement. */
    method BinarySearch(target: int) returns (trial: Byte, x: nat)
      modifies this`osccal, this`measured
      ensures |measured| == |old(measured)| + 8 && measured[..|old(measured)|] == old(measured)
      ensures osccal == measured[|measured| - 1] && x == frameLength(osccal)
      ensures trial == 0 || (frameLength(trial) < target && trial in measured[|old(measured)|..])
      ensures Monotone(frameLength) ==> forall v: Byte :: 1 <= v && frameLength(v) < target ==> v <= trial
    {
      ghost var m0 := measured;
      var step: Byte := 128;
      trial := 0;
      ghost var width: nat := 256;
      ghost var i := 0;
      x := 0;
      assert Pow2(2) == 4 && Pow2(4) == 16 && Pow2(6) == 64 && Pow2(8) == 256;
      while step > 0
        invariant 0 <= i <= 8 && width == Pow2(8 - i) && step == width / 2
        invariant trial + width <= 256
        invariant |measured| == |m0| + i && measured[..|m0|] == m0
        invariant i > 0 ==> osccal == measured[|measured| - 1] && x == frameLength(osccal)
        invariant trial == 0 || (frameLength(trial) < target && trial in measured[|m0|..])
        invariant Monotone(frameLength) ==> forall v: Byte :: 1 <= v && frameLength(v) < target ==> v < trial + width
        decreases step
      {
        Pow2Mono(1, 8 - i);
        ghost var probes := measured[|m0|..];
        osccal := trial + step;
        measured := measured + [osccal];
        assert measured[|m0|..] == probes + [osccal];
        x := frameLength(osccal);
        if x < target {
          trial := trial + step;
        }
        step := step / 2;
        width, i := width / 2, i + 1;
      }
    }

    /** Adding one measured candidate to the pass: it becomes the choice
        exactly when its deviation is below the best one so far. */
    lemma ChosenExtend(cs: seq<Byte>, target: int, x0: int, k: int, o: Byte)
      requires Chosen(cs, target, x0, k)
      ensures Dev(o, target) < (if k == -1 then x0 else Dev(cs[k], target)) ==>
        Chosen(cs + [o], target, x0, |cs|)
      ensures Dev(o, target) >= (if k == -1 then x0 else Dev(cs[k], target)) ==>
        Chosen(cs + [o], target, x0, k)
    {
      var cs' := cs + [o];
      assert forall j :: 0 <= j < |cs| ==> cs'[j] == cs[j];
    }

    /** The state of the neighbourhood pass before the trim `o`: the choice
        among the trims passed so far, the trim it names and its deviation. */
    ghost predicate Pass(trial: Byte, o: int, target: int, x0: int, k: int, opt: Byte, best: int)
    {
      var cs := Between(trial - 1, o);
      Chosen(cs, target, x0, k)
      && opt == (if k == -1 then trial else cs[k])
      && best == (if k == -1 then x0 else Dev(opt, target))
    }

    /** One turn of the pass over a trim in range. */
    lemma PassStep(trial: Byte, o: Byte, target: int, x0: int, k: int, opt: Byte, best: int)
      requires trial - 1 <= o && Pass(trial, o, target, x0, k, opt, best)
      ensures Dev(o, target) < best ==>
        Pass(trial, o + 1, target, x0, |Between(trial - 1, o)|, o, Dev(o, target))
      ensures Dev(o, target) >= best ==> Pass(trial, o + 1, target, x0, k, opt, best)
    {
      var cs := Between(trial - 1, o);
      assert Between(trial - 1, o + 1) == cs + [o];
      ChosenExtend(cs, target, x0, k, o);
    }

    /** The neighbourhood pass over Cands(trial), starting from the deviation
        bound x0; a candidate replaces the choice only when strictly better. */
    method Neighbourhood(target: int, trial: Byte, x0: int) returns (opt: Byte, ghost k: int)
      modifies this`osccal, this`measured
      ensures measured == old(measured) + Cands(trial)
      ensures Chosen(Cands(trial), target, x0, k)
      ensures opt == if k == -1 then trial else Cands(trial)[k]
    {
      var o: int := trial - 1;
      opt := trial;
      var best := x0;
      k := -1;
      while o <= trial + 1
        invariant trial - 1 <= o <= trial + 2
        invariant measured == old(measured) + Between(trial - 1, o)
        invariant Pass(trial, o, target, x0, k, opt, best)
        decreases trial + 2 - o
      {
        if 0 <= o < 0x100 {
          osccal := o;
          measured := measured + [osccal];
          var d := frameLength(osccal) - target;
          if d < 0 {
            d := -d;
          }
          PassStep(trial, o, target, x0, k, opt, best);
          if d < best {
            best := d;
            opt := o;
            k := |Between(trial - 1, o)|;
          }
        }
        o := o + 1;
      }
      CandsBetween(trial);
    }

    /** calibrateOscillator */
    method CalibrateOscillator(target: int) returns (trial: Byte, ghost k: int)
      modifies this`osccal, this`measured
      ensures |measured| == |old(measured)| + 8 + |Cands(trial)|
      ensures measured[..|old(measured)| + 8][..|old(measured)|] == old(measured)
      ensures measured[|old(measured)| + 8..] == Cands(trial)
      ensures Monotone(frameLength) ==>
        (trial == 0 || frameLength(trial) < target)
        && forall v: Byte :: 1 <= v && frameLength(v) < target ==> v <= trial
      ensures Chosen(Cands(trial), target, frameLength(measured[|old(measured)| + 7]), k)
      ensures osccal == if k == -1 then trial else Cands(trial)[k]
    {
      var x;
      trial, x := BinarySearch(target);
      ghost var probes := measured;
      var opt;
      opt, k := Neighbourhood(target, trial, x);
      assert measured[..|probes|] == probes;
      osccal := opt;
    }

    /** usbEventResetReady: calibrate and store the result at address 0. */
    method UsbEventResetReady(target: int) returns (ghost trial: Byte, ghost k: int)
      modifies this`osccal, this`measured, this`eeprom
      ensures eeprom == old(eeprom)[0 := osccal] && Cell(0) == osccal
      ensures |measured| == |old(measured)| + 8 + |Cands(trial)|
      ensures Chosen(Cands(trial), target, frameLength(measured[|old(measured)| + 7]), k)
      ensures osccal == if k == -1 then trial else Cands(trial)[k]
      ensures Monotone(frameLength) ==>
        forall v: Byte :: 1 <= v && frameLength(v) < target ==> v <= trial
    {
      trial, k := CalibrateOscillator(target);
      eeprom := eeprom[0 := osccal];
    }

    /** The first step of main: the stored calibration is applied unless the
        cell is erased. */
    method LoadCalibration()
      modifies this`osccal
      ensures osccal == BootTrim(Cell(0), old(osccal))
    {
      var c := Cell(0);
      if c != 0xff {
        osccal := c;
      }
    }

    /** initSerialNumber */
    method InitSerialNumber()
      requires serial.Length == 4
      modifies this`eeprom, serial
      ensures forall a :: SerialAddr <= a < SerialAddr + 3 ==> IsDigit(Cell(a))
      ensures (forall a :: SerialAddr <= a < SerialAddr + 3 ==> IsDigit(old(Cell(a)))) ==>
        eeprom == old(eeprom)
      ensures !(forall a :: SerialAddr <= a < SerialAddr + 3 ==> IsDigit(old(Cell(a)))) ==>
        eeprom == old(eeprom)[SerialAddr := DefaultSerial[0]][SerialAddr + 1 := DefaultSerial[1]]
                  [SerialAddr + 2 := DefaultSerial[2]]
      ensures serial[0] == old(serial[0])
      ensures forall i :: 1 <= i < 4 ==> serial[i] == Cell(SerialAddr + i - 1)
    {
      var v1 := SignedChar(Cell(SerialAddr));
      var v2 := SignedChar(Cell(SerialAddr + 1));
      var v3 := SignedChar(Cell(SerialAddr + 2));
      SignedDigit(Cell(SerialAddr));
      SignedDigit(Cell(SerialAddr + 1));
      SignedDigit(Cell(SerialAddr + 2));
      var problem := false;
      if v1 < 48 || v1 > 57 {
        problem := true;
      } else if v2 < 48 || v2 > 57 {
        problem := true;
      } else if v3 < 48 || v3 > 57 {
        problem := true;
      }
      if problem {
        eeprom := eeprom[SerialAddr := DefaultSerial[0]];
        eeprom := eeprom[SerialAddr + 1 := DefaultSerial[1]];
        eeprom := eeprom[SerialAddr + 2 := DefaultSerial[2]];
      }
      serial[1] := Cell(SerialAddr);
      serial[2] := Cell(SerialAddr + 1);
      serial[3] := Cell(SerialAddr + 2);
    }
  }
}
