/** Machine integers of the AVR firmware and the bit-level helpers shared by
    the I2C master, the command bridge and the USB driver. */
module Bytes {

  /** `unsigned char` / `uint8_t` / `byte_t` */
  type Byte = b: int | 0 <= b < 0x100

  /** `unsigned short` / `uint16_t` */
  type Word = w: int | 0 <= w < 0x1_0000

  function Min(a: int, b: int): int { if a < b then a else b }

  function Pow2(n: nat): (p: nat)
    ensures p >= 1
  {
    if n == 0 then 1 else 2 * Pow2(n - 1)
  }

  lemma {:induction false} Pow2Mono(i: nat, n: nat)
    requires i <= n
    ensures Pow2(i) <= Pow2(n)
  {
    if i < n {
      Pow2Mono(i, n - 1);
    }
  }

  /** A 16-bit field stored least significant byte first (AVR byte order). */
  function LE16(lo: Byte, hi: Byte): Word { lo + 0x100 * hi }

  /** The C test `b & (1 << i)`: bit i of b. */
  predicate Bit(b: nat, i: nat) {
    if i == 0 then b % 2 == 1 else Bit(b / 2, i - 1)
  }

  /** The n low bits of b, most significant first. */
  function ToBits(b: nat, n: nat): (bits: seq<bool>)
    ensures |bits| == n
  {
    if n == 0 then [] else ToBits(b / 2, n - 1) + [b % 2 == 1]
  }

  /** The eight bits of a byte in the order I2C puts them on the wire. */
  function MsbBits(b: Byte): (bits: seq<bool>)
    ensures |bits| == 8
  {
    ToBits(b, 8)
  }

  /** The number whose bits, most significant first, are `bits`. */
  function FromMsbBits(bits: seq<bool>): nat
  {
    if bits == [] then 0
    else 2 * FromMsbBits(bits[..|bits| - 1]) + (if bits[|bits| - 1] then 1 else 0)
  }

  /** Position n-1-i of ToBits(b, n) is bit i of b: the first element is the
      most significant bit. */
  lemma {:induction false} ToBitsAt(b: nat, n: nat, i: nat)
    requires i < n
    ensures ToBits(b, n)[n - 1 - i] == Bit(b, i)
  {
    if i > 0 {
      ToBitsAt(b / 2, n - 1, i - 1);
    }
  }

  lemma {:induction false} FromMsbBitsBound(bits: seq<bool>)
    ensures FromMsbBits(bits) < Pow2(|bits|)
  {
    if bits != [] {
      FromMsbBitsBound(bits[..|bits| - 1]);
    }
  }

  /** Reading back the bits of a number recovers it. */
  lemma {:induction false} FromToBits(b: nat, n: nat)
    requires b < Pow2(n)
    ensures FromMsbBits(ToBits(b, n)) == b
  {
    if n > 0 {
      var s := ToBits(b, n);
      assert s[..n - 1] == ToBits(b / 2, n - 1);
      FromToBits(b / 2, n - 1);
    }
  }

  /** Splitting a number into bits recovers the bits. */
  lemma {:induction false} ToFromBits(bits: seq<bool>)
    ensures ToBits(FromMsbBits(bits), |bits|) == bits
  {
    if bits != [] {
      var init := bits[..|bits| - 1];
      ToFromBits(init);
      assert bits == init + [bits[|bits| - 1]];
    }
  }

  lemma ByteBitsRoundTrip(b: Byte)
    ensures FromMsbBits(MsbBits(b)) == b
  {
    FromToBits(b, 8);
  }

  lemma BitsByteRoundTrip(bits: seq<bool>)
    requires |bits| == 8
    ensures FromMsbBits(bits) < 0x100 && MsbBits(FromMsbBits(bits)) == bits
  {
    FromMsbBitsBound(bits);
    ToFromBits(bits);
  }

  function Zeros(n: nat): (z: seq<Byte>)
    ensures |z| == n && forall k :: 0 <= k < n ==> z[k] == 0
  {
    seq(n, _ => 0)
  }

  /** `s` with the bytes starting at `off` overwritten by `r`, as memcpy does. */
  function Splice(s: seq<Byte>, off: nat, r: seq<Byte>): (t: seq<Byte>)
    requires off + |r| <= |s|
    ensures |t| == |s|
    ensures t[off..off + |r|] == r
    ensures forall k :: 0 <= k < |s| && !(off <= k < off + |r|) ==> t[k] == s[k]
  {
    s[..off] + r + s[off + |r|..]
  }
}
