/**
 Bytes, addresses, hashes and the big-endian integer encodings that the
 permit digest and the balance reads are built from.

 Go's `*big.Int` is modelled by `nat` (every value the program feeds these
 encodings is non-negative), `[]byte` by `Bytes`, `common.Address` by a
 20-byte `Address` and `[32]byte`/`common.Hash` by a 32-byte `Hash`.
 */
module Common {

  datatype Option<+T> = None | Some(value: T) {
    function GetOr(default: T): T {
      match this
      case Some(v) => v
      case None => default
    }
  }

  datatype Result<+T, +E> = Ok(value: T) | Err(error: E)

  type Byte = b: int | 0 <= b < 256
  type Bytes = seq<Byte>

  function Zeros(n: nat): (z: Bytes)
    ensures |z| == n
    ensures forall i :: 0 <= i < n ==> z[i] == 0
  {
    seq(n, i => 0)
  }

  type Address = a: Bytes | |a| == 20 witness Zeros(20)
  type Hash = h: Bytes | |h| == 32 witness Zeros(32)

  const ZeroAddress: Address := Zeros(20)
  const ZeroHash: Hash := Zeros(32)

  function Pow(base: nat, e: nat): nat {
    if e == 0 then 1 else base * Pow(base, e - 1)
  }

  /** 2^256, one more than the largest uint256. */
  const TwoTo256: nat := 115792089237316195423570985008687907853269984665640564039457584007913129639936

  /** 2^256 - 1, the largest uint256 (`1 << 256 - 1`). */
  const MaxUint256: nat := TwoTo256 - 1

  /** The unsigned big-endian value of a byte string. */
  function BytesToNat(s: Bytes): nat {
    if |s| == 0 then 0 else s[0] * Pow(256, |s| - 1) + BytesToNat(s[1..])
  }

  /**
   `big.Int.Bytes()` for a non-negative value: the minimal big-endian
   encoding, empty for zero.
   */
  function NatToMinimalBytes(n: nat): Bytes
    decreases n
  {
    if n == 0 then [] else NatToMinimalBytes(n / 256) + [n % 256]
  }

  /**
   `common.LeftPadBytes(s, l)`: zeros in front up to length `l`; a slice that
   is already at least `l` long is returned unchanged (not truncated).
   */
  function LeftPadBytes(s: Bytes, l: nat): (r: Bytes)
    ensures |r| == if l <= |s| then |s| else l
  {
    if l <= |s| then s else Zeros(l - |s|) + s
  }

  /** `common.LeftPadBytes(x.Bytes(), 32)`: the 32-byte ABI word of `x`. */
  function Word(x: nat): Bytes {
    LeftPadBytes(NatToMinimalBytes(x), 32)
  }

  /** The numeric value of an address, the order the pool manager compares currencies by. */
  function AddressValue(a: Address): nat {
    BytesToNat(a)
  }

  /**
   `[]byte(s)` for the strings the program hashes: the low byte of each
   character, which for an ASCII character is its UTF-8 encoding.
   */
  function Ascii(s: string): (b: Bytes)
    ensures |b| == |s|
    ensures forall i :: 0 <= i < |s| && s[i] as int < 128 ==> b[i] == s[i] as int
  {
    seq(|s|, i requires 0 <= i < |s| => s[i] as int % 256)
  }

  // ---------------------------------------------------------------------
  // Properties of the encodings
  // ---------------------------------------------------------------------

  lemma PowPositive(base: nat, e: nat)
    requires base > 0
    ensures Pow(base, e) > 0
  {
    if e > 0 {
      PowPositive(base, e - 1);
    }
  }

  lemma {:induction false} PowAdd(base: nat, a: nat, b: nat)
    ensures Pow(base, a + b) == Pow(base, a) * Pow(base, b)
  {
    if a > 0 {
      PowAdd(base, a - 1, b);
    }
  }

  /** A byte string of length k encodes a value below 256^k. */
  lemma {:induction false} BytesToNatBound(s: Bytes)
    ensures BytesToNat(s) < Pow(256, |s|)
  {
    if |s| > 0 {
      var p := Pow(256, |s| - 1);
      BytesToNatBound(s[1..]);
      assert BytesToNat(s) == s[0] * p + BytesToNat(s[1..]);
      var h: nat := s[0];
      MulMonotone(h + 1, 256, p);
      assert BytesToNat(s) < (s[0] + 1) * p;
    }
  }

  lemma MulMonotone(a: nat, b: nat, p: nat)
    requires a <= b
    ensures a * p <= b * p
  {
  }

  /** Leading zero bytes do not change the value. */
  lemma {:induction false} ZerosPrefixValue(k: nat, s: Bytes)
    ensures BytesToNat(Zeros(k) + s) == BytesToNat(s)
  {
    if k > 0 {
      var t := Zeros(k) + s;
      assert t[0] == 0;
      assert t[1..] == Zeros(k - 1) + s;
      assert BytesToNat(t) == BytesToNat(t[1..]);
      ZerosPrefixValue(k - 1, s);
    } else {
      assert Zeros(k) + s == s;
    }
  }

  /** Appending a byte at the low end shifts the value by one byte. */
  lemma {:induction false} BytesToNatAppend(s: Bytes, b: Byte)
    ensures BytesToNat(s + [b]) == BytesToNat(s) * 256 + b
  {
    if |s| == 0 {
      assert [] + [b] == [b];
      assert [b][1..] == [];
    } else {
      var t := s + [b];
      assert t[1..] == s[1..] + [b];
      BytesToNatAppend(s[1..], b);
      assert Pow(256, |t| - 1) == Pow(256, |s| - 1) * 256 by {
        PowAdd(256, |s| - 1, 1);
      }
      calc {
        BytesToNat(t);
        s[0] * Pow(256, |s|) + BytesToNat(s[1..]) * 256 + b;
        { assert Pow(256, |s|) == Pow(256, |s| - 1) * 256; }
        (s[0] * Pow(256, |s| - 1) + BytesToNat(s[1..])) * 256 + b;
      }
    }
  }

  /** Decoding the minimal encoding gives the value back. */
  lemma {:induction false} MinimalBytesRoundTrip(n: nat)
    ensures BytesToNat(NatToMinimalBytes(n)) == n
    decreases n
  {
    if n > 0 {
      MinimalBytesRoundTrip(n / 256);
      BytesToNatAppend(NatToMinimalBytes(n / 256), n % 256);
    }
  }

  /** The approval amount `1 << 256 - 1` is 2^256 - 1. */
  lemma MaxUint256IsPowMinusOne()
    ensures MaxUint256 + 1 == Pow(2, 256)
  {
    var p8 := Pow(2, 8);
    assert p8 == 256;
    PowAdd(2, 8, 8);
    var p16 := Pow(2, 16);
    assert p16 == 65536;
    PowAdd(2, 16, 16);
    var p32 := Pow(2, 32);
    assert p32 == 4294967296;
    PowAdd(2, 32, 32);
    var p64 := Pow(2, 64);
    assert p64 == 18446744073709551616;
    PowAdd(2, 64, 64);
    var p128 := Pow(2, 128);
    assert p128 == 340282366920938463463374607431768211456;
    PowAdd(2, 128, 128);
  }

  /** A value below 256^k needs at most k bytes. */
  lemma {:induction false} MinimalBytesLength(n: nat, k: nat)
    requires n < Pow(256, k)
    ensures |NatToMinimalBytes(n)| <= k
    decreases n
  {
    if n > 0 {
      assert k > 0;
      assert n / 256 < Pow(256, k - 1);
      MinimalBytesLength(n / 256, k - 1);
    }
  }

  /**
   Every uint256 value occupies exactly one 32-byte word and decodes back
   from it.
   */
  lemma WordRoundTrip(x: nat)
    requires x <= MaxUint256
    ensures |Word(x)| == 32
    ensures BytesToNat(Word(x)) == x
  {
    Pow256Words();
    MinimalBytesLength(x, 32);
    var m := NatToMinimalBytes(x);
    assert Word(x) == Zeros(32 - |m|) + m;
    ZerosPrefixValue(32 - |m|, m);
    MinimalBytesRoundTrip(x);
  }

  lemma Pow256Words()
    ensures Pow(256, 32) == TwoTo256
  {
    assert Pow(256, 4) == 4294967296;
    PowAdd(256, 4, 4);
    PowAdd(256, 8, 8);
    PowAdd(256, 16, 16);
  }

  /**
   For byte strings of equal length, a smaller first byte means a smaller
   value: the big-endian comparison the pool manager applies to currencies.
   */
  lemma FirstByteDecides(a: Bytes, b: Bytes)
    requires |a| == |b| > 0
    requires a[0] < b[0]
    ensures BytesToNat(a) < BytesToNat(b)
  {
    var p := Pow(256, |a| - 1);
    BytesToNatBound(a[1..]);
    assert BytesToNat(a) < a[0] * p + p;
    assert (a[0] + 1) * p <= b[0] * p;
  }

  lemma {:induction false} PowMonotone(base: nat, i: nat, j: nat)
    requires base > 0 && i <= j
    ensures Pow(base, i) <= Pow(base, j)
    decreases j
  {
    if i < j {
      PowMonotone(base, i, j - 1);
      PowPositive(base, j - 1);
    }
  }

  /** The bounds of the 24-bit fields of a pool key (uint24 fee, int24 tick spacing and ticks). */
  lemma Int24Bounds()
    ensures Pow(2, 23) == 8388608 && Pow(2, 24) == 16777216
  {
    assert Pow(2, 8) == 256;
    PowAdd(2, 8, 8);
    PowAdd(2, 16, 7);
    assert Pow(2, 7) == 128;
    PowAdd(2, 16, 8);
  }

  /** 2^128, the bound 128-bit amounts such as 10^20 stay under, is below 2^255. */
  lemma TwoTo128()
    ensures Pow(2, 128) == 340282366920938463463374607431768211456
    ensures Pow(2, 128) <= Pow(2, 255)
  {
    TwoPowers();
    PowAdd(2, 64, 64);
    PowMonotone(2, 128, 255);
  }

  /** A value below 2^64 fits every integer width of at least 64 bits. */
  lemma FitsWidth(x: nat, bits: nat)
    requires 64 <= bits && x < 18446744073709551616
    ensures x < Pow(2, bits)
  {
    TwoPowers();
    PowMonotone(2, 64, bits);
  }

  /** The powers of two the ABI integer widths used here bound their values by. */
  lemma TwoPowers()
    ensures Pow(2, 8) == 256
    ensures Pow(2, 23) == 8388608
    ensures Pow(2, 24) == 16777216
    ensures Pow(2, 64) == 18446744073709551616
    ensures Pow(2, 96) == 79228162514264337593543950336
    ensures Pow(2, 64) <= Pow(2, 160)
    ensures Pow(2, 64) <= Pow(2, 255)
    ensures Pow(2, 256) == TwoTo256
  {
    assert Pow(2, 8) == 256;
    PowAdd(2, 8, 8);
    assert Pow(2, 16) == 65536;
    PowAdd(2, 16, 7);
    assert Pow(2, 7) == 128;
    PowAdd(2, 16, 8);
    PowAdd(2, 16, 16);
    PowAdd(2, 32, 32);
    PowAdd(2, 64, 32);
    PowMonotone(2, 64, 160);
    PowMonotone(2, 64, 255);
    MaxUint256IsPowMinusOne();
  }
}
