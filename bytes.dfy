/**
  The byte arithmetic behind JavaScript's DataView accessors: unsigned and
  two's-complement integers of 1, 2, 4 or 8 bytes in either byte order, and
  the decimal text that string concatenation produces for a length.
*/
module Bytes {

  type Byte = b: int | 0 <= b < 256

  /** 256 to the power w: the number of distinct values w bytes hold. */
  function Pow256(w: nat): (p: nat)
    ensures p >= 1
  {
    if w == 0 then 1 else 256 * Pow256(w - 1)
  }

  /** The widths, in bytes, of the DataView integer and float accessors. */
  predicate IsWidth(w: nat)
  {
    w == 1 || w == 2 || w == 4 || w == 8
  }

  lemma Pow256AtWidths()
    ensures Pow256(1) == 0x100 && Pow256(2) == 0x1_0000
    ensures Pow256(4) == 0x1_0000_0000 && Pow256(8) == 0x1_0000_0000_0000_0000
  {
  }

  /** Half the range of w bytes: the least value a signed w-byte integer cannot hold. */
  function Half(w: nat): int
  {
    Pow256(w) / 2
  }

  /** The w low-order bytes of n, least significant first. */
  function LittleEndian(n: nat, w: nat): (s: seq<Byte>)
    ensures |s| == w
  {
    if w == 0 then [] else [n % 256] + LittleEndian(n / 256, w - 1)
  }

  /** The w low-order bytes of n, most significant first. */
  function BigEndian(n: nat, w: nat): (s: seq<Byte>)
    ensures |s| == w
  {
    if w == 0 then [] else BigEndian(n / 256, w - 1) + [n % 256]
  }

  /** The unsigned number whose little-endian bytes are s. */
  function FromLittleEndian(s: seq<Byte>): (n: nat)
    ensures n < Pow256(|s|)
  {
    if s == [] then 0 else s[0] + 256 * FromLittleEndian(s[1..])
  }

  /** The unsigned number whose big-endian bytes are s. */
  function FromBigEndian(s: seq<Byte>): (n: nat)
    ensures n < Pow256(|s|)
  {
    if s == [] then 0 else 256 * FromBigEndian(s[..|s| - 1]) + s[|s| - 1]
  }

  /** The bytes a DataView write of the unsigned quantity n stores, in the given byte order. */
  function Store(n: nat, w: nat, littleEndian: bool): (s: seq<Byte>)
    ensures |s| == w
  {
    if littleEndian then LittleEndian(n, w) else BigEndian(n, w)
  }

  /** The unsigned quantity a DataView read of the bytes s yields, in the given byte order. */
  function Load(s: seq<Byte>, littleEndian: bool): (n: nat)
    ensures n < Pow256(|s|)
  {
    if littleEndian then FromLittleEndian(s) else FromBigEndian(s)
  }

  function Reversed<T>(s: seq<T>): (r: seq<T>)
    ensures |r| == |s|
  {
    if s == [] then [] else Reversed(s[1..]) + [s[0]]
  }

  /** JavaScript's ToUint8/16/32 and BigInt.asUintN(8 * w): v reduced modulo 256^w. */
  function ToUintN(v: int, w: nat): (r: nat)
    ensures r < Pow256(w)
    ensures 0 <= v < Pow256(w) ==> r == v
  {
    if 0 <= v < Pow256(w) then ModOfSmall(v, Pow256(w)); v % Pow256(w) else v % Pow256(w)
  }

  /** The two's-complement reading of the unsigned w-byte quantity u. */
  function AsSigned(u: nat, w: nat): (v: int)
    requires IsWidth(w) && u < Pow256(w)
    ensures -Half(w) <= v < Half(w)
    ensures v < 0 <==> u >= Half(w)
  {
    if u >= Half(w) then u - Pow256(w) else u
  }

  /** JavaScript's ToInt8/16/32 and BigInt.asIntN(8 * w): v reduced to a signed w-byte value. */
  function ToIntN(v: int, w: nat): (r: int)
    requires IsWidth(w)
    ensures -Half(w) <= r < Half(w)
  {
    AsSigned(ToUintN(v, w), w)
  }

  // ---------------------------------------------------------------------------
  // Modular arithmetic

  lemma ModOfSmall(v: int, p: int)
    requires p > 0 && -p <= v < p
    ensures v % p == if v < 0 then v + p else v
  {
  }

  /** A signed w-byte value is itself after ToIntN: the round trip of every signed accessor. */
  lemma ToIntNInRange(v: int, w: nat)
    requires IsWidth(w) && -Half(w) <= v < Half(w)
    ensures ToIntN(v, w) == v
  {
    Pow256AtWidths();
    ModOfSmall(v, Pow256(w));
  }

  /** Writing ToIntN(v) in two's complement stores the same bytes as writing v unsigned. */
  lemma SignedBitsAreUnsignedBits(v: int, w: nat)
    requires IsWidth(w)
    ensures ToUintN(ToIntN(v, w), w) == ToUintN(v, w)
  {
    Pow256AtWidths();
    var u := ToUintN(v, w);
    if u >= Half(w) {
      ModOfSmall(u - Pow256(w), Pow256(w));
    }
  }

  /** Reading back the bytes of ToUintN(v) as signed gives ToIntN(v). */
  lemma AsSignedOfUnsigned(v: int, w: nat)
    requires IsWidth(w)
    ensures AsSigned(ToUintN(v, w), w) == ToIntN(v, w)
  {
  }

  // ---------------------------------------------------------------------------
  // Byte orders

  lemma {:induction false} LittleEndianRoundTrip(n: nat, w: nat)
    requires n < Pow256(w)
    ensures FromLittleEndian(LittleEndian(n, w)) == n
  {
    if w > 0 {
      LittleEndianRoundTrip(n / 256, w - 1);
      assert LittleEndian(n, w)[1..] == LittleEndian(n / 256, w - 1);
    }
  }

  lemma {:induction false} BigEndianRoundTrip(n: nat, w: nat)
    requires n < Pow256(w)
    ensures FromBigEndian(BigEndian(n, w)) == n
  {
    if w > 0 {
      BigEndianRoundTrip(n / 256, w - 1);
      var s := BigEndian(n, w);
      assert s[..|s| - 1] == BigEndian(n / 256, w - 1);
    }
  }

  /** Appending a byte to m in base 256: the byte is the last digit and m the rest. */
  lemma DigitSplit(m: nat, b: Byte)
    ensures (256 * m + b) % 256 == b && (256 * m + b) / 256 == m
  {
  }

  /** Writing what was read reproduces the bytes (little-endian). */
  lemma {:induction false} LittleEndianOfLoaded(s: seq<Byte>)
    ensures LittleEndian(FromLittleEndian(s), |s|) == s
  {
    if s != [] {
      var n := FromLittleEndian(s);
      DigitSplit(FromLittleEndian(s[1..]), s[0]);
      LittleEndianOfLoaded(s[1..]);
      assert LittleEndian(n, |s|) == [s[0]] + LittleEndian(FromLittleEndian(s[1..]), |s| - 1);
    }
  }

  /** Writing what was read reproduces the bytes (big-endian). */
  lemma {:induction false} BigEndianOfLoaded(s: seq<Byte>)
    ensures BigEndian(FromBigEndian(s), |s|) == s
  {
    if s != [] {
      var n := FromBigEndian(s);
      var init := s[..|s| - 1];
      DigitSplit(FromBigEndian(init), s[|s| - 1]);
      BigEndianOfLoaded(init);
      assert BigEndian(n, |s|) == BigEndian(FromBigEndian(init), |s| - 1) + [s[|s| - 1]];
      assert s == init + [s[|s| - 1]];
    }
  }

  /** Store followed by Load in the same byte order returns the quantity stored. */
  lemma LoadStore(n: nat, w: nat, littleEndian: bool)
    requires n < Pow256(w)
    ensures Load(Store(n, w, littleEndian), littleEndian) == n
  {
    if littleEndian { LittleEndianRoundTrip(n, w); } else { BigEndianRoundTrip(n, w); }
  }

  /** Load followed by Store in the same byte order returns the bytes loaded. */
  lemma StoreLoad(s: seq<Byte>, littleEndian: bool)
    ensures Store(Load(s, littleEndian), |s|, littleEndian) == s
  {
    if littleEndian { LittleEndianOfLoaded(s); } else { BigEndianOfLoaded(s); }
  }

  /** The big-endian bytes of n are its little-endian bytes in reverse order. */
  lemma {:induction false} BigEndianIsReversedLittleEndian(n: nat, w: nat)
    ensures BigEndian(n, w) == Reversed(LittleEndian(n, w))
  {
    if w > 0 {
      BigEndianIsReversedLittleEndian(n / 256, w - 1);
      assert LittleEndian(n, w)[1..] == LittleEndian(n / 256, w - 1);
    }
  }

  /** The two-byte reads written out. */
  lemma LoadTwo(s: seq<Byte>)
    requires |s| == 2
    ensures FromLittleEndian(s) == s[0] + 0x100 * s[1] as int
    ensures FromBigEndian(s) == 0x100 * s[0] as int + s[1]
  {
    assert s[1..][1..] == [];
    assert s[..1][..0] == [];
  }

  /** The four-byte reads written out. */
  lemma LoadFour(s: seq<Byte>)
    requires |s| == 4
    ensures FromLittleEndian(s) == s[0] + 0x100 * s[1] as int + 0x1_0000 * s[2] as int + 0x100_0000 * s[3] as int
    ensures FromBigEndian(s) == 0x100_0000 * s[0] as int + 0x1_0000 * s[1] as int + 0x100 * s[2] as int + s[3]
  {
    LoadTwo(s[2..]);
    LoadTwo(s[..2]);
    assert s[1..][1..] == s[2..];
    assert s[..3][..2] == s[..2];
    assert FromLittleEndian(s) == s[0] + 0x100 * (s[1] + 0x100 * FromLittleEndian(s[2..]));
    assert FromBigEndian(s) == 0x100 * (0x100 * FromBigEndian(s[..2]) + s[2]) + s[3];
  }

  // ---------------------------------------------------------------------------
  // Decimal text of a length

  function Digit(d: int): (c: char)
    requires 0 <= d < 10
    ensures '0' <= c <= '9'
  {
    "0123456789"[d]
  }

  predicate IsDecimal(s: string)
  {
    forall i :: 0 <= i < |s| ==> '0' <= s[i] <= '9'
  }

  /** The decimal digits of n, as JavaScript's `'' + n` writes a non-negative integer. */
  function DecimalDigits(n: nat): (s: string)
    ensures |s| >= 1 && IsDecimal(s)
    ensures s[0] == '0' ==> n == 0
  {
    if n < 10 then [Digit(n)] else DecimalDigits(n / 10) + [Digit(n % 10)]
  }

  /** The number the decimal digits s denote. */
  function ParseDecimal(s: string): nat
    requires IsDecimal(s)
  {
    if s == [] then 0 else 10 * ParseDecimal(s[..|s| - 1]) + (s[|s| - 1] as int - '0' as int)
  }

  /** DecimalDigits loses nothing: the digits parse back to the number. */
  lemma {:induction false} DecimalRoundTrip(n: nat)
    ensures ParseDecimal(DecimalDigits(n)) == n
  {
    if n >= 10 {
      DecimalRoundTrip(n / 10);
      var s := DecimalDigits(n);
      assert s[..|s| - 1] == DecimalDigits(n / 10);
    }
  }
}
