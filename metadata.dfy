/**
  The binary metadata codec of the web client (uprpc-web/src/utils/metadata.ts).
  `encode` writes a value into a fresh 16-byte buffer at offset 0 through a
  DataView setter chosen by the parse type; `decode` reads a value back from
  offset 0 of the caller's bytes through the matching getter, and shows a
  placeholder for a parse type it does not know.
*/
module Metadata {
  import opened Wrappers
  import opened Bytes

  /** The parse types the codec's switches name, and Unlisted for any other number (or none). */
  datatype ParseType =
    | IntLE | IntBE | Int8 | Int16LE | Int16BE | Int32LE | Int32BE
    | FloatLE | FloatBE | DoubleLE | DoubleBE
    | UintLE | UintBE | Uint8 | Uint16LE | Uint16BE | Uint32LE | Uint32BE
    | BigInt64LE | BigInt64BE | BigUint64LE | BigUint64BE
    | Unlisted

  /**
    JavaScript values the codec handles: a number holding an integer, a BigInt,
    a number written or read as an IEEE 754 value (kept as the bit pattern of
    its width and otherwise uninterpreted), and a string.
  */
  datatype Value = Number(n: int) | BigInt(b: int) | Float(width: nat, bits: nat) | Text(s: string)

  datatype Kind = SignedInt | UnsignedInt | Ieee754

  /** A DataView accessor: getInt16(0, true) is Accessor(SignedInt, 2, true, false). */
  datatype Accessor = Accessor(kind: Kind, width: nat, littleEndian: bool, bigInt: bool)

  predicate WellFormed(a: Accessor)
  {
    && IsWidth(a.width)
    && (a.kind == Ieee754 ==> a.width >= 4 && !a.bigInt)
    && (a.bigInt <==> a.kind != Ieee754 && a.width == 8)
  }

  /** The number of bytes a parse type's name promises: 8, 16, 32 or 64 bits, the aliases one byte. */
  function NamedWidth(f: ParseType): nat
  {
    match f
    case IntLE | IntBE | Int8 | UintLE | UintBE | Uint8 => 1
    case Int16LE | Int16BE | Uint16LE | Uint16BE => 2
    case Int32LE | Int32BE | Uint32LE | Uint32BE | FloatLE | FloatBE => 4
    case DoubleLE | DoubleBE | BigInt64LE | BigInt64BE | BigUint64LE | BigUint64BE => 8
    case Unlisted => 0
  }

  /** The parse types whose name ends in LE. */
  predicate IsLittleEndianName(f: ParseType)
  {
    f in {Int16LE, Int32LE, FloatLE, DoubleLE, Uint16LE, Uint32LE, BigInt64LE, BigUint64LE}
  }

  /** The parse types whose name promises an unsigned integer. */
  predicate IsUnsignedName(f: ParseType)
  {
    f in {UintLE, UintBE, Uint8, Uint16LE, Uint16BE, Uint32LE, Uint32BE, BigUint64LE, BigUint64BE}
  }

  /** The parse types whose name promises an IEEE 754 value. */
  predicate IsFloatName(f: ParseType)
  {
    f in {FloatLE, FloatBE, DoubleLE, DoubleBE}
  }

  /**
    The accessor each parse type selects. The switch of `encode` and the switch
    of `decode` agree format by format, so one table serves both. Every accessor
    has the width, byte order and kind the name promises, except that both
    switches give BigUint64BE the SIGNED 64-bit accessor.
  */
  function AccessorOf(f: ParseType): (r: Option<Accessor>)
    ensures r.Some? <==> f != Unlisted
    ensures r.Some? ==> WellFormed(r.value)
    ensures r.Some? ==> r.value.width == NamedWidth(f)
    ensures r.Some? && r.value.width > 1 ==> (r.value.littleEndian <==> IsLittleEndianName(f))
    ensures r.Some? ==> (r.value.kind == Ieee754 <==> IsFloatName(f))
    ensures r.Some? && !IsFloatName(f) && f != BigUint64BE ==> (r.value.kind == UnsignedInt <==> IsUnsignedName(f))
    ensures f == BigUint64BE ==> r.value.kind == SignedInt
  {
    match f
    case IntLE | IntBE | Int8 => Some(Accessor(SignedInt, 1, false, false))
    case Int16LE => Some(Accessor(SignedInt, 2, true, false))
    case Int16BE => Some(Accessor(SignedInt, 2, false, false))
    case Int32LE => Some(Accessor(SignedInt, 4, true, false))
    case Int32BE => Some(Accessor(SignedInt, 4, false, false))
    case FloatLE => Some(Accessor(Ieee754, 4, true, false))
    case FloatBE => Some(Accessor(Ieee754, 4, false, false))
    case DoubleLE => Some(Accessor(Ieee754, 8, true, false))
    case DoubleBE => Some(Accessor(Ieee754, 8, false, false))
    case UintLE | UintBE | Uint8 => Some(Accessor(UnsignedInt, 1, false, false))
    case Uint16LE => Some(Accessor(UnsignedInt, 2, true, false))
    case Uint16BE => Some(Accessor(UnsignedInt, 2, false, false))
    case Uint32LE => Some(Accessor(UnsignedInt, 4, true, false))
    case Uint32BE => Some(Accessor(UnsignedInt, 4, false, false))
    case BigInt64LE => Some(Accessor(SignedInt, 8, true, true))
    case BigInt64BE => Some(Accessor(SignedInt, 8, false, true))
    case BigUint64LE => Some(Accessor(UnsignedInt, 8, true, true))
    case BigUint64BE => Some(Accessor(SignedInt, 8, false, true))
    case Unlisted => None
  }

  /** The number of bytes a parse type reads or writes (none for an unlisted one). */
  function Width(f: ParseType): nat
  {
    match AccessorOf(f)
    case None => 0
    case Some(a) => a.width
  }

  /** The integer a getter returns, as a number or, for the 64-bit accessors, a BigInt. */
  function IntValue(i: int, bigInt: bool): Value
  {
    if bigInt then BigInt(i) else Number(i)
  }

  // ---------------------------------------------------------------------------
  // DataView getters and setters at offset 0

  /** A getter's outcome: the value, or the RangeError of a read past the view's end. */
  datatype Read = Got(value: Value) | RangeError

  /** What a DataView getter at offset 0 returns for a view over `view`. */
  function Get(view: seq<Byte>, a: Accessor): (r: Read)
    requires WellFormed(a)
    ensures r.RangeError? <==> |view| < a.width
  {
    if |view| < a.width then RangeError
    else
      var u := Load(view[..a.width], a.littleEndian);
      match a.kind
      case Ieee754 => Got(Float(a.width, u))
      case UnsignedInt => Got(IntValue(u, a.bigInt))
      case SignedInt => Got(IntValue(AsSigned(u, a.width), a.bigInt))
  }

  /**
    The values a setter is modelled for: an IEEE bit pattern of the accessor's
    width for the float setters, a number or BigInt for the integer setters.
    Number-to-float rounding and string coercion are not modelled.
  */
  predicate Settable(a: Accessor, v: Value)
  {
    if a.kind == Ieee754 then v.Float? && v.width == a.width && v.bits < Pow256(a.width)
    else v.Number? || v.BigInt?
  }

  /** A setter's outcome: the buffer's new bytes, or the TypeError of a number given to a BigInt setter or the reverse. */
  datatype Written = View(bytes: seq<Byte>) | TypeError

  /** The unsigned quantity an integer setter stores for the integer i. */
  function StoredBits(a: Accessor, i: int): nat
    requires WellFormed(a)
  {
    if a.kind == SignedInt then ToUintN(ToIntN(i, a.width), a.width) else ToUintN(i, a.width)
  }

  /** What a DataView setter at offset 0 leaves in `buffer`. */
  function Set(buffer: seq<Byte>, a: Accessor, v: Value): (r: Written)
    requires WellFormed(a) && a.width <= |buffer| && Settable(a, v)
    ensures r.TypeError? <==> a.kind != Ieee754 && v.BigInt? != a.bigInt
    ensures r.View? ==> |r.bytes| == |buffer| && r.bytes[a.width..] == buffer[a.width..]
  {
    if a.kind == Ieee754 then
      View(Store(v.bits, a.width, a.littleEndian) + buffer[a.width..])
    else if v.BigInt? != a.bigInt then
      TypeError
    else
      var i := if v.BigInt? then v.b else v.n;
      View(Store(StoredBits(a, i), a.width, a.littleEndian) + buffer[a.width..])
  }

  // ---------------------------------------------------------------------------
  // encode and decode

  function Zeros(n: nat): (s: seq<Byte>)
    ensures |s| == n && forall k :: 0 <= k < n ==> s[k] == 0
  {
    seq(n, _ => 0)
  }

  /** The size of the scratch buffer `encode` allocates. */
  const ScratchSize: nat := 16

  predicate Encodable(v: Value, f: ParseType)
  {
    AccessorOf(f).Some? ==> Settable(AccessorOf(f).value, v)
  }

  /**
    The 16 bytes of the view `encode(value, parseType)` returns: the value's
    bytes at the front, zeros after them, and all zeros for an unlisted type.
  */
  function EncodeView(v: Value, f: ParseType): (r: Written)
    requires Encodable(v, f)
    ensures r.View? ==> |r.bytes| == ScratchSize
    ensures r.View? ==> forall k :: Width(f) <= k < ScratchSize ==> r.bytes[k] == 0
    ensures f == Unlisted ==> r == View(Zeros(ScratchSize))
    ensures r.TypeError? <==> f != Unlisted && AccessorOf(f).value.kind != Ieee754 && v.BigInt? != (Width(f) == 8)
  {
    match AccessorOf(f)
    case None => View(Zeros(ScratchSize))
    case Some(a) => Set(Zeros(ScratchSize), a, v)
  }

  /** The text `decode` shows for bytes it has no parse type for. */
  function Placeholder(length: nat): string
  {
    "[Buffer ... " + DecimalDigits(length) + " bytes]"
  }

  /** What `decode(value, parseType)` returns, or the RangeError it throws. */
  function Decode(value: seq<Byte>, f: ParseType): (r: Read)
    ensures r.RangeError? <==> f != Unlisted && |value| < Width(f)
    ensures f == Unlisted ==> r.Got? && r.value.Text?
  {
    match AccessorOf(f)
    case None => Got(Text(Placeholder(|value|)))
    case Some(a) => Get(value, a)
  }

  /**
    `encode`: allocate the 16-byte scratch buffer and store the value's bytes
    at offset 0 through the accessor of the parse type.
  */
  method Encode(value: Value, parseType: ParseType) returns (view: array<Byte>, typeError: bool)
    requires Encodable(value, parseType)
    ensures fresh(view) && view.Length == ScratchSize
    ensures typeError <==> EncodeView(value, parseType).TypeError?
    ensures !typeError ==> view[..] == EncodeView(value, parseType).bytes
  {
    view := new Byte[ScratchSize](_ => 0);
    var written := EncodeView(value, parseType);
    typeError := written.TypeError?;
    if !typeError {
      CopyOverZeros(view, written.bytes, Width(parseType));
    }
  }

  /** Copies the bytes a setter wrote into a zero-filled view; the tail past width is zero already. */
  method CopyOverZeros(view: array<Byte>, bytes: seq<Byte>, width: nat)
    requires view.Length == |bytes| && width <= |bytes|
    requires forall j :: 0 <= j < view.Length ==> view[j] == 0
    requires forall j :: width <= j < |bytes| ==> bytes[j] == 0
    modifies view
    ensures view[..] == bytes
  {
    for k := 0 to width
      invariant forall j :: 0 <= j < k ==> view[j] == bytes[j]
      invariant forall j :: k <= j < view.Length ==> view[j] == 0
    {
      view[k] := bytes[k];
    }
  }

  // ---------------------------------------------------------------------------
  // Properties

  /** The listed parse types that are not floats. */
  predicate IsIntegerFormat(f: ParseType)
  {
    f != Unlisted && !IsFloatName(f)
  }

  /** The integers a format's name promises to hold: [0, 256^w) unsigned, [-256^w/2, 256^w/2) signed. */
  predicate InRange(f: ParseType, i: int)
  {
    if IsUnsignedName(f) then 0 <= i < Pow256(NamedWidth(f)) else -Half(NamedWidth(f)) <= i < Half(NamedWidth(f))
  }

  /** The JavaScript value an integer format's setter expects for i. */
  function IntegerArgument(f: ParseType, i: int): Value
  {
    IntValue(i, NamedWidth(f) == 8)
  }

  /** The integer a format's getter returns after its setter stored i: i wrapped to the accessor's range. */
  function Wrapped(f: ParseType, i: int): int
    requires IsIntegerFormat(f)
  {
    var a := AccessorOf(f).value;
    if a.kind == SignedInt then ToIntN(i, a.width) else ToUintN(i, a.width)
  }

  lemma EncodeViewIsSet(v: Value, f: ParseType)
    requires f != Unlisted && Encodable(v, f)
    ensures EncodeView(v, f) == Set(Zeros(ScratchSize), AccessorOf(f).value, v)
  {
  }

  /** An integer setter stores the bytes of i modulo 256^w, signed or not. */
  lemma SetIntegerBytes(a: Accessor, i: int)
    requires WellFormed(a) && a.kind != Ieee754
    ensures Set(Zeros(ScratchSize), a, IntValue(i, a.bigInt)).View?
    ensures Set(Zeros(ScratchSize), a, IntValue(i, a.bigInt)).bytes[..a.width] == Store(ToUintN(i, a.width), a.width, a.littleEndian)
  {
    if a.kind == SignedInt {
      SignedBitsAreUnsignedBits(i, a.width);
    }
  }

  /** An integer getter reads back what its setter stored in the scratch buffer, wrapped to its width and signedness. */
  lemma GetAfterSet(a: Accessor, i: int)
    requires WellFormed(a) && a.kind != Ieee754
    ensures Set(Zeros(ScratchSize), a, IntValue(i, a.bigInt)).View?
    ensures Get(Set(Zeros(ScratchSize), a, IntValue(i, a.bigInt)).bytes, a)
         == Got(IntValue(if a.kind == SignedInt then ToIntN(i, a.width) else ToUintN(i, a.width), a.bigInt))
  {
    var bytes := Set(Zeros(ScratchSize), a, IntValue(i, a.bigInt)).bytes;
    var u := StoredBits(a, i);
    assert bytes[..a.width] == Store(u, a.width, a.littleEndian);
    LoadStore(u, a.width, a.littleEndian);
    if a.kind == SignedInt {
      SignedBitsAreUnsignedBits(i, a.width);
    }
  }

  /** Decoding an encoded integer gives it back wrapped to the accessor's width and signedness, for every integer. */
  lemma DecodeAfterEncode(f: ParseType, i: int)
    requires IsIntegerFormat(f)
    ensures EncodeView(IntegerArgument(f, i), f).View?
    ensures Decode(EncodeView(IntegerArgument(f, i), f).bytes, f) == Got(IntegerArgument(f, Wrapped(f, i)))
  {
    var a := AccessorOf(f).value;
    assert a.bigInt <==> NamedWidth(f) == 8;
    EncodeViewIsSet(IntegerArgument(f, i), f);
    GetAfterSet(a, i);
  }

  /** Round trip: every integer format but BigUint64BE decodes what it encoded, across its whole range. */
  lemma RoundTrip(f: ParseType, i: int)
    requires IsIntegerFormat(f) && f != BigUint64BE && InRange(f, i)
    ensures EncodeView(IntegerArgument(f, i), f).View?
    ensures Decode(EncodeView(IntegerArgument(f, i), f).bytes, f) == Got(IntegerArgument(f, i))
  {
    DecodeAfterEncode(f, i);
    var w := Width(f);
    if AccessorOf(f).value.kind == SignedInt {
      ToIntNInRange(i, w);
    }
  }

  /**
    BigUint64BE stores through the signed 64-bit setter and reads through the
    signed 64-bit getter: an unsigned value from 2^63 up comes back as v - 2^64.
  */
  lemma BigUint64BEDecodesSigned(v: int)
    requires 0 <= v < Pow256(8)
    ensures EncodeView(BigInt(v), BigUint64BE).View?
    ensures Decode(EncodeView(BigInt(v), BigUint64BE).bytes, BigUint64BE)
         == Got(BigInt(if v < 0x8000_0000_0000_0000 then v else v - 0x1_0000_0000_0000_0000))
  {
    Pow256AtWidths();
    DecodeAfterEncode(BigUint64BE, v);
  }

  /** The value 2^63 is in BigUint64BE's range and does not survive the round trip. */
  lemma BigUint64BERoundTripFails()
    ensures EncodeView(BigInt(0x8000_0000_0000_0000), BigUint64BE).View?
    ensures Decode(EncodeView(BigInt(0x8000_0000_0000_0000), BigUint64BE).bytes, BigUint64BE)
         != Got(BigInt(0x8000_0000_0000_0000))
  {
    Pow256AtWidths();
    BigUint64BEDecodesSigned(0x8000_0000_0000_0000);
  }

  /** Decoding reads offset 0 and nothing past the format's width: views agreeing on those bytes decode alike. */
  lemma DecodeReadsPrefix(x: seq<Byte>, y: seq<Byte>, f: ParseType)
    requires f != Unlisted
    requires Width(f) <= |x| && Width(f) <= |y| && x[..Width(f)] == y[..Width(f)]
    ensures Decode(x, f) == Decode(y, f)
  {
  }

  /** Re-encoding a decoded integer reproduces the bytes it was read from, for every integer format. */
  lemma EncodeAfterDecode(value: seq<Byte>, f: ParseType)
    requires IsIntegerFormat(f) && Width(f) <= |value|
    ensures Decode(value, f).Got? && EncodeView(Decode(value, f).value, f).View?
    ensures EncodeView(Decode(value, f).value, f).bytes[..Width(f)] == value[..Width(f)]
  {
    var a := AccessorOf(f).value;
    assert Decode(value, f) == Get(value, a);
    SetAfterGet(value, a);
    EncodeViewIsSet(Get(value, a).value, f);
  }

  /** An integer accessor's setter, given what its getter read, writes back the bytes it was read from. */
  lemma SetAfterGet(value: seq<Byte>, a: Accessor)
    requires WellFormed(a) && a.kind != Ieee754 && a.width <= |value|
    ensures Get(value, a).Got? && Settable(a, Get(value, a).value)
    ensures Set(Zeros(ScratchSize), a, Get(value, a).value).View?
    ensures Set(Zeros(ScratchSize), a, Get(value, a).value).bytes[..a.width] == value[..a.width]
  {
    var s := value[..a.width];
    var u := Load(s, a.littleEndian);
    var i := if a.kind == SignedInt then AsSigned(u, a.width) else u;
    assert Get(value, a) == Got(IntValue(i, a.bigInt));
    var bytes := Set(Zeros(ScratchSize), a, IntValue(i, a.bigInt)).bytes;
    assert bytes[..a.width] == Store(StoredBits(a, i), a.width, a.littleEndian);
    if a.kind == SignedInt {
      SignedBitsAreUnsignedBits(u, a.width);
      assert StoredBits(a, i) == u;
    }
    StoreLoad(s, a.littleEndian);
  }

  /** The little-endian formats put the least significant byte of the stored quantity at offset 0. */
  lemma LittleEndianLayout(f: ParseType, i: int)
    requires f in {Int16LE, Int32LE, Uint16LE, Uint32LE, BigInt64LE, BigUint64LE}
    ensures EncodeView(IntegerArgument(f, i), f).View?
    ensures EncodeView(IntegerArgument(f, i), f).bytes[..NamedWidth(f)] == LittleEndian(ToUintN(i, NamedWidth(f)), NamedWidth(f))
    ensures EncodeView(IntegerArgument(f, i), f).bytes[0] == ToUintN(i, NamedWidth(f)) % 256
  {
    var a := AccessorOf(f).value;
    if a.kind == SignedInt {
      SignedBitsAreUnsignedBits(i, a.width);
    }
    assert EncodeView(IntegerArgument(f, i), f).bytes[..a.width] == Store(StoredBits(a, i), a.width, true);
  }

  /** The big-endian twin of each little-endian format of width 2, 4 or 8. */
  function BigEndianTwin(f: ParseType): Option<ParseType>
  {
    match f
    case Int16LE => Some(Int16BE)
    case Int32LE => Some(Int32BE)
    case Uint16LE => Some(Uint16BE)
    case Uint32LE => Some(Uint32BE)
    case BigInt64LE => Some(BigInt64BE)
    case BigUint64LE => Some(BigUint64BE)
    case _ => None
  }

  /**
    A big-endian format stores the little-endian twin's bytes in reverse order,
    BigUint64BE included, since a signed and an unsigned setter store the same bits.
  */
  lemma ByteOrdersAreReversed(f: ParseType, i: int)
    requires BigEndianTwin(f).Some?
    ensures EncodeView(IntegerArgument(f, i), f).View?
    ensures EncodeView(IntegerArgument(BigEndianTwin(f).value, i), BigEndianTwin(f).value).View?
    ensures EncodeView(IntegerArgument(BigEndianTwin(f).value, i), BigEndianTwin(f).value).bytes[..Width(f)]
         == Reversed(EncodeView(IntegerArgument(f, i), f).bytes[..Width(f)])
  {
    var g := BigEndianTwin(f).value;
    var a, b := AccessorOf(f).value, AccessorOf(g).value;
    var w := a.width;
    assert Width(f) == w && a.littleEndian && !b.littleEndian && b.width == w && b.bigInt == a.bigInt;
    assert IntegerArgument(f, i) == IntegerArgument(g, i) == IntValue(i, a.bigInt);
    EncodeViewIsSet(IntValue(i, a.bigInt), f);
    EncodeViewIsSet(IntValue(i, a.bigInt), g);
    SetIntegerBytes(a, i);
    SetIntegerBytes(b, i);
    BigEndianIsReversedLittleEndian(ToUintN(i, w), w);
  }

  /** The aliases IntLE and IntBE are Int8 in both directions, and UintLE and UintBE are Uint8. */
  lemma AliasesAreSingleByte(value: seq<Byte>, i: int)
    requires |value| >= 1
    ensures forall f :: f in {IntLE, IntBE, Int8} ==>
      Decode(value, f) == Got(Number(if value[0] < 128 then value[0] else value[0] as int - 256))
    ensures forall f :: f in {UintLE, UintBE, Uint8} ==> Decode(value, f) == Got(Number(value[0]))
    ensures forall f :: f in {IntLE, IntBE, Int8, UintLE, UintBE, Uint8} ==>
      EncodeView(Number(i), f) == View([ToUintN(i, 1)] + Zeros(ScratchSize - 1))
  {
    var signed, unsigned := Accessor(SignedInt, 1, false, false), Accessor(UnsignedInt, 1, false, false);
    SingleByteAccess(value, signed, i);
    SingleByteAccess(value, unsigned, i);
    assert AccessorOf(IntLE) == AccessorOf(IntBE) == AccessorOf(Int8) == Some(signed);
    assert AccessorOf(UintLE) == AccessorOf(UintBE) == AccessorOf(Uint8) == Some(unsigned);
  }

  /** A one-byte integer accessor reads byte 0, as a two's-complement value when signed, and writes i modulo 256 there. */
  lemma SingleByteAccess(value: seq<Byte>, a: Accessor, i: int)
    requires |value| >= 1 && WellFormed(a) && a.width == 1 && a.kind != Ieee754
    ensures Get(value, a) == Got(Number(if a.kind == UnsignedInt || value[0] < 128 then value[0] else value[0] as int - 256))
    ensures Set(Zeros(ScratchSize), a, Number(i)) == View([ToUintN(i, 1)] + Zeros(ScratchSize - 1))
  {
    Pow256AtWidths();
    assert value[..1][..0] == [];
    SignedBitsAreUnsignedBits(i, 1);
  }

  /** An unlisted parse type decodes to the placeholder naming the view's length, whatever the bytes. */
  lemma UnlistedDecodesToPlaceholder(value: seq<Byte>)
    ensures Decode(value, Unlisted) == Got(Text(Placeholder(|value|)))
    ensures ParseDecimal(Decode(value, Unlisted).value.s[12..|Decode(value, Unlisted).value.s| - 7]) == |value|
  {
    var digits := DecimalDigits(|value|);
    var s := Placeholder(|value|);
    assert s[12..|s| - 7] == digits;
    DecimalRoundTrip(|value|);
  }

  // ---------------------------------------------------------------------------
  // The evidently intended codec: BigUint64BE through the unsigned 64-bit accessor

  function IntendedAccessorOf(f: ParseType): (r: Option<Accessor>)
    ensures r.Some? ==> WellFormed(r.value)
    ensures f != BigUint64BE ==> r == AccessorOf(f)
    ensures r.Some? && !IsFloatName(f) ==> (r.value.kind == UnsignedInt <==> IsUnsignedName(f))
  {
    if f == BigUint64BE then Some(Accessor(UnsignedInt, 8, false, true)) else AccessorOf(f)
  }

  function DecodeIntended(value: seq<Byte>, f: ParseType): Read
  {
    match IntendedAccessorOf(f)
    case None => Got(Text(Placeholder(|value|)))
    case Some(a) => Get(value, a)
  }

  /** With the unsigned accessor for BigUint64BE the writer's bytes are unchanged and every integer format round-trips. */
  lemma IntendedRoundTrip(f: ParseType, i: int)
    requires IsIntegerFormat(f) && InRange(f, i)
    ensures EncodeView(IntegerArgument(f, i), f).View?
    ensures Set(Zeros(ScratchSize), IntendedAccessorOf(f).value, IntegerArgument(f, i)) == EncodeView(IntegerArgument(f, i), f)
    ensures DecodeIntended(EncodeView(IntegerArgument(f, i), f).bytes, f) == Got(IntegerArgument(f, i))
  {
    if f == BigUint64BE {
      assert IntegerArgument(f, i) == BigInt(i);
      assert IntendedAccessorOf(f) == Some(Accessor(UnsignedInt, 8, false, true));
      IntendedBigUint64BERoundTrip(i);
    } else {
      RoundTrip(f, i);
      EncodeViewIsSet(IntegerArgument(f, i), f);
      assert DecodeIntended(EncodeView(IntegerArgument(f, i), f).bytes, f) == Decode(EncodeView(IntegerArgument(f, i), f).bytes, f);
    }
  }

  /** The signed setter's bytes for 0 <= i < 2^64, read by the unsigned 64-bit big-endian getter, give i back. */
  lemma IntendedBigUint64BERoundTrip(i: int)
    requires 0 <= i < Pow256(8)
    ensures EncodeView(BigInt(i), BigUint64BE).View?
    ensures Set(Zeros(ScratchSize), Accessor(UnsignedInt, 8, false, true), BigInt(i)) == EncodeView(BigInt(i), BigUint64BE)
    ensures Get(EncodeView(BigInt(i), BigUint64BE).bytes, Accessor(UnsignedInt, 8, false, true)) == Got(BigInt(i))
  {
    SignedBitsAreUnsignedBits(i, 8);
    var bytes := EncodeView(BigInt(i), BigUint64BE).bytes;
    assert bytes[..8] == Store(ToUintN(i, 8), 8, false);
    LoadStore(ToUintN(i, 8), 8, false);
  }
}
