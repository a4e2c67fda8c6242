/**
  The non-visual logic of the response panel (uprpc-web/src/pages/components/Response.tsx):
  the second, narrower buffer decoder `convertValue`, the placeholder
  `BufferValue.convert` shows when no parse type is chosen, the "-bin" key
  test that decides which metadata values are decodable, and `handleChange`,
  which records a chosen parse type on the method.
*/
module Response {
  import opened Wrappers
  import opened Bytes
  import opened Metadata

  /** The source's fixed fallback string (Chinese for "translated"), which `convertValue` returns for every parse type it does not list. */
  const FallbackText: string := "翻译过"

  /** The parse types `convertValue` lists, with the DataView getter each one calls. */
  function ConvertAccessor(f: ParseType): (r: Option<Accessor>)
    ensures r.Some? ==> r == AccessorOf(f) && WellFormed(r.value)
  {
    match f
    case Int8 => Some(Accessor(SignedInt, 1, false, false))
    case Int16LE => Some(Accessor(SignedInt, 2, true, false))
    case Int16BE => Some(Accessor(SignedInt, 2, false, false))
    case Int32LE => Some(Accessor(SignedInt, 4, true, false))
    case Int32BE => Some(Accessor(SignedInt, 4, false, false))
    case FloatLE => Some(Accessor(Ieee754, 4, true, false))
    case FloatBE => Some(Accessor(Ieee754, 4, false, false))
    case DoubleLE => Some(Accessor(Ieee754, 8, true, false))
    case DoubleBE => Some(Accessor(Ieee754, 8, false, false))
    case _ => None
  }

  /**
    What `convertValue` returns, or the RangeError it throws, when its view
    covers the value's own bytes as `decode`'s view does (over `value.buffer`
    from `value.byteOffset` for `value.length` bytes).
  */
  function ConvertValue(value: seq<Byte>, f: ParseType): (r: Read)
    ensures r.RangeError? <==> ConvertAccessor(f).Some? && |value| < ConvertAccessor(f).value.width
    ensures ConvertAccessor(f).None? ==> r == Got(Text(FallbackText))
  {
    match ConvertAccessor(f)
    case None => Got(Text(FallbackText))
    case Some(a) => Get(value, a)
  }

  /** The binary value the panel is given: a typed array (a Uint8Array or Buffer) over some bytes, or a bare ArrayBuffer. */
  datatype BinaryValue = TypedArray(bytes: seq<Byte>) | BareBuffer(bytes: seq<Byte>)

  /** The outcome of `convertValue` as written: its result, or the TypeError its DataView constructor throws. */
  datatype Converted = Shown(shown: Read) | ConstructorTypeError

  /**
    `convertValue` as written passes the value itself to `new DataView`, which
    accepts only an ArrayBuffer: a typed array makes it throw before the switch.
    A bare ArrayBuffer has no byteOffset or length, so the view covers all of it.
  */
  function ConvertValueAsWritten(value: BinaryValue, f: ParseType): (r: Converted)
    ensures r.ConstructorTypeError? <==> value.TypedArray?
    ensures value.BareBuffer? ==> r == Shown(ConvertValue(value.bytes, f))
  {
    if value.TypedArray? then ConstructorTypeError else Shown(ConvertValue(value.bytes, f))
  }

  /**
    On a typed array, which `decode` reads through `value.buffer`, convertValue
    as written throws for every parse type, the untranslated default included,
    while decode reads any listed format that fits.
  */
  lemma ConvertThrowsOnTypedArray(bytes: seq<Byte>, f: ParseType)
    ensures ConvertValueAsWritten(TypedArray(bytes), f) == ConstructorTypeError
    ensures f != Unlisted && Width(f) <= |bytes| ==> Decode(bytes, f).Got?
  {
  }

  /**
    What `BufferValue.convert` shows: the placeholder for a null parse type,
    the corrected `convertValue` otherwise (as written, a chosen parse type
    makes convertValue throw on the typed array the cell holds).
  */
  function BufferConvert(value: seq<Byte>, parseType: Option<ParseType>): (r: Read)
    ensures parseType.None? ==> r == Decode(value, Unlisted)
    ensures parseType.Some? ==> r == ConvertValue(value, parseType.value)
  {
    match parseType
    case None => Got(Text(Placeholder(|value|)))
    case Some(f) => ConvertValue(value, f)
  }

  /** The formats the two decoders read alike. */
  predicate IsConvertible(f: ParseType)
  {
    f in {Int8, Int16LE, Int16BE, Int32LE, Int32BE, FloatLE, FloatBE, DoubleLE, DoubleBE}
  }

  /**
    `convertValue` agrees with `decode` exactly on the nine formats it lists;
    on every other parse type (the Uint and BigInt formats, the Int and Uint
    aliases, an unlisted number) the two differ.
  */
  lemma ConvertAgreesWithDecodeExactlyOnListed(value: seq<Byte>, f: ParseType)
    ensures ConvertValue(value, f) == Decode(value, f) <==> IsConvertible(f)
  {
    if !IsConvertible(f) {
      assert ConvertValue(value, f) == Got(Text(FallbackText));
      if f == Unlisted {
        assert Placeholder(|value|)[0] == '[' != FallbackText[0];
      }
    }
  }

  /** A signed Number format reads the two's-complement value of its accessor's first width bytes. */
  lemma SignedRead(value: seq<Byte>, f: ParseType, a: Accessor)
    requires ConvertAccessor(f) == Some(a) && a.kind == SignedInt && !a.bigInt && a.width <= |value|
    ensures ConvertValue(value, f) == Got(Number(AsSigned(Load(value[..a.width], a.littleEndian), a.width)))
  {
  }

  lemma ConvertReadsInt8(value: seq<Byte>)
    requires |value| >= 1
    ensures ConvertValue(value, Int8) == Got(Number(AsSigned(value[0], 1)))
  {
    assert value[..1][..0] == [];
    SignedRead(value, Int8, Accessor(SignedInt, 1, false, false));
  }

  lemma ConvertReadsInt16LE(value: seq<Byte>)
    requires |value| >= 2
    ensures ConvertValue(value, Int16LE) == Got(Number(AsSigned(value[0] as int + 0x100 * value[1] as int, 2)))
  {
    assert Load(value[..2], true) == value[0] as int + 0x100 * value[1] as int by {
      var s := value[..2];
      LoadTwo(s);
      assert s[0] == value[0] && s[1] == value[1];
    }
    SignedRead(value, Int16LE, Accessor(SignedInt, 2, true, false));
  }

  lemma ConvertReadsInt16BE(value: seq<Byte>)
    requires |value| >= 2
    ensures ConvertValue(value, Int16BE) == Got(Number(AsSigned(0x100 * value[0] as int + value[1] as int, 2)))
  {
    assert Load(value[..2], false) == 0x100 * value[0] as int + value[1] as int by {
      var s := value[..2];
      LoadTwo(s);
      assert s[0] == value[0] && s[1] == value[1];
    }
    SignedRead(value, Int16BE, Accessor(SignedInt, 2, false, false));
  }

  lemma ConvertReadsInt32LE(value: seq<Byte>)
    requires |value| >= 4
    ensures ConvertValue(value, Int32LE) == Got(Number(AsSigned(
      value[0] as int + 0x100 * value[1] as int + 0x1_0000 * value[2] as int + 0x100_0000 * value[3] as int, 4)))
  {
    assert Load(value[..4], true)
        == value[0] as int + 0x100 * value[1] as int + 0x1_0000 * value[2] as int + 0x100_0000 * value[3] as int by {
      var s := value[..4];
      LoadFour(s);
      assert s[0] == value[0] && s[1] == value[1] && s[2] == value[2] && s[3] == value[3];
    }
    SignedRead(value, Int32LE, Accessor(SignedInt, 4, true, false));
  }

  lemma ConvertReadsInt32BE(value: seq<Byte>)
    requires |value| >= 4
    ensures ConvertValue(value, Int32BE) == Got(Number(AsSigned(
      0x100_0000 * value[0] as int + 0x1_0000 * value[1] as int + 0x100 * value[2] as int + value[3] as int, 4)))
  {
    assert Load(value[..4], false)
        == 0x100_0000 * value[0] as int + 0x1_0000 * value[1] as int + 0x100 * value[2] as int + value[3] as int by {
      var s := value[..4];
      LoadFour(s);
      assert s[0] == value[0] && s[1] == value[1] && s[2] == value[2] && s[3] == value[3];
    }
    SignedRead(value, Int32BE, Accessor(SignedInt, 4, false, false));
  }

  /** The signed integer formats read the two's-complement value of bytes 0.. in the chosen byte order. */
  lemma ConvertReadsSignedIntegers(value: seq<Byte>)
    requires |value| >= 4
    ensures ConvertValue(value, Int8) == Got(Number(AsSigned(value[0], 1)))
    ensures ConvertValue(value, Int16LE) == Got(Number(AsSigned(value[0] as int + 0x100 * value[1] as int, 2)))
    ensures ConvertValue(value, Int16BE) == Got(Number(AsSigned(0x100 * value[0] as int + value[1] as int, 2)))
    ensures ConvertValue(value, Int32LE) == Got(Number(AsSigned(
      value[0] as int + 0x100 * value[1] as int + 0x1_0000 * value[2] as int + 0x100_0000 * value[3] as int, 4)))
    ensures ConvertValue(value, Int32BE) == Got(Number(AsSigned(
      0x100_0000 * value[0] as int + 0x1_0000 * value[1] as int + 0x100 * value[2] as int + value[3] as int, 4)))
  {
    ConvertReadsInt8(value);
    ConvertReadsInt16LE(value);
    ConvertReadsInt16BE(value);
    ConvertReadsInt32LE(value);
    ConvertReadsInt32BE(value);
  }

  // ---------------------------------------------------------------------------
  // The Value column of the metadata table

  /** The suffix that marks a binary metadata key. */
  const BinarySuffix: string := "-bin"

  /** The test `/-bin$/.test(key)`: the key is some text followed by "-bin". */
  predicate IsBinaryKey(key: string): (b: bool)
    ensures b <==> exists prefix :: key == prefix + BinarySuffix
  {
    var b := |key| >= |BinarySuffix| && key[|key| - |BinarySuffix|..] == BinarySuffix;
    assert b ==> key == key[..|key| - |BinarySuffix|] + BinarySuffix;
    b
  }

  /** A metadata value as the table receives it: text, or the bytes of a binary key. */
  datatype MdValue = Str(s: string) | Bin(bytes: seq<Byte>)

  datatype MetadataRow = MetadataRow(id: int, name: string, key: string, value: MdValue, parseType: Option<ParseType>)

  /** A rendered Value cell: a decodable buffer with what it shows, or the raw value. */
  datatype Cell = Decodable(id: int, shown: Read) | Plain(title: MdValue)

  /** The Value column's renderer; the transport gives bytes for every "-bin" key, and bytes under another key are shown raw. */
  function ValueCell(row: MetadataRow): (c: Cell)
    requires IsBinaryKey(row.key) ==> row.value.Bin?
    ensures c.Decodable? <==> IsBinaryKey(row.key)
    ensures c.Plain? ==> c.title == row.value
    ensures c.Decodable? ==> c.id == row.id && c.shown == BufferConvert(row.value.bytes, row.parseType)
  {
    if IsBinaryKey(row.key) then Decodable(row.id, BufferConvert(row.value.bytes, row.parseType)) else Plain(row.value)
  }

  // ---------------------------------------------------------------------------
  // handleChange

  /** A parse-type choice recorded on a method: which key's value to decode, and how. */
  datatype MdSetting = MdSetting(id: int, key: string, parseType: ParseType)

  /** The method record the response panel is given; the two metadata lists may be null. */
  class MethodRecord {
    var name: string
    var requestBody: string
    var requestMds: Option<seq<MdSetting>>
    var responseMds: Option<seq<MdSetting>>

    constructor (name: string, requestBody: string, requestMds: Option<seq<MdSetting>>, responseMds: Option<seq<MdSetting>>)
      ensures this.name == name && this.requestBody == requestBody
      ensures this.requestMds == requestMds && this.responseMds == responseMds
    {
      this.name := name;
      this.requestBody := requestBody;
      this.requestMds := requestMds;
      this.responseMds := responseMds;
    }

    /**
      `handleChange`: a null responseMds becomes the empty list, and the choice
      is appended to requestMds when that list exists; nothing else changes.
    */
    method HandleChange(id: int, key: string, parseType: ParseType)
      modifies this
      ensures responseMds == if old(responseMds).None? then Some([]) else old(responseMds)
      ensures requestMds == if old(requestMds).None? then None else Some(old(requestMds).value + [MdSetting(id, key, parseType)])
      ensures name == old(name) && requestBody == old(requestBody)
    {
      if responseMds.None? {
        responseMds := Some([]);
      }
      if requestMds.Some? {
        requestMds := Some(requestMds.value + [MdSetting(id, key, parseType)]);
      }
    }
  }
}
