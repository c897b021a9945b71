/**
 Encoded pointers of the exception tables: the formats of `readEncodedPointer`, read and written.
 */
module EncodedPointer {
  import opened Wrappers
  import opened Leb128

  const DW_EH_PE_OMIT: Byte := 0xFF

  datatype Format = Fixed(width: nat, signed: bool) | Variable(signed: bool) | Unsupported

  /** The low four bits of an encoding. */
  function FormatOf(encoding: Byte): (f: Format)
    ensures f.Fixed? ==> f.width == 2 || f.width == 4 || f.width == 8
  {
    match encoding % 16
    case 0x00 => Fixed(8, false)
    case 0x01 => Variable(false)
    case 0x02 => Fixed(2, false)
    case 0x03 => Fixed(4, false)
    case 0x04 => Fixed(8, false)
    case 0x09 => Variable(true)
    case 0x0A => Fixed(2, true)
    case 0x0B => Fixed(4, true)
    case 0x0C => Fixed(8, true)
    case _ => Unsupported
  }

  /** Size of one entry of the type table; the variable formats have none. */
  function EncodingSize(encoding: Byte): Result<nat, Cause> {
    if encoding == DW_EH_PE_OMIT then Ok(0)
    else if FormatOf(encoding).Fixed? then Ok(FormatOf(encoding).width)
    else Err(Abort)
  }

  // Fixed widths, little endian

  function Pow256(n: nat): (p: int)
    ensures p > 0
  {
    if n == 0 then 1 else 256 * Pow256(n - 1)
  }

  lemma WordWidths()
    ensures Pow256(2) == 0x1_0000 && Pow256(4) == 0x1_0000_0000 && Pow256(8) == WORD
  {
    assert Pow256(3) == 0x100_0000;
    assert Pow256(5) == 0x100_0000_0000;
    assert Pow256(6) == 0x1_0000_0000_0000;
    assert Pow256(7) == 0x100_0000_0000_0000;
  }

  function LittleEndian(data: seq<Byte>, p: nat, n: nat): (v: nat)
    requires p + n <= |data|
    ensures v < Pow256(n)
    decreases n
  {
    if n == 0 then 0 else data[p] + 256 * LittleEndian(data, p + 1, n - 1)
  }

  function EncodeFixed(v: nat, n: nat): (bytes: seq<Byte>)
    ensures |bytes| == n
    decreases n
  {
    if n == 0 then [] else [v % 256] + EncodeFixed(v / 256, n - 1)
  }

  lemma {:induction false} FixedRoundTrip(v: nat, n: nat, pre: seq<Byte>, post: seq<Byte>)
    requires v < Pow256(n)
    ensures LittleEndian(pre + EncodeFixed(v, n) + post, |pre|, n) == v
    decreases n
  {
    if n > 0 {
      var pre' := pre + [v % 256];
      assert pre + EncodeFixed(v, n) + post == pre' + EncodeFixed(v / 256, n - 1) + post;
      FixedRoundTrip(v / 256, n - 1, pre', post);
    }
  }

  /** A number below `p` extended to a word, from its sign bit if it is signed. */
  function Widen(v: nat, p: int, signed: bool): Word {
    AsWord(if signed && v >= p / 2 then v - p else v)
  }

  function Narrow(w: Word, p: int, signed: bool): int {
    if signed && AsSigned(w) < 0 then AsSigned(w) + p else w
  }

  function ReadFixed(data: seq<Byte>, p: nat, n: nat, signed: bool): ReadResult {
    if p + n > |data| then Err(PastEnd)
    else Ok(Reading(Widen(LittleEndian(data, p, n), Pow256(n), signed), p + n))
  }

  // Reading

  function ReadValue(data: seq<Byte>, p: nat, format: Format): ReadResult {
    match format
    case Fixed(n, signed) => ReadFixed(data, p, n, signed)
    case Variable(signed) => Read(data, p, signed)
    case Unsupported => Err(Abort)
  }

  /** The three upper bits below the top one choose a base, the top bit an indirection. */
  function ReadPointer(data: seq<Byte>, p: nat, encoding: Byte): ReadResult {
    if encoding == DW_EH_PE_OMIT then Ok(Reading(0, p))
    else if ReadValue(data, p, FormatOf(encoding)).Err? then ReadValue(data, p, FormatOf(encoding))
    else if encoding / 16 % 8 > 1 then Err(Abort)
    else if encoding / 16 != 0 then Err(NotModelled)
    else ReadValue(data, p, FormatOf(encoding))
  }

  lemma PointerAdvances(data: seq<Byte>, p: nat, encoding: Byte)
    ensures ReadPointer(data, p, encoding).Ok? ==> p <= ReadPointer(data, p, encoding).value.next
    ensures p <= |data| && ReadPointer(data, p, encoding).Ok? ==> ReadPointer(data, p, encoding).value.next <= |data|
  {
    ReadAdvances(data, p, false);
    ReadAdvances(data, p, true);
  }

  method ReadEncodedPointer(data: seq<Byte>, p: nat, encoding: Byte) returns (r: ReadResult)
    ensures r == ReadPointer(data, p, encoding)
    ensures r.Ok? ==> p <= r.value.next
  {
    PointerAdvances(data, p, encoding);
    if encoding == DW_EH_PE_OMIT {
      return Ok(Reading(0, p));
    }
    match FormatOf(encoding) {
      case Variable(signed) =>
        if signed {
          r := ReadSLEB128(data, p);
        } else {
          r := ReadULEB128(data, p);
        }
      case Fixed(n, signed) =>
        r := ReadFixed(data, p, n, signed);
      case Unsupported =>
        r := Err(Abort);
    }
    if r.Err? {
      return;
    }
    var base := encoding / 16 % 8;
    if base > 1 {
      return Err(Abort);
    }
    if base == 1 || encoding >= 0x80 {
      return Err(NotModelled);
    }
  }

  // Writing

  /** Neither a base nor an indirection. */
  predicate Plain(encoding: Byte) {
    encoding == DW_EH_PE_OMIT || (encoding < 16 && !FormatOf(encoding).Unsupported?)
  }

  predicate InRange(w: Word, p: int, signed: bool) {
    if signed then -p / 2 <= AsSigned(w) < p / 2 else w < p
  }

  /** The values a format can carry exactly. */
  predicate Carries(format: Format, w: Word) {
    match format
    case Fixed(n, signed) => InRange(w, Pow256(n), signed)
    case Variable(signed) => if signed then -0x800_0000 <= AsSigned(w) < 0x800_0000 else w < 0x1000_0000
    case Unsupported => false
  }

  predicate Encodable(encoding: Byte, w: Word) {
    Plain(encoding) && if encoding == DW_EH_PE_OMIT then w == 0 else Carries(FormatOf(encoding), w)
  }

  function EncodeValue(format: Format, w: Word): seq<Byte>
    requires Carries(format, w)
  {
    match format
    case Fixed(n, signed) => EncodeFixed(Narrow(w, Pow256(n), signed), n)
    case Variable(signed) => if signed then EncodeSigned(AsSigned(w)) else EncodeUnsigned(w)
  }

  function EncodePointer(encoding: Byte, w: Word): seq<Byte>
    requires Encodable(encoding, w)
  {
    if encoding == DW_EH_PE_OMIT then [] else EncodeValue(FormatOf(encoding), w)
  }

  lemma SignedWord(w: Word)
    ensures AsWord(AsSigned(w)) == w
    ensures AsSigned(w) >= 0 ==> AsSigned(w) == w
  {
  }

  lemma WidenNarrow(w: Word, p: int, signed: bool)
    requires 0 < p <= WORD && p % 2 == 0 && InRange(w, p, signed)
    ensures 0 <= Narrow(w, p, signed) < p && Widen(Narrow(w, p, signed), p, signed) == w
  {
    SignedWord(w);
  }

  lemma FixedValueRoundTrip(n: nat, signed: bool, w: Word, pre: seq<Byte>, post: seq<Byte>)
    requires (n == 2 || n == 4 || n == 8) && Carries(Fixed(n, signed), w)
    ensures ReadFixed(pre + EncodeValue(Fixed(n, signed), w) + post, |pre|, n, signed) == Ok(Reading(w, |pre| + n))
  {
    var p := Pow256(n);
    assert 0 < p <= WORD && p % 2 == 0 by {
      WordWidths();
    }
    WidenNarrow(w, p, signed);
    FixedRoundTrip(Narrow(w, p, signed), n, pre, post);
  }

  lemma VariableRoundTrip(signed: bool, w: Word, pre: seq<Byte>, post: seq<Byte>)
    requires Carries(Variable(signed), w)
    ensures var bytes := EncodeValue(Variable(signed), w);
      Read(pre + bytes + post, |pre|, signed) == Ok(Reading(w, |pre| + |bytes|))
  {
    if signed {
      SignedRoundTrip(AsSigned(w), pre, post);
      SignedWord(w);
    } else {
      UnsignedRoundTrip(w, pre, post);
    }
  }

  lemma ValueRoundTrip(format: Format, w: Word, pre: seq<Byte>, post: seq<Byte>)
    requires Carries(format, w) && (format.Fixed? ==> format.width == 2 || format.width == 4 || format.width == 8)
    ensures var bytes := EncodeValue(format, w);
      ReadValue(pre + bytes + post, |pre|, format) == Ok(Reading(w, |pre| + |bytes|))
  {
    match format
    case Fixed(n, signed) => FixedValueRoundTrip(n, signed, w, pre, post);
    case Variable(signed) => VariableRoundTrip(signed, w, pre, post);
  }

  /** Reading an encoded pointer gives it back and stops right behind it, in every plain encoding. */
  lemma PointerRoundTrip(encoding: Byte, w: Word, pre: seq<Byte>, post: seq<Byte>)
    requires Encodable(encoding, w)
    ensures var bytes := EncodePointer(encoding, w);
      ReadPointer(pre + bytes + post, |pre|, encoding) == Ok(Reading(w, |pre| + |bytes|))
  {
    if encoding != DW_EH_PE_OMIT {
      ValueRoundTrip(FormatOf(encoding), w, pre, post);
    }
  }
}
