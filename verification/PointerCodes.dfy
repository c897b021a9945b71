/**
 What the readers of the exception tables answer, code by code and byte by byte, without their formats.
 */
module PointerCodes {
  import opened Wrappers
  import opened Leb128
  import opened EncodedPointer

  // Bytes

  function ByteAt(data: seq<Byte>, i: nat): int
    requires i < |data|
  {
    data[i]
  }

  function Two(data: seq<Byte>, p: nat): int
    requires p + 2 <= |data|
  {
    ByteAt(data, p) + 0x100 * ByteAt(data, p + 1)
  }

  function Four(data: seq<Byte>, p: nat): int
    requires p + 4 <= |data|
  {
    ByteAt(data, p) + 0x100 * ByteAt(data, p + 1) + 0x1_0000 * ByteAt(data, p + 2) + 0x100_0000 * ByteAt(data, p + 3)
  }

  function Eight(data: seq<Byte>, p: nat): int
    requires p + 8 <= |data|
  {
    ByteAt(data, p) + 0x100 * ByteAt(data, p + 1) + 0x1_0000 * ByteAt(data, p + 2) + 0x100_0000 * ByteAt(data, p + 3)
    + 0x1_0000_0000 * ByteAt(data, p + 4) + 0x100_0000_0000 * ByteAt(data, p + 5)
    + 0x1_0000_0000_0000 * ByteAt(data, p + 6) + 0x100_0000_0000_0000 * ByteAt(data, p + 7)
  }

  lemma TwoBytes(data: seq<Byte>, p: nat)
    requires p + 2 <= |data|
    ensures LittleEndian(data, p, 2) == Two(data, p)
  {
    assert LittleEndian(data, p + 1, 1) == data[p + 1] + 256 * LittleEndian(data, p + 2, 0);
  }

  lemma FourBytes(data: seq<Byte>, p: nat)
    requires p + 4 <= |data|
    ensures LittleEndian(data, p, 4) == Four(data, p)
  {
    TwoBytes(data, p + 2);
    assert LittleEndian(data, p + 1, 3) == data[p + 1] + 256 * LittleEndian(data, p + 2, 2);
  }

  lemma EightBytes(data: seq<Byte>, p: nat)
    requires p + 8 <= |data|
    ensures LittleEndian(data, p, 8) == Eight(data, p)
  {
    FourBytes(data, p + 4);
    assert LittleEndian(data, p + 3, 5) == data[p + 3] + 256 * LittleEndian(data, p + 4, 4);
    assert LittleEndian(data, p + 2, 6) == data[p + 2] + 256 * LittleEndian(data, p + 3, 5);
    assert LittleEndian(data, p + 1, 7) == data[p + 1] + 256 * LittleEndian(data, p + 2, 6);
  }

  // Fixed widths by code

  /** A word as it stands at `p`, if the bytes last. */
  predicate Delivers(r: ReadResult, value: int, next: nat) {
    r.Ok? && r.value.value == value && r.value.next == next
  }

  /** udata2 and sdata2 */
  lemma TwoByCode(data: seq<Byte>, p: nat)
    ensures p + 2 > |data| ==> ReadPointer(data, p, 0x02) == ReadPointer(data, p, 0x0A) == Err(PastEnd)
    ensures p + 2 <= |data| ==>
      && Delivers(ReadPointer(data, p, 0x02), Two(data, p), p + 2)
      && Delivers(ReadPointer(data, p, 0x0A),
                  Two(data, p) + (if data[p + 1] < 0x80 then 0 else 0xFFFF_FFFF_FFFF_0000), p + 2)
  {
    WordWidths();
    if p + 2 <= |data| {
      TwoBytes(data, p);
    }
  }

  /** udata4 and sdata4 */
  lemma FourByCode(data: seq<Byte>, p: nat)
    ensures p + 4 > |data| ==> ReadPointer(data, p, 0x03) == ReadPointer(data, p, 0x0B) == Err(PastEnd)
    ensures p + 4 <= |data| ==>
      && Delivers(ReadPointer(data, p, 0x03), Four(data, p), p + 4)
      && Delivers(ReadPointer(data, p, 0x0B),
                  Four(data, p) + (if data[p + 3] < 0x80 then 0 else 0xFFFF_FFFF_0000_0000), p + 4)
  {
    WordWidths();
    if p + 4 <= |data| {
      FourBytes(data, p);
    }
  }

  /** absptr, udata8 and sdata8 */
  lemma EightByCode(data: seq<Byte>, p: nat, code: Byte)
    requires code in {0x00, 0x04, 0x0C}
    ensures p + 8 > |data| ==> ReadPointer(data, p, code) == Err(PastEnd)
    ensures p + 8 <= |data| ==> Delivers(ReadPointer(data, p, code), Eight(data, p), p + 8)
  {
    WordWidths();
    if p + 8 <= |data| {
      EightBytes(data, p);
    }
  }

  /** The variable formats, omitted pointers, and codes that stop the runtime. */
  lemma OtherByCode(data: seq<Byte>, p: nat, code: Byte)
    ensures ReadPointer(data, p, 0xFF) == Ok(Reading(0, p))
    ensures ReadPointer(data, p, 0x01) == Read(data, p, false) && ReadPointer(data, p, 0x09) == Read(data, p, true)
    ensures code < 16 && code !in {0x00, 0x01, 0x02, 0x03, 0x04, 0x09, 0x0A, 0x0B, 0x0C} ==>
      ReadPointer(data, p, code) == Err(Abort)
  {
  }

  /** A code with upper bits: first the value is read as without them; a base other than the position stops the
      runtime, the position as base and the indirection are left out. */
  lemma UpperBits(data: seq<Byte>, p: nat, code: Byte)
    requires 16 <= code < 0xFF
    ensures var plain := ReadPointer(data, p, code % 16);
      ReadPointer(data, p, code)
      == if plain.Err? then plain else if code / 16 in {1, 8, 9} then Err(NotModelled) else Err(Abort)
  {
    assert code % 16 / 16 == 0 && code % 16 % 16 == code % 16;
    assert code / 16 % 8 <= 1 <==> code / 16 in {1, 8, 9};
  }

  /** The size of an entry of the type table by its code. */
  lemma SizeByCode(code: Byte)
    ensures EncodingSize(0xFF) == Ok(0)
    ensures code != 0xFF ==>
      && (code % 16 in {0x02, 0x0A} ==> EncodingSize(code) == Ok(2))
      && (code % 16 in {0x03, 0x0B} ==> EncodingSize(code) == Ok(4))
      && (code % 16 in {0x00, 0x04, 0x0C} ==> EncodingSize(code) == Ok(8))
      && (code % 16 !in {0x00, 0x02, 0x03, 0x04, 0x0A, 0x0B, 0x0C} ==> EncodingSize(code) == Err(Abort))
  {
  }

  // Groups of seven bits

  /** The number of bytes up to the first below 128, at most four. */
  predicate Groups(data: seq<Byte>, p: nat, n: nat) {
    && 1 <= n <= 4 && p + n <= |data| && data[p + n - 1] < 128
    && forall i :: p <= i < p + n - 1 ==> data[i] >= 128
  }

  function GroupAt(data: seq<Byte>, i: nat): int
    requires i < |data|
  {
    if data[i] < 128 then data[i] as int else data[i] as int - 128
  }

  /** The low seven bits of each byte, the first the least significant. */
  function Spelt(data: seq<Byte>, p: nat, n: nat): int
    requires Groups(data, p, n)
  {
    GroupAt(data, p) + (if n > 1 then 0x80 * GroupAt(data, p + 1) else 0)
    + (if n > 2 then 0x4000 * GroupAt(data, p + 2) else 0) + (if n > 3 then 0x20_0000 * GroupAt(data, p + 3) else 0)
  }

  function PowerOf128(n: nat): int
    requires 1 <= n <= 4
  {
    if n == 1 then 0x80 else if n == 2 then 0x4000 else if n == 3 then 0x20_0000 else 0x1000_0000
  }

  /** The same as a signed number: bit 6 of the last group is the sign. */
  function SpeltSigned(data: seq<Byte>, p: nat, n: nat): int
    requires Groups(data, p, n)
  {
    Spelt(data, p, n) - if data[p + n - 1] < 64 then 0 else PowerOf128(n)
  }

  /** Both readers on a number of up to four groups. */
  lemma ReadByGroups(data: seq<Byte>, p: nat, n: nat)
    requires Groups(data, p, n)
    ensures Delivers(Read(data, p, false), Spelt(data, p, n), p + n)
    ensures var v := SpeltSigned(data, p, n);
      Delivers(Read(data, p, true), if v < 0 then v + WORD else v, p + n)
  {
    GroupsDecoded(data, p, n, 0, false);
    GroupsDecoded(data, p, n, 0, true);
    SpeltInRange(data, p, n);
  }

  lemma SpeltInRange(data: seq<Byte>, p: nat, n: nat)
    requires Groups(data, p, n)
    ensures 0 <= Spelt(data, p, n) < 0x1000_0000 && -0x1000_0000 <= SpeltSigned(data, p, n)
  {
  }

  /** The value before it is made a word. */
  predicate DecodesTo(data: seq<Byte>, p: nat, signed: bool, groups: nat, value: int, next: nat) {
    Decode(data, p, signed, groups) == Ok((value, next))
  }

  /** From any group on. */
  lemma {:induction false} GroupsDecoded(data: seq<Byte>, p: nat, n: nat, before: nat, signed: bool)
    requires Groups(data, p, n) && before + n <= 4
    ensures DecodesTo(data, p, signed, before, if signed then SpeltSigned(data, p, n) else Spelt(data, p, n), p + n)
    decreases n
  {
    if n > 1 {
      GroupsDecoded(data, p + 1, n - 1, before + 1, signed);
    }
  }
}
