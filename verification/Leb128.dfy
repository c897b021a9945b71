/**
 Variable-length integers of the exception tables (section 7.6 of DWARF version 3): the readers of the
 runtime, and the encodings they undo.
 */
module Leb128 {
  import opened Wrappers

  type Byte = n: nat | n < 256

  /** Number of values of a `uintptr_t`. */
  const WORD := 0x1_0000_0000_0000_0000

  type Word = n: nat | n < WORD

  /** Why a read does not deliver: the bytes end, the number has more groups than the `int` shift of the
      readers takes exactly, the runtime aborts, an encoding this model leaves out, a wild pointer. */
  datatype Cause = PastEnd | TooManyGroups | Abort | NotModelled | WildPointer

  /** A value read and the position behind it. */
  datatype Reading = Reading(value: Word, next: nat)

  type ReadResult = Result<Reading, Cause>

  /** `(byte & 0x7f) << shift` is computed in an `int`; up to this many groups it loses nothing. */
  const MAX_GROUPS := 4

  function AsSigned(w: Word): int {
    if w < WORD / 2 then w else w - WORD
  }

  function AsWord(n: int): Word {
    n % WORD
  }

  function Pow2(k: nat): (p: int)
    ensures p > 0
  {
    if k == 0 then 1 else 2 * Pow2(k - 1)
  }

  lemma Pow2By7(k: nat)
    ensures Pow2(k + 7) == 128 * Pow2(k)
  {
    assert Pow2(k + 7) == 2 * Pow2(k + 6) == 4 * Pow2(k + 5) == 8 * Pow2(k + 4) == 16 * Pow2(k + 3);
    assert Pow2(k + 3) == 2 * Pow2(k + 2) == 4 * Pow2(k + 1) == 8 * Pow2(k);
  }

  /** A group without the continuation bit; bit 6 is the sign of the signed form. */
  function LastGroup(byte: Byte, signed: bool): int
    requires byte < 128
  {
    if signed && byte >= 64 then byte as int - 128 else byte
  }

  /** Groups of seven bits, the least significant first; `groups` have been read before. */
  function Decode(data: seq<Byte>, p: nat, signed: bool, groups: nat): Result<(int, nat), Cause>
    decreases MAX_GROUPS - groups
  {
    if groups >= MAX_GROUPS then Err(TooManyGroups)
    else if p >= |data| then Err(PastEnd)
    else if data[p] < 128 then Ok((LastGroup(data[p], signed), p + 1))
    else
      match Decode(data, p + 1, signed, groups + 1)
      case Err(e) => Err(e)
      case Ok((rest, next)) => Ok((data[p] - 128 + 128 * rest, next))
  }

  function Read(data: seq<Byte>, p: nat, signed: bool): ReadResult {
    match Decode(data, p, signed, 0)
    case Err(e) => Err(e)
    case Ok((value, next)) => Ok(Reading(AsWord(value), next))
  }

  lemma {:induction false} DecodeAdvances(data: seq<Byte>, p: nat, signed: bool, groups: nat)
    ensures var r := Decode(data, p, signed, groups);
      r.Ok? ==> p < r.value.1 <= |data| && r.value.1 <= p + MAX_GROUPS - groups
    decreases MAX_GROUPS - groups
  {
    if groups < MAX_GROUPS && p < |data| && data[p] >= 128 {
      DecodeAdvances(data, p + 1, signed, groups + 1);
    }
  }

  lemma ReadAdvances(data: seq<Byte>, p: nat, signed: bool)
    ensures Read(data, p, signed).Ok? ==> p < Read(data, p, signed).value.next <= |data|
  {
    DecodeAdvances(data, p, signed, 0);
  }

  // The readers

  /** `group << shift` */
  function Shifted(group: int, shift: nat): int {
    group * Pow2(shift)
  }

  /** `a | b` */
  function BitOr(a: nat, b: nat): nat {
    if a == 0 then b
    else if b == 0 then a
    else Bit(a % 2 == 1 || b % 2 == 1) + 2 * BitOr(a / 2, b / 2)
  }

  function Bit(b: bool): nat {
    if b then 1 else 0
  }

  /** The `|=` of the readers is an addition: what is shifted lands above the bits already there. */
  lemma {:induction false} OrIsPlus(result: nat, group: nat, shift: nat)
    requires result < Pow2(shift)
    ensures Shifted(group, shift) >= 0 && BitOr(result, Shifted(group, shift)) == result + Shifted(group, shift)
    decreases shift
  {
    if shift > 0 {
      var half := Shifted(group, shift - 1);
      assert Shifted(group, shift) == 2 * half;
      OrIsPlus(result / 2, group, shift - 1);
    }
  }

  /** `~0 << shift` */
  function Ones(shift: nat): int {
    WORD - Pow2(shift)
  }

  lemma OnesAreShifted(groups: nat)
    requires groups <= MAX_GROUPS
    ensures exists k: nat :: Ones(7 * groups) == Shifted(k, 7 * groups)
  {
    FourGroups();
    assert Pow2(0) == 1;
    assert groups == 0 || groups == 1 || groups == 2 || groups == 3 || groups == 4;
    var k: nat := if groups == 0 then WORD - 1 else if groups == 1 then WORD / 0x80 - 1
      else if groups == 2 then WORD / 0x4000 - 1
      else if groups == 3 then WORD / 0x20_0000 - 1 else WORD / 0x1000_0000 - 1;
    assert Ones(7 * groups) == Shifted(k, 7 * groups);
  }

  /** Spreading the sign is an addition, too. */
  lemma SignIsPlus(result: nat, groups: nat)
    requires groups <= MAX_GROUPS && result < Pow2(7 * groups)
    ensures Ones(7 * groups) >= 0 && BitOr(result, Ones(7 * groups)) == result + Ones(7 * groups)
  {
    OnesAreShifted(groups);
    var k: nat :| Ones(7 * groups) == Shifted(k, 7 * groups);
    OrIsPlus(result, k, 7 * groups);
  }

  /** What the groups still to come add to what has been gathered. */
  ghost function Gathered(result: int, shift: nat, rest: Result<(int, nat), Cause>): Result<(int, nat), Cause> {
    match rest
    case Err(e) => Err(e)
    case Ok((value, next)) => Ok((result + Shifted(value, shift), next))
  }

  lemma ShiftGroup(group: int, rest: int, shift: nat)
    ensures Shifted(group + 128 * rest, shift) == Shifted(group, shift) + Shifted(rest, shift + 7)
  {
    Pow2By7(shift);
    var s := Pow2(shift);
    assert (group + 128 * rest) * s == group * s + rest * (128 * s);
  }

  /** One more group stays below the next power. */
  lemma GroupFits(result: nat, shift: nat, group: nat)
    requires result < Pow2(shift) && group < 128
    ensures 0 <= result + Shifted(group, shift) < Pow2(shift + 7)
  {
    Pow2By7(shift);
    assert 0 <= group * Pow2(shift) <= 127 * Pow2(shift);
  }

  lemma FourGroups()
    ensures Pow2(7) == 0x80 && Pow2(14) == 0x4000 && Pow2(21) == 0x20_0000 && Pow2(28) == 0x1000_0000
  {
    Pow2By7(0);
    Pow2By7(7);
    Pow2By7(14);
    Pow2By7(21);
  }

  /** In the middle of a number: `groups` groups have been gathered, the next is at `q`. */
  ghost predicate StillToRead(data: seq<Byte>, p: nat, signed: bool, result: int, shift: nat, q: nat, groups: nat) {
    Decode(data, p, signed, 0) == Gathered(result, shift, Decode(data, q, signed, groups))
  }

  /** The last group was `byte`; its sign is still to be spread. */
  ghost predicate Done(data: seq<Byte>, p: nat, signed: bool, result: int, shift: nat, q: nat, byte: Byte) {
    Decode(data, p, signed, 0) == Ok((result - (if signed && byte >= 64 then Pow2(shift) else 0), q))
  }

  lemma StartGroups(data: seq<Byte>, p: nat, signed: bool)
    ensures Pow2(0) == 1 && StillToRead(data, p, signed, 0, 0, p, 0)
    ensures |data| <= p ==> Read(data, p, signed) == Err(PastEnd)
  {
  }

  /** One round of either reader. */
  lemma ReadGroup(data: seq<Byte>, p: nat, signed: bool, result: nat, shift: nat, q: nat, groups: nat)
    requires StillToRead(data, p, signed, result, shift, q, groups)
    requires groups < MAX_GROUPS && q < |data| && result < Pow2(shift)
    ensures var result' := result + Shifted(data[q] % 128, shift);
      && 0 <= result' < Pow2(shift + 7)
      && (data[q] >= 128 ==> StillToRead(data, p, signed, result', shift + 7, q + 1, groups + 1))
      && (data[q] < 128 ==> Done(data, p, signed, result', shift + 7, q + 1, data[q]))
  {
    GroupFits(result, shift, data[q] % 128);
    if data[q] >= 128 {
      assert data[q] % 128 == data[q] - 128;
      MoreGroups(data, p, signed, result, shift, q, groups, data[q] - 128);
    } else {
      assert data[q] % 128 == data[q];
      ShiftGroup(data[q], -1, shift);
      assert Shifted(-1, shift + 7) == -Pow2(shift + 7);
    }
  }

  lemma MoreGroups(data: seq<Byte>, p: nat, signed: bool, result: nat, shift: nat, q: nat, groups: nat, group: nat)
    requires StillToRead(data, p, signed, result, shift, q, groups)
    requires groups < MAX_GROUPS && q < |data| && data[q] == group + 128
    ensures StillToRead(data, p, signed, result + Shifted(group, shift), shift + 7, q + 1, groups + 1)
  {
    var rest := Decode(data, q + 1, signed, groups + 1);
    if rest.Ok? {
      ShiftGroup(group, rest.value.0, shift);
    }
  }

  lemma FinishWord(data: seq<Byte>, p: nat, signed: bool, result: nat, shift: nat, q: nat, byte: Byte, groups: nat)
    requires Done(data, p, signed, result, shift, q, byte)
    requires shift == 7 * groups && groups <= MAX_GROUPS && result < Pow2(shift)
    ensures shift <= 28 && Pow2(shift) <= 0x1000_0000
    ensures Read(data, p, signed)
      == Ok(Reading(result + (if signed && byte >= 64 then WORD - Pow2(shift) else 0), q))
  {
    BelowWord(result, groups);
    if signed && byte >= 64 {
      AsWordOfNegative(result - Pow2(shift));
    }
  }

  method ReadULEB128(data: seq<Byte>, p: nat) returns (r: ReadResult)
    ensures r == Read(data, p, false)
    ensures r.Ok? ==> p < r.value.next <= |data|
  {
    ReadAdvances(data, p, false);
    StartGroups(data, p, false);
    var result: nat, shift: nat, q: nat := 0, 0, p;
    var byte: Byte := 128;
    ghost var groups: nat := 0;
    while byte >= 128 // `do .. while (byte & 0x80)`
      invariant shift == 7 * groups && groups <= MAX_GROUPS && 0 <= result < Pow2(shift)
      invariant byte >= 128 ==> StillToRead(data, p, false, result, shift, q, groups)
      invariant byte < 128 ==> Done(data, p, false, result, shift, q, byte)
      decreases MAX_GROUPS - groups
    {
      if shift >= 7 * MAX_GROUPS {
        return Err(TooManyGroups);
      }
      if q >= |data| {
        return Err(PastEnd);
      }
      byte := data[q];
      ReadGroup(data, p, false, result, shift, q, groups);
      q := q + 1;
      OrIsPlus(result, byte % 128, shift);
      result := BitOr(result, Shifted(byte % 128, shift));
      shift := shift + 7;
      groups := groups + 1;
    }
    FinishWord(data, p, false, result, shift, q, byte, groups);
    r := Ok(Reading(result, q));
  }

  method ReadSLEB128(data: seq<Byte>, p: nat) returns (r: ReadResult)
    ensures r == Read(data, p, true)
    ensures r.Ok? ==> p < r.value.next <= |data|
  {
    ReadAdvances(data, p, true);
    StartGroups(data, p, true);
    var result: nat, shift: nat, q: nat := 0, 0, p;
    var byte: Byte := 128;
    ghost var groups: nat := 0;
    while byte >= 128 // `do .. while (byte & 0x80)`
      invariant shift == 7 * groups && groups <= MAX_GROUPS && 0 <= result < Pow2(shift)
      invariant byte >= 128 ==> StillToRead(data, p, true, result, shift, q, groups)
      invariant byte < 128 ==> Done(data, p, true, result, shift, q, byte)
      decreases MAX_GROUPS - groups
    {
      if shift >= 7 * MAX_GROUPS {
        return Err(TooManyGroups);
      }
      if q >= |data| {
        return Err(PastEnd);
      }
      byte := data[q];
      ReadGroup(data, p, true, result, shift, q, groups);
      q := q + 1;
      OrIsPlus(result, byte % 128, shift);
      result := BitOr(result, Shifted(byte % 128, shift));
      shift := shift + 7;
      groups := groups + 1;
    }
    FinishWord(data, p, true, result, shift, q, byte, groups);
    if byte / 64 % 2 == 1 && shift < 64 {
      SignIsPlus(result, groups);
      result := BitOr(result, Ones(shift));
    }
    r := Ok(Reading(result, q));
  }

  lemma BelowWord(result: nat, groups: nat)
    requires groups <= MAX_GROUPS && result < Pow2(7 * groups)
    ensures result < Pow2(7 * groups) <= 0x1000_0000 && AsWord(result) == result
  {
    FourGroups();
    assert groups == 0 || groups == 1 || groups == 2 || groups == 3 || groups == 4;
  }

  lemma AsWordOfNegative(n: int)
    requires -WORD <= n < 0
    ensures AsWord(n) == n + WORD
  {
  }

  // The encodings

  function EncodeUnsigned(n: nat): (bytes: seq<Byte>)
    ensures |bytes| > 0
  {
    if n < 128 then [n] else [n % 128 + 128] + EncodeUnsigned(n / 128)
  }

  function EncodeSigned(n: int): (bytes: seq<Byte>)
    ensures |bytes| > 0
    decreases if n < 0 then -n else n
  {
    if -64 <= n < 64 then [n % 128] else [n % 128 + 128] + EncodeSigned(n / 128)
  }

  lemma {:induction false} DecodeEncodedUnsigned(n: nat, pre: seq<Byte>, post: seq<Byte>, groups: nat)
    requires groups < MAX_GROUPS && n < Pow2(7 * (MAX_GROUPS - groups))
    ensures Decode(pre + EncodeUnsigned(n) + post, |pre|, false, groups) == Ok((n, |pre| + |EncodeUnsigned(n)|))
    decreases n
  {
    var data := pre + EncodeUnsigned(n) + post;
    if n >= 128 {
      Pow2By7(7 * (MAX_GROUPS - groups) - 7);
      assert n / 128 < Pow2(7 * (MAX_GROUPS - groups - 1));
      var pre' := pre + [n % 128 + 128];
      assert data == pre' + EncodeUnsigned(n / 128) + post;
      DecodeEncodedUnsigned(n / 128, pre', post, groups + 1);
    }
  }

  lemma NextGroup(n: int, bits: nat)
    requires -Pow2(bits + 7) <= 2 * n < Pow2(bits + 7) && !(-64 <= n < 64)
    ensures bits > 0 && -Pow2(bits) <= 2 * (n / 128) < Pow2(bits)
  {
    Pow2By7(bits);
  }

  lemma {:induction false} DecodeEncodedSigned(n: int, pre: seq<Byte>, post: seq<Byte>, groups: nat)
    requires groups < MAX_GROUPS
    requires -Pow2(7 * (MAX_GROUPS - groups)) <= 2 * n < Pow2(7 * (MAX_GROUPS - groups))
    ensures Decode(pre + EncodeSigned(n) + post, |pre|, true, groups) == Ok((n, |pre| + |EncodeSigned(n)|))
    decreases if n < 0 then -n else n
  {
    var data := pre + EncodeSigned(n) + post;
    if !(-64 <= n < 64) {
      NextGroup(n, 7 * (MAX_GROUPS - groups) - 7);
      var pre' := pre + [n % 128 + 128];
      assert data == pre' + EncodeSigned(n / 128) + post;
      DecodeEncodedSigned(n / 128, pre', post, groups + 1);
    }
  }

  /** Reading an encoded number below 2^28 gives it back and stops right behind it. */
  lemma UnsignedRoundTrip(n: nat, pre: seq<Byte>, post: seq<Byte>)
    requires n < 0x1000_0000
    ensures Read(pre + EncodeUnsigned(n) + post, |pre|, false) == Ok(Reading(n, |pre| + |EncodeUnsigned(n)|))
  {
    FourGroups();
    DecodeEncodedUnsigned(n, pre, post, 0);
  }

  /** The same for signed numbers of 28 bits. */
  lemma SignedRoundTrip(n: int, pre: seq<Byte>, post: seq<Byte>)
    requires -0x800_0000 <= n < 0x800_0000
    ensures Read(pre + EncodeSigned(n) + post, |pre|, true) == Ok(Reading(AsWord(n), |pre| + |EncodeSigned(n)|))
    ensures AsSigned(AsWord(n)) == n
  {
    FourGroups();
    DecodeEncodedSigned(n, pre, post, 0);
  }
}
