/**
 The action table of an exception table: chains of type filters, and the type they are matched against.
 */
module ActionTable {
  import opened Wrappers
  import opened Leb128
  import opened EncodedPointer

  // Type table

  /** The type table ends at `classInfo`; `typeOf` is the `type` field behind each type info pointer. */
  datatype TypeTable = TypeTable(data: seq<Byte>, classInfo: nat, encoding: Byte, typeOf: map<Word, int>) {

    /** Type of the `filter`-th entry, counted backwards from the end. */
    function Lookup(filter: int): Result<int, Cause> {
      match EncodingSize(encoding)
      case Err(e) => Err(e)
      case Ok(size) =>
        var entry := if encoding == DW_EH_PE_OMIT then 0 else classInfo - filter * size;
        if entry < 0 then Err(PastEnd)
        else
          match ReadPointer(data, entry, encoding)
          case Err(e) => Err(e)
          case Ok(r) => if r.value in typeOf then Ok(typeOf[r.value]) else Err(WildPointer)
    }
  }

  predicate AllEncodable(encoding: Byte, pointers: seq<Word>) {
    forall i :: 0 <= i < |pointers| ==> Encodable(encoding, pointers[i])
  }

  /** The blocks one before the other. */
  function Backwards(blocks: seq<seq<Byte>>): seq<Byte> {
    if blocks == [] then [] else Backwards(blocks[1..]) + blocks[0]
  }

  /** The pointers in the order of their filters: the last one is written first. */
  function EncodeTypes(encoding: Byte, pointers: seq<Word>): seq<Byte>
    requires AllEncodable(encoding, pointers)
  {
    Backwards(seq(|pointers|, i requires 0 <= i < |pointers| => EncodePointer(encoding, pointers[i])))
  }

  lemma EntryLength(encoding: Byte, w: Word)
    requires EncodingSize(encoding).Ok? && Encodable(encoding, w)
    ensures |EncodePointer(encoding, w)| == EncodingSize(encoding).value
  {
  }

  /** What stands before and behind the `k`-th block, counted from 1 and backwards. */
  lemma {:induction false} SplitBackwards(blocks: seq<seq<Byte>>, k: nat, size: nat)
    returns (a: seq<Byte>, b: seq<Byte>)
    requires 1 <= k <= |blocks| && forall i :: 0 <= i < |blocks| ==> |blocks[i]| == size
    ensures Backwards(blocks) == a + blocks[k - 1] + b
    ensures |b| == (k - 1) * size
    decreases k
  {
    if k == 1 {
      a, b := Backwards(blocks[1..]), [];
    } else {
      var b';
      a, b' := SplitBackwards(blocks[1..], k - 1, size);
      b := b' + blocks[0];
      OneLess(k - 1, size);
    }
  }

  lemma OneLess(k: nat, size: nat)
    ensures k * size == (k - 1) * size + size
  {
  }

  lemma EntryReadBack(encoding: Byte, w: Word, size: nat, pre: seq<Byte>, post: seq<Byte>, data: seq<Byte>, entry: int)
    requires EncodingSize(encoding) == Ok(size) && Encodable(encoding, w)
    requires data == pre + EncodePointer(encoding, w) + post && entry + size == |data| - |post|
    ensures entry == |pre| && ReadPointer(data, entry, encoding) == Ok(Reading(w, entry + size))
  {
    EntryLength(encoding, w);
    PointerRoundTrip(encoding, w, pre, post);
  }

  lemma SplitTypes(encoding: Byte, pointers: seq<Word>, filter: nat, size: nat) returns (a: seq<Byte>, b: seq<Byte>)
    requires EncodingSize(encoding) == Ok(size) && AllEncodable(encoding, pointers)
    requires 1 <= filter <= |pointers|
    ensures EncodeTypes(encoding, pointers) == a + EncodePointer(encoding, pointers[filter - 1]) + b
    ensures |b| == filter * size - size
  {
    var blocks := seq(|pointers|, i requires 0 <= i < |pointers| => EncodePointer(encoding, pointers[i]));
    forall i | 0 <= i < |blocks|
      ensures |blocks[i]| == size
    {
      EntryLength(encoding, pointers[i]);
    }
    a, b := SplitBackwards(blocks, filter, size);
    OneLess(filter, size);
  }

  lemma EntryRoundTrip(encoding: Byte, pointers: seq<Word>, filter: nat, size: nat, pre: seq<Byte>, post: seq<Byte>)
    requires EncodingSize(encoding) == Ok(size) && AllEncodable(encoding, pointers)
    requires 1 <= filter <= |pointers|
    ensures var types := EncodeTypes(encoding, pointers);
      var entry := |pre| + |types| - filter * size;
      entry >= 0 && ReadPointer(pre + types + post, entry, encoding) == Ok(Reading(pointers[filter - 1], entry + size))
  {
    var a, b := SplitTypes(encoding, pointers, filter, size);
    Regroup(pre, a, EncodePointer(encoding, pointers[filter - 1]), b, post);
    var data := pre + EncodeTypes(encoding, pointers) + post;
    EntryReadBack(encoding, pointers[filter - 1], size, pre + a, b + post, data, |data| - |post| - filter * size);
  }

  lemma Regroup(pre: seq<Byte>, a: seq<Byte>, x: seq<Byte>, b: seq<Byte>, post: seq<Byte>)
    ensures pre + (a + x + b) + post == (pre + a) + x + (b + post)
  {
  }

  /** In a type table written for `pointers`, every filter finds the type of its pointer. */
  lemma LookupEncoded(encoding: Byte, pointers: seq<Word>, pre: seq<Byte>, post: seq<Byte>, typeOf: map<Word, int>,
      filter: nat)
    requires EncodingSize(encoding).Ok? && encoding != DW_EH_PE_OMIT && AllEncodable(encoding, pointers)
    requires 1 <= filter <= |pointers| && pointers[filter - 1] in typeOf
    ensures var types := EncodeTypes(encoding, pointers);
      TypeTable(pre + types + post, |pre| + |types|, encoding, typeOf).Lookup(filter)
        == Ok(typeOf[pointers[filter - 1]])
  {
    EntryRoundTrip(encoding, pointers, filter, EncodingSize(encoding).value, pre, post);
  }

  // Action chains

  /** An action record: its filter and the distance of the next record from `base`, 0 for none. */
  datatype Action = Action(filter: int, offset: int, base: nat)

  function ReadAction(data: seq<Byte>, pos: int): Result<Action, Cause> {
    if pos < 0 then Err(PastEnd)
    else
      match Read(data, pos, true)
      case Err(e) => Err(e)
      case Ok(filter) =>
        match Read(data, filter.next, true)
        case Err(e) => Err(e)
        case Ok(offset) => Ok(Action(AsSigned(filter.value), AsSigned(offset.value), filter.next))
  }

  /** The chain at `pos` ends, and these are its filters. */
  predicate ChainIs(data: seq<Byte>, pos: int, filters: seq<int>)
    decreases |filters|
  {
    && filters != []
    && ReadAction(data, pos).Ok?
    && var a := ReadAction(data, pos).value;
       && a.filter == filters[0]
       && (a.offset == 0 <==> |filters| == 1)
       && (a.offset != 0 ==> ChainIs(data, a.base + a.offset, filters[1..]))
  }

  /** The chain at `pos` begins with these filters, whatever follows. */
  predicate ChainBegins(data: seq<Byte>, pos: int, filters: seq<int>)
    decreases |filters|
  {
    && filters != []
    && ReadAction(data, pos).Ok?
    && var a := ReadAction(data, pos).value;
       && a.filter == filters[0]
       && (|filters| > 1 ==> a.offset != 0 && ChainBegins(data, a.base + a.offset, filters[1..]))
  }

  /** A record to be written: the distance leads from the end of its filter to the next record, 0 for none. */
  datatype Record = Record(filter: int, offset: int) {
    predicate Small() {
      -0x800_0000 <= filter < 0x800_0000 && -0x800_0000 <= offset < 0x800_0000
    }

    function Encode(): seq<Byte> {
      EncodeSigned(filter) + EncodeSigned(offset)
    }

    predicate StandsIn(actions: seq<Byte>, at: nat) {
      Small() && Encode() <= SuffixAt(actions, at)
    }

    /** From the start of the record to the start of the next one. */
    function Distance(): int {
      |EncodeSigned(filter)| + offset
    }
  }

  function Filters(records: seq<Record>): (filters: seq<int>)
    ensures |filters| == |records|
    ensures forall i :: 0 <= i < |records| ==> filters[i] == records[i].filter
  {
    seq(|records|, i requires 0 <= i < |records| => records[i].filter)
  }

  /** Records and where each of them starts in an action table. */
  datatype Chain = Chain(starts: seq<int>, records: seq<Record>) {

    /** The records stand there, linked in any order and with any gaps; chains may share their last records. */
    predicate WrittenIn(actions: seq<Byte>) {
      && |starts| == |records| > 0
      && forall i :: 0 <= i < |records| ==> LinkedAt(actions, i)
    }

    predicate LinkedAt(actions: seq<Byte>, i: nat)
      requires i < |records| == |starts|
    {
      && 0 <= starts[i] && records[i].StandsIn(actions, starts[i])
      && if i == |records| - 1 then records[i].offset == 0
         else records[i].offset != 0 && starts[i + 1] == starts[i] + records[i].Distance()
    }
  }

  function SuffixAt(actions: seq<Byte>, at: nat): seq<Byte> {
    if at <= |actions| then actions[at..] else []
  }

  /** Consecutive records, each leading to the one behind it. */
  function Consecutive(filters: seq<int>): (records: seq<Record>)
    ensures |records| == |filters|
  {
    if filters == [] then []
    else [Record(filters[0], if |filters| == 1 then 0 else 1)] + Consecutive(filters[1..])
  }

  function EncodeRecords(records: seq<Record>): seq<Byte> {
    if records == [] then [] else records[0].Encode() + EncodeRecords(records[1..])
  }

  lemma SignedAt(n: int, pre: seq<Byte>, post: seq<Byte>, data: seq<Byte>)
    requires -0x800_0000 <= n < 0x800_0000 && data == pre + EncodeSigned(n) + post
    ensures Read(data, |pre|, true).Ok?
    ensures var r := Read(data, |pre|, true).value; AsSigned(r.value) == n && r.next == |pre| + |EncodeSigned(n)|
  {
    SignedRoundTrip(n, pre, post);
  }

  lemma ActionFromParts(data: seq<Byte>, pos: nat, filter: Reading, offset: Reading)
    requires Read(data, pos, true) == Ok(filter) && Read(data, filter.next, true) == Ok(offset)
    ensures ReadAction(data, pos) == Ok(Action(AsSigned(filter.value), AsSigned(offset.value), filter.next))
  {
  }

  lemma FilterThenRest(filter: int, pre: seq<Byte>, o: seq<Byte>, post: seq<Byte>, data: seq<Byte>)
    requires -0x800_0000 <= filter < 0x800_0000 && data == pre + (EncodeSigned(filter) + o) + post
    ensures Read(data, |pre|, true).Ok?
    ensures var r := Read(data, |pre|, true).value;
      AsSigned(r.value) == filter && r.next == |pre| + |EncodeSigned(filter)|
  {
    var f := EncodeSigned(filter);
    Regroup(pre, [], f, o, post);
    assert [] + f + o == f + o && pre + [] == pre;
    SignedAt(filter, pre, o + post, data);
  }

  lemma OffsetBehind(offset: int, pre: seq<Byte>, f: seq<Byte>, post: seq<Byte>, data: seq<Byte>)
    requires -0x800_0000 <= offset < 0x800_0000 && data == pre + (f + EncodeSigned(offset)) + post
    ensures Read(data, |pre| + |f|, true).Ok? && AsSigned(Read(data, |pre| + |f|, true).value.value) == offset
  {
    var o := EncodeSigned(offset);
    Regroup(pre, f, o, [], post);
    assert f + o + [] == f + o && [] + post == post;
    SignedAt(offset, pre + f, post, data);
  }

  lemma RecordRoundTrip(filter: int, offset: int, pre: seq<Byte>, post: seq<Byte>, data: seq<Byte>)
    requires -0x800_0000 <= filter < 0x800_0000 && -0x800_0000 <= offset < 0x800_0000
    requires data == pre + (EncodeSigned(filter) + EncodeSigned(offset)) + post
    ensures ReadAction(data, |pre|) == Ok(Action(filter, offset, |pre| + |EncodeSigned(filter)|))
  {
    FilterThenRest(filter, pre, EncodeSigned(offset), post, data);
    OffsetBehind(offset, pre, EncodeSigned(filter), post, data);
    var r := Read(data, |pre|, true).value;
    ActionFromParts(data, |pre|, r, Read(data, r.next, true).value);
  }

  lemma Around(actions: seq<Byte>, at: nat, bytes: seq<Byte>, pre: seq<Byte>, post: seq<Byte>)
    returns (x: seq<Byte>, y: seq<Byte>)
    requires bytes <= SuffixAt(actions, at) && bytes != []
    ensures pre + actions + post == x + bytes + y && |x| == |pre| + at
  {
    x, y := pre + actions[..at], actions[at + |bytes|..] + post;
    assert actions[at..] == bytes + actions[at + |bytes|..];
    assert actions == actions[..at] + bytes + actions[at + |bytes|..];
  }

  lemma RecordBetween(record: Record, x: seq<Byte>, y: seq<Byte>, data: seq<Byte>) returns (a: Action)
    requires record.Small() && data == x + record.Encode() + y
    ensures ReadAction(data, |x|) == Ok(a)
    ensures a.filter == record.filter && a.offset == record.offset && a.base + a.offset == |x| + record.Distance()
  {
    RecordRoundTrip(record.filter, record.offset, x, y, data);
    a := ReadAction(data, |x|).value;
  }

  lemma WrittenRead(actions: seq<Byte>, at: nat, record: Record, pre: seq<Byte>, post: seq<Byte>, data: seq<Byte>)
    returns (a: Action)
    requires record.StandsIn(actions, at) && data == pre + actions + post
    ensures ReadAction(data, |pre| + at) == Ok(a)
    ensures a.filter == record.filter && a.offset == record.offset
    ensures a.base + a.offset == |pre| + at + record.Distance()
  {
    assert |record.Encode()| > 0;
    var x, y := Around(actions, at, record.Encode(), pre, post);
    a := RecordBetween(record, x, y, data);
  }

  lemma LinkRead(actions: seq<Byte>, chain: Chain, i: nat, pre: seq<Byte>, post: seq<Byte>, data: seq<Byte>)
    returns (a: Action)
    requires chain.WrittenIn(actions) && i < |chain.records| && data == pre + actions + post
    ensures ReadAction(data, |pre| + chain.starts[i]) == Ok(a) && a.filter == chain.records[i].filter
    ensures a.offset == 0 <==> i == |chain.records| - 1
    ensures i < |chain.records| - 1 ==> a.base + a.offset == |pre| + chain.starts[i + 1]
  {
    assert chain.LinkedAt(actions, i);
    a := WrittenRead(actions, chain.starts[i], chain.records[i], pre, post, data);
  }

  lemma {:induction false} ChainFrom(actions: seq<Byte>, chain: Chain, i: nat, pre: seq<Byte>, post: seq<Byte>,
      data: seq<Byte>)
    requires chain.WrittenIn(actions) && i < |chain.records| && data == pre + actions + post
    ensures ChainIs(data, |pre| + chain.starts[i], Filters(chain.records)[i..])
    decreases |chain.records| - i
  {
    var a := LinkRead(actions, chain, i, pre, post, data);
    var filters := Filters(chain.records);
    if i < |chain.records| - 1 {
      ChainFrom(actions, chain, i + 1, pre, post, data);
      assert filters[i..][1..] == filters[i + 1..];
    }
  }

  /** A chain written in an action table is read back, wherever the table stands. */
  lemma ChainRoundTrip(actions: seq<Byte>, chain: Chain, pre: seq<Byte>, post: seq<Byte>)
    requires chain.WrittenIn(actions)
    ensures ChainIs(pre + actions + post, |pre| + chain.starts[0], Filters(chain.records))
  {
    ChainFrom(actions, chain, 0, pre, post, pre + actions + post);
    assert Filters(chain.records)[0..] == Filters(chain.records);
  }

  lemma FirstConsecutive(filter: int, offset: int, before: seq<Byte>, rest: seq<Byte>, after: seq<Byte>)
    requires -0x800_0000 <= filter < 0x800_0000 && (offset == 0 || offset == 1)
    ensures var first := Record(filter, offset);
      && first.StandsIn(before + (first.Encode() + rest) + after, |before|)
      && before + (first.Encode() + rest) + after == before + first.Encode() + rest + after
      && (offset == 1 ==> first.Distance() == |first.Encode()|)
  {
    var first := Record(filter, offset);
    var actions := before + (first.Encode() + rest) + after;
    assert actions[|before|..] == first.Encode() + (rest + after);
  }

  /** Records one behind the other are such a chain. */
  lemma {:induction false} ConsecutiveWritten(filters: seq<int>, before: seq<Byte>, after: seq<Byte>)
    returns (chain: Chain)
    requires filters != [] && forall i :: 0 <= i < |filters| ==> -0x800_0000 <= filters[i] < 0x800_0000
    ensures chain.records == Consecutive(filters) && chain.WrittenIn(before + EncodeRecords(chain.records) + after)
    ensures chain.starts[0] == |before|
    decreases |filters|
  {
    var records := Consecutive(filters);
    var actions := before + EncodeRecords(records) + after;
    FirstConsecutive(filters[0], records[0].offset, before, EncodeRecords(records[1..]), after);
    if |filters| == 1 {
      chain := Chain([|before|], records);
    } else {
      var rest := ConsecutiveWritten(filters[1..], before + records[0].Encode(), after);
      chain := Chain([|before|] + rest.starts, [records[0]] + rest.records);
      LinkedInFront(chain, rest, actions);
    }
  }

  lemma LinkedInFront(chain: Chain, rest: Chain, actions: seq<Byte>)
    requires rest.WrittenIn(actions) && |chain.starts| == |chain.records| == |rest.records| + 1
    requires chain.starts[1..] == rest.starts && chain.records[1..] == rest.records && chain.LinkedAt(actions, 0)
    ensures chain.WrittenIn(actions)
  {
    forall i | 0 <= i < |chain.records|
      ensures chain.LinkedAt(actions, i)
    {
      assert i > 0 ==> rest.LinkedAt(actions, i - 1);
    }
  }

  // Matching

  datatype ActionMatch = Matched(value: nat) | NoMatch | MatchFailed(cause: Cause) | Endless

  /** The walk of a chain from its record `i + 1` on; `Endless` if `n` records do not decide. */
  function Walk(table: TypeTable, pos: int, kind: int, i: nat, n: nat): ActionMatch
    decreases n
  {
    if n == 0 then Endless
    else
      match ReadAction(table.data, pos)
      case Err(e) => MatchFailed(e)
      case Ok(a) =>
        if a.filter < 0 then MatchFailed(Abort)
        else if Hits(table, a.filter, kind) then Matched(i + 1)
        else if !Passes(table, a.filter, kind) then MatchFailed(table.Lookup(a.filter).error)
        else if a.offset == 0 then NoMatch
        else Walk(table, a.base + a.offset, kind, i + 1, n - 1)
  }

  predicate Hits(table: TypeTable, filter: int, kind: int) {
    filter > 0 && table.Lookup(filter) == Ok(kind)
  }

  /** A cleanup, or a type that can be read and is another one. */
  predicate Passes(table: TypeTable, filter: int, kind: int) {
    filter == 0 || (filter > 0 && table.Lookup(filter).Ok? && table.Lookup(filter).value != kind)
  }

  /** Where a walk goes from a record that passes and links on. */
  function NextRecord(table: TypeTable, pos: int, kind: int): (next: Option<int>)
    ensures next.Some? ==> 0 <= pos < |table.data|
  {
    if pos < 0 then None
    else
      ReadAdvances(table.data, pos, true);
      match ReadAction(table.data, pos)
      case Err(_) => None
      case Ok(a) => if Passes(table, a.filter, kind) && a.offset != 0 then Some(a.base + a.offset) else None
  }

  /** Where the walk is after `n` such records. */
  function After(table: TypeTable, pos: int, kind: int, n: nat): Option<int>
    decreases n
  {
    if n == 0 then Some(pos)
    else if NextRecord(table, pos, kind).None? then None
    else After(table, NextRecord(table, pos, kind).value, kind, n - 1)
  }

  /** There are more records that pass and link on than the data have positions. */
  predicate OutlastsData(table: TypeTable, pos: int, kind: int) {
    After(table, pos, kind, |table.data| + 1).Some?
  }

  /** The result of the walk. */
  function ChainMatch(table: TypeTable, pos: int, kind: int): ActionMatch {
    Walk(table, pos, kind, 0, |table.data| + 1)
  }

  lemma {:induction false} UndecidedIffAfter(table: TypeTable, pos: int, kind: int, i: nat, n: nat)
    ensures Walk(table, pos, kind, i, n) == Endless <==> After(table, pos, kind, n).Some?
    decreases n
  {
    if n > 0 && NextRecord(table, pos, kind).Some? {
      UndecidedIffAfter(table, NextRecord(table, pos, kind).value, kind, i + 1, n - 1);
    }
  }

  lemma {:induction false} AfterSum(table: TypeTable, pos: int, kind: int, m: nat, n: nat)
    ensures After(table, pos, kind, m + n)
      == if After(table, pos, kind, m).None? then None else After(table, After(table, pos, kind, m).value, kind, n)
    decreases m
  {
    if m > 0 && NextRecord(table, pos, kind).Some? {
      AfterSum(table, NextRecord(table, pos, kind).value, kind, m - 1, n);
    }
  }

  lemma AfterFewer(table: TypeTable, pos: int, kind: int, m: nat, n: nat)
    requires m <= n && After(table, pos, kind, n).Some?
    ensures After(table, pos, kind, m).Some?
  {
    AfterSum(table, pos, kind, m, n - m);
  }

  /** Among more numbers than there are values, two are equal. */
  lemma {:induction false} Pigeonhole(s: seq<int>, n: nat) returns (i: nat, j: nat)
    requires |s| > n && forall k :: 0 <= k < |s| ==> 0 <= s[k] < n
    ensures i < j < |s| && s[i] == s[j]
    decreases n
  {
    var last := |s| - 1;
    if k :| 0 <= k < last && s[k] == s[last] {
      return k, last;
    }
    // the last value is free in front: put the largest one there
    var front := seq(last, k requires 0 <= k < last => if s[k] == n - 1 then s[last] else s[k]);
    i, j := Pigeonhole(front, n - 1);
  }

  /** The walk comes back to a record. */
  predicate ComesBack(table: TypeTable, pos: int, kind: int, m: nat, n: nat) {
    m < n && After(table, pos, kind, m).Some? && After(table, pos, kind, n) == After(table, pos, kind, m)
  }

  lemma OutlastingComesBack(table: TypeTable, pos: int, kind: int) returns (m: nat, n: nat)
    requires OutlastsData(table, pos, kind)
    ensures ComesBack(table, pos, kind, m, n) && n <= |table.data|
  {
    var size := |table.data|;
    forall k | 0 <= k <= size
      ensures After(table, pos, kind, k).Some? && 0 <= After(table, pos, kind, k).value < size
    {
      AfterFewer(table, pos, kind, k + 1, size + 1);
      AfterSum(table, pos, kind, k, 1);
    }
    var places := seq(size + 1, k requires 0 <= k < size + 1 => After(table, pos, kind, k).value);
    m, n := Pigeonhole(places, size);
  }

  lemma {:induction false} RoundAndRound(table: TypeTable, pos: int, kind: int, m: nat, n: nat, k: nat)
    requires ComesBack(table, pos, kind, m, n)
    ensures After(table, pos, kind, k).Some?
    decreases k
  {
    if k > n {
      RoundAndRound(table, pos, kind, m, n, k - (n - m));
      AfterSum(table, pos, kind, m, k - n);
      AfterSum(table, pos, kind, n, k - n);
      assert m + (k - n) == k - (n - m) && n + (k - n) == k;
    } else {
      AfterFewer(table, pos, kind, k, n);
    }
  }

  /**
   A walk goes on for ever if and only if it comes back to a record, every filter on the way passing; and it
   has done so after as many records as there are bytes, so that many records tell.
   */
  lemma EndlessIff(table: TypeTable, pos: int, kind: int)
    ensures (forall n: nat :: Walk(table, pos, kind, 0, n) == Endless) <==> OutlastsData(table, pos, kind)
    ensures OutlastsData(table, pos, kind) <==> exists m: nat, n: nat :: ComesBack(table, pos, kind, m, n)
    ensures ChainMatch(table, pos, kind) == Endless <==> OutlastsData(table, pos, kind)
  {
    UndecidedIffAfter(table, pos, kind, 0, |table.data| + 1);
    if OutlastsData(table, pos, kind) {
      var m, n := OutlastingComesBack(table, pos, kind);
      forall k: nat
        ensures Walk(table, pos, kind, 0, k) == Endless
      {
        RoundAndRound(table, pos, kind, m, n, k);
        UndecidedIffAfter(table, pos, kind, 0, k);
      }
    }
    if m: nat, n: nat :| ComesBack(table, pos, kind, m, n) {
      RoundAndRound(table, pos, kind, m, n, |table.data| + 1);
    }
  }

  lemma {:induction false} WalkStable(table: TypeTable, pos: int, kind: int, i: nat, n: nat, m: nat)
    requires n <= m && Walk(table, pos, kind, i, n) != Endless
    ensures Walk(table, pos, kind, i, m) == Walk(table, pos, kind, i, n)
    decreases n
  {
    if ReadAction(table.data, pos).Ok? {
      var a := ReadAction(table.data, pos).value;
      if Passes(table, a.filter, kind) && a.offset != 0 {
        WalkStable(table, a.base + a.offset, kind, i + 1, n - 1, m - 1);
      }
    }
  }

  /** However many records it takes to decide. */
  lemma WalkDecides(table: TypeTable, pos: int, kind: int, n: nat)
    requires Walk(table, pos, kind, 0, n) != Endless
    ensures ChainMatch(table, pos, kind) == Walk(table, pos, kind, 0, n)
  {
    EndlessIff(table, pos, kind);
    if n <= |table.data| + 1 {
      WalkStable(table, pos, kind, 0, n, |table.data| + 1);
    } else {
      WalkStable(table, pos, kind, 0, |table.data| + 1, n);
    }
  }

  /** A chain begins with filters that pass and the last of which hits. */
  predicate HitBy(table: TypeTable, pos: int, kind: int, filters: seq<int>) {
    && ChainBegins(table.data, pos, filters)
    && Hits(table, filters[|filters| - 1], kind)
    && AllPass(table, filters[..|filters| - 1], kind)
  }

  /** A chain ends and all its filters pass. */
  predicate PassedBy(table: TypeTable, pos: int, kind: int, filters: seq<int>) {
    ChainIs(table.data, pos, filters) && AllPass(table, filters, kind)
  }

  predicate AllPass(table: TypeTable, filters: seq<int>, kind: int) {
    forall j :: 0 <= j < |filters| ==> Passes(table, filters[j], kind)
  }

  lemma AllPassCons(table: TypeTable, first: int, rest: seq<int>, kind: int)
    ensures AllPass(table, [first] + rest, kind) <==> Passes(table, first, kind) && AllPass(table, rest, kind)
  {
    var all := [first] + rest;
    if AllPass(table, all, kind) {
      assert Passes(table, all[0], kind);
      forall j | 0 <= j < |rest|
        ensures Passes(table, rest[j], kind)
      {
        assert Passes(table, all[j + 1], kind);
      }
    }
  }

  lemma HitCons(table: TypeTable, pos: int, kind: int, filters: seq<int>)
    requires |filters| > 1 && ReadAction(table.data, pos).Ok?
    ensures var a := ReadAction(table.data, pos).value;
      HitBy(table, pos, kind, filters) <==>
        && a.filter == filters[0] && Passes(table, filters[0], kind) && a.offset != 0
        && HitBy(table, a.base + a.offset, kind, filters[1..])
  {
    var rest := filters[1..];
    assert filters[..|filters| - 1] == [filters[0]] + rest[..|rest| - 1];
    AllPassCons(table, filters[0], rest[..|rest| - 1], kind);
  }

  lemma {:induction false} HitDecides(table: TypeTable, pos: int, kind: int, i: nat, filters: seq<int>)
    requires HitBy(table, pos, kind, filters)
    ensures Walk(table, pos, kind, i, |filters|) == Matched(i + |filters|)
    decreases |filters|
  {
    if |filters| > 1 {
      HitCons(table, pos, kind, filters);
      var a := ReadAction(table.data, pos).value;
      HitDecides(table, a.base + a.offset, kind, i + 1, filters[1..]);
    }
  }

  lemma {:induction false} PassedDecides(table: TypeTable, pos: int, kind: int, i: nat, filters: seq<int>)
    requires PassedBy(table, pos, kind, filters)
    ensures Walk(table, pos, kind, i, |filters|) == NoMatch
    decreases |filters|
  {
    AllPassCons(table, filters[0], filters[1..], kind);
    assert filters == [filters[0]] + filters[1..];
    if |filters| > 1 {
      var a := ReadAction(table.data, pos).value;
      PassedDecides(table, a.base + a.offset, kind, i + 1, filters[1..]);
    }
  }

  /** The filters a walk saw. */
  lemma {:induction false} WalkSaw(table: TypeTable, pos: int, kind: int, i: nat, n: nat) returns (filters: seq<int>)
    requires Walk(table, pos, kind, i, n).Matched? || Walk(table, pos, kind, i, n).NoMatch?
    ensures Walk(table, pos, kind, i, n).Matched? ==>
      HitBy(table, pos, kind, filters) && Walk(table, pos, kind, i, n).value == i + |filters|
    ensures Walk(table, pos, kind, i, n).NoMatch? ==> PassedBy(table, pos, kind, filters)
    decreases n
  {
    var a := ReadAction(table.data, pos).value;
    if Hits(table, a.filter, kind) || a.offset == 0 {
      filters := [a.filter];
    } else {
      var rest := WalkSaw(table, a.base + a.offset, kind, i + 1, n - 1);
      filters := [a.filter] + rest;
      assert filters[1..] == rest;
      HitCons(table, pos, kind, filters);
      AllPassCons(table, a.filter, rest, kind);
    }
  }

  /**
   For any bytes: the result is `k` if and only if the chain begins with `k` readable filters, the last one
   naming the type and the others passing; there is no match if and only if the chain ends and all pass.
   */
  lemma ChainMatchIff(table: TypeTable, pos: int, kind: int, k: nat)
    ensures ChainMatch(table, pos, kind) == Matched(k)
      <==> exists filters :: |filters| == k && HitBy(table, pos, kind, filters)
    ensures ChainMatch(table, pos, kind) == NoMatch <==> exists filters :: PassedBy(table, pos, kind, filters)
  {
    var m := ChainMatch(table, pos, kind);
    if m.Matched? || m.NoMatch? {
      var filters := WalkSaw(table, pos, kind, 0, |table.data| + 1);
    }
    if filters :| |filters| == k && HitBy(table, pos, kind, filters) {
      HitDecides(table, pos, kind, 0, filters);
      WalkDecides(table, pos, kind, |filters|);
    }
    if filters :| PassedBy(table, pos, kind, filters) {
      PassedDecides(table, pos, kind, 0, filters);
      WalkDecides(table, pos, kind, |filters|);
    }
  }

  /** A record of the bytes 0 and 127 is a cleanup that links to itself. */
  lemma EndlessChain(table: TypeTable, kind: int)
    requires table.data == [0, 127]
    ensures ChainMatch(table, 0, kind) == Endless
  {
    assert ReadAction(table.data, 0) == Ok(Action(0, -1, 1));
    assert After(table, 0, kind, 1) == After(table, 0, kind, 0);
    assert ComesBack(table, 0, kind, 0, 1);
    EndlessIff(table, 0, kind);
  }

  /** The walk of the chain; one that comes back to a record keeps the runtime in its loop. */
  method HandleActionValue(table: TypeTable, actionEntry: int, ours: bool, thrown: Option<int>) returns (r: ActionMatch)
    requires ours && thrown.Some? ==> !OutlastsData(table, actionEntry, thrown.value)
    ensures r == if ours && thrown.Some? then ChainMatch(table, actionEntry, thrown.value) else NoMatch
    ensures r != Endless
  {
    if thrown.None? || !ours {
      return NoMatch;
    }
    var kind := thrown.value;
    EndlessIff(table, actionEntry, kind);
    ghost var result, left: nat := ChainMatch(table, actionEntry, kind), |table.data| + 1;
    var actionPos, i: nat := actionEntry, 0;
    while true
      invariant Walk(table, actionPos, kind, i, left) == result != Endless
      decreases left
    {
      var record := ParseAction(table.data, actionPos);
      if record.Err? {
        return MatchFailed(record.error);
      }
      var Action(typeOffset, actionOffset, base) := record.value;
      if typeOffset < 0 {
        return MatchFailed(Abort);
      }
      if typeOffset > 0 {
        var type_ := table.Lookup(typeOffset);
        if type_.Err? {
          return MatchFailed(type_.error);
        }
        if type_.value == kind {
          return Matched(i + 1);
        }
      }
      if actionOffset == 0 {
        return NoMatch;
      }
      actionPos := base + actionOffset;
      i := i + 1;
      left := left - 1;
    }
  }

  /** Both numbers of a record; the position moves behind the first only. */
  method ParseAction(data: seq<Byte>, actionPos: int) returns (r: Result<Action, Cause>)
    ensures r == ReadAction(data, actionPos)
  {
    if actionPos < 0 {
      return Err(PastEnd);
    }
    var filter := ReadSLEB128(data, actionPos);
    if filter.Err? {
      return Err(filter.error);
    }
    var base := filter.value.next;
    var offset := ReadSLEB128(data, base);
    if offset.Err? {
      return Err(offset.error);
    }
    return Ok(Action(AsSigned(filter.value.value), AsSigned(offset.value.value), base));
  }

  // Records and types

  /** The filter stands for a type, and it is this one. */
  predicate Names(pointers: seq<Word>, typeOf: map<Word, int>, filter: int, kind: int) {
    1 <= filter <= |pointers| && pointers[filter - 1] in typeOf && typeOf[pointers[filter - 1]] == kind
  }

  /** A cleanup or a filter of the type table. */
  predicate Resolved(pointers: seq<Word>, typeOf: map<Word, int>, filter: int) {
    filter == 0 || (1 <= filter <= |pointers| && pointers[filter - 1] in typeOf)
  }

  predicate AllResolved(pointers: seq<Word>, typeOf: map<Word, int>, records: seq<Record>) {
    forall i :: 0 <= i < |records| ==> Resolved(pointers, typeOf, records[i].filter)
  }

  /** First record that names the type, counted from `i + 1`. */
  function FirstNaming(pointers: seq<Word>, typeOf: map<Word, int>, records: seq<Record>, kind: int,
      i: nat): ActionMatch {
    if records == [] then NoMatch
    else if Names(pointers, typeOf, records[0].filter, kind) then Matched(i + 1)
    else FirstNaming(pointers, typeOf, records[1..], kind, i + 1)
  }

  lemma {:induction false} FirstNamingIff(pointers: seq<Word>, typeOf: map<Word, int>, records: seq<Record>,
      kind: int, i: nat, k: nat)
    ensures FirstNaming(pointers, typeOf, records, kind, i) == Matched(k)
      <==> i < k <= i + |records| && Names(pointers, typeOf, records[k - i - 1].filter, kind)
           && forall j :: 0 <= j < k - i - 1 ==> !Names(pointers, typeOf, records[j].filter, kind)
    decreases |records|
  {
    if records != [] && !Names(pointers, typeOf, records[0].filter, kind) {
      var rest := records[1..];
      FirstNamingIff(pointers, typeOf, rest, kind, i + 1, k);
      if i + 1 < k <= i + |records| {
        assert forall j :: 0 <= j < k - i - 2 ==> rest[j] == records[j + 1];
        assert forall j :: 1 <= j < k - i - 1 ==> records[j] == rest[j - 1];
      }
    }
  }

  predicate TypeFoundAt(table: TypeTable, pointers: seq<Word>, filter: int) {
    1 <= filter <= |pointers| && pointers[filter - 1] in table.typeOf ==>
      table.Lookup(filter) == Ok(table.typeOf[pointers[filter - 1]])
  }

  /** Every filter finds the type of its pointer. */
  ghost predicate TypesFound(table: TypeTable, pointers: seq<Word>) {
    forall filter :: TypeFoundAt(table, pointers, filter)
  }

  lemma VerdictOf(table: TypeTable, pointers: seq<Word>, filter: int, kind: int)
    requires TypesFound(table, pointers) && Resolved(pointers, table.typeOf, filter)
    ensures if Names(pointers, table.typeOf, filter, kind) then Hits(table, filter, kind)
      else Passes(table, filter, kind)
  {
    assert TypeFoundAt(table, pointers, filter);
  }

  lemma {:induction false} WalkNames(table: TypeTable, pointers: seq<Word>, pos: int, records: seq<Record>, kind: int,
      i: nat)
    requires TypesFound(table, pointers) && AllResolved(pointers, table.typeOf, records)
    requires ChainIs(table.data, pos, Filters(records))
    ensures Walk(table, pos, kind, i, |records|) == FirstNaming(pointers, table.typeOf, records, kind, i)
    decreases |records|
  {
    var a := ReadAction(table.data, pos).value;
    VerdictOf(table, pointers, a.filter, kind);
    if Passes(table, a.filter, kind) && a.offset != 0 {
      assert Filters(records)[1..] == Filters(records[1..]);
      WalkNames(table, pointers, a.base + a.offset, records[1..], kind, i + 1);
    }
  }

  /** On records and types written out, the walk of the bytes gives the first record that names the type. */
  lemma ChainNames(table: TypeTable, pointers: seq<Word>, pos: int, records: seq<Record>, kind: int)
    requires TypesFound(table, pointers) && AllResolved(pointers, table.typeOf, records)
    requires ChainIs(table.data, pos, Filters(records))
    ensures ChainMatch(table, pos, kind) == FirstNaming(pointers, table.typeOf, records, kind, 0)
  {
    WalkNames(table, pointers, pos, records, kind, 0);
    NamingDecides(pointers, table.typeOf, records, kind, 0);
    WalkDecides(table, pos, kind, |records|);
  }

  lemma {:induction false} NamingDecides(pointers: seq<Word>, typeOf: map<Word, int>, records: seq<Record>, kind: int,
      i: nat)
    ensures var m := FirstNaming(pointers, typeOf, records, kind, i); m.NoMatch? || (m.Matched? && m.value > 0)
    decreases |records|
  {
    if records != [] {
      NamingDecides(pointers, typeOf, records[1..], kind, i + 1);
    }
  }
}
