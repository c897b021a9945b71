/**
 The byte-level walk of the personality routine against a search over records: what it finds in a table
 written out from a list of records.
 */
module LsdaTheorem {
  import opened Wrappers
  import opened Leb128
  import opened EncodedPointer
  import opened ActionTable
  import opened Lsda

  // The search over records

  function Select(sites: seq<CallSite>, pcOffset: Word): Option<CallSite> {
    if sites == [] then None
    else if sites[0].Lands(pcOffset) then Some(sites[0])
    else Select(sites[1..], pcOffset)
  }

  /** It is the first record with a landing pad whose range contains the pc. */
  lemma {:induction false} SelectIsFirst(sites: seq<CallSite>, pcOffset: Word)
    ensures Select(sites, pcOffset).None? <==> forall i :: 0 <= i < |sites| ==> !sites[i].Lands(pcOffset)
    ensures Select(sites, pcOffset).Some? ==>
      exists i :: 0 <= i < |sites| && sites[i] == Select(sites, pcOffset).value && sites[i].Lands(pcOffset)
                  && forall j :: 0 <= j < i ==> !sites[j].Lands(pcOffset)
  {
    if sites != [] && !sites[0].Lands(pcOffset) {
      var rest := sites[1..];
      SelectIsFirst(rest, pcOffset);
      assert forall i :: 0 <= i < |rest| ==> rest[i] == sites[i + 1];
      if Select(rest, pcOffset).Some? {
        var i :| 0 <= i < |rest| && rest[i] == Select(rest, pcOffset).value && rest[i].Lands(pcOffset)
                 && forall j :: 0 <= j < i ==> !rest[j].Lands(pcOffset);
        forall j | 0 <= j < i + 1
          ensures !sites[j].Lands(pcOffset)
        {
          assert j > 0 ==> sites[j] == rest[j - 1];
        }
        assert sites[i + 1].Lands(pcOffset);
      } else {
        forall i | 0 <= i < |sites|
          ensures !sites[i].Lands(pcOffset)
        {
          assert i > 0 ==> sites[i] == rest[i - 1];
        }
      }
    }
  }

  // Records written out

  predicate SiteEncodable(encoding: Byte, site: CallSite) {
    && Encodable(encoding, site.start) && Encodable(encoding, site.length) && Encodable(encoding, site.pad)
    && site.action < 0x1000_0000
  }

  function EncodeSite(encoding: Byte, site: CallSite): seq<Byte>
    requires SiteEncodable(encoding, site)
  {
    EncodePointer(encoding, site.start) + EncodePointer(encoding, site.length) + EncodePointer(encoding, site.pad)
    + EncodeUnsigned(site.action)
  }

  predicate SitesEncodable(encoding: Byte, sites: seq<CallSite>) {
    forall i :: 0 <= i < |sites| ==> SiteEncodable(encoding, sites[i])
  }

  function EncodeSites(encoding: Byte, sites: seq<CallSite>): seq<Byte>
    requires SitesEncodable(encoding, sites)
  {
    if sites == [] then [] else EncodeSite(encoding, sites[0]) + EncodeSites(encoding, sites[1..])
  }

  // What stands where. The dummy `seal` keeps the readers folded where they are not looked into.

  predicate PointerAt(seal: int, data: seq<Byte>, p: nat, encoding: Byte, w: Word, next: nat) {
    ReadPointer(data, p, encoding) == Ok(Reading(w, next))
  }

  ghost predicate Pointer(data: seq<Byte>, p: nat, encoding: Byte, w: Word, next: nat) {
    forall seal :: PointerAt(seal, data, p, encoding, w, next)
  }

  predicate NumberAt(seal: int, data: seq<Byte>, p: nat, n: Word, next: nat) {
    Read(data, p, false) == Ok(Reading(n, next))
  }

  ghost predicate Number(data: seq<Byte>, p: nat, n: Word, next: nat) {
    forall seal :: NumberAt(seal, data, p, n, next)
  }

  predicate SiteAt(seal: int, data: seq<Byte>, p: nat, encoding: Byte, site: CallSite, next: nat) {
    ReadSite(data, p, encoding) == Ok((site, next))
  }

  ghost predicate Site(data: seq<Byte>, p: nat, encoding: Byte, site: CallSite, next: nat) {
    forall seal :: SiteAt(seal, data, p, encoding, site, next)
  }

  predicate TableAt(seal: int, data: seq<Byte>, p: nat, end: nat, encoding: Byte, sites: seq<CallSite>,
      pcOffset: Word) {
    FindSite(data, p, end, encoding, pcOffset) == Ok(Select(sites, pcOffset))
  }

  ghost predicate Table(data: seq<Byte>, p: nat, end: nat, encoding: Byte, sites: seq<CallSite>, pcOffset: Word) {
    forall seal :: TableAt(seal, data, p, end, encoding, sites, pcOffset)
  }

  lemma SiteFromParts(encoding: Byte, site: CallSite, data: seq<Byte>, p: nat, q: nat, r: nat, s: nat, t: nat)
    requires Pointer(data, p, encoding, site.start, q) && Pointer(data, q, encoding, site.length, r)
    requires Pointer(data, r, encoding, site.pad, s) && Number(data, s, site.action, t)
    ensures Site(data, p, encoding, site, t)
  {
    assert PointerAt(0, data, p, encoding, site.start, q) && PointerAt(0, data, q, encoding, site.length, r);
    assert PointerAt(0, data, r, encoding, site.pad, s) && NumberAt(0, data, s, site.action, t);
  }

  lemma TableFromParts(encoding: Byte, sites: seq<CallSite>, pcOffset: Word, data: seq<Byte>, p: nat, next: nat,
      end: nat)
    requires sites != [] && p < end
    requires Site(data, p, encoding, sites[0], next) && Table(data, next, end, encoding, sites[1..], pcOffset)
    ensures Table(data, p, end, encoding, sites, pcOffset)
  {
    assert SiteAt(0, data, p, encoding, sites[0], next) && TableAt(0, data, next, end, encoding, sites[1..], pcOffset);
    SiteAdvances(data, p, encoding);
  }

  // Bytes that can stand anywhere

  ghost predicate PointerIn(encoding: Byte, w: Word, bytes: seq<Byte>, pre: seq<Byte>, post: seq<Byte>) {
    Pointer(pre + bytes + post, |pre|, encoding, w, |pre| + |bytes|)
  }

  ghost predicate SpellsPointer(encoding: Byte, w: Word, bytes: seq<Byte>) {
    forall pre, post :: PointerIn(encoding, w, bytes, pre, post)
  }

  ghost predicate NumberIn(n: Word, bytes: seq<Byte>, pre: seq<Byte>, post: seq<Byte>) {
    Number(pre + bytes + post, |pre|, n, |pre| + |bytes|)
  }

  ghost predicate SpellsNumber(n: Word, bytes: seq<Byte>) {
    forall pre, post :: NumberIn(n, bytes, pre, post)
  }

  ghost predicate SiteIn(encoding: Byte, site: CallSite, bytes: seq<Byte>, pre: seq<Byte>, post: seq<Byte>) {
    Site(pre + bytes + post, |pre|, encoding, site, |pre| + |bytes|)
  }

  ghost predicate SpellsSite(encoding: Byte, site: CallSite, bytes: seq<Byte>) {
    forall pre, post :: SiteIn(encoding, site, bytes, pre, post)
  }

  ghost predicate TableIn(encoding: Byte, sites: seq<CallSite>, pcOffset: Word, bytes: seq<Byte>, pre: seq<Byte>,
      post: seq<Byte>) {
    Table(pre + bytes + post, |pre|, |pre| + |bytes|, encoding, sites, pcOffset)
  }

  ghost predicate SpellsTable(encoding: Byte, sites: seq<CallSite>, pcOffset: Word, bytes: seq<Byte>) {
    forall pre, post :: TableIn(encoding, sites, pcOffset, bytes, pre, post)
  }

  lemma PointerSpelled(encoding: Byte, w: Word)
    requires Encodable(encoding, w)
    ensures SpellsPointer(encoding, w, EncodePointer(encoding, w))
  {
    forall pre, post
      ensures PointerIn(encoding, w, EncodePointer(encoding, w), pre, post)
    {
      PointerRoundTrip(encoding, w, pre, post);
    }
  }

  lemma NumberSpelled(n: Word)
    requires n < 0x1000_0000
    ensures SpellsNumber(n, EncodeUnsigned(n))
  {
    forall pre, post
      ensures NumberIn(n, EncodeUnsigned(n), pre, post)
    {
      UnsignedRoundTrip(n, pre, post);
    }
  }

  lemma RegroupFour(pre: seq<Byte>, a: seq<Byte>, b: seq<Byte>, c: seq<Byte>, d: seq<Byte>, post: seq<Byte>)
    ensures var data := pre + (a + b + c + d) + post;
      && data == pre + a + (b + c + d + post)
      && data == (pre + a) + b + (c + d + post)
      && data == (pre + a + b) + c + (d + post)
      && data == (pre + a + b + c) + d + post
  {
  }

  lemma SiteOfParts(encoding: Byte, site: CallSite, a: seq<Byte>, b: seq<Byte>, c: seq<Byte>, d: seq<Byte>)
    requires SpellsPointer(encoding, site.start, a) && SpellsPointer(encoding, site.length, b)
    requires SpellsPointer(encoding, site.pad, c) && SpellsNumber(site.action, d)
    ensures SpellsSite(encoding, site, a + b + c + d)
  {
    forall pre, post
      ensures SiteIn(encoding, site, a + b + c + d, pre, post)
    {
      RegroupFour(pre, a, b, c, d, post);
      var data, p := pre + (a + b + c + d) + post, |pre|;
      assert PointerIn(encoding, site.start, a, pre, b + c + d + post);
      assert PointerIn(encoding, site.length, b, pre + a, c + d + post);
      assert PointerIn(encoding, site.pad, c, pre + a + b, d + post);
      assert NumberIn(site.action, d, pre + a + b + c, post);
      SiteFromParts(encoding, site, data, p, p + |a|, p + |a| + |b|, p + |a| + |b| + |c|, p + |a| + |b| + |c| + |d|);
    }
  }

  lemma SiteSpelled(encoding: Byte, site: CallSite)
    requires SiteEncodable(encoding, site)
    ensures SpellsSite(encoding, site, EncodeSite(encoding, site))
  {
    PointerSpelled(encoding, site.start);
    PointerSpelled(encoding, site.length);
    PointerSpelled(encoding, site.pad);
    NumberSpelled(site.action);
    SiteOfParts(encoding, site, EncodePointer(encoding, site.start), EncodePointer(encoding, site.length),
                EncodePointer(encoding, site.pad), EncodeUnsigned(site.action));
  }

  lemma RegroupTwo(pre: seq<Byte>, a: seq<Byte>, b: seq<Byte>, post: seq<Byte>)
    ensures pre + (a + b) + post == pre + a + (b + post)
    ensures pre + (a + b) + post == (pre + a) + b + post
  {
  }

  lemma TableOfParts(encoding: Byte, sites: seq<CallSite>, pcOffset: Word, first: seq<Byte>, rest: seq<Byte>)
    requires sites != [] && first != []
    requires SpellsSite(encoding, sites[0], first) && SpellsTable(encoding, sites[1..], pcOffset, rest)
    ensures SpellsTable(encoding, sites, pcOffset, first + rest)
  {
    forall pre, post
      ensures TableIn(encoding, sites, pcOffset, first + rest, pre, post)
    {
      RegroupTwo(pre, first, rest, post);
      assert SiteIn(encoding, sites[0], first, pre, rest + post);
      assert TableIn(encoding, sites[1..], pcOffset, rest, pre + first, post);
      TableFromParts(encoding, sites, pcOffset, pre + (first + rest) + post, |pre|, |pre| + |first|,
                     |pre| + |first + rest|);
    }
  }

  lemma {:induction false} TableSpelled(encoding: Byte, sites: seq<CallSite>, pcOffset: Word)
    requires SitesEncodable(encoding, sites)
    ensures SpellsTable(encoding, sites, pcOffset, EncodeSites(encoding, sites))
    decreases |sites|
  {
    if sites == [] {
      EmptyTable(encoding, pcOffset);
    } else {
      TableSpelled(encoding, sites[1..], pcOffset);
      SiteSpelled(encoding, sites[0]);
      TableOfParts(encoding, sites, pcOffset, EncodeSite(encoding, sites[0]), EncodeSites(encoding, sites[1..]));
    }
  }

  lemma EmptyTable(encoding: Byte, pcOffset: Word)
    ensures SpellsTable(encoding, [], pcOffset, [])
  {
    forall pre: seq<Byte>, post: seq<Byte>
      ensures TableIn(encoding, [], pcOffset, [], pre, post)
    {
      assert FindSite(pre + [] + post, |pre|, |pre|, encoding, pcOffset) == Ok(None);
    }
  }

  lemma TableFound(encoding: Byte, sites: seq<CallSite>, pcOffset: Word, bytes: seq<Byte>, pre: seq<Byte>,
      post: seq<Byte>)
    requires SpellsTable(encoding, sites, pcOffset, bytes)
    ensures FindSite(pre + bytes + post, |pre|, |pre| + |bytes|, encoding, pcOffset) == Ok(Select(sites, pcOffset))
  {
    assert TableIn(encoding, sites, pcOffset, bytes, pre, post);
    assert TableAt(0, pre + bytes + post, |pre|, |pre| + |bytes|, encoding, sites, pcOffset);
  }

  // The whole table of a function

  /** Header, call-site table, action table and type table. */
  datatype Layout = Layout(lpEncoding: Byte, lpStart: Word, ttypeEncoding: Byte, callSiteEncoding: Byte,
                           sites: seq<CallSite>, actions: seq<Byte>, types: seq<Byte>)

  function EncodeTable(l: Layout): seq<Byte>
    requires SitesEncodable(l.callSiteEncoding, l.sites)
  {
    EncodeSites(l.callSiteEncoding, l.sites)
  }

  /** From the offset of the type table, exclusively, to the end of that table. */
  function TailLength(l: Layout): nat
    requires SitesEncodable(l.callSiteEncoding, l.sites)
  {
    1 + |EncodeUnsigned(|EncodeTable(l)|)| + |EncodeTable(l)| + |l.actions| + |l.types|
  }

  predicate Valid(l: Layout) {
    && Encodable(l.lpEncoding, l.lpStart)
    && SitesEncodable(l.callSiteEncoding, l.sites)
    && TailLength(l) < 0x1000_0000
  }

  function EncodeTypeOffset(l: Layout): seq<Byte>
    requires Valid(l)
  {
    if l.ttypeEncoding == DW_EH_PE_OMIT then [] else EncodeUnsigned(TailLength(l))
  }

  function Assemble(lp: Byte, a: seq<Byte>, tt: Byte, b: seq<Byte>, cs: Byte, c: seq<Byte>, table: seq<Byte>,
      rest: seq<Byte>): seq<Byte> {
    [lp] + a + [tt] + b + [cs] + c + table + rest
  }

  function EncodeLayout(l: Layout): seq<Byte>
    requires Valid(l)
  {
    Assemble(l.lpEncoding, EncodePointer(l.lpEncoding, l.lpStart), l.ttypeEncoding, EncodeTypeOffset(l),
             l.callSiteEncoding, EncodeUnsigned(|EncodeTable(l)|), EncodeTable(l), l.actions + l.types)
  }

  /** The header of a layout that stands at `p`. */
  function HeaderOf(l: Layout, p: nat): Header
    requires Valid(l)
  {
    var tail := p + 2 + |EncodePointer(l.lpEncoding, l.lpStart)| + |EncodeTypeOffset(l)|;
    var start := tail + 1 + |EncodeUnsigned(|EncodeTable(l)|)|;
    Header(l.ttypeEncoding, if l.ttypeEncoding == DW_EH_PE_OMIT then 0 else tail + TailLength(l), l.callSiteEncoding,
           start, start + |EncodeTable(l)|)
  }

  predicate HeaderAt(seal: int, data: seq<Byte>, p: nat, h: Header) {
    ReadHeader(data, p) == Ok(h)
  }

  ghost predicate HeaderStands(data: seq<Byte>, p: nat, h: Header) {
    forall seal :: HeaderAt(seal, data, p, h)
  }

  lemma BaseSkipped(data: seq<Byte>, p: nat, lpStart: Word, q: nat)
    requires p < |data| && Pointer(data, p + 1, data[p], lpStart, q)
    ensures SkipLandingPadBase(data, p) == Ok(q)
  {
    assert PointerAt(0, data, p + 1, data[p], lpStart, q);
  }

  lemma ClassInfoFound(data: seq<Byte>, q: nat, offset: Word, r: nat)
    requires q < |data|
    requires if data[q] == DW_EH_PE_OMIT then r == q + 1 else Number(data, q + 1, offset, r)
    ensures ReadClassInfo(data, q) == Ok((if data[q] == DW_EH_PE_OMIT then 0 else r + offset, r))
  {
    assert data[q] != DW_EH_PE_OMIT ==> NumberAt(0, data, q + 1, offset, r);
  }

  lemma BoundsFound(data: seq<Byte>, tt: Byte, classInfo: nat, r: nat, length: Word, s: nat)
    requires r < |data| && length < 0x1_0000_0000 && Number(data, r + 1, length, s)
    ensures ReadTableBounds(data, tt, classInfo, r) == Ok(Header(tt, classInfo, data[r], s, s + length))
  {
    assert NumberAt(0, data, r + 1, length, s);
  }

  lemma HeaderOfSteps(data: seq<Byte>, p: nat, q: nat, classInfo: nat, r: nat, h: Header)
    requires q < |data|
    requires SkipLandingPadBase(data, p) == Ok(q) && ReadClassInfo(data, q) == Ok((classInfo, r))
    requires ReadTableBounds(data, data[q], classInfo, r) == Ok(h)
    ensures HeaderStands(data, p, h)
  {
  }

  lemma HeaderFromParts(data: seq<Byte>, p: nat, lpStart: Word, q: nat, offset: Word, r: nat, length: Word, s: nat)
    requires p < q < r < |data| && length < 0x1_0000_0000
    requires Pointer(data, p + 1, data[p], lpStart, q)
    requires if data[q] == DW_EH_PE_OMIT then r == q + 1 else Number(data, q + 1, offset, r)
    requires Number(data, r + 1, length, s)
    ensures HeaderStands(data, p,
      Header(data[q], if data[q] == DW_EH_PE_OMIT then 0 else r + offset, data[r], s, s + length))
  {
    var classInfo := if data[q] == DW_EH_PE_OMIT then 0 else r + offset;
    BaseSkipped(data, p, lpStart, q);
    ClassInfoFound(data, q, offset, r);
    BoundsFound(data, data[q], classInfo, r, length, s);
    HeaderOfSteps(data, p, q, classInfo, r, Header(data[q], classInfo, data[r], s, s + length));
  }

  lemma RegroupHeader(pre: seq<Byte>, lp: Byte, a: seq<Byte>, tt: Byte, b: seq<Byte>, cs: Byte, c: seq<Byte>,
      table: seq<Byte>, rest: seq<Byte>, post: seq<Byte>)
    ensures var data := pre + Assemble(lp, a, tt, b, cs, c, table, rest) + post;
      var q := |pre| + 1 + |a|;
      var r := q + 1 + |b|;
      && data[|pre|] == lp && data[q] == tt && data[r] == cs
      && data == (pre + [lp]) + a + ([tt] + b + [cs] + c + table + rest + post)
      && data == (pre + [lp] + a + [tt]) + b + ([cs] + c + table + rest + post)
      && data == (pre + [lp] + a + [tt] + b + [cs]) + c + (table + rest + post)
  {
    var data := pre + Assemble(lp, a, tt, b, cs, c, table, rest) + post;
    assert data == (pre + [lp]) + a + ([tt] + b + [cs] + c + table + rest + post);
    assert data == (pre + [lp] + a + [tt]) + b + ([cs] + c + table + rest + post);
    assert data == (pre + [lp] + a + [tt] + b + [cs]) + c + (table + rest + post);
  }

  lemma RegroupTable(pre: seq<Byte>, lp: Byte, a: seq<Byte>, tt: Byte, b: seq<Byte>, cs: Byte, c: seq<Byte>,
      table: seq<Byte>, rest: seq<Byte>, post: seq<Byte>)
    ensures pre + Assemble(lp, a, tt, b, cs, c, table, rest) + post
         == (pre + ([lp] + a + [tt] + b + [cs] + c)) + table + (rest + post)
  {
  }

  lemma HeaderOfParts(lp: Byte, lpStart: Word, a: seq<Byte>, tt: Byte, offset: Word, b: seq<Byte>, cs: Byte,
      length: Word, c: seq<Byte>, table: seq<Byte>, rest: seq<Byte>, pre: seq<Byte>, post: seq<Byte>, h: Header)
    requires SpellsPointer(lp, lpStart, a) && length < 0x1_0000_0000
    requires if tt == DW_EH_PE_OMIT then b == [] else SpellsNumber(offset, b)
    requires SpellsNumber(length, c)
    requires h.ttypeEncoding == tt && h.callSiteEncoding == cs
    requires h.classInfo == if tt == DW_EH_PE_OMIT then 0 else |pre| + 2 + |a| + |b| + offset
    requires h.tableStart == |pre| + 3 + |a| + |b| + |c| && h.tableEnd == h.tableStart + length
    ensures HeaderStands(pre + Assemble(lp, a, tt, b, cs, c, table, rest) + post, |pre|, h)
  {
    var data := pre + Assemble(lp, a, tt, b, cs, c, table, rest) + post;
    var q := |pre| + 1 + |a|;
    var r := q + 1 + |b|;
    RegroupHeader(pre, lp, a, tt, b, cs, c, table, rest, post);
    assert Pointer(data, |pre| + 1, lp, lpStart, q) by {
      assert PointerIn(lp, lpStart, a, pre + [lp], [tt] + b + [cs] + c + table + rest + post);
    }
    var second := pre + [lp] + a + [tt];
    assert tt != DW_EH_PE_OMIT ==> Number(data, q + 1, offset, r) by {
      assert tt != DW_EH_PE_OMIT ==> NumberIn(offset, b, second, [cs] + c + table + rest + post);
    }
    assert Number(data, r + 1, length, r + 1 + |c|) by {
      assert NumberIn(length, c, second + b + [cs], table + rest + post);
    }
    HeaderFromParts(data, |pre|, lpStart, q, offset, r, length, r + 1 + |c|);
  }

  lemma TableInside(lp: Byte, a: seq<Byte>, tt: Byte, b: seq<Byte>, cs: Byte, c: seq<Byte>, table: seq<Byte>,
      rest: seq<Byte>, sites: seq<CallSite>, pcOffset: Word, pre: seq<Byte>, post: seq<Byte>, h: Header)
    requires SpellsTable(cs, sites, pcOffset, table)
    requires h.tableStart == |pre| + 3 + |a| + |b| + |c| && h.tableEnd == h.tableStart + |table|
    ensures Table(pre + Assemble(lp, a, tt, b, cs, c, table, rest) + post, h.tableStart, h.tableEnd, cs, sites,
                  pcOffset)
  {
    RegroupTable(pre, lp, a, tt, b, cs, c, table, rest, post);
    var fourth := pre + ([lp] + a + [tt] + b + [cs] + c);
    assert TableIn(cs, sites, pcOffset, table, fourth, rest + post);
  }

  lemma TypeOffsetSpelled(l: Layout)
    requires Valid(l)
    ensures if l.ttypeEncoding == DW_EH_PE_OMIT then EncodeTypeOffset(l) == []
      else SpellsNumber(TailLength(l), EncodeTypeOffset(l))
  {
    NumberSpelled(TailLength(l));
  }

  /** The header of a layout is read back, wherever the layout stands. */
  lemma HeaderRoundTrip(l: Layout, pre: seq<Byte>, post: seq<Byte>)
    requires Valid(l)
    ensures HeaderStands(pre + EncodeLayout(l) + post, |pre|, HeaderOf(l, |pre|))
  {
    PointerSpelled(l.lpEncoding, l.lpStart);
    TypeOffsetSpelled(l);
    NumberSpelled(|EncodeTable(l)|);
    HeaderOfParts(l.lpEncoding, l.lpStart, EncodePointer(l.lpEncoding, l.lpStart), l.ttypeEncoding, TailLength(l),
                  EncodeTypeOffset(l), l.callSiteEncoding, |EncodeTable(l)|, EncodeUnsigned(|EncodeTable(l)|),
                  EncodeTable(l), l.actions + l.types, pre, post, HeaderOf(l, |pre|));
  }

  lemma LayoutTable(l: Layout, pcOffset: Word, pre: seq<Byte>, post: seq<Byte>)
    requires Valid(l)
    ensures var h := HeaderOf(l, |pre|);
      Table(pre + EncodeLayout(l) + post, h.tableStart, h.tableEnd, l.callSiteEncoding, l.sites, pcOffset)
  {
    TableSpelled(l.callSiteEncoding, l.sites, pcOffset);
    TableInside(l.lpEncoding, EncodePointer(l.lpEncoding, l.lpStart), l.ttypeEncoding, EncodeTypeOffset(l),
                l.callSiteEncoding, EncodeUnsigned(|EncodeTable(l)|), EncodeTable(l), l.actions + l.types, l.sites,
                pcOffset, pre, post, HeaderOf(l, |pre|));
  }

  // Action table and type table of a layout

  /** Everything before the action table. */
  function BeforeActions(l: Layout): seq<Byte>
    requires Valid(l)
  {
    Assemble(l.lpEncoding, EncodePointer(l.lpEncoding, l.lpStart), l.ttypeEncoding, EncodeTypeOffset(l),
             l.callSiteEncoding, EncodeUnsigned(|EncodeTable(l)|), EncodeTable(l), [])
  }

  lemma AssembleRest(lp: Byte, a: seq<Byte>, tt: Byte, b: seq<Byte>, cs: Byte, c: seq<Byte>, table: seq<Byte>,
      rest: seq<Byte>)
    ensures Assemble(lp, a, tt, b, cs, c, table, rest) == Assemble(lp, a, tt, b, cs, c, table, []) + rest
    ensures |Assemble(lp, a, tt, b, cs, c, table, [])| == 3 + |a| + |b| + |c| + |table|
  {
    assert Assemble(lp, a, tt, b, cs, c, table, []) == [lp] + a + [tt] + b + [cs] + c + table;
  }

  lemma SplitLayout(l: Layout, p: nat)
    requires Valid(l)
    ensures EncodeLayout(l) == BeforeActions(l) + (l.actions + l.types)
    ensures HeaderOf(l, p).tableEnd == p + |BeforeActions(l)|
    ensures l.ttypeEncoding != DW_EH_PE_OMIT ==> HeaderOf(l, p).classInfo == p + |EncodeLayout(l)|
  {
    AssembleRest(l.lpEncoding, EncodePointer(l.lpEncoding, l.lpStart), l.ttypeEncoding, EncodeTypeOffset(l),
                 l.callSiteEncoding, EncodeUnsigned(|EncodeTable(l)|), EncodeTable(l), l.actions + l.types);
  }

  lemma RegroupTail(pre: seq<Byte>, head: seq<Byte>, actions: seq<Byte>, types: seq<Byte>, post: seq<Byte>)
    ensures pre + (head + (actions + types)) + post == (pre + head) + actions + (types + post)
    ensures pre + (head + (actions + types)) + post == (pre + head + actions) + types + post
  {
  }

  predicate ChainAt(seal: int, data: seq<Byte>, pos: int, records: seq<Record>) {
    ChainIs(data, pos, Filters(records))
  }

  ghost predicate ChainStands(data: seq<Byte>, pos: int, records: seq<Record>) {
    forall seal :: ChainAt(seal, data, pos, records)
  }

  /** A record whose action is the distance of a chain in the action table, plus one, reaches that chain. */
  lemma ActionReachesChain(l: Layout, chain: Chain, pre: seq<Byte>, post: seq<Byte>)
    requires Valid(l) && chain.WrittenIn(l.actions)
    ensures ChainStands(pre + EncodeLayout(l) + post, HeaderOf(l, |pre|).tableEnd + chain.starts[0], chain.records)
  {
    SplitLayout(l, |pre|);
    RegroupTail(pre, BeforeActions(l), l.actions, l.types, post);
    ChainRoundTrip(l.actions, chain, pre + BeforeActions(l), l.types + post);
  }

  lemma LookupWritten(encoding: Byte, pointers: seq<Word>, types: seq<Byte>, x: seq<Byte>, y: seq<Byte>,
      data: seq<Byte>, typeOf: map<Word, int>, filter: nat)
    requires EncodingSize(encoding).Ok? && encoding != DW_EH_PE_OMIT && AllEncodable(encoding, pointers)
    requires types == EncodeTypes(encoding, pointers) && data == x + types + y
    requires 1 <= filter <= |pointers| && pointers[filter - 1] in typeOf
    ensures TypeTable(data, |x| + |types|, encoding, typeOf).Lookup(filter) == Ok(typeOf[pointers[filter - 1]])
  {
    LookupEncoded(encoding, pointers, x, y, typeOf, filter);
  }

  /** The type table is written for these pointers; without any there need not be one. */
  predicate TypesWritten(l: Layout, pointers: seq<Word>) {
    pointers != [] ==>
      && EncodingSize(l.ttypeEncoding).Ok? && l.ttypeEncoding != DW_EH_PE_OMIT
      && AllEncodable(l.ttypeEncoding, pointers) && l.types == EncodeTypes(l.ttypeEncoding, pointers)
  }

  /** In a layout every filter finds the type of its pointer. */
  lemma FiltersFindTypes(l: Layout, pointers: seq<Word>, typeOf: map<Word, int>, pre: seq<Byte>, post: seq<Byte>)
    requires Valid(l) && TypesWritten(l, pointers)
    ensures TypesFound(TableOf(pre + EncodeLayout(l) + post, HeaderOf(l, |pre|), typeOf), pointers)
  {
    var data := pre + EncodeLayout(l) + post;
    var table := TableOf(data, HeaderOf(l, |pre|), typeOf);
    SplitLayout(l, |pre|);
    var head := BeforeActions(l);
    RegroupTail(pre, head, l.actions, l.types, post);
    forall filter
      ensures TypeFoundAt(table, pointers, filter)
    {
      if 1 <= filter <= |pointers| && pointers[filter - 1] in typeOf {
        LookupWritten(l.ttypeEncoding, pointers, l.types, pre + head + l.actions, post, data, typeOf, filter);
      }
    }
  }

  // The answer

  /** The chain that a record leads to is written in the action table, and its filters are cleanups or types. */
  predicate ChainWritten(l: Layout, site: CallSite, chains: map<Word, Chain>, pointers: seq<Word>,
      typeOf: map<Word, int>) {
    && site.action in chains && chains[site.action].WrittenIn(l.actions)
    && chains[site.action].starts[0] == site.action - 1
    && AllResolved(pointers, typeOf, chains[site.action].records)
  }

  predicate ChainsWritten(l: Layout, chains: map<Word, Chain>, pointers: seq<Word>, typeOf: map<Word, int>) {
    forall i :: 0 <= i < |l.sites| && l.sites[i].pad != 0 && l.sites[i].action != 0 ==>
      ChainWritten(l, l.sites[i], chains, pointers, typeOf)
  }

  /** Which record of the chain of a call site catches the exception. */
  function CaughtBy(site: CallSite, chains: map<Word, Chain>, pointers: seq<Word>, typeOf: map<Word, int>,
      thrown: Thrown): ActionMatch {
    if ActionOf(site, thrown) == 0 || thrown.kind.None? || site.action !in chains then NoMatch
    else FirstNaming(pointers, typeOf, chains[site.action].records, thrown.kind.value, 0)
  }

  /** The answer the records ask for. */
  function Answer(sites: seq<CallSite>, chains: map<Word, Chain>, pointers: seq<Word>, typeOf: map<Word, int>,
                  search: bool, thrown: Thrown, ip: Word, funcStart: Word): Outcome {
    match Select(sites, PcOffset(ip, funcStart))
    case None => ContinueUnwind
    case Some(site) => Respond(search, funcStart, site, CaughtBy(site, chains, pointers, typeOf, thrown))
  }

  /** The answer at the record selected, its chain being walked in the bytes. */
  ghost function AnswerAt(sites: seq<CallSite>, h: Header, table: TypeTable, search: bool, thrown: Thrown, ip: Word,
                          funcStart: Word): Outcome {
    match Select(sites, PcOffset(ip, funcStart))
    case None => ContinueUnwind
    case Some(site) => Respond(search, funcStart, site, MatchOf(table, h.tableEnd, site, thrown))
  }

  lemma AnswerFromParts(data: seq<Byte>, p: nat, h: Header, sites: seq<CallSite>, search: bool, thrown: Thrown,
      ip: Word, funcStart: Word, typeOf: map<Word, int>)
    requires HeaderStands(data, p, h)
    requires Table(data, h.tableStart, h.tableEnd, h.callSiteEncoding, sites, PcOffset(ip, funcStart))
    ensures Personality(data, Some(p), search, thrown, ip, funcStart, typeOf)
         == AnswerAt(sites, h, TableOf(data, h, typeOf), search, thrown, ip, funcStart)
  {
    assert HeaderAt(0, data, p, h);
    assert TableAt(0, data, h.tableStart, h.tableEnd, h.callSiteEncoding, sites, PcOffset(ip, funcStart));
  }

  ghost predicate ReachesChain(data: seq<Byte>, tableEnd: nat, site: CallSite, chains: map<Word, Chain>,
      pointers: seq<Word>, typeOf: map<Word, int>)
  {
    && site.action in chains && AllResolved(pointers, typeOf, chains[site.action].records)
    && ChainStands(data, site.action + tableEnd - 1, chains[site.action].records)
  }

  lemma CaughtInBytes(site: CallSite, tableEnd: nat, table: TypeTable, chains: map<Word, Chain>, pointers: seq<Word>,
      thrown: Thrown)
    requires TypesFound(table, pointers)
    requires site.action != 0 ==> ReachesChain(table.data, tableEnd, site, chains, pointers, table.typeOf)
    ensures MatchOf(table, tableEnd, site, thrown) == CaughtBy(site, chains, pointers, table.typeOf, thrown)
  {
    if site.action != 0 && thrown.kind.Some? {
      var pos, records := site.action + tableEnd - 1, chains[site.action].records;
      assert ChainAt(0, table.data, pos, records);
      ChainNames(table, pointers, pos, records, thrown.kind.value);
    }
  }

  /** The record selected is one of the table, and it has a landing pad. */
  lemma SelectedIsWritten(l: Layout, chains: map<Word, Chain>, pointers: seq<Word>, typeOf: map<Word, int>,
      pcOffset: Word)
    requires ChainsWritten(l, chains, pointers, typeOf) && Select(l.sites, pcOffset).Some?
    ensures var site := Select(l.sites, pcOffset).value;
      site.action != 0 ==> ChainWritten(l, site, chains, pointers, typeOf)
  {
    SelectIsFirst(l.sites, pcOffset);
  }

  /** No chain of a layout comes back to a record, so `HandleLsda` may be called. */
  lemma LayoutNeverLoops(l: Layout, chains: map<Word, Chain>, pointers: seq<Word>, typeOf: map<Word, int>,
      pre: seq<Byte>, post: seq<Byte>, thrown: Thrown, ip: Word, funcStart: Word)
    requires Valid(l) && TypesWritten(l, pointers) && ChainsWritten(l, chains, pointers, typeOf)
    ensures var data := pre + EncodeLayout(l) + post;
      !LoopsAt(Locate(data, Some(|pre|), PcOffset(ip, funcStart)), data, thrown, typeOf)
  {
    PersonalityOnLayout(l, chains, pointers, typeOf, pre, post, true, thrown, ip, funcStart);
    RunsForeverIff(pre + EncodeLayout(l) + post, Some(|pre|), true, thrown, ip, funcStart, typeOf);
  }

  lemma CaughtDecides(site: CallSite, chains: map<Word, Chain>, pointers: seq<Word>, typeOf: map<Word, int>,
      thrown: Thrown)
    ensures var m := CaughtBy(site, chains, pointers, typeOf, thrown); m.NoMatch? || (m.Matched? && m.value > 0)
  {
    if site.action in chains && thrown.kind.Some? {
      NamingDecides(pointers, typeOf, chains[site.action].records, thrown.kind.value, 0);
    }
  }

  lemma AnswerFromBytes(data: seq<Byte>, p: nat, h: Header, sites: seq<CallSite>, chains: map<Word, Chain>,
      pointers: seq<Word>, typeOf: map<Word, int>, search: bool, thrown: Thrown, ip: Word, funcStart: Word)
    requires HeaderStands(data, p, h)
    requires Table(data, h.tableStart, h.tableEnd, h.callSiteEncoding, sites, PcOffset(ip, funcStart))
    requires TypesFound(TableOf(data, h, typeOf), pointers)
    requires var selected := Select(sites, PcOffset(ip, funcStart));
      selected.Some? && selected.value.action != 0 ==>
        ReachesChain(data, h.tableEnd, selected.value, chains, pointers, typeOf)
    ensures Personality(data, Some(p), search, thrown, ip, funcStart, typeOf)
      == Answer(sites, chains, pointers, typeOf, search, thrown, ip, funcStart) != RunsForever
  {
    AnswerFromParts(data, p, h, sites, search, thrown, ip, funcStart, typeOf);
    AnswersAgree(sites, h, TableOf(data, h, typeOf), chains, pointers, search, thrown, ip, funcStart);
  }

  lemma AnswersAgree(sites: seq<CallSite>, h: Header, table: TypeTable, chains: map<Word, Chain>, pointers: seq<Word>,
      search: bool, thrown: Thrown, ip: Word, funcStart: Word)
    requires TypesFound(table, pointers)
    requires var selected := Select(sites, PcOffset(ip, funcStart));
      selected.Some? && selected.value.action != 0 ==>
        ReachesChain(table.data, h.tableEnd, selected.value, chains, pointers, table.typeOf)
    ensures AnswerAt(sites, h, table, search, thrown, ip, funcStart)
      == Answer(sites, chains, pointers, table.typeOf, search, thrown, ip, funcStart) != RunsForever
  {
    var selected := Select(sites, PcOffset(ip, funcStart));
    if selected.Some? {
      CaughtInBytes(selected.value, h.tableEnd, table, chains, pointers, thrown);
      CaughtDecides(selected.value, chains, pointers, table.typeOf, thrown);
    }
  }

  lemma SelectedReachesChain(l: Layout, chains: map<Word, Chain>, pointers: seq<Word>, typeOf: map<Word, int>,
      pre: seq<Byte>, post: seq<Byte>, pcOffset: Word)
    requires Valid(l) && ChainsWritten(l, chains, pointers, typeOf)
    ensures var selected := Select(l.sites, pcOffset);
      selected.Some? && selected.value.action != 0 ==>
        ReachesChain(pre + EncodeLayout(l) + post, HeaderOf(l, |pre|).tableEnd, selected.value, chains, pointers,
                     typeOf)
  {
    var selected := Select(l.sites, pcOffset);
    if selected.Some? && selected.value.action != 0 {
      SelectedIsWritten(l, chains, pointers, typeOf, pcOffset);
      ActionReachesChain(l, chains[selected.value.action], pre, post);
    }
  }

  /**
   On the bytes of a layout, wherever they stand, the routine answers as the records ask for: call sites,
   action chains and types. It does not run for ever, so this is what `HandleLsda` returns.
   */
  lemma PersonalityOnLayout(l: Layout, chains: map<Word, Chain>, pointers: seq<Word>, typeOf: map<Word, int>,
      pre: seq<Byte>, post: seq<Byte>, search: bool, thrown: Thrown, ip: Word, funcStart: Word)
    requires Valid(l) && TypesWritten(l, pointers) && ChainsWritten(l, chains, pointers, typeOf)
    ensures Personality(pre + EncodeLayout(l) + post, Some(|pre|), search, thrown, ip, funcStart, typeOf)
      == Answer(l.sites, chains, pointers, typeOf, search, thrown, ip, funcStart) != RunsForever
  {
    HeaderRoundTrip(l, pre, post);
    LayoutTable(l, PcOffset(ip, funcStart), pre, post);
    FiltersFindTypes(l, pointers, typeOf, pre, post);
    SelectedReachesChain(l, chains, pointers, typeOf, pre, post, PcOffset(ip, funcStart));
    AnswerFromBytes(pre + EncodeLayout(l) + post, |pre|, HeaderOf(l, |pre|), l.sites, chains, pointers, typeOf,
                    search, thrown, ip, funcStart);
  }

  /** The exception is one of ours, and the `k`-th record of the chain of the call site is the first that
      names its type. */
  predicate Catches(site: CallSite, chains: map<Word, Chain>, pointers: seq<Word>, typeOf: map<Word, int>,
      thrown: Thrown, k: nat) {
    && thrown.ours && thrown.kind.Some? && site.action != 0 && site.action in chains
    && var records, kind := chains[site.action].records, thrown.kind.value;
       && 1 <= k <= |records| && Names(pointers, typeOf, records[k - 1].filter, kind)
       && forall j :: 0 <= j < k - 1 ==> !Names(pointers, typeOf, records[j].filter, kind)
  }

  ghost predicate CatchesSomehow(site: CallSite, chains: map<Word, Chain>, pointers: seq<Word>,
      typeOf: map<Word, int>, thrown: Thrown) {
    exists k: nat :: Catches(site, chains, pointers, typeOf, thrown, k)
  }

  lemma CaughtIff(site: CallSite, chains: map<Word, Chain>, pointers: seq<Word>, typeOf: map<Word, int>, thrown: Thrown)
    ensures CaughtBy(site, chains, pointers, typeOf, thrown).Matched?
      <==> CatchesSomehow(site, chains, pointers, typeOf, thrown)
  {
    var m := CaughtBy(site, chains, pointers, typeOf, thrown);
    if m.Matched? {
      CaughtByIff(site, chains, pointers, typeOf, thrown, m.value);
    }
    if k: nat :| Catches(site, chains, pointers, typeOf, thrown, k) {
      CaughtByIff(site, chains, pointers, typeOf, thrown, k);
    }
  }

  lemma CaughtByIff(site: CallSite, chains: map<Word, Chain>, pointers: seq<Word>, typeOf: map<Word, int>,
      thrown: Thrown, k: nat)
    ensures CaughtBy(site, chains, pointers, typeOf, thrown) == Matched(k)
      <==> Catches(site, chains, pointers, typeOf, thrown, k)
  {
    if site.action in chains && thrown.kind.Some? {
      FirstNamingIff(pointers, typeOf, chains[site.action].records, thrown.kind.value, 0, k);
    }
  }

  /**
   What the two phases make of the call site selected: a handler is found if and only if a record of its
   chain names the type thrown; the cleanup phase goes to the landing pad with the number of the first such
   record, and goes on if there is no call site.
   */
  ghost predicate Caught(search: Outcome, cleanup: Outcome, selected: Option<CallSite>, chains: map<Word, Chain>,
      pointers: seq<Word>, typeOf: map<Word, int>, thrown: Thrown, funcStart: Word, k: nat)
  {
    && (cleanup == ContinueUnwind <==> selected.None?)
    && (search == HandlerFound <==> selected.Some? && CatchesSomehow(selected.value, chains, pointers, typeOf, thrown))
    && (selected.Some? && k > 0 ==>
          (cleanup == InstallContext(k, AsWord(funcStart + selected.value.pad))
           <==> Catches(selected.value, chains, pointers, typeOf, thrown, k)))
  }

  lemma AnswersCaught(sites: seq<CallSite>, chains: map<Word, Chain>, pointers: seq<Word>, typeOf: map<Word, int>,
      thrown: Thrown, ip: Word, funcStart: Word, k: nat)
    ensures Caught(Answer(sites, chains, pointers, typeOf, true, thrown, ip, funcStart),
                   Answer(sites, chains, pointers, typeOf, false, thrown, ip, funcStart),
                   Select(sites, PcOffset(ip, funcStart)), chains, pointers, typeOf, thrown, funcStart, k)
  {
    var selected := Select(sites, PcOffset(ip, funcStart));
    if selected.Some? {
      CaughtDecides(selected.value, chains, pointers, typeOf, thrown);
      CaughtByIff(selected.value, chains, pointers, typeOf, thrown, k);
      CaughtIff(selected.value, chains, pointers, typeOf, thrown);
    }
  }

  /** The two phases on a layout. */
  lemma CaughtOnLayout(l: Layout, chains: map<Word, Chain>, pointers: seq<Word>, typeOf: map<Word, int>, pre: seq<Byte>,
      post: seq<Byte>, thrown: Thrown, ip: Word, funcStart: Word, k: nat, search: Outcome, cleanup: Outcome)
    requires Valid(l) && TypesWritten(l, pointers) && ChainsWritten(l, chains, pointers, typeOf)
    requires search == Personality(pre + EncodeLayout(l) + post, Some(|pre|), true, thrown, ip, funcStart, typeOf)
    requires cleanup == Personality(pre + EncodeLayout(l) + post, Some(|pre|), false, thrown, ip, funcStart, typeOf)
    ensures Caught(search, cleanup, Select(l.sites, PcOffset(ip, funcStart)), chains, pointers, typeOf, thrown,
                   funcStart, k)
  {
    PersonalityOnLayout(l, chains, pointers, typeOf, pre, post, true, thrown, ip, funcStart);
    PersonalityOnLayout(l, chains, pointers, typeOf, pre, post, false, thrown, ip, funcStart);
    AnswersCaught(l.sites, chains, pointers, typeOf, thrown, ip, funcStart, k);
  }

  // The answer by addresses

  /** The instruction before the return address `ip` is in the range of a record with a landing pad. */
  predicate HoldsAddress(site: CallSite, ip: Word, funcStart: Word) {
    site.pad != 0 && funcStart + site.start <= ip - 1 < funcStart + site.start + site.length
  }

  /** The ranges end below the last address. */
  predicate NoWrap(sites: seq<CallSite>) {
    forall i :: 0 <= i < |sites| ==> sites[i].start + sites[i].length < WORD
  }

  lemma LandsAtAddress(site: CallSite, ip: Word, funcStart: Word)
    requires funcStart < ip && site.start + site.length < WORD
    ensures site.Lands(PcOffset(ip, funcStart)) <==> HoldsAddress(site, ip, funcStart)
  {
  }

  /** `i` is the first record that holds the address, or -1 if there is none. */
  predicate FirstHolding(sites: seq<CallSite>, ip: Word, funcStart: Word, i: int) {
    && -1 <= i < |sites|
    && (i >= 0 ==> HoldsAddress(sites[i], ip, funcStart))
    && forall j :: 0 <= j < (if i >= 0 then i else |sites|) ==> !HoldsAddress(sites[j], ip, funcStart)
  }

  lemma {:induction false} SelectAtAddress(sites: seq<CallSite>, ip: Word, funcStart: Word, i: int)
    requires funcStart < ip && NoWrap(sites) && FirstHolding(sites, ip, funcStart, i)
    ensures Select(sites, PcOffset(ip, funcStart)) == if i >= 0 then Some(sites[i]) else None
    decreases |sites|
  {
    if sites != [] {
      LandsAtAddress(sites[0], ip, funcStart);
      if i != 0 {
        var rest := sites[1..];
        assert forall j :: 0 <= j < |rest| ==> rest[j] == sites[j + 1];
        SelectAtAddress(rest, ip, funcStart, if i > 0 then i - 1 else i);
      }
    }
  }

  /** `k` is the number of the first record of the chain that names the type thrown, or 0 if there is none. */
  ghost predicate CatchNumber(site: CallSite, chains: map<Word, Chain>, pointers: seq<Word>, typeOf: map<Word, int>,
      thrown: Thrown, k: nat) {
    if k > 0 then Catches(site, chains, pointers, typeOf, thrown, k)
    else !CatchesSomehow(site, chains, pointers, typeOf, thrown)
  }

  lemma NumberIsCaughtBy(site: CallSite, chains: map<Word, Chain>, pointers: seq<Word>, typeOf: map<Word, int>,
      thrown: Thrown, k: nat)
    requires CatchNumber(site, chains, pointers, typeOf, thrown, k)
    ensures CaughtBy(site, chains, pointers, typeOf, thrown) == if k > 0 then Matched(k) else NoMatch
  {
    CaughtDecides(site, chains, pointers, typeOf, thrown);
    CaughtIff(site, chains, pointers, typeOf, thrown);
    CaughtByIff(site, chains, pointers, typeOf, thrown, k);
  }

  /**
   The two phases on the bytes of a layout, by addresses: where no record holds the instruction before `ip`
   both go on; otherwise the first such record has the handler if its chain names the type thrown, and the
   cleanup phase goes to its landing pad with the number of the record of the chain, or 0.
   */
  lemma CaughtAtAddress(l: Layout, chains: map<Word, Chain>, pointers: seq<Word>, typeOf: map<Word, int>,
      pre: seq<Byte>, post: seq<Byte>, thrown: Thrown, ip: Word, funcStart: Word, i: int, k: nat)
    requires Valid(l) && TypesWritten(l, pointers) && ChainsWritten(l, chains, pointers, typeOf)
    requires funcStart < ip && NoWrap(l.sites) && FirstHolding(l.sites, ip, funcStart, i)
    requires i >= 0 ==> CatchNumber(l.sites[i], chains, pointers, typeOf, thrown, k)
    ensures var data := pre + EncodeLayout(l) + post;
      var search := Personality(data, Some(|pre|), true, thrown, ip, funcStart, typeOf);
      var cleanup := Personality(data, Some(|pre|), false, thrown, ip, funcStart, typeOf);
      if i < 0 then search == cleanup == ContinueUnwind
      else
        && search == (if k > 0 then HandlerFound else ContinueUnwind)
        && cleanup == InstallContext(k, (funcStart + l.sites[i].pad) % WORD)
  {
    PersonalityOnLayout(l, chains, pointers, typeOf, pre, post, true, thrown, ip, funcStart);
    PersonalityOnLayout(l, chains, pointers, typeOf, pre, post, false, thrown, ip, funcStart);
    SelectAtAddress(l.sites, ip, funcStart, i);
    if i >= 0 {
      NumberIsCaughtBy(l.sites[i], chains, pointers, typeOf, thrown, k);
    }
  }
}
