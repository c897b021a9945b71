/**
 The personality routine on the exception table of a function: header, call-site table, and the two
 phases of unwinding (section 1.6 of the Itanium C++ ABI: Exception Handling).
 */
module Lsda {
  import opened Wrappers
  import opened Leb128
  import opened EncodedPointer
  import opened ActionTable

  /** One record of the call-site table. */
  datatype CallSite = CallSite(start: Word, length: Word, pad: Word, action: Word) {
    /** `start + length` wraps as a machine word does. */
    predicate Covers(pcOffset: Word) {
      start <= pcOffset < AsWord(start + length)
    }

    predicate Lands(pcOffset: Word) {
      pad != 0 && Covers(pcOffset)
    }
  }

  datatype Header = Header(ttypeEncoding: Byte, classInfo: nat, callSiteEncoding: Byte, tableStart: nat, tableEnd: nat)

  /** Whether the exception is one of ours, and if so the type of its object. */
  datatype Thrown = Thrown(ours: bool, kind: Option<int>)

  datatype Outcome =
    | ContinueUnwind
    | HandlerFound
    | InstallContext(selector: int, ip: Word)
    | Failed(cause: Cause)
    | RunsForever

  // Header

  /** The landing pad base, read and dropped. */
  function SkipLandingPadBase(data: seq<Byte>, lsda: nat): Result<nat, Cause> {
    if lsda >= |data| then Err(PastEnd)
    else if data[lsda] == DW_EH_PE_OMIT then Ok(lsda + 1)
    else
      match ReadPointer(data, lsda + 1, data[lsda])
      case Err(e) => Err(e)
      case Ok(r) => Ok(r.next)
  }

  /** Where the type table ends (0 if there is none), and what follows. */
  function ReadClassInfo(data: seq<Byte>, p: nat): Result<(nat, nat), Cause> {
    if p >= |data| then Err(PastEnd)
    else if data[p] == DW_EH_PE_OMIT then Ok((0, p + 1))
    else
      match Read(data, p + 1, false)
      case Err(e) => Err(e)
      case Ok(r) => Ok((r.next + r.value, r.next))
  }

  function ReadTableBounds(data: seq<Byte>, ttypeEncoding: Byte, classInfo: nat, p: nat): Result<Header, Cause> {
    if p >= |data| then Err(PastEnd)
    else
      match Read(data, p + 1, false)
      case Err(e) => Err(e)
      case Ok(r) => Ok(Header(ttypeEncoding, classInfo, data[p], r.next, r.next + r.value % 0x1_0000_0000))
  }

  function ReadHeader(data: seq<Byte>, lsda: nat): Result<Header, Cause> {
    match SkipLandingPadBase(data, lsda)
    case Err(e) => Err(e)
    case Ok(p) =>
      match ReadClassInfo(data, p)
      case Err(e) => Err(e)
      case Ok((classInfo, q)) => ReadTableBounds(data, data[p], classInfo, q)
  }

  // Call-site table

  function ReadSite(data: seq<Byte>, p: nat, encoding: Byte): Result<(CallSite, nat), Cause> {
    match ReadPointer(data, p, encoding)
    case Err(e) => Err(e)
    case Ok(start) =>
      match ReadPointer(data, start.next, encoding)
      case Err(e) => Err(e)
      case Ok(length) =>
        match ReadPointer(data, length.next, encoding)
        case Err(e) => Err(e)
        case Ok(pad) =>
          match Read(data, pad.next, false)
          case Err(e) => Err(e)
          case Ok(action) => Ok((CallSite(start.value, length.value, pad.value, action.value), action.next))
  }

  /** Every record takes at least a byte, whatever the encoding. */
  lemma SiteAdvances(data: seq<Byte>, p: nat, encoding: Byte)
    ensures ReadSite(data, p, encoding).Ok? ==> p < ReadSite(data, p, encoding).value.1 <= |data|
  {
    if ReadSite(data, p, encoding).Ok? {
      PointerAdvances(data, p, encoding);
      var start := ReadPointer(data, p, encoding).value;
      PointerAdvances(data, start.next, encoding);
      var length := ReadPointer(data, start.next, encoding).value;
      PointerAdvances(data, length.next, encoding);
      var pad := ReadPointer(data, length.next, encoding).value;
      ReadAdvances(data, pad.next, false);
    }
  }

  /** First record from `p` on, up to `end`, that lands at the pc. */
  function FindSite(data: seq<Byte>, p: nat, end: nat, encoding: Byte, pcOffset: Word): Result<Option<CallSite>, Cause>
    decreases end - p
  {
    if p >= end then Ok(None)
    else
      SiteAdvances(data, p, encoding);
      match ReadSite(data, p, encoding)
      case Err(e) => Err(e)
      case Ok((site, next)) => if site.Lands(pcOffset) then Ok(Some(site))
        else FindSite(data, next, end, encoding, pcOffset)
  }

  // The routine

  function PcOffset(ip: Word, funcStart: Word): Word {
    AsWord(AsWord(ip - 1) - funcStart)
  }

  function ActionOf(site: CallSite, thrown: Thrown): Word {
    if thrown.ours then site.action else 0
  }

  function TableOf(data: seq<Byte>, h: Header, typeOf: map<Word, int>): TypeTable {
    TypeTable(data, h.classInfo, h.ttypeEncoding, typeOf)
  }

  /** What the action chain of a record comes to, if it is walked. */
  function MatchOf(table: TypeTable, tableEnd: nat, site: CallSite, thrown: Thrown): ActionMatch {
    if ActionOf(site, thrown) == 0 || thrown.kind.None? then NoMatch
    else ChainMatch(table, site.action + tableEnd - 1, thrown.kind.value)
  }

  /** The action chain of a record is walked and comes back to a record of its own. */
  predicate Loops(table: TypeTable, tableEnd: nat, site: CallSite, thrown: Thrown) {
    && ActionOf(site, thrown) != 0 && thrown.kind.Some?
    && OutlastsData(table, site.action + tableEnd - 1, thrown.kind.value)
  }

  function Respond(search: bool, funcStart: Word, site: CallSite, m: ActionMatch): Outcome {
    match m
    case MatchFailed(e) => Failed(e)
    case Endless => RunsForever
    case Matched(k) => if search then HandlerFound else InstallContext(k, AsWord(funcStart + site.pad))
    case NoMatch => if search then ContinueUnwind else InstallContext(0, AsWord(funcStart + site.pad))
  }

  function Located(h: Header, found: Result<Option<CallSite>, Cause>): Result<Option<(Header, CallSite)>, Cause> {
    match found
    case Err(e) => Err(e)
    case Ok(None) => Ok(None)
    case Ok(Some(site)) => Ok(Some((h, site)))
  }

  /** The record the routine stops at, if there is one, and the header of its table. */
  function Locate(data: seq<Byte>, lsda: Option<nat>, pcOffset: Word): Result<Option<(Header, CallSite)>, Cause> {
    if lsda.None? then Ok(None)
    else
      match ReadHeader(data, lsda.value)
      case Err(e) => Err(e)
      case Ok(h) =>
        Located(h, FindSite(data, h.tableStart, h.tableEnd, h.callSiteEncoding, pcOffset))
  }

  /** What is done at the record located. */
  function Conclude(located: Result<Option<(Header, CallSite)>, Cause>, data: seq<Byte>, search: bool,
      thrown: Thrown, funcStart: Word, typeOf: map<Word, int>): Outcome {
    match located
    case Err(e) => Failed(e)
    case Ok(None) => ContinueUnwind
    case Ok(Some((h, site))) =>
      Respond(search, funcStart, site, MatchOf(TableOf(data, h, typeOf), h.tableEnd, site, thrown))
  }

  /** The record located leads to such a chain. */
  predicate LoopsAt(located: Result<Option<(Header, CallSite)>, Cause>, data: seq<Byte>, thrown: Thrown,
      typeOf: map<Word, int>) {
    match located
    case Ok(Some((h, site))) => Loops(TableOf(data, h, typeOf), h.tableEnd, site, thrown)
    case _ => false
  }

  function Personality(data: seq<Byte>, lsda: Option<nat>, search: bool, thrown: Thrown, ip: Word,
      funcStart: Word, typeOf: map<Word, int>): Outcome {
    Conclude(Locate(data, lsda, PcOffset(ip, funcStart)), data, search, thrown, funcStart, typeOf)
  }

  method ParseLandingPadBase(data: seq<Byte>, lsda: nat) returns (r: Result<nat, Cause>)
    ensures r == SkipLandingPadBase(data, lsda)
  {
    if lsda >= |data| {
      return Err(PastEnd);
    }
    var lpStartEncoding := data[lsda];
    var p := lsda + 1;
    if lpStartEncoding != DW_EH_PE_OMIT {
      var lpStart := ReadEncodedPointer(data, p, lpStartEncoding);
      if lpStart.Err? {
        return Err(lpStart.error);
      }
      p := lpStart.value.next;
    }
    return Ok(p);
  }

  method ParseHeader(data: seq<Byte>, lsda: nat) returns (r: Result<Header, Cause>)
    ensures r == ReadHeader(data, lsda)
  {
    var base := ParseLandingPadBase(data, lsda);
    if base.Err? {
      return Err(base.error);
    }
    var p := base.value;
    if p >= |data| {
      return Err(PastEnd);
    }
    var ttypeEncoding := data[p];
    p := p + 1;
    var classInfo := 0;
    if ttypeEncoding != DW_EH_PE_OMIT {
      var classInfoOffset := ReadULEB128(data, p);
      if classInfoOffset.Err? {
        return Err(classInfoOffset.error);
      }
      p := classInfoOffset.value.next;
      classInfo := p + classInfoOffset.value.value;
    }
    r := ParseTableBounds(data, ttypeEncoding, classInfo, p);
  }

  method ParseTableBounds(data: seq<Byte>, ttypeEncoding: Byte, classInfo: nat, p: nat)
    returns (r: Result<Header, Cause>)
    ensures r == ReadTableBounds(data, ttypeEncoding, classInfo, p)
  {
    if p >= |data| {
      return Err(PastEnd);
    }
    var callSiteEncoding := data[p];
    var length := ReadULEB128(data, p + 1);
    if length.Err? {
      return Err(length.error);
    }
    var start := length.value.next;
    return Ok(Header(ttypeEncoding, classInfo, callSiteEncoding, start, start + length.value.value % 0x1_0000_0000));
  }

  method ParseSite(data: seq<Byte>, callSitePtr: nat, encoding: Byte) returns (r: Result<(CallSite, nat), Cause>)
    ensures r == ReadSite(data, callSitePtr, encoding)
    ensures r.Ok? ==> callSitePtr < r.value.1
  {
    SiteAdvances(data, callSitePtr, encoding);
    var start := ReadEncodedPointer(data, callSitePtr, encoding);
    if start.Err? {
      return Err(start.error);
    }
    var length := ReadEncodedPointer(data, start.value.next, encoding);
    if length.Err? {
      return Err(length.error);
    }
    var pad := ReadEncodedPointer(data, length.value.next, encoding);
    if pad.Err? {
      return Err(pad.error);
    }
    var action := ReadULEB128(data, pad.value.next);
    if action.Err? {
      return Err(action.error);
    }
    var site := CallSite(start.value.value, length.value.value, pad.value.value, action.value.value);
    return Ok((site, action.value.next));
  }

  /** What is done at the record found: `actionEntry` is the action with its address already added. */
  method Land(table: TypeTable, ghost tableEnd: nat, site: CallSite, actionEntry: Option<int>, search: bool,
      thrown: Thrown, funcStart: Word) returns (r: Outcome)
    requires ActionOf(site, thrown) == 0 <==> actionEntry.None?
    requires actionEntry.Some? ==> actionEntry.value == site.action + tableEnd - 1
    requires !Loops(table, tableEnd, site, thrown)
    ensures r == Respond(search, funcStart, site, MatchOf(table, tableEnd, site, thrown))
  {
    var m := NoMatch;
    if actionEntry.Some? {
      m := HandleActionValue(table, actionEntry.value, thrown.ours, thrown.kind);
    }
    if m.MatchFailed? {
      return Failed(m.cause);
    }
    if !search {
      return InstallContext(if m.Matched? then m.value else 0, AsWord(funcStart + site.pad));
    }
    return if m.Matched? then HandlerFound else ContinueUnwind;
  }

  /** `handleLsda`, unless the runtime is caught in an action chain that comes back to a record. */
  method HandleLsda(data: seq<Byte>, lsda: Option<nat>, search: bool, thrown: Thrown, ip: Word, funcStart: Word,
                    typeOf: map<Word, int>) returns (r: Outcome)
    requires !LoopsAt(Locate(data, lsda, PcOffset(ip, funcStart)), data, thrown, typeOf)
    ensures r == Personality(data, lsda, search, thrown, ip, funcStart, typeOf)
  {
    if lsda.None? {
      return ContinueUnwind;
    }
    var header := ParseHeader(data, lsda.value);
    if header.Err? {
      return Failed(header.error);
    }
    var h, pcOffset := header.value, PcOffset(ip, funcStart);
    ghost var found := FindSite(data, h.tableStart, h.tableEnd, h.callSiteEncoding, pcOffset);
    r := WalkCallSites(data, h, search, thrown, pcOffset, funcStart, typeOf, found);
  }

  predicate FoundAt(seal: int, found: Result<Option<CallSite>, Cause>, data: seq<Byte>, p: nat, end: nat,
      encoding: Byte, pcOffset: Word) {
    found == FindSite(data, p, end, encoding, pcOffset)
  }

  /** What the walk from `p` on finds; `seal` keeps the walk folded in the loop below. */
  ghost predicate Found(found: Result<Option<CallSite>, Cause>, data: seq<Byte>, p: nat, end: nat, encoding: Byte,
      pcOffset: Word) {
    forall seal :: FoundAt(seal, found, data, p, end, encoding, pcOffset)
  }

  lemma FoundNothing(found: Result<Option<CallSite>, Cause>, data: seq<Byte>, p: nat, end: nat, encoding: Byte,
      pcOffset: Word)
    requires Found(found, data, p, end, encoding, pcOffset) && p >= end
    ensures found == Ok(None)
  {
    assert FoundAt(0, found, data, p, end, encoding, pcOffset);
  }

  lemma FoundStep(found: Result<Option<CallSite>, Cause>, data: seq<Byte>, p: nat, end: nat, encoding: Byte,
      pcOffset: Word, record: Result<(CallSite, nat), Cause>)
    requires Found(found, data, p, end, encoding, pcOffset) && p < end && record == ReadSite(data, p, encoding)
    ensures record.Err? ==> found == Err(record.error)
    ensures record.Ok? ==> p < record.value.1
    ensures record.Ok? && record.value.0.Lands(pcOffset) ==> found == Ok(Some(record.value.0))
    ensures record.Ok? && !record.value.0.Lands(pcOffset) ==>
      Found(found, data, record.value.1, end, encoding, pcOffset)
  {
    assert FoundAt(0, found, data, p, end, encoding, pcOffset);
    SiteAdvances(data, p, encoding);
  }

  /** The loop over the call-site table; `found` is what the walk over its bytes finds. */
  method WalkCallSites(data: seq<Byte>, h: Header, search: bool, thrown: Thrown, pcOffset: Word, funcStart: Word,
                       typeOf: map<Word, int>, ghost found: Result<Option<CallSite>, Cause>)
    returns (r: Outcome)
    requires Found(found, data, h.tableStart, h.tableEnd, h.callSiteEncoding, pcOffset)
    requires !LoopsAt(Located(h, found), data, thrown, typeOf)
    ensures r == Conclude(Located(h, found), data, search, thrown, funcStart, typeOf)
  {
    var callSitePtr := h.tableStart;
    while callSitePtr < h.tableEnd
      invariant Found(found, data, callSitePtr, h.tableEnd, h.callSiteEncoding, pcOffset)
      decreases h.tableEnd - callSitePtr
    {
      var record := ParseSite(data, callSitePtr, h.callSiteEncoding);
      FoundStep(found, data, callSitePtr, h.tableEnd, h.callSiteEncoding, pcOffset, record);
      if record.Err? {
        return Failed(record.error);
      }
      var (site, next) := record.value;
      callSitePtr := next;
      var action := if thrown.ours then site.action else 0;
      if site.pad == 0 {
        continue;
      }
      var actionEntry := if action != 0 then Some(action + h.tableEnd - 1) else None;
      if site.Covers(pcOffset) {
        r := Land(TableOf(data, h, typeOf), h.tableEnd, site, actionEntry, search, thrown, funcStart);
        return;
      }
    }
    FoundNothing(found, data, callSitePtr, h.tableEnd, h.callSiteEncoding, pcOffset);
    return ContinueUnwind;
  }

  /** The routine runs for ever if and only if the action chain of the record located comes back to a record. */
  lemma RunsForeverIff(data: seq<Byte>, lsda: Option<nat>, search: bool, thrown: Thrown, ip: Word, funcStart: Word,
      typeOf: map<Word, int>)
    ensures Personality(data, lsda, search, thrown, ip, funcStart, typeOf) == RunsForever
      <==> LoopsAt(Locate(data, lsda, PcOffset(ip, funcStart)), data, thrown, typeOf)
  {
    ConcludesForeverIff(Locate(data, lsda, PcOffset(ip, funcStart)), data, search, thrown, funcStart, typeOf);
  }

  lemma ConcludesForeverIff(located: Result<Option<(Header, CallSite)>, Cause>, data: seq<Byte>, search: bool,
      thrown: Thrown, funcStart: Word, typeOf: map<Word, int>)
    ensures Conclude(located, data, search, thrown, funcStart, typeOf) == RunsForever
      <==> LoopsAt(located, data, thrown, typeOf)
  {
    if located.Ok? && located.value.Some? && thrown.kind.Some? {
      var (h, site) := located.value.value;
      EndlessIff(TableOf(data, h, typeOf), site.action + h.tableEnd - 1, thrown.kind.value);
    }
  }

  // The two phases

  /**
   On the same table, pc and exception: a handler found in the search phase is the record whose landing
   pad the cleanup phase installs, with a positive selector; otherwise the cleanup phase continues or
   installs a cleanup, with selector 0. A table that cannot be read fails alike in both, and an endless
   action chain is endless in both.
   */
  lemma PhasesAgree(data: seq<Byte>, lsda: Option<nat>, thrown: Thrown, ip: Word, funcStart: Word,
      typeOf: map<Word, int>)
    ensures var search := Personality(data, lsda, true, thrown, ip, funcStart, typeOf);
      var cleanup := Personality(data, lsda, false, thrown, ip, funcStart, typeOf);
      var located := Locate(data, lsda, PcOffset(ip, funcStart));
      && (search.HandlerFound? <==> cleanup.InstallContext? && cleanup.selector > 0)
      && (search.ContinueUnwind? <==> cleanup.ContinueUnwind? || (cleanup.InstallContext? && cleanup.selector == 0))
      && (search.Failed? || cleanup.Failed? ==> search == cleanup)
      && (search.RunsForever? <==> cleanup.RunsForever?)
      && !search.InstallContext? && !cleanup.HandlerFound?
      && (search.HandlerFound? || cleanup.InstallContext? ==>
            located.Ok? && located.value.Some?
            && located.value.value.1.Lands(PcOffset(ip, funcStart)))
      && (cleanup.InstallContext? ==> cleanup.ip == AsWord(funcStart + located.value.value.1.pad))
  {
    var located := Locate(data, lsda, PcOffset(ip, funcStart));
    LocatedLands(data, lsda, PcOffset(ip, funcStart));
    ConclusionsAgree(located, data, thrown, funcStart, typeOf);
  }

  lemma ConclusionsAgree(located: Result<Option<(Header, CallSite)>, Cause>, data: seq<Byte>, thrown: Thrown,
      funcStart: Word, typeOf: map<Word, int>)
    ensures var search := Conclude(located, data, true, thrown, funcStart, typeOf);
      var cleanup := Conclude(located, data, false, thrown, funcStart, typeOf);
      && (search.HandlerFound? <==> cleanup.InstallContext? && cleanup.selector > 0)
      && (search.ContinueUnwind? <==> cleanup.ContinueUnwind? || (cleanup.InstallContext? && cleanup.selector == 0))
      && (search.Failed? || cleanup.Failed? ==> search == cleanup)
      && (search.RunsForever? <==> cleanup.RunsForever?)
      && !search.InstallContext? && !cleanup.HandlerFound?
      && (search.HandlerFound? || cleanup.InstallContext? ==> located.Ok? && located.value.Some?)
      && (cleanup.InstallContext? ==> cleanup.ip == AsWord(funcStart + located.value.value.1.pad))
  {
    if located.Ok? && located.value.Some? && thrown.kind.Some? {
      var (h, site) := located.value.value;
      ChainMatchIff(TableOf(data, h, typeOf), site.action + h.tableEnd - 1, thrown.kind.value, 0);
    }
  }

  lemma LocatedLands(data: seq<Byte>, lsda: Option<nat>, pcOffset: Word)
    ensures var located := Locate(data, lsda, pcOffset);
      located.Ok? && located.value.Some? ==> located.value.value.1.Lands(pcOffset)
  {
    if lsda.Some? && ReadHeader(data, lsda.value).Ok? {
      var h := ReadHeader(data, lsda.value).value;
      FoundLands(data, h.tableStart, h.tableEnd, h.callSiteEncoding, pcOffset);
    }
  }

  lemma {:induction false} FoundLands(data: seq<Byte>, p: nat, end: nat, encoding: Byte, pcOffset: Word)
    ensures var found := FindSite(data, p, end, encoding, pcOffset);
      found.Ok? && found.value.Some? ==> found.value.value.Lands(pcOffset)
    decreases end - p
  {
    if p < end && ReadSite(data, p, encoding).Ok? {
      SiteAdvances(data, p, encoding);
      FoundLands(data, ReadSite(data, p, encoding).value.1, end, encoding, pcOffset);
    }
  }
}
