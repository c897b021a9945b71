/** Which functions a pass reports as overriding without being marked. */
module VirtualReports {
  import opened VirtualTable
  import opened VirtualTableTheorem

  /** The `n`-th function of a chain is one of the class itself and has the name and the type, ignoring self,
      of one before it. */
  ghost predicate Overrides(flat: seq<Func>, n: nat, current: ClassId) {
    n < |flat| && flat[n].parent == current && exists m :: 0 <= m < n && SameSlot(flat[m], flat[n])
  }

  ghost predicate OverridesAs(flat: seq<Func>, current: ClassId, id: FuncId) {
    exists n: nat :: Overrides(flat, n, current) && flat[n].id == id
  }

  ghost predicate Unrepeated(ids: seq<FuncId>) {
    forall i, j :: 0 <= i < j < |ids| ==> ids[i] != ids[j]
  }

  /** Who is marked and who was reported. */
  datatype Marks = Marks(overrides: set<FuncId>, errors: seq<FuncId>)

  function Added(start: Marks, end: Marks): seq<FuncId>
    requires start.errors <= end.errors
  {
    end.errors[|start.errors|..]
  }

  /** The id is reported if its function overrides and is not marked at the start; it is marked then. */
  ghost predicate ReportedAs(start: Marks, end: Marks, flat: seq<Func>, current: ClassId, id: FuncId)
    requires start.errors <= end.errors
  {
    && (id in Added(start, end) <==> id !in start.overrides && OverridesAs(flat, current, id))
    && (id in end.overrides <==> id in start.overrides || id in Added(start, end))
  }

  /** Each is reported once. */
  ghost predicate Reported(start: Marks, end: Marks, flat: seq<Func>, current: ClassId) {
    && start.errors <= end.errors && Unrepeated(Added(start, end))
    && forall id :: ReportedAs(start, end, flat, current, id)
  }

  function MarksOf(s: Pass): Marks {
    Marks(s.overrides, s.errors)
  }

  /** A pass that has gone through `flat`; `seal` only keeps the definition folded. */
  ghost predicate ThroughAt(seal: int, start: Marks, s: Pass, flat: seq<Func>, current: ClassId) {
    Reported(start, MarksOf(s), flat, current) && s.table == PutAll([], flat, |flat|)
  }

  ghost predicate Through(start: Marks, s: Pass, flat: seq<Func>, current: ClassId) {
    forall seal :: ThroughAt(seal, start, s, flat, current)
  }

  lemma NothingYet(s: Pass, current: ClassId)
    requires s.table == []
    ensures Through(MarksOf(s), s, [], current)
  {
    assert Added(MarksOf(s), MarksOf(s)) == [];
  }

  lemma CounterAside(start: Marks, s: Pass, flat: seq<Func>, current: ClassId, n: nat)
    requires Through(start, s, flat, current)
    ensures Through(start, s.(counter := n), flat, current)
  {
    assert ThroughAt(0, start, s, flat, current);
  }

  lemma SlotTaken(flat: seq<Func>, fn: Func)
    ensures var table := PutAll([], flat, |flat|);
      Slot(table, KeyOf(fn)) < |table| <==> exists m :: 0 <= m < |flat| && SameSlot(flat[m], fn)
  {
    var table := PutAll([], flat, |flat|);
    PutAllShape([], flat, |flat|);
    PutAllKeys([], flat, |flat|, KeyOf(fn));
    forall m | 0 <= m < |flat|
      ensures SameSlot(flat[m], fn) <==> KeyOf(flat[m]) == KeyOf(fn)
    {
      SameSlotIffSameKey(flat[m], fn);
    }
    if HasKey(table, KeyOf(fn)) {
      var i :| 0 <= i < |table| && KeyOf(table[i]) == KeyOf(fn);
    }
  }

  lemma OverridesLonger(flat: seq<Func>, fn: Func, current: ClassId, id: FuncId)
    ensures OverridesAs(flat + [fn], current, id)
      <==> OverridesAs(flat, current, id) || (fn.id == id && Overrides(flat + [fn], |flat|, current))
  {
    var longer := flat + [fn];
    forall n: nat | n < |flat|
      ensures Overrides(longer, n, current) <==> Overrides(flat, n, current)
    {
      assert forall m :: 0 <= m <= n ==> longer[m] == flat[m];
    }
    if OverridesAs(longer, current, id) {
      var n: nat :| Overrides(longer, n, current) && longer[n].id == id;
      assert n < |flat| ==> Overrides(flat, n, current);
    }
    if OverridesAs(flat, current, id) {
      var n: nat :| Overrides(flat, n, current) && flat[n].id == id;
      assert Overrides(longer, n, current) && longer[n].id == id;
    }
    if fn.id == id && Overrides(longer, |flat|, current) {
      assert longer[|flat|].id == id;
    }
  }

  lemma MissesIffOverrides(s: Pass, flat: seq<Func>, fn: Func, current: ClassId)
    requires s.table == PutAll([], flat, |flat|)
    ensures MissesOverride(s, fn, current) <==> fn.id !in s.overrides && Overrides(flat + [fn], |flat|, current)
  {
    var longer := flat + [fn];
    SlotTaken(flat, fn);
    assert forall m :: 0 <= m < |flat| ==> longer[m] == flat[m];
    if exists m :: 0 <= m < |flat| && SameSlot(longer[m], longer[|flat|]) {
      var m :| 0 <= m < |flat| && SameSlot(longer[m], longer[|flat|]);
      assert SameSlot(flat[m], fn);
    }
    if exists m :: 0 <= m < |flat| && SameSlot(flat[m], fn) {
      var m :| 0 <= m < |flat| && SameSlot(flat[m], fn);
      assert SameSlot(longer[m], longer[|flat|]);
    }
  }

  lemma AddedByVisit(start: Marks, s: Pass, fn: Func, current: ClassId)
    requires start.errors <= s.errors
    ensures var s' := Visit(s, fn, current);
      && start.errors <= s'.errors
      && Added(start, MarksOf(s'))
         == if MissesOverride(s, fn, current) then Added(start, MarksOf(s)) + [fn.id] else Added(start, MarksOf(s))
  {
  }

  /** One function more. */
  lemma VisitReports(start: Marks, s: Pass, flat: seq<Func>, fn: Func, current: ClassId)
    requires Reported(start, MarksOf(s), flat, current) && s.table == PutAll([], flat, |flat|)
    ensures Reported(start, MarksOf(Visit(s, fn, current)), flat + [fn], current)
  {
    var m, m' := MarksOf(s), MarksOf(Visit(s, fn, current));
    MissesIffOverrides(s, flat, fn, current);
    AddedByVisit(start, s, fn, current);
    forall id
      ensures ReportedAs(start, m', flat + [fn], current, id)
    {
      assert ReportedAs(start, m, flat, current, id);
      OverridesLonger(flat, fn, current, id);
    }
    assert ReportedAs(start, m, flat, current, fn.id);
  }

  lemma VisitGoesThrough(start: Marks, s: Pass, flat: seq<Func>, fn: Func, current: ClassId)
    requires Through(start, s, flat, current)
    ensures Through(start, Visit(s, fn, current), flat + [fn], current)
  {
    assert ThroughAt(0, start, s, flat, current);
    VisitReports(start, s, flat, fn, current);
    PutAllPrefix([], flat, [fn], |flat|);
  }

  lemma {:induction false} ListGoesThrough(start: Marks, s: Pass, flat: seq<Func>, list: seq<Func>, n: nat,
      current: ClassId)
    requires n <= |list| && Through(start, s, flat, current)
    ensures Through(start, VisitList(s, list, n, current), flat + list[..n], current)
  {
    if n == 0 {
      assert flat + list[..0] == flat;
      CounterAside(start, s, flat, current, 0);
    } else {
      ListGoesThrough(start, s, flat, list, n - 1, current);
      VisitGoesThrough(start, VisitList(s, list, n - 1, current), flat + list[..n - 1], list[n - 1], current);
      assert flat + list[..n] == flat + list[..n - 1] + [list[n - 1]];
    }
  }

  lemma {:induction false} ChainGoesThrough(s: Pass, lists: seq<seq<Func>>, n: nat, current: ClassId)
    requires n <= |lists| && s.table == []
    ensures Through(MarksOf(s), VisitChain(s, lists, n, current), Flat(lists[..n]), current)
  {
    if n == 0 {
      NothingYet(s, current);
    } else {
      var flat, list := Flat(lists[..n - 1]), lists[n - 1];
      ChainGoesThrough(s, lists, n - 1, current);
      ListGoesThrough(MarksOf(s), VisitChain(s, lists, n - 1, current), flat, list, |list|, current);
      assert lists[..n][..n - 1] == lists[..n - 1] && list[..|list|] == list;
    }
  }

  /**
   The pass for a class reports exactly those of its own functions that have the name and the type of one
   before them in the chain and are not marked `override`, each once, and marks them.
   */
  lemma PassReports(p: Program, c: Class)
    requires c.hasVtable && Declared(p.vtables, c)
    ensures var end := Fix(p, c);
      Reported(Marks(p.overrides, p.errors), Marks(end.overrides, end.errors), Flat(Lists(p.vtables, Chain(c))), c.id)
  {
    var lists := Lists(p.vtables, Chain(c));
    var start := Pass([], p.index, p.overrides, p.errors, 0);
    ChainGoesThrough(start, lists, |lists|, c.id);
    assert lists[..|lists|] == lists;
    assert ThroughAt(0, MarksOf(start), VisitChain(start, lists, |lists|, c.id), Flat(lists), c.id);
  }
}
