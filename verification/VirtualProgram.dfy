/**
 All passes together: every class gets one, over function objects the classes share, so that each pass
 overwrites numbers that others gave.
 */
module VirtualProgram {
  import opened Wrappers
  import opened VirtualTable
  import opened VirtualTableTheorem
  import opened VirtualIndex

  type Tables = map<ClassId, seq<Func>>
  type Classes = map<ClassId, Class>

  /** The passes change the tables as `FixAll` says. */
  lemma {:induction false} ProgramTables(p: Program, order: seq<Class>)
    ensures FixProgram(p, order).vtables == FixAll(p.vtables, order)
    decreases |order|
  {
    if order != [] {
      ProgramTables(p, order[..|order| - 1]);
    }
  }

  // Chains of a hierarchy

  ghost predicate Listed(classes: Classes, c: Class) {
    c.id in classes && classes[c.id] == c
  }

  ghost predicate AllListed(classes: Classes, order: seq<Class>) {
    forall c | c in order :: Listed(classes, c)
  }

  /** The chain of the `k`-th class of a chain is the front of that chain. */
  lemma {:induction false} ChainPrefix(classes: Classes, c: Class, k: nat)
    requires Hierarchy(classes) && Listed(classes, c) && k < |Chain(c)|
    ensures Chain(c)[k] in classes && Chain(classes[Chain(c)[k]]) == Chain(c)[..k + 1]
    decreases c
  {
    var above := ParentChain(c.parent);
    assert Chain(c) == above + [c.id];
    if k < |above| {
      assert ParentListed(classes, classes[c.id]);
      ChainPrefix(classes, c.parent.value, k);
      assert Chain(c)[..k + 1] == above[..k + 1] && Chain(c)[k] == above[k];
    }
  }

  /** The class at `k` in the chain of `c`. */
  ghost function Above(classes: Classes, c: Class, k: nat): (d: Class)
    requires Hierarchy(classes) && Listed(classes, c) && k < |Chain(c)|
    ensures Listed(classes, d) && d.id == Chain(c)[k] && Chain(d) == Chain(c)[..k + 1]
  {
    ChainPrefix(classes, c, k);
    classes[Chain(c)[k]]
  }

  lemma FrontOfLists(tables: Tables, classes: Classes, c: Class, k: nat)
    requires Hierarchy(classes) && Listed(classes, c) && k < |Chain(c)| && Declared(tables, c)
    ensures Declared(tables, Above(classes, c, k))
    ensures Lists(tables, Chain(Above(classes, c, k))) == Lists(tables, Chain(c))[..k + 1]
  {
    var d := Above(classes, c, k);
    assert forall i :: 0 <= i <= k ==> Chain(d)[i] == Chain(c)[i];
  }

  /** Whatever has been merged, the table above a class of a chain is that of the original lists. */
  lemma SameAbove(tables: Tables, raw: Tables, classes: Classes, c: Class, k: nat)
    requires Hierarchy(classes) && Covers(raw, classes) && Settled(tables, raw, classes)
    requires Listed(classes, c) && Declared(tables, c) && Declared(raw, c) && k <= |Chain(c)|
    ensures MergeChain(Lists(tables, Chain(c))[..k]) == MergeChain(Lists(raw, Chain(c))[..k])
  {
    if k > 0 {
      var d := Above(classes, c, k - 1);
      FrontOfLists(tables, classes, c, k - 1);
      FrontOfLists(raw, classes, c, k - 1);
      SameTable(tables, raw, classes, d);
    }
  }

  // What the functions of a program are

  /** A function of the original list of a class. */
  ghost predicate Owns(raw: Tables, d: ClassId, f: Func) {
    d in raw && f in raw[d]
  }

  /** One id, one function object. */
  ghost predicate OneId(raw: Tables, classes: Classes) {
    forall d, e, f, g | d in classes && e in classes && Owns(raw, d, f) && Owns(raw, e, g) && f.id == g.id :: f == g
  }

  /** A function is in the list of its own class, and further lists it is in are those of classes below. */
  ghost predicate AtHome(raw: Tables, classes: Classes) {
    forall d, f | d in classes && Owns(raw, d, f) :: f.parent in Chain(classes[d]) && Owns(raw, f.parent, f)
  }

  /** Every original list is well ordered over the tables above it. */
  ghost predicate GoodHierarchy(raw: Tables, classes: Classes) {
    forall id | id in classes :: Declared(raw, classes[id]) && GoodChain(Lists(raw, Chain(classes[id])))
  }

  lemma {:induction false} InFlat(lists: seq<seq<Func>>, f: Func)
    requires f in Flat(lists)
    ensures exists k :: 0 <= k < |lists| && f in lists[k]
    decreases |lists|
  {
    if f !in lists[|lists| - 1] {
      InFlat(lists[..|lists| - 1], f);
      var k :| 0 <= k < |lists| - 1 && f in lists[..|lists| - 1][k];
      assert f in lists[k];
    }
  }

  /** A function in the table of a chain comes from one of its lists. */
  lemma TableFromLists(lists: seq<seq<Func>>, f: Func)
    requires f in MergeChain(lists)
    ensures exists k :: 0 <= k < |lists| && f in lists[k]
  {
    ChainTable(lists);
    assert f in Flat(lists);
    InFlat(lists, f);
  }

  /** A function met in a pass was in an original list of the chain. */
  lemma MetIsOwned(tables: Tables, raw: Tables, classes: Classes, c: Class, k: nat, f: Func) returns (l: nat)
    requires Hierarchy(classes) && Settled(tables, raw, classes) && Listed(classes, c) && Declared(raw, c)
    requires k < |Chain(c)| && Chain(c)[k] in tables && f in tables[Chain(c)[k]]
    ensures l <= k && Owns(raw, Chain(c)[l], f)
  {
    var d := Above(classes, c, k);
    assert SettledAt(tables, raw, classes[d.id]);
    if f in raw[d.id] {
      l := k;
    } else {
      TableFromLists(Lists(raw, Chain(d)), f);
      l :| 0 <= l < |Chain(d)| && f in Lists(raw, Chain(d))[l];
      assert Chain(d)[l] == Chain(c)[l];
    }
  }

  // Slots

  /** The slot of a function in the table of its own class. */
  ghost function HomeSlot(raw: Tables, classes: Classes, f: Func): nat
    requires f.parent in classes && Declared(raw, classes[f.parent])
  {
    Slot(TableOf(raw, classes[f.parent]), KeyOf(f))
  }

  lemma {:induction false} OwnedInFlat(lists: seq<seq<Func>>, k: nat, f: Func)
    requires k < |lists| && f in lists[k]
    ensures f in Flat(lists)
    decreases |lists|
  {
    if k < |lists| - 1 {
      OwnedInFlat(lists[..|lists| - 1], k, f);
    }
  }

  /** A function has a slot in the table of every class below a class that owns it. */
  lemma OwnedHasSlot(raw: Tables, c: Class, k: nat, f: Func)
    requires Declared(raw, c) && k < |Chain(c)| && f in raw[Chain(c)[k]]
    ensures Slot(TableOf(raw, c), KeyOf(f)) < |TableOf(raw, c)|
  {
    var lists := Lists(raw, Chain(c));
    OwnedInFlat(lists, k, f);
    ChainTable(lists);
    var j :| 0 <= j < |Flat(lists)| && Flat(lists)[j] == f;
    assert HasKey(Flat(lists), KeyOf(f));
    assert HasKey(MergeChain(lists), KeyOf(f));
    var i :| 0 <= i < |TableOf(raw, c)| && KeyOf(TableOf(raw, c)[i]) == KeyOf(f);
    SlotInDistinct(TableOf(raw, c), i);
  }

  /** It is the slot in the table of its own class. */
  lemma SlotIsHomeSlot(raw: Tables, classes: Classes, c: Class, f: Func)
    requires Hierarchy(classes) && Listed(classes, c) && Declared(raw, c)
    requires f.parent in Chain(c) && Owns(raw, f.parent, f)
    ensures f.parent in classes && Declared(raw, classes[f.parent])
    ensures Slot(TableOf(raw, c), KeyOf(f)) == HomeSlot(raw, classes, f) < |TableOf(raw, classes[f.parent])|
  {
    var k :| 0 <= k < |Chain(c)| && Chain(c)[k] == f.parent;
    var d := Above(classes, c, k);
    FrontOfLists(raw, classes, c, k);
    OwnedHasSlot(raw, d, k, f);
    AncestorSlots(Lists(raw, Chain(c)), k + 1);
    ChainTable(Lists(raw, Chain(c)));
    SlotInExtension(TableOf(raw, d), TableOf(raw, c), KeyOf(f));
  }

  // One pass over lists of which some are merged

  lemma CurrentChainGood(tables: Tables, raw: Tables, classes: Classes, c: Class)
    requires Hierarchy(classes) && Covers(raw, classes) && Settled(tables, raw, classes)
    requires Listed(classes, c) && GoodHierarchy(raw, classes) && Declared(tables, c)
    ensures GoodChain(Lists(tables, Chain(c)))
  {
    var lists := Lists(tables, Chain(c));
    forall k | 0 <= k < |lists|
      ensures GoodOrder(MergeChain(lists[..k]), lists[k])
    {
      assert Declared(raw, classes[c.id]) && GoodChain(Lists(raw, Chain(classes[c.id])));
      SameAbove(tables, raw, classes, c, k);
      if lists[k] != Lists(raw, Chain(c))[k] {
        var d := Above(classes, c, k);
        assert SettledAt(tables, raw, classes[d.id]);
        MergedIsGood(tables, raw, classes, c, k);
      }
    }
  }

  lemma MergedIsGood(tables: Tables, raw: Tables, classes: Classes, c: Class, k: nat)
    requires Hierarchy(classes) && Listed(classes, c) && Declared(raw, c) && Declared(tables, c) && k < |Chain(c)|
    requires Declared(raw, Above(classes, c, k)) && tables[Chain(c)[k]] == TableOf(raw, Above(classes, c, k))
    ensures GoodOrder(MergeChain(Lists(raw, Chain(c))[..k]), tables[Chain(c)[k]])
  {
    var lists := Lists(raw, Chain(c));
    FrontOfLists(raw, classes, c, k);
    AncestorSlots(lists[..k + 1], k);
    assert lists[..k + 1][..k] == lists[..k];
    ChainTable(lists[..k + 1]);
    InheritedFirstIsGood(MergeChain(lists[..k]), tables[Chain(c)[k]]);
  }

  lemma CurrentIdsIdentify(tables: Tables, raw: Tables, classes: Classes, c: Class)
    requires Hierarchy(classes) && Settled(tables, raw, classes) && OneId(raw, classes)
    requires Listed(classes, c) && Declared(tables, c) && Declared(raw, c)
    ensures IdsIdentify(Lists(tables, Chain(c)))
  {
    var lists: seq<seq<Func>> := Lists(tables, Chain(c));
    forall k: nat, i: nat, l: nat, j: nat | k < |lists| && i < |lists[k]| && l < |lists| && j < |lists[l]|
      && lists[k][i].id == lists[l][j].id
      ensures lists[k][i] == lists[l][j]
    {
      var m := MetIsOwned(tables, raw, classes, c, k, lists[k][i]);
      var n := MetIsOwned(tables, raw, classes, c, l, lists[l][j]);
      ChainPrefix(classes, c, m);
      ChainPrefix(classes, c, n);
    }
  }

  lemma {:induction false} VisitChainKeeps(s: Pass, lists: seq<seq<Func>>, n: nat, current: ClassId, id: FuncId)
    requires n <= |lists| && forall k :: 0 <= k < n ==> IdAbsent(lists[k], id)
    ensures var index := VisitChain(s, lists, n, current).index;
      (id in index <==> id in s.index) && (id in index ==> index[id] == s.index[id])
    decreases n
  {
    if n > 0 {
      VisitChainKeeps(s, lists, n - 1, current, id);
      ListStores(VisitChain(s, lists, n - 1, current), lists[n - 1], current, id);
    }
  }

  /** What the original lists of a program are like. */
  ghost predicate Sound(raw: Tables, classes: Classes) {
    Hierarchy(classes) && Covers(raw, classes) && OneId(raw, classes) && AtHome(raw, classes)
  }

  /** Some list the pass over `c` goes through has a function with the id. */
  ghost predicate Meets(tables: Tables, c: Class, id: FuncId) {
    c.hasVtable && Declared(tables, c)
    && exists k :: 0 <= k < |Chain(c)| && !IdAbsent(Lists(tables, Chain(c))[k], id)
  }

  lemma PassKeeps(p: Program, c: Class, id: FuncId)
    requires !Meets(p.vtables, c, id)
    ensures var index := Fix(p, c).index; (id in index <==> id in p.index) && (id in index ==> index[id] == p.index[id])
  {
    if c.hasVtable && Declared(p.vtables, c) {
      var lists := Lists(p.vtables, Chain(c));
      VisitChainKeeps(Pass([], p.index, p.overrides, p.errors, 0), lists, |lists|, c.id, id);
    }
  }

  /** `number` is the slot of the function in the table of its class. */
  ghost predicate AtSlot(raw: Tables, classes: Classes, index: map<FuncId, int>, f: Func) {
    && f.parent in classes && Declared(raw, classes[f.parent])
    && f.id in index && index[f.id] == HomeSlot(raw, classes, f)
  }

  /** The function met under an id in a pass is the one that owns the id, of a class of the chain. */
  lemma MetFunction(tables: Tables, raw: Tables, classes: Classes, c: Class, k: nat, i: nat, d: ClassId, f: Func)
    requires Sound(raw, classes) && Settled(tables, raw, classes)
    requires Listed(classes, c) && Declared(tables, c) && Declared(raw, c) && d in classes && Owns(raw, d, f)
    requires k < |Chain(c)| && i < |tables[Chain(c)[k]]| && tables[Chain(c)[k]][i].id == f.id
    ensures tables[Chain(c)[k]][i] == f && f.parent in Chain(c) && Owns(raw, f.parent, f)
  {
    var l := MetIsOwned(tables, raw, classes, c, k, tables[Chain(c)[k]][i]);
    ChainPrefix(classes, c, l);
    assert f.parent in Chain(classes[Chain(c)[l]]);
  }

  lemma NumberedInPass(p: Program, c: Class, lists: seq<seq<Func>>, k: nat, i: nat)
    requires c.hasVtable && Declared(p.vtables, c) && lists == Lists(p.vtables, Chain(c))
    requires GoodChain(lists) && IdsIdentify(lists) && k < |lists| && i < |lists[k]|
    ensures var index, f := Fix(p, c).index, lists[k][i];
      f.id in index && index[f.id] == Slot(MergeChain(lists), KeyOf(f))
  {
    GoodChainNumbers(Pass([], p.index, p.overrides, p.errors, 0), lists, c.id, k, i);
  }

  /** A pass gives what it meets the slot in the table merged from the original lists. */
  lemma PassGivesSlot(p: Program, raw: Tables, classes: Classes, c: Class, k: nat, i: nat)
    requires Sound(raw, classes) && GoodHierarchy(raw, classes) && Settled(p.vtables, raw, classes)
    requires Listed(classes, c) && c.hasVtable && Declared(p.vtables, c) && Declared(raw, c)
    requires k < |Chain(c)| && i < |p.vtables[Chain(c)[k]]|
    ensures var index, f := Fix(p, c).index, p.vtables[Chain(c)[k]][i];
      f.id in index && index[f.id] == Slot(TableOf(raw, c), KeyOf(f))
  {
    var lists: seq<seq<Func>> := Lists(p.vtables, Chain(c));
    SameTable(p.vtables, raw, classes, c);
    CurrentChainGood(p.vtables, raw, classes, c);
    CurrentIdsIdentify(p.vtables, raw, classes, c);
    NumberedInPass(p, c, lists, k, i);
  }

  /** Where a pass meets an id. */
  lemma MetAt(tables: Tables, c: Class, id: FuncId) returns (k: nat, i: nat)
    requires Meets(tables, c, id)
    ensures k < |Chain(c)| && i < |tables[Chain(c)[k]]| && tables[Chain(c)[k]][i].id == id
  {
    k :| k < |Chain(c)| && !IdAbsent(Lists(tables, Chain(c))[k], id);
    i :| i < |tables[Chain(c)[k]]| && tables[Chain(c)[k]][i].id == id;
  }

  lemma PassNumbers(p: Program, raw: Tables, classes: Classes, c: Class, d: ClassId, f: Func)
    requires Sound(raw, classes) && GoodHierarchy(raw, classes) && Settled(p.vtables, raw, classes)
    requires Listed(classes, c) && Declared(raw, c) && Meets(p.vtables, c, f.id) && d in classes && Owns(raw, d, f)
    ensures AtSlot(raw, classes, Fix(p, c).index, f)
  {
    var k, i := MetAt(p.vtables, c, f.id);
    MetFunction(p.vtables, raw, classes, c, k, i, d, f);
    PassGivesSlot(p, raw, classes, c, k, i);
    SlotIsHomeSlot(raw, classes, c, f);
  }

  // All passes

  lemma AfterPasses(p: Program, classes: Classes, order: seq<Class>)
    requires Hierarchy(classes) && Covers(p.vtables, classes) && AllListed(classes, order)
    ensures Settled(FixProgram(p, order).vtables, p.vtables, classes)
    ensures forall id | id in classes :: Final(FixProgram(p, order).vtables, p.vtables, order, classes[id])
  {
    ProgramTables(p, order);
    AnyOrder(p.vtables, classes, order);
    FinalSettles(FixProgram(p, order).vtables, p.vtables, classes, order);
  }

  /** A function whose class has not been merged is met. */
  lemma UnmergedIsMet(tables: Tables, raw: Tables, classes: Classes, c: Class, k: nat, f: Func)
    requires Hierarchy(classes) && Listed(classes, c) && c.hasVtable && Declared(tables, c)
    requires k < |Chain(c)| && Chain(c)[k] in raw && f in raw[Chain(c)[k]]
    requires tables[Chain(c)[k]] == raw[Chain(c)[k]]
    ensures Meets(tables, c, f.id)
  {
    var list := raw[Chain(c)[k]];
    var i :| 0 <= i < |list| && list[i] == f;
    assert Lists(tables, Chain(c))[k][i].id == f.id;
    assert !IdAbsent(Lists(tables, Chain(c))[k], f.id);
  }

  /** A pass that does not meet a function of its chain comes behind the pass of a class that has it. */
  lemma EarlierPass(tables: Tables, raw: Tables, classes: Classes, front: seq<Class>, c: Class, e: Class, k: nat,
      f: Func) returns (d: Class)
    requires Hierarchy(classes) && Listed(classes, e) && Covers(tables, classes)
    requires forall id | id in classes :: Final(tables, raw, front, classes[id])
    requires (e in front || e == c) && e.hasVtable && !Meets(tables, c, f.id)
    requires k < |Chain(e)| && Owns(raw, Chain(e)[k], f)
    ensures Passed(front, d) && k < |Chain(d)| && Chain(d)[k] == Chain(e)[k]
  {
    if e in front {
      return e;
    }
    d := Above(classes, e, k);
    assert Final(tables, raw, front, classes[d.id]);
    if !Passed(front, d) {
      ChainDeclared(tables, classes, e);
      UnmergedIsMet(tables, raw, classes, e, k, f);
    }
  }

  // The dummy `seal` keeps what is assumed of a program folded in the induction below.

  ghost predicate WellOrderedAt(seal: int, raw: Tables, classes: Classes) {
    Sound(raw, classes) && GoodHierarchy(raw, classes)
  }

  ghost predicate WellOrdered(raw: Tables, classes: Classes) {
    forall seal :: WellOrderedAt(seal, raw, classes)
  }

  lemma LastPassNumbers(p: Program, classes: Classes, front: seq<Class>, c: Class, e: Class, k: nat, f: Func)
    requires WellOrdered(p.vtables, classes) && AllListed(classes, front) && Listed(classes, c) && Listed(classes, e)
    requires k < |Chain(e)| && Owns(p.vtables, Chain(e)[k], f) && Meets(FixProgram(p, front).vtables, c, f.id)
    ensures AtSlot(p.vtables, classes, Fix(FixProgram(p, front), c).index, f)
  {
    assert WellOrderedAt(0, p.vtables, classes);
    AfterPasses(p, classes, front);
    ChainDeclared(p.vtables, classes, c);
    ChainPrefix(classes, e, k);
    PassNumbers(FixProgram(p, front), p.vtables, classes, c, Chain(e)[k], f);
  }

  /** Who had the function numbered before a pass that does not meet it. */
  lemma NumberedBefore(p: Program, classes: Classes, front: seq<Class>, c: Class, e: Class, k: nat, f: Func)
    returns (d: Class)
    requires WellOrdered(p.vtables, classes) && AllListed(classes, front) && Listed(classes, e)
    requires (e in front || e == c) && e.hasVtable && !Meets(FixProgram(p, front).vtables, c, f.id)
    requires k < |Chain(e)| && Owns(p.vtables, Chain(e)[k], f)
    ensures Passed(front, d) && k < |Chain(d)| && Chain(d)[k] == Chain(e)[k]
  {
    assert WellOrderedAt(0, p.vtables, classes);
    AfterPasses(p, classes, front);
    d := EarlierPass(FixProgram(p, front).vtables, p.vtables, classes, front, c, e, k, f);
  }

  lemma SlotKept(raw: Tables, classes: Classes, p: Program, c: Class, f: Func)
    requires AtSlot(raw, classes, p.index, f) && !Meets(p.vtables, c, f.id)
    ensures AtSlot(raw, classes, Fix(p, c).index, f)
  {
    PassKeeps(p, c, f.id);
  }

  /** After the passes, every function of the chain of a class that had a pass is numbered with its slot. */
  lemma {:induction false} NumbersLeft(p: Program, classes: Classes, order: seq<Class>, e: Class, k: nat, f: Func)
    requires WellOrdered(p.vtables, classes) && AllListed(classes, order)
    requires Passed(order, e) && k < |Chain(e)| && Owns(p.vtables, Chain(e)[k], f)
    ensures AtSlot(p.vtables, classes, FixProgram(p, order).index, f)
    decreases |order|
  {
    var front, c := order[..|order| - 1], order[|order| - 1];
    assert order == front + [c] && c in order;
    if Meets(FixProgram(p, front).vtables, c, f.id) {
      LastPassNumbers(p, classes, front, c, e, k, f);
    } else {
      var d := NumberedBefore(p, classes, front, c, e, k, f);
      NumbersLeft(p, classes, front, d, k, f);
      SlotKept(p.vtables, classes, FixProgram(p, front), c, f);
    }
  }

  /**
   After passes over the classes of a hierarchy with well-ordered lists, in any order and any number: the
   number of a function is its slot in the table of every class that has it.
   */
  lemma NumbersAreSlots(p: Program, classes: Classes, order: seq<Class>, e: Class, k: nat, f: Func, c: Class)
    requires Sound(p.vtables, classes) && GoodHierarchy(p.vtables, classes) && AllListed(classes, order)
    requires Passed(order, e) && k < |Chain(e)| && Owns(p.vtables, Chain(e)[k], f)
    requires Listed(classes, c) && f.parent in Chain(c)
    ensures Declared(p.vtables, c)
    ensures var index := FixProgram(p, order).index;
      f.id in index && index[f.id] == Slot(TableOf(p.vtables, c), KeyOf(f)) < |TableOf(p.vtables, c)|
  {
    NumbersLeft(p, classes, order, e, k, f);
    ChainDeclared(p.vtables, classes, c);
    ChainPrefix(classes, e, k);
    assert f.parent in Chain(classes[Chain(e)[k]]);
    SlotIsHomeSlot(p.vtables, classes, c, f);
    var l :| 0 <= l < |Chain(c)| && Chain(c)[l] == f.parent;
    OwnedHasSlot(p.vtables, c, l, f);
  }

  /**
   Then a call of a function of a class, on an object of that class or of one below it that had a pass,
   loads the most derived function with its key, or null if that is a declaration only.
   */
  lemma CallReachesLast(p: Program, classes: Classes, order: seq<Class>, e: Class, k: nat, f: Func) returns (g: Func)
    requires Sound(p.vtables, classes) && GoodHierarchy(p.vtables, classes) && AllListed(classes, order)
    requires Passed(order, e) && k < |Chain(e)| && Owns(p.vtables, Chain(e)[k], f)
    ensures Declared(p.vtables, e)
    ensures var flat := Flat(Lists(p.vtables, Chain(e))); LastOf(flat, |flat|, g) && KeyOf(g) == KeyOf(f)
    ensures var end := FixProgram(p, order);
      && e.id in end.vtables && f.id in end.index && 0 <= end.index[f.id] < |end.vtables[e.id]|
      && Load(Emitted(end.vtables[e.id]), end.index[f.id]) == if g.declaration then NullEntry else Code(g.id)
  {
    AfterPasses(p, classes, order);
    assert Listed(classes, e);
    assert Final(FixProgram(p, order).vtables, p.vtables, order, classes[e.id]);
    ChainPrefix(classes, e, k);
    assert f.parent in Chain(classes[Chain(e)[k]]);
    NumbersAreSlots(p, classes, order, e, k, f, e);
    var table := TableOf(p.vtables, e);
    g := table[Slot(table, KeyOf(f))];
    assert g in table;
    ChainTable(Lists(p.vtables, Chain(e)));
  }

  // Lists that are not well ordered

  /** The `j`-th pass goes through a list that has the id. */
  ghost predicate PassMeets(p: Program, order: seq<Class>, j: nat, id: FuncId)
    requires j < |order|
  {
    Meets(FixProgram(p, order[..j]).vtables, order[j], id)
  }

  /** A pass that is the last one to meet an id leaves the number. */
  lemma {:induction false} LaterPassesKeep(p: Program, order: seq<Class>, j: nat, id: FuncId)
    requires j < |order| && forall m :: j < m < |order| ==> !PassMeets(p, order, m, id)
    ensures var index, given := FixProgram(p, order).index, FixProgram(p, order[..j + 1]).index;
      (id in index <==> id in given) && (id in index ==> index[id] == given[id])
    decreases |order|
  {
    if j == |order| - 1 {
      assert order[..j + 1] == order;
    } else {
      var front := order[..|order| - 1];
      forall m | j < m < |front|
        ensures !PassMeets(p, front, m, id)
      {
        assert front[..m] == order[..m];
        assert !PassMeets(p, order, m, id);
      }
      LaterPassesKeep(p, front, j, id);
      assert front[..j + 1] == order[..j + 1];
      assert !PassMeets(p, order, |order| - 1, id);
      PassKeeps(FixProgram(p, front), order[|order| - 1], id);
    }
  }

  /**
   Whatever the lists: the last pass that meets a function decides about its number, and the list of the
   chain it met the function in last. The number is the slot if and only if the class of that list had
   been merged before, or its original list numbers the function well.
   */
  lemma LastPassDecides(p: Program, classes: Classes, order: seq<Class>, j: nat, k: nat, i: nat, f: Func)
    requires Hierarchy(classes) && Covers(p.vtables, classes) && AllListed(classes, order)
    requires j < |order| && order[j].hasVtable && Declared(FixProgram(p, order[..j]).vtables, order[j])
    requires LastInChain(Lists(FixProgram(p, order[..j]).vtables, Chain(order[j])), k, i, |Chain(order[j])|)
    requires f == Lists(FixProgram(p, order[..j]).vtables, Chain(order[j]))[k][i]
    requires forall m :: j < m < |order| ==> !PassMeets(p, order, m, f.id)
    ensures Declared(p.vtables, order[j])
    ensures var index, raw := FixProgram(p, order).index, Lists(p.vtables, Chain(order[j]));
      var d := Above(classes, order[j], k);
      && f.id in index
      && (index[f.id] == Slot(TableOf(p.vtables, order[j]), KeyOf(f))
          <==> Passed(order[..j], d) || (i < |raw[k]| && Numbered(MergeChain(raw[..k]), raw[k], i)))
  {
    var before, c := FixProgram(p, order[..j]), order[j];
    assert order[..j + 1][..j] == order[..j];
    assert c in order;
    AfterPasses(p, classes, order[..j]);
    LaterPassesKeep(p, order, j, f.id);
    DecidedInPass(before, p.vtables, classes, order[..j], c, k, i);
  }

  lemma DecidedInPass(before: Program, raw: Tables, classes: Classes, order: seq<Class>, c: Class, k: nat, i: nat)
    requires Hierarchy(classes) && Covers(raw, classes) && Settled(before.vtables, raw, classes)
    requires forall id | id in classes :: Final(before.vtables, raw, order, classes[id])
    requires Listed(classes, c) && c.hasVtable && Declared(before.vtables, c)
    requires LastInChain(Lists(before.vtables, Chain(c)), k, i, |Chain(c)|)
    ensures Declared(raw, c)
    ensures var index, lists := Fix(before, c).index, Lists(raw, Chain(c));
      var f, d := Lists(before.vtables, Chain(c))[k][i], Above(classes, c, k);
      && f.id in index
      && (index[f.id] == Slot(TableOf(raw, c), KeyOf(f))
          <==> Passed(order, d) || (i < |lists[k]| && Numbered(MergeChain(lists[..k]), lists[k], i)))
  {
    var lists := Lists(before.vtables, Chain(c));
    var d := Above(classes, c, k);
    SameTable(before.vtables, raw, classes, c);
    SameAbove(before.vtables, raw, classes, c, k);
    IndexIsSlotIff(Pass([], before.index, before.overrides, before.errors, 0), lists, c.id, k, i);
    assert Final(before.vtables, raw, order, classes[d.id]);
    if Passed(order, d) {
      MergedIsGood(before.vtables, raw, classes, c, k);
      NumberedIfGood(MergeChain(lists[..k]), lists[k], i);
    }
  }

  // The order of the passes matters

  /** Two methods, and below an override of the first in front of a new one. */
  ghost predicate OverrideThenNew(a: Func, b: Func, a': Func, m: Func) {
    && KeyOf(a) != KeyOf(b) && KeyOf(a') == KeyOf(a) && KeyOf(m) != KeyOf(a) && KeyOf(m) != KeyOf(b)
    && m.id != a.id && m.id != b.id && m.id != a'.id
  }

  lemma MergedTables(a: Func, b: Func, a': Func, m: Func)
    requires OverrideThenNew(a, b, a', m)
    ensures MergeChain([[a, b]]) == [a, b]
    ensures MergeChain([[a, b], [a', m]]) == [a', b, m]
    ensures MergeChain([[a, b], [a', m], []]) == [a', b, m]
    ensures !Numbered([a, b], [a', m], 1) && Slot([a', b, m], KeyOf(m)) == 2
  {
    SlotIs([a], KeyOf(b), 1);
    assert PutAll([], [a, b], 1) == [a] && PutAll([], [a, b], 2) == [a, b];
    assert [[a, b]][..0] == [] && [[a, b], [a', m]][..1] == [[a, b]];
    assert [[a, b], [a', m], []][..2] == [[a, b], [a', m]];
    SlotIs([a, b], KeyOf(a'), 0);
    assert PutAll([a, b], [a', m], 1) == [a', b];
    SlotIs([a', b], KeyOf(m), 2);
    assert PutAll([a, b], [a', m], 2) == [a', b, m];
    SlotIs([a', b, m], KeyOf(m), 2);
  }

  /** Such a class and a child of it: where the class is merged first, the pass of the child corrects the
      number of the new method; the other way round the wrong number is left. */
  lemma OrderOfPassesMatters(p: Program, root: Class, c: Class, d: Class, a: Func, b: Func, a': Func, m: Func)
    requires root == Class(0, None, true) && c == Class(1, Some(root), true) && d == Class(2, Some(c), true)
    requires p.vtables == map[0 := [a, b], 1 := [a', m], 2 := []] && OverrideThenNew(a, b, a', m)
    ensures Declared(p.vtables, c) && Slot(TableOf(p.vtables, c), KeyOf(m)) == 2
    ensures var index := FixProgram(p, [c, d]).index; m.id in index && index[m.id] == 2
    ensures var index := FixProgram(p, [d, c]).index; m.id in index && index[m.id] != 2
  {
    var classes := map[0 := root, 1 := c, 2 := d];
    Three(classes, root, c, d);
    MergedTables(a, b, a', m);
    assert Lists(p.vtables, Chain(c)) == [[a, b], [a', m]];
    assert Lists(p.vtables, Chain(d)) == [[a, b], [a', m], []];
    ParentFirst(p, classes, c, d, a, b, a', m);
    ChildFirst(p, classes, c, d, a, b, a', m);
  }

  lemma Three(classes: Classes, root: Class, c: Class, d: Class)
    requires root == Class(0, None, true) && c == Class(1, Some(root), true) && d == Class(2, Some(c), true)
    requires classes == map[0 := root, 1 := c, 2 := d]
    ensures Chain(c) == [0, 1] && Chain(d) == [0, 1, 2] && Hierarchy(classes)
  {
    assert Chain(root) == [0];
  }

  lemma OnePass(p: Program, c: Class)
    ensures FixProgram(p, [c]) == Fix(p, c)
  {
    assert [c][..0] == [];
  }

  lemma {:induction false} ParentFirst(p: Program, classes: Classes, c: Class, d: Class, a: Func, b: Func, a': Func,
      m: Func)
    requires Hierarchy(classes) && Covers(p.vtables, classes) && OverrideThenNew(a, b, a', m)
    requires Listed(classes, c) && Listed(classes, d) && Chain(c) == [0, 1] && Chain(d) == [0, 1, 2]
    requires c.hasVtable && d.hasVtable && p.vtables == map[0 := [a, b], 1 := [a', m], 2 := []]
    ensures var index := FixProgram(p, [c, d]).index; m.id in index && index[m.id] == 2
  {
    MergedTables(a, b, a', m);
    assert Lists(p.vtables, Chain(c)) == [[a, b], [a', m]];
    assert Lists(p.vtables, Chain(d)) == [[a, b], [a', m], []];
    assert [c, d][..1] == [c];
    var before := FixProgram(p, [c]);
    OnePass(p, c);
    assert before.vtables == p.vtables[1 := [a', b, m]];
    var lists := Lists(before.vtables, Chain(d));
    assert lists == [[a, b], [a', b, m], []];
    assert LastInChain(lists, 1, 2, 3);
    LastPassDecides(p, classes, [c, d], 1, 1, 2, m);
  }

  lemma {:induction false} ChildFirst(p: Program, classes: Classes, c: Class, d: Class, a: Func, b: Func, a': Func,
      m: Func)
    requires Hierarchy(classes) && Covers(p.vtables, classes) && OverrideThenNew(a, b, a', m)
    requires Listed(classes, c) && Listed(classes, d) && Chain(c) == [0, 1] && Chain(d) == [0, 1, 2]
    requires c.hasVtable && d.hasVtable && p.vtables == map[0 := [a, b], 1 := [a', m], 2 := []]
    ensures var index := FixProgram(p, [d, c]).index; m.id in index && index[m.id] != 2
  {
    MergedTables(a, b, a', m);
    assert Lists(p.vtables, Chain(c)) == [[a, b], [a', m]];
    assert [d, c][..1] == [d];
    var before := FixProgram(p, [d]);
    OnePass(p, d);
    var lists := Lists(before.vtables, Chain(c));
    assert lists == [[a, b], [a', m]];
    assert LastInChain(lists, 1, 1, 2);
    assert lists[..1] == [[a, b]];
    LastPassDecides(p, classes, [d, c], 1, 1, 1, m);
  }
}
