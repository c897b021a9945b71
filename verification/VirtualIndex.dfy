/**
 The number `fixTypes` stores in a function against the slot of the function, and what a virtual call
 loads with it from the emitted table.
 */
module VirtualIndex {
  import opened VirtualTable
  import opened VirtualTableTheorem

  // Numbers given in the pass over one list

  /** Whether the table so far has no slot for the `i`-th function of the list. */
  predicate New(table: seq<Func>, list: seq<Func>, i: nat)
    requires i < |list|
  {
    Slot(PutAll(table, list, i), KeyOf(list[i])) == |PutAll(table, list, i)|
  }

  /** The number given to the `i`-th function. */
  function Number(table: seq<Func>, list: seq<Func>, i: nat): nat
    requires i < |list|
    decreases i
  {
    if !New(table, list, i) then Slot(PutAll(table, list, i), KeyOf(list[i]))
    else if i == 0 then 0
    else Number(table, list, i - 1) + 1
  }

  predicate HoldsLastSlot(table: seq<Func>, fn: Func) {
    table != [] && KeyOf(table[|table| - 1]) == KeyOf(fn)
  }

  /**
   When the number is right: the function overrides; or it is the first of all; or its predecessor in the
   list holds the last slot, and has the right number itself.
   */
  predicate Numbered(table: seq<Func>, list: seq<Func>, i: nat)
    requires i < |list|
    decreases i
  {
    !New(table, list, i)
    || if i == 0 then table == []
       else HoldsLastSlot(PutAll(table, list, i), list[i - 1]) && Numbered(table, list, i - 1)
  }

  /** A function sits where the merge put it for good. */
  lemma SlotAfter(table: seq<Func>, list: seq<Func>, i: nat)
    requires i < |list| && Distinct(table)
    ensures Slot(PutAll(table, list, i + 1), KeyOf(list[i])) == Slot(PutAll(table, list, i), KeyOf(list[i]))
    ensures Slot(PutAll(table, list, i), KeyOf(list[i])) < |PutAll(table, list, i + 1)|
  {
    var before := PutAll(table, list, i);
    PutAllShape(table, list, i);
    PutShape(before, list[i]);
    SlotInDistinct(PutAll(table, list, i + 1), Slot(before, KeyOf(list[i])));
  }

  lemma SlotInDistinct(table: seq<Func>, k: nat)
    requires Distinct(table) && k < |table|
    ensures Slot(table, KeyOf(table[k])) == k
  {
    SlotIs(table, KeyOf(table[k]), k);
  }

  lemma SlotInExtension(table: seq<Func>, longer: seq<Func>, key: Key)
    requires Distinct(longer) && Extends(table, longer) && Slot(table, key) < |table|
    ensures Slot(longer, key) == Slot(table, key)
  {
    SlotInDistinct(longer, Slot(table, key));
  }

  lemma HoldsLastIffSlot(table: seq<Func>, fn: Func)
    requires Distinct(table) && Slot(table, KeyOf(fn)) < |table|
    ensures HoldsLastSlot(table, fn) <==> Slot(table, KeyOf(fn)) == |table| - 1
  {
    if HoldsLastSlot(table, fn) {
      SlotInDistinct(table, |table| - 1);
    }
  }

  /** A new function goes behind everything, and where the one before it sits is known. */
  lemma NewBehind(table: seq<Func>, list: seq<Func>, i: nat)
    requires 0 < i < |list| && Distinct(table) && New(table, list, i)
    ensures var before, slot := PutAll(table, list, i), Slot(PutAll(table, list, i - 1), KeyOf(list[i - 1]));
      && Slot(before, KeyOf(list[i])) == |before| && slot < |before|
      && (HoldsLastSlot(before, list[i - 1]) <==> slot == |before| - 1)
  {
    SlotAfter(table, list, i - 1);
    PutAllShape(table, list, i);
    HoldsLastIffSlot(PutAll(table, list, i), list[i - 1]);
  }

  /** The number of a function is its slot exactly when it is numbered well. */
  lemma {:induction false} NumberIsSlotIff(table: seq<Func>, list: seq<Func>, i: nat)
    requires i < |list| && Distinct(table)
    ensures Number(table, list, i) == Slot(PutAll(table, list, i), KeyOf(list[i])) <==> Numbered(table, list, i)
    ensures Number(table, list, i) <= Slot(PutAll(table, list, i), KeyOf(list[i]))
    decreases i
  {
    if i > 0 && New(table, list, i) {
      NumberIsSlotIff(table, list, i - 1);
      NewBehind(table, list, i);
    }
  }

  /** In one list: every number is the slot in the merged table exactly when every new function but a first
      one in an empty table stands behind a function that holds the last slot. */
  predicate GoodOrder(table: seq<Func>, list: seq<Func>) {
    forall i :: 0 <= i < |list| ==> BehindLast(table, list, i)
  }

  predicate BehindLast(table: seq<Func>, list: seq<Func>, i: nat)
    requires i < |list|
  {
    New(table, list, i) ==> if i == 0 then table == [] else HoldsLastSlot(PutAll(table, list, i), list[i - 1])
  }

  lemma {:induction false} NumberedIfGood(table: seq<Func>, list: seq<Func>, i: nat)
    requires i < |list| && GoodOrder(table, list)
    ensures Numbered(table, list, i)
    decreases i
  {
    assert BehindLast(table, list, i);
    if i > 0 {
      NumberedIfGood(table, list, i - 1);
    }
  }

  lemma AllNumberedIffGood(table: seq<Func>, list: seq<Func>)
    requires Distinct(table)
    ensures (forall i :: 0 <= i < |list| ==> Number(table, list, i) == Slot(Merge(table, list), KeyOf(list[i])))
      <==> GoodOrder(table, list)
  {
    forall i | 0 <= i < |list|
      ensures Number(table, list, i) == Slot(Merge(table, list), KeyOf(list[i])) <==> Numbered(table, list, i)
    {
      NumberIsFinalSlotIff(table, list, i);
    }
    if GoodOrder(table, list) {
      forall i | 0 <= i < |list|
        ensures Numbered(table, list, i)
      {
        NumberedIfGood(table, list, i);
      }
    }
    if forall i :: 0 <= i < |list| ==> Numbered(table, list, i) {
      forall i | 0 <= i < |list|
        ensures BehindLast(table, list, i)
      {
        assert Numbered(table, list, i);
      }
    }
  }

  lemma NumberIsFinalSlotIff(table: seq<Func>, list: seq<Func>, i: nat)
    requires i < |list| && Distinct(table)
    ensures Number(table, list, i) == Slot(Merge(table, list), KeyOf(list[i])) <==> Numbered(table, list, i)
  {
    NumberIsSlotIff(table, list, i);
    SlotAfter(table, list, i);
    PutAllShape(table, list, i + 1);
    PutAllLonger(table, list, i + 1, |list|);
    SlotInExtension(PutAll(table, list, i + 1), Merge(table, list), KeyOf(list[i]));
  }

  lemma {:induction false} PutAllLonger(table: seq<Func>, list: seq<Func>, n: nat, m: nat)
    requires n <= m <= |list| && Distinct(table)
    ensures Distinct(PutAll(table, list, m)) && Extends(PutAll(table, list, n), PutAll(table, list, m))
    decreases m
  {
    PutAllShape(table, list, m);
    if n < m {
      PutAllLonger(table, list, n, m - 1);
      PutShape(PutAll(table, list, m - 1), list[m - 1]);
    }
  }

  /** An override in front of a new method, where it does not hold the last slot, shifts the new one. */
  lemma OverrideThenNewIsWrong(a: Func, b: Func, a': Func, c: Func)
    requires KeyOf(a) != KeyOf(b) && KeyOf(a') == KeyOf(a) && KeyOf(c) != KeyOf(a) && KeyOf(c) != KeyOf(b)
    ensures Number([a, b], [a', c], 1) == 1 && Slot(Merge([a, b], [a', c]), KeyOf(c)) == 2
  {
    SlotIs([a, b], KeyOf(a'), 0);
    assert PutAll([a, b], [a', c], 1) == [a', b];
    SlotIs([a', b], KeyOf(c), 2);
    assert PutAll([a, b], [a', c], 2) == [a', b, c];
    SlotIs([a', b, c], KeyOf(c), 2);
    assert Number([a, b], [a', c], 0) == 0;
  }

  /** A list that begins with the inherited keys in slot order and goes on with new ones is well ordered;
      in particular a merged table is. */
  lemma InheritedFirstIsGood(table: seq<Func>, list: seq<Func>)
    requires Distinct(list) && Extends(table, list)
    ensures GoodOrder(table, list)
  {
    forall i | 0 <= i < |list|
      ensures BehindLast(table, list, i)
    {
      MergedSoFar(table, list, i);
      if i < |table| {
        SlotIs(PutAll(table, list, i), KeyOf(list[i]), i) by {
          assert KeyOf(PutAll(table, list, i)[i]) == KeyOf(list[i]);
          forall j | 0 <= j < i
            ensures KeyOf(PutAll(table, list, i)[j]) != KeyOf(list[i])
          {
          }
        }
      }
    }
  }

  // Numbers left after the pass over a chain

  /** The `i`-th function of the list is the last among the first `n` with its id. */
  ghost predicate LastWithId(list: seq<Func>, i: nat, n: nat) {
    i < n <= |list| && forall j :: i < j < n ==> list[j].id != list[i].id
  }

  predicate NumberIs(table: seq<Func>, list: seq<Func>, i: nat, number: nat)
    requires i < |list|
  {
    Number(table, list, i) == number
  }

  /** `numbers` lists the numbers given in the pass over a list. */
  ghost predicate AreNumbers(table: seq<Func>, list: seq<Func>, numbers: seq<nat>) {
    |numbers| == |list| && forall i {:trigger NumberIs(table, list, i, numbers[i])} :: 0 <= i < |list| ==>
      NumberIs(table, list, i, numbers[i])
  }

  function Numbers(table: seq<Func>, list: seq<Func>): (numbers: seq<nat>)
    ensures AreNumbers(table, list, numbers)
  {
    seq(|list|, i requires 0 <= i < |list| => Number(table, list, i))
  }

  /** The numbers stored by the pass over the first `n` functions. */
  function Stored(index: map<FuncId, int>, list: seq<Func>, numbers: seq<nat>, n: nat): map<FuncId, int>
    requires n <= |list| == |numbers|
  {
    if n == 0 then index else Stored(index, list, numbers, n - 1)[list[n - 1].id := numbers[n - 1]]
  }

  lemma GivenIsNumber(before: Pass, table: seq<Func>, list: seq<Func>, numbers: seq<nat>, n: nat)
    requires AreNumbers(table, list, numbers)
    requires n < |list| && before.table == PutAll(table, list, n)
    requires before.counter == if n == 0 then 0 else numbers[n - 1] + 1
    ensures NumberGiven(before, list[n]) == numbers[n]
  {
    assert NumberIs(table, list, n, numbers[n]);
    assert n > 0 ==> NumberIs(table, list, n - 1, numbers[n - 1]);
  }

  lemma VisitStores(s: Pass, fn: Func, number: nat, current: ClassId)
    requires NumberGiven(s, fn) == number
    ensures Visit(s, fn, current).index == s.index[fn.id := number] && Visit(s, fn, current).counter == number + 1
  {
  }

  lemma {:induction false} VisitListStores(s: Pass, list: seq<Func>, numbers: seq<nat>, n: nat, current: ClassId)
    requires n <= |list| && AreNumbers(s.table, list, numbers)
    ensures VisitList(s, list, n, current).counter == if n == 0 then 0 else numbers[n - 1] + 1
    ensures VisitList(s, list, n, current).index == Stored(s.index, list, numbers, n)
  {
    if n > 0 {
      var before := VisitList(s, list, n - 1, current);
      VisitListStores(s, list, numbers, n - 1, current);
      GivenInList(s, list, numbers, n - 1, current);
      VisitStores(before, list[n - 1], numbers[n - 1], current);
    }
  }

  lemma GivenInList(s: Pass, list: seq<Func>, numbers: seq<nat>, n: nat, current: ClassId)
    requires n < |list| && AreNumbers(s.table, list, numbers)
    requires VisitList(s, list, n, current).counter == if n == 0 then 0 else numbers[n - 1] + 1
    ensures NumberGiven(VisitList(s, list, n, current), list[n]) == numbers[n]
  {
    VisitListTable(s, list, n, current);
    GivenIsNumber(VisitList(s, list, n, current), s.table, list, numbers, n);
  }

  lemma {:induction false} StoredLast(index: map<FuncId, int>, list: seq<Func>, numbers: seq<nat>, n: nat, i: nat)
    requires LastWithId(list, i, n) && |numbers| == |list|
    ensures var stored := Stored(index, list, numbers, n);
      list[i].id in stored && stored[list[i].id] == numbers[i]
    decreases n
  {
    if i < n - 1 {
      StoredLast(index, list, numbers, n - 1, i);
    }
  }

  lemma {:induction false} StoredKeeps(index: map<FuncId, int>, list: seq<Func>, numbers: seq<nat>, n: nat, id: FuncId)
    requires n <= |list| == |numbers| && forall j :: 0 <= j < n ==> list[j].id != id
    ensures var stored := Stored(index, list, numbers, n);
      (id in stored <==> id in index) && (id in stored ==> stored[id] == index[id])
  {
    if n > 0 {
      StoredKeeps(index, list, numbers, n - 1, id);
    }
  }

  /** The `i`-th function of the `k`-th list is the last of the first `n` lists with its id. */
  ghost predicate LastInChain(lists: seq<seq<Func>>, k: nat, i: nat, n: nat) {
    && k < n <= |lists| && LastWithId(lists[k], i, |lists[k]|)
    && forall l :: k < l < n ==> IdAbsent(lists[l], lists[k][i].id)
  }

  ghost predicate IdAbsent(list: seq<Func>, id: FuncId) {
    forall j :: 0 <= j < |list| ==> list[j].id != id
  }

  /** What one more list stores for its functions, and keeps for others. */
  lemma ListStores(s: Pass, list: seq<Func>, current: ClassId, id: FuncId)
    ensures var index := VisitList(s, list, |list|, current).index;
      && (forall i: nat :: LastWithId(list, i, |list|) && list[i].id == id ==>
            id in index && index[id] == Number(s.table, list, i))
      && (IdAbsent(list, id) ==> (id in index <==> id in s.index) && (id in index ==> index[id] == s.index[id]))
  {
    var numbers := Numbers(s.table, list);
    VisitListStores(s, list, numbers, |list|, current);
    forall i: nat | LastWithId(list, i, |list|) && list[i].id == id
      ensures var stored := Stored(s.index, list, numbers, |list|);
        id in stored && stored[id] == Number(s.table, list, i)
    {
      StoredLast(s.index, list, numbers, |list|, i);
      assert NumberIs(s.table, list, i, numbers[i]);
    }
    if IdAbsent(list, id) {
      StoredKeeps(s.index, list, numbers, |list|, id);
    }
  }

  lemma {:induction false} VisitChainStores(s: Pass, lists: seq<seq<Func>>, n: nat, current: ClassId, k: nat, i: nat)
    requires s.table == [] && LastInChain(lists, k, i, n)
    ensures var index := VisitChain(s, lists, n, current).index;
      lists[k][i].id in index && index[lists[k][i].id] == Number(MergeChain(lists[..k]), lists[k], i)
    decreases n
  {
    var before := VisitChain(s, lists, n - 1, current);
    ListStores(before, lists[n - 1], current, lists[k][i].id);
    if k == n - 1 {
      VisitChainTable(s, lists, k, current);
    } else {
      assert IdAbsent(lists[n - 1], lists[k][i].id);
      VisitChainStores(s, lists, n - 1, current, k, i);
    }
  }

  lemma SlotInMerge(table: seq<Func>, list: seq<Func>, i: nat)
    requires Distinct(table) && i < |list|
    ensures Slot(Merge(table, list), KeyOf(list[i])) < |Merge(table, list)|
  {
    SlotAfter(table, list, i);
    PutAllShape(table, list, i + 1);
    PutAllLonger(table, list, i + 1, |list|);
    SlotInExtension(PutAll(table, list, i + 1), Merge(table, list), KeyOf(list[i]));
  }

  /** Slots of the table of one class of the chain, in the table of the whole chain. */
  lemma SlotInChain(lists: seq<seq<Func>>, k: nat, i: nat)
    requires k < |lists| && i < |lists[k]|
    ensures Slot(MergeChain(lists), KeyOf(lists[k][i]))
      == Slot(Merge(MergeChain(lists[..k]), lists[k]), KeyOf(lists[k][i]))
    ensures Slot(MergeChain(lists), KeyOf(lists[k][i])) < |MergeChain(lists)|
  {
    var upTo := lists[..k + 1];
    assert upTo[..k] == lists[..k] && upTo[k] == lists[k];
    AncestorSlots(lists, k + 1);
    ChainTable(lists);
    ChainTable(lists[..k]);
    SlotInMerge(MergeChain(lists[..k]), lists[k], i);
    SlotInExtension(MergeChain(upTo), MergeChain(lists), KeyOf(lists[k][i]));
  }

  /** After the pass over a chain, the number of a function is its slot in the new table exactly when its
      last occurrence in the chain was numbered well. */
  lemma IndexIsSlotIff(s: Pass, lists: seq<seq<Func>>, current: ClassId, k: nat, i: nat)
    requires s.table == [] && LastInChain(lists, k, i, |lists|)
    ensures var index := VisitChain(s, lists, |lists|, current).index;
      var fn := lists[k][i];
      fn.id in index
      && (index[fn.id] == Slot(MergeChain(lists), KeyOf(fn)) <==> Numbered(MergeChain(lists[..k]), lists[k], i))
  {
    VisitChainStores(s, lists, |lists|, current, k, i);
    ChainTable(lists[..k]);
    NumberIsFinalSlotIff(MergeChain(lists[..k]), lists[k], i);
    SlotInChain(lists, k, i);
  }

  /** Every list of the chain is well ordered over the tables above it. */
  ghost predicate GoodChain(lists: seq<seq<Func>>) {
    forall k :: 0 <= k < |lists| ==> GoodOrder(MergeChain(lists[..k]), lists[k])
  }

  /** One id, one function. */
  ghost predicate IdsIdentify(lists: seq<seq<Func>>) {
    forall k, i, l, j | 0 <= k < |lists| && 0 <= i < |lists[k]| && 0 <= l < |lists| && 0 <= j < |lists[l]| ::
      lists[k][i].id == lists[l][j].id ==> lists[k][i] == lists[l][j]
  }

  lemma {:induction false} LastInListExists(list: seq<Func>, id: FuncId, n: nat) returns (i: nat)
    requires n <= |list| && exists j :: 0 <= j < n && list[j].id == id
    ensures LastWithId(list, i, n) && list[i].id == id
  {
    if list[n - 1].id == id {
      i := n - 1;
    } else {
      i := LastInListExists(list, id, n - 1);
    }
  }

  lemma {:induction false} LastInChainExists(lists: seq<seq<Func>>, n: nat, id: FuncId) returns (k: nat, i: nat)
    requires n <= |lists| && exists l :: 0 <= l < n && !IdAbsent(lists[l], id)
    ensures LastInChain(lists, k, i, n) && lists[k][i].id == id
    decreases n
  {
    if !IdAbsent(lists[n - 1], id) {
      k := n - 1;
      i := LastInListExists(lists[k], id, |lists[k]|);
    } else {
      k, i := LastInChainExists(lists, n - 1, id);
    }
  }

  /** In a well-ordered chain every function of every class, overridden or not, ends up with the slot of its key. */
  lemma GoodChainNumbers(s: Pass, lists: seq<seq<Func>>, current: ClassId, l: nat, j: nat)
    requires s.table == [] && GoodChain(lists) && IdsIdentify(lists) && l < |lists| && j < |lists[l]|
    ensures var index := VisitChain(s, lists, |lists|, current).index;
      lists[l][j].id in index && index[lists[l][j].id] == Slot(MergeChain(lists), KeyOf(lists[l][j]))
  {
    var id := lists[l][j].id;
    assert !IdAbsent(lists[l], id);
    var k, i := LastInChainExists(lists, |lists|, id);
    assert lists[k][i] == lists[l][j];
    assert GoodOrder(MergeChain(lists[..k]), lists[k]);
    NumberedIfGood(MergeChain(lists[..k]), lists[k], i);
    IndexIsSlotIff(s, lists, current, k, i);
  }

  // Emission and dispatch

  datatype Entry = NullEntry | Code(id: FuncId)

  function EntryOf(fn: Func): Entry {
    if fn.declaration then NullEntry else Code(fn.id)
  }

  /** Two header entries, then the functions. */
  const HEADER: nat := 2

  function Emitted(table: seq<Func>): (entries: seq<Entry>)
    ensures |entries| == |table| + HEADER
    ensures forall i :: 0 <= i < |table| ==> entries[i + HEADER] == EntryOf(table[i])
  {
    [NullEntry, NullEntry] + seq(|table|, i requires 0 <= i < |table| => EntryOf(table[i]))
  }

  method CreateVirtualTable(table: seq<Func>) returns (functions: seq<Entry>)
    ensures functions == Emitted(table)
    ensures |functions| == |table| + 2 && functions[0] == functions[1] == NullEntry
    ensures forall i :: 0 <= i < |table| ==>
      functions[i + 2] == if table[i].declaration then NullEntry else Code(table[i].id)
  {
    functions := [NullEntry, NullEntry];
    for i := 0 to |table|
      invariant |functions| == i + HEADER
      invariant functions[..HEADER] == [NullEntry, NullEntry]
      invariant forall j :: 0 <= j < i ==> functions[j + HEADER] == EntryOf(table[j])
    {
      var fn := table[i];
      if fn.declaration {
        functions := functions + [NullEntry];
      } else {
        functions := functions + [Code(fn.id)];
      }
    }
    assert forall j :: HEADER <= j < |functions| ==> functions[j] == EntryOf(table[j - HEADER]);
  }

  /** The load of a virtual call: the number skips the header. */
  function Load(vtable: seq<Entry>, virtualIndex: nat): Entry
    requires virtualIndex + HEADER < |vtable|
  {
    vtable[virtualIndex + HEADER]
  }

  /**
   A call through a class of the chain, on an object of the last class: with the slot as number it
   reaches the most derived function with the key, or null if that is a declaration only.
   */
  lemma DispatchReachesLast(lists: seq<seq<Func>>, n: nat, f: Func) returns (g: Func)
    requires n <= |lists| && f in MergeChain(lists[..n])
    ensures LastOf(Flat(lists), |Flat(lists)|, g) && KeyOf(g) == KeyOf(f)
    ensures var slot := Slot(MergeChain(lists[..n]), KeyOf(f));
      && slot < |MergeChain(lists[..n])| <= |MergeChain(lists)|
      && Load(Emitted(MergeChain(lists)), slot) == if g.declaration then NullEntry else Code(g.id)
  {
    var table, final := MergeChain(lists[..n]), MergeChain(lists);
    var i :| 0 <= i < |table| && table[i] == f;
    ChainTable(lists[..n]);
    ChainTable(lists);
    AncestorSlots(lists, n);
    SlotInDistinct(table, i);
    g := final[i];
    assert g in final;
  }
}
