/**
 What the merged tables contain, that they do not depend on the order of the passes, and exactly when
 the number of a function is its slot.
 */
module VirtualTableTheorem {
  import opened Wrappers
  import opened VirtualTable

  // Shape of a table

  ghost predicate Distinct(table: seq<Func>) {
    forall i, j :: 0 <= i < j < |table| ==> KeyOf(table[i]) != KeyOf(table[j])
  }

  ghost predicate HasKey(list: seq<Func>, key: Key) {
    exists i :: 0 <= i < |list| && KeyOf(list[i]) == key
  }

  /** The slots of `table` are the first slots of `longer`. */
  ghost predicate Extends(table: seq<Func>, longer: seq<Func>) {
    |table| <= |longer| && forall i :: 0 <= i < |table| ==> KeyOf(table[i]) == KeyOf(longer[i])
  }

  lemma PutShape(table: seq<Func>, fn: Func)
    requires Distinct(table)
    ensures Distinct(Put(table, fn)) && Extends(table, Put(table, fn))
    ensures Slot(table, KeyOf(fn)) < |Put(table, fn)| && Put(table, fn)[Slot(table, KeyOf(fn))] == fn
  {
  }

  lemma PutKey(table: seq<Func>, fn: Func, key: Key)
    ensures HasKey(Put(table, fn), key) <==> HasKey(table, key) || key == KeyOf(fn)
  {
    var k, t := Slot(table, KeyOf(fn)), Put(table, fn);
    assert t[k] == fn;
    if HasKey(table, key) {
      var i :| 0 <= i < |table| && KeyOf(table[i]) == key;
      assert KeyOf(t[i]) == key;
    }
    if HasKey(t, key) {
      var i :| 0 <= i < |t| && KeyOf(t[i]) == key;
      assert i == k || t[i] == table[i];
    }
  }

  /** No two slots with the same key; inherited slots stay where they are. */
  lemma {:induction false} PutAllShape(table: seq<Func>, list: seq<Func>, n: nat)
    requires n <= |list| && Distinct(table)
    ensures Distinct(PutAll(table, list, n)) && Extends(table, PutAll(table, list, n))
  {
    if n > 0 {
      PutAllShape(table, list, n - 1);
      PutShape(PutAll(table, list, n - 1), list[n - 1]);
    }
  }

  /** The keys of a merged table are those of the table and of the list. */
  lemma {:induction false} PutAllKeys(table: seq<Func>, list: seq<Func>, n: nat, key: Key)
    requires n <= |list| && Distinct(table)
    ensures HasKey(PutAll(table, list, n), key)
      <==> HasKey(table, key) || exists i :: 0 <= i < n && KeyOf(list[i]) == key
  {
    if n > 0 {
      PutAllKeys(table, list, n - 1, key);
      PutKey(PutAll(table, list, n - 1), list[n - 1], key);
    }
  }

  /** `f` is the last of the first `n` functions of the list with its key. */
  ghost predicate LastOf(list: seq<Func>, n: nat, f: Func)
    requires n <= |list|
  {
    exists j :: 0 <= j < n && list[j] == f && forall k :: j < k < n ==> KeyOf(list[k]) != KeyOf(f)
  }

  ghost predicate Untouched(list: seq<Func>, n: nat, f: Func)
    requires n <= |list|
  {
    forall k :: 0 <= k < n ==> KeyOf(list[k]) != KeyOf(f)
  }

  lemma LastOfLonger(list: seq<Func>, n: nat, f: Func)
    requires n < |list| && KeyOf(list[n]) != KeyOf(f)
    ensures LastOf(list, n, f) ==> LastOf(list, n + 1, f)
    ensures Untouched(list, n, f) ==> Untouched(list, n + 1, f)
  {
    if LastOf(list, n, f) {
      var j :| 0 <= j < n && list[j] == f && forall k :: j < k < n ==> KeyOf(list[k]) != KeyOf(f);
      assert list[j] == f && forall k :: j < k < n + 1 ==> KeyOf(list[k]) != KeyOf(f);
    }
  }

  /** Every slot holds the last function of the list with its key, or what it held before. */
  lemma LastOfNewest(list: seq<Func>, n: nat)
    requires 0 < n <= |list|
    ensures LastOf(list, n, list[n - 1])
  {
    var f := list[n - 1];
    assert list[n - 1] == f;
  }

  /** After one function is put, a slot holds it, or the function it held before, which has another key. */
  lemma PutOne(table: seq<Func>, fn: Func, i: nat)
    requires Distinct(table) && i < |Put(table, fn)|
    ensures var f := Put(table, fn)[i];
      f == fn || (i < |table| && f == table[i] && KeyOf(f) != KeyOf(fn))
  {
    PutShape(table, fn);
    if i != Slot(table, KeyOf(fn)) && KeyOf(table[i]) == KeyOf(fn) {
      SlotIs(table, KeyOf(fn), i);
    }
  }

  lemma {:induction false} PutAllLast(table: seq<Func>, list: seq<Func>, n: nat, i: nat)
    requires n <= |list| && Distinct(table) && i < |PutAll(table, list, n)|
    ensures var f := PutAll(table, list, n)[i];
      LastOf(list, n, f) || (i < |table| && f == table[i] && Untouched(list, n, f))
  {
    if n > 0 {
      var before, fn := PutAll(table, list, n - 1), list[n - 1];
      PutAllShape(table, list, n - 1);
      PutOne(before, fn, i);
      if PutAll(table, list, n)[i] == fn {
        LastOfNewest(list, n);
      } else {
        PutAllLast(table, list, n - 1, i);
        LastOfLonger(list, n - 1, before[i]);
      }
    }
  }

  // Lists one behind the other

  function Flat(lists: seq<seq<Func>>): seq<Func> {
    if lists == [] then [] else Flat(lists[..|lists| - 1]) + lists[|lists| - 1]
  }

  lemma {:induction false} PutAllConcat(table: seq<Func>, a: seq<Func>, b: seq<Func>, n: nat)
    requires n <= |b|
    ensures PutAll(table, a + b, |a| + n) == PutAll(PutAll(table, a, |a|), b, n)
  {
    if n == 0 {
      PutAllPrefix(table, a, b, |a|);
    } else {
      PutAllConcat(table, a, b, n - 1);
    }
  }

  lemma {:induction false} PutAllPrefix(table: seq<Func>, a: seq<Func>, b: seq<Func>, n: nat)
    requires n <= |a|
    ensures PutAll(table, a + b, n) == PutAll(table, a, n)
  {
    if n > 0 {
      PutAllPrefix(table, a, b, n - 1);
    }
  }

  lemma MergeConcat(a: seq<Func>, b: seq<Func>)
    ensures Merge([], a + b) == Merge(Merge([], a), b)
  {
    PutAllConcat([], a, b, |b|);
  }

  lemma {:induction false} ChainIsFlat(lists: seq<seq<Func>>)
    ensures MergeChain(lists) == Merge([], Flat(lists))
    decreases |lists|
  {
    if lists != [] {
      var front, last := lists[..|lists| - 1], lists[|lists| - 1];
      ChainIsFlat(front);
      MergeConcat(Flat(front), last);
    }
  }

  /**
   The table of a chain: no key twice, exactly the keys of the chain, in every slot the last function
   from the root to the leaf with its key.
   */
  lemma ChainTable(lists: seq<seq<Func>>)
    ensures Distinct(MergeChain(lists))
    ensures forall key :: HasKey(MergeChain(lists), key) <==> HasKey(Flat(lists), key)
    ensures forall f :: f in MergeChain(lists) <==> LastOf(Flat(lists), |Flat(lists)|, f)
  {
    var flat := Flat(lists);
    ChainIsFlat(lists);
    PutAllShape([], flat, |flat|);
    forall key
      ensures HasKey(MergeChain(lists), key) <==> HasKey(flat, key)
    {
      PutAllKeys([], flat, |flat|, key);
    }
    forall f
      ensures f in MergeChain(lists) <==> LastOf(flat, |flat|, f)
    {
      InTableIffLast(lists, f);
    }
  }

  lemma InTableIffLast(lists: seq<seq<Func>>, f: Func)
    ensures f in MergeChain(lists) <==> LastOf(Flat(lists), |Flat(lists)|, f)
  {
    var flat, table := Flat(lists), MergeChain(lists);
    ChainIsFlat(lists);
    PutAllShape([], flat, |flat|);
    if f in table {
      var i :| 0 <= i < |table| && table[i] == f;
      PutAllLast([], flat, |flat|, i);
    }
    if LastOf(flat, |flat|, f) {
      var j :| 0 <= j < |flat| && flat[j] == f && forall k :: j < k < |flat| ==> KeyOf(flat[k]) != KeyOf(f);
      PutAllKeys([], flat, |flat|, KeyOf(f));
      assert KeyOf(flat[j]) == KeyOf(f);
      assert HasKey(table, KeyOf(f));
      var i :| 0 <= i < |table| && KeyOf(table[i]) == KeyOf(f);
      PutAllLast([], flat, |flat|, i);
      LastOfUnique(flat, |flat|, table[i], f);
    }
  }

  lemma LastOfUnique(list: seq<Func>, n: nat, f: Func, g: Func)
    requires n <= |list| && LastOf(list, n, f) && LastOf(list, n, g) && KeyOf(f) == KeyOf(g)
    ensures f == g
  {
    var j :| 0 <= j < n && list[j] == f && forall k :: j < k < n ==> KeyOf(list[k]) != KeyOf(f);
    var i :| 0 <= i < n && list[i] == g && forall k :: i < k < n ==> KeyOf(list[k]) != KeyOf(g);
    assert i == j;
  }

  /** The table of an ancestor gives the first slots of the table of a descendant. */
  lemma {:induction false} AncestorSlots(lists: seq<seq<Func>>, n: nat)
    requires n <= |lists|
    ensures Extends(MergeChain(lists[..n]), MergeChain(lists))
    decreases |lists|
  {
    if n == |lists| {
      assert lists[..n] == lists;
    } else {
      var front := lists[..|lists| - 1];
      AncestorSlots(front, n);
      assert front[..n] == lists[..n];
      ChainTable(front);
      PutAllShape(MergeChain(front), lists[|lists| - 1], |lists[|lists| - 1]|);
    }
  }

  // Any order of the passes

  /** Merging a merged table again changes nothing. */
  lemma MergedAgain(table: seq<Func>, merged: seq<Func>)
    requires Distinct(merged) && Extends(table, merged)
    ensures Merge(table, merged) == merged
  {
    MergedSoFar(table, merged, |merged|);
  }

  function Overlaid(table: seq<Func>, merged: seq<Func>, n: nat): seq<Func>
    requires n <= |merged|
  {
    merged[..n] + if n <= |table| then table[n..] else []
  }

  lemma OverlayOne(table: seq<Func>, merged: seq<Func>, n: nat)
    requires Distinct(merged) && Extends(table, merged) && n < |merged|
    ensures Put(Overlaid(table, merged, n), merged[n]) == Overlaid(table, merged, n + 1)
  {
    var t := Overlaid(table, merged, n);
    forall i | 0 <= i < |t| && i != n
      ensures KeyOf(t[i]) != KeyOf(merged[n])
    {
      assert KeyOf(t[i]) == KeyOf(merged[i]);
    }
    SlotIs(t, KeyOf(merged[n]), n);
  }

  lemma {:induction false} MergedSoFar(table: seq<Func>, merged: seq<Func>, n: nat)
    requires Distinct(merged) && Extends(table, merged) && n <= |merged|
    ensures PutAll(table, merged, n) == Overlaid(table, merged, n)
  {
    if n > 0 {
      MergedSoFar(table, merged, n - 1);
      OverlayOne(table, merged, n - 1);
    }
  }

  /** Every class of a hierarchy under its number, with its ancestors. */
  ghost predicate Hierarchy(classes: map<ClassId, Class>) {
    forall id | id in classes :: classes[id].id == id && ParentListed(classes, classes[id])
  }

  predicate ParentListed(classes: map<ClassId, Class>, c: Class) {
    c.parent.Some? ==> c.parent.value.id in classes && classes[c.parent.value.id] == c.parent.value
  }

  predicate Covers(vtables: map<ClassId, seq<Func>>, classes: map<ClassId, Class>) {
    forall id | id in classes :: id in vtables
  }

  lemma DeclaredStep(vtables: map<ClassId, seq<Func>>, c: Class)
    ensures Declared(vtables, c) <==> c.id in vtables && (c.parent.Some? ==> Declared(vtables, c.parent.value))
  {
    var ids, above := Chain(c), ParentChain(c.parent);
    assert ids == above + [c.id] && ids[|above|] == c.id;
    assert forall i :: 0 <= i < |above| ==> ids[i] == above[i];
    if Declared(vtables, c) && c.parent.Some? {
      assert forall i :: 0 <= i < |above| ==> ids[i] in vtables;
    }
  }

  lemma {:induction false} ChainDeclared(vtables: map<ClassId, seq<Func>>, classes: map<ClassId, Class>, c: Class)
    requires Hierarchy(classes) && Covers(vtables, classes) && c.id in classes && classes[c.id] == c
    ensures Declared(vtables, c)
    decreases c
  {
    DeclaredStep(vtables, c);
    if c.parent.Some? {
      ChainDeclared(vtables, classes, c.parent.value);
    }
  }

  /** The table of a class made from the lists of its chain. */
  function TableOf(vtables: map<ClassId, seq<Func>>, c: Class): seq<Func>
    requires Declared(vtables, c)
  {
    MergeChain(Lists(vtables, Chain(c)))
  }

  lemma TableStep(vtables: map<ClassId, seq<Func>>, c: Class)
    requires Declared(vtables, c)
    ensures c.id in vtables && (c.parent.Some? ==> Declared(vtables, c.parent.value))
    ensures TableOf(vtables, c) == Merge(if c.parent.Some? then TableOf(vtables, c.parent.value) else [], vtables[c.id])
  {
    DeclaredStep(vtables, c);
    var lists, above := Lists(vtables, Chain(c)), ParentChain(c.parent);
    assert Chain(c) == above + [c.id] && Chain(c)[|above|] == c.id;
    assert lists[|above|] == vtables[c.id];
    assert forall i :: 0 <= i < |above| ==> above[i] == Chain(c)[i];
    assert lists[..|lists| - 1] == Lists(vtables, above);
    assert c.parent.None? ==> MergeChain(Lists(vtables, above)) == [];
    assert MergeChain(lists) == Merge(MergeChain(lists[..|lists| - 1]), lists[|lists| - 1]);
  }

  /** Every class still has its own list or has its merged table. */
  ghost predicate Settled(vtables: map<ClassId, seq<Func>>, raw: map<ClassId, seq<Func>>,
      classes: map<ClassId, Class>) {
    Covers(vtables, classes) && forall id | id in classes :: SettledAt(vtables, raw, classes[id])
  }

  ghost predicate SettledAt(vtables: map<ClassId, seq<Func>>, raw: map<ClassId, seq<Func>>, c: Class) {
    c.id in vtables && c.id in raw && Declared(raw, c)
      && (vtables[c.id] == raw[c.id] || vtables[c.id] == TableOf(raw, c))
  }

  /** Whichever ancestors have been merged already, a pass gives a class the same table. */
  lemma {:induction false} SameTable(vtables: map<ClassId, seq<Func>>, raw: map<ClassId, seq<Func>>,
      classes: map<ClassId, Class>, c: Class)
    requires Hierarchy(classes) && Covers(raw, classes) && Settled(vtables, raw, classes)
    requires c.id in classes && classes[c.id] == c
    ensures Declared(vtables, c) && Declared(raw, c) && TableOf(vtables, c) == TableOf(raw, c)
    decreases c
  {
    ChainDeclared(vtables, classes, c);
    ChainDeclared(raw, classes, c);
    TableStep(vtables, c);
    TableStep(raw, c);
    assert SettledAt(vtables, raw, classes[c.id]);
    var above: seq<Func> := [];
    if c.parent.Some? {
      assert ParentListed(classes, classes[c.id]);
      SameTable(vtables, raw, classes, c.parent.value);
      above := TableOf(raw, c.parent.value);
      ChainTable(Lists(raw, Chain(c.parent.value)));
    }
    PutAllShape(above, raw[c.id], |raw[c.id]|);
    MergedAgain(above, TableOf(raw, c));
  }

  /** The tables after a sequence of passes. */
  function FixAll(vtables: map<ClassId, seq<Func>>, order: seq<Class>): map<ClassId, seq<Func>> {
    if order == [] then vtables
    else
      var before := FixAll(vtables, order[..|order| - 1]);
      var c := order[|order| - 1];
      if c.hasVtable && Declared(before, c) then before[c.id := TableOf(before, c)] else before
  }

  /** Whether a class has been through a pass. */
  predicate Passed(order: seq<Class>, c: Class) {
    c.hasVtable && c in order
  }

  ghost predicate Final(vtables: map<ClassId, seq<Func>>, raw: map<ClassId, seq<Func>>, order: seq<Class>, c: Class) {
    c.id in vtables && c.id in raw && Declared(raw, c)
    && vtables[c.id] == if Passed(order, c) then TableOf(raw, c) else raw[c.id]
  }

  lemma FinalSettles(vtables: map<ClassId, seq<Func>>, raw: map<ClassId, seq<Func>>, classes: map<ClassId, Class>,
      order: seq<Class>)
    requires Hierarchy(classes) && forall id | id in classes :: Final(vtables, raw, order, classes[id])
    ensures Settled(vtables, raw, classes)
  {
    forall id | id in classes
      ensures id in vtables && SettledAt(vtables, raw, classes[id])
    {
      assert Final(vtables, raw, order, classes[id]);
    }
  }

  lemma FinalStep(raw: map<ClassId, seq<Func>>, classes: map<ClassId, Class>, order: seq<Class>, c: Class, d: Class)
    requires order != [] && order[|order| - 1] == c && d.id in classes && classes[d.id] == d
    requires c.id in classes && classes[c.id] == c
    requires Final(FixAll(raw, order[..|order| - 1]), raw, order[..|order| - 1], d)
    requires Declared(FixAll(raw, order[..|order| - 1]), c) && Declared(raw, c)
    requires TableOf(FixAll(raw, order[..|order| - 1]), c) == TableOf(raw, c)
    ensures Final(FixAll(raw, order), raw, order, d)
  {
    var front := order[..|order| - 1];
    assert order == front + [c];
    assert d in order <==> d in front || d == c;
  }

  /**
   Passes over classes of a hierarchy in any order and any number: a class that had a pass has the table
   merged from the original lists, every other class keeps its list.
   */
  lemma {:induction false} AnyOrder(raw: map<ClassId, seq<Func>>, classes: map<ClassId, Class>, order: seq<Class>)
    requires Hierarchy(classes) && Covers(raw, classes)
    requires forall c | c in order :: c.id in classes && classes[c.id] == c
    ensures forall id | id in classes :: Final(FixAll(raw, order), raw, order, classes[id])
    decreases |order|
  {
    if order == [] {
      forall id | id in classes
        ensures Final(raw, raw, [], classes[id])
      {
        ChainDeclared(raw, classes, classes[id]);
      }
    } else {
      var front, c := order[..|order| - 1], order[|order| - 1];
      var before := FixAll(raw, front);
      AnyOrder(raw, classes, front);
      FinalSettles(before, raw, classes, front);
      assert c in order;
      SameTable(before, raw, classes, c);
      forall id | id in classes
        ensures Final(FixAll(raw, order), raw, order, classes[id])
      {
        FinalStep(raw, classes, order, c, classes[id]);
      }
    }
  }
}
