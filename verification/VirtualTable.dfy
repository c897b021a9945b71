/**
 Virtual tables: `fixTypes` merges the tables of a class chain in place and numbers the functions.
 */
module VirtualTable {
  import opened Wrappers

  type ClassId = nat
  type FuncId = nat

  /** Types up to `is`. */
  type TypeId = nat

  /** A virtual method; `args` are the arguments behind self. */
  datatype Func = Func(id: FuncId, name: string, self: TypeId, args: seq<TypeId>, ret: TypeId, variadic: bool,
                       parent: ClassId, declaration: bool)

  /** A class and, inside it, its parent. */
  datatype Class = Class(id: ClassId, parent: Option<Class>, hasVtable: bool)

  /** `FunctionType::isIgnoringSelf` together with the comparison of names. */
  predicate SameSlot(f: Func, g: Func) {
    && f.name == g.name
    && |f.args| == |g.args|
    && f.ret == g.ret
    && (forall i :: 0 <= i < |f.args| ==> f.args[i] == g.args[i])
    && f.variadic == g.variadic
  }

  /** What decides about the slot of a function. */
  datatype Key = Key(name: string, args: seq<TypeId>, ret: TypeId, variadic: bool)

  function KeyOf(f: Func): Key {
    Key(f.name, f.args, f.ret, f.variadic)
  }

  lemma SameSlotIffSameKey(f: Func, g: Func)
    ensures SameSlot(f, g) <==> KeyOf(f) == KeyOf(g)
    ensures SameSlot(f, g) <==> f.name == g.name && f.args == g.args && f.ret == g.ret && f.variadic == g.variadic
  {
  }

  // Tables

  /** First slot with the key, the length of the table if there is none. */
  function Slot(table: seq<Func>, key: Key): (k: nat)
    ensures k <= |table|
    ensures k < |table| ==> KeyOf(table[k]) == key
    ensures forall i :: 0 <= i < k ==> KeyOf(table[i]) != key
  {
    if table == [] then 0
    else if KeyOf(table[0]) == key then 0
    else 1 + Slot(table[1..], key)
  }

  function Put(table: seq<Func>, fn: Func): seq<Func> {
    var k := Slot(table, KeyOf(fn));
    if k == |table| then table + [fn] else table[k := fn]
  }

  /** The first `n` functions of a list put into a table one after the other. */
  function PutAll(table: seq<Func>, list: seq<Func>, n: nat): seq<Func>
    requires n <= |list|
  {
    if n == 0 then table else Put(PutAll(table, list, n - 1), list[n - 1])
  }

  function Merge(table: seq<Func>, list: seq<Func>): seq<Func> {
    PutAll(table, list, |list|)
  }

  /** The tables of a chain, from the root on. */
  function MergeChain(lists: seq<seq<Func>>): seq<Func> {
    if lists == [] then [] else Merge(MergeChain(lists[..|lists| - 1]), lists[|lists| - 1])
  }

  // The pass over a chain

  /** State of the pass: the table so far, the numbers given, who is marked `override`, who was reported,
      and the number a new function would get. */
  datatype Pass = Pass(table: seq<Func>, index: map<FuncId, int>, overrides: set<FuncId>, errors: seq<FuncId>,
                       counter: nat)

  /** The slot of the function overridden, or the running number for a new function. */
  function NumberGiven(s: Pass, fn: Func): nat {
    var k := Slot(s.table, KeyOf(fn));
    if k == |s.table| then s.counter else k
  }

  predicate MissesOverride(s: Pass, fn: Func, current: ClassId) {
    Slot(s.table, KeyOf(fn)) < |s.table| && fn.id !in s.overrides && fn.parent == current
  }

  function Visit(s: Pass, fn: Func, current: ClassId): Pass {
    var number := NumberGiven(s, fn);
    var missing := MissesOverride(s, fn, current);
    Pass(Put(s.table, fn), s.index[fn.id := number], if missing then s.overrides + {fn.id} else s.overrides,
         if missing then s.errors + [fn.id] else s.errors, number + 1)
  }

  /** The first `n` functions of the list of one class; the counter starts again for every class. */
  function VisitList(s: Pass, list: seq<Func>, n: nat, current: ClassId): Pass
    requires n <= |list|
  {
    if n == 0 then s.(counter := 0) else Visit(VisitList(s, list, n - 1, current), list[n - 1], current)
  }

  function VisitChain(s: Pass, lists: seq<seq<Func>>, n: nat, current: ClassId): Pass
    requires n <= |lists|
  {
    if n == 0 then s
    else VisitList(VisitChain(s, lists, n - 1, current), lists[n - 1], |lists[n - 1]|, current)
  }

  lemma {:induction false} VisitListTable(s: Pass, list: seq<Func>, n: nat, current: ClassId)
    requires n <= |list|
    ensures VisitList(s, list, n, current).table == PutAll(s.table, list, n)
  {
    if n > 0 {
      VisitListTable(s, list, n - 1, current);
    }
  }

  lemma {:induction false} VisitChainTable(s: Pass, lists: seq<seq<Func>>, n: nat, current: ClassId)
    requires n <= |lists| && s.table == []
    ensures VisitChain(s, lists, n, current).table == MergeChain(lists[..n])
  {
    if n > 0 {
      VisitChainTable(s, lists, n - 1, current);
      VisitListTable(VisitChain(s, lists, n - 1, current), lists[n - 1], |lists[n - 1]|, current);
      assert lists[..n][..n - 1] == lists[..n - 1];
    }
  }

  // Chains of classes

  /** The classes above and at `c`, from the root. */
  function Chain(c: Class): (ids: seq<ClassId>)
    ensures ids != [] && ids[|ids| - 1] == c.id
  {
    ParentChain(c.parent) + [c.id]
  }

  function ParentChain(parent: Option<Class>): seq<ClassId> {
    if parent.Some? then Chain(parent.value) else []
  }

  lemma ParentOnTop(p: Class, rest: seq<ClassId>)
    ensures Chain(p) + rest == ParentChain(p.parent) + ([p.id] + rest)
  {
  }

  function Lists(vtables: map<ClassId, seq<Func>>, ids: seq<ClassId>): (lists: seq<seq<Func>>)
    requires forall i :: 0 <= i < |ids| ==> ids[i] in vtables
    ensures |lists| == |ids| && forall i :: 0 <= i < |ids| ==> lists[i] == vtables[ids[i]]
  {
    seq(|ids|, i requires 0 <= i < |ids| => vtables[ids[i]])
  }

  predicate Declared(vtables: map<ClassId, seq<Func>>, c: Class) {
    forall i :: 0 <= i < |Chain(c)| ==> Chain(c)[i] in vtables
  }

  // The passes over all classes

  /** The tables of all classes, and what the passes share: the numbers, the marks and the reports. */
  datatype Program = Program(vtables: map<ClassId, seq<Func>>, index: map<FuncId, int>, overrides: set<FuncId>,
                             errors: seq<FuncId>)

  /** The pass for one class. */
  function Fix(p: Program, c: Class): Program {
    if !c.hasVtable || !Declared(p.vtables, c) then p
    else
      var lists := Lists(p.vtables, Chain(c));
      var end := VisitChain(Pass([], p.index, p.overrides, p.errors, 0), lists, |lists|, c.id);
      Program(p.vtables[c.id := MergeChain(lists)], end.index, end.overrides, end.errors)
  }

  function FixProgram(p: Program, order: seq<Class>): Program {
    if order == [] then p else Fix(FixProgram(p, order[..|order| - 1]), order[|order| - 1])
  }

  class TypeChecker {
    var vtables: map<ClassId, seq<Func>>
    var virtualIndex: map<FuncId, int>
    var overrides: set<FuncId>
    var errors: seq<FuncId>

    constructor (vtables: map<ClassId, seq<Func>>, overrides: set<FuncId>)
      ensures this.vtables == vtables && this.overrides == overrides && virtualIndex == map[] && errors == []
    {
      this.vtables := vtables;
      this.overrides := overrides;
      virtualIndex := map[];
      errors := [];
    }

    /** The parents above a class put in front one by one, then the class. */
    method Parents(c: Class) returns (parents: seq<ClassId>)
      ensures parents == Chain(c)
    {
      parents := [];
      var tyParent := c.parent;
      while tyParent.Some?
        invariant Chain(c) == ParentChain(tyParent) + parents + [c.id]
        decreases tyParent
      {
        ParentOnTop(tyParent.value, parents);
        parents := [tyParent.value.id] + parents;
        tyParent := tyParent.value.parent;
      }
      parents := parents + [c.id];
    }

    /** `std::find_if` over the table. */
    method Find(table: seq<Func>, fn: Func) returns (k: nat)
      ensures k == Slot(table, KeyOf(fn))
    {
      k := 0;
      while k < |table| && !SameSlot(table[k], fn)
        invariant k <= |table|
        invariant forall i :: 0 <= i < k ==> KeyOf(table[i]) != KeyOf(fn)
      {
        SameSlotIffSameKey(table[k], fn);
        k := k + 1;
      }
      if k < |table| {
        SameSlotIffSameKey(table[k], fn);
      }
      SlotIs(table, KeyOf(fn), k);
    }

    /** One function against the table: appended with the running number, or put over the function it overrides. */
    method AddFunction(finalVtable: seq<Func>, fn: Func, vtableIndex: nat, current: ClassId)
      returns (table: seq<Func>, next: nat)
      modifies this`virtualIndex, this`overrides, this`errors
      ensures Pass(table, virtualIndex, overrides, errors, next)
           == Visit(Pass(finalVtable, old(virtualIndex), old(overrides), old(errors), vtableIndex), fn, current)
    {
      var it := Find(finalVtable, fn);
      if it == |finalVtable| {
        virtualIndex := virtualIndex[fn.id := vtableIndex];
        return finalVtable + [fn], vtableIndex + 1;
      }
      if fn.id !in overrides && fn.parent == current {
        errors := errors + [fn.id];
        overrides := overrides + {fn.id};
      }
      virtualIndex := virtualIndex[fn.id := it];
      return finalVtable[it := fn], it + 1;
    }

    /** The table of one class of the chain. */
    method AddTable(finalVtable: seq<Func>, parentVtable: seq<Func>, current: ClassId, ghost counter: nat)
      returns (table: seq<Func>, vtableIndex: nat)
      modifies this`virtualIndex, this`overrides, this`errors
      ensures Pass(table, virtualIndex, overrides, errors, vtableIndex)
           == VisitList(Pass(finalVtable, old(virtualIndex), old(overrides), old(errors), counter), parentVtable,
                        |parentVtable|, current)
    {
      table := finalVtable;
      vtableIndex := 0;
      ghost var before := Pass(finalVtable, virtualIndex, overrides, errors, counter);
      for j := 0 to |parentVtable|
        invariant VisitList(before, parentVtable, j, current)
          == Pass(table, virtualIndex, overrides, errors, vtableIndex)
      {
        table, vtableIndex := AddFunction(table, parentVtable[j], vtableIndex, current);
      }
    }

    /** The pass that `fixTypes` makes for one class. */
    method FixTypes(c: Class)
      requires Declared(vtables, c)
      modifies this
      ensures !c.hasVtable ==> vtables == old(vtables) && virtualIndex == old(virtualIndex)
                               && overrides == old(overrides) && errors == old(errors)
      ensures c.hasVtable ==> vtables == old(vtables)[c.id := MergeChain(Lists(old(vtables), Chain(c)))]
      ensures c.hasVtable ==>
        var start := Pass([], old(virtualIndex), old(overrides), old(errors), 0);
        var end := VisitChain(start, Lists(old(vtables), Chain(c)), |Chain(c)|, c.id);
        virtualIndex == end.index && overrides == end.overrides && errors == end.errors
    {
      if !c.hasVtable {
        return;
      }
      var parents := Parents(c);
      var finalVtable: seq<Func> := [];
      ghost var lists := Lists(vtables, parents);
      var vtableIndex := 0;
      ghost var start := Pass([], virtualIndex, overrides, errors, 0);
      for i := 0 to |parents|
        invariant vtables == old(vtables)
        invariant Pass(finalVtable, virtualIndex, overrides, errors, vtableIndex) == VisitChain(start, lists, i, c.id)
      {
        finalVtable, vtableIndex := AddTable(finalVtable, vtables[parents[i]], c.id, vtableIndex);
      }
      VisitChainTable(start, lists, |lists|, c.id);
      assert lists[..|lists|] == lists;
      vtables := vtables[c.id := finalVtable];
    }

    function State(): Program
      reads this
    {
      Program(vtables, virtualIndex, overrides, errors)
    }

    /** The first loop of `codegen`: a pass for every class, over the same function objects. */
    method FixAllTypes(types: seq<Class>)
      requires forall c | c in types :: Declared(vtables, c)
      modifies this
      ensures State() == FixProgram(old(State()), types)
    {
      for i := 0 to |types|
        invariant forall c | c in types :: Declared(vtables, c)
        invariant State() == FixProgram(old(State()), types[..i])
      {
        FixTypes(types[i]);
        assert types[..i + 1][..i] == types[..i];
      }
      assert types[..|types|] == types;
    }
  }

  lemma {:induction false} SlotIs(table: seq<Func>, key: Key, k: nat)
    requires k <= |table| && forall i :: 0 <= i < k ==> KeyOf(table[i]) != key
    requires k < |table| ==> KeyOf(table[k]) == key
    ensures Slot(table, key) == k
  {
  }
}
