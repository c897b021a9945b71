/**
 The scope stack of the transformer, and running a callback under a saved state.
 */
module Scopes {
  import opened Wrappers

  type Item = int
  type Scope = map<string, Item>

  /** The stack has the innermost scope in front and the global scope at the back. */
  datatype Context = Context(stack: seq<Scope>, mod: nat, uuids: seq<string>, currentClass: Option<nat>)

  /** A saved state has the scopes without the global one. */
  datatype Saved = Saved(scopes: seq<Scope>, mod: nat, uuids: seq<string>, currentClass: Option<nat>)

  /** What a callback does to the context. */
  datatype Action =
    | AddItem(name: string, item: Item)
    | AddScope
    | DelScope
    | SetModule(mod: nat)
    | SetUuids(uuids: seq<string>)
    | SetClass(currentClass: Option<nat>)
    | WithState(saved: Saved, body: seq<Action>)

  function Global(stack: seq<Scope>): Scope
    requires stack != []
  {
    stack[|stack| - 1]
  }

  function Locals(stack: seq<Scope>): seq<Scope>
    requires stack != []
  {
    stack[..|stack| - 1]
  }

  function Save(c: Context): Saved
    requires c.stack != []
  {
    Saved(Locals(c.stack), c.mod, c.uuids, c.currentClass)
  }

  function Restore(c: Context, saved: Saved): Context
    requires c.stack != []
  {
    Context(saved.scopes + [Global(c.stack)], saved.mod, saved.uuids, saved.currentClass)
  }

  /** None where the source raises an error, or drops the last scope. */
  function Exec(a: Action, c: Context): (r: Option<Context>)
    requires c.stack != []
    ensures r.Some? ==> r.value.stack != []
    decreases a
  {
    match a
    case AddItem(name, item) =>
      if name in c.stack[0] then None else Some(c.(stack := c.stack[0 := c.stack[0][name := item]]))
    case AddScope => Some(c.(stack := [map[]] + c.stack))
    case DelScope => if |c.stack| == 1 then None else Some(c.(stack := c.stack[1..]))
    case SetModule(mod) => Some(c.(mod := mod))
    case SetUuids(uuids) => Some(c.(uuids := uuids))
    case SetClass(currentClass) => Some(c.(currentClass := currentClass))
    case WithState(saved, body) =>
      match ExecAll(body, Restore(c, saved))
      case None => None
      case Some(after) => Some(Restore(after, Save(c)))
  }

  function ExecAll(actions: seq<Action>, c: Context): (r: Option<Context>)
    requires c.stack != []
    ensures r.Some? ==> r.value.stack != []
    decreases actions
  {
    if actions == [] then Some(c)
    else
      match Exec(actions[0], c)
      case None => None
      case Some(c') => ExecAll(actions[1..], c')
  }

  /** Item in the innermost scope that has the name. */
  function Lookup(stack: seq<Scope>, name: string): Option<Item> {
    if stack == [] then None
    else if name in stack[0] then Some(stack[0][name])
    else Lookup(stack[1..], name)
  }

  // The context as an object

  class TransformContext {
    var stack: seq<Scope>
    var mod: nat
    var uuidStack: seq<string>
    var currentClass: Option<nat>

    constructor (mod: nat)
      ensures StateOf() == Context([map[]], mod, [], None)
    {
      this.stack := [map[]];
      this.mod := mod;
      this.uuidStack := [];
      this.currentClass := None;
    }

    ghost function StateOf(): Context
      reads this
    {
      Context(stack, mod, uuidStack, currentClass)
    }

    method GetItem(name: string) returns (item: Option<Item>)
      ensures item == Lookup(stack, name)
    {
      var i := 0;
      assert stack[0..] == stack;
      while i < |stack|
        invariant i <= |stack| && Lookup(stack, name) == Lookup(stack[i..], name)
      {
        if name in stack[i] {
          return Some(stack[i][name]);
        }
        assert stack[i..][1..] == stack[i + 1..];
        i := i + 1;
      }
      return None;
    }

    method SaveState() returns (s: Saved)
      requires stack != []
      ensures s == Save(StateOf())
    {
      s := Saved(stack[..|stack| - 1], mod, uuidStack, currentClass);
    }

    method SetState(s: Saved)
      requires stack != []
      modifies this
      ensures StateOf() == Restore(old(StateOf()), s)
    {
      var glob := stack[|stack| - 1];
      var st := s.scopes;
      st := st + [glob];
      stack := st;
      mod := s.mod;
      uuidStack := s.uuids;
      currentClass := s.currentClass;
    }

    method RunWithState(s: Saved, cb: seq<Action>) returns (ok: bool)
      requires stack != []
      modifies this
      ensures match Exec(WithState(s, cb), old(StateOf()))
              case None => !ok
              case Some(c) => ok && StateOf() == c
      decreases WithState(s, cb), 0
    {
      var saved := SaveState();
      SetState(s);
      ok := PerformAll(cb);
      if ok {
        SetState(saved);
      }
    }

    method Perform(a: Action) returns (ok: bool)
      requires stack != []
      modifies this
      ensures match Exec(a, old(StateOf()))
              case None => !ok
              case Some(c) => ok && StateOf() == c
      decreases a, 1
    {
      match a
      case AddItem(name, item) =>
        if name in stack[0] {
          return false;
        }
        stack := stack[0 := stack[0][name := item]];
        return true;
      case AddScope =>
        stack := [map[]] + stack;
        return true;
      case DelScope =>
        if |stack| == 1 {
          return false;
        }
        stack := stack[1..];
        return true;
      case SetModule(m) =>
        mod := m;
        return true;
      case SetUuids(uuids) =>
        uuidStack := uuids;
        return true;
      case SetClass(c) =>
        currentClass := c;
        return true;
      case WithState(saved, body) =>
        ok := RunWithState(saved, body);
    }

    method PerformAll(actions: seq<Action>) returns (ok: bool)
      requires stack != []
      modifies this
      ensures match ExecAll(actions, old(StateOf()))
              case None => !ok
              case Some(c) => ok && StateOf() == c
      decreases actions, 2
    {
      if actions == [] {
        return true;
      }
      ok := Perform(actions[0]);
      if ok {
        ok := PerformAll(actions[1..]);
      }
    }
  }

  // Balanced callbacks

  /** Scopes opened and not closed after the actions, `open` having been open; None if one is closed that
      was not opened. */
  function Depth(actions: seq<Action>, open: nat): Option<nat>
    decreases actions
  {
    if actions == [] then Some(open)
    else
      match actions[0]
      case AddScope => Depth(actions[1..], open + 1)
      case DelScope => if open == 0 then None else Depth(actions[1..], open - 1)
      case _ => Depth(actions[1..], open)
  }

  predicate ScopeExtends(s: Scope, t: Scope) {
    forall name | name in s :: name in t && t[name] == s[name]
  }

  /** Only the innermost and the global scope may have got more items. */
  predicate Kept(base: seq<Scope>, after: seq<Scope>) {
    && |base| == |after|
    && forall i | 0 <= i < |base| :: KeptAt(base, after, i)
  }

  predicate KeptAt(base: seq<Scope>, after: seq<Scope>, i: nat)
    requires i < |base| == |after|
  {
    if i == 0 || i == |base| - 1 then ScopeExtends(base[i], after[i]) else after[i] == base[i]
  }

  lemma KeptThen(a: seq<Scope>, b: seq<Scope>, c: seq<Scope>)
    requires Kept(a, b) && Kept(b, c)
    ensures Kept(a, c)
  {
    forall i | 0 <= i < |a|
      ensures KeptAt(a, c, i)
    {
      assert KeptAt(a, b, i) && KeptAt(b, c, i);
    }
  }

  /** One action, under `open` new scopes: the scopes below them are kept. */
  lemma {:induction false} ActionKeeps(a: Action, c: Context, open: nat)
    requires c.stack != [] && open < |c.stack| && Exec(a, c).Some? && Depth([a], open).Some?
    ensures var c', open' := Exec(a, c).value, Depth([a], open).value;
      open' < |c'.stack| && Kept(c.stack[open..], c'.stack[open'..])
    decreases a
  {
    assert [a][1..] == [];
    var c', open' := Exec(a, c).value, Depth([a], open).value;
    match a
    case AddScope => assert c'.stack[open'..] == c.stack[open..];
    case DelScope => assert c'.stack[open'..] == c.stack[open..];
    case AddItem(name, item) =>
      forall i | 0 <= i < |c.stack[open..]|
        ensures KeptAt(c.stack[open..], c'.stack[open'..], i)
      {
      }
    case WithState(saved, body) =>
      WithStateRestores(saved, body, c);
      LastKept(c.stack, c'.stack, open);
    case _ =>
      assert c'.stack[open'..] == c.stack[open..];
  }

  /** A callback that closes no scope it has not opened changes, of the scopes it found, at most the
      innermost and the global one, and these only by adding items. */
  lemma {:induction false} BodyKeeps(actions: seq<Action>, c: Context, open: nat)
    requires c.stack != [] && open < |c.stack| && ExecAll(actions, c).Some? && Depth(actions, open).Some?
    ensures var c', open' := ExecAll(actions, c).value, Depth(actions, open).value;
      open' < |c'.stack| && Kept(c.stack[open..], c'.stack[open'..])
    decreases actions
  {
    if actions != [] {
      FirstDepth(actions, open);
      ActionKeeps(actions[0], c, open);
      var c1, open1 := Exec(actions[0], c).value, Depth([actions[0]], open).value;
      BodyKeeps(actions[1..], c1, open1);
      KeptThen(c.stack[open..], c1.stack[open1..], ExecAll(actions, c).value.stack[Depth(actions, open).value..]);
    }
  }

  lemma FirstDepth(actions: seq<Action>, open: nat)
    requires actions != [] && Depth(actions, open).Some?
    ensures Depth([actions[0]], open).Some?
    ensures Depth(actions, open) == Depth(actions[1..], Depth([actions[0]], open).value)
  {
    assert [actions[0]][1..] == [];
  }

  lemma LastKept(stack: seq<Scope>, after: seq<Scope>, open: nat)
    requires stack != [] && |after| == |stack| && open < |stack| && Locals(after) == Locals(stack)
    requires ScopeExtends(Global(stack), Global(after))
    ensures Kept(stack[open..], after[open..])
  {
    forall i | 0 <= i < |stack| - open
      ensures KeptAt(stack[open..], after[open..], i)
    {
      if open + i < |stack| - 1 {
        assert Locals(after)[open + i] == Locals(stack)[open + i];
      }
    }
  }

  // `withState`

  /** Whatever is done, the global scope stays at the back and only gets more items. */
  lemma {:induction false} GlobalGrows(actions: seq<Action>, c: Context)
    requires c.stack != [] && ExecAll(actions, c).Some?
    ensures ScopeExtends(Global(c.stack), Global(ExecAll(actions, c).value.stack))
    decreases actions
  {
    if actions != [] {
      if actions[0].WithState? {
        GlobalGrows(actions[0].body, Restore(c, actions[0].saved));
      }
      GlobalGrows(actions[1..], Exec(actions[0], c).value);
    }
  }

  /**
   Running a callback under a saved state gives back the local scopes, the module, the uuid stack and the
   class exactly, even if the callback leaves scopes open or runs further callbacks, and keeps what it
   added to the global scope: that scope is the one the callback left, and extends the one it found.
   */
  lemma WithStateRestores(saved: Saved, body: seq<Action>, c: Context)
    requires c.stack != [] && Exec(WithState(saved, body), c).Some?
    ensures var c' := Exec(WithState(saved, body), c).value;
      && Locals(c'.stack) == Locals(c.stack) && c'.mod == c.mod && c'.uuids == c.uuids
      && c'.currentClass == c.currentClass
      && Global(c'.stack) == Global(ExecAll(body, Restore(c, saved)).value.stack)
      && ScopeExtends(Global(c.stack), Global(c'.stack))
  {
    GlobalGrows(body, Restore(c, saved));
  }

  /** Names found before are found as before. */
  lemma LookupsKept(saved: Saved, body: seq<Action>, c: Context, name: string)
    requires c.stack != [] && Exec(WithState(saved, body), c).Some?
    ensures var c' := Exec(WithState(saved, body), c).value;
      Lookup(c.stack, name).Some? ==> Lookup(c'.stack, name) == Lookup(c.stack, name)
  {
    WithStateRestores(saved, body, c);
    var c' := Exec(WithState(saved, body), c).value;
    assert c.stack == Locals(c.stack) + [Global(c.stack)] && c'.stack == Locals(c.stack) + [Global(c'.stack)];
    LookupBehind(Locals(c.stack), Global(c.stack), name);
    LookupBehind(Locals(c.stack), Global(c'.stack), name);
  }

  lemma {:induction false} LookupBehind(locals: seq<Scope>, global: Scope, name: string)
    ensures Lookup(locals + [global], name) ==
      if Lookup(locals, name).Some? then Lookup(locals, name)
      else if name in global then Some(global[name]) else None
    decreases |locals|
  {
    if locals == [] {
      assert [global][1..] == [];
      assert locals + [global] == [global];
    } else {
      assert (locals + [global])[1..] == locals[1..] + [global];
      LookupBehind(locals[1..], global, name);
    }
  }

  /** The innermost scope with the name decides. */
  lemma {:induction false} LookupIsInnermost(stack: seq<Scope>, name: string, i: nat)
    requires i < |stack| && name in stack[i] && forall j :: 0 <= j < i ==> name !in stack[j]
    ensures Lookup(stack, name) == Some(stack[i][name])
    decreases i
  {
    if i > 0 {
      LookupIsInnermost(stack[1..], name, i - 1);
    }
  }

  // Single actions

  /** An item is added to the innermost scope if its name is not there yet; it is then found under its name,
      and everything else as before. */
  lemma AddedIsFound(c: Context, name: string, item: Item, other: string)
    requires c.stack != []
    ensures Exec(AddItem(name, item), c).Some? <==> name !in c.stack[0]
    ensures var r := Exec(AddItem(name, item), c); r.Some? ==>
      && Lookup(r.value.stack, name) == Some(item)
      && (other != name ==> Lookup(r.value.stack, other) == Lookup(c.stack, other))
      && r.value.stack[1..] == c.stack[1..]
      && r.value.mod == c.mod && r.value.uuids == c.uuids && r.value.currentClass == c.currentClass
  {
    var r := Exec(AddItem(name, item), c);
    if r.Some? {
      assert r.value.stack[1..] == c.stack[1..];
    }
  }

  /** A new scope hides nothing, and dropping it, with all that was added to it, gives the context back. */
  lemma ScopeComesAndGoes(c: Context, name: string, item: Item, other: string)
    requires c.stack != []
    ensures Exec(AddScope, c).Some? && Lookup(Exec(AddScope, c).value.stack, other) == Lookup(c.stack, other)
    ensures ExecAll([AddScope, AddItem(name, item), DelScope], c) == Some(c)
    ensures Exec(DelScope, c).Some? <==> |c.stack| > 1
  {
    var c1 := Exec(AddScope, c).value;
    assert c1.stack[1..] == c.stack;
    AddedIsFound(c1, name, item, other);
    var c2 := Exec(AddItem(name, item), c1).value;
    assert c2.stack[1..] == c.stack;
    var actions := [AddScope, AddItem(name, item), DelScope];
    assert actions[1..][1..][1..] == [];
    assert ExecAll(actions[1..][1..], c2) == Some(c);
    assert ExecAll(actions[1..], c1) == Some(c);
  }

  /** Module, uuid stack and class are replaced one by one. */
  lemma SettersSet(c: Context, mod: nat, uuids: seq<string>, currentClass: Option<nat>)
    requires c.stack != []
    ensures ExecAll([SetModule(mod)], c) == Some(Context(c.stack, mod, c.uuids, c.currentClass))
    ensures ExecAll([SetUuids(uuids)], c) == Some(Context(c.stack, c.mod, uuids, c.currentClass))
    ensures ExecAll([SetClass(currentClass)], c) == Some(Context(c.stack, c.mod, c.uuids, currentClass))
  {
    assert forall a: Action :: [a][1..] == [];
  }
}
