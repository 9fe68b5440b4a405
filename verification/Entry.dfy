/** The first moment of an activation. */
module Entry {
  import opened Wrappers
  import opened Ast
  import opened Ir
  import opened Lowering
  import opened Semantics
  import opened DepthExact
  import opened Materialise
  import opened Relation
  import opened Compilation

  ghost predicate ValuesRel(f: map<nat, nat>, vs: seq<Val>, ts: seq<Val>) {
    |vs| == |ts| && forall i :: 0 <= i < |vs| ==> vs[i] != Undef && ValRel(f, vs[i], ts[i])
  }

  function EntryCells(P: Program, g: Gen, parameters: nat, base: nat): map<nat, nat>
    requires forall k :: 0 <= k < |g.vars| ==> g.vars[k].variable.Global? && g.vars[k].variable.name in P.globals
  {
    map k | 0 <= k < |g.vars| + parameters :: if k < |g.vars| then P.globals[g.vars[k].variable.name] else base + k - |g.vars|
  }

  // The activation of a function that has just been entered.
  function EntryWorld(P: Program, g: Gen, name: string, ps: seq<Variable>, vs: seq<Val>, ts: seq<Val>, sm: Mem, f: map<nat, nat>, tm: seq<Val>): World
    requires forall k :: 0 <= k < |g.vars| ==> g.vars[k].variable.Global? && g.vars[k].variable.name in P.globals
    requires |ps| == |vs|
  {
    World([ParameterNames(ps, |sm|)] + [P.globals], sm + ParameterCells(ps, vs), EntryCells(P, g, |ps|, |sm|), f,
          Frame(name, 0, 0, ts, map[]), tm, |sm|)
  }

  // Cell and slot of parameter i.
  lemma {:induction false} EntryParameter(ps: seq<Variable>, slots: seq<Slot>, sm: Mem, vs: seq<Val>, i: nat)
    requires ParameterSlots(ps) == Some(slots) && |ps| == |vs| && i < |ps|
    ensures (sm + ParameterCells(ps, vs))[|sm| + i] == Cell(ps[i].typ.pointerDepth, vs[i])
    ensures slots[i].depth == ps[i].typ.pointerDepth && !slots[i].isAlloca && slots[i].variable.Arg? && slots[i].variable.index == i
    ensures IntTyped(ps[i].typ) ==> slots[i].underlying == I32 && slots[i].variable.typ == TyOf(slots[i].depth)
  {
    assert ParameterSlot(ps[i], i) == Some(slots[i]);
  }

  lemma {:induction false} EntryGlobalSlot(P: Program, m: Module, g: Gen, w: World, k: nat)
    requires k < |g.vars| && g.vars[k].variable.Global? && g.vars[k].variable.name in P.globals
    requires g.vars[k] == Slot(Global(g.vars[k].variable.name), I32, true, 0)
    requires GlobalsRel(P, m, w.f)
    requires k in w.L && w.L[k] == P.globals[g.vars[k].variable.name]
    ensures SlotRel(m, InMemory, g.vars[k], k, w)
  {}

  lemma {:induction false} EntryParameterSlot(m: Module, ps: seq<Variable>, slots: seq<Slot>, sm: Mem, vs: seq<Val>, ts: seq<Val>, w: World, i: nat, k: nat)
    requires ParameterSlots(ps) == Some(slots) && |ps| == |vs| && i < |ps| && IntTyped(ps[i].typ)
    requires ValuesRel(w.f, vs, ts) && MemRel(w.f, sm, w.tm)
    requires w.base == |sm| && w.sm == sm + ParameterCells(ps, vs) && w.fr.args == ts
    requires k in w.L && w.L[k] == |sm| + i
    ensures SlotRel(m, InRegister, slots[i], k, w)
  {
    EntryParameter(ps, slots, sm, vs, i);
  }

  lemma {:induction false} EntryGlobalSlots(P: Program, m: Module, g: Gen, parameters: nat, base: nat, w: World)
    requires GlobalsKnown(P, g) && GlobalsRel(P, m, w.f) && w.L == EntryCells(P, g, parameters, base)
    ensures forall k :: 0 <= k < |g.vars| ==> SlotRel(m, InMemory, g.vars[k], k, w)
  {
    forall k | 0 <= k < |g.vars| ensures SlotRel(m, InMemory, g.vars[k], k, w) {
      EntryGlobalSlot(P, m, g, w, k);
    }
  }

  lemma {:induction false} EntryParameterSlots(m: Module, g: Gen, ps: seq<Variable>, slots: seq<Slot>, sm: Mem, vs: seq<Val>, ts: seq<Val>, w: World)
    requires ParameterSlots(ps) == Some(slots) && |ps| == |vs| && forall p :: p in ps ==> IntTyped(p.typ)
    requires ValuesRel(w.f, vs, ts) && MemRel(w.f, sm, w.tm)
    requires w.base == |sm| && w.sm == sm + ParameterCells(ps, vs) && w.fr.args == ts
    requires forall k :: |g.vars| <= k < |g.vars| + |ps| ==> k in w.L && w.L[k] == |sm| + k - |g.vars|
    ensures var vars := g.vars + slots; forall k :: |g.vars| <= k < |vars| ==> SlotRel(m, InRegister, vars[k], k, w)
  {
    var vars := g.vars + slots;
    forall k | |g.vars| <= k < |vars| ensures SlotRel(m, InRegister, vars[k], k, w) {
      EntryParameterSlot(m, ps, slots, sm, vs, ts, w, k - |g.vars|, k);
    }
  }

  lemma {:induction false} EntrySlots(P: Program, m: Module, g: Gen, ps: seq<Variable>, slots: seq<Slot>, w: World, sm: Mem, vs: seq<Val>, ts: seq<Val>)
    requires GlobalsKnown(P, g) && GlobalsRel(P, m, w.f) && MemRel(w.f, sm, w.tm) && ValuesRel(w.f, vs, ts) && |ps| == |vs|
    requires ParameterSlots(ps) == Some(slots) && forall p :: p in ps ==> IntTyped(p.typ)
    requires w.base == |sm| && w.sm == sm + ParameterCells(ps, vs) && w.L == EntryCells(P, g, |ps|, |sm|) && w.fr.args == ts
    ensures SlotsRel(m, EntryStatuses(|g.vars|, |ps|), StartBody(g, slots), w)
  {
    EntryGlobalSlots(P, m, g, |ps|, |sm|, w);
    EntryParameterSlots(m, g, ps, slots, sm, vs, ts, w);
    EntrySlotsJoin(m, g, ps, slots, w);
  }

  lemma {:induction false} EntrySlotsJoin(m: Module, g: Gen, ps: seq<Variable>, slots: seq<Slot>, w: World)
    requires ScopesIn(g.scopes, |g.vars|) && |slots| == |ps|
    requires forall k :: 0 <= k < |g.vars| ==> SlotRel(m, InMemory, g.vars[k], k, w)
    requires var vars := g.vars + slots; forall k :: |g.vars| <= k < |vars| ==> SlotRel(m, InRegister, vars[k], k, w)
    ensures SlotsRel(m, EntryStatuses(|g.vars|, |ps|), StartBody(g, slots), w)
  {
    var st, vars := EntryStatuses(|g.vars|, |ps|), g.vars + slots;
    forall k | 0 <= k < |st| ensures SlotRel(m, st[k], vars[k], k, w) {
      if k < |g.vars| {
        assert vars[k] == g.vars[k];
      }
    }
  }

  lemma {:induction false} EntryInjective(P: Program, g: Gen, parameters: nat, base: nat)
    requires GlobalsKnown(P, g)
    requires forall n :: n in P.globals ==> P.globals[n] < base
    requires forall a, b :: a in P.globals && b in P.globals && P.globals[a] == P.globals[b] ==> a == b
    ensures Injective(EntryCells(P, g, parameters, base))
  {
    var L := EntryCells(P, g, parameters, base);
    forall j, k | j in L && k in L && L[j] == L[k] ensures j == k {
      if j < |g.vars| && k < |g.vars| {
        assert g.vars[j].variable.name == g.vars[k].variable.name;
      }
    }
  }

  lemma {:induction false} EntryDepth(P: Program, g: Gen, ps: seq<Variable>, slots: seq<Slot>, sm: Mem, vs: seq<Val>, k: nat)
    requires k < |g.vars| ==> g.vars[k].variable.Global? && g.vars[k].variable.name in P.globals && g.vars[k].depth == 0
    requires |ps| == |vs| && ParameterSlots(ps) == Some(slots) && k < |g.vars| + |ps|
    requires forall n :: n in P.globals ==> P.globals[n] < |sm| && sm[P.globals[n]].depth == 0
    ensures var l := if k < |g.vars| then P.globals[g.vars[k].variable.name] else |sm| + k - |g.vars|;
            var sm1 := sm + ParameterCells(ps, vs);
            l < |sm1| && sm1[l].depth == (g.vars + slots)[k].depth
  {
    if k >= |g.vars| {
      EntryParameter(ps, slots, sm, vs, k - |g.vars|);
    }
  }

  lemma {:induction false} EntryDepths(P: Program, g: Gen, ps: seq<Variable>, slots: seq<Slot>, sm: Mem, vs: seq<Val>)
    requires GlobalsKnown(P, g) && |ps| == |vs| && ParameterSlots(ps) == Some(slots)
    requires forall n :: n in P.globals ==> P.globals[n] < |sm| && sm[P.globals[n]].depth == 0
    ensures var L, sm1 := EntryCells(P, g, |ps|, |sm|), sm + ParameterCells(ps, vs);
            forall k :: k in L ==> k < |StartBody(g, slots).vars| && L[k] < |sm1| && sm1[L[k]].depth == StartBody(g, slots).vars[k].depth
  {
    forall k: nat | k < |g.vars| + |ps|
      ensures var L, sm1 := EntryCells(P, g, |ps|, |sm|), sm + ParameterCells(ps, vs);
              L[k] < |sm1| && sm1[L[k]].depth == StartBody(g, slots).vars[k].depth
    {
      EntryDepth(P, g, ps, slots, sm, vs, k);
    }
  }

  lemma {:induction false} EntryNames(P: Program, g: Gen, ps: seq<Variable>, L: map<nat, nat>, base: nat)
    requires GlobalsKnown(P, g) && L == EntryCells(P, g, |ps|, base)
    ensures ScopeRel(ParameterNames(ps, |g.vars|), ParameterNames(ps, base), L)
  {
    ParameterNamesShift(ps, |g.vars|);
    ParameterNamesShift(ps, base);
  }

  lemma {:induction false} EntryGlobals(P: Program, g: Gen, n: nat, base: nat)
    requires GlobalsKnown(P, g)
    ensures |g.scopes| == 1 && ScopeRel(g.scopes[0], P.globals, EntryCells(P, g, n, base))
  {
    forall x | x in g.scopes[0] ensures P.globals[x] == EntryCells(P, g, n, base)[g.scopes[0][x]] {
      assert g.vars[g.scopes[0][x]].variable == Global(x);
    }
  }

  lemma {:induction false} EntryScopes(P: Program, g: Gen, ps: seq<Variable>, w: World, sm: Mem)
    requires GlobalsKnown(P, g)
    requires w.L == EntryCells(P, g, |ps|, |sm|) && w.env == [ParameterNames(ps, |sm|)] + [P.globals]
    ensures EnvRel([ParameterNames(ps, |g.vars|)] + g.scopes, w.env, w.L)
  {
    hide ScopeRel, GlobalsKnown, EntryCells, ParameterNames;
    EntryNames(P, g, ps, w.L, |sm|);
    EntryGlobals(P, g, |ps|, |sm|);
  }

  // On entry every parameter is in a register, and its source cell is out of
  // everybody's reach.
  lemma {:induction false} EntryRel(P: Program, m: Module, g: Gen, name: string, ps: seq<Variable>, vs: seq<Val>, ts: seq<Val>, sm: Mem, f: map<nat, nat>,
                 tm: seq<Val>)
    requires GlobalsKnown(P, g) && GlobalsRel(P, m, f) && MemRel(f, sm, tm) && ValuesRel(f, vs, ts) && |ps| == |vs|
    requires ParameterSlots(ps).Some? && forall p :: p in ps ==> IntTyped(p.typ)
    requires forall n :: n in P.globals ==> P.globals[n] < |sm| && sm[P.globals[n]].depth == 0
    requires forall a, b :: a in P.globals && b in P.globals && P.globals[a] == P.globals[b] ==> a == b
    ensures var g1 := StartBody(g, ParameterSlots(ps).value);
            Rel(P, m, EntryStatuses(|g.vars|, |ps|), g1.(scopes := [ParameterNames(ps, |g.vars|)] + g1.scopes),
                EntryWorld(P, g, name, ps, vs, ts, sm, f, tm))
  {
    var slots := ParameterSlots(ps).value;
    var w := EntryWorld(P, g, name, ps, vs, ts, sm, f, tm);
    var g1 := StartBody(g, slots);
    var g2 := g1.(scopes := [ParameterNames(ps, |g.vars|)] + g1.scopes);
    EntrySlots(P, m, g, ps, slots, w, sm, vs, ts);
    assert SlotsRel(m, EntryStatuses(|g.vars|, |ps|), g2, w);
    EntryInjective(P, g, |ps|, |sm|);
    EntryDepths(P, g, ps, slots, sm, vs);
    assert CellsRel(g2, w);
    EntryScopes(P, g, ps, w, sm);
    MemRelGrow(f, sm, tm, ParameterCells(ps, vs));
    EntryWF(P, g, ps, slots);
  }

  lemma {:induction false} EntryWF(P: Program, g: Gen, ps: seq<Variable>, slots: seq<Slot>)
    requires ScopesIn(g.scopes, |g.vars|) && ParameterSlots(ps) == Some(slots)
    ensures var g1 := StartBody(g, slots); WF(g1.(scopes := [ParameterNames(ps, |g.vars|)] + g1.scopes))
  {}
}
