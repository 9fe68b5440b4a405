/**
  Semantic preservation: whatever a depth-exact, safely materialised program
  computes, the machine running the emitted code computes too.
 */
module Simulation {
  import opened Wrappers
  import opened Ast
  import opened Ir
  import opened Lowering
  import opened Semantics
  import opened DepthExact
  import opened Soundness
  import opened Materialise
  import opened Relation
  import opened Compilation

  // ----- pieces of straight-line code -----

  lemma {:induction false} SimLoad(P: Program, m: Module, st: Statuses, g: Gen, w: World, rest: seq<Frame>, ty: Ty, p: Value, l: nat)
    requires Rel(P, m, st, g, w) && CodeIn(m, w.fr.name, EmitLoad(g, ty, p).gen)
    requires l in w.f && ValueOf(m, w.fr, p) == PtrV(w.f[l])
    requires w.sm[l].val != Undef && Fits(ty, w.sm[l].val)
    ensures var w' := w.(fr := w.fr.Set(g.next, w.tm[w.f[l]])); var r := EmitLoad(g, ty, p);
            && Runs(m, rest, w, w') && WorldLater(w, w') && Rel(P, m, st, r.gen, w')
            && ValRel(w.f, w.sm[l].val, ValueOf(m, w'.fr, r.value))
  {
    var i := Load(g.next, ty, p);
    var w' := w.(fr := w.fr.Set(g.next, w.tm[w.f[l]]));
    assert ValRel(w.f, w.sm[l].val, w.tm[w.f[l]]);
    RunEmitted(m, g, i, w, rest);
    assert Execute(m, w.fr, rest, w.tm, i) == Conf(w', rest);
    RelAdvance(P, m, st, g, i, w, w'.fr);
  }

  // The parameter in variable k moves to a machine cell of its own.
  lemma {:induction false} RelMaterialise(P: Program, m: Module, st: Statuses, g: Gen, w: World, k: nat, cell: nat)
    requires Rel(P, m, st, g, w) && k < |st| && st[k] == InRegister
    requires cell in w.fr.regs && w.fr.regs[cell] == PtrV(|w.tm|)
    ensures var slot := g.vars[k].(variable := Reg(cell, Ptr), isAlloca := true);
            var w' := w.(f := w.f[w.L[k] := |w.tm|], tm := w.tm + [ValueOf(m, w.fr, g.vars[k].variable)]);
            Rel(P, m, st[k := InMemory], g.(vars := g.vars[k := slot]), w') && WorldLater(w, w')
  {
    var slot := g.vars[k].(variable := Reg(cell, Ptr), isAlloca := true);
    var t := ValueOf(m, w.fr, g.vars[k].variable);
    var w' := w.(f := w.f[w.L[k] := |w.tm|], tm := w.tm + [t]);
    var g', st' := g.(vars := g.vars[k := slot]), st[k := InMemory];
    assert SlotRel(m, st[k], g.vars[k], k, w);
    MemRelNew(w.f, w.sm, w.tm, w.L[k], t);
    forall j | 0 <= j < |st'| ensures SlotRel(m, st'[j], g'.vars[j], j, w') {
      assert SlotRel(m, st[j], g.vars[j], j, w);
    }
  }

  // A fresh, uninitialised machine cell.
  lemma {:induction false} SimAlloca(P: Program, m: Module, st: Statuses, g: Gen, w: World, rest: seq<Frame>, ty: Ty)
    requires Rel(P, m, st, g, w) && CodeIn(m, w.fr.name, Emit(g, Alloca(g.next, ty)))
    ensures var w' := w.(fr := w.fr.Set(g.next, PtrV(|w.tm|)));
            && Reaches(m, Conf(w, rest), Conf(w'.(tm := w.tm + [Undef]), rest))
            && Rel(P, m, st, Emit(g, Alloca(g.next, ty)), w') && WorldLater(w, w')
  {
    RunEmitted(m, g, Alloca(g.next, ty), w, rest);
    RelAdvance(P, m, st, g, Alloca(g.next, ty), w, w.fr.Set(g.next, PtrV(|w.tm|)));
  }

  // The store that fills the cell just allocated, and the renaming of the
  // variable; w has not got the cell yet, so f stays an injection.
  lemma {:induction false} SimFill(P: Program, m: Module, st: Statuses, g: Gen, w: World, rest: seq<Frame>, k: nat, cell: nat) returns (w': World)
    requires Rel(P, m, st, g, w) && k < |st| && st[k] == InRegister
    requires cell in w.fr.regs && w.fr.regs[cell] == PtrV(|w.tm|)
    requires CodeIn(m, w.fr.name, Emit(g, Store(g.vars[k].variable, Reg(cell, Ptr))))
    ensures var slot := g.vars[k].(variable := Reg(cell, Ptr), isAlloca := true);
            var g1 := Emit(g, Store(g.vars[k].variable, Reg(cell, Ptr)));
            && Reaches(m, Conf(w.(tm := w.tm + [Undef]), rest), Conf(w', rest))
            && WorldLater(w, w') && Rel(P, m, st[k := InMemory], g1.(vars := g1.vars[k := slot]), w')
            && w'.sm == w.sm && w'.env == w.env && w'.L == w.L
            && k in w.L && w.L[k] in w'.f && w'.f[w.L[k]] == |w.tm| && SubMap(w.fr.regs, w'.fr.regs)
  {
    hide MemRel;
    var i := Store(g.vars[k].variable, Reg(cell, Ptr));
    var t := ValueOf(m, w.fr, g.vars[k].variable);
    var w1 := w.(tm := w.tm + [Undef]);
    assert SlotRel(m, st[k], g.vars[k], k, w);
    RunEmitted(m, g, i, w1, rest);
    var w2 := w.(fr := w.fr.Next());
    RelAdvance(P, m, st, g, i, w, w2.fr);
    RelMaterialise(P, m, st, Emit(g, i), w2, k, cell);
    w' := w2.(f := w.f[w.L[k] := |w.tm|], tm := w.tm + [t]);
    assert (w.tm + [Undef])[|w.tm| := t] == w.tm + [t];
    LaterTrans(w, w2, w');
  }

  lemma {:induction false} SimGetAddress(P: Program, m: Module, st: Statuses, g: Gen, w: World, rest: seq<Frame>, k: nat) returns (w': World)
    requires Rel(P, m, st, g, w) && k < |st| && st[k] != Lost
    requires CodeIn(m, w.fr.name, LowerGetAddress(g, k).gen)
    ensures var r := LowerGetAddress(g, k);
            && Runs(m, rest, w, w') && WorldLater(w, w') && Rel(P, m, st[k := InMemory], r.gen, w')
            && w'.sm == w.sm && w'.env == w.env && w'.L == w.L
            && k in w.L && w.L[k] in w'.f && ValueOf(m, w'.fr, r.value) == PtrV(w'.f[w.L[k]])
            && r.value.Type() == Ptr
  {
    hide MemRel;
    assert SlotRel(m, st[k], g.vars[k], k, w);
    if st[k] == InMemory {
      w' := w;
      ReachesRefl(m, Conf(w, rest));
      assert st[k := InMemory] == st;
    } else {
      var i := Alloca(g.next, g.vars[k].variable.Type());
      var g1 := Emit(g, i);
      CodeEarlier(m, w.fr.name, g1, Emit(g1, Store(g.vars[k].variable, Reg(g.next, Ptr))));
      SimAlloca(P, m, st, g, w, rest, g.vars[k].variable.Type());
      var w1 := w.(fr := w.fr.Set(g.next, PtrV(|w.tm|)));
      w' := SimFill(P, m, st, g1, w1, rest, k, g.next);
      ReachesTrans(m, Conf(w, rest), Conf(w1.(tm := w.tm + [Undef]), rest), Conf(w', rest));
      LaterTrans(w, w1, w');
    }
  }

  lemma {:induction false} SimLoadChain(P: Program, m: Module, st: Statuses, g: Gen, w: World, rest: seq<Frame>, p: Value, l: nat, steps: nat)
    returns (w': World)
    requires Rel(P, m, st, g, w) && CodeIn(m, w.fr.name, LoadChain(g, p, steps).gen)
    requires l in w.f && ValueOf(m, w.fr, p) == PtrV(w.f[l]) && p.Type() == Ptr
    requires Chase(w.sm, l, steps).Ok?
    ensures var r := LoadChain(g, p, steps); var c := Chase(w.sm, l, steps).value;
            && Runs(m, rest, w, w') && WorldLater(w, w') && Rel(P, m, st, r.gen, w')
            && w' == w.(fr := w'.fr)
            && c in w.f && ValueOf(m, w'.fr, r.value) == PtrV(w.f[c]) && r.value.Type() == Ptr
    decreases steps
  {
    hide EnvRel, ValueOf, Conf;
    if steps == 0 {
      w' := w;
      ReachesRefl(m, Conf(w, rest));
    } else {
      var r := EmitLoad(g, Ptr, p);
      CodeEarlier(m, w.fr.name, r.gen, LoadChain(r.gen, r.value, steps - 1).gen);
      SimLoad(P, m, st, g, w, rest, Ptr, p, l);
      var w1 := w.(fr := w.fr.Set(g.next, w.tm[w.f[l]]));
      w' := SimLoadChain(P, m, st, r.gen, w1, rest, r.value, w.sm[l].val.loc, steps - 1);
      RunsTrans(m, rest, w, w1, w');
      LaterTrans(w, w1, w');
    }
  }

  lemma {:induction false} SimDereference(P: Program, m: Module, st: Statuses, g: Gen, w: World, rest: seq<Frame>, k: nat, steps: nat) returns (w': World)
    requires Rel(P, m, st, g, w) && k < |st| && st[k] != Lost && k in w.L
    requires CodeIn(m, w.fr.name, LowerDereference(g, k, steps).gen)
    requires Chase(w.sm, w.L[k], steps).Ok?
    ensures var r := LowerDereference(g, k, steps); var c := Chase(w.sm, w.L[k], steps).value;
            && Runs(m, rest, w, w') && WorldLater(w, w') && Rel(P, m, st[k := InMemory], r.gen, w')
            && w'.sm == w.sm && w'.env == w.env && w'.L == w.L
            && c in w'.f && ValueOf(m, w'.fr, r.value) == PtrV(w'.f[c]) && r.value.Type() == Ptr
  {
    var a := LowerGetAddress(g, k);
    CodeEarlier(m, w.fr.name, a.gen, LoadChain(a.gen, a.value, steps).gen);
    var w1 := SimGetAddress(P, m, st, g, w, rest, k);
    w' := SimLoadChain(P, m, st[k := InMemory], a.gen, w1, rest, a.value, w.L[k], steps);
    RunsTrans(m, rest, w, w1, w');
    LaterTrans(w, w1, w');
  }

  // ----- expressions -----

  // Lowered code `low`, run from w, leads to w' with a value related to v.
  ghost predicate Simulated(P: Program, m: Module, rest: seq<Frame>, st': Statuses, low: Lowered, w: World, w': World, v: Val, mem': Mem, d: nat) {
    && Runs(m, rest, w, w') && WorldLater(w, w') && w'.env == w.env && w'.L == w.L && w'.sm == mem'
    && Rel(P, m, st', low.gen, w')
    && v != Undef && ValRel(w'.f, v, ValueOf(m, w'.fr, low.value)) && low.value.Type() == TyOf(d)
  }

  // A value of depth d fits the type chosen for depth d.
  lemma {:induction false} FitsDepth(mem: Mem, v: Val, d: nat)
    requires HasDepth(mem, v, d)
    ensures Fits(TyOf(d), v)
  {}

  lemma {:induction false} SimGetValue(P: Program, m: Module, st: Statuses, g: Gen, w: World, rest: seq<Frame>, k: nat) returns (w': World)
    requires Rel(P, m, st, g, w) && k < |st| && st[k] != Lost && k in w.L && WellTyped(w.sm)
    requires CodeIn(m, w.fr.name, LowerGetValue(g, k).gen)
    requires w.sm[w.L[k]].val != Undef
    ensures Simulated(P, m, rest, st, LowerGetValue(g, k), w, w', w.sm[w.L[k]].val, w.sm, g.vars[k].depth)
  {
    assert SlotRel(m, st[k], g.vars[k], k, w);
    var l := w.L[k];
    if st[k] == InMemory {
      FitsDepth(w.sm, w.sm[l].val, g.vars[k].depth);
      SimLoad(P, m, st, g, w, rest, TyOf(g.vars[k].depth), g.vars[k].variable, l);
      w' := w.(fr := w.fr.Set(g.next, w.tm[w.f[l]]));
    } else {
      w' := w;
      ReachesRefl(m, Conf(w, rest));
    }
  }

  lemma {:induction false} SimAddressOf(P: Program, m: Module, st: Statuses, g: Gen, w: World, rest: seq<Frame>, k: nat) returns (w': World)
    requires Rel(P, m, st, g, w) && k < |st| && st[k] != Lost && k in w.L
    requires CodeIn(m, w.fr.name, LowerGetAddress(g, k).gen)
    ensures Simulated(P, m, rest, st[k := InMemory], LowerGetAddress(g, k), w, w', PtrV(w.L[k]), w.sm, g.vars[k].depth + 1)
  {
    w' := SimGetAddress(P, m, st, g, w, rest, k);
  }

  lemma {:induction false} SimDereferenceExpression(P: Program, m: Module, st: Statuses, g: Gen, w: World, rest: seq<Frame>, k: nat, steps: nat)
    returns (w': World)
    requires Rel(P, m, st, g, w) && k < |st| && st[k] != Lost && k in w.L && WellTyped(w.sm) && steps <= g.vars[k].depth
    requires CodeIn(m, w.fr.name, LowerDereferenceExpression(g, k, steps).gen)
    requires var c := Chase(w.sm, w.L[k], steps); c.Ok? && w.sm[c.value].val != Undef
    ensures Simulated(P, m, rest, st[k := InMemory], LowerDereferenceExpression(g, k, steps), w, w',
                      w.sm[Chase(w.sm, w.L[k], steps).value].val, w.sm, g.vars[k].depth - steps)
  {
    ChaseTyped(w.sm, w.L[k], steps);
    var c := Chase(w.sm, w.L[k], steps).value;
    var p := LowerDereference(g, k, steps);
    var ty := TyOf(g.vars[k].depth - steps);
    FitsDepth(w.sm, w.sm[c].val, g.vars[k].depth - steps);
    assert SlotRel(m, st[k], g.vars[k], k, w);
    assert LowerDereferenceExpression(g, k, steps) == EmitLoad(p.gen, ty, p.value);
    CodeEarlier(m, w.fr.name, p.gen, EmitLoad(p.gen, ty, p.value).gen);
    var w1 := SimDereference(P, m, st, g, w, rest, k, steps);
    SimLoad(P, m, st[k := InMemory], p.gen, w1, rest, ty, p.value, c);
    w' := w1.(fr := w1.fr.Set(p.gen.next, w1.tm[w1.f[c]]));
    RunsTrans(m, rest, w, w1, w');
    LaterTrans(w, w1, w');
  }

  lemma {:induction false} SimUse(P: Program, m: Module, st: Statuses, g: Gen, w: World, rest: seq<Frame>, k: nat, ind: Indirection, steps: nat)
    returns (w': World)
    requires Rel(P, m, st, g, w) && k < |st| && k in w.L && WellTyped(w.sm)
    requires CheckUse(st, k, ind).Some? && DepthOfUse(g.vars[k].depth, ind, steps).Some? && EvalUse(w.sm, w.L[k], ind, steps).Ok?
    requires CodeIn(m, w.fr.name, LowerUse(g, k, ind, steps).gen)
    ensures Simulated(P, m, rest, CheckUse(st, k, ind).value, LowerUse(g, k, ind, steps), w, w',
                      EvalUse(w.sm, w.L[k], ind, steps).value, w.sm, DepthOfUse(g.vars[k].depth, ind, steps).value)
  {
    hide LowerGetAddress, LowerDereferenceExpression;
    match ind
    case Plain => w' := SimGetValue(P, m, st, g, w, rest, k);
    case GetAddress => w' := SimAddressOf(P, m, st, g, w, rest, k);
    case GetValue => w' := SimDereferenceExpression(P, m, st, g, w, rest, k, steps);
  }
}
