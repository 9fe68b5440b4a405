/**
  The invariant that ties a source state to a machine state: an injection f
  from source cells to machine cells, and, for every variable, where its value
  lives now. A parameter still in a register has no machine cell, so nothing
  points to it.
 */
module Relation {
  import opened Wrappers
  import opened Ast
  import opened Ir
  import opened Lowering
  import opened Semantics
  import opened DepthExact
  import opened Soundness
  import opened Materialise

  // One activation. L: variable number to source cell; f: source cell to
  // machine cell; cells below `base` existed before the activation.
  datatype World = World(env: Env, sm: Mem, L: map<nat, nat>, f: map<nat, nat>, fr: Frame, tm: seq<Val>, base: nat)

  function TyOf(depth: nat): Ty { if depth == 0 then I32 else Ptr }

  ghost predicate ValRel(f: map<nat, nat>, v: Val, t: Val) {
    match v
    case Undef => t == Undef
    case IntV(_) => t == v
    case PtrV(l) => l in f && t == PtrV(f[l])
  }

  ghost predicate Injective(m: map<nat, nat>) {
    forall a, b :: a in m && b in m && m[a] == m[b] ==> a == b
  }

  ghost predicate MemRel(f: map<nat, nat>, sm: Mem, tm: seq<Val>) {
    && Injective(f)
    && forall l :: l in f ==> l < |sm| && f[l] < |tm| && ValRel(f, sm[l].val, tm[f[l]])
  }

  ghost predicate ScopeRel(names: map<string, nat>, cells: map<string, nat>, L: map<nat, nat>) {
    && names.Keys == cells.Keys
    && forall n :: n in names ==> names[n] in L && cells[n] == L[names[n]]
  }

  ghost predicate EnvRel(scopes: Scopes, env: Env, L: map<nat, nat>) {
    |scopes| == |env| && forall i :: 0 <= i < |scopes| ==> ScopeRel(scopes[i], env[i], L)
  }

  ghost predicate SlotRel(m: Module, s: Status, slot: Slot, k: nat, w: World) {
    match s
    case InRegister =>
      && slot.underlying == I32
      && !slot.isAlloca && slot.variable.Arg? && slot.variable.typ == TyOf(slot.depth)
      && k in w.L && w.base <= w.L[k] < |w.sm| && w.L[k] !in w.f
      && w.sm[w.L[k]].val != Undef
      && ValRel(w.f, w.sm[w.L[k]].val, ValueOf(m, w.fr, slot.variable))
    case InMemory =>
      && slot.underlying == I32
      && slot.isAlloca && slot.variable.Type() == Ptr
      && k in w.L && w.L[k] in w.f
      && ValueOf(m, w.fr, slot.variable) == PtrV(w.f[w.L[k]])
    case Lost => slot.isAlloca
  }

  ghost predicate SlotsRel(m: Module, st: Statuses, g: Gen, w: World) {
    |st| == |g.vars| && forall k :: 0 <= k < |st| ==> SlotRel(m, st[k], g.vars[k], k, w)
  }

  ghost predicate CellsRel(g: Gen, w: World) {
    && Injective(w.L)
    && forall k :: k in w.L ==> k < |g.vars| && w.L[k] < |w.sm| && w.sm[w.L[k]].depth == g.vars[k].depth
  }

  ghost predicate FrameRel(g: Gen, w: World) {
    && WF(g) && w.fr.block == g.cur && w.fr.pc == |g.blocks[g.cur]|
    && forall r :: r in w.fr.regs ==> r < g.next
  }

  ghost predicate GlobalsRel(P: Program, m: Module, f: map<nat, nat>) {
    && P.globals.Keys == m.globals.Keys
    && forall n :: n in P.globals ==> P.globals[n] in f && f[P.globals[n]] == m.globals[n]
  }

  ghost predicate Rel(P: Program, m: Module, st: Statuses, g: Gen, w: World) {
    && FrameRel(g, w) && EnvRel(g.scopes, w.env, w.L) && CellsRel(g, w) && SlotsRel(m, st, g, w)
    && MemRel(w.f, w.sm, w.tm) && GlobalsRel(P, m, w.f) && w.base <= |w.sm|
  }

  ghost predicate CodeIn(m: Module, name: string, g: Gen) {
    && name in m.functions && |g.blocks| <= |m.functions[name]|
    && forall b :: 0 <= b < |g.blocks| ==> g.blocks[b] <= m.functions[name][b]
  }

  // Unmapped cells of earlier activations are out of reach.
  ghost predicate Keeps(base: nat, w: World, w': World) {
    forall l :: 0 <= l < base && l < |w.sm| && l !in w.f ==> l !in w'.f && l < |w'.sm| && w'.sm[l] == w.sm[l]
  }

  ghost predicate SubMap<K, V>(a: map<K, V>, b: map<K, V>) {
    forall k :: k in a ==> k in b && b[k] == a[k]
  }

  ghost predicate MemLater(w: World, w': World) {
    w'.base == w.base && SubMap(w.f, w'.f) && Extends(w.sm, w'.sm) && Keeps(w.base, w, w')
  }

  ghost predicate WorldLater(w: World, w': World) {
    && MemLater(w, w') && SubMap(w.L, w'.L)
    && w'.fr.name == w.fr.name && w'.fr.args == w.fr.args && SubMap(w.fr.regs, w'.fr.regs)
  }

  function Conf(w: World, rest: seq<Frame>): Config { Running(w.fr, rest, w.tm) }

  ghost predicate Runs(m: Module, rest: seq<Frame>, w: World, w': World) {
    Reaches(m, Conf(w, rest), Conf(w', rest))
  }

  // ----- small facts -----

  lemma {:induction false} RunsTrans(m: Module, rest: seq<Frame>, a: World, b: World, c: World)
    requires Runs(m, rest, a, b) && Runs(m, rest, b, c)
    ensures Runs(m, rest, a, c)
  {
    ReachesTrans(m, Conf(a, rest), Conf(b, rest), Conf(c, rest));
  }

  lemma {:induction false} LaterTrans(a: World, b: World, c: World)
    requires WorldLater(a, b) && WorldLater(b, c)
    ensures WorldLater(a, c)
  {}

  lemma {:induction false} MemLaterTrans(a: World, b: World, c: World)
    requires MemLater(a, b) && MemLater(b, c)
    ensures MemLater(a, c)
  {}

  lemma {:induction false} CodeEarlier(m: Module, name: string, g: Gen, g': Gen)
    requires WF(g) && Grows(g, g') && CodeIn(m, name, g')
    ensures CodeIn(m, name, g)
  {
    forall b | 0 <= b < |g.blocks| ensures g.blocks[b] <= m.functions[name][b] {
      assert g.blocks[b] <= g'.blocks[b] <= m.functions[name][b];
    }
  }

  // A defined value stays when registers are added.
  lemma {:induction false} ValueStays(m: Module, fr: Frame, fr': Frame, v: Value)
    requires fr'.args == fr.args && SubMap(fr.regs, fr'.regs)
    requires ValueOf(m, fr, v) != Undef
    ensures ValueOf(m, fr', v) == ValueOf(m, fr, v)
  {}

  lemma {:induction false} ValRelLater(f: map<nat, nat>, f': map<nat, nat>, v: Val, t: Val)
    requires SubMap(f, f') && ValRel(f, v, t)
    ensures ValRel(f', v, t)
  {}

  lemma {:induction false} LookupRel(scopes: Scopes, env: Env, L: map<nat, nat>, n: string)
    requires EnvRel(scopes, env, L)
    ensures var k, l := LookupIn<nat>(scopes, n), LookupIn<nat>(env, n);
            k.Some? == l.Some? && (k.Some? ==> k.value in L && l.value == L[k.value])
    decreases |scopes|
  {
    if scopes != [] {
      assert ScopeRel(scopes[0], env[0], L);
      if n !in scopes[0] {
        assert EnvRel(scopes[1..], env[1..], L) by {
          forall i | 0 <= i < |scopes[1..]| ensures ScopeRel(scopes[1..][i], env[1..][i], L) {
            assert ScopeRel(scopes[i + 1], env[i + 1], L);
          }
        }
        LookupRel(scopes[1..], env[1..], L, n);
      }
    }
  }

  // The instruction just emitted is the one the machine is at.
  lemma {:induction false} AtEmitted(m: Module, g: Gen, i: Instruction, fr: Frame)
    requires WF(g) && fr.block == g.cur && fr.pc == |g.blocks[g.cur]| && CodeIn(m, fr.name, Emit(g, i))
    ensures InstructionAt(m, fr) == Some(i)
  {
    var b := Emit(g, i).blocks[g.cur];
    assert b[fr.pc] == i;
    assert b <= m.functions[fr.name][g.cur];
  }

  // One emitted instruction, executed.
  lemma {:induction false} RunEmitted(m: Module, g: Gen, i: Instruction, w: World, rest: seq<Frame>)
    requires FrameRel(g, w) && CodeIn(m, w.fr.name, Emit(g, i))
    ensures Reaches(m, Conf(w, rest), Execute(m, w.fr, rest, w.tm, i))
  {
    AtEmitted(m, g, i, w.fr);
    ReachesStep(m, Conf(w, rest));
  }

  // ----- how the relation moves -----

  // A fresh register, or nothing, is set and the program counter moves on.
  lemma {:induction false} RelAdvance(P: Program, m: Module, st: Statuses, g: Gen, i: Instruction, w: World, fr': Frame)
    requires Rel(P, m, st, g, w)
    requires fr' == w.fr.Next() || (exists v :: fr' == w.fr.Set(g.next, v))
    ensures Rel(P, m, st, Emit(g, i), w.(fr := fr'))
    ensures WorldLater(w, w.(fr := fr'))
  {
    var w' := w.(fr := fr');
    assert SubMap(w.fr.regs, fr'.regs);
    forall k | 0 <= k < |st| ensures SlotRel(m, st[k], g.vars[k], k, w') {
      assert SlotRel(m, st[k], g.vars[k], k, w);
      if st[k] == InMemory {
        ValueStays(m, w.fr, fr', g.vars[k].variable);
      }
    }
    assert FrameRel(Emit(g, i), w');
  }

  // A new machine cell for source cell l.
  lemma {:induction false} MemRelNew(f: map<nat, nat>, sm: Mem, tm: seq<Val>, l: nat, t: Val)
    requires MemRel(f, sm, tm) && l !in f && l < |sm| && ValRel(f, sm[l].val, t)
    ensures MemRel(f[l := |tm|], sm, tm + [t])
    ensures SubMap(f, f[l := |tm|])
  {
    var f' := f[l := |tm|];
    forall a | a in f' ensures ValRel(f', sm[a].val, (tm + [t])[f'[a]]) {
      if a == l {
        ValRelLater(f, f', sm[a].val, t);
      } else {
        ValRelLater(f, f', sm[a].val, tm[f[a]]);
      }
    }
  }

  lemma {:induction false} MemRelStore(f: map<nat, nat>, sm: Mem, tm: seq<Val>, l: nat, v: Val, t: Val)
    requires MemRel(f, sm, tm) && l in f && ValRel(f, v, t)
    ensures MemRel(f, sm[l := sm[l].(val := v)], tm[f[l] := t])
  {}

  lemma {:induction false} MemRelGrow(f: map<nat, nat>, sm: Mem, tm: seq<Val>, more: Mem)
    requires MemRel(f, sm, tm)
    ensures MemRel(f, sm + more, tm)
  {}
}
