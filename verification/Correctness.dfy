/**
  The compiler is correct: on every accepted unit, every call that the source
  semantics completes is completed by the emitted module, with the same
  integer result and the same global variables; and no evaluation of such a
  unit goes wrong.
 */
module Correctness {
  import opened Wrappers
  import opened Ast
  import opened Ir
  import opened Lowering
  import opened Semantics
  import opened DepthExact
  import opened Soundness
  import opened Relation
  import opened Compilation
  import opened Entry
  import opened Preservation
  import opened Items
  import opened Units
  import opened Analysis
  import opened Acceptance

  // The generator's input, within the scope of the theorem.
  ghost predicate Accepted(declarations: seq<Item>, bodies: seq<Item>) {
    && NoBodies(declarations) && OneBodyEach(bodies)
    && UnitExact(declarations, bodies) && UnitDominated(declarations, bodies)
  }

  // One cell per global variable.
  function InitialCells(declarations: seq<Item>): (r: Mem)
    ensures |r| == |InitialsOf(declarations)|
    ensures forall i :: 0 <= i < |r| ==> r[i] == Cell(0, InitialsOf(declarations)[i])
  {
    seq(|InitialsOf(declarations)|, i requires 0 <= i < |InitialsOf(declarations)| => Cell(0, InitialsOf(declarations)[i]))
  }

  // Calls from outside pass 32-bit integers.
  ghost predicate IntegerCall(P: Program, name: string, vs: seq<Val>) {
    && name in P.functions && |vs| == |P.functions[name].parameters|
    && forall i :: 0 <= i < |vs| ==>
         vs[i].IntV? && -0x8000_0000 <= vs[i].n < 0x8000_0000 && P.functions[name].parameters[i].typ.pointerDepth == 0
  }

  lemma {:induction false} InitialsFit(u: UnitGen, items: seq<Item>)
    requires UnitWF(u) && NoBodies(items) && LowerItems(u, items).Some?
    ensures |InitialsOf(items)| == |GlobalsOf(items)|
    ensures forall i :: 0 <= i < |InitialsOf(items)| ==>
              InitialsOf(items)[i] == Undef || (InitialsOf(items)[i].IntV? && 0 <= InitialsOf(items)[i].n < 0x8000_0000)
    decreases |items|
  {
    if items != [] {
      assert items[0] in items && NoBodies(items[1..]);
      InitialsFit(LowerItem(u, items[0]).value, items[1..]);
      if items[0].GlobalItem? && items[0].initial.Some? && items[0].initial.value.ConstInteger? {
        assert LeadingDigits(items[0].initial.value.digits, 0) >= 0;
      }
    }
  }

  lemma {:induction false} InitialTyped(declarations: seq<Item>, bodies: seq<Item>)
    requires NoBodies(declarations) && LowerItems(EMPTY_UNIT, declarations).Some?
    ensures WellTyped(InitialCells(declarations)) && GlobalsTyped(ProgramOf(declarations, bodies), InitialCells(declarations))
    ensures |InitialCells(declarations)| == |GlobalsOf(declarations)|
  {
    InitialsFit(EMPTY_UNIT, declarations);
    var mem := InitialCells(declarations);
    forall l | 0 <= l < |mem| ensures mem[l].val == Undef || HasDepth(mem, mem[l].val, mem[l].depth) {
      assert mem[l] == Cell(0, InitialsOf(declarations)[l]);
    }
  }

  function Identity(n: nat): (r: map<nat, nat>)
    ensures forall k: nat :: k in r <==> k < n
    ensures forall k :: k in r ==> r[k] == k
  {
    if n == 0 then map[] else Identity(n - 1)[n - 1 := n - 1]
  }

  lemma {:induction false} InitialRel(declarations: seq<Item>, bodies: seq<Item>, u: UnitGen)
    requires NoBodies(declarations) && LowerItems(EMPTY_UNIT, declarations).Some? && u.initial == InitialsOf(declarations)
    ensures var mem := InitialCells(declarations);
            MemRel(Identity(|mem|), mem, u.initial)
            && GlobalsRel(ProgramOf(declarations, bodies), ModuleOf(declarations, u), Identity(|mem|))
  {
    InitialsFit(EMPTY_UNIT, declarations);
    var mem := InitialCells(declarations);
    forall l | l in Identity(|mem|) ensures ValRel(Identity(|mem|), mem[l].val, u.initial[l]) {
      assert mem[l] == Cell(0, InitialsOf(declarations)[l]);
    }
  }

  // What the caller of an integer function can see afterwards.
  ghost predicate SameOutcome(P: Program, name: string, globals: nat, r: (Val, Mem), tv: Val, tm: seq<Val>)
    requires name in P.functions
  {
    && (P.functions[name].typ.pointerDepth == 0 ==> tv == r.0)
    && globals <= |tm| && globals <= |r.1| && forall k :: 0 <= k < globals ==> tm[k] == r.1[k].val
  }

  lemma {:induction false} NeverWrong(declarations: seq<Item>, bodies: seq<Item>, fuel: nat, name: string, vs: seq<Val>)
    requires Accepted(declarations, bodies) && IntegerCall(ProgramOf(declarations, bodies), name, vs)
    ensures Invoke(ProgramOf(declarations, bodies), fuel, name, vs, InitialCells(declarations)) != Wrong
  {
    ItemsAppend(EMPTY_UNIT, declarations, bodies);
    InitialTyped(declarations, bodies);
    SoundInvoke(ProgramOf(declarations, bodies), fuel, name, vs, InitialCells(declarations));
  }

  lemma {:induction false} GlobalsVisible(w: World, w': World, v: Val, tv: Val)
    requires w.f == Identity(|w.sm|) && LeftBehind(|w.sm|, w, w', v, tv) && WellTyped(w'.sm)
    requires forall k :: 0 <= k < |w.sm| ==> w.sm[k].depth == 0
    ensures |w.sm| <= |w'.tm| && |w.sm| <= |w'.sm| && forall k :: 0 <= k < |w.sm| ==> w'.tm[k] == w'.sm[k].val
  {
    forall k | 0 <= k < |w.sm| ensures k < |w'.tm| && w'.tm[k] == w'.sm[k].val {
      assert k in w.f && w'.f[k] == k;
      assert ValRel(w'.f, w'.sm[k].val, w'.tm[k]);
      assert w'.sm[k].val == Undef || HasDepth(w'.sm, w'.sm[k].val, 0);
    }
    if |w.sm| > 0 {
      var last := |w.sm| - 1;
      assert last in w.f && w'.f[last] == last;
    }
  }

  lemma {:induction false} CompilerCorrect(declarations: seq<Item>, bodies: seq<Item>, fuel: nat, name: string, vs: seq<Val>)
    returns (tv: Val, tm: seq<Val>)
    requires Accepted(declarations, bodies) && IntegerCall(ProgramOf(declarations, bodies), name, vs)
    requires Invoke(ProgramOf(declarations, bodies), fuel, name, vs, InitialCells(declarations)).Ok?
    ensures var P := ProgramOf(declarations, bodies); var u := LowerItems(EMPTY_UNIT, declarations + bodies).value;
            && Reaches(ModuleOf(declarations, u), Running(Frame(name, 0, 0, vs, map[]), [], u.initial), Halted(tv, tm))
            && SameOutcome(P, name, |GlobalsOf(declarations)|, Invoke(P, fuel, name, vs, InitialCells(declarations)).value, tv, tm)
  {
    hide ProgramOf, Invoke, LowerItems, Reaches;
    var P, mem := ProgramOf(declarations, bodies), InitialCells(declarations);
    var u := LowerItems(EMPTY_UNIT, declarations + bodies).value;
    var m := ModuleOf(declarations, u);
    ItemsAppend(EMPTY_UNIT, declarations, bodies);
    InitialTyped(declarations, bodies);
    var starts := UnitCompiled(declarations, bodies);
    InitialRel(declarations, bodies, u);
    var w := World([], mem, map[], Identity(|mem|), Frame(name, 0, 0, vs, map[]), u.initial, 0);
    SoundInvoke(P, fuel, name, vs, mem);
    var w', v := SimInvoke(P, m, starts, fuel, w, [], name, vs, vs);
    tv, tm := v, w'.tm;
    GlobalsVisible(w, w', Invoke(P, fuel, name, vs, mem).value.0, v);
  }

  // The same from the source text: analyzed, annotated and lowered.
  lemma {:induction false} SourceCorrect(sources: seq<Source>, declarations: seq<Item>, bodies: seq<Item>, fuel: nat, name: string, vs: seq<Val>)
    returns (tv: Val, tm: seq<Val>)
    requires ExactSources(sources) && Analyze(sources) == Some((declarations, bodies)) && UnitDominated(declarations, bodies)
    requires IntegerCall(ProgramOf(declarations, bodies), name, vs)
    requires Invoke(ProgramOf(declarations, bodies), fuel, name, vs, InitialCells(declarations)).Ok?
    ensures var P := ProgramOf(declarations, bodies); var u := LowerItems(EMPTY_UNIT, declarations + bodies).value;
            && Reaches(ModuleOf(declarations, u), Running(Frame(name, 0, 0, vs, map[]), [], u.initial), Halted(tv, tm))
            && SameOutcome(P, name, |GlobalsOf(declarations)|, Invoke(P, fuel, name, vs, InitialCells(declarations)).value, tv, tm)
  {
    var d, b := ExactAccepted(sources);
    tv, tm := CompilerCorrect(declarations, bodies, fuel, name, vs);
  }
}
