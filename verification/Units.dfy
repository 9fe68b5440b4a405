/**
  A whole compilation unit: the items in the order the parser adds them, the
  generator's walk over them, and the program they mean.
 */
module Units {
  import opened Wrappers
  import opened Ast
  import opened Ir
  import opened Lowering
  import opened Semantics
  import opened DepthExact
  import opened Soundness
  import opened Materialise
  import opened Relation
  import opened Compilation
  import opened Entry
  import opened Preservation
  import opened Items
  import opened Paths
  import opened Avoidance

  // ----- what a unit means -----

  function GlobalsOf(items: seq<Item>): (r: seq<Variable>)
    decreases |items|
  {
    if items == [] then []
    else (if items[0].GlobalItem? then [items[0].variable] else []) + GlobalsOf(items[1..])
  }

  function InitialsOf(items: seq<Item>): seq<Val>
    decreases |items|
  {
    if items == [] then []
    else (if items[0].GlobalItem? && InitialValue(items[0].initial).Some? then [InitialValue(items[0].initial).value] else [])
         + InitialsOf(items[1..])
  }

  // The first declaration of a name counts.
  function SignaturesOf(items: seq<Item>): Signatures
    decreases |items|
  {
    if items == [] then map[]
    else if items[0].FunctionItem? then SignaturesOf(items[1..])[items[0].name := items[0].signature]
    else SignaturesOf(items[1..])
  }

  function BodiesOf(items: seq<Item>): map<string, Block>
    decreases |items|
  {
    if items == [] then map[]
    else if items[0].BodyItem? then BodiesOf(items[1..])[items[0].name := items[0].block]
    else BodiesOf(items[1..])
  }

  function ProgramOf(declarations: seq<Item>, bodies: seq<Item>): Program {
    var sigs, blocks := SignaturesOf(declarations), BodiesOf(bodies);
    Program(map n | n in blocks && n in sigs :: Definition(sigs[n].parameters, sigs[n].typ, blocks[n]),
            sigs, ParameterNames(GlobalsOf(declarations), 0))
  }

  function ModuleOf(declarations: seq<Item>, u: UnitGen): Module {
    Module(u.blocks, ParameterNames(GlobalsOf(declarations), 0))
  }

  // ----- the units that the theorem is about -----

  ghost predicate NoBodies(items: seq<Item>) {
    forall i :: i in items ==> !i.BodyItem?
  }

  ghost predicate OneBodyEach(items: seq<Item>) {
    && (forall i :: 0 <= i < |items| ==> items[i].BodyItem?)
    && (forall i, j :: 0 <= i < j < |items| ==> items[i].name != items[j].name)
  }

  // Depth-exact, with plain integer globals of distinct names.
  ghost predicate UnitExact(declarations: seq<Item>, bodies: seq<Item>) {
    var gs := GlobalsOf(declarations);
    && Exact(ProgramOf(declarations, bodies))
    && Distinct(gs) && (forall v :: v in gs ==> v.typ == Type(Int, false, 0))
  }

  // Every emitted function is in SSA form: no path uses an undefined register.
  ghost predicate UnitDominated(declarations: seq<Item>, bodies: seq<Item>) {
    var P, u := ProgramOf(declarations, bodies), LowerItems(EMPTY_UNIT, declarations + bodies);
    u.Some? && forall n :: n in P.functions ==> n in u.value.blocks && Dominated(u.value.blocks[n])
  }

  // The same, told from the source text alone.
  ghost predicate UnitSafe(declarations: seq<Item>, bodies: seq<Item>) {
    var P := ProgramOf(declarations, bodies);
    forall n :: n in P.functions ==>
      CheckBody([P.globals], |GlobalsOf(declarations)|, P.functions[n].parameters, P.functions[n].body).Some?
  }

  // ----- the walk over the declarations -----

  ghost predicate NamesWalked(g: Gen, gs: seq<Variable>, g': Gen) {
    |g.scopes| == 1 == |g'.scopes| && g'.scopes[0] == ParameterNames(gs, |g.vars|) + g.scopes[0]
  }

  ghost predicate SlotsWalked(g: Gen, gs: seq<Variable>, g': Gen) {
    && |g'.vars| == |g.vars| + |gs|
    && (forall k :: 0 <= k < |g.vars| ==> g'.vars[k] == g.vars[k])
    && (forall k :: |g.vars| <= k < |g'.vars| ==> g'.vars[k] == Slot(Global(gs[k - |g.vars|].name), I32, true, 0))
  }

  ghost predicate FunctionsWalked(known: Signatures, items: seq<Item>, known': Signatures) {
    known' == SignaturesOf(items) + known
  }

  // What the walk over declarations adds.
  ghost predicate Walked(u: UnitGen, items: seq<Item>, u': UnitGen) {
    && NamesWalked(u.gen, GlobalsOf(items), u'.gen) && SlotsWalked(u.gen, GlobalsOf(items), u'.gen)
    && FunctionsWalked(u.functions, items, u'.functions)
    && u'.blocks == u.blocks && u'.gen.blocks == u.gen.blocks
    && u'.initial == u.initial + InitialsOf(items)
  }

  // The first entry of a name stays.
  lemma {:induction false} FirstWins<V>(later: map<string, V>, known: map<string, V>, name: string, v: V)
    ensures later + (if name in known then known else known[name := v]) == later[name := v] + known
  {}

  lemma {:induction false} WalkNames(g: Gen, v: Variable, gs: seq<Variable>, g1: Gen, g': Gen)
    requires |g.scopes| == 1 && |g1.vars| == |g.vars| + 1 && g1.scopes == Declare(g.scopes, v.name, |g.vars|)
    requires NamesWalked(g1, gs, g')
    ensures NamesWalked(g, [v] + gs, g')
  {
    assert ([v] + gs)[1..] == gs;
    FirstWins(ParameterNames(gs, |g.vars| + 1), g.scopes[0], v.name, |g.vars|);
  }

  lemma {:induction false} WalkSlots(g: Gen, v: Variable, gs: seq<Variable>, g1: Gen, g': Gen)
    requires g1.vars == g.vars + [Slot(Global(v.name), I32, true, 0)] && SlotsWalked(g1, gs, g')
    ensures SlotsWalked(g, [v] + gs, g')
  {
    var all, n := [v] + gs, |g.vars|;
    forall k | n <= k < |g'.vars| ensures g'.vars[k] == Slot(Global(all[k - n].name), I32, true, 0) {
      if k > n {
        assert all[k - n] == gs[k - (n + 1)];
      } else {
        assert g'.vars[k] == g1.vars[k];
      }
    }
  }

  lemma {:induction false} WalkGlobal(u: UnitGen, items: seq<Item>, u1: UnitGen, u': UnitGen)
    requires items != [] && items[0].GlobalItem? && items[0].variable.typ == Type(Int, false, 0)
    requires UnitWF(u) && |u.gen.scopes| == 1 && LowerItem(u, items[0]) == Some(u1)
    requires Walked(u1, items[1..], u')
    ensures Walked(u, items, u')
  {
    var v, gs := items[0].variable, GlobalsOf(items[1..]);
    assert GlobalsOf(items) == [v] + gs;
    WalkNames(u.gen, v, gs, u1.gen, u'.gen);
    WalkSlots(u.gen, v, gs, u1.gen, u'.gen);
    assert SignaturesOf(items) == SignaturesOf(items[1..]);
    assert u1.initial == u.initial + [InitialValue(items[0].initial).value];
  }

  lemma {:induction false} WalkFunction(u: UnitGen, items: seq<Item>, u1: UnitGen, u': UnitGen)
    requires items != [] && items[0].FunctionItem?
    requires UnitWF(u) && LowerItem(u, items[0]) == Some(u1)
    requires Walked(u1, items[1..], u')
    ensures Walked(u, items, u')
  {
    assert GlobalsOf(items) == GlobalsOf(items[1..]);
    assert InitialsOf(items) == InitialsOf(items[1..]);
    assert u1.gen == u.gen && u1.blocks == u.blocks && u1.initial == u.initial;
    assert FunctionsWalked(u.functions, items, u'.functions) by {
      FirstWins(SignaturesOf(items[1..]), u.functions, items[0].name, items[0].signature);
    }
  }

  lemma {:induction false} DeclarationsWalk(u: UnitGen, items: seq<Item>)
    requires UnitWF(u) && |u.gen.scopes| == 1 && NoBodies(items) && LowerItems(u, items).Some?
    requires forall v :: v in GlobalsOf(items) ==> v.typ == Type(Int, false, 0)
    ensures Walked(u, items, LowerItems(u, items).value)
    decreases |items|
  {
    if items == [] {
      assert map[] + u.gen.scopes[0] == u.gen.scopes[0];
      assert map[] + u.functions == u.functions;
    } else {
      var u1 := LowerItem(u, items[0]).value;
      assert items[0] in items;
      assert NoBodies(items[1..]);
      if items[0].GlobalItem? {
        assert GlobalsOf(items)[0] in GlobalsOf(items);
        DeclarationsWalk(u1, items[1..]);
        WalkGlobal(u, items, u1, LowerItems(u, items).value);
      } else {
        DeclarationsWalk(u1, items[1..]);
        WalkFunction(u, items, u1, LowerItems(u, items).value);
      }
    }
  }

  // ----- the walk over the bodies -----

  ghost predicate AllCells(g: Gen) {
    forall k :: 0 <= k < |g.vars| ==> g.vars[k].isAlloca
  }

  // Body `b` was lowered from `start`, which has the variables of u.
  ghost predicate BodyDone(u: UnitGen, u': UnitGen, start: Gen, b: Item)
    requires UnitWF(u) && b.BodyItem?
  {
    && b.name in u.functions && b.name in u'.blocks
    && start.blocks == [] && start.vars == u.gen.vars && start.scopes == u.gen.scopes
    && var r := LowerBody(u.functions, start, u.functions[b.name].parameters, b.block);
    && r.Some? && u'.blocks[b.name] == r.value.blocks
  }

  // A body adds blocks and nothing else.
  ghost predicate BodyFirst(u: UnitGen, u1: UnitGen, b: Item)
    requires UnitWF(u) && UnitWF(u1) && b.BodyItem?
  {
    && u1.functions == u.functions && u1.gen.vars == u.gen.vars && u1.gen.scopes == u.gen.scopes && u1.initial == u.initial
    && (forall n :: n in u.blocks ==> n in u1.blocks && u1.blocks[n] == u.blocks[n])
    && BodyDone(u, u1, u.gen.(blocks := []), b)
  }

  lemma {:induction false} WalkBody(u: UnitGen, bodies: seq<Item>)
    requires UnitWF(u) && AllCells(u.gen) && OneBodyEach(bodies) && LowerItems(u, bodies).Some? && bodies != []
    requires forall i :: 0 <= i < |bodies| ==> bodies[i].name !in u.blocks
    ensures bodies[0].BodyItem? && LowerItem(u, bodies[0]).Some?
    ensures var u1, rest := LowerItem(u, bodies[0]).value, bodies[1..];
            && BodyFirst(u, u1, bodies[0]) && AllCells(u1.gen) && OneBodyEach(rest) && LowerItems(u1, rest) == LowerItems(u, bodies)
            && forall i :: 0 <= i < |rest| ==> rest[i].name !in u1.blocks
  {
    var u1 := LowerItem(u, bodies[0]).value;
    forall i | 0 <= i < |bodies[1..]| ensures bodies[1..][i].name !in u1.blocks {
      assert bodies[1..][i] == bodies[i + 1];
    }
  }

  lemma {:induction false} BodiesWalk(u: UnitGen, bodies: seq<Item>) returns (starts: map<string, Gen>)
    requires UnitWF(u) && AllCells(u.gen) && OneBodyEach(bodies) && LowerItems(u, bodies).Some?
    requires forall i :: 0 <= i < |bodies| ==> bodies[i].name !in u.blocks
    ensures var u' := LowerItems(u, bodies).value;
            && (forall n :: n in u.blocks ==> n in u'.blocks && u'.blocks[n] == u.blocks[n])
            && (forall i :: 0 <= i < |bodies| ==> bodies[i].name in starts && BodyDone(u, u', starts[bodies[i].name], bodies[i]))
            && u'.initial == u.initial
    decreases |bodies|
  {
    if bodies == [] {
      starts := map[];
    } else {
      hide AllCells, LowerItem, LowerItems, LowerBody, UnitWF;
      var b, u1, u' := bodies[0], LowerItem(u, bodies[0]).value, LowerItems(u, bodies).value;
      WalkBody(u, bodies);
      var others := BodiesWalk(u1, bodies[1..]);
      starts := others[b.name := u.gen.(blocks := [])];
      forall i | 0 <= i < |bodies|
        ensures bodies[i].name in starts && BodyDone(u, u', starts[bodies[i].name], bodies[i])
      {
        if i > 0 {
          assert bodies[i] == bodies[1..][i - 1];
          assert BodyDone(u1, u', others[bodies[i].name], bodies[i]);
        }
      }
    }
  }

  lemma {:induction false} BodiesOfAt(bodies: seq<Item>, n: string) returns (i: nat)
    requires n in BodiesOf(bodies)
    ensures i < |bodies| && bodies[i].BodyItem? && bodies[i].name == n && bodies[i].block == BodiesOf(bodies)[n]
    decreases |bodies|
  {
    if bodies[0].BodyItem? && bodies[0].name == n {
      i := 0;
    } else {
      i := BodiesOfAt(bodies[1..], n);
      i := i + 1;
    }
  }

  lemma {:induction false} NameAt(ps: seq<Variable>, base: nat, n: string)
    requires n in ParameterNames(ps, base)
    ensures ps[ParameterNames(ps, base)[n] - base].name == n
    decreases |ps|
  {
    if n != ps[0].name {
      NameAt(ps[1..], base + 1, n);
    }
  }

  lemma {:induction false} IndexOf(ps: seq<Variable>, base: nat, i: nat)
    requires Distinct(ps) && i < |ps|
    ensures ps[i].name in ParameterNames(ps, base) && ParameterNames(ps, base)[ps[i].name] == base + i
    decreases |ps|
  {
    if i > 0 {
      assert ps[0].name != ps[i].name && ps[1..][i - 1] == ps[i];
      assert Distinct(ps[1..]);
      IndexOf(ps[1..], base + 1, i - 1);
    }
  }

  lemma {:induction false} NamesDistinct(gs: seq<Variable>)
    requires Distinct(gs)
    ensures var names := ParameterNames(gs, 0); forall a, b :: a in names && b in names && names[a] == names[b] ==> a == b
  {
    var names := ParameterNames(gs, 0);
    forall a, b | a in names && b in names && names[a] == names[b] ensures a == b {
      NameAt(gs, 0, a);
      NameAt(gs, 0, b);
    }
  }

  lemma {:induction false} GlobalsScope(declarations: seq<Item>, u: UnitGen)
    requires Walked(EMPTY_UNIT, declarations, u)
    ensures u.gen.scopes == [ParameterNames(GlobalsOf(declarations), 0)] && |u.gen.vars| == |GlobalsOf(declarations)|
  {
    var names := ParameterNames(GlobalsOf(declarations), 0);
    assert names + map[] == names;
  }

  lemma {:induction false} GlobalSlot(declarations: seq<Item>, u: UnitGen, k: nat)
    requires Walked(EMPTY_UNIT, declarations, u) && Distinct(GlobalsOf(declarations)) && k < |u.gen.vars|
    ensures |u.gen.vars| == |GlobalsOf(declarations)|
    ensures var names, name := ParameterNames(GlobalsOf(declarations), 0), GlobalsOf(declarations)[k].name;
            u.gen.vars[k] == Slot(Global(name), I32, true, 0) && name in names && names[name] == k
  {
    var gs := GlobalsOf(declarations);
    IndexOf(gs, 0, k);
    assert gs[k] == gs[k - |EMPTY_UNIT.gen.vars|];
  }

  lemma {:induction false} GlobalsReady(declarations: seq<Item>, bodies: seq<Item>, u: UnitGen, start: Gen)
    requires Walked(EMPTY_UNIT, declarations, u) && UnitWF(u) && Distinct(GlobalsOf(declarations))
    requires start.blocks == [] && start.vars == u.gen.vars && start.scopes == u.gen.scopes
    ensures GlobalsKnown(ProgramOf(declarations, bodies), start) && GlobalsDistinct(ProgramOf(declarations, bodies))
    ensures start.scopes == [ProgramOf(declarations, bodies).globals] && |start.vars| == |GlobalsOf(declarations)|
  {
    hide Walked, GlobalsOf, ParameterNames, Distinct, UnitWF, SignaturesOf, BodiesOf;
    var gs, P := GlobalsOf(declarations), ProgramOf(declarations, bodies);
    GlobalsScope(declarations, u);
    forall k | 0 <= k < |start.vars|
      ensures start.vars[k] == Slot(Global(gs[k].name), I32, true, 0) && gs[k].name in P.globals && P.globals[gs[k].name] == k
    {
      GlobalSlot(declarations, u, k);
    }
    forall n | n in P.globals ensures start.vars[P.globals[n]].variable == Global(n) {
      NameAt(gs, 0, n);
    }
    NamesDistinct(gs);
  }

  // A unit becomes a module that holds the lowered functions of its program.
  lemma {:induction false} UnitLowered(declarations: seq<Item>, bodies: seq<Item>) returns (starts: map<string, Gen>)
    requires NoBodies(declarations) && OneBodyEach(bodies) && UnitExact(declarations, bodies)
    requires LowerItems(EMPTY_UNIT, declarations + bodies).Some?
    ensures var P, u := ProgramOf(declarations, bodies), LowerItems(EMPTY_UNIT, declarations + bodies).value;
            && GlobalsDistinct(P) && u.initial == InitialsOf(declarations)
            && (forall n :: FunctionLowered(P, ModuleOf(declarations, u), starts, n))
            && (forall n :: n in P.functions ==> n in starts && starts[n].scopes == [P.globals] && |starts[n].vars| == |GlobalsOf(declarations)|)
  {
    hide OneBodyEach, LowerItems;
    var P := ProgramOf(declarations, bodies);
    ItemsAppend(EMPTY_UNIT, declarations, bodies);
    DeclarationsWalk(EMPTY_UNIT, declarations);
    var u1 := LowerItems(EMPTY_UNIT, declarations).value;
    assert u1.functions == P.signatures + map[] == P.signatures;
    starts := BodiesWalk(u1, bodies);
    var u := LowerItems(u1, bodies).value;
    var m := ModuleOf(declarations, u);
    GlobalsReady(declarations, bodies, u1, u1.gen);
    forall n
      ensures FunctionLowered(P, m, starts, n)
      ensures n in P.functions ==> starts[n].scopes == [P.globals] && |starts[n].vars| == |GlobalsOf(declarations)|
    {
      if n in P.functions {
        var i := BodiesOfAt(bodies, n);
        assert BodyDone(u1, u, starts[n], bodies[i]);
        GlobalsReady(declarations, bodies, u1, starts[n]);
      }
    }
  }

  lemma {:induction false} FunctionDominated(P: Program, m: Module, starts: map<string, Gen>, n: string)
    requires Exact(P) && FunctionLowered(P, m, starts, n) && n in P.functions
    ensures CheckBody(starts[n].scopes, |starts[n].vars|, P.functions[n].parameters, P.functions[n].body).Some? <==> Dominated(m.functions[n])
  {
    var d, g := P.functions[n], starts[n];
    assert DefinitionExact(P, n);
    DominanceExact(P.signatures, [GlobalDepths(P.globals)], ParameterDepths(d.parameters), d.typ.pointerDepth, g, d.parameters, d.body);
  }

  // The check on the source text decides SSA form of the whole module.
  lemma {:induction false} UnitSafeExact(declarations: seq<Item>, bodies: seq<Item>)
    requires NoBodies(declarations) && OneBodyEach(bodies) && UnitExact(declarations, bodies)
    requires LowerItems(EMPTY_UNIT, declarations + bodies).Some?
    ensures UnitSafe(declarations, bodies) <==> UnitDominated(declarations, bodies)
  {
    var P, u := ProgramOf(declarations, bodies), LowerItems(EMPTY_UNIT, declarations + bodies).value;
    var starts := UnitLowered(declarations, bodies);
    var m := ModuleOf(declarations, u);
    forall n | n in P.functions
      ensures n in u.blocks
      ensures CheckBody([P.globals], |GlobalsOf(declarations)|, P.functions[n].parameters, P.functions[n].body).Some? <==> Dominated(u.blocks[n])
    {
      assert FunctionLowered(P, m, starts, n);
      FunctionDominated(P, m, starts, n);
    }
  }

  lemma {:induction false} UnitCompiled(declarations: seq<Item>, bodies: seq<Item>) returns (starts: map<string, Gen>)
    requires NoBodies(declarations) && OneBodyEach(bodies) && UnitExact(declarations, bodies) && UnitDominated(declarations, bodies)
    ensures var u := LowerItems(EMPTY_UNIT, declarations + bodies).value;
            && Compiled(ProgramOf(declarations, bodies), ModuleOf(declarations, u), starts)
            && u.initial == InitialsOf(declarations)
  {
    var P, u := ProgramOf(declarations, bodies), LowerItems(EMPTY_UNIT, declarations + bodies).value;
    var m := ModuleOf(declarations, u);
    starts := UnitLowered(declarations, bodies);
    UnitSafeExact(declarations, bodies);
    forall n ensures FunctionCompiled(P, m, starts, n) {
      assert FunctionLowered(P, m, starts, n);
    }
  }
}
