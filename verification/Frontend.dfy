/**
  From the sources of a unit to its module: whatever the analyzer accepts, the
  generator lowers without a lookup that misses.
 */
module Frontend {
  import opened Wrappers
  import opened Ast
  import opened Ir
  import opened Lowering
  import opened Items
  import opened Analysis
  import opened Registration
  import opened Lockstep

  // ----- registration -----

  function FunctionsOf(sources: seq<Source>): seq<Named>
    decreases |sources|
  {
    if sources == [] then []
    else (if sources[0].FunctionSource? then [Named(sources[0].name, EntryOf(sources[0]))] else []) + FunctionsOf(sources[1..])
  }

  lemma {:induction false} RegisterFunctions(k: Known, sources: seq<Source>)
    requires Register(k, sources).Some?
    ensures AddAll(k.functions, FunctionsOf(sources)) == Some(Register(k, sources).value.functions)
    decreases |sources|
  {
    if sources != [] {
      var k1 := RegisterOne(k, sources[0]).value;
      RegisterFunctions(k1, sources[1..]);
      var rest := FunctionsOf(sources[1..]);
      if sources[0].FunctionSource? {
        assert FunctionsOf(sources) == [Named(sources[0].name, EntryOf(sources[0]))] + rest;
        assert FunctionsOf(sources)[1..] == rest;
      } else {
        assert FunctionsOf(sources) == rest;
      }
    }
  }

  function GlobalNames(sources: seq<Source>): seq<string>
    decreases |sources|
  {
    if sources == [] then []
    else (if sources[0].GlobalSource? then [sources[0].variable.name] else []) + GlobalNames(sources[1..])
  }

  ghost predicate NewNames(known: set<string>, names: seq<string>) {
    && (forall i :: 0 <= i < |names| ==> names[i] !in known)
    && forall i, j :: 0 <= i < j < |names| ==> names[i] != names[j]
  }

  lemma {:induction false} NewNamesCons(known: set<string>, name: string, names: seq<string>)
    ensures NewNames(known, [name] + names) <==> name !in known && NewNames(known + {name}, names)
  {
    var all := [name] + names;
    if NewNames(known, all) {
      assert all[0] == name;
      forall i | 0 <= i < |names| ensures names[i] !in known + {name} {
        assert all[i + 1] == names[i];
      }
      forall i, j | 0 <= i < j < |names| ensures names[i] != names[j] {
        assert all[i + 1] != all[j + 1];
      }
    }
    if name !in known && NewNames(known + {name}, names) {
      forall i, j | 0 <= i < j < |all| ensures all[i] != all[j] {
        assert all[j] == names[j - 1] && (i > 0 ==> all[i] == names[i - 1]);
      }
    }
  }

  lemma {:induction false} RegisterSplits(k: Known, sources: seq<Source>)
    ensures Register(k, sources).Some?
            <==> NewNames(k.globals.Keys, GlobalNames(sources)) && AddAll(k.functions, FunctionsOf(sources)).Some?
    decreases |sources|
  {
    if sources != [] {
      var s, rest := sources[0], sources[1..];
      var k1 := RegisterOne(k, s);
      if s.GlobalSource? {
        assert GlobalNames(sources) == [s.variable.name] + GlobalNames(rest) && FunctionsOf(sources) == FunctionsOf(rest);
        NewNamesCons(k.globals.Keys, s.variable.name, GlobalNames(rest));
        if k1.Some? {
          assert k1.value.globals.Keys == k.globals.Keys + {s.variable.name};
          RegisterSplits(k1.value, rest);
        }
      } else {
        var x := Named(s.name, EntryOf(s));
        assert GlobalNames(sources) == GlobalNames(rest) && FunctionsOf(sources) == [x] + FunctionsOf(rest) && FunctionsOf(sources)[1..] == FunctionsOf(rest);
        if k1.Some? {
          RegisterSplits(k1.value, rest);
        }
      }
    }
  }

  // What the first pass accepts: global names once each, and functions that
  // agree; the order of the text does not matter.
  lemma {:induction false} RegisterExact(sources: seq<Source>)
    ensures Register(Known(map[], map[]), sources).Some?
            <==> NewNames({}, GlobalNames(sources)) && BagAgrees(multiset(FunctionsOf(sources)))
  {
    RegisterSplits(Known(map[], map[]), sources);
    RegistrationExact(FunctionsOf(sources));
    assert Known(map[], map[]).globals.Keys == {};
  }

  lemma {:induction false} RegisterKeeps(k: Known, sources: seq<Source>)
    requires Register(k, sources).Some?
    ensures var k' := Register(k, sources).value;
            forall n :: n in k.functions ==> n in k'.functions && k'.functions[n] == k.functions[n]
    decreases |sources|
  {
    if sources != [] {
      RegisterKeeps(RegisterOne(k, sources[0]).value, sources[1..]);
    }
  }

  // A definition is the only entry of its name.
  lemma {:induction false} DefinitionKept(k: Known, sources: seq<Source>, i: nat)
    requires Register(k, sources).Some? && i < |sources| && sources[i].FunctionSource? && sources[i].body.Some?
    ensures sources[i].name !in k.functions
    ensures var E := Register(k, sources).value.functions; sources[i].name in E && E[sources[i].name] == EntryOf(sources[i])
    decreases |sources|
  {
    var k1 := RegisterOne(k, sources[0]).value;
    if i == 0 {
      RegisterKeeps(k1, sources[1..]);
    } else {
      DefinitionKept(k1, sources[1..], i - 1);
    }
  }

  lemma {:induction false} DefinedOnce(k: Known, sources: seq<Source>, i: nat, j: nat)
    requires Register(k, sources).Some? && i < j < |sources|
    requires sources[i].FunctionSource? && sources[j].FunctionSource? && sources[j].body.Some?
    ensures sources[i].name != sources[j].name
    decreases |sources|
  {
    var k1 := RegisterOne(k, sources[0]).value;
    if i == 0 {
      DefinitionKept(k1, sources[1..], j - 1);
    } else {
      DefinedOnce(k1, sources[1..], i - 1, j - 1);
    }
  }

  // ----- declarations -----

  predicate PlainSource(s: Source) {
    match s
    case GlobalSource(v, c) => Readable(v.typ) && !v.typ.isPointer && InitialValue(c).Some?
    case FunctionSource(_, signature, _) => Readable(signature.typ) && forall p :: p in signature.parameters ==> Readable(p.typ)
  }

  ghost predicate GlobalCells(g: Gen) {
    forall k :: 0 <= k < |g.vars| ==> g.vars[k].isAlloca
  }

  // Both sides know the same globals and the same functions.
  ghost predicate Matches(k: Known, u: UnitGen) {
    && UnitWF(u) && |u.gen.scopes| == 1 && SameNames(u.gen, u.gen.scopes[0], k.globals) && GlobalCells(u.gen)
    && u.functions == SignaturesKnown(k) && FunctionsReadable(u.functions)
    && forall n :: n in u.functions ==> forall p :: p in u.functions[n].parameters ==> Readable(p.typ)
  }

  lemma {:induction false} StepGlobal(k: Known, u: UnitGen, v: Variable, c: Option<Items.Constant>)
    requires Matches(k, u) && RegisterOne(k, GlobalSource(v, c)).Some? && PlainSource(GlobalSource(v, c))
    ensures LowerGlobal(u, v, c).Some? && Matches(RegisterOne(k, GlobalSource(v, c)).value, LowerGlobal(u, v, c).value)
  {
    var k1, u1 := RegisterOne(k, GlobalSource(v, c)).value, LowerGlobal(u, v, c).value;
    forall n | n in u1.gen.scopes[0] ensures SlotFits(u1.gen.vars[u1.gen.scopes[0][n]], k1.globals[n]) {
      if n != v.name {
        assert SlotFits(u.gen.vars[u.gen.scopes[0][n]], k.globals[n]);
      }
    }
    assert SignaturesKnown(k1) == SignaturesKnown(k);
  }

  lemma {:induction false} StepFunction(k: Known, u: UnitGen, name: string, signature: Signature, body: Option<Block>)
    requires var s := FunctionSource(name, signature, body); Matches(k, u) && RegisterOne(k, s).Some? && PlainSource(s)
    ensures LowerFunction(u, name, signature).Some?
    ensures Matches(RegisterOne(k, FunctionSource(name, signature, body)).value, LowerFunction(u, name, signature).value)
  {
    hide SlotFits;
    var k1, u1 := RegisterOne(k, FunctionSource(name, signature, body)).value, LowerFunction(u, name, signature).value;
    assert u1.functions == SignaturesKnown(k1);
  }

  lemma {:induction false} StepSource(k: Known, u: UnitGen, s: Source)
    requires Matches(k, u) && RegisterOne(k, s).Some? && PlainSource(s)
    ensures LowerItem(u, DeclarationItem(s)).Some? && Matches(RegisterOne(k, s).value, LowerItem(u, DeclarationItem(s)).value)
  {
    hide Matches, RegisterOne, LowerGlobal, LowerFunction, PlainSource;
    match s
    case GlobalSource(v, c) => StepGlobal(k, u, v, c);
    case FunctionSource(name, signature, body) => StepFunction(k, u, name, signature, body);
  }

  lemma {:induction false} StepSources(k: Known, u: UnitGen, sources: seq<Source>)
    requires Matches(k, u) && Register(k, sources).Some? && forall i :: 0 <= i < |sources| ==> PlainSource(sources[i])
    ensures LowerItems(u, DeclarationItems(sources)).Some?
    ensures Matches(Register(k, sources).value, LowerItems(u, DeclarationItems(sources)).value)
    decreases |sources|
  {
    if sources != [] {
      assert DeclarationItems(sources)[1..] == DeclarationItems(sources[1..]);
      StepSource(k, u, sources[0]);
      StepSources(RegisterOne(k, sources[0]).value, LowerItem(u, DeclarationItem(sources[0])).value, sources[1..]);
    }
  }

  // ----- bodies -----

  ghost predicate PlainBodies(bodies: seq<Item>) {
    forall i :: 0 <= i < |bodies| ==> bodies[i].BodyItem? && PlainBlock(bodies[i].block)
  }

  // The declarations that the bodies were read under.
  ghost predicate Signed(F: Signatures, sources: seq<Source>) {
    forall i :: 0 <= i < |sources| && sources[i].FunctionSource? && sources[i].body.Some? ==>
      sources[i].name in F && F[sources[i].name] == sources[i].signature
  }

  lemma {:induction false} StepBodies(k: Known, u: UnitGen, sources: seq<Source>, bodies: seq<Item>)
    requires Matches(k, u) && Signed(u.functions, sources)
    requires AnnotateBodies(u.functions, k.globals, sources) == Some(bodies) && PlainBodies(bodies)
    ensures LowerItems(u, bodies).Some?
    decreases |sources|
  {
    hide PlainBlock, SignaturesKnown, FunctionsReadable, Value.Type, SlotFits, LowerBody;
    if sources != [] {
      var s := sources[0];
      if s.FunctionSource? && s.body.Some? {
        var b, others := AnnotateBody(u.functions, k.globals, s.signature, s.body.value).value, AnnotateBodies(u.functions, k.globals, sources[1..]).value;
        assert bodies == [BodyItem(s.name, b)] + others && bodies[0] == BodyItem(s.name, b) && bodies[1..] == others;
        var start := u.gen.(blocks := if s.name in u.blocks then u.blocks[s.name] else []);
        assert InStep([k.globals], start) by { assert SameNames(start, start.scopes[0], k.globals); }
        StepBody(u.functions, k.globals, start, s.signature, s.body.value, b);
        var u1 := LowerItem(u, bodies[0]).value;
        assert u1.gen.vars == u.gen.vars && u1.gen.scopes == u.gen.scopes;
        assert Matches(k, u1) by { assert SameNames(u1.gen, u1.gen.scopes[0], k.globals); }
        forall i | 0 <= i < |others| ensures others[i].BodyItem? && PlainBlock(others[i].block) {
          assert others[i] == bodies[i + 1];
        }
        StepBodies(k, u1, sources[1..], others);
      } else {
        StepBodies(k, u, sources[1..], bodies);
      }
    }
  }

  lemma {:induction false} SignedBodies(sources: seq<Source>)
    requires Register(Known(map[], map[]), sources).Some?
    ensures Signed(SignaturesKnown(Register(Known(map[], map[]), sources).value), sources)
  {
    forall i | 0 <= i < |sources| && sources[i].FunctionSource? && sources[i].body.Some?
      ensures var F := SignaturesKnown(Register(Known(map[], map[]), sources).value);
              sources[i].name in F && F[sources[i].name] == sources[i].signature
    {
      DefinitionKept(Known(map[], map[]), sources, i);
    }
  }

  // No lookup of the generator misses: a name or a function, declared before
  // or after the body that uses it.
  lemma {:induction false} AcceptedLowers(sources: seq<Source>, declarations: seq<Item>, bodies: seq<Item>)
    requires Analyze(sources) == Some((declarations, bodies))
    requires (forall i :: 0 <= i < |sources| ==> PlainSource(sources[i])) && PlainBodies(bodies)
    ensures LowerItems(EMPTY_UNIT, declarations + bodies).Some?
  {
    var k0 := Known(map[], map[]);
    var k := Register(k0, sources).value;
    assert Matches(k0, EMPTY_UNIT) by {
      assert SignaturesKnown(k0) == map[];
    }
    StepSources(k0, EMPTY_UNIT, sources);
    var u := LowerItems(EMPTY_UNIT, declarations).value;
    SignedBodies(sources);
    StepBodies(k, u, sources, bodies);
    ItemsAppend(EMPTY_UNIT, declarations, bodies);
  }
}
