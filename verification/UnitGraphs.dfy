/**
  The graphs of an accepted unit: the analyzer's rule for the end of a function
  is what closes them.
 */
module UnitGraphs {
  import opened Wrappers
  import opened Ast
  import opened Ir
  import opened Lowering
  import opened Items
  import opened Units
  import opened Analysis
  import opened Lockstep
  import opened Frontend
  import opened Acceptance
  import opened Graph

  ghost predicate Sound(B: seq<BasicBlock>, b: Block) {
    |B| == 1 + BlocksOfStatements(b.statements) && exists order :: WellFormed(B, order)
  }

  // The emitted functions are those of the bodies, each a well-formed graph.
  ghost predicate AllSound(u: UnitGen, bodies: seq<Item>) {
    && (forall n :: n in u.blocks ==> exists i :: 0 <= i < |bodies| && NamesIt(bodies[i], n))
    && forall i :: 0 <= i < |bodies| ==> SoundItem(u, bodies[i])
  }

  ghost predicate NamesIt(i: Item, n: string) { i.BodyItem? && i.name == n }

  ghost predicate SoundItem(u: UnitGen, i: Item) {
    i.BodyItem? && i.name in u.blocks && Sound(u.blocks[i.name], i.block)
  }

  ghost predicate AllReturn(bodies: seq<Item>) {
    forall i :: 0 <= i < |bodies| ==> bodies[i].BodyItem? && bodies[i].block.returnValue.Some?
  }

  // A function of a type that can be returned ends in a return.
  lemma {:induction false} BodyReturns(F: Signatures, globals: map<string, Type>, s: Signature, raw: Block, b: Block)
    requires AnnotateBody(F, globals, s, raw) == Some(b) && Readable(s.typ)
    ensures b.returnValue.Some?
  {
    assert s.typ != NO_TYPE;
    assert ReturnAllowed(s.typ, true, b.returnValue);
  }

  lemma {:induction false} BodiesReturn(F: Signatures, globals: map<string, Type>, sources: seq<Source>)
    requires AnnotateBodies(F, globals, sources).Some? && forall i :: 0 <= i < |sources| ==> PlainSource(sources[i])
    ensures AllReturn(AnnotateBodies(F, globals, sources).value)
    decreases |sources|
  {
    if sources != [] {
      BodiesReturn(F, globals, sources[1..]);
      assert PlainSource(sources[0]);
      if sources[0].FunctionSource? && sources[0].body.Some? {
        BodyReturns(F, globals, sources[0].signature, sources[0].body.value,
                    AnnotateBody(F, globals, sources[0].signature, sources[0].body.value).value);
      }
    }
  }

  // One body, added to the functions of the unit.
  lemma {:induction false} BodyAdded(u: UnitGen, done: seq<Item>, i: Item)
    requires UnitWF(u) && AllSound(u, done) && i.BodyItem? && i.block.returnValue.Some? && LowerItem(u, i).Some?
    requires forall j :: 0 <= j < |done| ==> !NamesIt(done[j], i.name)
    ensures AllSound(LowerItem(u, i).value, done + [i])
  {
    hide WellFormed, ScopesIn, BlocksOfStatements, WF;
    var u', bodies := LowerItem(u, i).value, done + [i];
    assert i.name !in u.blocks;
    var start := u.gen.(blocks := []);
    var order := BodyWellFormed(u.functions, start, u.functions[i.name].parameters, i.block);
    assert SoundItem(u', i);
    forall n | n in u'.blocks ensures exists j :: 0 <= j < |bodies| && NamesIt(bodies[j], n) {
      if n == i.name {
        assert NamesIt(bodies[|done|], n);
      } else {
        var j :| 0 <= j < |done| && NamesIt(done[j], n);
        assert NamesIt(bodies[j], n);
      }
    }
    forall j | 0 <= j < |bodies| ensures SoundItem(u', bodies[j]) {
      if j < |done| {
        assert SoundItem(u, done[j]);
      }
    }
  }

  lemma {:induction false} NextBody(done: seq<Item>, bodies: seq<Item>)
    requires bodies != [] && OneBodyEach(done + bodies) && AllReturn(bodies)
    ensures AllReturn(bodies[1..]) && bodies[0].BodyItem? && bodies[0].block.returnValue.Some?
    ensures forall j :: 0 <= j < |done| ==> !NamesIt(done[j], bodies[0].name)
  {
    var all := done + bodies;
    assert all[|done|] == bodies[0];
    forall j | 0 <= j < |done| ensures !NamesIt(done[j], bodies[0].name) {
      assert all[j] == done[j];
    }
  }

  lemma {:induction false} BodiesAdded(u: UnitGen, done: seq<Item>, bodies: seq<Item>)
    requires UnitWF(u) && AllSound(u, done) && AllReturn(bodies) && OneBodyEach(done + bodies) && LowerItems(u, bodies).Some?
    ensures AllSound(LowerItems(u, bodies).value, done + bodies)
    decreases |bodies|
  {
    hide AllReturn, OneBodyEach, AllSound, NamesIt, LowerItem, UnitWF;
    if bodies == [] {
      assert done + bodies == done;
    } else {
      var i, rest := bodies[0], bodies[1..];
      assert done + bodies == done + [i] + rest;
      NextBody(done, bodies);
      BodyAdded(u, done, i);
      BodiesAdded(LowerItem(u, i).value, done + [i], rest);
    }
  }

  lemma {:induction false} DeclarationsAddNone(u: UnitGen, items: seq<Item>)
    requires UnitWF(u) && LowerItems(u, items).Some? && forall i :: i in items ==> !i.BodyItem?
    ensures LowerItems(u, items).value.blocks == u.blocks
    decreases |items|
  {
    if items != [] {
      assert items[0] in items;
      DeclarationsAddNone(LowerItem(u, items[0]).value, items[1..]);
    }
  }

  // Every function of an accepted unit is emitted, and its graph is well-formed.
  lemma {:induction false} AcceptedGraphs(sources: seq<Source>, declarations: seq<Item>, bodies: seq<Item>)
    requires Analyze(sources) == Some((declarations, bodies))
    requires (forall i :: 0 <= i < |sources| ==> PlainSource(sources[i])) && PlainBodies(bodies)
    ensures LowerItems(EMPTY_UNIT, declarations + bodies).Some?
    ensures AllSound(LowerItems(EMPTY_UNIT, declarations + bodies).value, bodies)
  {
    AcceptedLowers(sources, declarations, bodies);
    ItemsAppend(EMPTY_UNIT, declarations, bodies);
    var k := Register(Known(map[], map[]), sources).value;
    var u := LowerItems(EMPTY_UNIT, declarations).value;
    forall i | i in declarations ensures !i.BodyItem? {
      var j :| 0 <= j < |declarations| && declarations[j] == i;
      assert i == DeclarationItem(sources[j]);
    }
    DeclarationsAddNone(EMPTY_UNIT, declarations);
    BodiesReturn(SignaturesKnown(k), k.globals, sources);
    BodiesOnce(Known(map[], map[]), SignaturesKnown(k), k.globals, sources);
    assert [] + bodies == bodies;
    BodiesAdded(u, [], bodies);
  }
}
