/**
  The analyzer accepts every depth-exact unit, and what it writes into the tree
  is what the correctness theorem of the generator asks for.
 */
module Acceptance {
  import opened Wrappers
  import opened Ast
  import opened Ir
  import opened Lowering
  import opened Items
  import opened Semantics
  import opened DepthExact
  import opened Analysis
  import opened Registration
  import opened Lockstep
  import opened Frontend
  import opened Units

  function IntAt(depth: nat): Type { Type(Int, depth > 0, depth) }

  ghost predicate SameDepths(names: map<string, nat>, types: map<string, Type>) {
    names.Keys == types.Keys && forall n :: n in names ==> types[n] == IntAt(names[n])
  }

  ghost predicate Depthwise(D: Depths, T: Types) {
    |D| == |T| && forall i :: 0 <= i < |D| ==> SameDepths(D[i], T[i])
  }

  ghost predicate IntSignatures(F: Signatures) {
    forall n :: n in F ==> IntTyped(F[n].typ) && forall p :: p in F[n].parameters ==> IntTyped(p.typ)
  }

  lemma {:induction false} DepthLookup(D: Depths, T: Types, name: string)
    requires Depthwise(D, T)
    ensures var d, t := LookupIn<nat>(D, name), LookupIn<Type>(T, name);
            t == if d.Some? then Some(IntAt(d.value)) else None
    decreases |D|
  {
    if D != [] {
      assert SameDepths(D[0], T[0]);
      if name !in D[0] {
        forall i | 0 <= i < |D[1..]| ensures SameDepths(D[1..][i], T[1..][i]) {
          assert SameDepths(D[i + 1], T[i + 1]);
        }
        DepthLookup(D[1..], T[1..], name);
      }
    }
  }

  function TypeOfTotal(total: Option<nat>): Option<Type> {
    if total.Some? then Some(IntAt(total.value)) else None
  }

  // ----- expressions -----

  ghost predicate UnitAccepted(F: Signatures, D: Depths, T: Types, total: Option<nat>, d: nat, r: Option<Unit>) {
    && r.Some? && DepthOfUnit(F, D, total, r.value) == Some(d) && UnitType(F, T, TypeOfTotal(total), r.value) == Some(IntAt(d))
    && PlainUnit(r.value)
  }

  lemma {:induction false} AcceptUnit(F: Signatures, D: Depths, T: Types, total: Option<nat>, u: Unit)
    requires IntSignatures(F) && Depthwise(D, T) && DepthOfUnit(F, D, total, u).Some?
    ensures UnitAccepted(F, D, T, total, DepthOfUnit(F, D, total, u).value, AnnotateUnit(F, T, u))
    decreases u, 2
  {
    match u.operand
    case IntegerLiteral(_) =>
    case StringLiteral(_) =>
    case Identifier(name, indirection, steps) =>
      DepthLookup(D, T, name);
    case CallOperand(call) =>
      AcceptCall(F, D, T, call);
  }

  ghost predicate CallAccepted(F: Signatures, D: Depths, call: Call, r: Option<Call>) {
    r.Some? && DepthOfCall(F, D, r.value) == DepthOfCall(F, D, call) && PlainCall(r.value)
  }

  lemma {:induction false} AcceptCall(F: Signatures, D: Depths, T: Types, call: Call)
    requires IntSignatures(F) && Depthwise(D, T) && DepthOfCall(F, D, call).Some?
    ensures CallAccepted(F, D, call, AnnotateCall(F, T, call))
    decreases call, 1
  {
    var ps := F[call.name].parameters;
    AcceptArguments(F, D, T, ps, call.parameters);
    var es := AnnotateArguments(F, T, call.parameters).value;
    forall i | 0 <= i < |es| ensures es[i].evaluatedType == ps[i].typ {
      assert ps[i] in ps;
    }
  }

  lemma {:induction false} AcceptArguments(F: Signatures, D: Depths, T: Types, ps: seq<Variable>, es: seq<Expression>)
    requires IntSignatures(F) && Depthwise(D, T) && ArgumentsFit(F, D, ps, es)
    ensures AnnotateArguments(F, T, es).Some?
    ensures var r := AnnotateArguments(F, T, es).value;
            && ArgumentsFit(F, D, ps, r) && PlainArguments(r) && |r| == |ps|
            && forall i :: 0 <= i < |r| ==> r[i].evaluatedType == IntAt(ps[i].typ.pointerDepth)
    decreases es, 0
  {
    if es != [] {
      AcceptExpression(F, D, T, es[0]);
      AcceptArguments(F, D, T, ps[1..], es[1..]);
      var e, others := AnnotateExpression(F, T, es[0]).value, AnnotateArguments(F, T, es[1..]).value;
      var r := [e] + others;
      assert r[0] == e && r[1..] == others;
      forall i | 0 <= i < |r| ensures r[i].evaluatedType == IntAt(ps[i].typ.pointerDepth) {
        if i > 0 {
          assert r[i] == others[i - 1] && ps[1..][i - 1] == ps[i];
        }
      }
    }
  }

  ghost predicate UnitsAccepted(F: Signatures, D: Depths, T: Types, total: Option<nat>, d: Option<nat>, r: Option<seq<Unit>>) {
    && r.Some? && DepthOfUnits(F, D, total, r.value) == d && UnitsType(F, T, TypeOfTotal(total), r.value) == TypeOfTotal(d)
    && PlainUnits(r.value)
  }

  lemma {:induction false} AcceptUnits(F: Signatures, D: Depths, T: Types, total: Option<nat>, us: seq<Unit>)
    requires IntSignatures(F) && Depthwise(D, T) && DepthOfUnits(F, D, total, us).Some?
    ensures UnitsAccepted(F, D, T, total, DepthOfUnits(F, D, total, us), AnnotateUnits(F, T, us))
    decreases us, 0
  {
    if us != [] {
      AcceptUnit(F, D, T, total, us[0]);
      var d := DepthOfUnit(F, D, total, us[0]).value;
      AcceptUnits(F, D, T, Some(d), us[1..]);
      var u, others := AnnotateUnit(F, T, us[0]).value, AnnotateUnits(F, T, us[1..]).value;
      var r := [u] + others;
      assert r[0] == u && r[1..] == others;
    }
  }

  ghost predicate ExpressionAccepted(F: Signatures, D: Depths, d: Option<nat>, r: Option<Expression>) {
    && r.Some? && DepthOfExpression(F, D, r.value) == d && d.Some? && r.value.evaluatedType == IntAt(d.value) && PlainExpression(r.value)
  }

  lemma {:induction false} AcceptExpression(F: Signatures, D: Depths, T: Types, e: Expression)
    requires IntSignatures(F) && Depthwise(D, T) && DepthOfExpression(F, D, e).Some?
    ensures ExpressionAccepted(F, D, DepthOfExpression(F, D, e), AnnotateExpression(F, T, e))
    decreases e, 1
  {
    AcceptUnits(F, D, T, None, e.units);
  }

  // ----- statements -----

  lemma {:induction false} AcceptAssignment(F: Signatures, D: Depths, T: Types, target: string, steps: nat, e: Expression)
    requires IntSignatures(F) && Depthwise(D, T) && AssignmentFits(F, D, target, steps, e)
    ensures var r := AnnotateAssignment(F, T, target, steps, e);
            && r.Some? && r.value.Assignment? && AssignmentFits(F, D, r.value.target, r.value.steps, r.value.expression) && PlainStatement(r.value)
  {
    DepthLookup(D, T, target);
    AcceptExpression(F, D, T, e);
    var x := AnnotateExpression(F, T, e).value;
    var r := AnnotateAssignment(F, T, target, steps, e).value;
    assert DepthOfExpression(F, D, r.expression) == DepthOfExpression(F, D, x);
  }

  ghost predicate StatementAccepted(F: Signatures, D': Depths, D: Depths, ret: nat, r: Option<(Statement, Types)>) {
    && r.Some? && DepthStatement(F, D, ret, r.value.0) == Some(D') && Depthwise(D', r.value.1) && PlainStatement(r.value.0)
  }

  lemma {:induction false} AcceptStatement(F: Signatures, D: Depths, T: Types, ret: nat, s: Statement)
    requires IntSignatures(F) && Depthwise(D, T) && DepthStatement(F, D, ret, s).Some?
    ensures StatementAccepted(F, DepthStatement(F, D, ret, s).value, D, ret, AnnotateStatement(F, T, IntAt(ret), s))
    decreases s, 1
  {
    match s
    case Declaration(v) =>
      var D', T' := Declare(D, v.name, v.typ.pointerDepth), Declare(T, v.name, v.typ);
      assert SameDepths(D[0], T[0]);
      forall i | 0 <= i < |D'| ensures SameDepths(D'[i], T'[i]) {
        assert SameDepths(D[i], T[i]);
      }
    case Assignment(target, steps, e) => AcceptAssignment(F, D, T, target, steps, e);
    case CallStatement(call) => AcceptCall(F, D, T, call);
    case Conditional(chain) => AcceptChain(F, D, T, ret, chain);
  }

  ghost predicate StatementsAccepted(F: Signatures, D': Depths, D: Depths, ret: nat, r: Option<(seq<Statement>, Types)>) {
    && r.Some? && DepthStatements(F, D, ret, r.value.0) == Some(D') && Depthwise(D', r.value.1) && PlainStatements(r.value.0)
  }

  lemma {:induction false} AcceptStatements(F: Signatures, D: Depths, T: Types, ret: nat, ss: seq<Statement>)
    requires IntSignatures(F) && Depthwise(D, T) && DepthStatements(F, D, ret, ss).Some?
    ensures StatementsAccepted(F, DepthStatements(F, D, ret, ss).value, D, ret, AnnotateStatements(F, T, IntAt(ret), ss))
    decreases ss, 0
  {
    if ss != [] {
      AcceptStatement(F, D, T, ret, ss[0]);
      var D1 := DepthStatement(F, D, ret, ss[0]).value;
      var (s, T1) := AnnotateStatement(F, T, IntAt(ret), ss[0]).value;
      AcceptStatements(F, D1, T1, ret, ss[1..]);
      var (others, T2) := AnnotateStatements(F, T1, IntAt(ret), ss[1..]).value;
      var r := [s] + others;
      assert r[0] == s && r[1..] == others;
    }
  }

  lemma {:induction false} AcceptChain(F: Signatures, D: Depths, T: Types, ret: nat, chain: seq<Branch>)
    requires IntSignatures(F) && Depthwise(D, T) && ChainFits(F, D, ret, chain)
    ensures var r := AnnotateChain(F, T, IntAt(ret), chain); r.Some? && ChainFits(F, D, ret, r.value) && PlainChain(r.value)
    decreases chain, 0
  {
    if chain != [] {
      AcceptBranch(F, D, T, ret, chain[0]);
      AcceptChain(F, D, T, ret, chain[1..]);
      var b, others := AnnotateBranch(F, T, IntAt(ret), chain[0]).value, AnnotateChain(F, T, IntAt(ret), chain[1..]).value;
      var r := [b] + others;
      assert r[0] == b && r[1..] == others;
    }
  }

  lemma {:induction false} AcceptBranch(F: Signatures, D: Depths, T: Types, ret: nat, b: Branch)
    requires IntSignatures(F) && Depthwise(D, T) && BranchFits(F, D, ret, b)
    ensures var r := AnnotateBranch(F, T, IntAt(ret), b); r.Some? && BranchFits(F, D, ret, r.value) && PlainBranch(r.value)
    decreases b, 2
  {
    if b.condition.Some? {
      AcceptExpression(F, D, T, b.condition.value);
    }
    assert SameDepths(map[], map[]);
    AcceptBlock(F, D, T, map[], map[], ret, false, b.block);
  }

  ghost predicate BlockAccepted(F: Signatures, D: Depths, names: map<string, nat>, ret: nat, b: Block, r: Option<Block>) {
    r.Some? && BlockFits(F, D, names, ret, r.value) && PlainBlock(r.value) && r.value.returnValue.Some? == b.returnValue.Some?
  }

  lemma {:induction false} AcceptBlock(F: Signatures, D: Depths, T: Types, names: map<string, nat>, types: map<string, Type>, ret: nat, isFunction: bool,
                                       b: Block)
    requires IntSignatures(F) && Depthwise(D, T) && SameDepths(names, types) && BlockFits(F, D, names, ret, b)
    requires isFunction ==> b.returnValue.Some?
    ensures BlockAccepted(F, D, names, ret, b, AnnotateBlock(F, T, types, IntAt(ret), isFunction, b))
    decreases b, 1
  {
    var D0, T0 := [names] + D, [types] + T;
    assert Depthwise(D0, T0) by {
      forall i | 0 <= i < |D0| ensures SameDepths(D0[i], T0[i]) {
        assert i > 0 ==> SameDepths(D[i - 1], T[i - 1]);
      }
    }
    AcceptStatements(F, D0, T0, ret, b.statements);
    var D1 := DepthStatements(F, D0, ret, b.statements).value;
    var (ss, T1) := AnnotateStatements(F, T0, IntAt(ret), b.statements).value;
    if b.returnValue.Some? {
      AcceptExpression(F, D1, T1, b.returnValue.value);
    }
  }

  // ----- units -----

  ghost predicate SourceExact(F: Signatures, globals: map<string, nat>, s: Source) {
    match s
    case GlobalSource(v, c) => v.typ == Type(Int, false, 0) && InitialValue(c).Some?
    case FunctionSource(name, signature, body) =>
      && IntTyped(signature.typ) && (forall p :: p in signature.parameters ==> IntTyped(p.typ))
      && (body.Some? ==> DefinitionFits(F, globals, Definition(signature.parameters, signature.typ, body.value)))
  }

  function SourceSignatures(sources: seq<Source>): Signatures { SignaturesOf(DeclarationItems(sources)) }

  function SourceGlobals(sources: seq<Source>): map<string, nat> { ParameterNames(GlobalsOf(DeclarationItems(sources)), 0) }

  // Depth-exact source text: before the analyzer has seen it.
  ghost predicate ExactSources(sources: seq<Source>) {
    && NewNames({}, GlobalNames(sources)) && BagAgrees(multiset(FunctionsOf(sources)))
    && forall i :: 0 <= i < |sources| ==> SourceExact(SourceSignatures(sources), SourceGlobals(sources), sources[i])
  }

  lemma {:induction false} RegisteredSignatures(k: Known, sources: seq<Source>)
    requires Register(k, sources).Some?
    ensures SignaturesKnown(Register(k, sources).value) == SignaturesOf(DeclarationItems(sources)) + SignaturesKnown(k)
    decreases |sources|
  {
    if sources == [] {
      assert map[] + SignaturesKnown(k) == SignaturesKnown(k);
    } else {
      var s, k1 := sources[0], RegisterOne(k, sources[0]).value;
      assert DeclarationItems(sources)[1..] == DeclarationItems(sources[1..]);
      RegisteredSignatures(k1, sources[1..]);
      var later := SignaturesOf(DeclarationItems(sources[1..]));
      if s.FunctionSource? {
        assert SignaturesKnown(k1) == if s.name in SignaturesKnown(k) then SignaturesKnown(k) else SignaturesKnown(k)[s.name := s.signature];
        FirstWins(later, SignaturesKnown(k), s.name, s.signature);
      } else {
        assert SignaturesKnown(k1) == SignaturesKnown(k);
      }
    }
  }

  lemma {:induction false} RegisteredGlobals(k: Known, sources: seq<Source>)
    requires Register(k, sources).Some?
    requires forall i :: 0 <= i < |sources| && sources[i].GlobalSource? ==> sources[i].variable.typ == Type(Int, false, 0)
    requires forall n :: n in k.globals ==> k.globals[n] == Type(Int, false, 0)
    ensures var k' := Register(k, sources).value;
            && k'.globals.Keys == k.globals.Keys + ParameterNames(GlobalsOf(DeclarationItems(sources)), 0).Keys
            && forall n :: n in k'.globals ==> k'.globals[n] == Type(Int, false, 0)
    decreases |sources|
  {
    if sources != [] {
      var s, k1 := sources[0], RegisterOne(k, sources[0]).value;
      assert DeclarationItems(sources)[1..] == DeclarationItems(sources[1..]);
      RegisteredGlobals(k1, sources[1..]);
      var later := GlobalsOf(DeclarationItems(sources[1..]));
      if s.GlobalSource? {
        assert GlobalsOf(DeclarationItems(sources)) == [s.variable] + later && ([s.variable] + later)[1..] == later;
        ParameterNamesShift(later, 1);
      } else {
        assert GlobalsOf(DeclarationItems(sources)) == later;
      }
    }
  }

  lemma {:induction false} GlobalNamesOf(sources: seq<Source>)
    ensures |GlobalNames(sources)| == |GlobalsOf(DeclarationItems(sources))|
    ensures forall i :: 0 <= i < |GlobalNames(sources)| ==> GlobalNames(sources)[i] == GlobalsOf(DeclarationItems(sources))[i].name
    ensures (forall j :: 0 <= j < |sources| && sources[j].GlobalSource? ==> sources[j].variable.typ == Type(Int, false, 0)) ==>
              forall v :: v in GlobalsOf(DeclarationItems(sources)) ==> v.typ == Type(Int, false, 0)
    decreases |sources|
  {
    if sources != [] {
      assert DeclarationItems(sources)[1..] == DeclarationItems(sources[1..]);
      GlobalNamesOf(sources[1..]);
    }
  }

  lemma {:induction false} ParameterTypeNamed(ps: seq<Variable>, n: string) returns (j: nat)
    requires ParameterTypes(ps).Some? && n in ParameterTypes(ps).value
    ensures j < |ps| && ps[j].name == n && ps[j].typ == ParameterTypes(ps).value[n]
    decreases |ps|
  {
    if ps[|ps| - 1].name == n {
      j := |ps| - 1;
    } else {
      j := ParameterTypeNamed(ps[..|ps| - 1], n);
    }
  }

  lemma {:induction false} ParameterTypesKnown(ps: seq<Variable>)
    requires Distinct(ps)
    ensures ParameterTypes(ps).Some?
    decreases |ps|
  {
    if ps != [] {
      var init, p := ps[..|ps| - 1], ps[|ps| - 1];
      assert Distinct(init);
      ParameterTypesKnown(init);
      if p.name in ParameterTypes(init).value {
        var j := ParameterTypeNamed(init, p.name);
        assert false;
      }
    }
  }

  lemma {:induction false} ParameterTypeAt(ps: seq<Variable>, j: nat)
    requires ParameterTypes(ps).Some? && j < |ps|
    ensures ps[j].name in ParameterTypes(ps).value
    decreases |ps|
  {
    if j < |ps| - 1 {
      ParameterTypeAt(ps[..|ps| - 1], j);
    }
  }

  // Distinct parameters: their types are their depths.
  lemma {:induction false} ParameterDepthAt(ps: seq<Variable>, n: string)
    requires Distinct(ps) && ParameterTypes(ps).Some? && forall p :: p in ps ==> IntTyped(p.typ)
    ensures n in ParameterTypes(ps).value <==> n in ParameterDepths(ps)
    ensures n in ParameterDepths(ps) ==> ParameterTypes(ps).value[n] == IntAt(ParameterDepths(ps)[n])
  {
    hide ParameterTypes;
    if n in ParameterTypes(ps).value {
      var j := ParameterTypeNamed(ps, n);
      IndexOf(ps, 0, j);
      assert ps[j] in ps;
    }
    if n in ParameterNames(ps, 0) {
      NameAt(ps, 0, n);
      ParameterTypeAt(ps, ParameterNames(ps, 0)[n]);
    }
  }

  lemma {:induction false} ParameterDepthsSame(ps: seq<Variable>)
    requires Distinct(ps) && forall p :: p in ps ==> IntTyped(p.typ)
    ensures ParameterTypes(ps).Some? && SameDepths(ParameterDepths(ps), ParameterTypes(ps).value)
  {
    ParameterTypesKnown(ps);
    forall n
      ensures n in ParameterTypes(ps).value <==> n in ParameterDepths(ps)
      ensures n in ParameterDepths(ps) ==> ParameterTypes(ps).value[n] == IntAt(ParameterDepths(ps)[n])
    {
      ParameterDepthAt(ps, n);
    }
  }

  lemma {:induction false} AcceptBody(F: Signatures, globals: map<string, nat>, types: map<string, Type>, s: Signature, b: Block)
    requires IntSignatures(F) && SameDepths(GlobalDepths(globals), types) && DefinitionFits(F, globals, Definition(s.parameters, s.typ, b))
    ensures var r := AnnotateBody(F, types, s, b);
            r.Some? && PlainBlock(r.value) && DefinitionFits(F, globals, Definition(s.parameters, s.typ, r.value))
  {
    ParameterDepthsSame(s.parameters);
    assert s.typ == IntAt(s.typ.pointerDepth);
    AcceptBlock(F, [GlobalDepths(globals)], [types], ParameterDepths(s.parameters), ParameterTypes(s.parameters).value, s.typ.pointerDepth, true, b);
  }

  ghost predicate BodyFits(F: Signatures, globals: map<string, nat>, i: Item) {
    i.BodyItem? && PlainBlock(i.block) && i.name in F && DefinitionFits(F, globals, Definition(F[i.name].parameters, F[i.name].typ, i.block))
  }

  lemma {:induction false} AcceptBodies(F: Signatures, globals: map<string, nat>, types: map<string, Type>, sources: seq<Source>)
    requires IntSignatures(F) && SameDepths(GlobalDepths(globals), types) && Signed(F, sources)
    requires forall i :: 0 <= i < |sources| ==> SourceExact(F, globals, sources[i])
    ensures AnnotateBodies(F, types, sources).Some?
    ensures forall i :: 0 <= i < |AnnotateBodies(F, types, sources).value| ==> BodyFits(F, globals, AnnotateBodies(F, types, sources).value[i])
    decreases |sources|
  {
    if sources != [] {
      var s := sources[0];
      AcceptBodies(F, globals, types, sources[1..]);
      var others := AnnotateBodies(F, types, sources[1..]).value;
      if s.FunctionSource? && s.body.Some? {
        assert SourceExact(F, globals, s);
        AcceptBody(F, globals, types, s.signature, s.body.value);
        var bodies := AnnotateBodies(F, types, sources).value;
        forall i | 0 <= i < |bodies| ensures BodyFits(F, globals, bodies[i]) {
          if i > 0 {
            assert bodies[i] == others[i - 1];
          }
        }
      }
    }
  }

  // The bodies come from the sources, in order.
  lemma {:induction false} BodySource(F: Signatures, types: map<string, Type>, sources: seq<Source>, i: nat) returns (j: nat)
    requires AnnotateBodies(F, types, sources).Some? && i < |AnnotateBodies(F, types, sources).value|
    ensures j < |sources| && sources[j].FunctionSource? && sources[j].body.Some? && i <= j
    ensures AnnotateBodies(F, types, sources).value[i].BodyItem? && AnnotateBodies(F, types, sources).value[i].name == sources[j].name
    decreases |sources|
  {
    var others := AnnotateBodies(F, types, sources[1..]).value;
    if sources[0].FunctionSource? && sources[0].body.Some? {
      if i == 0 {
        j := 0;
      } else {
        j := BodySource(F, types, sources[1..], i - 1);
        j := j + 1;
      }
    } else {
      j := BodySource(F, types, sources[1..], i);
      j := j + 1;
    }
  }

  lemma {:induction false} BodiesOnce(k: Known, F: Signatures, types: map<string, Type>, sources: seq<Source>)
    requires Register(k, sources).Some? && AnnotateBodies(F, types, sources).Some?
    ensures OneBodyEach(AnnotateBodies(F, types, sources).value)
    decreases |sources|
  {
    if sources != [] {
      var k1 := RegisterOne(k, sources[0]).value;
      BodiesOnce(k1, F, types, sources[1..]);
      var others, bodies := AnnotateBodies(F, types, sources[1..]).value, AnnotateBodies(F, types, sources).value;
      if sources[0].FunctionSource? && sources[0].body.Some? {
        forall i, j | 0 <= i < j < |bodies| ensures bodies[i].BodyItem? && bodies[j].BodyItem? && bodies[i].name != bodies[j].name {
          assert bodies[j] == others[j - 1];
          if i > 0 {
            assert bodies[i] == others[i - 1];
          } else {
            var at := BodySource(F, types, sources[1..], j - 1);
            DefinedOnce(k, sources, 0, at + 1);
          }
        }
        forall i | 0 <= i < |bodies| ensures bodies[i].BodyItem? {
          if i > 0 {
            assert bodies[i] == others[i - 1];
          }
        }
      }
    }
  }

  lemma {:induction false} ProgramExact(declarations: seq<Item>, bodies: seq<Item>)
    requires IntSignatures(SignaturesOf(declarations))
    requires forall i :: 0 <= i < |bodies| ==> BodyFits(SignaturesOf(declarations), ParameterNames(GlobalsOf(declarations), 0), bodies[i])
    ensures Exact(ProgramOf(declarations, bodies))
  {
    var P := ProgramOf(declarations, bodies);
    forall n ensures SignatureExact(P, n) && DefinitionExact(P, n) {
      if n in P.functions {
        var i := BodiesOfAt(bodies, n);
        assert BodyFits(P.signatures, P.globals, bodies[i]);
      }
    }
  }

  lemma {:induction false} IntSources(sources: seq<Source>)
    requires forall i :: 0 <= i < |sources| && sources[i].FunctionSource? ==>
               IntTyped(sources[i].signature.typ) && forall p :: p in sources[i].signature.parameters ==> IntTyped(p.typ)
    ensures IntSignatures(SignaturesOf(DeclarationItems(sources)))
    decreases |sources|
  {
    if sources != [] {
      assert DeclarationItems(sources)[1..] == DeclarationItems(sources[1..]);
      IntSources(sources[1..]);
    }
  }

  lemma {:induction false} ExactAnalyzed(sources: seq<Source>) returns (bodies: seq<Item>)
    requires ExactSources(sources)
    ensures Analyze(sources) == Some((DeclarationItems(sources), bodies)) && OneBodyEach(bodies)
    ensures forall i :: 0 <= i < |bodies| ==> BodyFits(SourceSignatures(sources), SourceGlobals(sources), bodies[i])
  {
    var F, globals := SourceSignatures(sources), SourceGlobals(sources);
    var k := ExactRegistered(sources);
    SignedBodies(sources);
    AcceptBodies(F, globals, k.globals, sources);
    bodies := AnnotateBodies(F, k.globals, sources).value;
    BodiesOnce(Known(map[], map[]), F, k.globals, sources);
  }

  // Every depth-exact unit is accepted, annotated exactly, and lowered.
  lemma {:induction false} ExactAccepted(sources: seq<Source>) returns (declarations: seq<Item>, bodies: seq<Item>)
    requires ExactSources(sources)
    ensures Analyze(sources) == Some((declarations, bodies))
    ensures NoBodies(declarations) && OneBodyEach(bodies) && UnitExact(declarations, bodies)
    ensures LowerItems(EMPTY_UNIT, declarations + bodies).Some?
  {
    declarations := DeclarationItems(sources);
    bodies := ExactAnalyzed(sources);
    var k := ExactRegistered(sources);
    GlobalsOnce(sources);
    ProgramExact(declarations, bodies);
    assert PlainBodies(bodies) by {
      forall i | 0 <= i < |bodies| ensures bodies[i].BodyItem? && PlainBlock(bodies[i].block) {
        assert BodyFits(SourceSignatures(sources), SourceGlobals(sources), bodies[i]);
      }
    }
    AcceptedLowers(sources, declarations, bodies);
  }

  lemma {:induction false} GlobalsOnce(sources: seq<Source>)
    requires ExactSources(sources)
    ensures var gs := GlobalsOf(DeclarationItems(sources)); Distinct(gs) && forall v :: v in gs ==> v.typ == Type(Int, false, 0)
  {
    var gs := GlobalsOf(DeclarationItems(sources));
    forall i | 0 <= i < |sources| && sources[i].GlobalSource? ensures sources[i].variable.typ == Type(Int, false, 0) {
      assert SourceExact(SourceSignatures(sources), SourceGlobals(sources), sources[i]);
    }
    GlobalNamesOf(sources);
    forall i, j | 0 <= i < j < |gs| ensures gs[i].name != gs[j].name {
      assert GlobalNames(sources)[i] != GlobalNames(sources)[j];
    }
  }

  lemma {:induction false} ExactRegistered(sources: seq<Source>) returns (k: Known)
    requires ExactSources(sources)
    ensures Register(Known(map[], map[]), sources) == Some(k) && SignaturesKnown(k) == SourceSignatures(sources)
    ensures SameDepths(GlobalDepths(SourceGlobals(sources)), k.globals) && IntSignatures(SourceSignatures(sources))
    ensures forall i :: 0 <= i < |sources| ==> PlainSource(sources[i])
  {
    var F, k0 := SourceSignatures(sources), Known(map[], map[]);
    forall i | 0 <= i < |sources|
      ensures sources[i].GlobalSource? ==> sources[i].variable.typ == Type(Int, false, 0)
      ensures sources[i].FunctionSource? ==>
                IntTyped(sources[i].signature.typ) && forall p :: p in sources[i].signature.parameters ==> IntTyped(p.typ)
      ensures PlainSource(sources[i])
    {
      assert SourceExact(F, SourceGlobals(sources), sources[i]);
    }
    RegisterExact(sources);
    k := Register(k0, sources).value;
    RegisteredSignatures(k0, sources);
    assert SignaturesKnown(k0) == map[] && F + map[] == F;
    RegisteredGlobals(k0, sources);
    IntSources(sources);
  }
}
