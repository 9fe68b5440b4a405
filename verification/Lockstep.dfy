/**
  Analyzer and generator stay in lockstep: their scope chains bind the same
  names at every point, so nothing the analyzer accepts can miss a name or a
  function when it is lowered.
 */
module Lockstep {
  import opened Wrappers
  import opened Ast
  import opened Ir
  import opened Lowering
  import opened Items
  import opened Analysis

  // A type as the parser reads it.
  predicate Readable(t: Type) {
    GetType(t).Some? && (t.isPointer <==> t.pointerDepth > 0)
  }

  ghost predicate FunctionsReadable(F: Signatures) {
    forall n :: n in F ==> Readable(F[n].typ)
  }

  predicate Word(t: Type) {
    !t.isPointer && (t.dataType == Int || t.dataType == SInt32 || t.dataType == UInt32)
  }

  // ----- what lowering needs beyond names: numbers in range, no strings,
  // conditions of 32 bits -----

  predicate PlainOperand(o: Operand)
    decreases o, 1
  {
    match o
    case IntegerLiteral(digits) => Stoi(digits).Some?
    case StringLiteral(_) => false
    case Identifier(_, _, _) => true
    case CallOperand(call) => PlainCall(call)
  }

  predicate PlainCall(call: Call)
    decreases call, 1
  {
    PlainArguments(call.parameters)
  }

  predicate PlainArguments(es: seq<Expression>)
    decreases es, 0
  {
    es == [] || (PlainExpression(es[0]) && PlainArguments(es[1..]))
  }

  predicate PlainUnits(units: seq<Unit>)
    decreases units, 0
  {
    units == [] || (PlainUnit(units[0]) && PlainUnits(units[1..]))
  }

  predicate PlainUnit(u: Unit)
    decreases u, 2
  {
    PlainOperand(u.operand)
  }

  predicate PlainExpression(e: Expression)
    decreases e, 1
  {
    PlainUnits(e.units)
  }

  predicate PlainStatement(s: Statement)
    decreases s, 1
  {
    match s
    case Declaration(v) => Readable(v.typ)
    case Assignment(_, _, e) => PlainExpression(e)
    case CallStatement(call) => PlainCall(call)
    case Conditional(chain) => PlainChain(chain)
  }

  predicate PlainStatements(ss: seq<Statement>)
    decreases ss, 0
  {
    ss == [] || (PlainStatement(ss[0]) && PlainStatements(ss[1..]))
  }

  predicate PlainChain(chain: seq<Branch>)
    decreases chain, 0
  {
    chain == [] || (PlainBranch(chain[0]) && PlainChain(chain[1..]))
  }

  predicate PlainBranch(b: Branch)
    decreases b, 2
  {
    (b.condition.Some? ==> PlainExpression(b.condition.value) && Word(b.condition.value.evaluatedType)) && PlainBlock(b.block)
  }

  predicate PlainBlock(b: Block)
    decreases b, 1
  {
    PlainStatements(b.statements) && (b.returnValue.Some? ==> PlainExpression(b.returnValue.value))
  }

  // ----- the two scope chains -----

  ghost predicate SlotFits(s: Slot, t: Type) {
    && Readable(t) && Some(s.underlying) == GetType(t) && s.depth == t.pointerDepth
    && Some(s.variable.Type()) == if s.isAlloca then Some(Ptr) else StorageType(t)
  }

  ghost predicate SameNames(g: Gen, names: map<string, nat>, types: map<string, Type>) {
    && names.Keys == types.Keys
    && forall n :: n in names ==> names[n] < |g.vars| && SlotFits(g.vars[names[n]], types[n])
  }

  ghost predicate InStep(T: Types, g: Gen) {
    |T| == |g.scopes| && forall i :: 0 <= i < |T| ==> SameNames(g, g.scopes[i], T[i])
  }

  lemma {:induction false} InStepLookup(g: Gen, scopes: Scopes, T: Types, name: string)
    requires |T| == |scopes| && forall i :: 0 <= i < |T| ==> SameNames(g, scopes[i], T[i])
    ensures var t, k := LookupIn<Type>(T, name), LookupIn<nat>(scopes, name);
            t.Some? == k.Some? && (t.Some? ==> k.value < |g.vars| && SlotFits(g.vars[k.value], t.value))
    decreases |T|
  {
    if T != [] {
      assert SameNames(g, scopes[0], T[0]);
      if name !in T[0] {
        forall i | 0 <= i < |T[1..]| ensures SameNames(g, scopes[1..][i], T[1..][i]) {
          assert SameNames(g, scopes[i + 1], T[i + 1]);
        }
        InStepLookup(g, scopes[1..], T[1..], name);
      }
    }
  }

  // More code changes no type.
  lemma {:induction false} InStepLater(T: Types, g: Gen, g': Gen)
    requires InStep(T, g) && Grows(g, g') && g'.scopes == g.scopes
    ensures InStep(T, g')
  {
    forall i | 0 <= i < |T| ensures SameNames(g', g'.scopes[i], T[i]) {
      assert SameNames(g, g.scopes[i], T[i]);
      forall n | n in g.scopes[i] ensures g.scopes[i][n] < |g'.vars| && SlotFits(g'.vars[g.scopes[i][n]], T[i][n]) {
        assert SlotFits(g.vars[g.scopes[i][n]], T[i][n]);
      }
    }
  }

  // ----- expressions -----

  // The code of a use has the type the analyzer computed.
  lemma {:induction false} UseTyped(g: Gen, k: nat, t: Type, indirection: Indirection, steps: nat)
    requires WF(g) && k < |g.vars| && SlotFits(g.vars[k], t) && IndirectionType(indirection, steps, t).Some?
    ensures var u := IndirectionType(indirection, steps, t).value;
            GetType(u).Some? && Some(LowerUse(g, k, indirection, steps).value.Type()) == StorageType(u)
  {}

  // The running total and its type.
  ghost predicate TotalTyped(total: Option<Value>, evaluated: Option<Type>) {
    total.Some? == evaluated.Some? && (total.Some? ==> Some(total.value.Type()) == StorageType(evaluated.value))
  }

  ghost predicate Lowers(T: Types, low: Option<Lowered>, t: Type) {
    low.Some? && WF(low.value.gen) && InStep(T, low.value.gen) && Some(low.value.value.Type()) == StorageType(t)
  }

  lemma {:induction false} StepUnit(F: Signatures, T: Types, g: Gen, evaluated: Option<Type>, total: Option<Value>, raw: Unit, u: Unit)
    requires FunctionsReadable(F) && WF(g) && InStep(T, g) && TotalTyped(total, evaluated)
    requires AnnotateUnit(F, T, raw) == Some(u) && UnitType(F, T, evaluated, u).Some? && PlainUnit(u)
    ensures Lowers(T, LowerUnit(F, g, total, u), UnitType(F, T, evaluated, u).value)
    decreases raw, 2
  {
    var low := LowerOperand(F, g, u.operand);
    match u.operand
    case IntegerLiteral(_) =>
    case StringLiteral(_) =>
    case Identifier(name, indirection, steps) =>
      InStepLookup(g, g.scopes, T, name);
      var k, t := LookupIn<nat>(g.scopes, name).value, LookupIn<Type>(T, name).value;
      if evaluated.None? {
        UseTyped(g, k, t, indirection, steps);
      }
      InStepLater(T, g, low.value.gen);
    case CallOperand(call) =>
      StepCall(F, T, g, raw.operand.call, call);
    assert low.Some? && InStep(T, low.value.gen);
    StepCombine(T, low.value.gen, total, evaluated, u.operation, low.value.value);
  }

  lemma {:induction false} StepCombine(T: Types, g: Gen, total: Option<Value>, evaluated: Option<Type>, operation: Option<Operator>, v: Value)
    requires WF(g) && InStep(T, g) && TotalTyped(total, evaluated) && (total.Some? ==> operation.Some?)
    ensures var c := Combine(g, total, operation, v);
            c.Some? && InStep(T, c.value.gen) && (total.Some? ==> c.value.value.Type() == total.value.Type())
  {
    InStepLater(T, g, Combine(g, total, operation, v).value.gen);
  }

  lemma {:induction false} StepCall(F: Signatures, T: Types, g: Gen, raw: Call, call: Call)
    requires FunctionsReadable(F) && WF(g) && InStep(T, g) && AnnotateCall(F, T, raw) == Some(call) && PlainCall(call)
    ensures Lowers(T, LowerCall(F, g, call), F[call.name].typ)
    decreases raw, 1
  {
    StepArguments(F, T, g, raw.parameters, call.parameters);
    InStepLater(T, LowerArguments(F, g, call.parameters).value.0, LowerCall(F, g, call).value.gen);
  }

  lemma {:induction false} StepArguments(F: Signatures, T: Types, g: Gen, raws: seq<Expression>, es: seq<Expression>)
    requires FunctionsReadable(F) && WF(g) && InStep(T, g) && AnnotateArguments(F, T, raws) == Some(es) && PlainArguments(es)
    ensures LowerArguments(F, g, es).Some? && InStep(T, LowerArguments(F, g, es).value.0)
    decreases raws, 0
  {
    if raws != [] {
      StepExpression(F, T, g, raws[0], es[0]);
      assert AnnotateArguments(F, T, raws[1..]) == Some(es[1..]);
      StepArguments(F, T, LowerExpression(F, g, es[0]).value.gen, raws[1..], es[1..]);
    }
  }

  lemma {:induction false} StepUnits(F: Signatures, T: Types, g: Gen, evaluated: Option<Type>, total: Option<Value>, raws: seq<Unit>, us: seq<Unit>)
    requires FunctionsReadable(F) && WF(g) && InStep(T, g) && TotalTyped(total, evaluated)
    requires AnnotateUnits(F, T, raws) == Some(us) && UnitsType(F, T, evaluated, us).Some? && PlainUnits(us)
    ensures Lowers(T, LowerUnits(F, g, total, us), UnitsType(F, T, evaluated, us).value)
    decreases raws, 0
  {
    if raws != [] {
      StepUnit(F, T, g, evaluated, total, raws[0], us[0]);
      var low, t := LowerUnit(F, g, total, us[0]).value, UnitType(F, T, evaluated, us[0]);
      assert AnnotateUnits(F, T, raws[1..]) == Some(us[1..]);
      StepUnits(F, T, low.gen, t, Some(low.value), raws[1..], us[1..]);
    }
  }

  lemma {:induction false} StepExpression(F: Signatures, T: Types, g: Gen, raw: Expression, e: Expression)
    requires FunctionsReadable(F) && WF(g) && InStep(T, g) && AnnotateExpression(F, T, raw) == Some(e) && PlainExpression(e)
    ensures Lowers(T, LowerExpression(F, g, e), e.evaluatedType)
    decreases raw, 1
  {
    StepUnits(F, T, g, None, None, raw.units, e.units);
  }

  // ----- statements -----

  // After a statement the chains are in step again, under the new types.
  ghost predicate Keeps(T: Types, r: Option<Gen>) {
    r.Some? && WF(r.value) && InStep(T, r.value)
  }

  lemma {:induction false} StepDeclaration(T: Types, g: Gen, v: Variable)
    requires WF(g) && InStep(T, g) && Readable(v.typ) && T != [] && v.name !in T[0]
    ensures Keeps(Declare(T, v.name, v.typ), LowerDeclaration(g, v))
  {
    var g', T' := LowerDeclaration(g, v).value, Declare(T, v.name, v.typ);
    forall i | 0 <= i < |T'| ensures SameNames(g', g'.scopes[i], T'[i]) {
      assert SameNames(g, g.scopes[i], T[i]);
      assert SameNames(g, g.scopes[0], T[0]);
      forall n | n in g'.scopes[i] ensures SlotFits(g'.vars[g'.scopes[i][n]], T'[i][n]) {
        if i != 0 || n != v.name {
          assert SlotFits(g.vars[g.scopes[i][n]], T[i][n]);
        }
      }
    }
  }

  lemma {:induction false} StepAssignment(F: Signatures, T: Types, g: Gen, target: string, indirection: nat, raw: Expression, s: Statement)
    requires FunctionsReadable(F) && WF(g) && InStep(T, g) && AnnotateAssignment(F, T, target, indirection, raw) == Some(s) && PlainStatement(s)
    ensures Keeps(T, LowerStatement(F, g, s))
  {
    var x := AnnotateExpression(F, T, raw).value;
    InStepLookup(g, g.scopes, T, target);
    var k := LookupIn<nat>(g.scopes, target).value;
    var p := LowerDereference(g, k, s.steps);
    InStepLater(T, g, p.gen);
    StepExpression(F, T, p.gen, raw, x);
    assert LowerExpression(F, p.gen, s.expression) == LowerExpression(F, p.gen, x);
    InStepLater(T, g, LowerAssignment(F, g, target, s.steps, s.expression).value);
  }

  lemma {:induction false} StepStatement(F: Signatures, T: Types, ret: Type, g: Gen, raw: Statement, s: Statement, T': Types)
    requires FunctionsReadable(F) && WF(g) && InStep(T, g) && AnnotateStatement(F, T, ret, raw) == Some((s, T')) && PlainStatement(s)
    ensures Keeps(T', LowerStatement(F, g, s))
    decreases raw, 1
  {
    match raw
    case Declaration(v) => StepDeclaration(T, g, v);
    case Assignment(target, indirection, e) => StepAssignment(F, T, g, target, indirection, e, s);
    case CallStatement(call) => StepCall(F, T, g, call, s.call);
    case Conditional(chain) =>
      var g0 := g.(blocks := g.blocks + [[]]);
      assert InStep(T, g0) by {
        forall i | 0 <= i < |T| ensures SameNames(g0, g0.scopes[i], T[i]) {
          assert SameNames(g, g.scopes[i], T[i]);
        }
      }
      StepChain(F, T, ret, g0, chain, s.chain, |g.blocks|);
  }

  lemma {:induction false} StepStatements(F: Signatures, T: Types, ret: Type, g: Gen, raws: seq<Statement>, ss: seq<Statement>, T': Types)
    requires FunctionsReadable(F) && WF(g) && InStep(T, g) && AnnotateStatements(F, T, ret, raws) == Some((ss, T')) && PlainStatements(ss)
    ensures Keeps(T', LowerStatements(F, g, ss))
    decreases raws, 0
  {
    if raws != [] {
      var (s, T1) := AnnotateStatement(F, T, ret, raws[0]).value;
      var (others, T2) := AnnotateStatements(F, T1, ret, raws[1..]).value;
      assert ss == [s] + others && ss[0] == s && ss[1..] == others;
      StepStatement(F, T, ret, g, raws[0], s, T1);
      StepStatements(F, T1, ret, LowerStatement(F, g, s).value, raws[1..], others, T2);
    }
  }

  lemma {:induction false} StepChain(F: Signatures, T: Types, ret: Type, g: Gen, raws: seq<Branch>, chain: seq<Branch>, merge: nat)
    requires FunctionsReadable(F) && WF(g) && InStep(T, g) && merge < |g.blocks| && merge != g.cur
    requires AnnotateChain(F, T, ret, raws) == Some(chain) && PlainChain(chain)
    ensures Keeps(T, LowerChain(F, g, chain, merge))
    decreases raws, 0
  {
    if raws == [] {
      InStepLater(T, g, Emit(g, Br(merge)));
      assert InStep(T, Emit(g, Br(merge)).(cur := merge)) by {
        InStepMoved(T, Emit(g, Br(merge)), merge);
      }
    } else {
      assert AnnotateChain(F, T, ret, raws[1..]) == Some(chain[1..]);
      StepBranch(F, T, ret, g, raws[0], chain[0], merge);
      StepChain(F, T, ret, LowerBranch(F, g, chain[0], merge).value, raws[1..], chain[1..], merge);
    }
  }

  lemma {:induction false} InStepMoved(T: Types, g: Gen, b: nat)
    requires InStep(T, g)
    ensures InStep(T, g.(cur := b))
  {
    forall i | 0 <= i < |T| ensures SameNames(g.(cur := b), g.scopes[i], T[i]) {
      assert SameNames(g, g.scopes[i], T[i]);
    }
  }

  lemma {:induction false} StepBranch(F: Signatures, T: Types, ret: Type, g: Gen, raw: Branch, b: Branch, merge: nat)
    requires FunctionsReadable(F) && WF(g) && InStep(T, g) && merge < |g.blocks| && merge != g.cur
    requires AnnotateBranch(F, T, ret, raw) == Some(b) && PlainBranch(b)
    ensures Keeps(T, LowerBranch(F, g, b, merge))
    decreases raw, 2
  {
    StepCondition(F, T, g, raw.condition, b.condition);
    var c := LowerCondition(F, g, b.condition).value;
    var g1 := SplitAt(c.gen, c.value);
    InStepLater(T, c.gen, g1);
    assert SameNames(g1, map[], map[]);
    StepBlock(F, T, map[], ret, false, g1, map[], raw.block, b.block);
    InStepLater(T, g, LowerBranch(F, g, b, merge).value);
  }

  lemma {:induction false} StepCondition(F: Signatures, T: Types, g: Gen, raw: Option<Expression>, e: Option<Expression>)
    requires FunctionsReadable(F) && WF(g) && InStep(T, g) && AnnotateOptional(F, T, raw) == Some(e)
    requires e.Some? ==> PlainExpression(e.value) && Word(e.value.evaluatedType)
    ensures LowerCondition(F, g, e).Some? && InStep(T, LowerCondition(F, g, e).value.gen)
  {
    if e.Some? {
      StepExpression(F, T, g, raw.value, e.value);
    }
    InStepLater(T, g, LowerCondition(F, g, e).value.gen);
  }

  lemma {:induction false} StepBlock(F: Signatures, T: Types, types: map<string, Type>, ret: Type, isFunction: bool, g: Gen, names: map<string, nat>,
                                     raw: Block, b: Block)
    requires FunctionsReadable(F) && WF(g) && InStep(T, g) && SameNames(g, names, types)
    requires AnnotateBlock(F, T, types, ret, isFunction, raw) == Some(b) && PlainBlock(b)
    ensures Keeps(T, LowerBlock(F, g, names, b))
    decreases raw, 1
  {
    var g0, T0 := g.(scopes := [names] + g.scopes), [types] + T;
    assert InStep(T0, g0) by {
      forall i | 0 <= i < |T0| ensures SameNames(g0, g0.scopes[i], T0[i]) {
        assert i > 0 ==> SameNames(g, g.scopes[i - 1], T[i - 1]);
      }
    }
    var (ss, T1) := AnnotateStatements(F, T0, ret, raw.statements).value;
    StepStatements(F, T0, ret, g0, raw.statements, ss, T1);
    var g1 := LowerStatements(F, g0, ss).value;
    if b.returnValue.Some? {
      StepExpression(F, T1, g1, raw.returnValue.value, b.returnValue.value);
    }
    InStepLater(T, g, LowerBlock(F, g, names, b).value);
  }

  // ----- a function body -----

  lemma {:induction false} SameNamesAdd(g: Gen, names: map<string, nat>, types: map<string, Type>, name: string, k: nat, t: Type)
    requires SameNames(g, names, types) && name !in types && k < |g.vars| && SlotFits(g.vars[k], t)
    ensures SameNames(g, Emplace(names, name, k), types[name := t])
  {}

  // The parameters up to the last one, and the last one.
  lemma {:induction false} LastParameter(ps: seq<Variable>, g: Gen, base: nat)
    requires ps != [] && ParameterTypes(ps).Some? && (forall p :: p in ps ==> Readable(p.typ))
    requires base + |ps| <= |g.vars| && forall j :: 0 <= j < |ps| ==> ParameterSlot(ps[j], j) == Some(g.vars[base + j])
    ensures var init, p := ps[..|ps| - 1], ps[|ps| - 1];
            && ParameterTypes(init).Some? && (forall q :: q in init ==> Readable(q.typ))
            && p.name !in ParameterTypes(init).value && ParameterTypes(ps).value == ParameterTypes(init).value[p.name := p.typ]
            && SlotFits(g.vars[base + |init|], p.typ) && ps == init + [p]
  {
    var init, p := ps[..|ps| - 1], ps[|ps| - 1];
    assert ps == init + [p] && p in ps;
    forall q | q in init ensures Readable(q.typ) {
      assert q in ps;
    }
  }

  lemma {:induction false} NoParameters(g: Gen, base: nat)
    ensures ParameterTypes([]) == Some(map[]) && SameNames(g, ParameterNames([], base), map[])
  {}

  lemma {:induction false} ParametersFit(ps: seq<Variable>, g: Gen, base: nat)
    requires ParameterTypes(ps).Some? && (forall p :: p in ps ==> Readable(p.typ))
    requires base + |ps| <= |g.vars| && forall j :: 0 <= j < |ps| ==> ParameterSlot(ps[j], j) == Some(g.vars[base + j])
    ensures SameNames(g, ParameterNames(ps, base), ParameterTypes(ps).value)
    decreases |ps|
  {
    hide SlotFits, SameNames, Readable, ParameterSlot, ParameterNames, ParameterTypes;
    if ps == [] {
      NoParameters(g, base);
    } else {
      var init, p := ps[..|ps| - 1], ps[|ps| - 1];
      LastParameter(ps, g, base);
      ParametersFit(init, g, base);
      ParameterNamesSnoc(init, p, base);
      SameNamesAdd(g, ParameterNames(init, base), ParameterTypes(init).value, p.name, base + |init|, p.typ);
    }
  }

  lemma {:induction false} SlotsReadable(ps: seq<Variable>)
    requires forall p :: p in ps ==> Readable(p.typ)
    ensures ParameterSlots(ps).Some?
    decreases |ps|
  {
    if ps != [] {
      var init := ps[..|ps| - 1];
      forall q | q in init ensures Readable(q.typ) { assert q in ps; }
      SlotsReadable(init);
      assert ps[|ps| - 1] in ps;
    }
  }

  lemma {:induction false} StepBody(F: Signatures, globals: map<string, Type>, g: Gen, s: Signature, raw: Block, b: Block)
    requires FunctionsReadable(F) && ScopesIn(g.scopes, |g.vars|) && InStep([globals], g)
    requires AnnotateBody(F, globals, s, raw) == Some(b) && PlainBlock(b) && forall p :: p in s.parameters ==> Readable(p.typ)
    ensures LowerBody(F, g, s.parameters, b).Some?
  {
    SlotsReadable(s.parameters);
    var slots := ParameterSlots(s.parameters).value;
    var g1 := StartBody(g, slots);
    StepEntry(globals, g, slots);
    forall j | 0 <= j < |s.parameters| ensures ParameterSlot(s.parameters[j], j) == Some(g1.vars[|g.vars| + j]) {
      assert g1.vars[|g.vars| + j] == slots[j];
    }
    ParametersFit(s.parameters, g1, |g.vars|);
    StepBlock(F, [globals], ParameterTypes(s.parameters).value, s.typ, true, g1, ParameterNames(s.parameters, |g.vars|), raw, b);
  }

  lemma {:induction false} StepEntry(globals: map<string, Type>, g: Gen, slots: seq<Slot>)
    requires ScopesIn(g.scopes, |g.vars|) && InStep([globals], g)
    ensures InStep([globals], StartBody(g, slots))
  {
    assert SameNames(g, g.scopes[0], globals);
    assert SameNames(StartBody(g, slots), g.scopes[0], globals);
  }
}
