/**
  What the analyzer accepts of a unit of integers and pointers, in both
  directions: a judgement on pointer depths alone. It is looser than
  depth-exactness where the code compares less (lib/Analyzer).
 */
module Looseness {
  import opened Wrappers
  import opened Ast
  import opened Lowering
  import opened Semantics
  import opened DepthExact
  import opened Analysis
  import opened Registration
  import opened Frontend
  import opened Acceptance

  // An expression is an integer behind so many pointers, or a string.
  datatype Sort = Depth(depth: nat) | Text

  function TypeOfSort(s: Sort): Type { if s.Text? then Type(Str, false, 0) else IntAt(s.depth) }

  function TypeOfSome(s: Option<Sort>): Option<Type> { if s.None? then None else Some(TypeOfSort(s.value)) }

  // ----- expressions -----

  // The first operand decides: its steps are counted.
  function LooseUse(d: nat, indirection: Indirection, steps: nat): Option<Sort> {
    match indirection
    case Plain => Some(Depth(d))
    case GetAddress => if steps == 1 then Some(Depth(d + 1)) else None
    case GetValue => if d > 0 && steps <= d then Some(Depth(d - steps)) else None
  }

  // A later variable: one behind pointers may be followed to its integer or in
  // as many steps as the sum has pointers; any other must look like the sum,
  // whatever stands in front of it.
  predicate LooseLater(d: nat, steps: nat, total: Sort) {
    total.Depth? && if d > 0 && steps != 0 then steps == d || steps == total.depth else d == total.depth
  }

  function LooseUnit(F: Signatures, D: Depths, total: Option<Sort>, u: Unit): Option<Sort>
    decreases u, 2
  {
    if total.Some? && u.operation.None? then None
    else
      match u.operand
      case IntegerLiteral(digits) => if digits != [] && total != Some(Text) then Some(total.GetOr(Depth(0))) else None
      case StringLiteral(_) => if total.None? || total == Some(Text) then Some(Text) else None
      case Identifier(name, indirection, steps) =>
        var d :- LookupIn<nat>(D, name);
        if total.None? then LooseUse(d, indirection, steps) else if LooseLater(d, steps, total.value) then total else None
      case CallOperand(call) =>
        if LooseCall(F, D, call) && (total.None? || total.value == Depth(F[call.name].typ.pointerDepth))
        then Some(Depth(F[call.name].typ.pointerDepth))
        else None
  }

  function LooseUnits(F: Signatures, D: Depths, total: Option<Sort>, units: seq<Unit>): Option<Sort>
    decreases units, 0
  {
    if units == [] then total
    else
      var s :- LooseUnit(F, D, total, units[0]);
      LooseUnits(F, D, Some(s), units[1..])
  }

  function LooseExpression(F: Signatures, D: Depths, e: Expression): Option<Sort>
    decreases e, 1
  {
    LooseUnits(F, D, None, e.units)
  }

  // A known function, and for each parameter an argument of its depth.
  predicate LooseCall(F: Signatures, D: Depths, call: Call)
    ensures LooseCall(F, D, call) ==> call.name in F
    decreases call, 1
  {
    call.name in F && LooseArguments(F, D, F[call.name].parameters, call.parameters)
  }

  predicate LooseArguments(F: Signatures, D: Depths, ps: seq<Variable>, es: seq<Expression>)
    decreases es, 0
  {
    && |ps| == |es|
    && (es == [] || (LooseExpression(F, D, es[0]) == Some(Depth(ps[0].typ.pointerDepth)) && LooseArguments(F, D, ps[1..], es[1..])))
  }

  // r is what the analyzer makes of an expression that is judged s.
  ghost predicate Judged(s: Option<Sort>, r: Option<Expression>) {
    if s.None? then r.None? else r.Some? && r.value.evaluatedType == TypeOfSort(s.value)
  }

  ghost predicate UnitJudged(F: Signatures, T: Types, total: Option<Sort>, s: Option<Sort>, r: Option<Unit>) {
    if r.None? then s.None? else UnitType(F, T, TypeOfSome(total), r.value) == TypeOfSome(s)
  }

  lemma {:induction false} JudgeUnit(F: Signatures, D: Depths, T: Types, total: Option<Sort>, u: Unit)
    requires IntSignatures(F) && Depthwise(D, T)
    ensures UnitJudged(F, T, total, LooseUnit(F, D, total, u), AnnotateUnit(F, T, u))
    decreases u, 2
  {
    var o := AnnotateOperand(F, T, u.operand);
    assert AnnotateUnit(F, T, u) == if o.Some? then Some(u.(operand := o.value)) else None;
    match u.operand
    case Identifier(name, _, _) =>
      assert o == Some(u.operand);
      DepthLookup(D, T, name);
    case CallOperand(call) =>
      JudgeCall(F, D, T, call);
      var c := AnnotateCall(F, T, call);
      assert o == if c.Some? then Some(CallOperand(c.value)) else None;
    case IntegerLiteral(_) => assert o == Some(u.operand);
    case StringLiteral(_) => assert o == Some(u.operand);
  }

  lemma {:induction false} JudgeUnits(F: Signatures, D: Depths, T: Types, total: Option<Sort>, us: seq<Unit>)
    requires IntSignatures(F) && Depthwise(D, T)
    ensures var s, r := LooseUnits(F, D, total, us), AnnotateUnits(F, T, us);
            if r.None? then s.None? else UnitsType(F, T, TypeOfSome(total), r.value) == TypeOfSome(s)
    decreases us, 0
  {
    hide UnitType, LooseUnit, AnnotateUnit;
    if us != [] {
      JudgeUnit(F, D, T, total, us[0]);
      var u, s := AnnotateUnit(F, T, us[0]), LooseUnit(F, D, total, us[0]);
      JudgeUnits(F, D, T, s, us[1..]);
      var others := AnnotateUnits(F, T, us[1..]);
      if u.Some? && others.Some? {
        var r := [u.value] + others.value;
        assert r[0] == u.value && r[1..] == others.value;
      }
    }
  }

  lemma {:induction false} JudgeExpression(F: Signatures, D: Depths, T: Types, e: Expression)
    requires IntSignatures(F) && Depthwise(D, T)
    ensures Judged(LooseExpression(F, D, e), AnnotateExpression(F, T, e))
    decreases e, 1
  {
    JudgeUnits(F, D, T, None, e.units);
  }

  // A call is accepted exactly when its function is known and every argument
  // is accepted at the depth of its parameter, one for each.
  lemma {:induction false} JudgeCall(F: Signatures, D: Depths, T: Types, call: Call)
    requires IntSignatures(F) && Depthwise(D, T)
    ensures AnnotateCall(F, T, call).Some? <==> LooseCall(F, D, call)
    decreases call, 1
  {
    if call.name in F {
      JudgeArguments(F, D, T, F[call.name].parameters, call.parameters);
    }
  }

  ghost predicate Fitting(ps: seq<Variable>, r: Option<seq<Expression>>) {
    r.Some? && |ps| == |r.value| && forall i :: 0 <= i < |ps| ==> r.value[i].evaluatedType == ps[i].typ
  }

  lemma {:induction false} FittingCons(ps: seq<Variable>, e: Expression, others: seq<Expression>)
    requires ps != []
    ensures Fitting(ps, Some([e] + others)) <==> e.evaluatedType == ps[0].typ && Fitting(ps[1..], Some(others))
  {
    var r := [e] + others;
    if Fitting(ps, Some(r)) {
      forall i | 0 <= i < |ps[1..]| ensures others[i].evaluatedType == ps[1..][i].typ {
        assert r[i + 1].evaluatedType == ps[i + 1].typ;
      }
    }
    if e.evaluatedType == ps[0].typ && Fitting(ps[1..], Some(others)) {
      forall i | 0 <= i < |ps| ensures r[i].evaluatedType == ps[i].typ {
        assert i > 0 ==> others[i - 1].evaluatedType == ps[1..][i - 1].typ;
      }
    }
  }

  lemma {:induction false} JudgeArguments(F: Signatures, D: Depths, T: Types, ps: seq<Variable>, es: seq<Expression>)
    requires IntSignatures(F) && Depthwise(D, T) && forall p :: p in ps ==> IntTyped(p.typ)
    ensures Fitting(ps, AnnotateArguments(F, T, es)) <==> LooseArguments(F, D, ps, es)
    decreases es, 0
  {
    if ps != [] && es != [] {
      assert ps[0] in ps && forall p :: p in ps[1..] ==> p in ps;
      JudgeExpression(F, D, T, es[0]);
      JudgeArguments(F, D, T, ps[1..], es[1..]);
      var e, others := AnnotateExpression(F, T, es[0]), AnnotateArguments(F, T, es[1..]);
      if e.Some? && others.Some? {
        FittingCons(ps, e.value, others.value);
      }
    }
  }

  // ----- statements -----

  // Any integer or address may be stored behind a pointer, in any number of
  // steps that there are; a plain integer takes integers only, and stars in
  // front of it are ignored.
  predicate LooseAssignment(F: Signatures, D: Depths, target: string, stars: nat, e: Expression) {
    var d, s := LookupIn<nat>(D, target), LooseExpression(F, D, e);
    d.Some? && s.Some? && s.value.Depth? && if d.value > 0 then stars <= d.value else s.value.depth == 0
  }

  function LooseStatement(F: Signatures, D: Depths, ret: nat, s: Statement): Option<Depths>
    decreases s, 1
  {
    match s
    case Declaration(v) => if D != [] && v.name !in D[0] then Some(Declare(D, v.name, v.typ.pointerDepth)) else None
    case Assignment(target, stars, e) => if LooseAssignment(F, D, target, stars, e) then Some(D) else None
    case CallStatement(call) => if LooseCall(F, D, call) then Some(D) else None
    case Conditional(chain) => if LooseChain(F, D, ret, chain) then Some(D) else None
  }

  function LooseStatements(F: Signatures, D: Depths, ret: nat, ss: seq<Statement>): Option<Depths>
    decreases ss, 0
  {
    if ss == [] then Some(D)
    else
      var D1 :- LooseStatement(F, D, ret, ss[0]);
      LooseStatements(F, D1, ret, ss[1..])
  }

  predicate LooseChain(F: Signatures, D: Depths, ret: nat, chain: seq<Branch>)
    decreases chain, 0
  {
    chain == [] || (LooseBranch(F, D, ret, chain[0]) && LooseChain(F, D, ret, chain[1..]))
  }

  // A condition may be anything.
  predicate LooseBranch(F: Signatures, D: Depths, ret: nat, b: Branch)
    decreases b, 2
  {
    && (b.condition.Some? ==> LooseExpression(F, D, b.condition.value).Some?)
    && LooseBlock(F, D, map[], ret, false, b.block)
  }

  // What is returned has the depth of the function; a function's own block
  // must return.
  predicate LooseBlock(F: Signatures, D: Depths, names: map<string, nat>, ret: nat, isFunction: bool, b: Block)
    decreases b, 1
  {
    var D1 := LooseStatements(F, [names] + D, ret, b.statements);
    && D1.Some?
    && if b.returnValue.Some? then LooseExpression(F, D1.value, b.returnValue.value) == Some(Depth(ret)) else !isFunction
  }

  // Every variable that is declared is an integer or a pointer to integers.
  predicate IntStatements(ss: seq<Statement>)
    decreases ss, 0
  {
    ss == [] || (IntStatement(ss[0]) && IntStatements(ss[1..]))
  }

  predicate IntStatement(s: Statement)
    decreases s, 1
  {
    match s
    case Declaration(v) => IntTyped(v.typ)
    case Conditional(chain) => IntChain(chain)
    case _ => true
  }

  predicate IntChain(chain: seq<Branch>)
    decreases chain, 0
  {
    chain == [] || (IntBranch(chain[0]) && IntChain(chain[1..]))
  }

  predicate IntBranch(b: Branch)
    decreases b, 2
  {
    IntBlock(b.block)
  }

  predicate IntBlock(b: Block)
    decreases b, 1
  {
    IntStatements(b.statements)
  }

  lemma {:induction false} JudgeAssignment(F: Signatures, D: Depths, T: Types, target: string, stars: nat, e: Expression)
    requires IntSignatures(F) && Depthwise(D, T)
    ensures AnnotateAssignment(F, T, target, stars, e).Some? <==> LooseAssignment(F, D, target, stars, e)
    ensures LooseAssignment(F, D, target, stars, e) ==>
              var r, d, x := AnnotateAssignment(F, T, target, stars, e).value, LookupIn<nat>(D, target).value, LooseExpression(F, D, e).value.depth;
              && r.Assignment? && r.target == target && r.steps == (if d > 0 then stars else 0)
              && r.expression.evaluatedType == IntAt(x).(isPointer := if stars < d then true else d > 0 && x > 0)
  {
    DepthLookup(D, T, target);
    JudgeExpression(F, D, T, e);
  }

  ghost predicate SameNames<X>(d: Option<Depths>, r: Option<(X, Types)>) {
    if d.None? then r.None? else r.Some? && Depthwise(d.value, r.value.1)
  }

  lemma {:induction false} DeclareDepthwise(D: Depths, T: Types, v: Variable)
    requires Depthwise(D, T) && IntTyped(v.typ) && D != [] && v.name !in D[0]
    ensures v.name !in T[0] && Depthwise(Declare(D, v.name, v.typ.pointerDepth), Declare(T, v.name, v.typ))
  {
    var D', T' := Declare(D, v.name, v.typ.pointerDepth), Declare(T, v.name, v.typ);
    assert SameDepths(D[0], T[0]);
    forall i | 0 <= i < |D'| ensures SameDepths(D'[i], T'[i]) {
      assert SameDepths(D[i], T[i]);
    }
  }

  lemma {:induction false} JudgeStatement(F: Signatures, D: Depths, T: Types, ret: nat, s: Statement)
    requires IntSignatures(F) && Depthwise(D, T) && IntStatement(s)
    ensures SameNames(LooseStatement(F, D, ret, s), AnnotateStatement(F, T, IntAt(ret), s))
    decreases s, 1
  {
    match s
    case Declaration(v) =>
      if D != [] {
        assert SameDepths(D[0], T[0]);
        if v.name !in D[0] {
          DeclareDepthwise(D, T, v);
        }
      }
    case Assignment(target, stars, e) => JudgeAssignment(F, D, T, target, stars, e);
    case CallStatement(call) => JudgeCall(F, D, T, call);
    case Conditional(chain) => JudgeChain(F, D, T, ret, chain);
  }

  lemma {:induction false} JudgeStatements(F: Signatures, D: Depths, T: Types, ret: nat, ss: seq<Statement>)
    requires IntSignatures(F) && Depthwise(D, T) && IntStatements(ss)
    ensures SameNames(LooseStatements(F, D, ret, ss), AnnotateStatements(F, T, IntAt(ret), ss))
    decreases ss, 0
  {
    hide LooseStatement, AnnotateStatement, Depthwise;
    if ss != [] {
      JudgeStatement(F, D, T, ret, ss[0]);
      var D1, r := LooseStatement(F, D, ret, ss[0]), AnnotateStatement(F, T, IntAt(ret), ss[0]);
      if D1.Some? {
        JudgeStatements(F, D1.value, r.value.1, ret, ss[1..]);
      }
    }
  }

  lemma {:induction false} JudgeChain(F: Signatures, D: Depths, T: Types, ret: nat, chain: seq<Branch>)
    requires IntSignatures(F) && Depthwise(D, T) && IntChain(chain)
    ensures AnnotateChain(F, T, IntAt(ret), chain).Some? <==> LooseChain(F, D, ret, chain)
    decreases chain, 0
  {
    if chain != [] {
      JudgeBranch(F, D, T, ret, chain[0]);
      JudgeChain(F, D, T, ret, chain[1..]);
    }
  }

  lemma {:induction false} JudgeBranch(F: Signatures, D: Depths, T: Types, ret: nat, b: Branch)
    requires IntSignatures(F) && Depthwise(D, T) && IntBranch(b)
    ensures AnnotateBranch(F, T, IntAt(ret), b).Some? <==> LooseBranch(F, D, ret, b)
    decreases b, 2
  {
    if b.condition.Some? {
      JudgeExpression(F, D, T, b.condition.value);
    }
    assert SameDepths(map[], map[]);
    JudgeBlock(F, D, T, map[], map[], ret, false, b.block);
  }

  lemma {:induction false} JudgeBlock(F: Signatures, D: Depths, T: Types, names: map<string, nat>, types: map<string, Type>, ret: nat, isFunction: bool,
                                      b: Block)
    requires IntSignatures(F) && Depthwise(D, T) && SameDepths(names, types) && IntBlock(b)
    ensures AnnotateBlock(F, T, types, IntAt(ret), isFunction, b).Some? <==> LooseBlock(F, D, names, ret, isFunction, b)
    decreases b, 1
  {
    var D0, T0 := [names] + D, [types] + T;
    assert Depthwise(D0, T0) by {
      forall i | 0 <= i < |D0| ensures SameDepths(D0[i], T0[i]) {
        assert i > 0 ==> SameDepths(D[i - 1], T[i - 1]);
      }
    }
    JudgeStatements(F, D0, T0, ret, b.statements);
    var D1, r := LooseStatements(F, D0, ret, b.statements), AnnotateStatements(F, T0, IntAt(ret), b.statements);
    if D1.Some? && b.returnValue.Some? {
      JudgeExpression(F, D1.value, r.value.1, b.returnValue.value);
    }
  }

  // ----- units -----

  // The pointer depth of each global variable.
  function DepthsIn(sources: seq<Source>): map<string, nat> {
    if sources == [] then map[]
    else if sources[0].GlobalSource? then map[sources[0].variable.name := sources[0].variable.typ.pointerDepth] + DepthsIn(sources[1..])
    else DepthsIn(sources[1..])
  }

  ghost predicate LooseSource(F: Signatures, globals: map<string, nat>, s: Source) {
    s.FunctionSource? && s.body.Some? ==>
      && Distinct(s.signature.parameters)
      && LooseBlock(F, [globals], ParameterDepths(s.signature.parameters), s.signature.typ.pointerDepth, true, s.body.value)
  }

  ghost predicate IntSource(s: Source) {
    match s
    case GlobalSource(v, _) => IntTyped(v.typ)
    case FunctionSource(_, signature, body) =>
      && IntTyped(signature.typ) && (forall p :: p in signature.parameters ==> IntTyped(p.typ))
      && (body.Some? ==> IntBlock(body.value))
  }

  // No parameter is declared twice.
  lemma {:induction false} ParametersOnce(ps: seq<Variable>)
    ensures ParameterTypes(ps).Some? <==> Distinct(ps)
    decreases |ps|
  {
    if Distinct(ps) {
      ParameterTypesKnown(ps);
    } else {
      var init, p := ps[..|ps| - 1], ps[|ps| - 1];
      ParametersOnce(init);
      var i, j :| 0 <= i < j < |ps| && ps[i].name == ps[j].name;
      if j < |ps| - 1 {
        assert init[i].name == init[j].name;
      } else if ParameterTypes(init).Some? {
        ParameterTypeAt(init, i);
      }
    }
  }

  lemma {:induction false} JudgeBody(F: Signatures, globals: map<string, nat>, types: map<string, Type>, s: Source)
    requires IntSignatures(F) && SameDepths(globals, types) && IntSource(s) && s.FunctionSource? && s.body.Some?
    ensures AnnotateBody(F, types, s.signature, s.body.value).Some? <==> LooseSource(F, globals, s)
  {
    var ps := s.signature.parameters;
    ParametersOnce(ps);
    if Distinct(ps) {
      ParameterDepthsSame(ps);
      assert s.signature.typ == IntAt(s.signature.typ.pointerDepth);
      JudgeBlock(F, [globals], [types], ParameterDepths(ps), ParameterTypes(ps).value, s.signature.typ.pointerDepth, true, s.body.value);
    }
  }

  ghost predicate AllLoose(F: Signatures, globals: map<string, nat>, sources: seq<Source>) {
    forall i :: 0 <= i < |sources| ==> LooseSource(F, globals, sources[i])
  }

  lemma {:induction false} AllLooseCons(F: Signatures, globals: map<string, nat>, sources: seq<Source>)
    requires sources != []
    ensures AllLoose(F, globals, sources) <==> LooseSource(F, globals, sources[0]) && AllLoose(F, globals, sources[1..])
  {
    var rest := sources[1..];
    assert forall i :: 0 <= i < |rest| ==> rest[i] == sources[i + 1];
    if LooseSource(F, globals, sources[0]) && AllLoose(F, globals, rest) {
      forall i | 0 <= i < |sources| ensures LooseSource(F, globals, sources[i]) {
        assert i > 0 ==> sources[i] == rest[i - 1];
      }
    }
  }

  lemma {:induction false} JudgeBodies(F: Signatures, globals: map<string, nat>, types: map<string, Type>, sources: seq<Source>)
    requires IntSignatures(F) && SameDepths(globals, types) && forall i :: 0 <= i < |sources| ==> IntSource(sources[i])
    ensures AnnotateBodies(F, types, sources).Some? <==> AllLoose(F, globals, sources)
    decreases |sources|
  {
    hide AnnotateBody;
    if sources != [] {
      AllLooseCons(F, globals, sources);
      JudgeBodies(F, globals, types, sources[1..]);
      if sources[0].FunctionSource? && sources[0].body.Some? {
        JudgeBody(F, globals, types, sources[0]);
      }
    }
  }

  lemma {:induction false} DepthsKnown(k: Known, sources: seq<Source>, names: map<string, nat>)
    requires Register(k, sources).Some? && SameDepths(names, k.globals) && forall i :: 0 <= i < |sources| ==> IntSource(sources[i])
    ensures SameDepths(names + DepthsIn(sources), Register(k, sources).value.globals)
    decreases |sources|
  {
    if sources == [] {
      assert names + map[] == names;
    } else {
      var s, k1, rest := sources[0], RegisterOne(k, sources[0]).value, DepthsIn(sources[1..]);
      if s.GlobalSource? {
        var one: map<string, nat> := map[s.variable.name := s.variable.typ.pointerDepth];
        assert IntSource(s);
        assert names + (one + rest) == names + one + rest;
        DepthsKnown(k1, sources[1..], names + one);
      } else {
        DepthsKnown(k1, sources[1..], names);
      }
    }
  }

  // The analyzer accepts a unit of integers and pointers if and only if no
  // global name is taken twice, the entries of a function agree, and every
  // body is judged well.
  lemma {:induction false} AnalyzeExact(sources: seq<Source>)
    requires forall i :: 0 <= i < |sources| ==> IntSource(sources[i])
    ensures Analyze(sources).Some?
            <==> NewNames({}, GlobalNames(sources)) && BagAgrees(multiset(FunctionsOf(sources)))
                 && AllLoose(SourceSignatures(sources), DepthsIn(sources), sources)
  {
    hide Register, AnnotateBodies, NewNames, BagAgrees, AllLoose;
    var empty := Known(map[], map[]);
    RegisterExact(sources);
    if Register(empty, sources).Some? {
      var k := Register(empty, sources).value;
      RegisteredSignatures(empty, sources);
      assert SourceSignatures(sources) + map[] == SourceSignatures(sources) && SignaturesKnown(empty) == map[];
      assert map[] + DepthsIn(sources) == DepthsIn(sources);
      DepthsKnown(empty, sources, map[]);
      IntSources(sources);
      JudgeBodies(SignaturesKnown(k), DepthsIn(sources), k.globals, sources);
    }
  }

  // ----- what is refused -----

  lemma {:induction false} EachArgument(F: Signatures, D: Depths, ps: seq<Variable>, es: seq<Expression>)
    ensures LooseArguments(F, D, ps, es)
            <==> |ps| == |es| && forall i :: 0 <= i < |es| ==> LooseExpression(F, D, es[i]) == Some(Depth(ps[i].typ.pointerDepth))
    decreases |es|
  {
    if ps != [] && es != [] {
      EachArgument(F, D, ps[1..], es[1..]);
      assert forall i :: 0 < i < |es| ==> es[i] == es[1..][i - 1];
      assert forall i :: 0 < i < |ps| ==> ps[i] == ps[1..][i - 1];
    }
  }

  // A call is accepted if and only if the function is known and the arguments
  // are as many as the parameters, each of the depth of its parameter.
  lemma {:induction false} CallExact(F: Signatures, D: Depths, T: Types, call: Call)
    requires IntSignatures(F) && Depthwise(D, T)
    ensures AnnotateCall(F, T, call).Some?
            <==> call.name in F && |F[call.name].parameters| == |call.parameters|
                 && forall i :: 0 <= i < |call.parameters| ==>
                      LooseExpression(F, D, call.parameters[i]) == Some(Depth(F[call.name].parameters[i].typ.pointerDepth))
  {
    JudgeCall(F, D, T, call);
    if call.name in F {
      EachArgument(F, D, F[call.name].parameters, call.parameters);
    }
  }

  // Behind an operand of any type: an integer literal goes with INT, whatever
  // the pointers, and with plain 32-bit integers; a string with CHAR and STRING.
  lemma {:induction false} LiteralBehind(F: Signatures, T: Types, t: Type, operation: Operator, digits: string, text: string)
    requires digits != []
    ensures UnitType(F, T, Some(t), Unit(Some(operation), IntegerLiteral(digits))).Some?
            <==> t.dataType == Int || ((t.dataType == SInt32 || t.dataType == UInt32) && !t.isPointer && t.pointerDepth == 0)
    ensures UnitType(F, T, Some(t), Unit(Some(operation), StringLiteral(text))).Some?
            <==> (t.dataType == Char || t.dataType == Str) && !t.isPointer && t.pointerDepth == 0
  {}

  // `g(5)` for `int g(int& p)`: an integer is no pointer.
  lemma {:induction false} ArgumentRefused(D: Depths, T: Types)
    requires Depthwise(D, T)
    ensures AnnotateCall(map["g" := Signature([Variable(Type(Int, true, 1), "p")], Type(Int, false, 0))], T,
                         Call("g", [Expression([Unit(None, IntegerLiteral("5"))], NO_TYPE)])) == None
  {
    var F: Signatures := map["g" := Signature([Variable(Type(Int, true, 1), "p")], Type(Int, false, 0))];
    var u := Unit(None, IntegerLiteral("5"));
    assert [u][1..] == [] && LooseUnit(F, D, None, u) == Some(Depth(0)) && LooseUnits(F, D, Some(Depth(0)), []) == Some(Depth(0));
    CallExact(F, D, T, Call("g", [Expression([u], NO_TYPE)]));
  }
}
