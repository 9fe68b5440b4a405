/**
  Semantic preservation: whatever a depth-exact program with safe
  materialisation computes, the machine running the emitted code computes too.
 */
module Preservation {
  import opened Wrappers
  import opened Ast
  import opened Ir
  import opened Lowering
  import opened Semantics
  import opened DepthExact
  import opened Soundness
  import opened Materialise
  import opened Relation
  import opened Compilation
  import opened Entry
  import opened Simulation

  // ----- expressions -----

  // The value computed so far, in source, machine and type terms.
  ghost predicate TotalRel(m: Module, w: World, sv: Option<Val>, tv: Option<Value>, d: Option<nat>) {
    && sv.Some? == tv.Some? == d.Some?
    && (sv.Some? ==>
          && HasDepth(w.sm, sv.value, d.value) && tv.value.Type() == TyOf(d.value)
          && ValRel(w.f, sv.value, ValueOf(m, w.fr, tv.value)))
  }

  lemma {:induction false} DefinedRel(f: map<nat, nat>, v: Val, t: Val)
    requires ValRel(f, v, t) && v != Undef
    ensures t != Undef
  {}

  lemma {:induction false} TotalLater(m: Module, w: World, w': World, sv: Option<Val>, tv: Option<Value>, d: Option<nat>)
    requires TotalRel(m, w, sv, tv, d) && WorldLater(w, w')
    ensures TotalRel(m, w', sv, tv, d)
  {
    if sv.Some? {
      DefinedRel(w.f, sv.value, ValueOf(m, w.fr, tv.value));
      ValueStays(m, w.fr, w'.fr, tv.value);
      ValRelLater(w.f, w'.f, sv.value, ValueOf(m, w.fr, tv.value));
    }
  }

  // One addition or subtraction.
  lemma {:induction false} SimArith(P: Program, m: Module, st: Statuses, g: Gen, w: World, rest: seq<Frame>, a: Val, ta: Value, op: Operator, b: Val, tb: Value)
    returns (w': World)
    requires Rel(P, m, st, g, w) && a.IntV? && b.IntV? && (op == Plus || op == Minus) && ta.Type() == I32
    requires ValueOf(m, w.fr, ta) == a && ValueOf(m, w.fr, tb) == b
    requires CodeIn(m, w.fr.name, Combine(g, Some(ta), Some(op), tb).value.gen)
    ensures Simulated(P, m, rest, st, Combine(g, Some(ta), Some(op), tb).value, w, w', Apply(Some(a), Some(op), b).value, w.sm, 0)
  {
    var i := if op == Plus then Add(g.next, ta, tb) else Sub(g.next, ta, tb);
    w' := w.(fr := w.fr.Set(g.next, Apply(Some(a), Some(op), b).value));
    RunEmitted(m, g, i, w, rest);
    RelAdvance(P, m, st, g, i, w, w'.fr);
  }

  lemma {:induction false} IdentifierParts(P: Program, fuel: nat, T: Depths, st: Statuses, g: Gen, w: World, m: Module, o: Operand)
    requires o.Identifier? && WellTyped(w.sm) && EnvTyped(T, w.env, w.sm) && Rel(P, m, st, g, w)
    requires DepthOfOperand(P.signatures, T, o).Some? && CheckOperand(g.scopes, st, o).Some? && LowerOperand(P.signatures, g, o).Some?
    requires EvalOperand(P, fuel, w.env, w.sm, o).Ok?
    ensures var k := LookupIn<nat>(g.scopes, o.name);
            && k.Some? && k.value < |st| && k.value in w.L && w.L[k.value] < |w.sm|
            && LowerOperand(P.signatures, g, o) == Some(LowerUse(g, k.value, o.indirection, o.steps))
            && CheckOperand(g.scopes, st, o) == CheckUse(st, k.value, o.indirection)
            && DepthOfOperand(P.signatures, T, o) == DepthOfUse(g.vars[k.value].depth, o.indirection, o.steps)
            && EvalUse(w.sm, w.L[k.value], o.indirection, o.steps).Ok?
            && EvalOperand(P, fuel, w.env, w.sm, o) == Ok((EvalUse(w.sm, w.L[k.value], o.indirection, o.steps).value, w.sm))
  {
    hide SlotRel, GlobalsRel, MemRel, FrameRel, EnvRel, LowerUse, CheckUse, EvalUse, WF, WellTyped, EnvTyped;
    LookupTyped(T, w.env, w.sm, o.name);
    LookupRel(g.scopes, w.env, w.L, o.name);
    var k := LookupIn<nat>(g.scopes, o.name).value;
    var u := EvalVariable(w.env, w.sm, o.name, o.indirection, o.steps);
    assert u == EvalUse(w.sm, w.L[k], o.indirection, o.steps);
  }

  lemma {:induction false} SimIdentifier(P: Program, m: Module, fuel: nat, T: Depths, st: Statuses, g: Gen, w: World, rest: seq<Frame>, o: Operand)
    returns (w': World)
    requires o.Identifier? && WellTyped(w.sm) && EnvTyped(T, w.env, w.sm) && Rel(P, m, st, g, w)
    requires DepthOfOperand(P.signatures, T, o).Some? && CheckOperand(g.scopes, st, o).Some? && LowerOperand(P.signatures, g, o).Some?
    requires CodeIn(m, w.fr.name, LowerOperand(P.signatures, g, o).value.gen)
    requires EvalOperand(P, fuel, w.env, w.sm, o).Ok?
    ensures var e := EvalOperand(P, fuel, w.env, w.sm, o).value;
            Simulated(P, m, rest, CheckOperand(g.scopes, st, o).value, LowerOperand(P.signatures, g, o).value, w, w', e.0, e.1,
                      DepthOfOperand(P.signatures, T, o).value)
  {
    IdentifierParts(P, fuel, T, st, g, w, m, o);
    w' := SimUse(P, m, st, g, w, rest, LookupIn<nat>(g.scopes, o.name).value, o.indirection, o.steps);
  }

  lemma {:induction false} SimulatedAfter(P: Program, m: Module, rest: seq<Frame>, st': Statuses, low: Lowered, w: World, w1: World, w': World, v: Val, mem': Mem,
                       d: nat)
    requires Runs(m, rest, w, w1) && WorldLater(w, w1) && w1.env == w.env && w1.L == w.L
    requires Simulated(P, m, rest, st', low, w1, w', v, mem', d)
    ensures Simulated(P, m, rest, st', low, w, w', v, mem', d)
  {
    RunsTrans(m, rest, w, w1, w');
    LaterTrans(w, w1, w');
  }

  ghost predicate Ready(P: Program, m: Module, starts: map<string, Gen>, T: Depths, st: Statuses, g: Gen, w: World) {
    Compiled(P, m, starts) && Typed(P, T, w.env, w.sm) && Rel(P, m, st, g, w)
  }

  lemma {:induction false} SimOperand(P: Program, m: Module, starts: map<string, Gen>, fuel: nat, T: Depths, st: Statuses, g: Gen, w: World,
                                      rest: seq<Frame>, o: Operand) returns (w': World)
    requires Ready(P, m, starts, T, st, g, w)
    requires DepthOfOperand(P.signatures, T, o).Some? && CheckOperand(g.scopes, st, o).Some? && LowerOperand(P.signatures, g, o).Some?
    requires CodeIn(m, w.fr.name, LowerOperand(P.signatures, g, o).value.gen)
    requires EvalOperand(P, fuel, w.env, w.sm, o).Ok?
    ensures var e := EvalOperand(P, fuel, w.env, w.sm, o).value;
            Simulated(P, m, rest, CheckOperand(g.scopes, st, o).value, LowerOperand(P.signatures, g, o).value, w, w', e.0, e.1,
                      DepthOfOperand(P.signatures, T, o).value)
    decreases fuel, o, 1
  {
    match o
    case IntegerLiteral(digits) =>
      w' := w;
      ReachesRefl(m, Conf(w, rest));
    case StringLiteral(_) =>
    case CallOperand(call) =>
      w' := SimCall(P, m, starts, fuel, T, st, g, w, rest, call);
    case Identifier(name, indirection, steps) =>
      w' := SimIdentifier(P, m, fuel, T, st, g, w, rest, o);
  }

  lemma {:induction false} SimUnit(P: Program, m: Module, starts: map<string, Gen>, fuel: nat, T: Depths, st: Statuses, g: Gen, w: World,
                                   rest: seq<Frame>, sv: Option<Val>, tv: Option<Value>, d: Option<nat>, u: Unit) returns (w': World)
    requires Ready(P, m, starts, T, st, g, w) && TotalRel(m, w, sv, tv, d)
    requires DepthOfUnit(P.signatures, T, d, u).Some? && CheckUnit(g.scopes, st, u).Some? && LowerUnit(P.signatures, g, tv, u).Some?
    requires CodeIn(m, w.fr.name, LowerUnit(P.signatures, g, tv, u).value.gen)
    requires EvalUnit(P, fuel, w.env, w.sm, sv, u).Ok?
    ensures var e := EvalUnit(P, fuel, w.env, w.sm, sv, u).value;
            Simulated(P, m, rest, CheckUnit(g.scopes, st, u).value, LowerUnit(P.signatures, g, tv, u).value, w, w', e.0, e.1,
                      DepthOfUnit(P.signatures, T, d, u).value)
    decreases fuel, u, 2
  {
    hide CheckOperand, Runs, Exact, GlobalsDistinct, FunctionCompiled, WellTyped;
    var low := LowerOperand(P.signatures, g, u.operand).value;
    CodeEarlier(m, w.fr.name, low.gen, LowerUnit(P.signatures, g, tv, u).value.gen);
    var w1 := SimOperand(P, m, starts, fuel, T, st, g, w, rest, u.operand);
    if tv == None {
      w' := w1;
    } else {
      TotalLater(m, w, w1, sv, tv, d);
      SoundOperand(P, fuel, T, w.env, w.sm, u.operand);
      w' := SimArith(P, m, CheckUnit(g.scopes, st, u).value, low.gen, w1, rest, sv.value, tv.value, u.operation.value,
                     EvalOperand(P, fuel, w.env, w.sm, u.operand).value.0, low.value);
      var e := EvalUnit(P, fuel, w.env, w.sm, sv, u).value;
      SimulatedAfter(P, m, rest, CheckUnit(g.scopes, st, u).value, LowerUnit(P.signatures, g, tv, u).value, w, w1, w', e.0, e.1, 0);
    }
  }

  lemma {:induction false} SimUnits(P: Program, m: Module, starts: map<string, Gen>, fuel: nat, T: Depths, st: Statuses, g: Gen, w: World,
                                    rest: seq<Frame>, sv: Option<Val>, tv: Option<Value>, d: Option<nat>, us: seq<Unit>) returns (w': World)
    requires Ready(P, m, starts, T, st, g, w) && TotalRel(m, w, sv, tv, d)
    requires DepthOfUnits(P.signatures, T, d, us).Some? && CheckUnits(g.scopes, st, us).Some? && LowerUnits(P.signatures, g, tv, us).Some?
    requires CodeIn(m, w.fr.name, LowerUnits(P.signatures, g, tv, us).value.gen)
    requires EvalUnits(P, fuel, w.env, w.sm, sv, us).Ok?
    ensures var e := EvalUnits(P, fuel, w.env, w.sm, sv, us).value;
            Simulated(P, m, rest, CheckUnits(g.scopes, st, us).value, LowerUnits(P.signatures, g, tv, us).value, w, w', e.0, e.1,
                      DepthOfUnits(P.signatures, T, d, us).value)
    decreases fuel, us, 0
  {
    hide CodeIn, LowerUnit, EvalUnit, ValRel, LaterHere, Grows;
    if us == [] {
      w' := w;
      ReachesRefl(m, Conf(w, rest));
    } else {
      var F := P.signatures;
      var low := LowerUnit(F, g, tv, us[0]).value;
      CodeEarlier(m, w.fr.name, low.gen, LowerUnits(F, g, tv, us).value.gen);
      var w1 := SimUnit(P, m, starts, fuel, T, st, g, w, rest, sv, tv, d, us[0]);
      SoundUnit(P, fuel, T, w.env, w.sm, sv, d, us[0]);
      var e1 := EvalUnit(P, fuel, w.env, w.sm, sv, us[0]).value;
      TypedLater(P, T, w.env, w.sm, e1.1);
      w' := SimUnits(P, m, starts, fuel, T, CheckUnit(g.scopes, st, us[0]).value, low.gen, w1, rest, Some(e1.0), Some(low.value),
                     DepthOfUnit(F, T, d, us[0]), us[1..]);
      var e := EvalUnits(P, fuel, w.env, w.sm, sv, us).value;
      SimulatedAfter(P, m, rest, CheckUnits(g.scopes, st, us).value, LowerUnits(F, g, tv, us).value, w, w1, w', e.0, e.1,
                     DepthOfUnits(F, T, d, us).value);
    }
  }

  lemma {:induction false} SimExpression(P: Program, m: Module, starts: map<string, Gen>, fuel: nat, T: Depths, st: Statuses, g: Gen, w: World,
                                         rest: seq<Frame>, e: Expression) returns (w': World)
    requires Ready(P, m, starts, T, st, g, w)
    requires DepthOfExpression(P.signatures, T, e).Some? && CheckExpression(g.scopes, st, e).Some? && LowerExpression(P.signatures, g, e).Some?
    requires CodeIn(m, w.fr.name, LowerExpression(P.signatures, g, e).value.gen)
    requires EvalExpression(P, fuel, w.env, w.sm, e).Ok?
    ensures var r := EvalExpression(P, fuel, w.env, w.sm, e).value;
            Simulated(P, m, rest, CheckExpression(g.scopes, st, e).value, LowerExpression(P.signatures, g, e).value, w, w', r.0, r.1,
                      DepthOfExpression(P.signatures, T, e).value)
    decreases fuel, e, 1
  {
    w' := SimUnits(P, m, starts, fuel, T, st, g, w, rest, None, None, None, e.units);
  }

  lemma {:induction false} SimArguments(P: Program, m: Module, starts: map<string, Gen>, fuel: nat, T: Depths, st: Statuses, g: Gen, w: World,
                                        rest: seq<Frame>, ps: seq<Variable>, es: seq<Expression>) returns (w': World)
    requires Ready(P, m, starts, T, st, g, w)
    requires ArgumentsFit(P.signatures, T, ps, es) && CheckArguments(g.scopes, st, es).Some? && LowerArguments(P.signatures, g, es).Some?
    requires CodeIn(m, w.fr.name, LowerArguments(P.signatures, g, es).value.0)
    requires EvalArguments(P, fuel, w.env, w.sm, es).Ok?
    ensures var e := EvalArguments(P, fuel, w.env, w.sm, es).value; var r := LowerArguments(P.signatures, g, es).value;
            && Runs(m, rest, w, w') && WorldLater(w, w') && w'.env == w.env && w'.L == w.L && w'.sm == e.1
            && Rel(P, m, CheckArguments(g.scopes, st, es).value, r.0, w')
            && ValuesRel(w'.f, e.0, ValuesOf(m, w'.fr, r.1))
    decreases fuel, es, 0
  {
    hide ValRel, Exact, GlobalsDistinct, FunctionCompiled, WellTyped, EnvTyped, ValuesOf, Conf,
      LowerExpression, EvalExpression, ValueOf, DepthOfExpression, WF;
    if es == [] {
      w' := w;
      ReachesRefl(m, Conf(w, rest));
    } else {
      var F := P.signatures;
      var low := LowerExpression(F, g, es[0]).value;
      CodeEarlier(m, w.fr.name, low.gen, LowerArguments(F, g, es).value.0);
      var w1 := SimExpression(P, m, starts, fuel, T, st, g, w, rest, es[0]);
      SoundExpression(P, fuel, T, w.env, w.sm, es[0]);
      var e1 := EvalExpression(P, fuel, w.env, w.sm, es[0]).value;
      TypedLater(P, T, w.env, w.sm, e1.1);
      w' := SimArguments(P, m, starts, fuel, T, CheckExpression(g.scopes, st, es[0]).value, low.gen, w1, rest, ps[1..], es[1..]);
      RunsTrans(m, rest, w, w1, w');
      LaterTrans(w, w1, w');
      ValuesCons(m, w1, w', e1.0, low.value, EvalArguments(P, fuel, w.env, e1.1, es[1..]).value.0, LowerArguments(F, low.gen, es[1..]).value.1);
    }
  }

  lemma {:induction false} ValuesCons(m: Module, w: World, w': World, v: Val, t: Value, vs: seq<Val>, ts: seq<Value>)
    requires v != Undef && ValRel(w.f, v, ValueOf(m, w.fr, t)) && WorldLater(w, w')
    requires ValuesRel(w'.f, vs, ValuesOf(m, w'.fr, ts))
    ensures ValuesRel(w'.f, [v] + vs, ValuesOf(m, w'.fr, [t] + ts))
  {
    hide Extends, Keeps;
    DefinedRel(w.f, v, ValueOf(m, w.fr, t));
    ValueStays(m, w.fr, w'.fr, t);
    ValRelLater(w.f, w'.f, v, ValueOf(m, w.fr, t));
    assert ValuesOf(m, w'.fr, [t] + ts) == [ValueOf(m, w'.fr, t)] + ValuesOf(m, w'.fr, ts);
  }

  // ----- calls -----

  // What a finished activation leaves behind: memory, map and result.
  ghost predicate LeftBehind(base: nat, w: World, w': World, v: Val, tv: Val) {
    && MemRel(w'.f, w'.sm, w'.tm) && SubMap(w.f, w'.f) && Extends(w.sm, w'.sm) && Keeps(base, w, w')
    && v != Undef && ValRel(w'.f, v, tv)
  }

  // The caller's variables are where they were.
  lemma {:induction false} RelAfterCall(P: Program, m: Module, st: Statuses, g: Gen, i: Instruction, w: World, w1: World, v: Val, tv: Val)
    requires Rel(P, m, st, g, w) && LeftBehind(|w.sm|, w, w1, v, tv)
    ensures var w' := w.(sm := w1.sm, f := w1.f, tm := w1.tm, fr := w.fr.Set(g.next, tv));
            Rel(P, m, st, Emit(g, i), w') && WorldLater(w, w')
  {
    var w2 := w.(fr := w.fr.Set(g.next, tv));
    RelAdvance(P, m, st, g, i, w, w2.fr);
    var w' := w2.(sm := w1.sm, f := w1.f, tm := w1.tm);
    forall k | 0 <= k < |st| ensures SlotRel(m, st[k], g.vars[k], k, w') {
      assert SlotRel(m, st[k], g.vars[k], k, w2);
      if st[k] == InRegister {
        ValRelLater(w.f, w1.f, w.sm[w.L[k]].val, ValueOf(m, w2.fr, g.vars[k].variable));
      }
    }
    assert FrameRel(Emit(g, i), w');
  }

  lemma {:induction false} CallParts(P: Program, fuel: nat, g: Gen, env: Env, mem: Mem, call: Call)
    requires Exact(P) && WF(g)
    requires EvalCall(P, fuel, env, mem, call).Ok? && LowerCall(P.signatures, g, call).Some?
    ensures call.name in P.signatures && call.name in P.functions && fuel > 0
    ensures var e := EvalArguments(P, fuel, env, mem, call.parameters);
            e.Ok? && EvalCall(P, fuel, env, mem, call) == Invoke(P, fuel - 1, call.name, e.value.0, e.value.1)
    ensures var l := LowerArguments(P.signatures, g, call.parameters);
            && l.Some?
            && LowerCall(P.signatures, g, call)
               == Some(Lowered(Emit(l.value.0, CallFunction(l.value.0.next, call.name, l.value.1)),
                               Reg(l.value.0.next, TyOf(P.signatures[call.name].typ.pointerDepth))))
  {
    assert SignatureExact(P, call.name);
  }

  lemma {:induction false} SimCall(P: Program, m: Module, starts: map<string, Gen>, fuel: nat, T: Depths, st: Statuses, g: Gen, w: World,
                                   rest: seq<Frame>, call: Call) returns (w': World)
    requires Ready(P, m, starts, T, st, g, w)
    requires DepthOfCall(P.signatures, T, call).Some? && CheckArguments(g.scopes, st, call.parameters).Some?
    requires LowerCall(P.signatures, g, call).Some?
    requires CodeIn(m, w.fr.name, LowerCall(P.signatures, g, call).value.gen)
    requires EvalCall(P, fuel, w.env, w.sm, call).Ok?
    ensures var r := EvalCall(P, fuel, w.env, w.sm, call).value;
            Simulated(P, m, rest, CheckArguments(g.scopes, st, call.parameters).value, LowerCall(P.signatures, g, call).value, w, w', r.0, r.1,
                      DepthOfCall(P.signatures, T, call).value)
    decreases fuel, call, 1
  {
    hide EvalCall, LowerCall, Invoke, LaterHere, Straight, ValuesRel, GlobalsDistinct, FunctionCompiled,
      LowerArguments, EvalArguments, CheckArguments;
    var F := P.signatures;
    CallParts(P, fuel, g, w.env, w.sm, call);
    var (g1, targs) := LowerArguments(F, g, call.parameters).value;
    var i := CallFunction(g1.next, call.name, targs);
    var (vs, mem1) := EvalArguments(P, fuel, w.env, w.sm, call.parameters).value;
    CodeEarlier(m, w.fr.name, g1, Emit(g1, i));
    var w1 := SimArguments(P, m, starts, fuel, T, st, g, w, rest, F[call.name].parameters, call.parameters);
    SoundArguments(P, fuel, T, w.env, w.sm, F[call.name].parameters, call.parameters);
    var st1 := CheckArguments(g.scopes, st, call.parameters).value;
    w' := SimCallOut(P, m, starts, fuel - 1, st1, g1, w1, rest, call.name, vs, targs);
    var r := Invoke(P, fuel - 1, call.name, vs, mem1).value;
    SimulatedAfter(P, m, rest, st1, LowerCall(F, g, call).value, w, w1, w', r.0, r.1, F[call.name].typ.pointerDepth);
  }

  lemma {:induction false} SimPush(m: Module, g: Gen, w: World, rest: seq<Frame>, name: string, vs: seq<Val>, targs: seq<Value>)
    requires FrameRel(g, w) && CodeIn(m, w.fr.name, Emit(g, CallFunction(g.next, name, targs))) && name in m.functions
    requires ValuesRel(w.f, vs, ValuesOf(m, w.fr, targs))
    ensures InstructionAt(m, w.fr) == Some(CallFunction(g.next, name, targs))
    ensures Reaches(m, Conf(w, rest), Running(Frame(name, 0, 0, ValuesOf(m, w.fr, targs), map[]), [w.fr] + rest, w.tm))
  {
    ArgumentsDefined(m, w, vs, targs);
    AtEmitted(m, g, CallFunction(g.next, name, targs), w.fr);
    ReachesStep(m, Conf(w, rest));
  }

  lemma {:induction false} SimPop(m: Module, fr: Frame, rest: seq<Frame>, id: nat, name: string, targs: seq<Value>, tv: Val, tm: seq<Val>)
    requires InstructionAt(m, fr) == Some(CallFunction(id, name, targs))
    ensures Return(m, [fr] + rest, tv, tm) == Running(fr.Set(id, tv), rest, tm)
  {
    assert ([fr] + rest)[1..] == rest;
  }

  // The call instruction: push, run the callee, pop.
  lemma {:induction false} SimCallOut(P: Program, m: Module, starts: map<string, Gen>, fuel: nat, st: Statuses, g: Gen, w: World,
                                      rest: seq<Frame>, name: string, vs: seq<Val>, targs: seq<Value>) returns (w': World)
    requires Compiled(P, m, starts) && WellTyped(w.sm) && GlobalsTyped(P, w.sm) && Rel(P, m, st, g, w)
    requires name in P.functions && name in P.signatures && ValuesFit(w.sm, P.signatures[name].parameters, vs)
    requires ValuesRel(w.f, vs, ValuesOf(m, w.fr, targs))
    requires CodeIn(m, w.fr.name, Emit(g, CallFunction(g.next, name, targs)))
    requires Invoke(P, fuel, name, vs, w.sm).Ok?
    ensures var r := Invoke(P, fuel, name, vs, w.sm).value; var d := P.signatures[name].typ.pointerDepth;
            Simulated(P, m, rest, st, Lowered(Emit(g, CallFunction(g.next, name, targs)), Reg(g.next, TyOf(d))), w, w', r.0, r.1, d)
    decreases fuel, P.functions[name].body, 4
  {
    hide ParameterNames, LowerBlock, CheckBlock, ValuesRel, Emit, Invoke, WellTyped, Reaches;
    var i := CallFunction(g.next, name, targs);
    var r := Invoke(P, fuel, name, vs, w.sm).value;
    DefinitionOf(P, name);
    InvokeParts(P, m, starts, name);
    SimPush(m, g, w, rest, name, vs, targs);
    var w1, tv := SimInvoke(P, m, starts, fuel, w, [w.fr] + rest, name, vs, ValuesOf(m, w.fr, targs));
    SimPop(m, w.fr, rest, g.next, name, targs, tv, w1.tm);
    RelAfterCall(P, m, st, g, i, w, w1, r.0, tv);
    w' := w.(sm := w1.sm, f := w1.f, tm := w1.tm, fr := w.fr.Set(g.next, tv));
    ReachesTrans(m, Conf(w, rest), Running(Frame(name, 0, 0, ValuesOf(m, w.fr, targs), map[]), [w.fr] + rest, w.tm), Conf(w', rest));
  }

  lemma {:induction false} ArgumentsDefined(m: Module, w: World, vs: seq<Val>, targs: seq<Value>)
    requires ValuesRel(w.f, vs, ValuesOf(m, w.fr, targs))
    ensures Undef !in ValuesOf(m, w.fr, targs)
  {
    forall j | 0 <= j < |vs| ensures ValuesOf(m, w.fr, targs)[j] != Undef {
      DefinedRel(w.f, vs[j], ValuesOf(m, w.fr, targs)[j]);
    }
  }

  // A whole activation, from its entry to its return.
  lemma {:induction false} SimInvoke(P: Program, m: Module, starts: map<string, Gen>, fuel: nat, w: World, rest: seq<Frame>, name: string,
                                     vs: seq<Val>, ts: seq<Val>) returns (w': World, tv: Val)
    requires Compiled(P, m, starts) && WellTyped(w.sm) && GlobalsTyped(P, w.sm)
    requires MemRel(w.f, w.sm, w.tm) && GlobalsRel(P, m, w.f)
    requires name in P.functions && ValuesFit(w.sm, P.functions[name].parameters, vs) && ValuesRel(w.f, vs, ts)
    requires Invoke(P, fuel, name, vs, w.sm).Ok?
    ensures var r := Invoke(P, fuel, name, vs, w.sm).value;
            && Reaches(m, Running(Frame(name, 0, 0, ts, map[]), rest, w.tm), Return(m, rest, tv, w'.tm))
            && LeftBehind(|w.sm|, w, w', r.0, tv) && w'.sm == r.1
    decreases fuel, P.functions[name].body, 3
  {
    hide ParameterNames, EntryStatuses, ExecBlock, LowerBlock, CheckBlock;
    var d := P.functions[name];
    InvokeParts(P, m, starts, name);
    var g := starts[name];
    DefinitionOf(P, name);
    var g1 := StartBody(g, ParameterSlots(d.parameters).value);
    EntryTyped(P, d.parameters, vs, w.sm);
    EntryRel(P, m, g, name, d.parameters, vs, ts, w.sm, w.f, w.tm);
    var w0 := EntryWorld(P, g, name, d.parameters, vs, ts, w.sm, w.f, w.tm);
    var T := [GlobalDepths(P.globals)];
    SoundBlock(P, fuel, T, [P.globals], w0.sm, ParameterDepths(d.parameters), ParameterNames(d.parameters, |w.sm|), d.typ.pointerDepth, d.body);
    var w1 := w0.(env := [P.globals]);
    var v := Invoke(P, fuel, name, vs, w.sm).value.0;
    assert w1.(env := [ParameterNames(d.parameters, |w.sm|)] + w1.env) == w0;
    w', tv := SimBlock(P, m, starts, fuel, T, EntryStatuses(|g.vars|, |d.parameters|), g1, w1, rest,
                       ParameterDepths(d.parameters), ParameterNames(d.parameters, |g.vars|), ParameterNames(d.parameters, |w.sm|),
                       d.typ.pointerDepth, d.body);
    LeaveActivation(w, w1, w', ParameterCells(d.parameters, vs), v, tv);
  }

  lemma {:induction false} LeaveActivation(w: World, w1: World, w': World, more: Mem, v: Val, tv: Val)
    requires w1.sm == w.sm + more && w1.f == w.f && w1.base == |w.sm| && MemLater(w1, w')
    requires MemRel(w'.f, w'.sm, w'.tm) && v != Undef && ValRel(w'.f, v, tv)
    ensures LeftBehind(|w.sm|, w, w', v, tv)
  {
    forall l | 0 <= l < |w.sm| ensures w'.sm[l].depth == w.sm[l].depth {
      assert w1.sm[l] == w.sm[l];
    }
  }

  lemma {:induction false} InvokeParts(P: Program, m: Module, starts: map<string, Gen>, name: string)
    requires Compiled(P, m, starts) && name in P.functions
    ensures name in starts && name in m.functions && GlobalsKnown(P, starts[name])
    ensures var d, g := P.functions[name], starts[name];
            && ParameterSlots(d.parameters).Some?
            && var g1, names := StartBody(g, ParameterSlots(d.parameters).value), ParameterNames(d.parameters, |g.vars|);
            && LowerBlock(P.signatures, g1, names, d.body).Some?
            && CodeIn(m, name, LowerBlock(P.signatures, g1, names, d.body).value)
            && CheckBlock(g1.scopes, EntryStatuses(|g.vars|, |d.parameters|), names, d.body).Some?
  {
    assert FunctionCompiled(P, m, starts, name);
  }

  // ----- statements -----

  // Control falls through with the relation intact, or the activation is over.
  ghost predicate FlowSim(P: Program, m: Module, rest: seq<Frame>, st': Statuses, g': Gen, w: World, w': World, tv: Val, flow: Flow) {
    && MemLater(w, w') && w'.sm == flow.mem
    && match flow
       case Next(env, _) => w'.env == env && WorldLater(w, w') && Runs(m, rest, w, w') && Rel(P, m, st', g', w')
       case Returned(v, _) =>
         && Reaches(m, Conf(w, rest), Return(m, rest, tv, w'.tm))
         && MemRel(w'.f, w'.sm, w'.tm) && v != Undef && ValRel(w'.f, v, tv)
  }

  lemma {:induction false} FlowAfter(P: Program, m: Module, rest: seq<Frame>, st': Statuses, g': Gen, w: World, w1: World, w': World, tv: Val,
                                     flow: Flow)
    requires Runs(m, rest, w, w1) && WorldLater(w, w1)
    requires FlowSim(P, m, rest, st', g', w1, w', tv, flow)
    ensures FlowSim(P, m, rest, st', g', w, w', tv, flow)
  {
    MemLaterTrans(w, w1, w');
    if flow.Next? {
      RunsTrans(m, rest, w, w1, w');
      LaterTrans(w, w1, w');
    } else {
      ReachesTrans(m, Conf(w, rest), Conf(w1, rest), Return(m, rest, tv, w'.tm));
    }
  }

  lemma {:induction false} RelTracks(P: Program, m: Module, st: Statuses, g: Gen, w: World)
    requires Rel(P, m, st, g, w)
    ensures Tracks(st, g)
  {
    forall k | 0 <= k < |st| ensures st[k] == InRegister <==> !g.vars[k].isAlloca {
      assert SlotRel(m, st[k], g.vars[k], k, w);
    }
  }

  // ----- declarations and assignments -----

  function DeclaredWorld(g: Gen, w: World, v: Variable): World {
    World(Declare(w.env, v.name, |w.sm|), w.sm + [Cell(v.typ.pointerDepth, Undef)], w.L[|g.vars| := |w.sm|], w.f[|w.sm| := |w.tm|],
          w.fr.Set(g.next, PtrV(|w.tm|)), w.tm + [Undef], w.base)
  }

  lemma {:induction false} DeclareScopes(scopes: Scopes, env: Env, L: map<nat, nat>, name: string, k: nat, l: nat)
    requires EnvRel(scopes, env, L) && k !in L
    ensures EnvRel(Declare(scopes, name, k), Declare(env, name, l), L[k := l])
  {
    var L', scopes', env' := L[k := l], Declare(scopes, name, k), Declare(env, name, l);
    forall i | 0 <= i < |scopes'| ensures ScopeRel(scopes'[i], env'[i], L') {
      assert ScopeRel(scopes[i], env[i], L);
      assert ScopeRel(scopes[0], env[0], L);
    }
  }

  lemma {:induction false} SimDeclaration(P: Program, m: Module, st: Statuses, g: Gen, w: World, rest: seq<Frame>, v: Variable)
    requires Rel(P, m, st, g, w) && IntTyped(v.typ)
    requires LowerDeclaration(g, v).Some? && CodeIn(m, w.fr.name, LowerDeclaration(g, v).value)
    ensures var w' := DeclaredWorld(g, w, v);
            Runs(m, rest, w, w') && WorldLater(w, w') && Rel(P, m, st + [InMemory], LowerDeclaration(g, v).value, w')
  {
    var ty := TyOf(v.typ.pointerDepth);
    var g1 := Emit(g, Alloca(g.next, ty));
    var g' := LowerDeclaration(g, v).value;
    assert g'.blocks == g1.blocks;
    SimAlloca(P, m, st, g, w, rest, ty);
    var w1 := w.(fr := w.fr.Set(g.next, PtrV(|w.tm|)));
    RelDeclare(P, m, st, g, g', w, w1, v);
  }

  lemma {:induction false} DeclaredSlot(m: Module, st: Statuses, g: Gen, g': Gen, w: World, w1: World, v: Variable, k: nat)
    requires WF(g) && LowerDeclaration(g, v) == Some(g') && IntTyped(v.typ) && w1 == w.(fr := w.fr.Set(g.next, PtrV(|w.tm|)))
    requires SlotsRel(m, st, Emit(g, Alloca(g.next, TyOf(v.typ.pointerDepth))), w1) && |g.vars| !in w.L && MemRel(w.f, w.sm, w.tm) && k <= |st|
    ensures SlotRel(m, (st + [InMemory])[k], g'.vars[k], k, DeclaredWorld(g, w, v))
  {
    var w' := DeclaredWorld(g, w, v);
    if k < |st| {
      assert SlotRel(m, st[k], g.vars[k], k, w1);
      if st[k] == InRegister {
        ValRelLater(w.f, w'.f, w.sm[w.L[k]].val, ValueOf(m, w'.fr, g.vars[k].variable));
      }
    }
  }

  // The new cell is one more on both sides.
  lemma {:induction false} DeclaredMemory(P: Program, m: Module, g: Gen, w: World, w1: World, v: Variable)
    requires MemRel(w.f, w.sm, w.tm) && GlobalsRel(P, m, w.f)
    requires w1 == w.(fr := w.fr.Set(g.next, PtrV(|w.tm|))) && WorldLater(w, w1) && w.base <= |w.sm| && |g.vars| !in w.L
    ensures var w' := DeclaredWorld(g, w, v);
            && MemRel(w'.f, w'.sm, w'.tm) && GlobalsRel(P, m, w'.f) && w'.base <= |w'.sm| && WorldLater(w, w')
  {
    hide EnvRel;
    var w' := DeclaredWorld(g, w, v);
    MemRelGrow(w.f, w.sm, w.tm, [Cell(v.typ.pointerDepth, Undef)]);
    MemRelNew(w.f, w'.sm, w.tm, |w.sm|, Undef);
  }

  lemma {:induction false} DeclaredCells(g: Gen, g': Gen, w: World, w1: World, v: Variable)
    requires WF(g) && LowerDeclaration(g, v) == Some(g') && w1 == w.(fr := w.fr.Set(g.next, PtrV(|w.tm|)))
    requires ScopesIn(g.scopes, |g.vars|) && EnvRel(g.scopes, w.env, w.L)
    requires var e := Emit(g, Alloca(g.next, TyOf(v.typ.pointerDepth))); FrameRel(e, w1) && CellsRel(e, w1)
    ensures var w' := DeclaredWorld(g, w, v); FrameRel(g', w') && CellsRel(g', w') && EnvRel(g'.scopes, w'.env, w'.L)
  {
    assert |g.vars| !in w1.L;
    DeclareScopes(g.scopes, w.env, w.L, v.name, |g.vars|, |w.sm|);
  }

  lemma {:induction false} DeclaredSlots(m: Module, st: Statuses, g: Gen, g': Gen, w: World, w1: World, v: Variable)
    requires WF(g) && LowerDeclaration(g, v) == Some(g') && IntTyped(v.typ) && w1 == w.(fr := w.fr.Set(g.next, PtrV(|w.tm|)))
    requires SlotsRel(m, st, Emit(g, Alloca(g.next, TyOf(v.typ.pointerDepth))), w1) && |g.vars| !in w.L && MemRel(w.f, w.sm, w.tm)
    ensures SlotsRel(m, st + [InMemory], g', DeclaredWorld(g, w, v))
  {
    hide SlotRel, MemRel;
    forall k | 0 <= k < |st| + 1 ensures SlotRel(m, (st + [InMemory])[k], g'.vars[k], k, DeclaredWorld(g, w, v)) {
      DeclaredSlot(m, st, g, g', w, w1, v, k);
    }
  }

  lemma {:induction false} RelDeclare(P: Program, m: Module, st: Statuses, g: Gen, g': Gen, w: World, w1: World, v: Variable)
    requires WF(g) && LowerDeclaration(g, v) == Some(g') && IntTyped(v.typ)
    requires w1 == w.(fr := w.fr.Set(g.next, PtrV(|w.tm|))) && WorldLater(w, w1)
    requires Rel(P, m, st, Emit(g, Alloca(g.next, TyOf(v.typ.pointerDepth))), w1)
    ensures WorldLater(w, DeclaredWorld(g, w, v)) && Rel(P, m, st + [InMemory], g', DeclaredWorld(g, w, v))
  {
    hide FrameRel, EnvRel, SlotsRel, MemRel, GlobalsRel, WorldLater, DeclaredWorld, LowerDeclaration, ScopesIn;
    DeclaredCells(g, g', w, w1, v);
    DeclaredMemory(P, m, g, w, w1, v);
    DeclaredSlots(m, st, g, g', w, w1, v);
  }

  // The store at the end of an assignment.
  lemma {:induction false} SimStore(P: Program, m: Module, st: Statuses, g: Gen, w: World, rest: seq<Frame>, value: Value, place: Value, v: Val,
                                    c: nat) returns (w': World)
    requires Rel(P, m, st, g, w) && CodeIn(m, w.fr.name, Emit(g, Store(value, place)))
    requires c in w.f && ValueOf(m, w.fr, place) == PtrV(w.f[c]) && v != Undef && ValRel(w.f, v, ValueOf(m, w.fr, value))
    ensures Runs(m, rest, w, w') && WorldLater(w, w') && Rel(P, m, st, Emit(g, Store(value, place)), w')
    ensures w'.env == w.env && w'.L == w.L && w'.sm == w.sm[c := w.sm[c].(val := v)]
  {
    hide CodeIn, ValueOf, ValRel, EnvRel, FreshCode, Straight, Reaches, SubMap, Frame.Set;
    var i, t := Store(value, place), ValueOf(m, w.fr, value);
    DefinedRel(w.f, v, t);
    RunEmitted(m, g, i, w, rest);
    RelAdvance(P, m, st, g, i, w, w.fr.Next());
    var w1 := w.(fr := w.fr.Next());
    w' := w1.(sm := w.sm[c := w.sm[c].(val := v)], tm := w.tm[w.f[c] := t]);
    MemRelStore(w.f, w.sm, w.tm, c, v, t);
    forall k | 0 <= k < |st| ensures SlotRel(m, st[k], g.vars[k], k, w') {
      assert SlotRel(m, st[k], g.vars[k], k, w1);
    }
    assert FrameRel(Emit(g, i), w');
  }

  lemma {:induction false} AssignmentEval(P: Program, fuel: nat, env: Env, mem: Mem, target: string, steps: nat, e: Expression)
    requires ExecAssignment(P, fuel, env, mem, target, steps, e).Ok?
    ensures var l := LookupIn<nat>(env, target);
            && l.Some? && l.value < |mem| && Chase(mem, l.value, steps).Ok? && EvalExpression(P, fuel, env, mem, e).Ok?
            && var c, r := Chase(mem, l.value, steps).value, EvalExpression(P, fuel, env, mem, e).value;
            && c < |r.1|
            && ExecAssignment(P, fuel, env, mem, target, steps, e) == Ok(Next(env, r.1[c := r.1[c].(val := r.0)]))
  {}

  // The code of an assignment; the cast of a pointer is no code at all.
  lemma {:induction false} AssignmentCode(F: Signatures, m: Module, name: string, g: Gen, target: string, steps: nat, e: Expression)
    requires WF(g) && LowerAssignment(F, g, target, steps, e).Some?
    requires CodeIn(m, name, LowerAssignment(F, g, target, steps, e).value)
    ensures var k := LookupIn<nat>(g.scopes, target);
            && k.Some? && k.value < |g.vars|
            && var p := LowerDereference(g, k.value, steps);
            && CodeIn(m, name, p.gen) && LowerExpression(F, p.gen, e).Some?
            && var low := LowerExpression(F, p.gen, e).value;
            && CodeIn(m, name, low.gen)
            && ((e.evaluatedType.isPointer ==> low.value.Type() == Ptr) ==>
                  LowerAssignment(F, g, target, steps, e) == Some(Emit(low.gen, Store(low.value, p.value))))
  {
    var k := Lookup(g, target).value;
    var p := LowerDereference(g, k, steps);
    var low := LowerExpression(F, p.gen, e).value;
    var cast := if e.evaluatedType.isPointer then CastToPointer(low.gen, low.value) else low;
    GrowsTrans(low.gen, cast.gen, Emit(cast.gen, Store(cast.value, p.value)));
    CodeEarlier(m, name, low.gen, LowerAssignment(F, g, target, steps, e).value);
    CodeEarlier(m, name, p.gen, low.gen);
  }

  lemma {:induction false} SimAssignment(P: Program, m: Module, starts: map<string, Gen>, fuel: nat, T: Depths, st: Statuses, g: Gen, w: World,
                                         rest: seq<Frame>, target: string, steps: nat, e: Expression) returns (w': World)
    requires Ready(P, m, starts, T, st, g, w)
    requires AssignmentFits(P.signatures, T, target, steps, e) && CheckAssignment(g.scopes, st, target, e).Some?
    requires LowerAssignment(P.signatures, g, target, steps, e).Some?
    requires CodeIn(m, w.fr.name, LowerAssignment(P.signatures, g, target, steps, e).value)
    requires ExecAssignment(P, fuel, w.env, w.sm, target, steps, e).Ok?
    ensures FlowSim(P, m, rest, CheckAssignment(g.scopes, st, target, e).value, LowerAssignment(P.signatures, g, target, steps, e).value, w, w',
                    Undef, ExecAssignment(P, fuel, w.env, w.sm, target, steps, e).value)
    decreases fuel, e, 2
  {
    hide LowerDereference, LowerExpression, CheckExpression, LowerAssignment;
    var F := P.signatures;
    AssignmentEval(P, fuel, w.env, w.sm, target, steps, e);
    AssignmentCode(F, m, w.fr.name, g, target, steps, e);
    LookupRel(g.scopes, w.env, w.L, target);
    var k := LookupIn<nat>(g.scopes, target).value;
    var p := LowerDereference(g, k, steps);
    var low := LowerExpression(F, p.gen, e).value;
    var st' := CheckAssignment(g.scopes, st, target, e).value;
    assert st' == CheckExpression(g.scopes, st[k := InMemory], e).value;
    var w1 := SimDereference(P, m, st, g, w, rest, k, steps);
    var w2 := SimExpression(P, m, starts, fuel, T, st[k := InMemory], p.gen, w1, rest, e);
    SoundExpression(P, fuel, T, w.env, w.sm, e);
    w' := SimPlace(P, m, st', low.gen, w1, w2, rest, low.value, p.value, EvalExpression(P, fuel, w.env, w.sm, e).value.0,
                   Chase(w.sm, w.L[k], steps).value);
    RunsTrans(m, rest, w, w1, w');
    LaterTrans(w, w1, w');
  }

  // The place was computed in w1, the value in w2.
  lemma {:induction false} SimPlace(P: Program, m: Module, st: Statuses, g: Gen, w1: World, w2: World, rest: seq<Frame>, value: Value,
                                    place: Value, v: Val, c: nat) returns (w': World)
    requires Runs(m, rest, w1, w2) && WorldLater(w1, w2) && w2.env == w1.env && w2.L == w1.L
    requires c in w1.f && ValueOf(m, w1.fr, place) == PtrV(w1.f[c])
    requires Rel(P, m, st, g, w2) && CodeIn(m, w2.fr.name, Emit(g, Store(value, place)))
    requires v != Undef && ValRel(w2.f, v, ValueOf(m, w2.fr, value))
    ensures Runs(m, rest, w1, w') && WorldLater(w1, w') && Rel(P, m, st, Emit(g, Store(value, place)), w')
    ensures w'.env == w1.env && w'.L == w1.L && c < |w2.sm| && w'.sm == w2.sm[c := w2.sm[c].(val := v)]
  {
    ValueStays(m, w1.fr, w2.fr, place);
    w' := SimStore(P, m, st, g, w2, rest, value, place, v, c);
    RunsTrans(m, rest, w1, w2, w');
    LaterTrans(w1, w2, w');
  }

  // ----- conditional chains -----

  // The comparison: the machine's condition is what the source decides.
  lemma {:induction false} SimCondition(P: Program, m: Module, starts: map<string, Gen>, fuel: nat, T: Depths, st: Statuses, g: Gen, w: World,
                                        rest: seq<Frame>, b: Branch) returns (w': World)
    requires Ready(P, m, starts, T, st, g, w)
    requires b.condition.Some? ==> DepthOfExpression(P.signatures, T, b.condition.value) == Some(0)
    requires CheckOptional(g.scopes, st, b.condition).Some? && LowerCondition(P.signatures, g, b.condition).Some?
    requires CodeIn(m, w.fr.name, LowerCondition(P.signatures, g, b.condition).value.gen)
    requires EvalCondition(P, fuel, w.env, w.sm, b).Ok?
    ensures var r := EvalCondition(P, fuel, w.env, w.sm, b).value; var low := LowerCondition(P.signatures, g, b.condition).value;
            && Runs(m, rest, w, w') && WorldLater(w, w') && w'.env == w.env && w'.L == w.L && w'.sm == r.1
            && Rel(P, m, CheckOptional(g.scopes, st, b.condition).value, low.gen, w')
            && ValueOf(m, w'.fr, low.value) == IntV(if r.0 then 1 else 0)
    decreases fuel, b, 2
  {
    hide CodeIn, LowerExpression, EvalExpression, CheckExpression, Compiled, WF;
    match b.condition
    case None =>
      w' := w;
      ReachesRefl(m, Conf(w, rest));
    case Some(e) =>
      var c := LowerExpression(P.signatures, g, e).value;
      var i := ICmpNe(c.gen.next, c.value, Const(I32, 0));
      CodeEarlier(m, w.fr.name, c.gen, Emit(c.gen, i));
      var w1 := SimExpression(P, m, starts, fuel, T, st, g, w, rest, e);
      var v := EvalExpression(P, fuel, w.env, w.sm, e).value.0;
      RunEmitted(m, c.gen, i, w1, rest);
      w' := w1.(fr := w1.fr.Set(c.gen.next, IntV(if v.n != 0 then 1 else 0)));
      RelAdvance(P, m, CheckExpression(g.scopes, st, e).value, c.gen, i, w1, w'.fr);
      RunsTrans(m, rest, w, w1, w');
      LaterTrans(w, w1, w');
  }

  // Code lowered elsewhere in the meantime only costs certainty: whatever
  // status survives still describes this path.
  ghost predicate Weaker(st: Statuses, st': Statuses) {
    forall k :: 0 <= k < |st'| ==> st'[k] == Lost || (k < |st| && st'[k] == st[k])
  }

  lemma {:induction false} RelElsewhere(P: Program, m: Module, st: Statuses, g: Gen, st': Statuses, g': Gen, w: World)
    requires Rel(P, m, st, g, w) && VarsLater(g, g') && Weaker(st, st') && Tracks(st', g')
    requires WF(g') && g'.cur == w.fr.block && |g'.blocks[g'.cur]| == w.fr.pc
    ensures Rel(P, m, st', g', w)
  {
    forall k | 0 <= k < |st'| ensures SlotRel(m, st'[k], g'.vars[k], k, w) {
      if st'[k] != Lost {
        assert SlotRel(m, st[k], g.vars[k], k, w);
      }
    }
  }

  // A jump, seen from the block it enters; `at` is the generator there.
  lemma {:induction false} RelJump(P: Program, m: Module, st: Statuses, g: Gen, at: Gen, w: World, target: nat)
    requires Rel(P, m, st, g, w)
    requires WF(at) && at.cur == target && at.blocks[target] == [] && at.vars == g.vars && at.scopes == g.scopes && g.next <= at.next
    ensures var w' := w.(fr := w.fr.Jump(target)); Rel(P, m, st, at, w') && WorldLater(w, w')
  {
    var w' := w.(fr := w.fr.Jump(target));
    forall k | 0 <= k < |st| ensures SlotRel(m, st[k], at.vars[k], k, w') {
      assert SlotRel(m, st[k], g.vars[k], k, w);
    }
  }

  // From the comparison into the branch block or past it.
  lemma {:induction false} SimSplit(P: Program, m: Module, st: Statuses, g: Gen, c: Value, w: World, rest: seq<Frame>, taken: bool)
    returns (w': World)
    requires Rel(P, m, st, g, w) && CodeIn(m, w.fr.name, SplitAt(g, c)) && ValueOf(m, w.fr, c) == IntV(if taken then 1 else 0)
    ensures var g1 := SplitAt(g, c);
            Runs(m, rest, w, w') && WorldLater(w, w') && w' == w.(fr := w'.fr)
            && Rel(P, m, st, if taken then g1 else g1.(cur := g1.cur + 1), w')
  {
    var g1 := SplitAt(g, c);
    var at := if taken then g1 else g1.(cur := g1.cur + 1);
    var g0 := g.(blocks := g.blocks + [[], []]);
    var i := CondBr(c, |g.blocks|, |g.blocks| + 1);
    assert Emit(g0, i).blocks == g1.blocks;
    RunEmitted(m, g0, i, w, rest);
    w' := w.(fr := w.fr.Jump(at.cur));
    RelJump(P, m, st, g, at, w, at.cur);
  }

  lemma {:induction false} SimExit(P: Program, m: Module, st: Statuses, g: Gen, w: World, rest: seq<Frame>, merge: nat) returns (w': World)
    requires Rel(P, m, st, g, w) && CodeIn(m, w.fr.name, Emit(g, Br(merge)))
    requires merge < |g.blocks| && merge != g.cur && g.blocks[merge] == []
    ensures Runs(m, rest, w, w') && WorldLater(w, w') && w' == w.(fr := w'.fr)
    ensures Rel(P, m, st, Emit(g, Br(merge)).(cur := merge), w')
  {
    RunEmitted(m, g, Br(merge), w, rest);
    w' := w.(fr := w.fr.Jump(merge));
    RelJump(P, m, st, g, Emit(g, Br(merge)).(cur := merge), w, merge);
  }

  lemma {:induction false} BranchCode(F: Signatures, m: Module, name: string, g: Gen, chain: seq<Branch>, merge: nat)
    requires WF(g) && merge < |g.blocks| && merge != g.cur && g.blocks[merge] == [] && chain != []
    requires LowerChain(F, g, chain, merge).Some? && CodeIn(m, name, LowerChain(F, g, chain, merge).value)
    ensures var b, c := chain[0], LowerCondition(F, g, chain[0].condition);
            && c.Some? && CodeIn(m, name, c.value.gen)
            && var g1 := SplitAt(c.value.gen, c.value.value);
            && CodeIn(m, name, g1) && LowerBlock(F, g1, map[], b.block).Some?
            && var g2 := LowerBlock(F, g1, map[], b.block).value;
            && CodeIn(m, name, g2) && CodeIn(m, name, Close(g2, merge))
  {
    ChainStations(F, g, chain, merge);
    BranchStations(F, g, chain[0], merge);
    var b, c := chain[0], LowerCondition(F, g, chain[0].condition).value;
    var g1 := SplitAt(c.gen, c.value);
    var g2 := LowerBlock(F, g1, map[], b.block).value;
    var l := Close(g2, merge).(cur := g1.cur + 1);
    CodeEarlier(m, name, l, LowerChain(F, l, chain[1..], merge).value.(cur := l.cur));
    CodeEarlier(m, name, g2, Close(g2, merge));
    CodeEarlier(m, name, g1, g2);
    CodeEarlier(m, name, c.gen, g1);
  }

  lemma {:induction false} RelPush(P: Program, m: Module, st: Statuses, g: Gen, w: World)
    requires Rel(P, m, st, g, w)
    ensures Rel(P, m, st, g.(scopes := [map[]] + g.scopes), w.(env := [map[]] + w.env))
  {
    var g', w' := g.(scopes := [map[]] + g.scopes), w.(env := [map[]] + w.env);
    forall k | 0 <= k < |st| ensures SlotRel(m, st[k], g'.vars[k], k, w') {
      assert SlotRel(m, st[k], g.vars[k], k, w);
    }
    forall i | 0 <= i < |g'.scopes| ensures ScopeRel(g'.scopes[i], w'.env[i], w'.L) {
      if i > 0 {
        assert ScopeRel(g.scopes[i - 1], w.env[i - 1], w.L);
      }
    }
  }

  lemma {:induction false} TypedPush(P: Program, T: Depths, env: Env, mem: Mem)
    requires Typed(P, T, env, mem)
    ensures Typed(P, [map[]] + T, [map[]] + env, mem)
  {
    var T', env' := [map[]] + T, [map[]] + env;
    forall i | 0 <= i < |T'| ensures ScopeTyped(T'[i], env'[i], mem) {
      if i > 0 {
        assert ScopeTyped(T[i - 1], env[i - 1], mem);
      }
    }
  }

  // The branch is taken: its block, then the exit if control falls through.
  lemma {:induction false} SimTaken(P: Program, m: Module, starts: map<string, Gen>, fuel: nat, T: Depths, ret: nat, st: Statuses, g1: Gen,
                                    w: World, rest: seq<Frame>, b: Branch, merge: nat, st': Statuses, g': Gen) returns (w': World, tv: Val)
    requires Ready(P, m, starts, T, st, g1, w) && merge < |g1.blocks|
    requires BlockFits(P.signatures, T, map[], ret, b.block) && CheckBlock(g1.scopes, st, map[], b.block).Some?
    requires LowerBlock(P.signatures, g1, map[], b.block).Some? && !HasTerminator(g1)
    requires var g2 := LowerBlock(P.signatures, g1, map[], b.block).value;
             && CodeIn(m, w.fr.name, g2) && CodeIn(m, w.fr.name, Close(g2, merge)) && merge != g2.cur && g2.blocks[merge] == []
             && WF(g') && g'.cur == merge && g'.blocks[merge] == [] && VarsLater(Close(g2, merge), g')
    requires Tracks(st', g') && (b.block.returnValue == None ==> Weaker(CheckBlock(g1.scopes, st, map[], b.block).value, st'))
    requires ExecBranch(P, fuel, w.env, w.sm, b).Ok?
    ensures FlowSim(P, m, rest, st', g', w, w', tv, ExecBranch(P, fuel, w.env, w.sm, b).value)
    decreases fuel, b, 2
  {
    var flow := ExecBranch(P, fuel, w.env, w.sm, b).value;
    var g2, taken := LowerBlock(P.signatures, g1, map[], b.block).value, CheckBlock(g1.scopes, st, map[], b.block).value;
    RelPush(P, m, st, g1, w);
    TypedPush(P, T, w.env, w.sm);
    var w1, v := SimBlock(P, m, starts, fuel, T, st, g1, w, rest, map[], map[], map[], ret, b.block);
    tv := v;
    if flow.Returned? {
      w' := w1;
    } else {
      SoundBlock(P, fuel, T, w.env, w.sm, map[], map[], ret, b.block);
      w' := SimExit(P, m, taken, g2, w1, rest, merge);
      RelElsewhere(P, m, taken, Emit(g2, Br(merge)).(cur := merge), st', g', w');
      RunsTrans(m, rest, w, w1, w');
      LaterTrans(w, w1, w');
    }
  }

  lemma {:induction false} ChainEval(P: Program, fuel: nat, env: Env, mem: Mem, chain: seq<Branch>)
    requires chain != [] && ExecChain(P, fuel, env, mem, chain).Ok?
    ensures var c := EvalCondition(P, fuel, env, mem, chain[0]);
            && c.Ok?
            && ExecChain(P, fuel, env, mem, chain)
               == if c.value.0 then ExecBranch(P, fuel, env, c.value.1, chain[0]) else ExecChain(P, fuel, env, c.value.1, chain[1..])
  {}

  // The comparison and the jump it decides.
  lemma {:induction false} SimHead(P: Program, m: Module, starts: map<string, Gen>, fuel: nat, T: Depths, st: Statuses, g: Gen, w: World,
                                   rest: seq<Frame>, b: Branch) returns (w': World)
    requires Ready(P, m, starts, T, st, g, w)
    requires b.condition.Some? ==> DepthOfExpression(P.signatures, T, b.condition.value) == Some(0)
    requires CheckOptional(g.scopes, st, b.condition).Some? && LowerCondition(P.signatures, g, b.condition).Some?
    requires var c := LowerCondition(P.signatures, g, b.condition).value;
             CodeIn(m, w.fr.name, c.gen) && CodeIn(m, w.fr.name, SplitAt(c.gen, c.value))
    requires EvalCondition(P, fuel, w.env, w.sm, b).Ok?
    ensures var r := EvalCondition(P, fuel, w.env, w.sm, b).value; var c := LowerCondition(P.signatures, g, b.condition).value;
            var g1 := SplitAt(c.gen, c.value);
            && Runs(m, rest, w, w') && WorldLater(w, w') && w'.env == w.env && w'.sm == r.1
            && Ready(P, m, starts, T, CheckOptional(g.scopes, st, b.condition).value, if r.0 then g1 else g1.(cur := g1.cur + 1), w')
    decreases fuel, b, 3
  {
    hide DepthOfExpression, CheckOptional, LowerCondition, CodeIn, Runs, EvalExpression;
    var c := LowerCondition(P.signatures, g, b.condition).value;
    var w1 := SimCondition(P, m, starts, fuel, T, st, g, w, rest, b);
    var r := EvalCondition(P, fuel, w.env, w.sm, b).value;
    w' := SimSplit(P, m, CheckOptional(g.scopes, st, b.condition).value, c.gen, c.value, w1, rest, r.0);
    SoundCondition(P, fuel, T, w.env, w.sm, b);
    TypedLater(P, T, w.env, w.sm, r.1);
    RunsTrans(m, rest, w, w1, w');
    LaterTrans(w, w1, w');
  }

  lemma {:induction false} SimChain(P: Program, m: Module, starts: map<string, Gen>, fuel: nat, T: Depths, ret: nat, st: Statuses, g: Gen,
                                    w: World, rest: seq<Frame>, chain: seq<Branch>, merge: nat) returns (w': World, tv: Val)
    requires Ready(P, m, starts, T, st, g, w) && merge < |g.blocks| && merge != g.cur && g.blocks[merge] == []
    requires ChainFits(P.signatures, T, ret, chain) && CheckChain(g.scopes, st, chain).Some? && LowerChain(P.signatures, g, chain, merge).Some?
    requires CodeIn(m, w.fr.name, LowerChain(P.signatures, g, chain, merge).value)
    requires ExecChain(P, fuel, w.env, w.sm, chain).Ok?
    ensures FlowSim(P, m, rest, CheckChain(g.scopes, st, chain).value, LowerChain(P.signatures, g, chain, merge).value, w, w', tv,
                    ExecChain(P, fuel, w.env, w.sm, chain).value)
    decreases fuel, chain, 1
  {
    hide LowerCondition, LowerBlock, Close, Runs, Exact, GlobalsDistinct, FunctionCompiled, WellTyped;
    tv := Undef;
    if chain == [] {
      w' := SimExit(P, m, st, g, w, rest, merge);
    } else {
      BranchCode(P.signatures, m, w.fr.name, g, chain, merge);
      ChainEval(P, fuel, w.env, w.sm, chain);
      RelTracks(P, m, st, g, w);
      var w1 := SimHead(P, m, starts, fuel, T, st, g, w, rest, chain[0]);
      var taken := EvalCondition(P, fuel, w.env, w.sm, chain[0]).value.0;
      w', tv := SimBranches(P, m, starts, fuel, T, ret, st, g, w1, rest, chain, merge, taken);
      FlowAfter(P, m, rest, CheckChain(g.scopes, st, chain).value, LowerChain(P.signatures, g, chain, merge).value, w, w1, w', tv,
                ExecChain(P, fuel, w.env, w.sm, chain).value);
    }
  }

  // The code of the first branch and of the rest of the chain, and what is
  // known of the cells there.
  lemma {:induction false} ChainParts(F: Signatures, T: Depths, ret: nat, st: Statuses, g: Gen, chain: seq<Branch>, merge: nat)
    requires WF(g) && Tracks(st, g) && merge < |g.blocks| && merge != g.cur && g.blocks[merge] == [] && chain != []
    requires ChainFits(F, T, ret, chain) && CheckChain(g.scopes, st, chain).Some? && LowerChain(F, g, chain, merge).Some?
    ensures LowerCondition(F, g, chain[0].condition).Some? && CheckOptional(g.scopes, st, chain[0].condition).Some?
    ensures var b, c, st1 := chain[0], LowerCondition(F, g, chain[0].condition).value, CheckOptional(g.scopes, st, chain[0].condition).value;
            var g1, g', st' := SplitAt(c.gen, c.value), LowerChain(F, g, chain, merge).value, CheckChain(g.scopes, st, chain).value;
            && BlockFits(F, T, map[], ret, b.block) && merge < |g1.blocks| && LowerBlock(F, g1, map[], b.block).Some?
            && CheckBlock(g1.scopes, st1, map[], b.block).Some?
            && var g2, taken := LowerBlock(F, g1, map[], b.block).value, CheckBlock(g1.scopes, st1, map[], b.block).value;
            && merge != g2.cur && g2.blocks[merge] == [] && WF(g') && g'.cur == merge && g'.blocks[merge] == []
            && VarsLater(Close(g2, merge), g') && Tracks(st', g') && (b.block.returnValue == None ==> Weaker(taken, st'))
            && LowerBranch(F, g, b, merge).Some?
            && var l := LowerBranch(F, g, b, merge).value;
            && merge < |l.blocks| && merge != l.cur && l.cur == g1.cur + 1 && l.blocks[l.cur] == [] && l.blocks[merge] == [] && VarsLater(g1, l)
            && ChainFits(F, T, ret, chain[1..]) && LowerChain(F, l, chain[1..], merge) == Some(g')
            && Weaker(st1, Meet(st1, taken)) && Tracks(Meet(st1, taken), l)
            && CheckChain(l.scopes, Meet(st1, taken), chain[1..]).Some?
            && Weaker(CheckChain(l.scopes, Meet(st1, taken), chain[1..]).value, st')
  {
    hide ScopesIn, Grows, LowerCondition, LowerBlock, LowerBranch, CheckOptional, BlockFits, Close, SplitAt;
    ChainStations(F, g, chain, merge);
    BranchStations(F, g, chain[0], merge);
    ChainTracks(F, st, g, chain, merge);
    BranchTracks(F, st, g, chain[0], merge);
  }

  // After the first comparison of a chain.
  lemma {:induction false} SimBranches(P: Program, m: Module, starts: map<string, Gen>, fuel: nat, T: Depths, ret: nat, st: Statuses, g: Gen,
                                       w: World, rest: seq<Frame>, chain: seq<Branch>, merge: nat, taken: bool) returns (w': World, tv: Val)
    requires WF(g) && Tracks(st, g) && merge < |g.blocks| && merge != g.cur && g.blocks[merge] == [] && chain != []
    requires ChainFits(P.signatures, T, ret, chain) && CheckChain(g.scopes, st, chain).Some? && LowerChain(P.signatures, g, chain, merge).Some?
    requires CodeIn(m, w.fr.name, LowerChain(P.signatures, g, chain, merge).value)
    requires var c, st1 := LowerCondition(P.signatures, g, chain[0].condition), CheckOptional(g.scopes, st, chain[0].condition).value;
             c.Some? && var g1 := SplitAt(c.value.gen, c.value.value);
             Ready(P, m, starts, T, st1, if taken then g1 else g1.(cur := g1.cur + 1), w)
    requires if taken then ExecBranch(P, fuel, w.env, w.sm, chain[0]).Ok? else ExecChain(P, fuel, w.env, w.sm, chain[1..]).Ok?
    ensures FlowSim(P, m, rest, CheckChain(g.scopes, st, chain).value, LowerChain(P.signatures, g, chain, merge).value, w, w', tv,
                    if taken then ExecBranch(P, fuel, w.env, w.sm, chain[0]).value else ExecChain(P, fuel, w.env, w.sm, chain[1..]).value)
    decreases fuel, chain, 0
  {
    hide LowerChain, LowerBlock, LowerCondition, CheckChain, CheckOptional, ExecBranch, ExecChain, Compiled,
      Typed, FlowSim, Meet;
    var F, b := P.signatures, chain[0];
    ChainParts(F, T, ret, st, g, chain, merge);
    BranchCode(F, m, w.fr.name, g, chain, merge);
    var st1 := CheckOptional(g.scopes, st, b.condition).value;
    var c := LowerCondition(F, g, b.condition).value;
    var g1, l, g' := SplitAt(c.gen, c.value), LowerBranch(F, g, b, merge).value, LowerChain(F, g, chain, merge).value;
    var st' := CheckChain(g.scopes, st, chain).value;
    if taken {
      w', tv := SimTaken(P, m, starts, fuel, T, ret, st1, g1, w, rest, b, merge, st', g');
    } else {
      var body := CheckBlock(g1.scopes, st1, map[], b.block).value;
      RelElsewhere(P, m, st1, g1.(cur := g1.cur + 1), Meet(st1, body), l, w);
      w', tv := SimSkipped(P, m, starts, fuel, T, ret, Meet(st1, body), l, w, rest, chain[1..], merge, st');
    }
  }

  // The branch is skipped: the rest of the chain.
  lemma {:induction false} SimSkipped(P: Program, m: Module, starts: map<string, Gen>, fuel: nat, T: Depths, ret: nat, st: Statuses, l: Gen,
                                      w: World, rest: seq<Frame>, others: seq<Branch>, merge: nat, st': Statuses) returns (w': World, tv: Val)
    requires Ready(P, m, starts, T, st, l, w) && merge < |l.blocks| && merge != l.cur && l.blocks[merge] == []
    requires ChainFits(P.signatures, T, ret, others) && CheckChain(l.scopes, st, others).Some? && LowerChain(P.signatures, l, others, merge).Some?
    requires CodeIn(m, w.fr.name, LowerChain(P.signatures, l, others, merge).value)
    requires ExecChain(P, fuel, w.env, w.sm, others).Ok?
    requires Tracks(st', LowerChain(P.signatures, l, others, merge).value) && Weaker(CheckChain(l.scopes, st, others).value, st')
    ensures FlowSim(P, m, rest, st', LowerChain(P.signatures, l, others, merge).value, w, w', tv, ExecChain(P, fuel, w.env, w.sm, others).value)
    decreases fuel, others, 2
  {
    var g' := LowerChain(P.signatures, l, others, merge).value;
    w', tv := SimChain(P, m, starts, fuel, T, ret, st, l, w, rest, others, merge);
    if ExecChain(P, fuel, w.env, w.sm, others).value.Next? {
      RelElsewhere(P, m, CheckChain(l.scopes, st, others).value, g', st', g', w');
    }
  }

  // ----- statements and blocks -----

  lemma {:induction false} SimStatement(P: Program, m: Module, starts: map<string, Gen>, fuel: nat, T: Depths, ret: nat, st: Statuses, g: Gen,
                                        w: World, rest: seq<Frame>, s: Statement) returns (w': World, tv: Val)
    requires Ready(P, m, starts, T, st, g, w)
    requires DepthStatement(P.signatures, T, ret, s).Some? && CheckStatement(Tracked(g.scopes, st), s).Some?
    requires LowerStatement(P.signatures, g, s).Some? && CodeIn(m, w.fr.name, LowerStatement(P.signatures, g, s).value)
    requires ExecStatement(P, fuel, w.env, w.sm, s).Ok?
    ensures FlowSim(P, m, rest, CheckStatement(Tracked(g.scopes, st), s).value.status, LowerStatement(P.signatures, g, s).value, w, w', tv,
                    ExecStatement(P, fuel, w.env, w.sm, s).value)
    decreases fuel, s, 1
  {
    hide Inside, LowerCall, Later;
    tv := Undef;
    match s
    case Declaration(v) =>
      SimDeclaration(P, m, st, g, w, rest, v);
      w' := DeclaredWorld(g, w, v);
    case Assignment(target, steps, e) =>
      w' := SimAssignment(P, m, starts, fuel, T, st, g, w, rest, target, steps, e);
    case CallStatement(call) =>
      w' := SimCall(P, m, starts, fuel, T, st, g, w, rest, call);
    case Conditional(chain) =>
      w', tv := SimGroup(P, m, starts, fuel, T, ret, st, g, w, rest, chain);
  }

  // A group gets its merge block first.
  lemma {:induction false} SimGroup(P: Program, m: Module, starts: map<string, Gen>, fuel: nat, T: Depths, ret: nat, st: Statuses, g: Gen,
                                    w: World, rest: seq<Frame>, chain: seq<Branch>) returns (w': World, tv: Val)
    requires Ready(P, m, starts, T, st, g, w)
    requires var g0 := g.(blocks := g.blocks + [[]]);
             && ChainFits(P.signatures, T, ret, chain) && CheckChain(g.scopes, st, chain).Some?
             && LowerChain(P.signatures, g0, chain, |g.blocks|).Some? && CodeIn(m, w.fr.name, LowerChain(P.signatures, g0, chain, |g.blocks|).value)
    requires ExecChain(P, fuel, w.env, w.sm, chain).Ok?
    ensures var g0 := g.(blocks := g.blocks + [[]]);
            FlowSim(P, m, rest, CheckChain(g.scopes, st, chain).value, LowerChain(P.signatures, g0, chain, |g.blocks|).value, w, w', tv,
                    ExecChain(P, fuel, w.env, w.sm, chain).value)
    decreases fuel, chain, 2
  {
    var g0 := g.(blocks := g.blocks + [[]]);
    assert Rel(P, m, st, g0, w) by {
      RelTracks(P, m, st, g, w);
      RelElsewhere(P, m, st, g, st, g0, w);
    }
    w', tv := SimChain(P, m, starts, fuel, T, ret, st, g0, w, rest, chain, |g.blocks|);
  }

  lemma {:induction false} SimStatements(P: Program, m: Module, starts: map<string, Gen>, fuel: nat, T: Depths, ret: nat, st: Statuses, g: Gen,
                                         w: World, rest: seq<Frame>, ss: seq<Statement>) returns (w': World, tv: Val)
    requires Ready(P, m, starts, T, st, g, w)
    requires DepthStatements(P.signatures, T, ret, ss).Some? && CheckStatements(Tracked(g.scopes, st), ss).Some?
    requires LowerStatements(P.signatures, g, ss).Some? && CodeIn(m, w.fr.name, LowerStatements(P.signatures, g, ss).value)
    requires ExecStatements(P, fuel, w.env, w.sm, ss).Ok?
    ensures FlowSim(P, m, rest, CheckStatements(Tracked(g.scopes, st), ss).value.status, LowerStatements(P.signatures, g, ss).value, w, w', tv,
                    ExecStatements(P, fuel, w.env, w.sm, ss).value)
    decreases fuel, ss, 0
  {
    hide CodeIn, LowerStatement, CheckStatement, ExecStatement, DepthStatement, Later, Return, ValRel, Tracks,
      Grows, Exact, GlobalsDistinct, FunctionCompiled;
    tv := Undef;
    if ss == [] {
      w' := w;
      ReachesRefl(m, Conf(w, rest));
    } else {
      var F := P.signatures;
      var low, t1 := LowerStatement(F, g, ss[0]).value, CheckStatement(Tracked(g.scopes, st), ss[0]).value;
      RelTracks(P, m, st, g, w);
      StatementTracks(F, st, g, ss[0]);
      CodeEarlier(m, w.fr.name, low, LowerStatements(F, g, ss).value);
      SoundStatement(P, fuel, T, w.env, w.sm, ret, ss[0]);
      var w1, v := SimStatement(P, m, starts, fuel, T, ret, st, g, w, rest, ss[0]);
      var flow := ExecStatement(P, fuel, w.env, w.sm, ss[0]).value;
      if flow.Returned? {
        w', tv := w1, v;
      } else {
        w', tv := SimStatements(P, m, starts, fuel, DepthStatement(F, T, ret, ss[0]).value, ret, t1.status, low, w1, rest, ss[1..]);
        FlowAfter(P, m, rest, CheckStatements(Tracked(g.scopes, st), ss).value.status, LowerStatements(F, g, ss).value, w, w1, w', tv,
                  ExecStatements(P, fuel, w.env, w.sm, ss).value);
      }
    }
  }

  // The end of a block: the return, or the scope goes.
  lemma {:induction false} SimReturn(P: Program, m: Module, starts: map<string, Gen>, fuel: nat, T: Depths, ret: nat, st: Statuses, g: Gen,
                                     w: World, rest: seq<Frame>, b: Block) returns (w': World, tv: Val)
    requires Ready(P, m, starts, T, st, g, w) && g.scopes != []
    requires b.returnValue.Some? ==> DepthOfExpression(P.signatures, T, b.returnValue.value) == Some(ret)
    requires CheckOptional(g.scopes, st, b.returnValue).Some? && LowerReturn(P.signatures, g, b.returnValue).Some?
    requires CodeIn(m, w.fr.name, LowerReturn(P.signatures, g, b.returnValue).value)
    requires ExecReturn(P, fuel, w.env, w.sm, b).Ok?
    ensures var g' := LowerReturn(P.signatures, g, b.returnValue).value;
            FlowSim(P, m, rest, CheckOptional(g.scopes, st, b.returnValue).value, g'.(scopes := g'.scopes[1..]), w, w', tv,
                    ExecReturn(P, fuel, w.env, w.sm, b).value)
    decreases fuel, b, 0
  {
    hide ValueOf, EvalExpression, Typed, LaterHere, CheckExpression, WF;
    tv := Undef;
    match b.returnValue
    case None =>
      w' := w.(env := w.env[1..]);
      RelPop(P, m, st, g, w);
      ReachesRefl(m, Conf(w, rest));
    case Some(e) =>
      var low := LowerExpression(P.signatures, g, e).value;
      CodeEarlier(m, w.fr.name, low.gen, Emit(low.gen, Ret(low.value)));
      w' := SimExpression(P, m, starts, fuel, T, st, g, w, rest, e);
      tv := ValueOf(m, w'.fr, low.value);
      DefinedRel(w'.f, EvalExpression(P, fuel, w.env, w.sm, e).value.0, tv);
      RunEmitted(m, low.gen, Ret(low.value), w', rest);
      ReachesTrans(m, Conf(w, rest), Conf(w', rest), Return(m, rest, tv, w'.tm));
  }

  lemma {:induction false} RelPop(P: Program, m: Module, st: Statuses, g: Gen, w: World)
    requires Rel(P, m, st, g, w) && g.scopes != []
    ensures Rel(P, m, st, g.(scopes := g.scopes[1..]), w.(env := w.env[1..]))
  {
    var g', w' := g.(scopes := g.scopes[1..]), w.(env := w.env[1..]);
    forall k | 0 <= k < |st| ensures SlotRel(m, st[k], g'.vars[k], k, w') {
      assert SlotRel(m, st[k], g.vars[k], k, w);
    }
    forall i | 0 <= i < |g'.scopes| ensures ScopeRel(g'.scopes[i], w'.env[i], w'.L) {
      assert ScopeRel(g.scopes[i + 1], w.env[i + 1], w.L);
    }
  }

  lemma {:induction false} SimBlock(P: Program, m: Module, starts: map<string, Gen>, fuel: nat, T: Depths, st: Statuses, g: Gen, w: World,
                                    rest: seq<Frame>, depths: map<string, nat>, names: map<string, nat>, cells: map<string, nat>, ret: nat, b: Block)
    returns (w': World, tv: Val)
    requires WF(g) && forall n :: n in names ==> names[n] < |g.vars|
    requires Ready(P, m, starts, [depths] + T, st, g.(scopes := [names] + g.scopes), w.(env := [cells] + w.env))
    requires BlockFits(P.signatures, T, depths, ret, b) && CheckBlock(g.scopes, st, names, b).Some? && LowerBlock(P.signatures, g, names, b).Some?
    requires CodeIn(m, w.fr.name, LowerBlock(P.signatures, g, names, b).value)
    requires ExecBlock(P, fuel, w.env, w.sm, cells, b).Ok?
    ensures FlowSim(P, m, rest, CheckBlock(g.scopes, st, names, b).value, LowerBlock(P.signatures, g, names, b).value, w, w', tv,
                    ExecBlock(P, fuel, w.env, w.sm, cells, b).value)
    decreases fuel, b, 1
  {
    hide Grows, LowerExpression, Emit, DepthOfExpression, Exact, GlobalsDistinct, FunctionCompiled, WellTyped,
      CellsRel, Later, Tracks, ExecStatements, DepthStatements, ExecReturn, LaterO, CheckOptional,
      LowerStatements, CheckStatements;
    var F := P.signatures;
    var T0, g0, w0 := [depths] + T, g.(scopes := [names] + g.scopes), w.(env := [cells] + w.env);
    var g1, t1 := LowerStatements(F, g0, b.statements).value, CheckStatements(Tracked(g0.scopes, st), b.statements).value;
    RelTracks(P, m, st, g0, w0);
    StatementsTrack(F, st, g0, b.statements);
    CodeEarlier(m, w.fr.name, g1, LowerReturn(F, g1, b.returnValue).value);
    SoundStatements(P, fuel, T0, w0.env, w0.sm, ret, b.statements);
    var w1, v := SimStatements(P, m, starts, fuel, T0, ret, st, g0, w0, rest, b.statements);
    var flow := ExecStatements(P, fuel, w0.env, w0.sm, b.statements).value;
    var g', st' := LowerBlock(F, g, names, b).value, CheckBlock(g.scopes, st, names, b).value;
    var w2;
    if flow.Returned? {
      w2, tv := w1, v;
    } else {
      w2, tv := SimReturn(P, m, starts, fuel, DepthStatements(F, T0, ret, b.statements).value, ret, t1.status, g1, w1, rest, b);
      FlowAfter(P, m, rest, st', g', w0, w1, w2, tv, ExecReturn(P, fuel, flow.env, flow.mem, b).value);
    }
    w' := w2;
    FlowOutside(P, m, rest, st', g', w0, w, w', tv, ExecBlock(P, fuel, w.env, w.sm, cells, b).value);
  }

  // The environment a run starts in does not matter to what it leads to.
  lemma {:induction false} FlowOutside(P: Program, m: Module, rest: seq<Frame>, st': Statuses, g': Gen, w0: World, w: World, w': World, tv: Val,
                                       flow: Flow)
    requires FlowSim(P, m, rest, st', g', w0, w', tv, flow) && w0 == w.(env := w0.env)
    ensures FlowSim(P, m, rest, st', g', w, w', tv, flow)
  {}
}
