/**
  Typed-memory safety: evaluating a depth-exact program never goes wrong, and
  every cell declared at depth d holds a value of depth d or nothing.
 */
module Soundness {
  import opened Wrappers
  import opened Ast
  import opened Ir
  import opened Lowering
  import opened Semantics
  import opened DepthExact

  // Depth 0 is a 32-bit integer; depth d + 1 points to a cell of depth d.
  ghost predicate HasDepth(mem: Mem, v: Val, d: nat) {
    match v
    case Undef => false
    case IntV(n) => d == 0 && -0x8000_0000 <= n < 0x8000_0000
    case PtrV(l) => d > 0 && l < |mem| && mem[l].depth == d - 1
  }

  ghost predicate WellTyped(mem: Mem) {
    forall l :: 0 <= l < |mem| ==> mem[l].val == Undef || HasDepth(mem, mem[l].val, mem[l].depth)
  }

  // Cells stay and keep their declared depth.
  ghost predicate Extends(mem: Mem, mem': Mem) {
    |mem| <= |mem'| && forall l :: 0 <= l < |mem| ==> mem'[l].depth == mem[l].depth
  }

  ghost predicate ScopeTyped(depths: map<string, nat>, scope: map<string, nat>, mem: Mem) {
    && depths.Keys == scope.Keys
    && forall n :: n in scope ==> scope[n] < |mem| && mem[scope[n]].depth == depths[n]
  }

  ghost predicate EnvTyped(T: Depths, env: Env, mem: Mem) {
    |T| == |env| && forall i :: 0 <= i < |T| ==> ScopeTyped(T[i], env[i], mem)
  }

  ghost predicate GlobalsTyped(P: Program, mem: Mem) {
    forall n :: n in P.globals ==> P.globals[n] < |mem| && mem[P.globals[n]].depth == 0
  }

  ghost predicate Typed(P: Program, T: Depths, env: Env, mem: Mem) {
    Exact(P) && WellTyped(mem) && EnvTyped(T, env, mem) && GlobalsTyped(P, mem)
  }

  ghost predicate Evolves(mem: Mem, mem': Mem) {
    WellTyped(mem') && Extends(mem, mem')
  }

  ghost predicate Good(mem: Mem, r: Outcome<(Val, Mem)>, d: nat) {
    r != Wrong && (r.Ok? ==> Evolves(mem, r.value.1) && HasDepth(r.value.1, r.value.0, d))
  }

  ghost predicate GoodFlow(mem: Mem, r: Outcome<Flow>, T': Option<Depths>, ret: nat) {
    && r != Wrong
    && (r.Ok? ==> Evolves(mem, r.value.mem))
    && (r.Ok? && r.value.Returned? ==> HasDepth(r.value.mem, r.value.result, ret))
    && (r.Ok? && r.value.Next? ==> T'.Some? && EnvTyped(T'.value, r.value.env, r.value.mem))
  }

  lemma {:induction false} TypedLater(P: Program, T: Depths, env: Env, mem: Mem, mem': Mem)
    requires Typed(P, T, env, mem) && Evolves(mem, mem')
    ensures Typed(P, T, env, mem')
  {}

  lemma {:induction false} LookupTyped(T: Depths, env: Env, mem: Mem, n: string)
    requires EnvTyped(T, env, mem)
    ensures var d, l := LookupIn<nat>(T, n), LookupIn<nat>(env, n);
            d.Some? == l.Some? && (l.Some? ==> l.value < |mem| && mem[l.value].depth == d.value)
    decreases |T|
  {
    if T != [] {
      assert ScopeTyped(T[0], env[0], mem);
      if n !in T[0] {
        assert EnvTyped(T[1..], env[1..], mem) by {
          forall i | 0 <= i < |T[1..]| ensures ScopeTyped(T[1..][i], env[1..][i], mem) {
            assert ScopeTyped(T[i + 1], env[i + 1], mem);
          }
        }
        LookupTyped(T[1..], env[1..], mem, n);
      }
    }
  }

  lemma {:induction false} ChaseTyped(mem: Mem, l: nat, k: nat)
    requires WellTyped(mem) && l < |mem| && k <= mem[l].depth
    ensures Chase(mem, l, k) != Wrong
    ensures Chase(mem, l, k).Ok? ==> mem[Chase(mem, l, k).value].depth == mem[l].depth - k
    decreases k
  {
    if k > 0 && mem[l].val != Undef {
      ChaseTyped(mem, mem[l].val.loc, k - 1);
    }
  }

  lemma {:induction false} WrapRange(n: int)
    ensures -0x8000_0000 <= Wrap32(n) < 0x8000_0000
  {}

  lemma {:induction false} SoundOperand(P: Program, fuel: nat, T: Depths, env: Env, mem: Mem, o: Operand)
    requires Typed(P, T, env, mem)
    requires DepthOfOperand(P.signatures, T, o).Some?
    ensures Good(mem, EvalOperand(P, fuel, env, mem, o), DepthOfOperand(P.signatures, T, o).value)
    decreases fuel, o, 1
  {
    match o
    case IntegerLiteral(digits) =>
      if Stoi(digits).Some? {
        assert LeadingDigits(digits, 0) >= 0;
      }
    case StringLiteral(_) =>
    case CallOperand(call) => SoundCall(P, fuel, T, env, mem, call);
    case Identifier(name, indirection, steps) =>
      LookupTyped(T, env, mem, name);
      if indirection == GetValue {
        ChaseTyped(mem, LookupIn<nat>(env, name).value, steps);
      }
  }

  lemma {:induction false} SoundUnit(P: Program, fuel: nat, T: Depths, env: Env, mem: Mem, total: Option<Val>, d: Option<nat>, u: Unit)
    requires Typed(P, T, env, mem)
    requires total.Some? == d.Some? && (d.Some? ==> HasDepth(mem, total.value, d.value))
    requires DepthOfUnit(P.signatures, T, d, u).Some?
    ensures Good(mem, EvalUnit(P, fuel, env, mem, total, u), DepthOfUnit(P.signatures, T, d, u).value)
    decreases fuel, u, 2
  {
    SoundOperand(P, fuel, T, env, mem, u.operand);
    var r := EvalOperand(P, fuel, env, mem, u.operand);
    if r.Ok? && total.Some? {
      WrapRange(total.value.n + r.value.0.n);
      WrapRange(total.value.n - r.value.0.n);
    }
  }

  lemma {:induction false} SoundUnits(P: Program, fuel: nat, T: Depths, env: Env, mem: Mem, total: Option<Val>, d: Option<nat>, units: seq<Unit>)
    requires Typed(P, T, env, mem)
    requires total.Some? == d.Some? && (d.Some? ==> HasDepth(mem, total.value, d.value))
    requires DepthOfUnits(P.signatures, T, d, units).Some?
    ensures Good(mem, EvalUnits(P, fuel, env, mem, total, units), DepthOfUnits(P.signatures, T, d, units).value)
    decreases fuel, units, 0
  {
    if units != [] {
      SoundUnit(P, fuel, T, env, mem, total, d, units[0]);
      var r := EvalUnit(P, fuel, env, mem, total, units[0]);
      if r.Ok? {
        TypedLater(P, T, env, mem, r.value.1);
        SoundUnits(P, fuel, T, env, r.value.1, Some(r.value.0), DepthOfUnit(P.signatures, T, d, units[0]), units[1..]);
      }
    }
  }

  lemma {:induction false} SoundExpression(P: Program, fuel: nat, T: Depths, env: Env, mem: Mem, e: Expression)
    requires Typed(P, T, env, mem)
    requires DepthOfExpression(P.signatures, T, e).Some?
    ensures Good(mem, EvalExpression(P, fuel, env, mem, e), DepthOfExpression(P.signatures, T, e).value)
    decreases fuel, e, 1
  {
    SoundUnits(P, fuel, T, env, mem, None, None, e.units);
  }

  ghost predicate ValuesFit(mem: Mem, ps: seq<Variable>, vs: seq<Val>) {
    |ps| == |vs| && forall i :: 0 <= i < |ps| ==> HasDepth(mem, vs[i], ps[i].typ.pointerDepth)
  }

  lemma {:induction false} SoundArguments(P: Program, fuel: nat, T: Depths, env: Env, mem: Mem, ps: seq<Variable>, es: seq<Expression>)
    requires Typed(P, T, env, mem)
    requires ArgumentsFit(P.signatures, T, ps, es)
    ensures var r := EvalArguments(P, fuel, env, mem, es);
            r != Wrong && (r.Ok? ==> Evolves(mem, r.value.1) && ValuesFit(r.value.1, ps, r.value.0))
    decreases fuel, es, 0
  {
    if es != [] {
      SoundExpression(P, fuel, T, env, mem, es[0]);
      var r := EvalExpression(P, fuel, env, mem, es[0]);
      if r.Ok? {
        TypedLater(P, T, env, mem, r.value.1);
        SoundArguments(P, fuel, T, env, r.value.1, ps[1..], es[1..]);
        var r2 := EvalArguments(P, fuel, env, r.value.1, es[1..]);
        if r2.Ok? {
          var mem2, vs := r2.value.1, [r.value.0] + r2.value.0;
          forall i | 0 <= i < |ps| ensures HasDepth(mem2, vs[i], ps[i].typ.pointerDepth) {
            if i > 0 {
              assert ps[i] == ps[1..][i - 1] && vs[i] == r2.value.0[i - 1];
            }
          }
        }
      }
    }
  }

  lemma {:induction false} SoundCall(P: Program, fuel: nat, T: Depths, env: Env, mem: Mem, call: Call)
    requires Typed(P, T, env, mem)
    requires DepthOfCall(P.signatures, T, call).Some?
    ensures Good(mem, EvalCall(P, fuel, env, mem, call), DepthOfCall(P.signatures, T, call).value)
    decreases fuel, call, 1
  {
    SoundArguments(P, fuel, T, env, mem, P.signatures[call.name].parameters, call.parameters);
    var r := EvalArguments(P, fuel, env, mem, call.parameters);
    if r.Ok? && call.name in P.functions && fuel > 0 {
      DefinitionOf(P, call.name);
      assert EvalCall(P, fuel, env, mem, call) == Invoke(P, fuel - 1, call.name, r.value.0, r.value.1);
      SoundInvoke(P, fuel - 1, call.name, r.value.0, r.value.1);
    }
  }

  lemma {:induction false} CellsTyped(ps: seq<Variable>, vs: seq<Val>, mem: Mem)
    requires WellTyped(mem) && ValuesFit(mem, ps, vs)
    ensures Evolves(mem, mem + ParameterCells(ps, vs))
  {
    var mem1 := mem + ParameterCells(ps, vs);
    forall l | 0 <= l < |mem1| ensures mem1[l].val == Undef || HasDepth(mem1, mem1[l].val, mem1[l].depth) {
      if l >= |mem| {
        assert mem1[l] == Cell(ps[l - |mem|].typ.pointerDepth, vs[l - |mem|]);
      }
    }
  }

  lemma {:induction false} NamesTyped(ps: seq<Variable>, vs: seq<Val>, mem: Mem)
    requires |ps| == |vs|
    ensures ScopeTyped(ParameterDepths(ps), ParameterNames(ps, |mem|), mem + ParameterCells(ps, vs))
  {
    ParameterNamesShift(ps, |mem|);
    var mem1 := mem + ParameterCells(ps, vs);
    forall n | n in ParameterNames(ps, |mem|)
      ensures mem1[ParameterNames(ps, |mem|)[n]].depth == ParameterDepths(ps)[n]
    {
      var i := ParameterNames(ps, 0)[n];
      assert mem1[|mem| + i] == Cell(ps[i].typ.pointerDepth, vs[i]);
    }
  }

  lemma {:induction false} DefinitionOf(P: Program, name: string)
    requires Exact(P) && name in P.functions
    ensures name in P.signatures
    ensures P.signatures[name] == Signature(P.functions[name].parameters, P.functions[name].typ)
    ensures DefinitionFits(P.signatures, P.globals, P.functions[name])
  {
    assert DefinitionExact(P, name);
  }

  // The callee starts in a typed environment of its own.
  lemma {:induction false} EntryTyped(P: Program, ps: seq<Variable>, vs: seq<Val>, mem: Mem)
    requires Exact(P) && WellTyped(mem) && GlobalsTyped(P, mem) && ValuesFit(mem, ps, vs)
    ensures Evolves(mem, mem + ParameterCells(ps, vs))
    ensures Typed(P, [ParameterDepths(ps)] + [GlobalDepths(P.globals)], [ParameterNames(ps, |mem|)] + [P.globals], mem + ParameterCells(ps, vs))
  {
    CellsTyped(ps, vs, mem);
    NamesTyped(ps, vs, mem);
    assert ScopeTyped(GlobalDepths(P.globals), P.globals, mem + ParameterCells(ps, vs));
  }

  lemma {:induction false} SoundInvoke(P: Program, fuel: nat, name: string, vs: seq<Val>, mem: Mem)
    requires Exact(P) && WellTyped(mem) && GlobalsTyped(P, mem)
    requires name in P.functions && ValuesFit(mem, P.functions[name].parameters, vs)
    ensures Good(mem, Invoke(P, fuel, name, vs, mem), P.functions[name].typ.pointerDepth)
    decreases fuel, P.functions[name].body, 3
  {
    var d := P.functions[name];
    DefinitionOf(P, name);
    EntryTyped(P, d.parameters, vs, mem);
    SoundBlock(P, fuel, [GlobalDepths(P.globals)], [P.globals], mem + ParameterCells(d.parameters, vs), ParameterDepths(d.parameters),
               ParameterNames(d.parameters, |mem|), d.typ.pointerDepth, d.body);
  }

  lemma {:induction false} SoundStatement(P: Program, fuel: nat, T: Depths, env: Env, mem: Mem, ret: nat, s: Statement)
    requires Typed(P, T, env, mem)
    requires DepthStatement(P.signatures, T, ret, s).Some?
    ensures GoodFlow(mem, ExecStatement(P, fuel, env, mem, s), DepthStatement(P.signatures, T, ret, s), ret)
    decreases fuel, s, 1
  {
    match s
    case Declaration(v) =>
      var mem1 := mem + [Cell(v.typ.pointerDepth, Undef)];
      assert Extends(mem, mem1);
      assert ScopeTyped(T[0], env[0], mem);
      assert EnvTyped(Declare(T, v.name, v.typ.pointerDepth), Declare(env, v.name, |mem|), mem1);
    case Assignment(target, steps, e) => SoundAssignment(P, fuel, T, env, mem, target, steps, e);
    case CallStatement(call) =>
      SoundCall(P, fuel, T, env, mem, call);
    case Conditional(chain) =>
      SoundChain(P, fuel, T, env, mem, ret, chain);
  }

  lemma {:induction false} SoundAssignment(P: Program, fuel: nat, T: Depths, env: Env, mem: Mem, target: string, steps: nat, e: Expression)
    requires Typed(P, T, env, mem)
    requires AssignmentFits(P.signatures, T, target, steps, e)
    ensures GoodFlow(mem, ExecAssignment(P, fuel, env, mem, target, steps, e), Some(T), 0)
    ensures !(ExecAssignment(P, fuel, env, mem, target, steps, e).Ok? && ExecAssignment(P, fuel, env, mem, target, steps, e).value.Returned?)
    decreases fuel, e, 2
  {
    LookupTyped(T, env, mem, target);
    ChaseTyped(mem, LookupIn<nat>(env, target).value, steps);
    SoundExpression(P, fuel, T, env, mem, e);
    var c := Chase(mem, LookupIn<nat>(env, target).value, steps);
    var r := EvalExpression(P, fuel, env, mem, e);
    if c.Ok? && r.Ok? {
      var (v, mem1) := r.value;
      var mem2 := mem1[c.value := mem1[c.value].(val := v)];
      assert Extends(mem1, mem2);
      assert WellTyped(mem2);
    }
  }

  lemma {:induction false} SoundStatements(P: Program, fuel: nat, T: Depths, env: Env, mem: Mem, ret: nat, ss: seq<Statement>)
    requires Typed(P, T, env, mem)
    requires DepthStatements(P.signatures, T, ret, ss).Some?
    ensures GoodFlow(mem, ExecStatements(P, fuel, env, mem, ss), DepthStatements(P.signatures, T, ret, ss), ret)
    decreases fuel, ss, 0
  {
    if ss != [] {
      SoundStatement(P, fuel, T, env, mem, ret, ss[0]);
      var r := ExecStatement(P, fuel, env, mem, ss[0]);
      var T1 := DepthStatement(P.signatures, T, ret, ss[0]).value;
      if r.Ok? && r.value.Next? {
        SoundStatements(P, fuel, T1, r.value.env, r.value.mem, ret, ss[1..]);
      }
    }
  }

  lemma {:induction false} SoundCondition(P: Program, fuel: nat, T: Depths, env: Env, mem: Mem, b: Branch)
    requires Typed(P, T, env, mem)
    requires b.condition.Some? ==> DepthOfExpression(P.signatures, T, b.condition.value) == Some(0)
    ensures var r := EvalCondition(P, fuel, env, mem, b); r != Wrong && (r.Ok? ==> Evolves(mem, r.value.1))
    decreases fuel, b, 2
  {
    if b.condition.Some? {
      SoundExpression(P, fuel, T, env, mem, b.condition.value);
    }
  }

  lemma {:induction false} SoundChain(P: Program, fuel: nat, T: Depths, env: Env, mem: Mem, ret: nat, chain: seq<Branch>)
    requires Typed(P, T, env, mem)
    requires ChainFits(P.signatures, T, ret, chain)
    ensures GoodFlow(mem, ExecChain(P, fuel, env, mem, chain), Some(T), ret)
    decreases fuel, chain, 0
  {
    if chain != [] {
      SoundCondition(P, fuel, T, env, mem, chain[0]);
      var r := EvalCondition(P, fuel, env, mem, chain[0]);
      if r.Ok? {
        TypedLater(P, T, env, mem, r.value.1);
        if r.value.0 {
          SoundBranch(P, fuel, T, env, r.value.1, ret, chain[0]);
        } else {
          SoundChain(P, fuel, T, env, r.value.1, ret, chain[1..]);
        }
      }
    }
  }

  lemma {:induction false} SoundBranch(P: Program, fuel: nat, T: Depths, env: Env, mem: Mem, ret: nat, b: Branch)
    requires Typed(P, T, env, mem)
    requires BranchFits(P.signatures, T, ret, b)
    ensures GoodFlow(mem, ExecBranch(P, fuel, env, mem, b), Some(T), ret)
    decreases fuel, b, 2
  {
    SoundBlock(P, fuel, T, env, mem, map[], map[], ret, b.block);
  }

  lemma {:induction false} SoundBlock(P: Program, fuel: nat, T: Depths, env: Env, mem: Mem, depths: map<string, nat>, names: map<string, nat>,
                   ret: nat, b: Block)
    requires Typed(P, [depths] + T, [names] + env, mem)
    requires BlockFits(P.signatures, T, depths, ret, b)
    ensures GoodFlow(mem, ExecBlock(P, fuel, env, mem, names, b), Some(T), ret)
    ensures b.returnValue.Some? && ExecBlock(P, fuel, env, mem, names, b).Ok? ==> ExecBlock(P, fuel, env, mem, names, b).value.Returned?
    decreases fuel, b, 1
  {
    SoundStatements(P, fuel, [depths] + T, [names] + env, mem, ret, b.statements);
    var r := ExecStatements(P, fuel, [names] + env, mem, b.statements);
    var T1 := DepthStatements(P.signatures, [depths] + T, ret, b.statements).value;
    if r.Ok? && r.value.Next? {
      DepthsInside(P.signatures, [depths] + T, ret, b.statements);
      SoundReturn(P, fuel, T, T1, r.value.env, r.value.mem, ret, b);
    }
  }

  lemma {:induction false} SoundReturn(P: Program, fuel: nat, T: Depths, T1: Depths, env: Env, mem: Mem, ret: nat, b: Block)
    requires Typed(P, T1, env, mem) && T1 != [] && T1[1..] == T
    requires b.returnValue.Some? ==> DepthOfExpression(P.signatures, T1, b.returnValue.value) == Some(ret)
    ensures GoodFlow(mem, ExecReturn(P, fuel, env, mem, b), Some(T), ret)
    decreases fuel, b, 0
  {
    if b.returnValue.Some? {
      SoundExpression(P, fuel, T1, env, mem, b.returnValue.value);
    }
  }

  // Statements declare in the innermost scope only.
  lemma {:induction false} DepthsInside(F: Signatures, T: Depths, ret: nat, ss: seq<Statement>)
    requires T != []
    ensures var T' := DepthStatements(F, T, ret, ss); T'.Some? ==> T'.value != [] && T'.value[1..] == T[1..]
    decreases ss
  {
    if ss != [] && DepthStatement(F, T, ret, ss[0]).Some? {
      DepthsInside(F, DepthStatement(F, T, ret, ss[0]).value, ret, ss[1..]);
    }
  }
}
