/**
  How calls end when functions call each other downwards: they return, unless
  they read a variable that has no value yet; and they never do that if every
  variable gets its value where it is declared.
 */
module Endings {
  import opened Wrappers
  import opened Ast
  import opened Ir
  import opened Lowering
  import opened Semantics
  import opened Relation
  import opened Items
  import opened Units
  import opened Correctness

  // A rank for each function: calls lead to smaller ones.
  type Ranks = map<string, nat>

  // ----- tame code -----

  // Every call is of a function ranked below r, and no variable of X is used.
  predicate TameOperand(R: Ranks, r: nat, X: set<string>, o: Operand)
    decreases o, 1
  {
    match o
    case Identifier(name, _, _) => name !in X
    case CallOperand(call) => TameCall(R, r, X, call)
    case _ => true
  }

  predicate TameCall(R: Ranks, r: nat, X: set<string>, call: Call)
    decreases call, 1
  {
    call.name in R && R[call.name] < r && TameArguments(R, r, X, call.parameters)
  }

  predicate TameArguments(R: Ranks, r: nat, X: set<string>, es: seq<Expression>)
    decreases es, 0
  {
    es == [] || (TameExpression(R, r, X, es[0]) && TameArguments(R, r, X, es[1..]))
  }

  predicate TameUnits(R: Ranks, r: nat, X: set<string>, units: seq<Unit>)
    decreases units, 0
  {
    units == [] || (TameUnit(R, r, X, units[0]) && TameUnits(R, r, X, units[1..]))
  }

  predicate TameUnit(R: Ranks, r: nat, X: set<string>, u: Unit)
    decreases u, 2
  {
    TameOperand(R, r, X, u.operand)
  }

  predicate TameExpression(R: Ranks, r: nat, X: set<string>, e: Expression)
    decreases e, 1
  {
    TameUnits(R, r, X, e.units)
  }

  predicate TameOptional(R: Ranks, r: nat, e: Option<Expression>) { e.Some? ==> TameExpression(R, r, {}, e.value) }

  // A declaration with its value behind it: the name is new in its scope, and
  // the value is not made from it.
  predicate TamePair(R: Ranks, r: nat, names: set<string>, v: Variable, s: Statement) {
    v.name !in names && s.Assignment? && s.target == v.name && s.steps == 0 && TameExpression(R, r, {v.name}, s.expression)
  }

  // With `init`, declarations come with values. `names` are those of the scope.
  predicate TameStatements(R: Ranks, r: nat, init: bool, names: set<string>, ss: seq<Statement>)
    decreases ss, 0
  {
    if ss == [] then true
    else if init && ss[0].Declaration? then
      |ss| > 1 && TamePair(R, r, names, ss[0].variable, ss[1]) && TameStatements(R, r, init, names + {ss[0].variable.name}, ss[2..])
    else TameStatement(R, r, init, ss[0]) && TameStatements(R, r, init, names, ss[1..])
  }

  predicate TameStatement(R: Ranks, r: nat, init: bool, s: Statement)
    decreases s, 1
  {
    match s
    case Declaration(_) => !init
    case Assignment(_, _, e) => TameExpression(R, r, {}, e)
    case CallStatement(call) => TameCall(R, r, {}, call)
    case Conditional(chain) => TameChain(R, r, init, chain)
  }

  predicate TameChain(R: Ranks, r: nat, init: bool, chain: seq<Branch>)
    decreases chain, 0
  {
    chain == [] || (TameBranch(R, r, init, chain[0]) && TameChain(R, r, init, chain[1..]))
  }

  predicate TameBranch(R: Ranks, r: nat, init: bool, b: Branch)
    decreases b, 2
  {
    TameOptional(R, r, b.condition) && TameBlock(R, r, init, {}, b.block)
  }

  predicate TameBlock(R: Ranks, r: nat, init: bool, names: set<string>, b: Block)
    decreases b, 1
  {
    TameStatements(R, r, init, names, b.statements) && TameOptional(R, r, b.returnValue)
  }

  ghost predicate Ranked(P: Program, R: Ranks, init: bool) {
    forall n :: n in R ==> n in P.functions && TameBlock(R, R[n], init, ParameterNames(P.functions[n].parameters, 0).Keys, P.functions[n].body)
  }

  // ----- memories without holes but the known ones -----

  // A hole is a cell without a value; nothing points to it.
  ghost predicate Solid(v: Val, holes: set<nat>, size: nat) { v != Undef && (v.PtrV? ==> v.loc !in holes && v.loc < size) }

  ghost predicate Filled(mem: Mem, holes: set<nat>) {
    (forall h :: h in holes ==> h < |mem|) && forall l :: 0 <= l < |mem| && l !in holes ==> Solid(mem[l].val, holes, |mem|)
  }

  // The names outside X lead to no hole.
  ghost predicate NamesClear(env: Env, holes: set<nat>, X: set<string>) {
    forall n :: n !in X && LookupIn<nat>(env, n).Some? ==> LookupIn<nat>(env, n).value !in holes
  }

  ghost predicate ScopeClear(scope: map<string, nat>, holes: set<nat>, size: nat) {
    forall n :: n in scope ==> scope[n] !in holes && scope[n] < size
  }

  ghost predicate EnvClear(env: Env, holes: set<nat>, size: nat) {
    forall i :: 0 <= i < |env| ==> ScopeClear(env[i], holes, size)
  }

  lemma {:induction false} LookupClear(env: Env, holes: set<nat>, size: nat, n: string)
    requires EnvClear(env, holes, size)
    ensures LookupIn<nat>(env, n).Some? ==> LookupIn<nat>(env, n).value !in holes && LookupIn<nat>(env, n).value < size
    decreases |env|
  {
    if env != [] {
      assert ScopeClear(env[0], holes, size);
      if n !in env[0] {
        assert EnvClear(env[1..], holes, size) by {
          forall i | 0 <= i < |env[1..]| ensures ScopeClear(env[1..][i], holes, size) {
            assert ScopeClear(env[i + 1], holes, size);
          }
        }
        LookupClear(env[1..], holes, size, n);
      }
    }
  }

  lemma {:induction false} EnvNames(env: Env, holes: set<nat>, size: nat)
    requires EnvClear(env, holes, size)
    ensures NamesClear(env, holes, {})
  {
    forall n ensures LookupIn<nat>(env, n).Some? ==> LookupIn<nat>(env, n).value !in holes {
      LookupClear(env, holes, size, n);
    }
  }

  // In front of its value a variable is a hole behind its name only.
  lemma {:induction false} DeclareClear(env: Env, holes: set<nat>, size: nat, name: string)
    requires EnvClear(env, holes, size) && env != [] && name !in env[0]
    ensures var env' := Declare(env, name, size);
            NamesClear(env', holes + {size}, {name}) && env'[0].Keys == env[0].Keys + {name} && LookupIn<nat>(env', name) == Some(size)
    ensures size !in holes ==> EnvClear(Declare(env, name, size), holes, size + 1)
  {
    var env' := Declare(env, name, size);
    forall n | n != name && LookupIn<nat>(env', n).Some? ensures LookupIn<nat>(env', n).value !in holes + {size} {
      LookupClear(env, holes, size, n);
    }
    if size !in holes {
      forall i | 0 <= i < |env'| ensures ScopeClear(env'[i], holes, size + 1) {
        assert ScopeClear(env[i], holes, size);
      }
    }
  }

  // ----- how things end -----

  // No more fuel is needed, nothing outside the unit is called.
  predicate Finishes<T>(r: Outcome<T>) { r != OutOfFuel && r != External }

  ghost predicate Settles(init: bool, holes: set<nat>, mem: Mem, r: Outcome<(Val, Mem)>) {
    && Finishes(r)
    && (init ==> r != Uninitialised && (r.Ok? ==> Solid(r.value.0, holes, |r.value.1|) && Filled(r.value.1, holes) && |mem| <= |r.value.1|))
  }

  ghost predicate SettlesAll(init: bool, holes: set<nat>, mem: Mem, r: Outcome<(seq<Val>, Mem)>) {
    && Finishes(r)
    && (init ==> r != Uninitialised
                 && (r.Ok? ==> (forall v :: v in r.value.0 ==> Solid(v, holes, |r.value.1|)) && Filled(r.value.1, holes) && |mem| <= |r.value.1|))
  }

  ghost predicate FlowSettles(init: bool, holes: set<nat>, env: Env, mem: Mem, r: Outcome<Flow>) {
    && Finishes(r)
    && (init ==> r != Uninitialised
                 && (r.Ok? ==> Filled(r.value.mem, holes) && |mem| <= |r.value.mem|)
                 && (r.Ok? && r.value.Returned? ==> Solid(r.value.result, holes, |r.value.mem|)))
  }

  // What an environment is after some statements.
  ghost predicate NextClear(init: bool, holes: set<nat>, env: Env, r: Outcome<Flow>) {
    init && r.Ok? && r.value.Next? ==>
      EnvClear(r.value.env, holes, |r.value.mem|) && |r.value.env| == |env| && (env != [] ==> r.value.env[1..] == env[1..])
  }

  ghost predicate GlobalsClear(P: Program, holes: set<nat>, size: nat) { ScopeClear(P.globals, holes, size) }

  // The state in which code of rank r runs.
  ghost predicate Ready(P: Program, R: Ranks, init: bool, fuel: nat, r: nat, holes: set<nat>, mem: Mem) {
    Ranked(P, R, init) && r <= fuel && (init ==> Filled(mem, holes) && GlobalsClear(P, holes, |mem|))
  }

  lemma {:induction false} ReadyLater(P: Program, R: Ranks, init: bool, fuel: nat, r: nat, holes: set<nat>, mem: Mem, mem': Mem)
    requires Ready(P, R, init, fuel, r, holes, mem) && (init ==> Filled(mem', holes) && |mem| <= |mem'|)
    ensures Ready(P, R, init, fuel, r, holes, mem')
  {
    hide Ranked, Filled;
  }

  lemma {:induction false} EnvLater(env: Env, holes: set<nat>, size: nat, size': nat)
    requires EnvClear(env, holes, size) && size <= size'
    ensures EnvClear(env, holes, size')
  {
    forall i | 0 <= i < |env| ensures ScopeClear(env[i], holes, size') {
      assert ScopeClear(env[i], holes, size);
    }
  }

  lemma {:induction false} ChaseSettles(mem: Mem, l: nat, k: nat, init: bool, holes: set<nat>)
    requires l < |mem| && (init ==> Filled(mem, holes) && l !in holes)
    ensures Finishes(Chase(mem, l, k))
    ensures init ==> Chase(mem, l, k) != Uninitialised && (Chase(mem, l, k).Ok? ==> Chase(mem, l, k).value !in holes)
    decreases k
  {
    assert init ==> Solid(mem[l].val, holes, |mem|);
    if k > 0 && Read(mem, l).Ok? && Read(mem, l).value.PtrV? && Read(mem, l).value.loc < |mem| {
      ChaseSettles(mem, Read(mem, l).value.loc, k - 1, init, holes);
    }
  }

  lemma {:induction false} VariableSettles(env: Env, mem: Mem, name: string, indirection: Indirection, steps: nat, init: bool, holes: set<nat>)
    requires init ==> Filled(mem, holes) && (LookupIn<nat>(env, name).Some? ==> LookupIn<nat>(env, name).value !in holes)
    ensures var r := EvalVariable(env, mem, name, indirection, steps);
            Finishes(r) && (init ==> r != Uninitialised && (r.Ok? ==> Solid(r.value, holes, |mem|)))
  {
    var l := Find(env, mem, name);
    if l.Ok? {
      assert init ==> Solid(mem[l.value].val, holes, |mem|);
      ChaseSettles(mem, l.value, steps, init, holes);
      var c := Chase(mem, l.value, steps);
      if c.Ok? {
        assert init ==> Solid(mem[c.value].val, holes, |mem|);
      }
    }
  }

  lemma {:induction false} OperandSettles(P: Program, R: Ranks, init: bool, fuel: nat, r: nat, holes: set<nat>, X: set<string>, env: Env, mem: Mem,
                                          o: Operand)
    requires Ready(P, R, init, fuel, r, holes, mem) && TameOperand(R, r, X, o) && (init ==> NamesClear(env, holes, X))
    ensures Settles(init, holes, mem, EvalOperand(P, fuel, env, mem, o))
    decreases fuel, o, 1
  {
    match o
    case Identifier(name, indirection, steps) => VariableSettles(env, mem, name, indirection, steps, init, holes);
    case CallOperand(call) => CallSettles(P, R, init, fuel, r, holes, X, env, mem, call);
    case IntegerLiteral(_) =>
    case StringLiteral(_) =>
  }

  lemma {:induction false} UnitSettles(P: Program, R: Ranks, init: bool, fuel: nat, r: nat, holes: set<nat>, X: set<string>, env: Env, mem: Mem,
                                       total: Option<Val>, u: Unit)
    requires Ready(P, R, init, fuel, r, holes, mem) && TameUnit(R, r, X, u) && (init ==> NamesClear(env, holes, X))
    ensures Settles(init, holes, mem, EvalUnit(P, fuel, env, mem, total, u))
    decreases fuel, u, 2
  {
    hide Ready, NamesClear, Filled;
    OperandSettles(P, R, init, fuel, r, holes, X, env, mem, u.operand);
  }

  lemma {:induction false} UnitsSettle(P: Program, R: Ranks, init: bool, fuel: nat, r: nat, holes: set<nat>, X: set<string>, env: Env, mem: Mem,
                                       total: Option<Val>, units: seq<Unit>)
    requires Ready(P, R, init, fuel, r, holes, mem) && TameUnits(R, r, X, units) && (init ==> NamesClear(env, holes, X))
    requires init && total.Some? ==> Solid(total.value, holes, |mem|)
    ensures Settles(init, holes, mem, EvalUnits(P, fuel, env, mem, total, units))
    decreases fuel, units, 0
  {
    hide NamesClear, EvalUnit, Filled, Ranked, GlobalsClear;
    if units != [] {
      UnitSettles(P, R, init, fuel, r, holes, X, env, mem, total, units[0]);
      var v := EvalUnit(P, fuel, env, mem, total, units[0]);
      if v.Ok? {
        ReadyLater(P, R, init, fuel, r, holes, mem, v.value.1);
        UnitsSettle(P, R, init, fuel, r, holes, X, env, v.value.1, Some(v.value.0), units[1..]);
      }
    }
  }

  lemma {:induction false} ExpressionSettles(P: Program, R: Ranks, init: bool, fuel: nat, r: nat, holes: set<nat>, X: set<string>, env: Env, mem: Mem,
                                             e: Expression)
    requires Ready(P, R, init, fuel, r, holes, mem) && TameExpression(R, r, X, e) && (init ==> NamesClear(env, holes, X))
    ensures Settles(init, holes, mem, EvalExpression(P, fuel, env, mem, e))
    decreases fuel, e, 1
  {
    UnitsSettle(P, R, init, fuel, r, holes, X, env, mem, None, e.units);
  }

  lemma {:induction false} ArgumentsSettle(P: Program, R: Ranks, init: bool, fuel: nat, r: nat, holes: set<nat>, X: set<string>, env: Env, mem: Mem,
                                           es: seq<Expression>)
    requires Ready(P, R, init, fuel, r, holes, mem) && TameArguments(R, r, X, es) && (init ==> NamesClear(env, holes, X))
    ensures SettlesAll(init, holes, mem, EvalArguments(P, fuel, env, mem, es))
    decreases fuel, es, 0
  {
    hide NamesClear, EvalExpression, Filled, Ranked, GlobalsClear;
    if es != [] {
      ExpressionSettles(P, R, init, fuel, r, holes, X, env, mem, es[0]);
      var v := EvalExpression(P, fuel, env, mem, es[0]);
      if v.Ok? {
        ReadyLater(P, R, init, fuel, r, holes, mem, v.value.1);
        ArgumentsSettle(P, R, init, fuel, r, holes, X, env, v.value.1, es[1..]);
      }
    }
  }

  lemma {:induction false} CallSettles(P: Program, R: Ranks, init: bool, fuel: nat, r: nat, holes: set<nat>, X: set<string>, env: Env, mem: Mem, call: Call)
    requires Ready(P, R, init, fuel, r, holes, mem) && TameCall(R, r, X, call) && (init ==> NamesClear(env, holes, X))
    ensures Settles(init, holes, mem, EvalCall(P, fuel, env, mem, call))
    decreases fuel, call, 1
  {
    hide NamesClear, Filled, GlobalsClear;
    ArgumentsSettle(P, R, init, fuel, r, holes, X, env, mem, call.parameters);
    var vs := EvalArguments(P, fuel, env, mem, call.parameters);
    if vs.Ok? && call.name in P.signatures {
      ReadyLater(P, R, init, fuel, r, holes, mem, vs.value.1);
      InvokeSettles(P, R, init, fuel - 1, holes, call.name, vs.value.0, vs.value.1);
    }
  }

  // The cells of the parameters.
  lemma {:induction false} EntryFilled(mem: Mem, holes: set<nat>, ps: seq<Variable>, vs: seq<Val>)
    requires Filled(mem, holes) && |ps| == |vs| && forall v :: v in vs ==> Solid(v, holes, |mem|)
    ensures Filled(mem + ParameterCells(ps, vs), holes)
  {
    var all := mem + ParameterCells(ps, vs);
    forall l | 0 <= l < |all| && l !in holes ensures Solid(all[l].val, holes, |all|) {
      if l >= |mem| {
        assert all[l].val == vs[l - |mem|] && vs[l - |mem|] in vs;
      }
    }
  }

  lemma {:induction false} InvokeSettles(P: Program, R: Ranks, init: bool, fuel: nat, holes: set<nat>, name: string, vs: seq<Val>, mem: Mem)
    requires name in R && Ready(P, R, init, fuel, R[name], holes, mem) && name in P.functions
    requires init ==> forall v :: v in vs ==> Solid(v, holes, |mem|)
    ensures Settles(init, holes, mem, Invoke(P, fuel, name, vs, mem))
    decreases fuel, P.functions[name].body, 3
  {
    hide ExecBlock;
    var d := P.functions[name];
    if |vs| == |d.parameters| {
      var mem1, names := mem + ParameterCells(d.parameters, vs), ParameterNames(d.parameters, |mem|);
      ParameterNamesShift(d.parameters, |mem|);
      if init {
        EntryFilled(mem, holes, d.parameters, vs);
        assert ScopeClear(P.globals, holes, |mem1|) && ScopeClear(names, holes, |mem1|);
        assert EnvClear([P.globals], holes, |mem1|);
      }
      BlockSettles(P, R, init, fuel, R[name], holes, [P.globals], mem1, names, d.body);
    }
  }

  lemma {:induction false} AssignmentSettles(P: Program, R: Ranks, init: bool, fuel: nat, r: nat, holes: set<nat>, env: Env, mem: Mem,
                                             target: string, steps: nat, e: Expression)
    requires Ready(P, R, init, fuel, r, holes, mem) && TameExpression(R, r, {}, e) && (init ==> EnvClear(env, holes, |mem|))
    ensures var flow := ExecAssignment(P, fuel, env, mem, target, steps, e);
            FlowSettles(init, holes, env, mem, flow) && NextClear(init, holes, env, flow)
    decreases fuel, e, 2
  {
    hide EvalExpression, Ranked, GlobalsClear;
    if init {
      EnvNames(env, holes, |mem|);
      LookupClear(env, holes, |mem|, target);
    }
    var l := Find(env, mem, target);
    if l.Ok? {
      ChaseSettles(mem, l.value, steps, init, holes);
    }
    ExpressionSettles(P, R, init, fuel, r, holes, {}, env, mem, e);
    var v := EvalExpression(P, fuel, env, mem, e);
    if init && v.Ok? {
      EnvLater(env, holes, |mem|, |v.value.1|);
    }
  }

  // A variable gets its value: one hole, and it is filled.
  lemma {:induction false} PairSettles(P: Program, R: Ranks, fuel: nat, r: nat, holes: set<nat>, env: Env, mem: Mem, names: set<string>, v: Variable,
                                       s: Statement)
    requires Ready(P, R, true, fuel, r, holes, mem) && TamePair(R, r, names, v, s) && EnvClear(env, holes, |mem|)
    requires env != [] && env[0].Keys <= names
    ensures var env', mem' := Declare(env, v.name, |mem|), mem + [Cell(v.typ.pointerDepth, Undef)];
            var flow := ExecAssignment(P, fuel, env', mem', s.target, 0, s.expression);
            && FlowSettles(true, holes, env, mem, flow) && NextClear(true, holes, env, flow)
            && (flow.Ok? ==> flow.value.Next? && flow.value.env[0].Keys <= names + {v.name})
    decreases fuel, s.expression, 2
  {
    hide EvalExpression, Ranked;
    var l := |mem|;
    var env', mem', all := Declare(env, v.name, l), mem + [Cell(v.typ.pointerDepth, Undef)], holes + {l};
    DeclareClear(env, holes, l, v.name);
    HoleMade(P, R, fuel, r, holes, mem, v.typ.pointerDepth);
    ExpressionSettles(P, R, true, fuel, r, all, {v.name}, env', mem', s.expression);
    var w := EvalExpression(P, fuel, env', mem', s.expression);
    assert Find(env', mem', v.name) == Ok(l) && Chase(mem', l, 0) == Ok(l);
    if w.Ok? {
      HoleFilled(w.value.1, holes, l, w.value.0);
      EnvLater(env', holes, l + 1, |w.value.1|);
    }
  }

  lemma {:induction false} HoleMade(P: Program, R: Ranks, fuel: nat, r: nat, holes: set<nat>, mem: Mem, depth: nat)
    requires Ready(P, R, true, fuel, r, holes, mem)
    ensures |mem| !in holes
    ensures Ready(P, R, true, fuel, r, holes + {|mem|}, mem + [Cell(depth, Undef)])
  {
    hide Ranked;
    var mem', all := mem + [Cell(depth, Undef)], holes + {|mem|};
    assert Filled(mem, holes);
    forall k | 0 <= k < |mem'| && k !in all ensures Solid(mem'[k].val, all, |mem'|) {
      assert Solid(mem[k].val, holes, |mem|);
    }
  }

  lemma {:induction false} HoleFilled(mem: Mem, holes: set<nat>, l: nat, v: Val)
    requires Filled(mem, holes + {l}) && Solid(v, holes + {l}, |mem|) && l < |mem|
    ensures Filled(mem[l := mem[l].(val := v)], holes)
  {
    var mem' := mem[l := mem[l].(val := v)];
    forall k | 0 <= k < |mem'| && k !in holes ensures Solid(mem'[k].val, holes, |mem'|) {
      assert k != l ==> Solid(mem[k].val, holes + {l}, |mem|);
    }
  }

  lemma {:induction false} StatementSettles(P: Program, R: Ranks, init: bool, fuel: nat, r: nat, holes: set<nat>, env: Env, mem: Mem, s: Statement)
    requires Ready(P, R, init, fuel, r, holes, mem) && TameStatement(R, r, init, s) && (init ==> EnvClear(env, holes, |mem|))
    ensures var flow := ExecStatement(P, fuel, env, mem, s);
            FlowSettles(init, holes, env, mem, flow) && NextClear(init, holes, env, flow)
    ensures var flow := ExecStatement(P, fuel, env, mem, s); init && flow.Ok? && flow.value.Next? ==> flow.value.env == env
    decreases fuel, s, 1
  {
    hide Ranked, GlobalsClear, Filled;
    match s
    case Declaration(_) =>
    case Assignment(target, steps, e) => AssignmentSettles(P, R, init, fuel, r, holes, env, mem, target, steps, e);
    case CallStatement(call) =>
      if init {
        EnvNames(env, holes, |mem|);
      }
      CallSettles(P, R, init, fuel, r, holes, {}, env, mem, call);
      var v := EvalCall(P, fuel, env, mem, call);
      if init && v.Ok? {
        EnvLater(env, holes, |mem|, |v.value.1|);
      }
    case Conditional(chain) => ChainSettles(P, R, init, fuel, r, holes, env, mem, chain);
  }

  lemma {:induction false} StatementsSettle(P: Program, R: Ranks, init: bool, fuel: nat, r: nat, holes: set<nat>, names: set<string>, env: Env, mem: Mem,
                                            ss: seq<Statement>)
    requires Ready(P, R, init, fuel, r, holes, mem) && TameStatements(R, r, init, names, ss)
    requires init ==> EnvClear(env, holes, |mem|) && env != [] && env[0].Keys <= names
    ensures var flow := ExecStatements(P, fuel, env, mem, ss);
            FlowSettles(init, holes, env, mem, flow) && NextClear(init, holes, env, flow)
    decreases fuel, ss, 1
  {
    hide Ranked, GlobalsClear, Filled, EnvClear, ExecAssignment;
    if ss != [] {
      if init && ss[0].Declaration? {
        FirstPair(P, R, fuel, r, holes, names, env, mem, ss);
      } else {
        StatementSettles(P, R, init, fuel, r, holes, env, mem, ss[0]);
        var flow := ExecStatement(P, fuel, env, mem, ss[0]);
        if flow.Ok? && flow.value.Next? {
          ReadyLater(P, R, init, fuel, r, holes, mem, flow.value.mem);
          StatementsSettle(P, R, init, fuel, r, holes, names, flow.value.env, flow.value.mem, ss[1..]);
        }
      }
    }
  }

  // A declaration and its value, and what follows them.
  lemma {:induction false} FirstPair(P: Program, R: Ranks, fuel: nat, r: nat, holes: set<nat>, names: set<string>, env: Env, mem: Mem, ss: seq<Statement>)
    requires Ready(P, R, true, fuel, r, holes, mem) && TameStatements(R, r, true, names, ss) && ss != [] && ss[0].Declaration?
    requires EnvClear(env, holes, |mem|) && env != [] && env[0].Keys <= names
    ensures var flow := ExecStatements(P, fuel, env, mem, ss);
            FlowSettles(true, holes, env, mem, flow) && NextClear(true, holes, env, flow)
    decreases fuel, ss, 0
  {
    hide Ranked, GlobalsClear, Filled, EnvClear, ExecAssignment;
    var v, s := ss[0].variable, ss[1];
    PairSettles(P, R, fuel, r, holes, env, mem, names, v, s);
    var env', mem' := Declare(env, v.name, |mem|), mem + [Cell(v.typ.pointerDepth, Undef)];
    var flow := ExecAssignment(P, fuel, env', mem', s.target, 0, s.expression);
    assert ExecStatement(P, fuel, env, mem, ss[0]) == Ok(Next(env', mem')) && ExecStatement(P, fuel, env', mem', s) == flow;
    assert ss[1..][0] == s && ss[1..][1..] == ss[2..];
    assert ExecStatements(P, fuel, env, mem, ss) == ExecStatements(P, fuel, env', mem', ss[1..]);
    if flow.Ok? {
      ReadyLater(P, R, true, fuel, r, holes, mem, flow.value.mem);
      StatementsSettle(P, R, true, fuel, r, holes, names + {v.name}, flow.value.env, flow.value.mem, ss[2..]);
    }
  }

  lemma {:induction false} ChainSettles(P: Program, R: Ranks, init: bool, fuel: nat, r: nat, holes: set<nat>, env: Env, mem: Mem, chain: seq<Branch>)
    requires Ready(P, R, init, fuel, r, holes, mem) && TameChain(R, r, init, chain) && (init ==> EnvClear(env, holes, |mem|))
    ensures var flow := ExecChain(P, fuel, env, mem, chain);
            FlowSettles(init, holes, env, mem, flow) && NextClear(init, holes, env, flow)
            && (init && flow.Ok? && flow.value.Next? ==> flow.value.env == env)
    decreases fuel, chain, 0
  {
    hide Ranked, GlobalsClear, Filled, EnvClear, EvalCondition, ExecBranch;
    if chain != [] {
      ConditionSettles(P, R, init, fuel, r, holes, env, mem, chain[0]);
      var c := EvalCondition(P, fuel, env, mem, chain[0]);
      if c.Ok? {
        ReadyLater(P, R, init, fuel, r, holes, mem, c.value.1);
        if init {
          EnvLater(env, holes, |mem|, |c.value.1|);
        }
        BranchSettles(P, R, init, fuel, r, holes, env, c.value.1, chain[0]);
        ChainSettles(P, R, init, fuel, r, holes, env, c.value.1, chain[1..]);
      }
    }
  }

  lemma {:induction false} ConditionSettles(P: Program, R: Ranks, init: bool, fuel: nat, r: nat, holes: set<nat>, env: Env, mem: Mem, b: Branch)
    requires Ready(P, R, init, fuel, r, holes, mem) && TameOptional(R, r, b.condition) && (init ==> EnvClear(env, holes, |mem|))
    ensures var c := EvalCondition(P, fuel, env, mem, b);
            Finishes(c) && (init ==> c != Uninitialised && (c.Ok? ==> Filled(c.value.1, holes) && |mem| <= |c.value.1|))
    decreases fuel, b, 2
  {
    hide Ranked, GlobalsClear, Filled;
    if init {
      EnvNames(env, holes, |mem|);
    }
    if b.condition.Some? {
      ExpressionSettles(P, R, init, fuel, r, holes, {}, env, mem, b.condition.value);
    }
  }

  lemma {:induction false} BranchSettles(P: Program, R: Ranks, init: bool, fuel: nat, r: nat, holes: set<nat>, env: Env, mem: Mem, b: Branch)
    requires Ready(P, R, init, fuel, r, holes, mem) && TameBranch(R, r, init, b) && (init ==> EnvClear(env, holes, |mem|))
    ensures var flow := ExecBranch(P, fuel, env, mem, b);
            FlowSettles(init, holes, env, mem, flow) && NextClear(init, holes, env, flow)
            && (init && flow.Ok? && flow.value.Next? ==> flow.value.env == env)
    decreases fuel, b, 2
  {
    var none: map<string, nat> := map[];
    assert none.Keys == {};
    BlockSettles(P, R, init, fuel, r, holes, env, mem, none, b.block);
  }

  // The scope of a block is gone behind it.
  lemma {:induction false} BlockSettles(P: Program, R: Ranks, init: bool, fuel: nat, r: nat, holes: set<nat>, env: Env, mem: Mem, names: map<string, nat>,
                                        b: Block)
    requires Ready(P, R, init, fuel, r, holes, mem) && TameBlock(R, r, init, names.Keys, b)
    requires init ==> EnvClear(env, holes, |mem|) && ScopeClear(names, holes, |mem|)
    ensures var flow := ExecBlock(P, fuel, env, mem, names, b);
            FlowSettles(init, holes, env, mem, flow) && NextClear(init, holes, env, flow)
            && (init && flow.Ok? && flow.value.Next? ==> flow.value.env == env)
    decreases fuel, b, 1
  {
    hide Ranked, GlobalsClear, Filled, ScopeClear;
    var inner := [names] + env;
    if init {
      forall i | 0 <= i < |inner| ensures ScopeClear(inner[i], holes, |mem|) {
        assert i > 0 ==> inner[i] == env[i - 1];
      }
    }
    StatementsSettle(P, R, init, fuel, r, holes, names.Keys, inner, mem, b.statements);
    var flow := ExecStatements(P, fuel, inner, mem, b.statements);
    if flow.Ok? && flow.value.Next? {
      ReadyLater(P, R, init, fuel, r, holes, mem, flow.value.mem);
      if init {
        EnvLater(env, holes, |mem|, |flow.value.mem|);
        assert flow.value.env[1..] == inner[1..] == env;
      }
      ReturnSettles(P, R, init, fuel, r, holes, flow.value.env, flow.value.mem, b);
    }
  }

  lemma {:induction false} ReturnSettles(P: Program, R: Ranks, init: bool, fuel: nat, r: nat, holes: set<nat>, env: Env, mem: Mem, b: Block)
    requires Ready(P, R, init, fuel, r, holes, mem) && TameOptional(R, r, b.returnValue) && (init ==> EnvClear(env, holes, |mem|))
    ensures var flow := ExecReturn(P, fuel, env, mem, b);
            FlowSettles(init, holes, env, mem, flow) && (flow.Ok? && flow.value.Next? ==> env != [] && flow.value == Next(env[1..], mem))
    decreases fuel, b, 0
  {
    hide Ranked, GlobalsClear, Filled;
    if init {
      EnvNames(env, holes, |mem|);
    }
    if b.returnValue.Some? {
      ExpressionSettles(P, R, init, fuel, r, holes, {}, env, mem, b.returnValue.value);
    }
  }

  // ----- whole units -----

  // What an accepted unit makes of a call of a ranked function: it halts in
  // the machine with the result of the source, unless the source reads a
  // variable without a value.
  ghost predicate Returns(declarations: seq<Item>, bodies: seq<Item>, fuel: nat, name: string, vs: seq<Val>, tv: Val, tm: seq<Val>)
    requires Accepted(declarations, bodies) && name in ProgramOf(declarations, bodies).functions
  {
    var P := ProgramOf(declarations, bodies); var u := LowerItems(EMPTY_UNIT, declarations + bodies).value;
    var run := Invoke(P, fuel, name, vs, InitialCells(declarations));
    && run.Ok? && SameOutcome(P, name, |GlobalsOf(declarations)|, run.value, tv, tm)
    && Reaches(ModuleOf(declarations, u), Running(Frame(name, 0, 0, vs, map[]), [], u.initial), Halted(tv, tm))
  }

  lemma {:induction false} RankedReturns(declarations: seq<Item>, bodies: seq<Item>, R: Ranks, name: string, vs: seq<Val>) returns (tv: Val, tm: seq<Val>)
    requires Accepted(declarations, bodies) && IntegerCall(ProgramOf(declarations, bodies), name, vs)
    requires Ranked(ProgramOf(declarations, bodies), R, false) && name in R
    ensures || Invoke(ProgramOf(declarations, bodies), R[name], name, vs, InitialCells(declarations)) == Uninitialised
            || Returns(declarations, bodies, R[name], name, vs, tv, tm)
  {
    var P, mem := ProgramOf(declarations, bodies), InitialCells(declarations);
    hide Ranked, Invoke, ProgramOf, LowerItems, Reaches, InitialCells;
    tv, tm := Undef, [];
    InvokeSettles(P, R, false, R[name], {}, name, vs, mem);
    NeverWrong(declarations, bodies, R[name], name, vs);
    if Invoke(P, R[name], name, vs, mem).Ok? {
      tv, tm := CompilerCorrect(declarations, bodies, R[name], name, vs);
    }
  }

  // Every global variable has an initial value.
  ghost predicate GlobalsInitialised(declarations: seq<Item>) {
    forall i :: i in declarations && i.GlobalItem? ==> i.initial.Some?
  }

  lemma {:induction false} InitialsSolid(items: seq<Item>)
    requires GlobalsInitialised(items)
    ensures forall v :: v in InitialsOf(items) ==> v.IntV?
    decreases |items|
  {
    if items != [] {
      assert items[0] in items && GlobalsInitialised(items[1..]);
      InitialsSolid(items[1..]);
    }
  }

  lemma {:induction false} StartsReady(declarations: seq<Item>, bodies: seq<Item>, R: Ranks, r: nat)
    requires Accepted(declarations, bodies) && GlobalsInitialised(declarations) && Ranked(ProgramOf(declarations, bodies), R, true)
    ensures Ready(ProgramOf(declarations, bodies), R, true, r, r, {}, InitialCells(declarations))
  {
    hide Ranked, GlobalsInitialised;
    var mem := InitialCells(declarations);
    ItemsAppend(EMPTY_UNIT, declarations, bodies);
    InitialTyped(declarations, bodies);
    InitialsSolid(declarations);
    forall l | 0 <= l < |mem| ensures Solid(mem[l].val, {}, |mem|) {
      assert InitialsOf(declarations)[l] in InitialsOf(declarations);
    }
  }

  // A unit whose functions call downwards and whose variables get their values
  // where they are declared runs to the end: every call halts with the result
  // of the source.
  lemma {:induction false} InitialisedReturns(declarations: seq<Item>, bodies: seq<Item>, R: Ranks, name: string, vs: seq<Val>)
    returns (tv: Val, tm: seq<Val>)
    requires Accepted(declarations, bodies) && IntegerCall(ProgramOf(declarations, bodies), name, vs)
    requires Ranked(ProgramOf(declarations, bodies), R, true) && name in R && GlobalsInitialised(declarations)
    ensures Returns(declarations, bodies, R[name], name, vs, tv, tm)
  {
    var P, mem := ProgramOf(declarations, bodies), InitialCells(declarations);
    hide Ranked, Invoke, ProgramOf, LowerItems, Reaches, InitialCells;
    StartsReady(declarations, bodies, R, R[name]);
    InvokeSettles(P, R, true, R[name], {}, name, vs, mem);
    NeverWrong(declarations, bodies, R[name], name, vs);
    tv, tm := CompilerCorrect(declarations, bodies, R[name], name, vs);
  }
}
