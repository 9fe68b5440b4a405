/**
  The converse of Dominance.dfy: code that the materialisation check rejects
  has a path to a use of a register that is not defined on it.
 */
module Avoidance {
  import opened Wrappers
  import opened Ast
  import opened Ir
  import opened Lowering
  import opened Semantics
  import opened DepthExact
  import opened Materialise
  import opened Paths
  import opened Dominance

  // Some path leads here, and it has defined nothing but the generator's past.
  ghost predicate Arrives(B: seq<BasicBlock>, g: Gen, defs: set<nat>)
    requires WF(g)
  {
    Visits(B, Here(g, defs)) && forall r :: r in defs ==> r < g.next
  }

  // Some path leads here without defining r.
  ghost predicate Avoidable(B: seq<BasicBlock>, g: Gen, r: nat)
    requires WF(g)
  {
    r < g.next && exists defs :: Arrives(B, g, defs) && r !in defs
  }

  ghost predicate Inv(B: seq<BasicBlock>, st: Statuses, g: Gen) {
    && Shape(st, g) && (exists defs :: Arrives(B, g, defs))
    && forall k :: 0 <= k < |st| && st[k] == Lost ==> Avoidable(B, g, g.vars[k].variable.id)
  }

  // A value whose register may be undefined here.
  ghost predicate Tainted(B: seq<BasicBlock>, low: Lowered)
    requires WF(low.gen)
  {
    low.value.Reg? && Avoidable(B, low.gen, low.value.id)
  }

  lemma {:induction false} UseAvoidable(B: seq<BasicBlock>, g: Gen, i: Instruction, r: nat)
    requires WF(g) && Within(B, Emit(g, i)) && Avoidable(B, g, r) && r in Uses(i)
    ensures !Dominated(B)
  {
    var defs :| Arrives(B, g, defs) && r !in defs;
    EmittedHere(B, g, i, defs);
    NotDominated(B, Here(g, defs));
  }

  // ----- paths through straight-line code -----

  lemma {:induction false} ArriveStraight(B: seq<BasicBlock>, g: Gen, g': Gen, defs: set<nat>) returns (defs': set<nat>)
    requires WF(g) && WF(g') && Straight(g, g') && Within(B, g') && Arrives(B, g, defs)
    ensures Arrives(B, g', defs') && forall r :: r in defs' && r < g.next ==> r in defs
  {
    defs' := WalkStraight(B, g, g', defs, |g.blocks[g.cur]|);
  }

  lemma {:induction false} AvoidStraight(B: seq<BasicBlock>, g: Gen, g': Gen, r: nat)
    requires WF(g) && WF(g') && Straight(g, g') && Within(B, g') && Avoidable(B, g, r)
    ensures Avoidable(B, g', r)
  {
    var defs :| Arrives(B, g, defs) && r !in defs;
    var defs' := ArriveStraight(B, g, g', defs);
  }

  lemma {:induction false} InvStraight(B: seq<BasicBlock>, st: Statuses, g: Gen, st': Statuses, g': Gen)
    requires Inv(B, st, g) && LaterHere(st, Some(st')) && WF(g') && Tracks(st', g') && Straight(g, g') && Within(B, g')
    ensures Inv(B, st', g')
  {
    ShapeLater(st, g, st', g');
    var defs :| Arrives(B, g, defs);
    var defs' := ArriveStraight(B, g, g', defs);
    forall k | 0 <= k < |st'| && st'[k] == Lost ensures Avoidable(B, g', g'.vars[k].variable.id) {
      assert st[k] == Lost && g'.vars[k] == g.vars[k];
      AvoidStraight(B, g, g', g.vars[k].variable.id);
    }
  }

  // ----- expressions -----

  // A rejected expression is either ill-formed code already or hands out the
  // address of a lost variable.
  ghost predicate Fails(B: seq<BasicBlock>, depth: Option<nat>, low: Lowered)
    requires WF(low.gen)
  {
    !Dominated(B) || (depth.Some? && depth.value > 0 && Tainted(B, low))
  }

  lemma {:induction false} FailUse(B: seq<BasicBlock>, st: Statuses, g: Gen, k: nat, ind: Indirection, steps: nat, d: nat)
    requires Inv(B, st, g) && k < |st| && st[k] == Lost && DepthOfUse(d, ind, steps).Some?
    requires Within(B, LowerUse(g, k, ind, steps).gen)
    ensures Fails(B, DepthOfUse(d, ind, steps), LowerUse(g, k, ind, steps))
  {
    var v := g.vars[k].variable;
    match ind
    case Plain =>
      UseAvoidable(B, g, Load(g.next, if g.vars[k].depth == 0 then g.vars[k].underlying else Ptr, v), v.id);
    case GetAddress =>
    case GetValue =>
      FailChain(B, g, v, steps);
  }

  // The first of the loads uses the register.
  lemma {:induction false} FailChain(B: seq<BasicBlock>, g: Gen, v: Value, steps: nat)
    requires WF(g) && v.Reg? && Avoidable(B, g, v.id) && steps > 0 && Within(B, LoadChain(g, v, steps).gen)
    ensures !Dominated(B)
  {
    var i := Load(g.next, Ptr, v);
    WithinEarlier(B, Emit(g, i), LoadChain(g, v, steps).gen);
    UseAvoidable(B, g, i, v.id);
  }

  lemma {:induction false} FailOperand(B: seq<BasicBlock>, F: Signatures, T: Depths, st: Statuses, g: Gen, o: Operand)
    requires Inv(B, st, g) && LowerOperand(F, g, o).Some? && DepthOfOperand(F, T, o).Some? && CheckOperand(g.scopes, st, o).None?
    requires Within(B, LowerOperand(F, g, o).value.gen)
    ensures Fails(B, DepthOfOperand(F, T, o), LowerOperand(F, g, o).value)
    decreases o, 1
  {
    match o
    case IntegerLiteral(_) =>
    case StringLiteral(_) =>
    case CallOperand(call) => FailCall(B, F, T, st, g, call);
    case Identifier(name, ind, steps) =>
      FailUse(B, st, g, Lookup(g, name).value, ind, steps, LookupIn<nat>(T, name).value);
  }

  lemma {:induction false} FailCall(B: seq<BasicBlock>, F: Signatures, T: Depths, st: Statuses, g: Gen, call: Call)
    requires Inv(B, st, g) && LowerCall(F, g, call).Some? && DepthOfCall(F, T, call).Some? && CheckArguments(g.scopes, st, call.parameters).None?
    requires Within(B, LowerCall(F, g, call).value.gen)
    ensures !Dominated(B)
    decreases call, 1
  {
    var (g1, vs) := LowerArguments(F, g, call.parameters).value;
    var i := CallFunction(g1.next, call.name, vs);
    WithinEarlier(B, g1, Emit(g1, i));
    FailArguments(B, F, T, st, g, F[call.name].parameters, call.parameters);
    if Dominated(B) {
      var v :| v in vs && Tainted(B, Lowered(g1, v));
      UseAvoidable(B, g1, i, v.id);
    }
  }

  lemma {:induction false} FailArguments(B: seq<BasicBlock>, F: Signatures, T: Depths, st: Statuses, g: Gen, ps: seq<Variable>, es: seq<Expression>)
    requires Inv(B, st, g) && LowerArguments(F, g, es).Some? && ArgumentsFit(F, T, ps, es) && CheckArguments(g.scopes, st, es).None?
    requires Within(B, LowerArguments(F, g, es).value.0)
    ensures var (g', vs) := LowerArguments(F, g, es).value;
            !Dominated(B) || exists v :: v in vs && Tainted(B, Lowered(g', v))
    decreases es, 0
  {
    var low, c := LowerExpression(F, g, es[0]).value, CheckExpression(g.scopes, st, es[0]);
    var (g', vs) := LowerArguments(F, g, es).value;
    WithinEarlier(B, low.gen, g');
    if c.None? {
      FailExpression(B, F, T, st, g, es[0]);
      if Dominated(B) {
        AvoidStraight(B, low.gen, g', low.value.id);
        assert vs[0] == low.value && Tainted(B, Lowered(g', vs[0]));
      }
    } else {
      ExpressionTracks(F, st, g, es[0]);
      InvStraight(B, st, g, c.value, low.gen);
      FailArguments(B, F, T, c.value, low.gen, ps[1..], es[1..]);
      if Dominated(B) {
        var v :| v in LowerArguments(F, low.gen, es[1..]).value.1 && Tainted(B, Lowered(g', v));
        assert v in vs;
      }
    }
  }

  lemma {:induction false} FailExpression(B: seq<BasicBlock>, F: Signatures, T: Depths, st: Statuses, g: Gen, e: Expression)
    requires Inv(B, st, g) && LowerExpression(F, g, e).Some? && DepthOfExpression(F, T, e).Some? && CheckExpression(g.scopes, st, e).None?
    requires Within(B, LowerExpression(F, g, e).value.gen)
    ensures Fails(B, DepthOfExpression(F, T, e), LowerExpression(F, g, e).value)
    decreases e, 1
  {
    FailUnits(B, F, T, st, g, None, None, e.units);
  }

  // Nothing can be added to a pointer.
  lemma {:induction false} PointerAlone(F: Signatures, T: Depths, d: nat, us: seq<Unit>)
    requires d > 0 && DepthOfUnits(F, T, Some(d), us).Some?
    ensures us == []
  {}

  lemma {:induction false} FailUnits(B: seq<BasicBlock>, F: Signatures, T: Depths, st: Statuses, g: Gen, total: Option<Value>, d: Option<nat>,
                                     us: seq<Unit>)
    requires Inv(B, st, g) && total.Some? == d.Some?
    requires LowerUnits(F, g, total, us).Some? && DepthOfUnits(F, T, d, us).Some? && CheckUnits(g.scopes, st, us).None?
    requires Within(B, LowerUnits(F, g, total, us).value.gen)
    ensures Fails(B, DepthOfUnits(F, T, d, us), LowerUnits(F, g, total, us).value)
    decreases us, 0
  {
    var low, c, d1 := LowerUnit(F, g, total, us[0]).value, CheckUnit(g.scopes, st, us[0]), DepthOfUnit(F, T, d, us[0]);
    var r := LowerUnits(F, g, total, us).value;
    WithinEarlier(B, low.gen, r.gen);
    if c.None? {
      FailUnit(B, F, T, st, g, total, d, us[0]);
      if Dominated(B) {
        PointerAlone(F, T, d1.value, us[1..]);
      }
    } else {
      UnitTracks(F, st, g, total, us[0]);
      InvStraight(B, st, g, c.value, low.gen);
      FailUnits(B, F, T, c.value, low.gen, Some(low.value), d1, us[1..]);
    }
  }

  lemma {:induction false} FailUnit(B: seq<BasicBlock>, F: Signatures, T: Depths, st: Statuses, g: Gen, total: Option<Value>, d: Option<nat>, u: Unit)
    requires Inv(B, st, g) && total.Some? == d.Some?
    requires LowerUnit(F, g, total, u).Some? && DepthOfUnit(F, T, d, u).Some? && CheckUnit(g.scopes, st, u).None?
    requires Within(B, LowerUnit(F, g, total, u).value.gen)
    ensures Fails(B, DepthOfUnit(F, T, d, u), LowerUnit(F, g, total, u).value)
    decreases u, 2
  {
    WithinEarlier(B, LowerOperand(F, g, u.operand).value.gen, LowerUnit(F, g, total, u).value.gen);
    FailOperand(B, F, T, st, g, u.operand);
  }

  lemma {:induction false} TraceCondition(B: seq<BasicBlock>, F: Signatures, T: Depths, st: Statuses, g: Gen, e: Option<Expression>)
    requires Inv(B, st, g) && LowerCondition(F, g, e).Some? && (e.Some? ==> DepthOfExpression(F, T, e.value) == Some(0))
    requires Within(B, LowerCondition(F, g, e).value.gen)
    ensures var c := CheckOptional(g.scopes, st, e);
            if c.None? then !Dominated(B) else Inv(B, c.value, LowerCondition(F, g, e).value.gen)
  {
    if e.Some? {
      var low := LowerExpression(F, g, e.value).value;
      var r := LowerCondition(F, g, e).value;
      WithinEarlier(B, low.gen, r.gen);
      var c := CheckExpression(g.scopes, st, e.value);
      if c.None? {
        FailExpression(B, F, T, st, g, e.value);
      } else {
        ConditionTracks(F, st, g, e);
        InvStraight(B, st, g, c.value, r.gen);
      }
    }
  }

  // ----- statements -----

  lemma {:induction false} TraceReturn(B: seq<BasicBlock>, F: Signatures, T: Depths, st: Statuses, g: Gen, e: Expression)
    requires Inv(B, st, g) && LowerExpression(F, g, e).Some? && DepthOfExpression(F, T, e).Some? && CheckExpression(g.scopes, st, e).None?
    requires Within(B, LowerReturn(F, g, Some(e)).value)
    ensures !Dominated(B)
  {
    var low := LowerExpression(F, g, e).value;
    WithinEarlier(B, low.gen, Emit(low.gen, Ret(low.value)));
    FailExpression(B, F, T, st, g, e);
    if Dominated(B) {
      UseAvoidable(B, low.gen, Ret(low.value), low.value.id);
    }
  }

  // The store uses both the value and the place.
  lemma {:induction false} FailStore(B: seq<BasicBlock>, low: Lowered, cast: Lowered, place: Value)
    requires WF(low.gen) && (cast == low || cast == Lowered(Emit(low.gen, IntToPtr(low.gen.next, low.value)), Reg(low.gen.next, Ptr)))
    requires Within(B, Emit(cast.gen, Store(cast.value, place)))
    requires Tainted(B, low) || (place.Reg? && Avoidable(B, low.gen, place.id))
    ensures !Dominated(B)
  {
    var i := Store(cast.value, place);
    WithinEarlier(B, cast.gen, Emit(cast.gen, i));
    if place.Reg? && Avoidable(B, low.gen, place.id) {
      AvoidStraight(B, low.gen, cast.gen, place.id);
      UseAvoidable(B, cast.gen, i, place.id);
    } else if cast != low {
      UseAvoidable(B, low.gen, IntToPtr(low.gen.next, low.value), low.value.id);
    } else {
      UseAvoidable(B, cast.gen, i, low.value.id);
    }
  }

  lemma {:induction false} FailAssignment(B: seq<BasicBlock>, F: Signatures, T: Depths, st: Statuses, g: Gen, target: string, steps: nat, e: Expression)
    requires Inv(B, st, g) && LowerAssignment(F, g, target, steps, e).Some? && DepthOfExpression(F, T, e).Some?
    requires CheckAssignment(g.scopes, st, target, e).None? && Within(B, LowerAssignment(F, g, target, steps, e).value)
    ensures !Dominated(B)
  {
    hide DepthOfExpression, Within, Dominated, LowerExpression, Arrives, Avoidable, LookupIn, ScopesIn,
      EmitLoad;
    var k := Lookup(g, target).value;
    var p := LowerDereference(g, k, steps);
    var low := LowerExpression(F, p.gen, e).value;
    var cast := if e.evaluatedType.isPointer then CastToPointer(low.gen, low.value) else low;
    WithinEarlier(B, cast.gen, Emit(cast.gen, Store(cast.value, p.value)));
    WithinEarlier(B, low.gen, cast.gen);
    WithinEarlier(B, p.gen, low.gen);
    if st[k] == Lost {
      var v := g.vars[k].variable;
      if steps > 0 {
        FailChain(B, g, v, steps);
      } else {
        AvoidStraight(B, g, low.gen, v.id);
        FailStore(B, low, cast, p.value);
      }
    } else {
      var st1 := st[k := InMemory];
      assert Tracks(st1, p.gen);
      InvStraight(B, st, g, st1, p.gen);
      FailExpression(B, F, T, st1, p.gen, e);
      if Dominated(B) {
        FailStore(B, low, cast, p.value);
      }
    }
  }

  // The verdict on a statement, and what holds after it.
  ghost predicate Traced(B: seq<BasicBlock>, c: Option<Statuses>, g': Gen) {
    if c.None? then !Dominated(B) else Inv(B, c.value, g')
  }

  lemma {:induction false} TraceDeclaration(B: seq<BasicBlock>, st: Statuses, g: Gen, v: Variable)
    requires Inv(B, st, g) && LowerDeclaration(g, v).Some? && Within(B, LowerDeclaration(g, v).value)
    ensures Inv(B, st + [InMemory], LowerDeclaration(g, v).value)
  {
    var i, g' := Alloca(g.next, StorageType(v.typ).value), LowerDeclaration(g, v).value;
    var g1, st' := Emit(g, i), st + [InMemory];
    assert g1.blocks == g'.blocks;
    InvStraight(B, st, g, st, g1);
    var defs :| Arrives(B, g1, defs);
    assert Arrives(B, g', defs);
    forall k | 0 <= k < |st'| && st'[k] == Lost ensures Avoidable(B, g', g'.vars[k].variable.id) {
      var d :| Arrives(B, g1, d) && g1.vars[k].variable.id !in d;
      assert Arrives(B, g', d);
    }
  }

  lemma {:induction false} TraceStatement(B: seq<BasicBlock>, F: Signatures, T: Depths, ret: nat, st: Statuses, g: Gen, s: Statement)
    requires Inv(B, st, g) && !HasTerminator(g) && LowerStatement(F, g, s).Some? && DepthStatement(F, T, ret, s).Some?
    requires Within(B, LowerStatement(F, g, s).value)
    ensures var c := CheckStatement(Tracked(g.scopes, st), s);
            Traced(B, if c.Some? then Some(c.value.status) else None, LowerStatement(F, g, s).value)
    decreases s, 1
  {
    var r, c := LowerStatement(F, g, s).value, CheckStatement(Tracked(g.scopes, st), s);
    match s
    case Declaration(v) => TraceDeclaration(B, st, g, v);
    case Assignment(target, steps, e) =>
      if c.None? {
        FailAssignment(B, F, T, st, g, target, steps, e);
      } else {
        AssignmentTracks(F, st, g, target, steps, e);
        InvStraight(B, st, g, c.value.status, r);
      }
    case CallStatement(call) =>
      if c.None? {
        FailCall(B, F, T, st, g, call);
      } else {
        CallTracks(F, st, g, call);
        InvStraight(B, st, g, c.value.status, r);
      }
    case Conditional(chain) =>
      var g0 := g.(blocks := g.blocks + [[]]);
      InvElsewhere(B, st, g, g0);
      TraceChain(B, F, T, ret, st, g0, chain, |g.blocks|);
  }

  // The same insertion point in a graph with more blocks, or another scope.
  lemma {:induction false} InvElsewhere(B: seq<BasicBlock>, st: Statuses, g: Gen, g0: Gen)
    requires Inv(B, st, g) && WF(g0) && g0.cur == g.cur && g0.blocks[g0.cur] == g.blocks[g.cur] && g0.vars == g.vars && g0.next == g.next
    ensures Inv(B, st, g0)
  {
    var defs :| Arrives(B, g, defs);
    assert Arrives(B, g0, defs);
    forall k | 0 <= k < |st| && st[k] == Lost ensures Avoidable(B, g0, g0.vars[k].variable.id) {
      var d :| Arrives(B, g, d) && g.vars[k].variable.id !in d;
      assert Arrives(B, g0, d);
    }
  }

  lemma {:induction false} TraceStatements(B: seq<BasicBlock>, F: Signatures, T: Depths, ret: nat, st: Statuses, g: Gen, ss: seq<Statement>)
    requires Inv(B, st, g) && !HasTerminator(g) && LowerStatements(F, g, ss).Some? && DepthStatements(F, T, ret, ss).Some?
    requires Within(B, LowerStatements(F, g, ss).value)
    ensures var c := CheckStatements(Tracked(g.scopes, st), ss);
            Traced(B, if c.Some? then Some(c.value.status) else None, LowerStatements(F, g, ss).value)
    decreases ss, 0
  {
    if ss != [] {
      var low, c := LowerStatement(F, g, ss[0]).value, CheckStatement(Tracked(g.scopes, st), ss[0]);
      WithinEarlier(B, low, LowerStatements(F, g, ss).value);
      TraceStatement(B, F, T, ret, st, g, ss[0]);
      if c.Some? {
        StatementTracks(F, st, g, ss[0]);
        TraceStatements(B, F, DepthStatement(F, T, ret, ss[0]).value, ret, c.value.status, low, ss[1..]);
      }
    }
  }

  lemma {:induction false} TraceBlock(B: seq<BasicBlock>, F: Signatures, T: Depths, depths: map<string, nat>, ret: nat, st: Statuses, g: Gen,
                                      names: map<string, nat>, b: Block)
    requires Inv(B, st, g) && !HasTerminator(g) && (forall n :: n in names ==> names[n] < |g.vars|)
    requires LowerBlock(F, g, names, b).Some? && BlockFits(F, T, depths, ret, b) && Within(B, LowerBlock(F, g, names, b).value)
    ensures var c := CheckBlock(g.scopes, st, names, b);
            (c.Some? && b.returnValue.Some?) || Traced(B, c, LowerBlock(F, g, names, b).value)
    decreases b, 1
  {
    var g0 := g.(scopes := [names] + g.scopes);
    var g1, t1 := LowerStatements(F, g0, b.statements).value, CheckStatements(Tracked(g0.scopes, st), b.statements);
    InvElsewhere(B, st, g, g0);
    WithinEarlier(B, g1, LowerReturn(F, g1, b.returnValue).value);
    TraceStatements(B, F, [depths] + T, ret, st, g0, b.statements);
    if t1.Some? {
      StatementsTrack(F, st, g0, b.statements);
      if b.returnValue.Some? {
        if CheckBlock(g.scopes, st, names, b).None? {
          TraceReturn(B, F, DepthStatements(F, [depths] + T, ret, b.statements).value, t1.value.status, g1, b.returnValue.value);
        }
      } else {
        InvElsewhere(B, t1.value.status, g1, LowerBlock(F, g, names, b).value);
      }
    }
  }

  // ----- chains -----

  ghost predicate Goes(B: seq<BasicBlock>, p: Point, q: Point) {
    exists side :: Move(B, p, side) == Some(q)
  }

  ghost predicate Jumps(B: seq<BasicBlock>, g: Gen, target: nat)
    requires WF(g)
  {
    forall defs: set<nat> :: Goes(B, Here(g, defs), Point(target, 0, defs))
  }

  // A jump to `at`, which has the same variables or later ones.
  lemma {:induction false} ArriveJump(B: seq<BasicBlock>, g: Gen, at: Gen, defs: set<nat>)
    requires WF(g) && Arrives(B, g, defs) && WF(at) && at.blocks[at.cur] == [] && g.next <= at.next && Jumps(B, g, at.cur)
    ensures Arrives(B, at, defs)
  {
    assert Goes(B, Here(g, defs), Point(at.cur, 0, defs));
    var side :| Move(B, Here(g, defs), side) == Some(Point(at.cur, 0, defs));
    VisitsNext(B, Here(g, defs), side);
  }

  lemma {:induction false} JumpsExit(B: seq<BasicBlock>, g: Gen, merge: nat)
    requires WF(g) && Within(B, Emit(g, Br(merge)))
    ensures Jumps(B, g, merge)
  {
    forall defs: set<nat> ensures Goes(B, Here(g, defs), Point(merge, 0, defs)) {
      EmittedHere(B, g, Br(merge), defs);
      assert Move(B, Here(g, defs), true) == Some(Point(merge, 0, defs));
    }
  }

  lemma {:induction false} JumpsSplit(B: seq<BasicBlock>, g: Gen, c: Value)
    requires WF(g) && Within(B, SplitAt(g, c))
    ensures Jumps(B, g, |g.blocks|) && Jumps(B, g, |g.blocks| + 1)
  {
    var g0 := g.(blocks := g.blocks + [[], []]);
    var i := CondBr(c, |g.blocks|, |g.blocks| + 1);
    assert Emit(g0, i).blocks == SplitAt(g, c).blocks;
    forall defs: set<nat> ensures Goes(B, Here(g, defs), Point(|g.blocks|, 0, defs)) {
      EmittedHere(B, g0, i, defs);
      assert Move(B, Here(g, defs), true) == Some(Point(|g.blocks|, 0, defs));
    }
    forall defs: set<nat> ensures Goes(B, Here(g, defs), Point(|g.blocks| + 1, 0, defs)) {
      EmittedHere(B, g0, i, defs);
      assert Move(B, Here(g, defs), false) == Some(Point(|g.blocks| + 1, 0, defs));
    }
  }

  // After a jump, whatever was lost before it still is, and so is whatever
  // was created elsewhere since.
  lemma {:induction false} InvJump(B: seq<BasicBlock>, st: Statuses, g: Gen, st': Statuses, at: Gen)
    requires Inv(B, st, g) && Shape(st', at) && Jumps(B, g, at.cur) && at.blocks[at.cur] == [] && g.next <= at.next
    requires forall k :: 0 <= k < |st'| && st'[k] == Lost ==>
               (k < |st| && st[k] == Lost && at.vars[k] == g.vars[k]) || at.vars[k].variable.id >= g.next
    ensures Inv(B, st', at)
  {
    var defs :| Arrives(B, g, defs);
    ArriveJump(B, g, at, defs);
    forall k | 0 <= k < |st'| && st'[k] == Lost ensures Avoidable(B, at, at.vars[k].variable.id) {
      assert SlotShape(st'[k], at.vars[k].variable, at.next);
      if k < |st| && st[k] == Lost && at.vars[k] == g.vars[k] {
        var d :| Arrives(B, g, d) && g.vars[k].variable.id !in d;
        ArriveJump(B, g, at, d);
      }
    }
  }

  // The statuses at the next comparison.
  lemma {:induction false} InvSkip(B: seq<BasicBlock>, st1: Statuses, g: Gen, v: Value, taken: Statuses, g2: Gen, l: Gen)
    requires Inv(B, st1, g) && Within(B, SplitAt(g, v)) && Grows(SplitAt(g, v), g2) && Later(st1, taken) && Shape(taken, g2)
    requires WF(l) && l.vars == g2.vars && l.next >= g2.next && l.cur == |g.blocks| + 1 && l.blocks[l.cur] == [] && Shape(Meet(st1, taken), l)
    ensures Inv(B, Meet(st1, taken), l)
  {
    var g1, mid := SplitAt(g, v), Meet(st1, taken);
    JumpsSplit(B, g, v);
    forall k | 0 <= k < |mid| && mid[k] == Lost
      ensures (k < |st1| && st1[k] == Lost && l.vars[k] == g.vars[k]) || l.vars[k].variable.id >= g.next
    {
      assert SlotShape(mid[k], l.vars[k].variable, l.next);
      if k < |st1| {
        assert SlotShape(st1[k], g1.vars[k].variable, g1.next);
      }
    }
    InvJump(B, st1, g, mid, l);
  }

  // The statuses after the group, when the branch falls through.
  lemma {:induction false} InvMerge(B: seq<BasicBlock>, st1: Statuses, taken: Statuses, g2: Gen, l: Gen, others: Statuses, r: Gen)
    requires Inv(B, taken, g2) && Jumps(B, g2, r.cur) && Inv(B, others, r) && r.blocks[r.cur] == []
    requires |st1| <= |taken| == |g2.vars| && l.vars == g2.vars && g2.next <= l.next && WF(l) && Grows(l, r.(cur := l.cur)) && Later(Meet(st1, taken), others)
    ensures Inv(B, Meet(others, taken), r)
  {
    var st' := Meet(others, taken);
    assert Shape(st', r) by {
      forall k | 0 <= k < |st'| ensures SlotShape(st'[k], r.vars[k].variable, r.next) && (st'[k] == InRegister <==> !r.vars[k].isAlloca) {
        assert SlotShape(others[k], r.vars[k].variable, r.next);
      }
    }
    forall k | 0 <= k < |st'| && st'[k] == Lost ensures Avoidable(B, r, r.vars[k].variable.id) {
      assert SlotShape(st'[k], r.vars[k].variable, r.next);
      if others[k] != Lost {
        var defs :| Arrives(B, g2, defs);
        ArriveJump(B, g2, r, defs);
        assert r.vars[k].variable.id !in defs;
      }
    }
  }

  lemma {:induction false} TraceEnd(B: seq<BasicBlock>, st: Statuses, g: Gen, merge: nat)
    requires Inv(B, st, g) && merge < |g.blocks| && merge != g.cur && g.blocks[merge] == [] && Within(B, Emit(g, Br(merge)))
    ensures Inv(B, st, Emit(g, Br(merge)).(cur := merge))
  {
    JumpsExit(B, g, merge);
    InvJump(B, st, g, st, Emit(g, Br(merge)).(cur := merge));
  }

  // Where a branch that was taken meets the rest of the chain.
  lemma {:induction false} TraceMeet(B: seq<BasicBlock>, F: Signatures, sc: Scopes, st1: Statuses, g: Gen, b: Branch, others: Statuses, merge: nat,
                                     r: Gen)
    requires WF(g) && merge < |g.blocks| && merge != g.cur && g.blocks[merge] == [] && LowerBranch(F, g, b, merge).Some?
    requires CheckBranch(sc, st1, b).Some? && LowerCondition(F, g, b.condition).Some?
    requires var c := LowerCondition(F, g, b.condition).value;
             && LowerBlock(F, SplitAt(c.gen, c.value), map[], b.block).Some?
             && var g2 := LowerBlock(F, SplitAt(c.gen, c.value), map[], b.block).value;
             && Inv(B, CheckBranch(sc, st1, b).value, g2) && Jumps(B, g2, merge)
    requires var l, taken := LowerBranch(F, g, b, merge).value, CheckBranch(sc, st1, b).value;
             && Inv(B, others, r) && r.cur == merge && r.blocks[merge] == [] && Grows(l, r.(cur := l.cur)) && Later(Meet(st1, taken), others)
    ensures Inv(B, Meet(others, CheckBranch(sc, st1, b).value), r)
  {
    hide Grows, Within, LowerCondition, LowerBlock, CheckBranch;
    BranchStations(F, g, b, merge);
    var c := LowerCondition(F, g, b.condition).value;
    var g2 := LowerBlock(F, SplitAt(c.gen, c.value), map[], b.block).value;
    assert Close(g2, merge).vars == g2.vars && g2.next <= Close(g2, merge).next;
    InvMerge(B, st1, CheckBranch(sc, st1, b).value, g2, LowerBranch(F, g, b, merge).value, others, r);
  }

  lemma {:induction false} TraceChain(B: seq<BasicBlock>, F: Signatures, T: Depths, ret: nat, st: Statuses, g: Gen, chain: seq<Branch>, merge: nat)
    requires Inv(B, st, g) && merge < |g.blocks| && merge != g.cur && g.blocks[merge] == []
    requires LowerChain(F, g, chain, merge).Some? && ChainFits(F, T, ret, chain) && Within(B, LowerChain(F, g, chain, merge).value)
    ensures Traced(B, CheckChain(g.scopes, st, chain), LowerChain(F, g, chain, merge).value)
    decreases chain, 0
  {
    assert WF(g);
    hide Inv, Within, LowerBranch, LowerCondition, LowerBlock, CheckOptional, CheckBranch, Meet, Dominated, ScopesIn,
      VarsLater, BranchFits;
    var r := LowerChain(F, g, chain, merge).value;
    if chain == [] {
      TraceEnd(B, st, g, merge);
    } else {
      var b := chain[0];
      ChainStations(F, g, chain, merge);
      var l := LowerBranch(F, g, b, merge).value;
      WithinEarlier(B, l, r.(cur := l.cur));
      TraceBranch(B, F, T, ret, st, g, b, merge);
      var st1 := CheckOptional(g.scopes, st, b.condition);
      if st1.Some? && CheckBranch(g.scopes, st1.value, b).Some? {
        var taken := CheckBranch(g.scopes, st1.value, b).value;
        BranchStations(F, g, b, merge);
        TraceChain(B, F, T, ret, Meet(st1.value, taken), l, chain[1..], merge);
        var others := CheckChain(g.scopes, Meet(st1.value, taken), chain[1..]);
        if others.Some? && b.block.returnValue.None? {
          TraceMeet(B, F, g.scopes, st1.value, g, b, others.value, merge, r);
        }
      }
    }
  }

  // One branch: rejected, or control gets past it in both ways.
  lemma {:induction false} TraceBranch(B: seq<BasicBlock>, F: Signatures, T: Depths, ret: nat, st: Statuses, g: Gen, b: Branch, merge: nat)
    requires Inv(B, st, g) && merge < |g.blocks| && merge != g.cur && g.blocks[merge] == []
    requires LowerBranch(F, g, b, merge).Some? && BranchFits(F, T, ret, b) && Within(B, LowerBranch(F, g, b, merge).value)
    ensures var st1 := CheckOptional(g.scopes, st, b.condition);
            if st1.None? || CheckBranch(g.scopes, st1.value, b).None? then !Dominated(B)
            else
              var taken := CheckBranch(g.scopes, st1.value, b).value;
              && Inv(B, Meet(st1.value, taken), LowerBranch(F, g, b, merge).value)
              && (b.block.returnValue.None? ==>
                    && LowerCondition(F, g, b.condition).Some?
                    && var c := LowerCondition(F, g, b.condition).value;
                    && LowerBlock(F, SplitAt(c.gen, c.value), map[], b.block).Some?
                    && var g2 := LowerBlock(F, SplitAt(c.gen, c.value), map[], b.block).value;
                    && Inv(B, taken, g2) && Jumps(B, g2, merge))
    decreases b, 2
  {
    hide Dominated, Meet, LowerBlock, Arrives, Avoidable, DepthOfExpression, CheckExpression, CheckBlock,
      LowerExpression, Value.Type, VarsLater, Instruction.IsTerminator;
    BranchStations(F, g, b, merge);
    var c, st1 := LowerCondition(F, g, b.condition).value, CheckOptional(g.scopes, st, b.condition);
    var g1, l := SplitAt(c.gen, c.value), LowerBranch(F, g, b, merge).value;
    var g2 := LowerBlock(F, g1, map[], b.block).value;
    WithinEarlier(B, g2, Close(g2, merge));
    WithinEarlier(B, g1, g2);
    WithinEarlier(B, c.gen, g1);
    TraceCondition(B, F, T, st, g, b.condition);
    if st1.Some? {
      JumpsSplit(B, c.gen, c.value);
      assert Shape(st1.value, g1);
      InvJump(B, st1.value, c.gen, st1.value, g1);
      TraceBlock(B, F, T, map[], ret, st1.value, g1, map[], b.block);
      if CheckBranch(g.scopes, st1.value, b).Some? {
        BranchShapes(F, st, g, b, merge);
        InvSkip(B, st1.value, c.gen, c.value, CheckBranch(g.scopes, st1.value, b).value, g2, l);
        if b.block.returnValue.None? {
          JumpsExit(B, g2, merge);
        }
      }
    }
  }

  // ----- the check is exact -----

  // Before a body: the globals are the only variables.
  ghost predicate OnlyGlobals(g: Gen) {
    && ScopesIn(g.scopes, |g.vars|) && g.blocks == []
    && forall k :: 0 <= k < |g.vars| ==> g.vars[k].isAlloca && g.vars[k].variable.Global?
  }

  lemma {:induction false} EntryInv(B: seq<BasicBlock>, g: Gen, ps: seq<Variable>)
    requires OnlyGlobals(g) && ParameterSlots(ps).Some?
    ensures var g1, st := StartBody(g, ParameterSlots(ps).value), EntryStatuses(|g.vars|, |ps|);
            Inv(B, st, g1) && Here(g1, {}) == ENTRY && Needs(st, g1) == {}
  {
    var slots := ParameterSlots(ps).value;
    var g1, st := StartBody(g, slots), EntryStatuses(|g.vars|, |ps|);
    forall k | 0 <= k < |st|
      ensures SlotShape(st[k], g1.vars[k].variable, g1.next) && (st[k] == InRegister <==> !g1.vars[k].isAlloca)
    {
      if k >= |g.vars| {
        assert ParameterSlot(ps[k - |g.vars|], k - |g.vars|) == Some(slots[k - |g.vars|]);
      }
    }
    VisitsEntry(B);
    assert Arrives(B, g1, {});
  }

  lemma {:induction false} DominanceExact(F: Signatures, T: Depths, depths: map<string, nat>, ret: nat, g: Gen, ps: seq<Variable>, b: Block)
    requires OnlyGlobals(g) && BlockFits(F, T, depths, ret, b) && b.returnValue.Some? && LowerBody(F, g, ps, b).Some?
    ensures CheckBody(g.scopes, |g.vars|, ps, b).Some? <==> Dominated(LowerBody(F, g, ps, b).value.blocks)
  {
    var B := LowerBody(F, g, ps, b).value.blocks;
    var g1, st, names := StartBody(g, ParameterSlots(ps).value), EntryStatuses(|g.vars|, |ps|), ParameterNames(ps, |g.vars|);
    EntryInv(B, g, ps);
    assert Within(B, LowerBlock(F, g1, names, b).value);
    TraceBlock(B, F, T, depths, ret, st, g1, names, b);
    if CheckBody(g.scopes, |g.vars|, ps, b).Some? {
      BlockTracks(F, st, g1, names, b);
      SafeBlock(B, F, st, g1, names, b);
    }
  }
}
