/**
  A program outside the theorem, and what becomes of it:

    int f(int a) { if (a) { a = 1 } return a }

  The cell of `a` is created in the branch, so a call with 0 never creates it
  and yet loads from it.
 */
module LateCell {
  import opened Wrappers
  import opened Ast
  import opened Ir
  import opened Lowering
  import opened Semantics
  import opened DepthExact
  import opened Materialise
  import opened Paths
  import opened Avoidance
  import opened Items
  import opened Units

  const INT := Type(Int, false, 0)

  const READ_A := Expression([Unit(None, Identifier("a", Plain, 0))], INT)

  const ONE := Expression([Unit(None, IntegerLiteral("1"))], INT)

  const BRANCH := Branch(Some(READ_A), Block([Assignment("a", 0, ONE)], None))

  const BODY := Block([Conditional([BRANCH])], Some(READ_A))

  const SIGNATURE := Signature([Variable(INT, "a")], INT)

  const DECLARATIONS := [FunctionItem("f", SIGNATURE)]

  const BODIES := [BodyItem("f", BODY)]

  const FUNCTIONS: Signatures := map["f" := SIGNATURE]

  const TEST := ICmpNe(0, Arg(0, I32), Const(I32, 0))

  const FORK := CondBr(Reg(0, I1), 2, 3)

  const TAKEN: BasicBlock := [Alloca(2, I32), Store(Arg(0, I32), Reg(2, Ptr)), Store(Const(I32, 1), Reg(2, Ptr))]

  // Block 0 is the entry, 1 the merge block, 2 the branch, 3 what follows a
  // comparison that fails.
  const EMITTED: seq<BasicBlock> := [[TEST, FORK], [Load(7, I32, Reg(2, Ptr)), Ret(Reg(7, I32))], TAKEN + [Br(1)], [Br(1)]]

  const BEFORE := Slot(Arg(0, I32), I32, false, 0)

  const AFTER := Slot(Reg(2, Ptr), I32, true, 0)

  const SCOPES: Scopes := [map["a" := 0], map[]]

  lemma {:induction false} EmitIs(g: Gen, i: Instruction, blocks: seq<BasicBlock>)
    requires WF(g) && |blocks| == |g.blocks| && blocks[g.cur] == g.blocks[g.cur] + [i]
    requires forall k :: 0 <= k < |blocks| && k != g.cur ==> blocks[k] == g.blocks[k]
    ensures Emit(g, i) == g.(blocks := blocks, next := g.next + 1)
  {
    assert Emit(g, i).blocks == blocks;
  }

  lemma {:induction false} ReadA(g: Gen)
    requires WF(g) && g.vars == [BEFORE] && g.scopes == SCOPES
    ensures LowerExpression(FUNCTIONS, g, READ_A) == Some(Lowered(g, Arg(0, I32)))
  {
    var u := READ_A.units[0];
    assert LookupIn<nat>(SCOPES, "a") == Some(0);
    assert LowerUnit(FUNCTIONS, g, None, u) == Some(Lowered(g, Arg(0, I32)));
    assert READ_A.units[1..] == [];
    assert LowerUnits(FUNCTIONS, g, Some(Arg(0, I32)), []) == Some(Lowered(g, Arg(0, I32)));
  }

  lemma {:induction false} OneConst(g: Gen)
    requires WF(g)
    ensures LowerExpression(FUNCTIONS, g, ONE) == Some(Lowered(g, Const(I32, 1)))
  {
    assert Stoi("1") == Some(1);
    assert LowerUnit(FUNCTIONS, g, None, ONE.units[0]) == Some(Lowered(g, Const(I32, 1)));
    assert ONE.units[1..] == [];
    assert LowerUnits(FUNCTIONS, g, Some(Const(I32, 1)), []) == Some(Lowered(g, Const(I32, 1)));
  }

  lemma {:induction false} AssignOne(g: Gen)
    requires g == Gen([[TEST, FORK], [], [], []], 2, 2, [BEFORE], [map[]] + SCOPES)
    ensures LowerAssignment(FUNCTIONS, g, "a", 0, ONE) == Some(Gen([[TEST, FORK], [], TAKEN, []], 2, 5, [AFTER], g.scopes))
  {
    hide LowerExpression, Stoi;
    assert LookupIn<nat>(g.scopes[1..], "a") == Some(0);
    assert Lookup(g, "a") == Some(0);
    EmitIs(g, TAKEN[0], [[TEST, FORK], [], TAKEN[..1], []]);
    EmitIs(Emit(g, TAKEN[0]), TAKEN[1], [[TEST, FORK], [], TAKEN[..2], []]);
    var p := LowerDereference(g, 0, 0);
    assert p.gen.blocks == [[TEST, FORK], [], TAKEN[..2], []] && p.gen.vars == [AFTER] && p.value == Reg(2, Ptr);
    OneConst(p.gen);
    EmitIs(p.gen, TAKEN[2], [[TEST, FORK], [], TAKEN, []]);
    var r := LowerAssignment(FUNCTIONS, g, "a", 0, ONE).value;
    assert r.blocks == [[TEST, FORK], [], TAKEN, []];
  }

  lemma {:induction false} LowerTaken(g: Gen)
    requires g == Gen([[TEST, FORK], [], [], []], 2, 2, [BEFORE], SCOPES)
    ensures LowerBlock(FUNCTIONS, g, map[], BRANCH.block) == Some(Gen([[TEST, FORK], [], TAKEN, []], 2, 5, [AFTER], SCOPES))
  {
    var inner := g.(scopes := [map[]] + SCOPES);
    AssignOne(inner);
    var ss, g2 := BRANCH.block.statements, LowerAssignment(FUNCTIONS, inner, "a", 0, ONE).value;
    assert ss[1..] == [];
    assert LowerStatement(FUNCTIONS, inner, ss[0]) == Some(g2);
    assert LowerStatements(FUNCTIONS, g2, []) == Some(g2);
    assert LowerStatements(FUNCTIONS, inner, ss) == Some(g2);
    assert g2.scopes[1..] == SCOPES;
  }

  lemma {:induction false} LowerIf(g: Gen)
    requires g == Gen([[], []], 0, 0, [BEFORE], SCOPES)
    ensures LowerBranch(FUNCTIONS, g, BRANCH, 1) == Some(Gen([[TEST, FORK], [], TAKEN + [Br(1)], []], 3, 6, [AFTER], SCOPES))
  {
    hide LowerBlock;
    ReadA(g);
    EmitIs(g, TEST, [[TEST], []]);
    var c := LowerCondition(FUNCTIONS, g, BRANCH.condition).value;
    assert c == Lowered(Gen([[TEST], []], 0, 1, [BEFORE], SCOPES), Reg(0, I1));
    EmitIs(Gen([[TEST], [], [], []], 0, 1, [BEFORE], SCOPES), FORK, [[TEST, FORK], [], [], []]);
    assert c.gen.blocks + [[], []] == [[TEST], [], [], []];
    var g1 := SplitAt(c.gen, c.value);
    LowerTaken(g1);
    EmitIs(LowerBlock(FUNCTIONS, g1, map[], BRANCH.block).value, Br(1), [[TEST, FORK], [], TAKEN + [Br(1)], []]);
  }

  const START := Gen([], 0, 0, [], [map[]])

  lemma {:induction false} EnterF()
    ensures ParameterSlots(SIGNATURE.parameters) == Some([BEFORE]) && ParameterNames(SIGNATURE.parameters, 0) == map["a" := 0]
  {
    var ps := SIGNATURE.parameters;
    assert ps[..|ps| - 1] == [] && ParameterSlots([]) == Some([]) && ParameterSlot(ps[0], 0) == Some(BEFORE);
    assert [] + [BEFORE] == [BEFORE];
    assert ParameterNames(ps[1..], 1) == map[];
  }

  lemma {:induction false} LowerGroup(g: Gen)
    requires g == Gen([[]], 0, 0, [BEFORE], SCOPES)
    ensures LowerStatements(FUNCTIONS, g, BODY.statements)
            == Some(Gen([[TEST, FORK], [], TAKEN + [Br(1)], [Br(1)]], 1, 7, [AFTER], SCOPES))
  {
    hide Grows;
    var g0 := g.(blocks := [[], []]);
    LowerIf(g0);
    var l := LowerBranch(FUNCTIONS, g0, BRANCH, 1).value;
    EmitIs(l, Br(1), [[TEST, FORK], [], TAKEN + [Br(1)], [Br(1)]]);
    var merged := Gen([[TEST, FORK], [], TAKEN + [Br(1)], [Br(1)]], 1, 7, [AFTER], SCOPES);
    assert [BRANCH][1..] == [] && LowerChain(FUNCTIONS, l, [], 1) == Some(merged);
    assert LowerChain(FUNCTIONS, g0, [BRANCH], 1) == Some(merged);
    assert g.blocks + [[]] == g0.blocks && LowerStatement(FUNCTIONS, g, BODY.statements[0]) == Some(merged);
    assert BODY.statements[1..] == [] && LowerStatements(FUNCTIONS, merged, []) == Some(merged);
  }

  lemma {:induction false} LowerF()
    ensures OnlyGlobals(START) && LowerBody(FUNCTIONS, START, SIGNATURE.parameters, BODY).Some?
    ensures LowerBody(FUNCTIONS, START, SIGNATURE.parameters, BODY).value == Gen(EMITTED, 1, 9, [], [map[]])
  {
    EnterF();
    var g := StartBody(START, [BEFORE]);
    assert g == Gen([[]], 0, 0, [BEFORE], [map[]]) && [map["a" := 0]] + g.scopes == SCOPES;
    LowerGroup(g.(scopes := SCOPES));
    LowerFinish(LowerStatements(FUNCTIONS, g.(scopes := SCOPES), BODY.statements).value);
    assert SCOPES[1..] == [map[]];
    assert LowerBlock(FUNCTIONS, g, map["a" := 0], BODY) == Some(Gen(EMITTED, 1, 9, [AFTER], [map[]]));
  }

  lemma {:induction false} LowerFinish(g: Gen)
    requires g == Gen([[TEST, FORK], [], TAKEN + [Br(1)], [Br(1)]], 1, 7, [AFTER], SCOPES)
    ensures LowerReturn(FUNCTIONS, g, Some(READ_A)) == Some(Gen(EMITTED, 1, 9, [AFTER], SCOPES))
  {
    var i := Load(7, I32, Reg(2, Ptr));
    EmitIs(g, i, [[TEST, FORK], [i], TAKEN + [Br(1)], [Br(1)]]);
    EmitIs(Emit(g, i), Ret(Reg(7, I32)), EMITTED);
    assert LookupIn<nat>(SCOPES, "a") == Some(0);
    var low := Lowered(Emit(g, i), Reg(7, I32));
    assert LowerUnit(FUNCTIONS, g, None, READ_A.units[0]) == Some(low);
    assert READ_A.units[1..] == [] && LowerUnits(FUNCTIONS, low.gen, Some(low.value), []) == Some(low);
  }

  lemma {:induction false} LateLowered()
    ensures LowerItems(EMPTY_UNIT, DECLARATIONS + BODIES).Some?
    ensures LowerItems(EMPTY_UNIT, DECLARATIONS + BODIES).value.blocks == map["f" := EMITTED]
  {
    LowerF();
    ItemsAppend(EMPTY_UNIT, DECLARATIONS, BODIES);
    var u1 := EMPTY_UNIT.(functions := FUNCTIONS);
    assert DECLARATIONS[1..] == [] && BODIES[1..] == [];
    assert LowerItem(EMPTY_UNIT, DECLARATIONS[0]) == Some(u1);
    assert LowerItems(u1, []) == Some(u1) && LowerItems(EMPTY_UNIT, DECLARATIONS) == Some(u1);
    assert u1.gen.(blocks := []) == START;
    var u2 := u1.(gen := Gen([], 1, 9, [], [map[]]), blocks := map["f" := EMITTED], hasBuilder := true);
    assert LowerItem(u1, BODIES[0]) == Some(u2);
    assert LowerItems(u2, []) == Some(u2);
  }

  // A call with 0: the source returns it, the machine is stuck at the load.
  lemma {:induction false} LateStuck()
    ensures !Dominated(EMITTED)
    ensures var m := Module(map["f" := EMITTED], map[]);
            Reaches(m, Running(Frame("f", 0, 0, [IntV(0)], map[]), [], []), Stuck)
  {
    var p1, p2, p3 := Point(0, 1, {0}), Point(3, 0, {0}), Point(1, 0, {0});
    VisitsEntry(EMITTED);
    assert {} + Defs(TEST) == {0};
    VisitsNext(EMITTED, ENTRY, true);
    assert Move(EMITTED, ENTRY, true) == Some(p1);
    VisitsNext(EMITTED, p1, false);
    assert Move(EMITTED, p1, false) == Some(p2);
    VisitsNext(EMITTED, p2, true);
    assert Move(EMITTED, p2, true) == Some(p3);
    NotDominated(EMITTED, p3);
    var m := Module(map["f" := EMITTED], map[]);
    var c0 := Running(Frame("f", 0, 0, [IntV(0)], map[]), [], []);
    var c1 := Running(Frame("f", 0, 1, [IntV(0)], map[0 := IntV(0)]), [], []);
    var c2 := Running(Frame("f", 3, 0, [IntV(0)], map[0 := IntV(0)]), [], []);
    var c3 := Running(Frame("f", 1, 0, [IntV(0)], map[0 := IntV(0)]), [], []);
    assert Step(m, c0) == c1;
    assert Step(m, c1) == c2;
    assert Step(m, c2) == c3;
    assert Step(m, c3) == Stuck;
    ReachesStep(m, c0);
    ReachesStep(m, c1);
    ReachesStep(m, c2);
    ReachesStep(m, c3);
    ReachesTrans(m, c0, c1, c2);
    ReachesTrans(m, c0, c2, c3);
    ReachesTrans(m, c0, c3, Stuck);
  }

  lemma {:induction false} LateSource(P: Program)
    requires P == ProgramOf(DECLARATIONS, BODIES)
    ensures P == Program(map["f" := Definition(SIGNATURE.parameters, INT, BODY)], FUNCTIONS, map[])
    ensures Invoke(P, 0, "f", [IntV(0)], []) == Ok((IntV(0), [Cell(0, IntV(0))]))
  {
    assert DECLARATIONS[1..] == [] && BODIES[1..] == [];
    assert SignaturesOf([]) == map[] && SignaturesOf(DECLARATIONS) == FUNCTIONS;
    assert BodiesOf([]) == map[] && BodiesOf(BODIES) == map["f" := BODY];
    assert GlobalsOf([]) == [] && GlobalsOf(DECLARATIONS) == [];
    assert P == Program(map["f" := Definition(SIGNATURE.parameters, INT, BODY)], FUNCTIONS, map[]);
    var mem, env := [Cell(0, IntV(0))], [map["a" := 0], map[]];
    var ps := SIGNATURE.parameters;
    assert ParameterNames(ps[1..], 1) == map[] && ParameterNames(ps, 0) == map["a" := 0];
    assert [] + ParameterCells(ps, [IntV(0)]) == mem;
    EvalReadA(P, env, mem);
    assert ExecChain(P, 0, env, mem, [BRANCH]) == Ok(Next(env, mem)) by {
      assert EvalCondition(P, 0, env, mem, BRANCH) == Ok((false, mem));
      assert [BRANCH][1..] == [] && ExecChain(P, 0, env, mem, []) == Ok(Next(env, mem));
    }
    assert ExecStatement(P, 0, env, mem, BODY.statements[0]) == Ok(Next(env, mem));
    assert BODY.statements[1..] == [] && ExecStatements(P, 0, env, mem, []) == Ok(Next(env, mem));
    assert ExecStatements(P, 0, env, mem, BODY.statements) == Ok(Next(env, mem));
    assert ExecReturn(P, 0, env, mem, BODY) == Ok(Returned(IntV(0), mem));
    assert [map["a" := 0]] + [map[]] == env;
    assert ExecBlock(P, 0, [map[]], mem, map["a" := 0], BODY) == Ok(Returned(IntV(0), mem));
  }

  lemma {:induction false} EvalReadA(P: Program, env: Env, mem: Mem)
    requires env == [map["a" := 0], map[]] && mem == [Cell(0, IntV(0))]
    ensures EvalExpression(P, 0, env, mem, READ_A) == Ok((IntV(0), mem))
  {
    assert LookupIn<nat>(env, "a") == Some(0);
    assert EvalUnit(P, 0, env, mem, None, READ_A.units[0]) == Ok((IntV(0), mem));
    assert READ_A.units[1..] == [] && EvalUnits(P, 0, env, mem, Some(IntV(0)), []) == Ok((IntV(0), mem));
  }

  // The analysis of depths has nothing against it.
  // Where `a` is an integer.
  lemma {:induction false} ReadDepth(T: Depths)
    requires LookupIn<nat>(T, "a") == Some(0)
    ensures DepthOfExpression(FUNCTIONS, T, READ_A) == Some(0)
  {
    assert DepthOfUnit(FUNCTIONS, T, None, READ_A.units[0]) == Some(0);
    assert READ_A.units[1..] == [] && DepthOfUnits(FUNCTIONS, T, Some(0), []) == Some(0);
  }

  lemma {:induction false} AssignmentDepth(T: Depths)
    requires LookupIn<nat>(T, "a") == Some(0)
    ensures AssignmentFits(FUNCTIONS, T, "a", 0, ONE)
  {
    assert Stoi("1") == Some(1);
    assert ONE.units[1..] == [] && DepthOfUnits(FUNCTIONS, T, Some(0), []) == Some(0);
    assert DepthOfUnit(FUNCTIONS, T, None, ONE.units[0]) == Some(0);
  }

  lemma {:induction false} ChainDepth(T: Depths)
    requires LookupIn<nat>(T, "a") == Some(0)
    ensures ChainFits(FUNCTIONS, T, 0, [BRANCH])
  {
    hide DepthOfExpression, AssignmentFits;
    var T1: Depths := [map[]] + T;
    assert T1[1..] == T && LookupIn<nat>(T1, "a") == Some(0);
    ReadDepth(T);
    AssignmentDepth(T1);
    var ss := BRANCH.block.statements;
    assert DepthStatement(FUNCTIONS, T1, 0, ss[0]) == Some(T1) && ss[1..] == [] && DepthStatements(FUNCTIONS, T1, 0, []) == Some(T1);
    assert BlockFits(FUNCTIONS, T, map[], 0, BRANCH.block);
    assert [BRANCH][1..] == [] && ChainFits(FUNCTIONS, T, 0, []);
  }

  lemma {:induction false} BodyDepth(T0: Depths)
    ensures BlockFits(FUNCTIONS, T0, map["a" := 0], 0, BODY)
  {
    hide ChainFits, DepthOfExpression;
    var T: Depths := [map["a" := 0]] + T0;
    assert LookupIn<nat>(T, "a") == Some(0);
    ReadDepth(T);
    ChainDepth(T);
    assert DepthStatement(FUNCTIONS, T, 0, BODY.statements[0]) == Some(T);
    assert BODY.statements[1..] == [] && DepthStatements(FUNCTIONS, T, 0, []) == Some(T);
  }

  lemma {:induction false} LateExact()
    ensures UnitExact(DECLARATIONS, BODIES)
  {
    hide BlockFits;
    var P := ProgramOf(DECLARATIONS, BODIES);
    LateSource(P);
    var names := map["a" := 0];
    var ps := SIGNATURE.parameters;
    assert ParameterNames(ps[1..], 1) == map[] && ParameterNames(ps, 0) == names && ParameterDepths(ps) == names;
    assert GlobalDepths(map[]) == map[];
    BodyDepth([map[]]);
    forall n ensures SignatureExact(P, n) && DefinitionExact(P, n) {}
    assert GlobalsOf(DECLARATIONS) == [] by { assert GlobalsOf([]) == [] && DECLARATIONS[1..] == []; }
  }

  // Every other hypothesis of the correctness theorem holds, and its
  // conclusion does not.
  lemma {:induction false} DominanceNeeded()
    ensures NoBodies(DECLARATIONS) && OneBodyEach(BODIES) && UnitExact(DECLARATIONS, BODIES)
    ensures LowerItems(EMPTY_UNIT, DECLARATIONS + BODIES).Some?
    ensures !UnitDominated(DECLARATIONS, BODIES) && !UnitSafe(DECLARATIONS, BODIES)
    ensures var P, u := ProgramOf(DECLARATIONS, BODIES), LowerItems(EMPTY_UNIT, DECLARATIONS + BODIES).value;
            && "f" in P.functions && Invoke(P, 0, "f", [IntV(0)], []).Ok?
            && Reaches(ModuleOf(DECLARATIONS, u), Running(Frame("f", 0, 0, [IntV(0)], map[]), [], []), Stuck)
  {
    var P := ProgramOf(DECLARATIONS, BODIES);
    LateLowered();
    LateStuck();
    LateSource(P);
    LateExact();
    UnitSafeExact(DECLARATIONS, BODIES);
    assert "f" in P.functions;
    assert GlobalsOf(DECLARATIONS) == [] by { assert GlobalsOf([]) == [] && DECLARATIONS[1..] == []; }
  }
}
