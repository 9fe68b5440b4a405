/**
  The shape of the emitted graph: every block ends in its only terminator,
  every jump stays in the function, and blocks are entered in the order in
  which they were filled, so no path comes back.
 */
module Graph {
  import opened Wrappers
  import opened Ast
  import opened Ir
  import opened Lowering
  import opened Paths

  function Targets(i: Instruction): set<nat> {
    match i
    case Br(t) => {t}
    case CondBr(_, t, e) => {t, e}
    case _ => {}
  }

  ghost predicate NoTerminator(code: BasicBlock) {
    forall i :: 0 <= i < |code| ==> !code[i].IsTerminator()
  }

  // A finished block: one terminator, at its end.
  ghost predicate Finished(code: BasicBlock) {
    code != [] && code[|code| - 1].IsTerminator() && NoTerminator(code[..|code| - 1])
  }

  function Exits(code: BasicBlock): set<nat> {
    if code == [] then {} else Targets(code[|code| - 1])
  }

  // Block b was filled before each block it may jump to; those still empty
  // are pending.
  ghost predicate Forward(code: BasicBlock, b: nat, pending: set<nat>, order: map<nat, nat>)
    requires b in order
  {
    forall t :: t in Exits(code) ==> t in pending || (t in order && order[b] < order[t])
  }

  // `order` numbers the blocks as they are filled.
  ghost predicate Numbered(g: Gen, pending: set<nat>, order: map<nat, nat>) {
    && g.cur in order
    && (forall b :: 0 <= b < |g.blocks| <==> b in order || b in pending)
    && (forall b :: b in pending ==> b !in order && b < |g.blocks| && g.blocks[b] == [])
    && (forall b :: b in order && b != g.cur ==> order[b] < order[g.cur])
    && (forall a, b :: a in order && b in order && a != b ==> order[a] != order[b])
    && order[g.cur] + 1 + |pending| == |g.blocks|
  }

  ghost predicate Tidy(g: Gen, pending: set<nat>, order: map<nat, nat>) {
    && WF(g) && Numbered(g, pending, order) && NoTerminator(g.blocks[g.cur])
    && forall b :: b in order && b != g.cur ==> Finished(g.blocks[b]) && Forward(g.blocks[b], b, pending, order)
  }

  // The same, with the current block finished too.
  ghost predicate Ended(g: Gen, pending: set<nat>, order: map<nat, nat>) {
    && WF(g) && Numbered(g, pending, order)
    && forall b :: b in order ==> Finished(g.blocks[b]) && Forward(g.blocks[b], b, pending, order)
  }

  // ----- one step -----

  lemma {:induction false} TidyStraight(g: Gen, g': Gen, pending: set<nat>, order: map<nat, nat>)
    requires Tidy(g, pending, order) && WF(g') && g'.cur == g.cur && |g'.blocks| == |g.blocks| && Grows(g, g')
    requires forall i :: |g.blocks[g.cur]| <= i < |g'.blocks[g.cur]| ==> !g'.blocks[g.cur][i].IsTerminator()
    ensures Tidy(g', pending, order)
  {
    forall i | 0 <= i < |g'.blocks[g.cur]| ensures !g'.blocks[g.cur][i].IsTerminator() {
      if i < |g.blocks[g.cur]| {
        assert g'.blocks[g.cur][i] == g.blocks[g.cur][i];
      }
    }
  }

  lemma {:induction false} EndedEmit(g: Gen, i: Instruction, pending: set<nat>, order: map<nat, nat>)
    requires Tidy(g, pending, order) && i.IsTerminator() && Targets(i) <= pending
    ensures Ended(Emit(g, i), pending, order)
  {
    var g' := Emit(g, i);
    var code := g'.blocks[g.cur];
    assert code[..|code| - 1] == g.blocks[g.cur];
    forall b | b in order ensures Finished(g'.blocks[b]) && Forward(g'.blocks[b], b, pending, order) {
      if b != g.cur {
        assert g'.blocks[b] == g.blocks[b];
      }
    }
  }

  // The next block to fill.
  lemma {:induction false} TidyEnter(g: Gen, next: nat, pending: set<nat>, order: map<nat, nat>) returns (order': map<nat, nat>)
    requires Ended(g, pending, order) && next in pending
    ensures order' == order[next := order[g.cur] + 1] && Tidy(g.(cur := next), pending - {next}, order')
  {
    order' := order[next := order[g.cur] + 1];
    var g' := g.(cur := next);
    forall b | b in order' && b != next ensures Finished(g'.blocks[b]) && Forward(g'.blocks[b], b, pending - {next}, order') {
      assert Forward(g.blocks[b], b, pending, order);
      assert order[b] <= order[g.cur];
    }
  }

  // A new block, still empty.
  lemma {:induction false} TidyBlock(g: Gen, pending: set<nat>, order: map<nat, nat>)
    requires Tidy(g, pending, order)
    ensures Tidy(g.(blocks := g.blocks + [[]]), pending + {|g.blocks|}, order)
  {
    var g', n := g.(blocks := g.blocks + [[]]), |g.blocks|;
    forall b | b in order && b != g.cur ensures Finished(g'.blocks[b]) && Forward(g'.blocks[b], b, pending + {n}, order) {
      assert g'.blocks[b] == g.blocks[b] && Forward(g.blocks[b], b, pending, order);
    }
  }

  lemma {:induction false} NotPending(g: Gen, pending: set<nat>, order: map<nat, nat>)
    requires Tidy(g, pending, order)
    ensures |g.blocks| !in pending
  {}

  lemma {:induction false} TidyTwoBlocks(g: Gen, pending: set<nat>, order: map<nat, nat>)
    requires Tidy(g, pending, order)
    ensures var n := |g.blocks|;
            n !in pending && n + 1 !in pending && Tidy(g.(blocks := g.blocks + [[], []]), pending + {n, n + 1}, order)
  {
    hide Numbered, Finished, Forward;
    var n := |g.blocks|;
    var g1 := g.(blocks := g.blocks + [[]]);
    NotPending(g, pending, order);
    TidyBlock(g, pending, order);
    NotPending(g1, pending + {n}, order);
    TidyBlock(g1, pending + {n}, order);
    assert g1.blocks + [[]] == g.blocks + [[], []] && pending + {n} + {n + 1} == pending + {n, n + 1};
  }

  lemma {:induction false} SplitIs(g: Gen, c: Value, pending: set<nat>)
    requires WF(g) && |g.blocks| !in pending && |g.blocks| + 1 !in pending
    ensures var n := |g.blocks|;
            && SplitAt(g, c) == Emit(g.(blocks := g.blocks + [[], []]), CondBr(c, n, n + 1)).(cur := n)
            && pending + {n, n + 1} - {n} == pending + {n + 1}
  {}

  lemma {:induction false} TidySplit(g: Gen, c: Value, pending: set<nat>, order: map<nat, nat>) returns (order': map<nat, nat>)
    requires Tidy(g, pending, order)
    ensures Tidy(SplitAt(g, c), pending + {|g.blocks| + 1}, order') && |g.blocks| + 1 !in pending
  {
    var n := |g.blocks|;
    hide Numbered, Forward, Finished, NoTerminator, SplitAt, Emit;
    TidyTwoBlocks(g, pending, order);
    SplitIs(g, c, pending);
    order' := TidyExit(g.(blocks := g.blocks + [[], []]), CondBr(c, n, n + 1), n, pending + {n, n + 1}, order);
  }

  // A jump, and the next block to fill.
  lemma {:induction false} TidyExit(g: Gen, i: Instruction, next: nat, pending: set<nat>, order: map<nat, nat>) returns (order': map<nat, nat>)
    requires Tidy(g, pending, order) && i.IsTerminator() && Targets(i) <= pending && next in pending
    ensures Tidy(Emit(g, i).(cur := next), pending - {next}, order')
  {
    EndedEmit(g, i, pending, order);
    order' := TidyEnter(Emit(g, i), next, pending, order);
  }

  // ----- how many blocks -----

  // One block per group, two per branch.
  function BlocksOfStatements(ss: seq<Statement>): nat
    decreases ss, 0
  {
    if ss == [] then 0 else BlocksOfStatement(ss[0]) + BlocksOfStatements(ss[1..])
  }

  function BlocksOfStatement(s: Statement): nat
    decreases s, 1
  {
    if s.Conditional? then 1 + BlocksOfChain(s.chain) else 0
  }

  function BlocksOfChain(chain: seq<Branch>): nat
    decreases chain, 0
  {
    if chain == [] then 0 else 2 + BlocksOfBranch(chain[0]) + BlocksOfChain(chain[1..])
  }

  function BlocksOfBranch(b: Branch): nat
    decreases b, 1
  {
    BlocksOfStatements(b.block.statements)
  }

  // ----- lowering keeps the graph tidy -----

  lemma {:induction false} TidyDeclaration(g: Gen, v: Variable, pending: set<nat>, order: map<nat, nat>)
    requires Tidy(g, pending, order) && LowerDeclaration(g, v).Some?
    ensures var r := LowerDeclaration(g, v).value; Tidy(r, pending, order) && |r.blocks| == |g.blocks|
  {
    hide Numbered, Finished, Forward;
    var r, g1 := LowerDeclaration(g, v).value, Emit(g, Alloca(g.next, StorageType(v.typ).value));
    TidyStraight(g, g1, pending, order);
    SameCode(g1, r, pending, order);
  }

  lemma {:induction false} SameCode(g: Gen, g': Gen, pending: set<nat>, order: map<nat, nat>)
    requires Tidy(g, pending, order) && WF(g') && g'.blocks == g.blocks && g'.cur == g.cur
    ensures Tidy(g', pending, order)
  {}

  lemma {:induction false} TidyStatement(F: Signatures, g: Gen, s: Statement, pending: set<nat>, order: map<nat, nat>) returns (order': map<nat, nat>)
    requires Tidy(g, pending, order) && LowerStatement(F, g, s).Some?
    ensures var r := LowerStatement(F, g, s).value;
            Tidy(r, pending, order') && |r.blocks| == |g.blocks| + BlocksOfStatement(s)
    decreases s, 1
  {
    hide Numbered, Finished, Forward, LowerDeclaration, LowerAssignment, LowerChain;
    var r := LowerStatement(F, g, s).value;
    order' := order;
    match s
    case Declaration(v) =>
      TidyDeclaration(g, v, pending, order);
    case Assignment(_, _, _) =>
      TidyAppended(g, r, pending, order);
    case CallStatement(call) =>
      TidyAppended(g, r, pending, order);
    case Conditional(chain) =>
      TidyBlock(g, pending, order);
      NotPending(g, pending, order);
      order' := TidyChain(F, g.(blocks := g.blocks + [[]]), chain, |g.blocks|, pending + {|g.blocks|}, order);
      assert pending + {|g.blocks|} - {|g.blocks|} == pending;
  }

  lemma {:induction false} TidyAppended(g: Gen, g': Gen, pending: set<nat>, order: map<nat, nat>)
    requires Tidy(g, pending, order) && WF(g') && Straight(g, g')
    ensures Tidy(g', pending, order)
  {
    forall i | |g.blocks[g.cur]| <= i < |g'.blocks[g.cur]| ensures !g'.blocks[g.cur][i].IsTerminator() {
      assert FreshCode(g'.blocks[g.cur][i], g.next, g'.next);
    }
    TidyStraight(g, g', pending, order);
  }

  lemma {:induction false} TidyStatements(F: Signatures, g: Gen, ss: seq<Statement>, pending: set<nat>, order: map<nat, nat>)
    returns (order': map<nat, nat>)
    requires Tidy(g, pending, order) && LowerStatements(F, g, ss).Some?
    ensures var r := LowerStatements(F, g, ss).value;
            Tidy(r, pending, order') && |r.blocks| == |g.blocks| + BlocksOfStatements(ss)
    decreases ss, 0
  {
    order' := order;
    if ss != [] {
      order' := TidyStatement(F, g, ss[0], pending, order);
      order' := TidyStatements(F, LowerStatement(F, g, ss[0]).value, ss[1..], pending, order');
    }
  }

  lemma {:induction false} TidyContent(F: Signatures, g: Gen, names: map<string, nat>, b: Block, pending: set<nat>, order: map<nat, nat>)
    returns (order': map<nat, nat>)
    requires Tidy(g, pending, order) && (forall n :: n in names ==> names[n] < |g.vars|) && LowerBlock(F, g, names, b).Some?
    ensures var r := LowerBlock(F, g, names, b).value;
            && |r.blocks| == |g.blocks| + BlocksOfStatements(b.statements)
            && if b.returnValue.Some? then Ended(r, pending, order') else Tidy(r, pending, order')
    decreases b, 1
  {
    var g0 := g.(scopes := [names] + g.scopes);
    order' := TidyStatements(F, g0, b.statements, pending, order);
    var g1 := LowerStatements(F, g0, b.statements).value;
    if b.returnValue.Some? {
      var low := LowerExpression(F, g1, b.returnValue.value).value;
      TidyAppended(g1, low.gen, pending, order');
      EndedEmit(low.gen, Ret(low.value), pending, order');
    }
  }

  lemma {:induction false} TidyChain(F: Signatures, g: Gen, chain: seq<Branch>, merge: nat, pending: set<nat>, order: map<nat, nat>)
    returns (order': map<nat, nat>)
    requires Tidy(g, pending, order) && merge in pending && LowerChain(F, g, chain, merge).Some?
    ensures var r := LowerChain(F, g, chain, merge).value;
            Tidy(r, pending - {merge}, order') && |r.blocks| == |g.blocks| + BlocksOfChain(chain)
    decreases chain, 0
  {
    if chain == [] {
      order' := TidyExit(g, Br(merge), merge, pending, order);
    } else {
      order' := TidyBranch(F, g, chain[0], merge, pending, order);
      order' := TidyChain(F, LowerBranch(F, g, chain[0], merge).value, chain[1..], merge, pending, order');
    }
  }

  lemma {:induction false} TidyBranch(F: Signatures, g: Gen, b: Branch, merge: nat, pending: set<nat>, order: map<nat, nat>)
    returns (order': map<nat, nat>)
    requires Tidy(g, pending, order) && merge in pending && LowerBranch(F, g, b, merge).Some?
    ensures var r := LowerBranch(F, g, b, merge).value;
            Tidy(r, pending, order') && |r.blocks| == |g.blocks| + 2 + BlocksOfBranch(b)
    decreases b, 2
  {
    hide Tidy, SplitAt, LowerBranch, LowerCondition, LowerBlock, Close;
    BranchIs(F, g, b, merge, pending, order);
    var c := LowerCondition(F, g, b.condition).value;
    order' := TidySplit(c.gen, c.value, pending, order);
    order' := TidyTaken(F, SplitAt(c.gen, c.value), b.block, merge, |c.gen.blocks| + 1, pending, order');
  }

  lemma {:induction false} BranchIs(F: Signatures, g: Gen, b: Branch, merge: nat, pending: set<nat>, order: map<nat, nat>)
    requires Tidy(g, pending, order) && merge in pending && LowerBranch(F, g, b, merge).Some?
    ensures LowerCondition(F, g, b.condition).Some?
    ensures var c := LowerCondition(F, g, b.condition).value; var g1 := SplitAt(c.gen, c.value);
            && Tidy(c.gen, pending, order) && |g1.blocks| == |g.blocks| + 2 && LowerBlock(F, g1, map[], b.block).Some?
            && LowerBranch(F, g, b, merge) == Some(Close(LowerBlock(F, g1, map[], b.block).value, merge).(cur := |c.gen.blocks| + 1))
  {
    hide FreshCode;
    BranchStations(F, g, b, merge);
    TidyAppended(g, LowerCondition(F, g, b.condition).value.gen, pending, order);
  }

  // The block of a branch, closed; the next test is entered.
  lemma {:induction false} TidyTaken(F: Signatures, g1: Gen, b: Block, merge: nat, next: nat, pending: set<nat>, order: map<nat, nat>)
    returns (order': map<nat, nat>)
    requires Tidy(g1, pending + {next}, order) && next !in pending && merge in pending && LowerBlock(F, g1, map[], b).Some?
    ensures var g2 := LowerBlock(F, g1, map[], b).value;
            && Tidy(Close(g2, merge).(cur := next), pending, order')
            && |Close(g2, merge).blocks| == |g1.blocks| + BlocksOfStatements(b.statements)
    decreases b, 2
  {
    var g2 := LowerBlock(F, g1, map[], b).value;
    order' := TidyContent(F, g1, map[], b, pending + {next}, order);
    assert pending + {next} - {next} == pending;
    if b.returnValue.Some? {
      assert Finished(g2.blocks[g2.cur]);
      order' := TidyEnter(g2, next, pending + {next}, order');
    } else {
      order' := TidyExit(g2, Br(merge), next, pending + {next}, order');
    }
  }

  // ----- the graph of a function -----

  // `order` is a permutation of the blocks, and every jump goes up in it.
  ghost predicate WellFormed(B: seq<BasicBlock>, order: map<nat, nat>) {
    && (forall b :: 0 <= b < |B| <==> b in order)
    && (forall b :: b in order ==> order[b] < |B|)
    && (forall a, b :: a in order && b in order && a != b ==> order[a] != order[b])
    && forall b :: 0 <= b < |B| ==> Finished(B[b]) && forall t :: t in Exits(B[b]) ==> t < |B| && order[b] < order[t]
  }

  lemma {:induction false} BodyWellFormed(F: Signatures, g: Gen, ps: seq<Variable>, b: Block) returns (order: map<nat, nat>)
    requires ScopesIn(g.scopes, |g.vars|) && g.blocks == [] && b.returnValue.Some? && LowerBody(F, g, ps, b).Some?
    ensures var B := LowerBody(F, g, ps, b).value.blocks;
            WellFormed(B, order) && |B| == 1 + BlocksOfStatements(b.statements)
  {
    hide LowerBlock, BlocksOfStatements, ParameterSlots, ParameterNames, WellFormed;
    var g1, names := StartBody(g, ParameterSlots(ps).value), ParameterNames(ps, |g.vars|);
    assert g1.blocks == [[]];
    order := TidyContent(F, g1, names, b, {}, map[0 := 0]);
    EndedWellFormed(LowerBody(F, g, ps, b).value, order);
  }

  // Nothing is pending when the body is done.
  lemma {:induction false} EndedWellFormed(g: Gen, order: map<nat, nat>)
    requires Ended(g, {}, order)
    ensures WellFormed(g.blocks, order)
  {
    var B := g.blocks;
    forall i | 0 <= i < |B| ensures Finished(B[i]) && forall t :: t in Exits(B[i]) ==> t < |B| && order[i] < order[t] {
      assert Forward(B[i], i, {}, order);
    }
  }

  // ----- paths -----

  // Where a point stands in the order of filling.
  ghost predicate Before(p: Point, q: Point, order: map<nat, nat>)
    requires p.block in order && q.block in order
  {
    order[p.block] < order[q.block] || (p.block == q.block && p.pc < q.pc)
  }

  ghost predicate Inside(B: seq<BasicBlock>, p: Point) {
    p.block < |B| && p.pc < |B[p.block]|
  }

  lemma {:induction false} MoveForward(B: seq<BasicBlock>, p: Point, side: bool, order: map<nat, nat>)
    requires WellFormed(B, order) && Inside(B, p)
    ensures Move(B, p, side).None? <==> At(B, p).value.Ret?
    ensures var q := Move(B, p, side); q.Some? ==> Inside(B, q.value) && Before(p, q.value, order)
  {
    var code := B[p.block];
    assert Finished(code);
    if p.pc == |code| - 1 {
      assert At(B, p).value.IsTerminator();
      var q := Move(B, p, side);
      if q.Some? {
        assert q.value.block in Exits(code);
        assert Finished(B[q.value.block]);
      }
    } else {
      assert !code[..|code| - 1][p.pc].IsTerminator();
    }
  }

  // No path comes back to a point it has left.
  lemma {:induction false} WalkForward(B: seq<BasicBlock>, p: Point, sides: seq<bool>, order: map<nat, nat>)
    requires WellFormed(B, order) && Inside(B, p) && sides != [] && Walk(B, p, sides).Some?
    ensures var q := Walk(B, p, sides).value; Inside(B, q) && Before(p, q, order)
    decreases |sides|
  {
    MoveForward(B, p, sides[0], order);
    if |sides| > 1 {
      WalkForward(B, Move(B, p, sides[0]).value, sides[1..], order);
    }
  }

  ghost predicate CallFree(B: seq<BasicBlock>) {
    forall b, i :: 0 <= b < |B| && 0 <= i < |B[b]| ==> !B[b][i].CallFunction?
  }

  // What a frame without calls comes to.
  ghost predicate Ends(m: Module, rest: seq<Frame>, c: Config) {
    c == Stuck || exists v, mem :: c == Return(m, rest, v, mem)
  }

  // There are no loops: without calls, every activation gets stuck or returns.
  lemma {:induction false} ActivationEnds(m: Module, fr: Frame, rest: seq<Frame>, mem: seq<Val>, order: map<nat, nat>) returns (c: Config)
    requires fr.name in m.functions && WellFormed(m.functions[fr.name], order) && CallFree(m.functions[fr.name])
    requires Inside(m.functions[fr.name], Point(fr.block, fr.pc, {}))
    ensures Reaches(m, Running(fr, rest, mem), c) && Ends(m, rest, c)
    decreases |m.functions[fr.name]| - order[fr.block], |m.functions[fr.name][fr.block]| - fr.pc
  {
    hide Fits, Wrap32, Defs, Exits, Reaches, ValueOf, Return, NoTerminator, Finished;
    var B: seq<BasicBlock> := m.functions[fr.name];
    var p := Point(fr.block, fr.pc, {});
    var i: Instruction := B[fr.block][fr.pc];
    c := Step(m, Running(fr, rest, mem));
    ReachesStep(m, Running(fr, rest, mem));
    MoveForward(B, p, true, order);
    MoveForward(B, p, false, order);
    if i.Ret? {
      if ValueOf(m, fr, i.value) != Undef {
        assert c == Return(m, rest, ValueOf(m, fr, i.value), mem);
      }
    } else if c != Stuck {
      var next := c;
      c := ActivationEnds(m, next.top, rest, next.mem, order);
      ReachesTrans(m, Running(fr, rest, mem), next, c);
    }
  }
}
