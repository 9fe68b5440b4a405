/**
  SSA dominance, stated on the emitted graph alone: along every path from the
  entry, every register is defined before it is used. A path is given by the
  side taken at each conditional branch.
 */
module Paths {
  import opened Wrappers
  import opened Ast
  import opened Ir
  import opened Lowering

  // A point of the graph and the registers defined on the way there.
  datatype Point = Point(block: nat, pc: nat, defs: set<nat>)

  const ENTRY := Point(0, 0, {})

  function RegOf(v: Value): set<nat> { if v.Reg? then {v.id} else {} }

  function RegsOf(vs: seq<Value>): set<nat> { set v | v in vs && v.Reg? :: v.id }

  function Uses(i: Instruction): set<nat> {
    match i
    case Alloca(_, _) => {}
    case Load(_, _, p) => RegOf(p)
    case Store(v, p) => RegOf(v) + RegOf(p)
    case Add(_, l, r) => RegOf(l) + RegOf(r)
    case Sub(_, l, r) => RegOf(l) + RegOf(r)
    case ICmpNe(_, l, r) => RegOf(l) + RegOf(r)
    case IntToPtr(_, v) => RegOf(v)
    case CallFunction(_, _, vs) => RegsOf(vs)
    case Ret(v) => RegOf(v)
    case Br(_) => {}
    case CondBr(c, _, _) => RegOf(c)
  }

  function Defs(i: Instruction): set<nat> { if i.HasResult() then {i.id} else {} }

  function At(B: seq<BasicBlock>, p: Point): Option<Instruction> {
    if p.block < |B| && p.pc < |B[p.block]| then Some(B[p.block][p.pc]) else None
  }

  predicate UsesDefined(B: seq<BasicBlock>, p: Point) {
    At(B, p).Some? ==> Uses(At(B, p).value) <= p.defs
  }

  function Move(B: seq<BasicBlock>, p: Point, side: bool): Option<Point> {
    match At(B, p)
    case None => None
    case Some(Ret(_)) => None
    case Some(Br(t)) => Some(Point(t, 0, p.defs))
    case Some(CondBr(_, t, e)) => Some(Point(if side then t else e, 0, p.defs))
    case Some(i) => Some(Point(p.block, p.pc + 1, p.defs + Defs(i)))
  }

  function Walk(B: seq<BasicBlock>, p: Point, sides: seq<bool>): Option<Point>
    decreases |sides|
  {
    if sides == [] then Some(p)
    else
      var q :- Move(B, p, sides[0]);
      Walk(B, q, sides[1..])
  }

  // No path from p reaches a use of a register that is not defined on it.
  ghost predicate Safe(B: seq<BasicBlock>, p: Point) {
    forall sides :: var q := Walk(B, p, sides); q.Some? ==> UsesDefined(B, q.value)
  }

  ghost predicate Dominated(B: seq<BasicBlock>) { Safe(B, ENTRY) }

  ghost predicate Visits(B: seq<BasicBlock>, p: Point) {
    exists sides :: Walk(B, ENTRY, sides) == Some(p)
  }

  // ----- walking -----

  lemma {:induction false} WalkAppend(B: seq<BasicBlock>, p: Point, sides: seq<bool>, side: bool)
    ensures Walk(B, p, sides + [side]) == var q := Walk(B, p, sides); if q.Some? then Move(B, q.value, side) else None
    decreases |sides|
  {
    if sides == [] {
      assert sides + [side] == [side];
      var q := Move(B, p, side);
      if q.Some? {
        assert [side][1..] == [];
        assert Walk(B, q.value, []) == q;
      }
    } else {
      assert (sides + [side])[1..] == sides[1..] + [side];
      var q := Move(B, p, sides[0]);
      if q.Some? {
        WalkAppend(B, q.value, sides[1..], side);
      }
    }
  }

  lemma {:induction false} VisitsEntry(B: seq<BasicBlock>)
    ensures Visits(B, ENTRY)
  {
    assert Walk(B, ENTRY, []) == Some(ENTRY);
  }

  lemma {:induction false} VisitsNext(B: seq<BasicBlock>, p: Point, side: bool)
    requires Visits(B, p) && Move(B, p, side).Some?
    ensures Visits(B, Move(B, p, side).value)
  {
    var sides :| Walk(B, ENTRY, sides) == Some(p);
    WalkAppend(B, ENTRY, sides, side);
    assert Walk(B, ENTRY, sides + [side]) == Move(B, p, side);
  }

  lemma {:induction false} NotDominated(B: seq<BasicBlock>, p: Point)
    requires Visits(B, p) && !UsesDefined(B, p)
    ensures !Dominated(B)
  {
    var sides :| Walk(B, ENTRY, sides) == Some(p);
  }

  lemma {:induction false} SafeStep(B: seq<BasicBlock>, p: Point)
    requires UsesDefined(B, p)
    requires forall side :: Move(B, p, side).Some? ==> Safe(B, Move(B, p, side).value)
    ensures Safe(B, p)
  {
    forall sides ensures var q := Walk(B, p, sides); q.Some? ==> UsesDefined(B, q.value) {
      if sides != [] && Move(B, p, sides[0]).Some? {
        assert Safe(B, Move(B, p, sides[0]).value);
      }
    }
  }

  lemma {:induction false} SafeMoreAt(B: seq<BasicBlock>, p: Point, defs: set<nat>, sides: seq<bool>)
    requires Safe(B, p) && p.defs <= defs
    ensures var q := Walk(B, p.(defs := defs), sides); q.Some? ==> UsesDefined(B, q.value)
    decreases |sides|
  {
    var p' := p.(defs := defs);
    assert UsesDefined(B, p) by { assert Walk(B, p, []) == Some(p); }
    if sides != [] && Move(B, p', sides[0]).Some? {
      var q := Move(B, p, sides[0]).value;
      assert Safe(B, q) by {
        forall more ensures var r := Walk(B, q, more); r.Some? ==> UsesDefined(B, r.value) {
          assert ([sides[0]] + more)[1..] == more;
          assert Walk(B, p, [sides[0]] + more) == Walk(B, q, more);
        }
      }
      SafeMoreAt(B, q, Move(B, p', sides[0]).value.defs, sides[1..]);
    }
  }

  // More definitions never hurt.
  lemma {:induction false} SafeMore(B: seq<BasicBlock>, p: Point, defs: set<nat>)
    requires Safe(B, p) && p.defs <= defs
    ensures Safe(B, p.(defs := defs))
  {
    forall sides ensures var q := Walk(B, p.(defs := defs), sides); q.Some? ==> UsesDefined(B, q.value) {
      SafeMoreAt(B, p, defs, sides);
    }
  }

  // ----- the graph under construction -----

  ghost predicate Within(B: seq<BasicBlock>, g: Gen) {
    |g.blocks| <= |B| && forall b :: 0 <= b < |g.blocks| ==> g.blocks[b] <= B[b]
  }

  lemma {:induction false} WithinEarlier(B: seq<BasicBlock>, g: Gen, g': Gen)
    requires WF(g) && Grows(g, g') && Within(B, g')
    ensures Within(B, g)
  {
    forall b | 0 <= b < |g.blocks| ensures g.blocks[b] <= B[b] {
      assert g.blocks[b] <= g'.blocks[b] <= B[b];
    }
  }

  // The insertion point, reached with `defs` defined.
  function Here(g: Gen, defs: set<nat>): Point
    requires WF(g)
  {
    Point(g.cur, |g.blocks[g.cur]|, defs)
  }

  lemma {:induction false} EmittedHere(B: seq<BasicBlock>, g: Gen, i: Instruction, defs: set<nat>)
    requires WF(g) && Within(B, Emit(g, i))
    ensures At(B, Here(g, defs)) == Some(i)
  {
    var b := Emit(g, i).blocks[g.cur];
    assert b[|g.blocks[g.cur]|] == i && b <= B[g.cur];
  }

  // Emitting code whose operands are defined keeps a path safe.
  lemma {:induction false} SafeEmit(B: seq<BasicBlock>, g: Gen, i: Instruction, defs: set<nat>)
    requires WF(g) && Within(B, Emit(g, i)) && !i.IsTerminator()
    requires Uses(i) <= defs && Safe(B, Here(Emit(g, i), defs + Defs(i)))
    ensures Safe(B, Here(g, defs))
  {
    EmittedHere(B, g, i, defs);
    SafeStep(B, Here(g, defs));
  }

  // Straight-line code, walked from its start to its end.
  lemma {:induction false} WalkStraight(B: seq<BasicBlock>, g: Gen, g': Gen, defs: set<nat>, pc: nat) returns (defs': set<nat>)
    requires WF(g) && WF(g') && Straight(g, g') && Within(B, g')
    requires |g.blocks[g.cur]| <= pc <= |g'.blocks[g.cur]| && Visits(B, Point(g.cur, pc, defs))
    ensures Visits(B, Here(g', defs')) && defs <= defs' && forall r :: r in defs' ==> r in defs || g.next <= r < g'.next
    decreases |g'.blocks[g.cur]| - pc
  {
    if pc == |g'.blocks[g.cur]| {
      defs' := defs;
    } else {
      var p := Point(g.cur, pc, defs);
      var i := g'.blocks[g.cur][pc];
      assert FreshCode(i, g.next, g'.next);
      assert g'.blocks[g.cur] <= B[g.cur];
      assert At(B, p) == Some(i);
      VisitsNext(B, p, true);
      defs' := WalkStraight(B, g, g', defs + Defs(i), pc + 1);
    }
  }
}
