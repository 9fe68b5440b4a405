/**
  The materialisation check is exact: it accepts a body if and only if, in the
  emitted graph, every register is defined before use on every path.
 */
module Dominance {
  import opened Wrappers
  import opened Ast
  import opened Ir
  import opened Lowering
  import opened Semantics
  import opened DepthExact
  import opened Materialise
  import opened Paths

  // A register of the generator belongs to its past; globals are never lost.
  ghost predicate SlotShape(s: Status, v: Value, next: nat) {
    match s
    case InRegister => v.Arg?
    case InMemory => v.Global? || (v.Reg? && v.id < next)
    case Lost => v.Reg? && v.id < next
  }

  ghost predicate Shape(st: Statuses, g: Gen) {
    && WF(g) && Tracks(st, g)
    && forall k :: 0 <= k < |st| ==> SlotShape(st[k], g.vars[k].variable, g.next)
  }

  lemma {:induction false} ShapeLater(st: Statuses, g: Gen, st': Statuses, g': Gen)
    requires Shape(st, g) && WF(g') && Grows(g, g') && Later(st, st') && Tracks(st', g')
    ensures Shape(st', g')
  {
    forall k | 0 <= k < |st'| ensures SlotShape(st'[k], g'.vars[k].variable, g'.next) {
      if k < |st| {
        assert SlotShape(st[k], g.vars[k].variable, g.next);
      }
    }
  }

  // The registers that later code may use.
  function Needs(st: Statuses, g: Gen): set<nat>
    requires |st| == |g.vars|
  {
    set k | 0 <= k < |st| && st[k] == InMemory && g.vars[k].variable.Reg? :: g.vars[k].variable.id
  }

  // ----- accepted code is dominated -----

  lemma {:induction false} SafeEmitSome(B: seq<BasicBlock>, g: Gen, i: Instruction, defs: set<nat>, after: set<nat>)
    requires WF(g) && Within(B, Emit(g, i)) && !i.IsTerminator()
    requires Uses(i) <= defs && after <= defs + Defs(i) && Safe(B, Here(Emit(g, i), after))
    ensures Safe(B, Here(g, defs))
  {
    SafeMore(B, Here(Emit(g, i), after), defs + Defs(i));
    SafeEmit(B, g, i, defs);
  }

  lemma {:induction false} SafeLoadChain(B: seq<BasicBlock>, g: Gen, p: Value, steps: nat, defs: set<nat>, after: set<nat>)
    requires WF(g) && Within(B, LoadChain(g, p, steps).gen) && RegOf(p) <= defs
    requires after <= defs + RegOf(LoadChain(g, p, steps).value) && Safe(B, Here(LoadChain(g, p, steps).gen, after))
    ensures Safe(B, Here(g, defs))
    decreases steps
  {
    var r := LoadChain(g, p, steps);
    if steps == 0 {
      SafeMore(B, Here(g, after), defs);
    } else {
      var i := Load(g.next, Ptr, p);
      WithinEarlier(B, Emit(g, i), r.gen);
      SafeLoadChain(B, Emit(g, i), Reg(g.next, Ptr), steps - 1, defs + {g.next}, after);
      SafeEmit(B, g, i, defs);
    }
  }

  lemma {:induction false} SafeGetAddress(B: seq<BasicBlock>, st: Statuses, g: Gen, k: nat, live: set<nat>)
    requires Shape(st, g) && k < |st| && st[k] != Lost
    requires var r := LowerGetAddress(g, k);
             Within(B, r.gen) && Safe(B, Here(r.gen, Needs(st[k := InMemory], r.gen) + live + RegOf(r.value)))
    ensures Safe(B, Here(g, Needs(st, g) + live))
  {
    var r := LowerGetAddress(g, k);
    var after := Needs(st[k := InMemory], r.gen) + live + RegOf(r.value);
    var defs := Needs(st, g) + live;
    if st[k] == InMemory {
      assert RegOf(r.value) <= Needs(st, g) by {
        if g.vars[k].variable.Reg? {
          assert g.vars[k].variable.id in Needs(st, g);
        }
      }
      assert st[k := InMemory] == st;
      SafeMore(B, Here(g, after), defs);
    } else {
      var i1, i2 := Alloca(g.next, g.vars[k].variable.Type()), Store(g.vars[k].variable, Reg(g.next, Ptr));
      var g1 := Emit(g, i1);
      WithinEarlier(B, g1, Emit(g1, i2));
      assert after <= defs + {g.next};
      SafeEmitSome(B, g1, i2, defs + {g.next}, after);
      SafeEmit(B, g, i1, defs);
    }
  }

  lemma {:induction false} SafeDereference(B: seq<BasicBlock>, st: Statuses, g: Gen, k: nat, steps: nat, live: set<nat>)
    requires Shape(st, g) && k < |st| && st[k] != Lost
    requires var r := LowerDereference(g, k, steps);
             Within(B, r.gen) && Safe(B, Here(r.gen, Needs(st[k := InMemory], r.gen) + live + RegOf(r.value)))
    ensures Safe(B, Here(g, Needs(st, g) + live))
  {
    var a := LowerGetAddress(g, k);
    var r := LoadChain(a.gen, a.value, steps);
    WithinEarlier(B, a.gen, r.gen);
    var st' := st[k := InMemory];
    assert Needs(st', r.gen) == Needs(st', a.gen);
    SafeLoadChain(B, a.gen, a.value, steps, Needs(st', a.gen) + live + RegOf(a.value), Needs(st', r.gen) + live + RegOf(r.value));
    SafeGetAddress(B, st, g, k, live);
  }

  lemma {:induction false} SafeUse(B: seq<BasicBlock>, st: Statuses, g: Gen, k: nat, ind: Indirection, steps: nat, live: set<nat>)
    requires Shape(st, g) && k < |st| && CheckUse(st, k, ind).Some?
    requires var r := LowerUse(g, k, ind, steps);
             Within(B, r.gen) && Safe(B, Here(r.gen, Needs(CheckUse(st, k, ind).value, r.gen) + live + RegOf(r.value)))
    ensures Safe(B, Here(g, Needs(st, g) + live))
  {
    hide ScopesIn, NewCell, SameType;
    var r := LowerUse(g, k, ind, steps);
    match ind
    case Plain =>
      if st[k] == InMemory {
        if g.vars[k].variable.Reg? {
          assert g.vars[k].variable.id in Needs(st, g);
        }
        var i := Load(g.next, if g.vars[k].depth == 0 then g.vars[k].underlying else Ptr, g.vars[k].variable);
        SafeEmitSome(B, g, i, Needs(st, g) + live, Needs(st, r.gen) + live + RegOf(r.value));
      } else {
        SafeMore(B, Here(g, Needs(st, g) + live + RegOf(r.value)), Needs(st, g) + live);
      }
    case GetAddress => SafeGetAddress(B, st, g, k, live);
    case GetValue =>
      var p := LowerDereference(g, k, steps);
      var i := Load(p.gen.next, if steps == g.vars[k].depth then g.vars[k].underlying else Ptr, p.value);
      WithinEarlier(B, p.gen, Emit(p.gen, i));
      var st' := st[k := InMemory];
      assert Needs(st', r.gen) == Needs(st', p.gen);
      SafeEmitSome(B, p.gen, i, Needs(st', p.gen) + live + RegOf(p.value), Needs(st', r.gen) + live + RegOf(r.value));
      SafeDereference(B, st, g, k, steps, live);
  }

  lemma {:induction false} SafeOperand(B: seq<BasicBlock>, F: Signatures, st: Statuses, g: Gen, o: Operand, live: set<nat>)
    requires Shape(st, g) && LowerOperand(F, g, o).Some? && CheckOperand(g.scopes, st, o).Some?
    requires var r := LowerOperand(F, g, o).value;
             Within(B, r.gen) && |CheckOperand(g.scopes, st, o).value| == |r.gen.vars|
             && Safe(B, Here(r.gen, Needs(CheckOperand(g.scopes, st, o).value, r.gen) + live + RegOf(r.value)))
    ensures Safe(B, Here(g, Needs(st, g) + live))
    decreases o, 1
  {
    match o
    case IntegerLiteral(_) =>
      assert Needs(st, g) + live + {} == Needs(st, g) + live;
    case CallOperand(call) => SafeCall(B, F, st, g, call, live);
    case StringLiteral(_) =>
    case Identifier(name, ind, steps) =>
      SafeUse(B, st, g, LookupIn<nat>(g.scopes, name).value, ind, steps, live);
  }

  lemma {:induction false} SafeCall(B: seq<BasicBlock>, F: Signatures, st: Statuses, g: Gen, call: Call, live: set<nat>)
    requires Shape(st, g) && LowerCall(F, g, call).Some? && CheckArguments(g.scopes, st, call.parameters).Some?
    requires var r := LowerCall(F, g, call).value;
             Within(B, r.gen) && Safe(B, Here(r.gen, Needs(CheckArguments(g.scopes, st, call.parameters).value, r.gen) + live + RegOf(r.value)))
    ensures Safe(B, Here(g, Needs(st, g) + live))
    decreases call, 1
  {
    var r := LowerCall(F, g, call).value;
    var (g1, vs) := LowerArguments(F, g, call.parameters).value;
    var st1 := CheckArguments(g.scopes, st, call.parameters).value;
    var i := CallFunction(g1.next, call.name, vs);
    WithinEarlier(B, g1, Emit(g1, i));
    assert Needs(st1, r.gen) == Needs(st1, g1);
    SafeEmitSome(B, g1, i, Needs(st1, g1) + live + RegsOf(vs), Needs(st1, r.gen) + live + RegOf(r.value));
    SafeArguments(B, F, st, g, call.parameters, live);
  }

  lemma {:induction false} SafeArguments(B: seq<BasicBlock>, F: Signatures, st: Statuses, g: Gen, es: seq<Expression>, live: set<nat>)
    requires Shape(st, g) && LowerArguments(F, g, es).Some? && CheckArguments(g.scopes, st, es).Some?
    requires var r := LowerArguments(F, g, es).value;
             Within(B, r.0) && Safe(B, Here(r.0, Needs(CheckArguments(g.scopes, st, es).value, r.0) + live + RegsOf(r.1)))
    ensures Safe(B, Here(g, Needs(st, g) + live))
    decreases es, 0
  {
    hide Grows;
    var r := LowerArguments(F, g, es).value;
    if es == [] {
      assert Needs(st, g) + live + RegsOf([]) == Needs(st, g) + live;
    } else {
      var low, st1 := LowerExpression(F, g, es[0]).value, CheckExpression(g.scopes, st, es[0]).value;
      var r1 := LowerArguments(F, low.gen, es[1..]).value;
      WithinEarlier(B, low.gen, r.0);
      ExpressionTracks(F, st, g, es[0]);
      ShapeLater(st, g, st1, low.gen);
      assert RegsOf(r.1) == RegOf(low.value) + RegsOf(r1.1);
      var n := Needs(CheckArguments(g.scopes, st, es).value, r.0);
      assert n + live + RegsOf(r.1) == n + (live + RegOf(low.value)) + RegsOf(r1.1);
      SafeArguments(B, F, st1, low.gen, es[1..], live + RegOf(low.value));
      assert Needs(st1, low.gen) + (live + RegOf(low.value)) == Needs(st1, low.gen) + live + RegOf(low.value);
      SafeExpression(B, F, st, g, es[0], live);
    }
  }

  lemma {:induction false} SafeExpression(B: seq<BasicBlock>, F: Signatures, st: Statuses, g: Gen, e: Expression, live: set<nat>)
    requires Shape(st, g) && LowerExpression(F, g, e).Some? && CheckExpression(g.scopes, st, e).Some?
    requires var r := LowerExpression(F, g, e).value;
             Within(B, r.gen) && Safe(B, Here(r.gen, Needs(CheckExpression(g.scopes, st, e).value, r.gen) + live + RegOf(r.value)))
    ensures Safe(B, Here(g, Needs(st, g) + live))
    decreases e, 1
  {
    SafeUnits(B, F, st, g, None, e.units, live);
    assert Needs(st, g) + live + {} == Needs(st, g) + live;
  }

  function RegOfTotal(total: Option<Value>): set<nat> { if total.Some? then RegOf(total.value) else {} }

  lemma {:induction false} SafeUnits(B: seq<BasicBlock>, F: Signatures, st: Statuses, g: Gen, total: Option<Value>, us: seq<Unit>, live: set<nat>)
    requires Shape(st, g) && LowerUnits(F, g, total, us).Some? && CheckUnits(g.scopes, st, us).Some?
    requires var r := LowerUnits(F, g, total, us).value;
             Within(B, r.gen) && Safe(B, Here(r.gen, Needs(CheckUnits(g.scopes, st, us).value, r.gen) + live + RegOf(r.value)))
    ensures Safe(B, Here(g, Needs(st, g) + live + RegOfTotal(total)))
    decreases us, 0
  {
    if us != [] {
      var r := LowerUnits(F, g, total, us).value;
      var low, st1 := LowerUnit(F, g, total, us[0]).value, CheckUnit(g.scopes, st, us[0]).value;
      WithinEarlier(B, low.gen, r.gen);
      UnitTracks(F, st, g, total, us[0]);
      ShapeLater(st, g, st1, low.gen);
      SafeUnits(B, F, st1, low.gen, Some(low.value), us[1..], live);
      SafeUnit(B, F, st, g, total, us[0], live);
    }
  }

  lemma {:induction false} SafeUnit(B: seq<BasicBlock>, F: Signatures, st: Statuses, g: Gen, total: Option<Value>, u: Unit, live: set<nat>)
    requires Shape(st, g) && LowerUnit(F, g, total, u).Some? && CheckUnit(g.scopes, st, u).Some?
    requires var r := LowerUnit(F, g, total, u).value;
             Within(B, r.gen) && |CheckUnit(g.scopes, st, u).value| == |r.gen.vars|
             && Safe(B, Here(r.gen, Needs(CheckUnit(g.scopes, st, u).value, r.gen) + live + RegOf(r.value)))
    ensures Safe(B, Here(g, Needs(st, g) + live + RegOfTotal(total)))
    decreases u, 2
  {
    var r := LowerUnit(F, g, total, u).value;
    var low, st1 := LowerOperand(F, g, u.operand).value, CheckUnit(g.scopes, st, u).value;
    var before, after := Needs(st1, low.gen) + (live + RegOfTotal(total)) + RegOf(low.value), Needs(st1, r.gen) + live + RegOf(r.value);
    WithinEarlier(B, low.gen, r.gen);
    assert Needs(st1, r.gen) == Needs(st1, low.gen);
    if total.Some? && (u.operation == Some(Plus) || u.operation == Some(Minus)) {
      var i := if u.operation == Some(Plus) then Add(low.gen.next, total.value, low.value) else Sub(low.gen.next, total.value, low.value);
      SafeEmitSome(B, low.gen, i, before, after);
    } else {
      SafeMore(B, Here(low.gen, after), before);
    }
    SafeOperand(B, F, st, g, u.operand, live + RegOfTotal(total));
    assert Needs(st, g) + (live + RegOfTotal(total)) == Needs(st, g) + live + RegOfTotal(total);
  }

  lemma {:induction false} SafeCondition(B: seq<BasicBlock>, F: Signatures, st: Statuses, g: Gen, e: Option<Expression>)
    requires Shape(st, g) && LowerCondition(F, g, e).Some? && CheckOptional(g.scopes, st, e).Some?
    requires var r := LowerCondition(F, g, e).value;
             Within(B, r.gen) && Safe(B, Here(r.gen, Needs(CheckOptional(g.scopes, st, e).value, r.gen) + RegOf(r.value)))
    ensures Safe(B, Here(g, Needs(st, g)))
  {
    var r := LowerCondition(F, g, e).value;
    match e
    case None =>
      assert Needs(st, g) + RegOf(r.value) == Needs(st, g);
    case Some(x) =>
      var low, st1 := LowerExpression(F, g, x).value, CheckExpression(g.scopes, st, x).value;
      var i := ICmpNe(low.gen.next, low.value, Const(I32, 0));
      WithinEarlier(B, low.gen, Emit(low.gen, i));
      assert Needs(st1, r.gen) == Needs(st1, low.gen);
      SafeEmitSome(B, low.gen, i, Needs(st1, low.gen) + {} + RegOf(low.value), Needs(st1, r.gen) + RegOf(r.value));
      SafeExpression(B, F, st, g, x, {});
      assert Needs(st, g) + {} == Needs(st, g);
  }

  // The cast and the store that end an assignment.
  lemma {:induction false} SafeStore(B: seq<BasicBlock>, low: Lowered, cast: Lowered, place: Value, live: set<nat>)
    requires WF(low.gen) && (cast == low || cast == Lowered(Emit(low.gen, IntToPtr(low.gen.next, low.value)), Reg(low.gen.next, Ptr)))
    requires Within(B, Emit(cast.gen, Store(cast.value, place))) && Safe(B, Here(Emit(cast.gen, Store(cast.value, place)), live))
    ensures Safe(B, Here(low.gen, live + RegOf(place) + RegOf(low.value)))
  {
    var i := Store(cast.value, place);
    SafeEmitSome(B, cast.gen, i, live + RegOf(place) + RegOf(cast.value), live);
    if cast != low {
      WithinEarlier(B, cast.gen, Emit(cast.gen, i));
      SafeEmitSome(B, low.gen, IntToPtr(low.gen.next, low.value), live + RegOf(place) + RegOf(low.value), live + RegOf(place) + RegOf(cast.value));
    }
  }

  lemma {:induction false} SafeAssignment(B: seq<BasicBlock>, F: Signatures, st: Statuses, g: Gen, target: string, steps: nat, e: Expression)
    requires Shape(st, g) && LowerAssignment(F, g, target, steps, e).Some? && CheckAssignment(g.scopes, st, target, e).Some?
    requires var r := LowerAssignment(F, g, target, steps, e).value;
             Within(B, r) && Safe(B, Here(r, Needs(CheckAssignment(g.scopes, st, target, e).value, r)))
    ensures Safe(B, Here(g, Needs(st, g)))
  {
    hide Within, Here, LowerExpression, SlotShape, LookupIn, CheckExpression, LoadChain;
    var r := LowerAssignment(F, g, target, steps, e).value;
    var k := Lookup(g, target).value;
    var p := LowerDereference(g, k, steps);
    var st1, st2 := st[k := InMemory], CheckAssignment(g.scopes, st, target, e).value;
    var low := LowerExpression(F, p.gen, e).value;
    var cast := if e.evaluatedType.isPointer then CastToPointer(low.gen, low.value) else low;
    SafeStore(B, low, cast, p.value, Needs(st2, r));
    assert Needs(st2, low.gen) == Needs(st2, r);
    WithinEarlier(B, low.gen, cast.gen) by { WithinEarlier(B, cast.gen, Emit(cast.gen, Store(cast.value, p.value))); }
    WithinEarlier(B, p.gen, low.gen);
    assert Tracks(st1, p.gen);
    ShapeLater(st, g, st1, p.gen);
    SafeExpression(B, F, st1, p.gen, e, RegOf(p.value));
    assert Needs(st1, p.gen) + {} + RegOf(p.value) == Needs(st1, p.gen) + RegOf(p.value);
    SafeDereference(B, st, g, k, steps, {});
    assert Needs(st, g) + {} == Needs(st, g);
  }

  // ----- chains -----

  // The statuses at the stations of one branch.
  lemma {:induction false} CheckChainParts(sc: Scopes, st: Statuses, chain: seq<Branch>)
    requires chain != [] && CheckChain(sc, st, chain).Some?
    ensures CheckOptional(sc, st, chain[0].condition).Some?
    ensures var st1 := CheckOptional(sc, st, chain[0].condition).value;
            && CheckBlock(sc, st1, map[], chain[0].block).Some? && CheckBranch(sc, st1, chain[0]) == CheckBlock(sc, st1, map[], chain[0].block)
            && var taken := CheckBlock(sc, st1, map[], chain[0].block).value;
            && CheckChain(sc, Meet(st1, taken), chain[1..]).Some?
            && var others := CheckChain(sc, Meet(st1, taken), chain[1..]).value;
            CheckChain(sc, st, chain).value == if chain[0].block.returnValue.None? then Meet(others, taken) else others
  {}

  lemma {:induction false} ShapeMeet(st1: Statuses, g1: Gen, taken: Statuses, g2: Gen, l: Gen)
    requires Shape(st1, g1) && Shape(taken, g2) && Later(st1, taken) && Grows(g1, g2)
    requires WF(l) && l.vars == g2.vars && l.next >= g2.next
    ensures Shape(Meet(st1, taken), l)
  {
    var mid := Meet(st1, taken);
    forall k | 0 <= k < |mid| ensures SlotShape(mid[k], l.vars[k].variable, l.next) && (mid[k] == InRegister <==> !l.vars[k].isAlloca) {
      assert SlotShape(taken[k], g2.vars[k].variable, g2.next);
      if k < |st1| {
        assert SlotShape(st1[k], g1.vars[k].variable, g1.next);
      }
    }
  }

  // What is in memory on both paths was so before they parted.
  lemma {:induction false} NeedsMeet(st1: Statuses, g1: Gen, taken: Statuses, g2: Gen, l: Gen)
    requires Shape(st1, g1) && |taken| == |g2.vars| && Later(st1, taken) && Grows(g1, g2) && l.vars == g2.vars
    ensures Needs(Meet(st1, taken), l) <= Needs(st1, g1)
  {
    var mid := Meet(st1, taken);
    forall r | r in Needs(mid, l) ensures r in Needs(st1, g1) {
      var k :| 0 <= k < |mid| && mid[k] == InMemory && l.vars[k].variable.Reg? && l.vars[k].variable.id == r;
      assert st1[k] == InMemory && g1.vars[k] == l.vars[k];
    }
  }

  // What is in memory after a group was so at the end of its branch.
  lemma {:induction false} NeedsAfter(taken: Statuses, g2: Gen, others: Statuses, r: Gen)
    requires Tracks(taken, g2) && |others| == |r.vars| && |taken| <= |others|
    requires forall k :: 0 <= k < |g2.vars| && g2.vars[k].isAlloca ==> r.vars[k] == g2.vars[k]
    ensures Needs(Meet(others, taken), r) <= Needs(taken, g2) && Needs(Meet(others, taken), r) <= Needs(others, r)
  {
    var st' := Meet(others, taken);
    forall id | id in Needs(st', r) ensures id in Needs(taken, g2) && id in Needs(others, r) {
      var k :| 0 <= k < |st'| && st'[k] == InMemory && r.vars[k].variable.Reg? && r.vars[k].variable.id == id;
      assert taken[k] == InMemory && g2.vars[k] == r.vars[k];
    }
  }

  // The shapes at the stations of one branch.
  lemma {:induction false} BranchShapes(F: Signatures, st: Statuses, g: Gen, b: Branch, merge: nat)
    requires Shape(st, g) && merge < |g.blocks| && merge != g.cur && g.blocks[merge] == []
    requires LowerBranch(F, g, b, merge).Some? && CheckOptional(g.scopes, st, b.condition).Some?
    requires CheckBlock(g.scopes, CheckOptional(g.scopes, st, b.condition).value, map[], b.block).Some?
    ensures LowerCondition(F, g, b.condition).Some?
    ensures var c, st1 := LowerCondition(F, g, b.condition).value, CheckOptional(g.scopes, st, b.condition).value;
            && Shape(st1, c.gen) && Shape(st1, SplitAt(c.gen, c.value)) && LowerBlock(F, SplitAt(c.gen, c.value), map[], b.block).Some?
            && Shape(CheckBlock(g.scopes, st1, map[], b.block).value, LowerBlock(F, SplitAt(c.gen, c.value), map[], b.block).value)
            && Shape(Meet(st1, CheckBlock(g.scopes, st1, map[], b.block).value), LowerBranch(F, g, b, merge).value)
  {
    hide LowerBlock;
    BranchStations(F, g, b, merge);
    var c, st1 := LowerCondition(F, g, b.condition).value, CheckOptional(g.scopes, st, b.condition).value;
    var g1 := SplitAt(c.gen, c.value);
    var g2, taken := LowerBlock(F, g1, map[], b.block).value, CheckBlock(g.scopes, st1, map[], b.block).value;
    ConditionTracks(F, st, g, b.condition);
    ShapeLater(st, g, st1, c.gen);
    assert Shape(st1, g1);
    BlockTracks(F, st1, g1, map[], b.block);
    ShapeLater(st1, g1, taken, g2);
    ShapeMeet(st1, g1, taken, g2, LowerBranch(F, g, b, merge).value);
  }

  lemma {:induction false} SafeChain(B: seq<BasicBlock>, F: Signatures, st: Statuses, g: Gen, chain: seq<Branch>, merge: nat)
    requires Shape(st, g) && merge < |g.blocks| && merge != g.cur && g.blocks[merge] == []
    requires LowerChain(F, g, chain, merge).Some? && CheckChain(g.scopes, st, chain).Some?
    requires var r, c := LowerChain(F, g, chain, merge).value, CheckChain(g.scopes, st, chain).value;
             Within(B, r) && |c| == |r.vars| && Safe(B, Here(r, Needs(c, r)))
    ensures Safe(B, Here(g, Needs(st, g)))
    decreases chain, 0
  {
    var r, st' := LowerChain(F, g, chain, merge).value, CheckChain(g.scopes, st, chain).value;
    if chain == [] {
      assert Within(B, Emit(g, Br(merge)));
      SafeExit(B, g, merge, Needs(st, g), Needs(st', r));
    } else {
      var b := chain[0];
      CheckChainParts(g.scopes, st, chain);
      ChainStations(F, g, chain, merge);
      BranchStations(F, g, b, merge);
      BranchShapes(F, st, g, b, merge);
      var st1, l := CheckOptional(g.scopes, st, b.condition).value, LowerBranch(F, g, b, merge).value;
      var taken := CheckBlock(g.scopes, st1, map[], b.block).value;
      var mid := Meet(st1, taken);
      var others := CheckChain(g.scopes, mid, chain[1..]).value;
      ChainTracks(F, mid, l, chain[1..], merge);
      SafeMore(B, Here(r, Needs(st', r)), Needs(others, r));
      WithinEarlier(B, l, r.(cur := l.cur));
      SafeChain(B, F, mid, l, chain[1..], merge);
      SafeBranch(B, F, st, g, b, merge, others, r);
    }
  }

  // One comparison: both its sides are safe.
  lemma {:induction false} SafeBranch(B: seq<BasicBlock>, F: Signatures, st: Statuses, g: Gen, b: Branch, merge: nat, others: Statuses, r: Gen)
    requires Shape(st, g) && merge < |g.blocks| && merge != g.cur && g.blocks[merge] == []
    requires LowerBranch(F, g, b, merge).Some? && CheckOptional(g.scopes, st, b.condition).Some?
    requires CheckBlock(g.scopes, CheckOptional(g.scopes, st, b.condition).value, map[], b.block).Some?
    requires var l, st1 := LowerBranch(F, g, b, merge).value, CheckOptional(g.scopes, st, b.condition).value;
             var taken := CheckBlock(g.scopes, st1, map[], b.block).value;
             && Within(B, l) && VarsLater(l, r) && |others| == |r.vars|
             && |Meet(st1, taken)| == |l.vars| && Safe(B, Here(l, Needs(Meet(st1, taken), l)))
             && Safe(B, Point(merge, 0, Needs(if b.block.returnValue.None? then Meet(others, taken) else others, r)))
    ensures Safe(B, Here(g, Needs(st, g)))
    decreases b, 1
  {
    hide Here, LowerCondition, LowerBlock, CheckOptional, CheckBlock, Meet;
    BranchStations(F, g, b, merge);
    BranchShapes(F, st, g, b, merge);
    var c, st1 := LowerCondition(F, g, b.condition).value, CheckOptional(g.scopes, st, b.condition).value;
    var g1 := SplitAt(c.gen, c.value);
    var g2, taken := LowerBlock(F, g1, map[], b.block).value, CheckBlock(g.scopes, st1, map[], b.block).value;
    WithinEarlier(B, g2, Close(g2, merge));
    WithinEarlier(B, g1, g2);
    WithinEarlier(B, c.gen, g1);
    NeedsAfter(taken, g2, others, r);
    SafeTaken(B, F, st1, g1, b.block, merge, Needs(if b.block.returnValue.None? then Meet(others, taken) else others, r));
    assert Needs(st1, g1) == Needs(st1, c.gen);
    SafeFork(B, st1, c.gen, c.value, g2, taken, LowerBranch(F, g, b, merge).value);
    SafeCondition(B, F, st, g, b.condition);
  }

  // What is needed at the two targets is known before the comparison.
  lemma {:induction false} SafeFork(B: seq<BasicBlock>, st1: Statuses, g: Gen, v: Value, g2: Gen, taken: Statuses, l: Gen)
    requires Shape(st1, g) && Grows(SplitAt(g, v), g2) && Later(st1, taken) && |taken| == |g2.vars|
    requires l.vars == g2.vars && l.cur == SplitAt(g, v).cur + 1 && WF(l) && l.blocks[l.cur] == [] && Within(B, SplitAt(g, v))
    requires Safe(B, Here(l, Needs(Meet(st1, taken), l))) && Safe(B, Point(|g.blocks|, 0, Needs(st1, g)))
    ensures Safe(B, Here(g, Needs(st1, g) + RegOf(v)))
  {
    var g1 := SplitAt(g, v);
    assert Shape(st1, g1);
    NeedsMeet(st1, g1, taken, g2, l);
    assert Needs(st1, g1) == Needs(st1, g);
    SafeSplit(B, g, v, Needs(st1, g) + RegOf(v), Needs(st1, g), Needs(Meet(st1, taken), l));
  }

  // The branch block, and the jump out of it unless it returns.
  lemma {:induction false} SafeTaken(B: seq<BasicBlock>, F: Signatures, st: Statuses, g1: Gen, b: Block, merge: nat, after: set<nat>)
    requires Shape(st, g1) && g1.blocks[g1.cur] == []
    requires LowerBlock(F, g1, map[], b).Some? && CheckBlock(g1.scopes, st, map[], b).Some?
    requires var g2, taken := LowerBlock(F, g1, map[], b).value, CheckBlock(g1.scopes, st, map[], b).value;
             && Within(B, Close(g2, merge)) && |taken| == |g2.vars|
             && (b.returnValue.None? ==> after <= Needs(taken, g2))
    requires Safe(B, Point(merge, 0, after))
    ensures Safe(B, Point(g1.cur, 0, Needs(st, g1)))
    decreases b, 2
  {
    var g2, taken := LowerBlock(F, g1, map[], b).value, CheckBlock(g1.scopes, st, map[], b).value;
    if b.returnValue.None? {
      SafeExit(B, g2, merge, Needs(taken, g2), after);
    }
    WithinEarlier(B, g2, Close(g2, merge));
    SafeBlock(B, F, st, g1, map[], b);
  }

  lemma {:induction false} SafeStatement(B: seq<BasicBlock>, F: Signatures, st: Statuses, g: Gen, s: Statement)
    requires Shape(st, g) && !HasTerminator(g) && LowerStatement(F, g, s).Some? && CheckStatement(Tracked(g.scopes, st), s).Some?
    requires var r, c := LowerStatement(F, g, s).value, CheckStatement(Tracked(g.scopes, st), s).value;
             Within(B, r) && |c.status| == |r.vars| && Safe(B, Here(r, Needs(c.status, r)))
    ensures Safe(B, Here(g, Needs(st, g)))
    decreases s, 1
  {
    var r, c := LowerStatement(F, g, s).value, CheckStatement(Tracked(g.scopes, st), s).value;
    match s
    case Declaration(v) =>
      var i := Alloca(g.next, StorageType(v.typ).value);
      assert Emit(g, i).blocks == r.blocks;
      assert Needs(c.status, r) <= Needs(st, g) + {g.next};
      SafeEmitSome(B, g, i, Needs(st, g), Needs(c.status, r));
    case Assignment(target, steps, e) => SafeAssignment(B, F, st, g, target, steps, e);
    case CallStatement(call) =>
      var low := LowerCall(F, g, call).value;
      SafeMore(B, Here(r, Needs(c.status, r)), Needs(c.status, r) + {} + RegOf(low.value));
      SafeCall(B, F, st, g, call, {});
      assert Needs(st, g) + {} == Needs(st, g);
    case Conditional(chain) =>
      var g0 := g.(blocks := g.blocks + [[]]);
      ChainTracks(F, st, g0, chain, |g.blocks|);
      SafeChain(B, F, st, g0, chain, |g.blocks|);
      assert Needs(st, g0) == Needs(st, g);
  }

  lemma {:induction false} SafeStatements(B: seq<BasicBlock>, F: Signatures, st: Statuses, g: Gen, ss: seq<Statement>)
    requires Shape(st, g) && !HasTerminator(g) && LowerStatements(F, g, ss).Some? && CheckStatements(Tracked(g.scopes, st), ss).Some?
    requires var r, c := LowerStatements(F, g, ss).value, CheckStatements(Tracked(g.scopes, st), ss).value;
             Within(B, r) && |c.status| == |r.vars| && Safe(B, Here(r, Needs(c.status, r)))
    ensures Safe(B, Here(g, Needs(st, g)))
    decreases ss, 0
  {
    if ss != [] {
      var low, c := LowerStatement(F, g, ss[0]).value, CheckStatement(Tracked(g.scopes, st), ss[0]).value;
      WithinEarlier(B, low, LowerStatements(F, g, ss).value);
      StatementTracks(F, st, g, ss[0]);
      ShapeLater(st, g, c.status, low);
      SafeStatements(B, F, c.status, low, ss[1..]);
      SafeStatement(B, F, st, g, ss[0]);
    }
  }

  lemma {:induction false} SafeBlock(B: seq<BasicBlock>, F: Signatures, st: Statuses, g: Gen, names: map<string, nat>, b: Block)
    requires Shape(st, g) && !HasTerminator(g) && (forall n :: n in names ==> names[n] < |g.vars|)
    requires LowerBlock(F, g, names, b).Some? && CheckBlock(g.scopes, st, names, b).Some?
    requires var r, c := LowerBlock(F, g, names, b).value, CheckBlock(g.scopes, st, names, b).value;
             Within(B, r) && |c| == |r.vars| && (b.returnValue == None ==> Safe(B, Here(r, Needs(c, r))))
    ensures Safe(B, Here(g, Needs(st, g)))
    decreases b, 1
  {
    hide Emit, Grows;
    var g0 := g.(scopes := [names] + g.scopes);
    var g1, t1 := LowerStatements(F, g0, b.statements).value, CheckStatements(Tracked(g0.scopes, st), b.statements).value;
    var g2 := LowerReturn(F, g1, b.returnValue).value;
    StatementsTrack(F, st, g0, b.statements);
    assert Shape(st, g0);
    ShapeLater(st, g0, t1.status, g1);
    WithinEarlier(B, g1, g2);
    if b.returnValue.Some? {
      SafeReturn(B, F, t1.status, g1, b.returnValue.value);
    } else {
      var r, c := LowerBlock(F, g, names, b).value, CheckBlock(g.scopes, st, names, b).value;
      assert c == t1.status && r == g1.(scopes := g1.scopes[1..]) && Needs(c, r) == Needs(t1.status, g1) && Here(r, Needs(c, r)) == Here(g1, Needs(c, r));
    }
    SafeStatements(B, F, st, g0, b.statements);
    assert Needs(st, g0) == Needs(st, g);
  }

  lemma {:induction false} SafeReturn(B: seq<BasicBlock>, F: Signatures, st: Statuses, g: Gen, e: Expression)
    requires Shape(st, g) && LowerExpression(F, g, e).Some? && CheckExpression(g.scopes, st, e).Some?
    requires Within(B, LowerReturn(F, g, Some(e)).value)
    ensures Safe(B, Here(g, Needs(st, g)))
  {
    var low, st1 := LowerExpression(F, g, e).value, CheckExpression(g.scopes, st, e).value;
    var i, n := Ret(low.value), Needs(st1, low.gen) + {} + RegOf(low.value);
    EmittedHere(B, low.gen, i, n);
    WithinEarlier(B, low.gen, Emit(low.gen, i));
    SafeStep(B, Here(low.gen, n));
    SafeExpression(B, F, st, g, e, {});
    assert Needs(st, g) + {} == Needs(st, g);
  }

  // The jump out of a branch block, or of the last comparison.
  lemma {:induction false} SafeExit(B: seq<BasicBlock>, g: Gen, merge: nat, defs: set<nat>, after: set<nat>)
    requires WF(g) && Within(B, Emit(g, Br(merge))) && after <= defs && Safe(B, Point(merge, 0, after))
    ensures Safe(B, Here(g, defs))
  {
    EmittedHere(B, g, Br(merge), defs);
    SafeMore(B, Point(merge, 0, after), defs);
    SafeStep(B, Here(g, defs));
  }

  lemma {:induction false} SafeSplit(B: seq<BasicBlock>, g: Gen, c: Value, defs: set<nat>, defsT: set<nat>, defsE: set<nat>)
    requires WF(g) && Within(B, SplitAt(g, c)) && RegOf(c) <= defs && defsT <= defs && defsE <= defs
    requires Safe(B, Point(|g.blocks|, 0, defsT)) && Safe(B, Point(|g.blocks| + 1, 0, defsE))
    ensures Safe(B, Here(g, defs))
  {
    var g0 := g.(blocks := g.blocks + [[], []]);
    var i := CondBr(c, |g.blocks|, |g.blocks| + 1);
    assert Emit(g0, i).blocks == SplitAt(g, c).blocks;
    EmittedHere(B, g0, i, defs);
    SafeMore(B, Point(|g.blocks|, 0, defsT), defs);
    SafeMore(B, Point(|g.blocks| + 1, 0, defsE), defs);
    SafeStep(B, Here(g, defs));
  }
}
