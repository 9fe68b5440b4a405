/**
  What the generator (lib/IR) emits, as functions from one generator state to
  the next. The class in IRGenerator.dfy is proved equal to these functions;
  every property of the emitted code is proved about them.
 */
module Lowering {
  import opened Wrappers
  import opened Ast
  import opened Ir

  // One ScopeVariable. `isAlloca` false: the value itself sits in `variable`.
  datatype Slot = Slot(variable: Value, underlying: Ty, isAlloca: bool, depth: nat)

  type Scopes = seq<map<string, nat>>

  // Builder (blocks of the current function, insertion block, next id), every
  // variable met so far, and the scope chain, innermost scope first, from
  // names to variables.
  datatype Gen = Gen(blocks: seq<BasicBlock>, cur: nat, next: nat, vars: seq<Slot>, scopes: Scopes)

  datatype Lowered = Lowered(gen: Gen, value: Value)

  type Signatures = map<string, Signature>

  ghost predicate ScopesIn(scopes: Scopes, n: nat) {
    forall i, name :: 0 <= i < |scopes| && name in scopes[i] ==> scopes[i][name] < n
  }

  ghost predicate WF(g: Gen) {
    g.cur < |g.blocks| && ScopesIn(g.scopes, |g.vars|)
  }

  // g' is g after more lowering: code is only appended at the insertion point
  // and in new blocks, and a variable changes at most once, from register to
  // memory.
  ghost predicate Grows(g: Gen, g': Gen) {
    && |g.blocks| <= |g'.blocks|
    && (g'.cur == g.cur || |g.blocks| <= g'.cur < |g'.blocks|)
    && (forall i :: 0 <= i < |g.blocks| && i != g.cur ==> g'.blocks[i] == g.blocks[i])
    && (g.cur < |g.blocks| ==> g.blocks[g.cur] <= g'.blocks[g.cur])
    && g.next <= g'.next
    && |g.vars| <= |g'.vars|
    && (forall k :: 0 <= k < |g.vars| ==>
          g'.vars[k] == g.vars[k]
          || (!g.vars[k].isAlloca && NewCell(g'.vars[k], g.next, g'.next) && SameType(g'.vars[k], g.vars[k])))
    && (forall k :: |g.vars| <= k < |g'.vars| ==> NewCell(g'.vars[k], g.next, g'.next))
  }

  ghost predicate SameType(a: Slot, b: Slot) {
    a.depth == b.depth && a.underlying == b.underlying
  }

  ghost predicate NewCell(s: Slot, low: nat, high: nat) {
    s.isAlloca && s.variable.Reg? && s.variable.typ == Ptr && low <= s.variable.id < high
  }

  lemma {:induction false} GrowsTrans(a: Gen, b: Gen, c: Gen)
    requires WF(a) && WF(b) && Grows(a, b) && Grows(b, c)
    ensures Grows(a, c)
  {}

  // The same, when the code goes on in another block behind c.
  lemma {:induction false} GrowsApart(a: Gen, b: Gen, c: Gen)
    requires WF(a) && WF(b) && Grows(a, b) && Grows(b, c.(cur := b.cur))
    ensures Grows(a, c.(cur := a.cur))
  {}

  lemma {:induction false} GrowsMerge(a: Gen, c: Gen)
    requires WF(a) && WF(c) && c.cur == |a.blocks| && Grows(a.(blocks := a.blocks + [[]]), c.(cur := a.cur))
    ensures Grows(a, c)
  {}

  // More code in the same block: no new blocks, variables or scopes.
  ghost predicate Appends(g: Gen, g': Gen) {
    && Grows(g, g') && g'.cur == g.cur && |g'.blocks| == |g.blocks|
    && |g'.vars| == |g.vars| && g'.scopes == g.scopes
  }

  ghost predicate FreshCode(i: Instruction, low: nat, high: nat) {
    !i.IsTerminator() && (i.HasResult() ==> low <= i.id < high)
  }

  // Straight-line code: nothing appended ends the block, and every result is
  // new.
  ghost predicate Straight(g: Gen, g': Gen) {
    && Appends(g, g')
    && (g.cur < |g.blocks| ==>
          forall i :: |g.blocks[g.cur]| <= i < |g'.blocks[g.cur]| ==> FreshCode(g'.blocks[g.cur][i], g.next, g'.next))
  }

  lemma {:induction false} StraightTrans(a: Gen, b: Gen, c: Gen)
    requires WF(a) && WF(b) && Straight(a, b) && Straight(b, c)
    ensures Straight(a, c)
  {
    GrowsTrans(a, b, c);
    forall i | |a.blocks[a.cur]| <= i < |c.blocks[a.cur]| ensures FreshCode(c.blocks[a.cur][i], a.next, c.next) {
      if i < |b.blocks[a.cur]| {
        assert FreshCode(b.blocks[a.cur][i], a.next, b.next) && c.blocks[a.cur][i] == b.blocks[a.cur][i];
      }
    }
  }

  function LookupIn<V>(scopes: seq<map<string, V>>, name: string): Option<V> {
    if scopes == [] then None
    else if name in scopes[0] then Some(scopes[0][name])
    else LookupIn(scopes[1..], name)
  }

  lemma {:induction false} LookupBound(scopes: Scopes, name: string, n: nat)
    requires ScopesIn(scopes, n)
    ensures var k := LookupIn<nat>(scopes, name); k.Some? ==> k.value < n
  {
    if scopes != [] && name !in scopes[0] {
      assert ScopesIn(scopes[1..], n) by {
        forall i, x | 0 <= i < |scopes[1..]| && x in scopes[1..][i] ensures scopes[1..][i][x] < n {
          assert scopes[1..][i] == scopes[i + 1];
        }
      }
      LookupBound(scopes[1..], name, n);
    }
  }

  function Lookup(g: Gen, name: string): (k: Option<nat>)
    requires WF(g)
    ensures k.Some? ==> k.value < |g.vars|
  {
    LookupBound(g.scopes, name, |g.vars|);
    LookupIn<nat>(g.scopes, name)
  }

  // unordered_map::emplace: an existing entry stays.
  function Declare<V>(scopes: seq<map<string, V>>, name: string, v: V): seq<map<string, V>> {
    if scopes == [] || name in scopes[0] then scopes else scopes[0 := scopes[0][name := v]]
  }

  function GetType(t: Type): Option<Ty> {
    match t.dataType
    case Int => Some(I32)
    case SInt32 => Some(I32)
    case UInt32 => Some(I32)
    case Bool => Some(I1)
    case Char => Some(I8)
    case Str => Some(Struct)
    case NoType => None
  }

  function StorageType(t: Type): Option<Ty> {
    var ty :- GetType(t);
    Some(if t.isPointer then Ptr else ty)
  }

  function Emit(g: Gen, i: Instruction): (g': Gen)
    requires WF(g)
    ensures WF(g') && Appends(g, g')
    ensures FreshCode(i, g.next, g.next + 1) ==> Straight(g, g')
  {
    g.(blocks := g.blocks[g.cur := g.blocks[g.cur] + [i]], next := g.next + 1)
  }

  // An instruction with a result.
  function EmitLoad(g: Gen, ty: Ty, pointer: Value): (r: Lowered)
    requires WF(g)
    ensures WF(r.gen) && Straight(g, r.gen)
  {
    Lowered(Emit(g, Load(g.next, ty, pointer)), Reg(g.next, ty))
  }

  function LowerGetValue(g: Gen, k: nat): (r: Lowered)
    requires WF(g) && k < |g.vars|
    ensures WF(r.gen) && Straight(g, r.gen)
  {
    var s := g.vars[k];
    if s.isAlloca then EmitLoad(g, if s.depth == 0 then s.underlying else Ptr, s.variable)
    else Lowered(g, s.variable)
  }

  function LowerGetAddress(g: Gen, k: nat): (r: Lowered)
    requires WF(g) && k < |g.vars|
    ensures WF(r.gen) && Straight(g, r.gen)
    ensures r.gen.vars[k].isAlloca && r.gen.vars[k].variable == r.value
  {
    var s := g.vars[k];
    if s.isAlloca then Lowered(g, s.variable)
    else
      var cell := Reg(g.next, Ptr);
      var g1 := Emit(g, Alloca(g.next, s.variable.Type()));
      var g2 := Emit(g1, Store(s.variable, cell));
      Lowered(g2.(vars := g2.vars[k := s.(variable := cell, isAlloca := true)]), cell)
  }

  // `steps` loads of a pointer, starting at `pointer`.
  function LoadChain(g: Gen, pointer: Value, steps: nat): (r: Lowered)
    requires WF(g)
    ensures WF(r.gen) && Straight(g, r.gen) && r.gen.vars == g.vars
    decreases steps
  {
    if steps == 0 then Lowered(g, pointer)
    else
      var l := EmitLoad(g, Ptr, pointer);
      LoadChain(l.gen, l.value, steps - 1)
  }

  function LowerDereference(g: Gen, k: nat, steps: nat): (r: Lowered)
    requires WF(g) && k < |g.vars|
    ensures WF(r.gen) && Straight(g, r.gen)
  {
    var a := LowerGetAddress(g, k);
    LoadChain(a.gen, a.value, steps)
  }

  function LowerDereferenceExpression(g: Gen, k: nat, steps: nat): (r: Lowered)
    requires WF(g) && k < |g.vars|
    ensures WF(r.gen) && Straight(g, r.gen)
  {
    var p := LowerDereference(g, k, steps);
    EmitLoad(p.gen, if steps == g.vars[k].depth then g.vars[k].underlying else Ptr, p.value)
  }

  function LowerUse(g: Gen, k: nat, indirection: Indirection, steps: nat): (r: Lowered)
    requires WF(g) && k < |g.vars|
    ensures WF(r.gen) && Straight(g, r.gen)
  {
    match indirection
    case Plain => LowerGetValue(g, k)
    case GetAddress => LowerGetAddress(g, k)
    case GetValue => LowerDereferenceExpression(g, k, steps)
  }

  ghost predicate Fine(g: Gen, r: Option<Lowered>) {
    r.Some? ==> WF(r.value.gen) && Straight(g, r.value.gen)
  }

  function LowerOperand(F: Signatures, g: Gen, o: Operand): (r: Option<Lowered>)
    requires WF(g)
    ensures Fine(g, r)
    decreases o, 1
  {
    match o
    case IntegerLiteral(digits) =>
      var n :- Stoi(digits);
      Some(Lowered(g, Const(I32, n)))
    case StringLiteral(_) => None
    case CallOperand(call) => LowerCall(F, g, call)
    case Identifier(name, indirection, steps) =>
      var k :- Lookup(g, name);
      Some(LowerUse(g, k, indirection, steps))
  }

  function LowerCall(F: Signatures, g: Gen, call: Call): (r: Option<Lowered>)
    requires WF(g)
    ensures Fine(g, r)
    decreases call, 1
  {
    if call.name !in F then None
    else
      var ty :- StorageType(F[call.name].typ);
      var (g1, args) :- LowerArguments(F, g, call.parameters);
      Some(Lowered(Emit(g1, CallFunction(g1.next, call.name, args)), Reg(g1.next, ty)))
  }

  function LowerArguments(F: Signatures, g: Gen, es: seq<Expression>): (r: Option<(Gen, seq<Value>)>)
    requires WF(g)
    ensures r.Some? ==> WF(r.value.0) && Straight(g, r.value.0) && |r.value.1| == |es|
    decreases es, 0
  {
    if es == [] then Some((g, []))
    else
      var first :- LowerExpression(F, g, es[0]);
      var (g', others) :- LowerArguments(F, first.gen, es[1..]);
      Some((g', [first.value] + others))
  }

  function LowerExpression(F: Signatures, g: Gen, e: Expression): (r: Option<Lowered>)
    requires WF(g)
    ensures Fine(g, r)
    decreases e, 1
  {
    LowerUnits(F, g, None, e.units)
  }

  // The left-to-right fold; `total` is None before the first unit. The
  // boolean operators evaluate their operand and drop it.
  function LowerUnits(F: Signatures, g: Gen, total: Option<Value>, units: seq<Unit>): (r: Option<Lowered>)
    requires WF(g)
    ensures Fine(g, r)
    decreases units, 0
  {
    if units == [] then
      var v :- total;
      Some(Lowered(g, v))
    else
      var next :- LowerUnit(F, g, total, units[0]);
      LowerUnits(F, next.gen, Some(next.value), units[1..])
  }

  function LowerUnit(F: Signatures, g: Gen, total: Option<Value>, u: Unit): (r: Option<Lowered>)
    requires WF(g)
    ensures Fine(g, r)
    decreases u, 2
  {
    var o :- LowerOperand(F, g, u.operand);
    Combine(o.gen, total, u.operation, o.value)
  }

  function Combine(g: Gen, total: Option<Value>, operation: Option<Operator>, v: Value): (r: Option<Lowered>)
    requires WF(g)
    ensures Fine(g, r)
    ensures r.Some? ==> r.value.gen.vars == g.vars
  {
    match total
    case None => Some(Lowered(g, v))
    case Some(t) =>
      match operation
      case None => None
      case Some(Plus) => Some(Lowered(Emit(g, Add(g.next, t, v)), Reg(g.next, t.Type())))
      case Some(Minus) => Some(Lowered(Emit(g, Sub(g.next, t, v)), Reg(g.next, t.Type())))
      case Some(Or) => Some(Lowered(g, t))
      case Some(And) => Some(Lowered(g, t))
  }

  function LowerCondition(F: Signatures, g: Gen, condition: Option<Expression>): (r: Option<Lowered>)
    requires WF(g)
    ensures Fine(g, r)
  {
    match condition
    case None => Some(Lowered(g, Const(I1, 1)))
    case Some(e) =>
      var c :- LowerExpression(F, g, e);
      if c.value.Type() == I32
      then Some(Lowered(Emit(c.gen, ICmpNe(c.gen.next, c.value, Const(I32, 0))), Reg(c.gen.next, I1)))
      else None
  }

  function LowerDeclaration(g: Gen, v: Variable): (r: Option<Gen>)
    requires WF(g)
    ensures r.Some? ==> WF(r.value) && Grows(g, r.value) && r.value.cur == g.cur
    ensures r.Some? && !HasTerminator(g) ==> !HasTerminator(r.value)
    ensures r.Some? ==> r.value.scopes == Declare(g.scopes, v.name, |g.vars|)
  {
    var ty :- GetType(v.typ);
    var g1 := Emit(g, Alloca(g.next, if v.typ.isPointer then Ptr else ty));
    Some(g1.(vars := g.vars + [Slot(Reg(g.next, Ptr), ty, true, v.typ.pointerDepth)],
             scopes := Declare(g.scopes, v.name, |g.vars|)))
  }

  // IRBuilder::CreateIntToPtr: a pointer is its own cast.
  function CastToPointer(g: Gen, v: Value): (r: Lowered)
    requires WF(g)
    ensures WF(r.gen) && Straight(g, r.gen) && r.gen.vars == g.vars
  {
    if v.Type() == Ptr then Lowered(g, v)
    else Lowered(Emit(g, IntToPtr(g.next, v)), Reg(g.next, Ptr))
  }

  function LowerAssignment(F: Signatures, g: Gen, target: string, steps: nat, e: Expression): (r: Option<Gen>)
    requires WF(g)
    ensures r.Some? ==> WF(r.value) && Straight(g, r.value)
  {
    var k :- Lookup(g, target);
    var place := LowerDereference(g, k, steps);
    var v :- LowerExpression(F, place.gen, e);
    var w := if e.evaluatedType.isPointer then CastToPointer(v.gen, v.value) else v;
    StraightTrans(g, place.gen, v.gen);
    StraightTrans(g, v.gen, w.gen);
    StraightTrans(g, w.gen, Emit(w.gen, Store(w.value, place.value)));
    Some(Emit(w.gen, Store(w.value, place.value)))
  }

  // Statements leave the insertion block open, and outer scopes alone.
  ghost predicate Inside(g: Gen, r: Option<Gen>)
    requires WF(g)
  {
    r.Some? ==>
      && WF(r.value) && Grows(g, r.value) && |r.value.scopes| == |g.scopes|
      && (|g.scopes| > 0 ==> r.value.scopes[1..] == g.scopes[1..])
      && (!HasTerminator(g) ==> !HasTerminator(r.value))
  }

  ghost predicate Balanced(g: Gen, r: Option<Gen>) {
    r.Some? ==> WF(r.value) && Grows(g, r.value) && r.value.scopes == g.scopes
  }

  function LowerStatement(F: Signatures, g: Gen, s: Statement): (r: Option<Gen>)
    requires WF(g)
    ensures Inside(g, r)
    decreases s, 1
  {
    match s
    case Declaration(v) => LowerDeclaration(g, v)
    case Assignment(target, steps, e) => LowerAssignment(F, g, target, steps, e)
    case CallStatement(call) =>
      var l :- LowerCall(F, g, call);
      Some(l.gen)
    case Conditional(chain) =>
      var g1 :- LowerChain(F, g.(blocks := g.blocks + [[]]), chain, |g.blocks|);
      GrowsMerge(g, g1);
      Some(g1)
  }

  function LowerStatements(F: Signatures, g: Gen, ss: seq<Statement>): (r: Option<Gen>)
    requires WF(g)
    ensures Inside(g, r)
    decreases ss, 0
  {
    if ss == [] then Some(g)
    else
      var g1 :- LowerStatement(F, g, ss[0]);
      LowerStatements(F, g1, ss[1..])
  }

  // BasicBlock::getTerminator on the insertion block.
  predicate HasTerminator(g: Gen)
    requires WF(g)
  {
    g.blocks[g.cur] != [] && g.blocks[g.cur][|g.blocks[g.cur]| - 1].IsTerminator()
  }

  // The branch block and the block of the next comparison.
  function SplitAt(g: Gen, c: Value): (g': Gen)
    requires WF(g)
    ensures WF(g') && Grows(g, g') && g'.scopes == g.scopes
    ensures g'.cur == |g.blocks| && |g'.blocks| == |g.blocks| + 2
  {
    var t := |g.blocks|;
    Emit(g.(blocks := g.blocks + [[], []]), CondBr(c, t, t + 1)).(cur := t)
  }

  function Close(g: Gen, merge: nat): (g': Gen)
    requires WF(g)
    ensures WF(g') && Appends(g, g')
  {
    if HasTerminator(g) then g else Emit(g, Br(merge))
  }

  function LowerChain(F: Signatures, g: Gen, chain: seq<Branch>, merge: nat): (r: Option<Gen>)
    requires WF(g) && merge < |g.blocks| && merge != g.cur
    ensures r.Some? ==> WF(r.value) && r.value.scopes == g.scopes && r.value.cur == merge
    ensures r.Some? ==> Grows(g, r.value.(cur := g.cur))
    decreases chain, 0
  {
    if chain == [] then Some(Emit(g, Br(merge)).(cur := merge))
    else
      var g1 :- LowerBranch(F, g, chain[0], merge);
      var g2 :- LowerChain(F, g1, chain[1..], merge);
      GrowsApart(g, g1, g2);
      Some(g2)
  }

  // The comparison, the branch block, and the insertion point at the next
  // comparison.
  function LowerBranch(F: Signatures, g: Gen, b: Branch, merge: nat): (r: Option<Gen>)
    requires WF(g) && merge < |g.blocks| && merge != g.cur
    ensures r.Some? ==> WF(r.value) && r.value.scopes == g.scopes && |g.blocks| <= r.value.cur
    ensures r.Some? ==> Grows(g, r.value)
    decreases b, 2
  {
    var c :- LowerCondition(F, g, b.condition);
    var g1 := SplitAt(c.gen, c.value);
    var g2 :- LowerBlock(F, g1, map[], b.block);
    GrowsTrans(g, c.gen, g1);
    GrowsTrans(g, g1, g2);
    GrowsTrans(g, g2, Close(g2, merge));
    Some(Close(g2, merge).(cur := g1.cur + 1))
  }

  // `names` holds the parameters when the block is a function's.
  function LowerBlock(F: Signatures, g: Gen, names: map<string, nat>, b: Block): (r: Option<Gen>)
    requires WF(g) && forall n :: n in names ==> names[n] < |g.vars|
    ensures Balanced(g, r)
    ensures r.Some? && b.returnValue == None && !HasTerminator(g) ==> !HasTerminator(r.value)
    decreases b, 1
  {
    var g0 := g.(scopes := [names] + g.scopes);
    var g1 :- LowerStatements(F, g0, b.statements);
    var g2 :- LowerReturn(F, g1, b.returnValue);
    GrowsTrans(g0, g1, g2);
    Some(g2.(scopes := g2.scopes[1..]))
  }

  function LowerReturn(F: Signatures, g: Gen, e: Option<Expression>): (r: Option<Gen>)
    requires WF(g)
    ensures r.Some? ==> WF(r.value) && Appends(g, r.value) && (e == None ==> r.value == g)
  {
    match e
    case None => Some(g)
    case Some(e) =>
      var v :- LowerExpression(F, g, e);
      Some(Emit(v.gen, Ret(v.value)))
  }

  // ----- where the insertion point stands along a chain -----

  // Variables and scopes after more code, wherever that code went.
  ghost predicate VarsLater(g: Gen, g': Gen) {
    && g.next <= g'.next && |g.vars| <= |g'.vars| && g'.scopes == g.scopes
    && (forall k :: 0 <= k < |g.vars| ==>
          g'.vars[k] == g.vars[k] || (!g.vars[k].isAlloca && g'.vars[k].isAlloca && SameType(g'.vars[k], g.vars[k])))
  }

  // The generator at the stations of one branch: after the comparison (c),
  // in the branch block (g1), after it (g2), at the next comparison (l).
  lemma {:induction false} BranchStations(F: Signatures, g: Gen, b: Branch, merge: nat)
    requires WF(g) && merge < |g.blocks| && merge != g.cur && g.blocks[merge] == [] && LowerBranch(F, g, b, merge).Some?
    ensures var c := LowerCondition(F, g, b.condition);
            && c.Some?
            && var g1 := SplitAt(c.value.gen, c.value.value);
            && LowerBlock(F, g1, map[], b.block).Some?
            && var g2 := LowerBlock(F, g1, map[], b.block).value;
            && merge != g2.cur && g2.blocks[merge] == []
            && var l := Close(g2, merge).(cur := g1.cur + 1);
            && LowerBranch(F, g, b, merge) == Some(l) && l.blocks[l.cur] == [] && l.blocks[merge] == [] && merge != l.cur
            && VarsLater(g1, l)
  {
    hide FreshCode, Inside, ScopesIn, HasTerminator, LowerCondition;
    var c := LowerCondition(F, g, b.condition).value;
    var g1 := SplitAt(c.gen, c.value);
    var g2 := LowerBlock(F, g1, map[], b.block).value;
    assert g1.blocks[merge] == [] && g1.blocks[g1.cur + 1] == [] && g2.blocks[g1.cur + 1] == [];
  }

  lemma {:induction false} ChainStations(F: Signatures, g: Gen, chain: seq<Branch>, merge: nat)
    requires WF(g) && merge < |g.blocks| && merge != g.cur && g.blocks[merge] == [] && chain != []
    requires LowerChain(F, g, chain, merge).Some?
    ensures LowerBranch(F, g, chain[0], merge).Some?
    ensures var l, g' := LowerBranch(F, g, chain[0], merge).value, LowerChain(F, g, chain, merge).value;
            && merge != l.cur && LowerChain(F, l, chain[1..], merge) == Some(g') && g'.blocks[merge] == [] && VarsLater(l, g')
  {}

  // The parameters of a function: registers, not cells.
  function ParameterSlots(ps: seq<Variable>): (r: Option<seq<Slot>>)
    ensures r.Some? ==> |r.value| == |ps|
    ensures r.Some? ==> forall j :: 0 <= j < |ps| ==> ParameterSlot(ps[j], j) == Some(r.value[j])
  {
    if ps == [] then Some([])
    else
      var init :- ParameterSlots(ps[..|ps| - 1]);
      var last :- ParameterSlot(ps[|ps| - 1], |ps| - 1);
      Some(init + [last])
  }

  function ParameterSlot(p: Variable, i: nat): Option<Slot> {
    var ty :- GetType(p.typ);
    Some(Slot(Arg(i, if p.typ.isPointer then Ptr else ty), ty, false, p.typ.pointerDepth))
  }

  // Parameter i is variable base + i; a repeated name keeps its first entry.
  function ParameterNames(ps: seq<Variable>, base: nat): (r: map<string, nat>)
    ensures forall n :: n in r ==> base <= r[n] < base + |ps|
  {
    if ps == [] then map[]
    else
      var others := ParameterNames(ps[1..], base + 1);
      others[ps[0].name := base]
  }

  function Emplace(names: map<string, nat>, name: string, k: nat): map<string, nat> {
    if name in names then names else names[name := k]
  }

  lemma {:induction false} ParameterNamesSnoc(ps: seq<Variable>, p: Variable, base: nat)
    ensures ParameterNames(ps + [p], base) == Emplace(ParameterNames(ps, base), p.name, base + |ps|)
    decreases |ps|
  {
    if ps == [] {
      assert (ps + [p])[1..] == [];
    } else {
      assert (ps + [p])[1..] == ps[1..] + [p];
      ParameterNamesSnoc(ps[1..], p, base + 1);
    }
  }

  lemma {:induction false} ParameterNamesShift(ps: seq<Variable>, base: nat)
    ensures ParameterNames(ps, base).Keys == ParameterNames(ps, 0).Keys
    ensures forall n :: n in ParameterNames(ps, base) ==> ParameterNames(ps, base)[n] == base + ParameterNames(ps, 0)[n]
    decreases |ps|
  {
    if ps != [] {
      ParameterNamesShift(ps[1..], base + 1);
      ParameterNamesShift(ps[1..], 1);
    }
  }

  // One function body: a fresh block after those the function already has,
  // the parameters, the body. Between bodies there is no insertion point.
  function StartBody(g: Gen, slots: seq<Slot>): (g': Gen)
    requires ScopesIn(g.scopes, |g.vars|)
    ensures WF(g')
  {
    Gen(g.blocks + [[]], |g.blocks|, g.next, g.vars + slots, g.scopes)
  }

  // The variables of a finished body are gone.
  function LowerBody(F: Signatures, g: Gen, ps: seq<Variable>, b: Block): (r: Option<Gen>)
    requires ScopesIn(g.scopes, |g.vars|)
    ensures r.Some? ==> WF(r.value) && r.value.scopes == g.scopes
    ensures r.Some? && (forall k :: 0 <= k < |g.vars| ==> g.vars[k].isAlloca) ==> r.value.vars == g.vars
  {
    var slots :- ParameterSlots(ps);
    var g1 :- LowerBlock(F, StartBody(g, slots), ParameterNames(ps, |g.vars|), b);
    Some(g1.(vars := g1.vars[..|g.vars|]))
  }
}
