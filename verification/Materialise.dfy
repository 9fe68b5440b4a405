/**
  When is lazy materialisation safe? `getAddress` emits a parameter's cell at
  the current insertion point and remembers it for good, so later code may use
  a cell that was never created on its path. The functions here follow the
  source text and reject exactly such uses (Dominance.dfy proves "exactly").
  Variables are numbered in the order of their declarations.
 */
module Materialise {
  import opened Wrappers
  import opened Ast
  import opened Ir
  import opened Lowering

  // In a register; in a cell created on every path to here; in a cell
  // created on some other path only.
  datatype Status = InRegister | InMemory | Lost

  type Statuses = seq<Status>

  datatype Tracked = Tracked(scopes: Scopes, status: Statuses)

  // Later statuses: only a register changes, and new variables are cells.
  ghost predicate Later(a: Statuses, b: Statuses) {
    && |a| <= |b|
    && (forall k :: 0 <= k < |a| && a[k] != InRegister ==> b[k] == a[k])
    && (forall k :: |a| <= k < |b| ==> b[k] != InRegister)
  }

  ghost predicate LaterO(a: Statuses, b: Option<Statuses>) {
    b.Some? ==> Later(a, b.value)
  }

  // Straight-line code declares nothing and loses nothing.
  ghost predicate LaterHere(a: Statuses, b: Option<Statuses>) {
    b.Some? ==> Later(a, b.value) && |b.value| == |a| && forall k :: 0 <= k < |a| && b.value[k] == Lost ==> a[k] == Lost
  }

  // What holds after either of two paths.
  function Meet(a: Statuses, b: Statuses): (r: Statuses)
    ensures |r| == if |a| < |b| then |b| else |a|
    ensures forall k :: 0 <= k < |r| ==> r[k] == if k < |a| && k < |b| && a[k] == b[k] then a[k] else Lost
  {
    seq(if |a| < |b| then |b| else |a|, k requires 0 <= k => if k < |a| && k < |b| && a[k] == b[k] then a[k] else Lost)
  }

  function UseValue(st: Statuses, k: nat): (r: Option<Statuses>)
    ensures LaterHere(st, r)
  {
    if k < |st| && st[k] != Lost then Some(st) else None
  }

  function UseAddress(st: Statuses, k: nat): (r: Option<Statuses>)
    ensures LaterHere(st, r)
  {
    if k < |st| && st[k] != Lost then Some(st[k := InMemory]) else None
  }

  function CheckUse(st: Statuses, k: nat, indirection: Indirection): (r: Option<Statuses>)
    ensures LaterHere(st, r)
  {
    if indirection == Plain then UseValue(st, k) else UseAddress(st, k)
  }

  function CheckOperand(sc: Scopes, st: Statuses, o: Operand): (r: Option<Statuses>)
    ensures LaterHere(st, r)
    decreases o, 1
  {
    match o
    case IntegerLiteral(_) => Some(st)
    case StringLiteral(_) => Some(st)
    case CallOperand(call) => CheckArguments(sc, st, call.parameters)
    case Identifier(name, indirection, steps) =>
      var k :- LookupIn<nat>(sc, name);
      CheckUse(st, k, indirection)
  }

  function CheckArguments(sc: Scopes, st: Statuses, es: seq<Expression>): (r: Option<Statuses>)
    ensures LaterHere(st, r)
    decreases es, 0
  {
    if es == [] then Some(st)
    else
      var st1 :- CheckExpression(sc, st, es[0]);
      CheckArguments(sc, st1, es[1..])
  }

  function CheckExpression(sc: Scopes, st: Statuses, e: Expression): (r: Option<Statuses>)
    ensures LaterHere(st, r)
    decreases e, 1
  {
    CheckUnits(sc, st, e.units)
  }

  function CheckUnits(sc: Scopes, st: Statuses, units: seq<Unit>): (r: Option<Statuses>)
    ensures LaterHere(st, r)
    decreases units, 0
  {
    if units == [] then Some(st)
    else
      var st1 :- CheckUnit(sc, st, units[0]);
      CheckUnits(sc, st1, units[1..])
  }

  function CheckUnit(sc: Scopes, st: Statuses, u: Unit): (r: Option<Statuses>)
    ensures LaterHere(st, r)
    decreases u, 2
  {
    CheckOperand(sc, st, u.operand)
  }

  function CheckOptional(sc: Scopes, st: Statuses, e: Option<Expression>): (r: Option<Statuses>)
    ensures LaterHere(st, r)
  {
    if e.Some? then CheckExpression(sc, st, e.value) else Some(st)
  }

  function CheckAssignment(sc: Scopes, st: Statuses, target: string, e: Expression): (r: Option<Statuses>)
    ensures LaterHere(st, r)
  {
    var k :- LookupIn<nat>(sc, target);
    var st1 :- UseAddress(st, k);
    CheckExpression(sc, st1, e)
  }

  function CheckStatement(t: Tracked, s: Statement): (r: Option<Tracked>)
    ensures r.Some? ==> Later(t.status, r.value.status)
    decreases s, 1
  {
    match s
    case Declaration(v) => Some(Tracked(Declare(t.scopes, v.name, |t.status|), t.status + [InMemory]))
    case Assignment(target, _, e) =>
      var st :- CheckAssignment(t.scopes, t.status, target, e);
      Some(t.(status := st))
    case CallStatement(call) =>
      var st :- CheckArguments(t.scopes, t.status, call.parameters);
      Some(t.(status := st))
    case Conditional(chain) =>
      var st :- CheckChain(t.scopes, t.status, chain);
      Some(t.(status := st))
  }

  function CheckStatements(t: Tracked, ss: seq<Statement>): (r: Option<Tracked>)
    ensures r.Some? ==> Later(t.status, r.value.status)
    decreases ss, 0
  {
    if ss == [] then Some(t)
    else
      var t1 :- CheckStatement(t, ss[0]);
      CheckStatements(t1, ss[1..])
  }

  // The later comparisons run when this branch was not taken, yet they are
  // lowered after it; the code after the group is reached from every branch
  // that does not return and from the last comparison.
  function CheckChain(sc: Scopes, st: Statuses, chain: seq<Branch>): (r: Option<Statuses>)
    ensures LaterO(st, r)
    decreases chain, 0
  {
    if chain == [] then Some(st)
    else
      var st1 :- CheckOptional(sc, st, chain[0].condition);
      var taken :- CheckBranch(sc, st1, chain[0]);
      var others :- CheckChain(sc, Meet(st1, taken), chain[1..]);
      Some(if chain[0].block.returnValue.None? then Meet(others, taken) else others)
  }

  function CheckBranch(sc: Scopes, st: Statuses, b: Branch): (r: Option<Statuses>)
    ensures LaterO(st, r)
    decreases b, 2
  {
    CheckBlock(sc, st, map[], b.block)
  }

  function CheckBlock(sc: Scopes, st: Statuses, names: map<string, nat>, b: Block): (r: Option<Statuses>)
    ensures LaterO(st, r)
    decreases b, 1
  {
    var t :- CheckStatements(Tracked([names] + sc, st), b.statements);
    CheckOptional(t.scopes, t.status, b.returnValue)
  }

  // Variables 0..globals are the globals; then come the parameters.
  function EntryStatuses(globals: nat, parameters: nat): Statuses {
    seq(globals, _ => InMemory) + seq(parameters, _ => InRegister)
  }

  function CheckBody(sc: Scopes, globals: nat, ps: seq<Variable>, b: Block): Option<Statuses> {
    CheckBlock(sc, EntryStatuses(globals, |ps|), ParameterNames(ps, globals), b)
  }

  // ----- the statuses follow the generator's flags -----

  ghost predicate Tracks(st: Statuses, g: Gen) {
    |st| == |g.vars| && forall k :: 0 <= k < |st| ==> (st[k] == InRegister <==> !g.vars[k].isAlloca)
  }

  lemma {:induction false} OperandTracks(F: Signatures, st: Statuses, g: Gen, o: Operand)
    requires WF(g) && Tracks(st, g)
    ensures var l, c := LowerOperand(F, g, o), CheckOperand(g.scopes, st, o);
            l.Some? && c.Some? ==> Tracks(c.value, l.value.gen)
    decreases o, 1
  {
    match o
    case CallOperand(call) => CallTracks(F, st, g, call);
    case _ =>
  }

  lemma {:induction false} CallTracks(F: Signatures, st: Statuses, g: Gen, call: Call)
    requires WF(g) && Tracks(st, g)
    ensures var l, c := LowerCall(F, g, call), CheckArguments(g.scopes, st, call.parameters);
            l.Some? && c.Some? ==> Tracks(c.value, l.value.gen)
    decreases call, 1
  {
    ArgumentsTrack(F, st, g, call.parameters);
  }

  lemma {:induction false} ArgumentsTrack(F: Signatures, st: Statuses, g: Gen, es: seq<Expression>)
    requires WF(g) && Tracks(st, g)
    ensures var l, c := LowerArguments(F, g, es), CheckArguments(g.scopes, st, es);
            l.Some? && c.Some? ==> Tracks(c.value, l.value.0)
    decreases es, 0
  {
    if es != [] {
      ExpressionTracks(F, st, g, es[0]);
      var l, c := LowerExpression(F, g, es[0]), CheckExpression(g.scopes, st, es[0]);
      if l.Some? && c.Some? {
        ArgumentsTrack(F, c.value, l.value.gen, es[1..]);
      }
    }
  }

  lemma {:induction false} ExpressionTracks(F: Signatures, st: Statuses, g: Gen, e: Expression)
    requires WF(g) && Tracks(st, g)
    ensures var l, c := LowerExpression(F, g, e), CheckExpression(g.scopes, st, e);
            l.Some? && c.Some? ==> Tracks(c.value, l.value.gen)
    decreases e, 1
  {
    UnitsTrack(F, st, g, None, e.units);
  }

  lemma {:induction false} UnitsTrack(F: Signatures, st: Statuses, g: Gen, total: Option<Value>, units: seq<Unit>)
    requires WF(g) && Tracks(st, g)
    ensures var l, c := LowerUnits(F, g, total, units), CheckUnits(g.scopes, st, units);
            l.Some? && c.Some? ==> Tracks(c.value, l.value.gen)
    decreases units, 0
  {
    if units != [] {
      UnitTracks(F, st, g, total, units[0]);
      var l, c := LowerUnit(F, g, total, units[0]), CheckUnit(g.scopes, st, units[0]);
      if l.Some? && c.Some? {
        UnitsTrack(F, c.value, l.value.gen, Some(l.value.value), units[1..]);
      }
    }
  }

  lemma {:induction false} UnitTracks(F: Signatures, st: Statuses, g: Gen, total: Option<Value>, u: Unit)
    requires WF(g) && Tracks(st, g)
    ensures var l, c := LowerUnit(F, g, total, u), CheckUnit(g.scopes, st, u);
            l.Some? && c.Some? ==> Tracks(c.value, l.value.gen)
    decreases u, 2
  {
    OperandTracks(F, st, g, u.operand);
  }

  lemma {:induction false} ConditionTracks(F: Signatures, st: Statuses, g: Gen, e: Option<Expression>)
    requires WF(g) && Tracks(st, g)
    ensures var l, c := LowerCondition(F, g, e), CheckOptional(g.scopes, st, e);
            l.Some? && c.Some? ==> Tracks(c.value, l.value.gen)
  {
    if e.Some? {
      ExpressionTracks(F, st, g, e.value);
    }
  }

  lemma {:induction false} AssignmentTracks(F: Signatures, st: Statuses, g: Gen, target: string, steps: nat, e: Expression)
    requires WF(g) && Tracks(st, g)
    ensures var l, c := LowerAssignment(F, g, target, steps, e), CheckAssignment(g.scopes, st, target, e);
            l.Some? && c.Some? ==> Tracks(c.value, l.value)
  {
    hide NewCell;
    var k := LookupIn<nat>(g.scopes, target);
    if k.Some? {
      LookupBound(g.scopes, target, |g.vars|);
      var place := LowerDereference(g, k.value, steps);
      var st1 := UseAddress(st, k.value);
      if st1.Some? {
        assert Tracks(st1.value, place.gen);
        ExpressionTracks(F, st1.value, place.gen, e);
      }
    }
  }

  lemma {:induction false} StatementTracks(F: Signatures, st: Statuses, g: Gen, s: Statement)
    requires WF(g) && Tracks(st, g)
    ensures var l, c := LowerStatement(F, g, s), CheckStatement(Tracked(g.scopes, st), s);
            l.Some? && c.Some? ==> Tracks(c.value.status, l.value) && c.value.scopes == l.value.scopes
    decreases s, 1
  {
    match s
    case Declaration(v) =>
    case Assignment(target, steps, e) => AssignmentTracks(F, st, g, target, steps, e);
    case CallStatement(call) => CallTracks(F, st, g, call);
    case Conditional(chain) => ChainTracks(F, st, g.(blocks := g.blocks + [[]]), chain, |g.blocks|);
  }

  lemma {:induction false} StatementsTrack(F: Signatures, st: Statuses, g: Gen, ss: seq<Statement>)
    requires WF(g) && Tracks(st, g)
    ensures var l, c := LowerStatements(F, g, ss), CheckStatements(Tracked(g.scopes, st), ss);
            l.Some? && c.Some? ==> Tracks(c.value.status, l.value) && c.value.scopes == l.value.scopes
    decreases ss, 0
  {
    if ss != [] {
      StatementTracks(F, st, g, ss[0]);
      var l, c := LowerStatement(F, g, ss[0]), CheckStatement(Tracked(g.scopes, st), ss[0]);
      if l.Some? && c.Some? {
        StatementsTrack(F, c.value.status, l.value, ss[1..]);
      }
    }
  }

  // The statuses at the next comparison, and the flags there.
  lemma {:induction false} BranchTracks(F: Signatures, st: Statuses, g: Gen, b: Branch, merge: nat)
    requires WF(g) && Tracks(st, g) && merge < |g.blocks| && merge != g.cur
    ensures var l, c := LowerBranch(F, g, b, merge), CheckOptional(g.scopes, st, b.condition);
            l.Some? && c.Some? && CheckBranch(g.scopes, c.value, b).Some? ==>
              var taken := CheckBranch(g.scopes, c.value, b).value;
              Tracks(taken, l.value) && Tracks(Meet(c.value, taken), l.value)
    decreases b, 2
  {
    hide LowerCondition, ScopesIn, LowerBlock;
    ConditionTracks(F, st, g, b.condition);
    var l, c := LowerCondition(F, g, b.condition), CheckOptional(g.scopes, st, b.condition);
    if l.Some? && c.Some? {
      BlockTracks(F, c.value, SplitAt(l.value.gen, l.value.value), map[], b.block);
    }
  }

  lemma {:induction false} ChainTracks(F: Signatures, st: Statuses, g: Gen, chain: seq<Branch>, merge: nat)
    requires WF(g) && Tracks(st, g) && merge < |g.blocks| && merge != g.cur
    ensures var l, c := LowerChain(F, g, chain, merge), CheckChain(g.scopes, st, chain);
            l.Some? && c.Some? ==> Tracks(c.value, l.value)
    decreases chain, 0
  {
    hide ScopesIn, LowerCondition, SplitAt, LowerBlock;
    if chain != [] {
      BranchTracks(F, st, g, chain[0], merge);
      var l, c := LowerBranch(F, g, chain[0], merge), CheckOptional(g.scopes, st, chain[0].condition);
      if l.Some? && c.Some? && CheckBranch(g.scopes, c.value, chain[0]).Some? {
        var taken := CheckBranch(g.scopes, c.value, chain[0]).value;
        ChainTracks(F, Meet(c.value, taken), l.value, chain[1..], merge);
      }
    }
  }

  lemma {:induction false} BlockTracks(F: Signatures, st: Statuses, g: Gen, names: map<string, nat>, b: Block)
    requires WF(g) && Tracks(st, g) && forall n :: n in names ==> names[n] < |g.vars|
    ensures var l, c := LowerBlock(F, g, names, b), CheckBlock(g.scopes, st, names, b);
            l.Some? && c.Some? ==> Tracks(c.value, l.value)
    decreases b, 1
  {
    var g1 := g.(scopes := [names] + g.scopes);
    StatementsTrack(F, st, g1, b.statements);
    var l, c := LowerStatements(F, g1, b.statements), CheckStatements(Tracked(g1.scopes, st), b.statements);
    if l.Some? && c.Some? && b.returnValue.Some? {
      ExpressionTracks(F, c.value.status, l.value, b.returnValue.value);
    }
  }
}
