/**
  The generator as it runs (lib/IR): a builder with an insertion point,
  variables that turn themselves into cells, and handlers that walk the
  syntax tree. Every method is proved to reach the state and the value that
  Lowering.dfy and Items.dfy give.
 */
module Generator {
  import opened Wrappers
  import opened Ast
  import Ir
  import opened Lowering
  import opened ScopeChain
  import opened Items

  type Value = Ir.Value

  // llvm::IRBuilder, for the function being filled. Instructions are numbered
  // as they are created.
  class IRBuilder {
    var blocks: seq<Ir.BasicBlock>
    var insertBlock: nat
    var next: nat

    constructor ()
      ensures blocks == [] && insertBlock == 0 && next == 0
    {
      blocks, insertBlock, next := [], 0, 0;
    }

    predicate Valid()
      reads this
    {
      insertBlock < |blocks|
    }

    ghost predicate Shows(g: Gen)
      reads this
    {
      blocks == g.blocks && insertBlock == g.cur && next == g.next
    }

    method Insert(i: Ir.Instruction)
      requires Valid()
      modifies this
      ensures Valid() && insertBlock == old(insertBlock) && next == old(next) + 1
      ensures blocks == old(blocks[insertBlock := blocks[insertBlock] + [i]])
    {
      blocks := blocks[insertBlock := blocks[insertBlock] + [i]];
      next := next + 1;
    }

    method CreateLoad(typ: Ir.Ty, pointer: Value) returns (v: Value)
      requires Valid()
      modifies this
      ensures Valid() && insertBlock == old(insertBlock) && next == old(next) + 1 && v == Ir.Reg(old(next), typ)
      ensures blocks == old(blocks[insertBlock := blocks[insertBlock] + [Ir.Load(next, typ, pointer)]])
    {
      v := Ir.Reg(next, typ);
      Insert(Ir.Load(next, typ, pointer));
    }

    method CreateAlloca(typ: Ir.Ty) returns (v: Value)
      requires Valid()
      modifies this
      ensures Valid() && insertBlock == old(insertBlock) && next == old(next) + 1 && v == Ir.Reg(old(next), Ir.Ptr)
      ensures blocks == old(blocks[insertBlock := blocks[insertBlock] + [Ir.Alloca(next, typ)]])
    {
      v := Ir.Reg(next, Ir.Ptr);
      Insert(Ir.Alloca(next, typ));
    }

    // Turns to another function.
    method Open(code: seq<Ir.BasicBlock>)
      modifies this`blocks
      ensures blocks == code
    {
      blocks := code;
    }

    method CreateBlock() returns (b: nat)
      modifies this`blocks
      ensures blocks == old(blocks) + [[]] && b == old(|blocks|)
    {
      b := |blocks|;
      blocks := blocks + [[]];
    }

    // Two new blocks, and a branch to either of them; the first is entered.
    method CreateFork(comparison: Value) returns (falseBlock: nat)
      requires Valid()
      modifies this
      ensures Valid() && insertBlock == old(|blocks|) && falseBlock == insertBlock + 1 && next == old(next) + 1
      ensures var more := old(blocks) + [[], []];
              blocks == more[old(insertBlock) := more[old(insertBlock)] + [Ir.CondBr(comparison, insertBlock, falseBlock)]]
    {
      var trueBlock := CreateBlock();
      falseBlock := CreateBlock();
      Insert(Ir.CondBr(comparison, trueBlock, falseBlock));
      SetInsertPoint(trueBlock);
    }

    method SetInsertPoint(b: nat)
      requires b < |blocks|
      modifies this`insertBlock
      ensures insertBlock == b
    {
      insertBlock := b;
    }
  }

  class ScopeVariable {
    var variable: Value
    const underlyingType: Ir.Ty
    var isAllocaValue: bool
    const pointerIndirectionCount: nat

    // Its place among the variables met so far.
    ghost const id: nat

    constructor (variable: Value, underlyingType: Ir.Ty, isAllocaValue: bool, pointerIndirectionCount: nat, ghost id: nat)
      ensures AsSlot() == Slot(variable, underlyingType, isAllocaValue, pointerIndirectionCount) && this.id == id
    {
      this.variable, this.underlyingType := variable, underlyingType;
      this.isAllocaValue, this.pointerIndirectionCount := isAllocaValue, pointerIndirectionCount;
      this.id := id;
    }

    ghost function AsSlot(): Slot
      reads this
    {
      Slot(variable, underlyingType, isAllocaValue, pointerIndirectionCount)
    }

    // This variable and the builder are as in generator state g.
    ghost predicate In(builder: IRBuilder, g: Gen)
      reads this, builder
    {
      builder.Shows(g) && id < |g.vars| && g.vars[id] == AsSlot()
    }

    method GetValue(builder: IRBuilder, ghost g: Gen) returns (v: Value)
      requires WF(g) && In(builder, g)
      modifies builder
      ensures var r := LowerGetValue(g, id); v == r.value && In(builder, r.gen)
    {
      if isAllocaValue {
        v := builder.CreateLoad(if pointerIndirectionCount == 0 then underlyingType else Ir.Ptr, variable);
      } else {
        v := variable;
      }
    }

    method GetAddress(builder: IRBuilder, ghost g: Gen) returns (v: Value)
      requires WF(g) && In(builder, g)
      modifies this, builder
      ensures var r := LowerGetAddress(g, id); v == r.value && In(builder, r.gen)
    {
      if isAllocaValue {
        return variable;
      }
      var valuePointer := builder.CreateAlloca(variable.Type());
      builder.Insert(Ir.Store(variable, valuePointer));
      isAllocaValue := true;
      variable := valuePointer;
      return valuePointer;
    }

    method Dereference(builder: IRBuilder, steps: nat, ghost g: Gen) returns (v: Value)
      requires WF(g) && In(builder, g)
      modifies this, builder
      ensures var r := LowerDereference(g, id, steps); v == r.value && In(builder, r.gen)
    {
      hide Grows;
      v := GetAddress(builder, g);
      ghost var a := LowerGetAddress(g, id);
      ghost var now := a.gen;
      v := variable;
      for step := 0 to steps
        invariant WF(now) && In(builder, now)
        invariant LoadChain(now, v, steps - step) == LoadChain(a.gen, a.value, steps)
      {
        ghost var before := v;
        v := builder.CreateLoad(Ir.Ptr, v);
        now := EmitLoad(now, Ir.Ptr, before).gen;
      }
    }

    method DereferenceAssignment(builder: IRBuilder, steps: nat, ghost g: Gen) returns (v: Value)
      requires WF(g) && In(builder, g)
      modifies this, builder
      ensures var r := LowerDereference(g, id, steps); v == r.value && In(builder, r.gen)
    {
      v := Dereference(builder, steps, g);
    }

    method DereferenceExpression(builder: IRBuilder, steps: nat, ghost g: Gen) returns (v: Value)
      requires WF(g) && In(builder, g)
      modifies this, builder
      ensures var r := LowerDereferenceExpression(g, id, steps); v == r.value && In(builder, r.gen)
    {
      v := Dereference(builder, steps, g);
      v := builder.CreateLoad(if steps == pointerIndirectionCount then underlyingType else Ir.Ptr, v);
    }
  }

  // ----- the generator's state as a value -----

  datatype ContextData = ContextData(parameters: map<string, ScopeVariable>)

  ghost function Ids(names: seq<map<string, ScopeVariable>>): (r: Scopes)
    ensures |r| == |names|
    ensures forall i :: 0 <= i < |r| ==> r[i] == IdsOf(names[i])
  {
    seq(|names|, i requires 0 <= i < |names| => IdsOf(names[i]))
  }

  ghost function IdsOf(names: map<string, ScopeVariable>): map<string, nat> {
    map n | n in names :: names[n].id
  }

  ghost function Slots(vs: seq<ScopeVariable>): (r: seq<Slot>)
    reads vs
    ensures |r| == |vs|
    ensures forall i :: 0 <= i < |r| ==> r[i] == vs[i].AsSlot()
  {
    seq(|vs|, i requires 0 <= i < |vs| reads vs => vs[i].AsSlot())
  }

  lemma {:induction false} IdsLookup(names: seq<map<string, ScopeVariable>>, name: string)
    ensures var v := LookupIn<ScopeVariable>(names, name);
            LookupIn<nat>(Ids(names), name) == if v.Some? then Some(v.value.id) else None
    decreases |names|
  {
    if names != [] {
      assert Ids(names)[1..] == Ids(names[1..]);
      IdsLookup(names[1..], name);
    }
  }

  // The parameters of a function, in its scope.
  method DeclareAll(scopeHandler: ScopeHandler<ScopeVariable, Signature, ContextData>, parameters: map<string, ScopeVariable>)
    requires scopeHandler.Valid() && scopeHandler.AsStack().levels[0].names == map[]
    modifies scopeHandler.currentScope
    ensures scopeHandler.Valid()
    ensures scopeHandler.AsStack() == WithNames(old(scopeHandler.AsStack()), parameters)
  {
    ghost var stack := scopeHandler.AsStack();
    ghost var done: map<string, ScopeVariable> := map[];
    var rest := parameters.Keys;
    assert WithNames(stack, done) == stack;
    while rest != {}
      invariant rest <= parameters.Keys && scopeHandler.Valid() && done.Keys == parameters.Keys - rest
      invariant forall n :: n in done ==> done[n] == parameters[n]
      invariant scopeHandler.AsStack() == WithNames(stack, done)
      decreases |rest|
    {
      var name :| name in rest;
      scopeHandler.Declare(name, parameters[name]);
      assert scopeHandler.AsStack() == WithNames(stack, done[name := parameters[name]]);
      done := done[name := parameters[name]];
      rest := rest - {name};
    }
    assert done == parameters;
  }

  ghost function WithNames<V, C>(s: Stack<V, C>, names: map<string, V>): Stack<V, C>
    requires s.Valid()
  {
    s.(levels := s.levels[0 := s.levels[0].(names := names)])
  }

  lemma {:induction false} OpenedNames<V, C>(s: Stack<V, C>, t: Stack<V, C>, names: map<string, V>)
    requires |t.levels| == |s.levels| + 1 && t.levels[0].names == names && t.levels[1..] == s.levels
    ensures t.Names() == [names] + s.Names()
  {
    forall i | 0 <= i < |s.levels| ensures t.levels[i + 1] == s.levels[i] {
      assert t.levels[1..][i] == s.levels[i];
    }
  }

  // Using a variable touches that variable alone.
  lemma {:induction false} UseTouches(g: Gen, k: nat, indirection: Indirection, steps: nat)
    requires WF(g) && k < |g.vars|
    ensures forall j :: 0 <= j < |g.vars| && j != k ==> LowerUse(g, k, indirection, steps).gen.vars[j] == g.vars[j]
    ensures forall j :: 0 <= j < |g.vars| && j != k ==> LowerDereference(g, k, steps).gen.vars[j] == g.vars[j]
  {}

  class IRGenerator {
    const builder: IRBuilder
    const scopeHandler: ScopeHandler<ScopeVariable, Signature, ContextData>
    var hasBuilder: bool
    var functions: map<string, seq<Ir.BasicBlock>>
    var initial: seq<Ir.Val>

    // Every variable met so far, by its id.
    ghost var registry: seq<ScopeVariable>

    ghost function Repr(): set<object>
      reads this, scopeHandler
    {
      {this, builder} + scopeHandler.Repr() + set v: object | v in registry
    }

    ghost function Names(): seq<map<string, ScopeVariable>>
      reads scopeHandler, scopeHandler.currentScope.chain
    {
      scopeHandler.AsStack().Names()
    }

    ghost predicate Registered(v: ScopeVariable)
      reads this
    {
      v.id < |registry| && registry[v.id] == v
    }

    ghost predicate AllRegistered(names: map<string, ScopeVariable>)
      reads this
    {
      forall n :: n in names ==> Registered(names[n])
    }

    ghost predicate Valid()
      reads Repr()
    {
      && scopeHandler.Valid()
      && (forall k :: 0 <= k < |registry| ==> registry[k].id == k)
      && forall i :: 0 <= i < |Names()| ==> AllRegistered(Names()[i])
    }

    ghost function State(): (g: Gen)
      requires Valid()
      reads Repr()
      ensures ScopesIn(g.scopes, |g.vars|)
    {
      Gen(builder.blocks, builder.insertBlock, builder.next, Slots(registry), Ids(Names()))
    }

    // There is an insertion point.
    ghost predicate Ready()
      reads Repr()
    {
      Valid() && builder.Valid()
    }

    // What no handler of a part of a body changes.
    twostate predicate Steady()
      reads Repr()
    {
      scopeHandler.contextDataForNextLocalScope == old(scopeHandler.contextDataForNextLocalScope) && Bounded()
    }

    twostate predicate Bounded()
      reads Repr()
    {
      && scopeHandler.functionDeclarations == old(scopeHandler.functionDeclarations)
      && hasBuilder == old(hasBuilder) && functions == old(functions) && initial == old(initial)
      && Grown()
    }

    twostate predicate Grown()
      reads Repr()
    {
      && scopeHandler.currentScope == old(scopeHandler.currentScope)
      && old(registry) <= registry && forall k :: |old(registry)| <= k < |registry| ==> fresh(registry[k])
    }

    constructor ()
      ensures Valid() && fresh(Repr()) && State() == Gen([], 0, 0, [], [map[]])
      ensures scopeHandler.functionDeclarations == map[] && functions == map[] && initial == [] && !hasBuilder
    {
      builder := new IRBuilder();
      scopeHandler := new ScopeHandler();
      hasBuilder, functions, initial, registry := false, map[], [], [];
      new;
      assert Names() == [map[]];
    }

    // ----- expressions -----

    method UseVariable(v: ScopeVariable, indirection: Indirection, steps: nat) returns (value: Value)
      requires Ready() && Registered(v)
      modifies v, builder
      ensures Ready() && Steady() && old(LowerUse(State(), v.id, indirection, steps)) == Lowered(State(), value)
    {
      hide Grows, ScopeHandler.Valid, IRGenerator.Names, LowerDereference;
      ghost var g := State();
      match indirection {
        case Plain => value := v.GetValue(builder, g);
        case GetAddress => value := v.GetAddress(builder, g);
        case GetValue => value := v.DereferenceExpression(builder, steps, g);
      }
      UseTouches(g, v.id, indirection, steps);
      ghost var r := LowerUse(g, v.id, indirection, steps).gen;
      assert Slots(registry) == r.vars;
    }

    // Any instruction, at the insertion point.
    method Create(i: Ir.Instruction)
      requires Ready()
      modifies builder
      ensures Ready() && Steady() && State() == old(Emit(State(), i))
    {
      builder.Insert(i);
    }

    ghost predicate Gives(spec: Option<Lowered>, r: Option<Value>)
      requires Valid()
      reads Repr()
    {
      if spec.Some? then r == Some(spec.value.value) && State() == spec.value.gen else r == None
    }

    method GetOperand(o: Operand) returns (r: Option<Value>)
      requires Ready()
      modifies Repr()
      ensures Ready() && Steady()
      ensures hasBuilder ==> Gives(old(LowerOperand(scopeHandler.functionDeclarations, State(), o)), r)
      decreases o, 1
    {
      match o {
        case IntegerLiteral(digits) =>
          var n := Stoi(digits);
          return if n.Some? then Some(Ir.Const(Ir.I32, n.value)) else None;
        case StringLiteral(_) =>
          return None;
        case CallOperand(call) =>
          r := HandleCall(call);
        case Identifier(name, indirection, steps) =>
          VisibleIsLookup(scopeHandler.AsStack(), name);
          IdsLookup(Names(), name);
          var variable := scopeHandler.currentScope.GetVisibleDeclaredVariable(name);
          if variable.None? {
            return None;
          }
          FoundRegistered(name);
          var value := UseVariable(variable.value, indirection, steps);
          r := Some(value);
      }
    }

    lemma {:induction false} FoundRegistered(name: string)
      requires Valid() && LookupIn(Names(), name).Some?
      ensures Registered(LookupIn(Names(), name).value)
    {
      FoundAt(Names(), name);
    }

    lemma {:induction false} FoundAt(names: seq<map<string, ScopeVariable>>, name: string)
      requires LookupIn(names, name).Some? && forall i :: 0 <= i < |names| ==> AllRegistered(names[i])
      ensures Registered(LookupIn(names, name).value)
      decreases |names|
    {
      if name !in names[0] {
        FoundAt(names[1..], name);
      }
    }

    method HandleCall(call: Call) returns (r: Option<Value>)
      requires Ready()
      modifies Repr()
      ensures Ready() && Steady()
      ensures hasBuilder ==> Gives(old(LowerCall(scopeHandler.functionDeclarations, State(), call)), r)
      decreases call, 1
    {
      if !hasBuilder || call.name !in scopeHandler.functionDeclarations {
        return None;
      }
      var evaluatedParameters := HandleArguments(call.parameters);
      var typ := StorageType(scopeHandler.functionDeclarations[call.name].typ);
      if evaluatedParameters.None? || typ.None? {
        return None;
      }
      r := Some(Ir.Reg(builder.next, typ.value));
      Create(Ir.CallFunction(builder.next, call.name, evaluatedParameters.value));
    }

    method HandleArguments(es: seq<Expression>) returns (r: Option<seq<Value>>)
      requires Ready() && hasBuilder
      modifies Repr()
      ensures Ready() && Steady() && r.Some? == old(LowerArguments(scopeHandler.functionDeclarations, State(), es)).Some?
      ensures r.Some? ==> old(LowerArguments(scopeHandler.functionDeclarations, State(), es)) == Some((State(), r.value))
      decreases es, 0
    {
      ghost var F, g := scopeHandler.functionDeclarations, State();
      var vs: seq<Value> := [];
      AndThenNone(LowerArguments(F, g, es));
      assert es[0..] == es;
      for i := 0 to |es|
        invariant Ready() && Steady() && hasBuilder
        invariant LowerArguments(F, g, es) == AndThen(vs, LowerArguments(F, State(), es[i..]))
      {
        ghost var now, later := State(), es[i..];
        assert later[0] == es[i] && later[1..] == es[i + 1..];
        var v := HandleExpression(es[i]);
        if v.None? {
          return None;
        }
        AndThenMore(F, now, vs, later);
        vs := vs + [v.value];
      }
      assert es[|es|..] == [] && vs + [] == vs;
      r := Some(vs);
    }

    // One step of the left-to-right fold.
    method AddOperand(totalValue: Option<Value>, operation: Option<Operator>, operand: Value) returns (r: Option<Value>)
      requires Ready()
      modifies builder
      ensures Ready() && Steady() && Gives(old(Combine(State(), totalValue, operation, operand)), r)
    {
      if totalValue.None? {
        return Some(operand);
      }
      match operation {
        case None =>
          return None;
        case Some(Plus) =>
          r := Some(Ir.Reg(builder.next, totalValue.value.Type()));
          Create(Ir.Add(builder.next, totalValue.value, operand));
        case Some(Minus) =>
          r := Some(Ir.Reg(builder.next, totalValue.value.Type()));
          Create(Ir.Sub(builder.next, totalValue.value, operand));
        case Some(_) =>
          r := totalValue;
      }
    }

    method HandleExpression(e: Expression) returns (r: Option<Value>)
      requires Ready()
      modifies Repr()
      ensures Ready() && Steady()
      ensures hasBuilder ==> Gives(old(LowerExpression(scopeHandler.functionDeclarations, State(), e)), r)
      decreases e, 1
    {
      hide LowerUnit, Grows, ScopeHandler.Valid, IRGenerator.Names;
      if !hasBuilder {
        return None;
      }
      ghost var F, g := scopeHandler.functionDeclarations, State();
      var totalValue: Option<Value> := None;
      for i := 0 to |e.units|
        invariant Ready() && Steady() && hasBuilder
        invariant LowerUnits(F, State(), totalValue, e.units[i..]) == LowerUnits(F, g, None, e.units)
      {
        var u := e.units[i];
        assert e.units[i..][0] == u && e.units[i..][1..] == e.units[i + 1..];
        totalValue := HandleUnit(totalValue, u);
        if totalValue.None? {
          return None;
        }
      }
      r := totalValue;
    }

    method HandleUnit(totalValue: Option<Value>, u: Unit) returns (r: Option<Value>)
      requires Ready() && hasBuilder
      modifies Repr()
      ensures Ready() && Steady() && Gives(old(LowerUnit(scopeHandler.functionDeclarations, State(), totalValue, u)), r)
      decreases u, 2
    {
      var operand := GetOperand(u.operand);
      if operand.None? {
        return None;
      }
      r := AddOperand(totalValue, u.operation, operand.value);
    }

    // The test of a branch; an else is always taken.
    method GenerateComparison(condition: Option<Expression>) returns (r: Option<Value>)
      requires Ready()
      modifies Repr()
      ensures Ready() && Steady()
      ensures hasBuilder ==> Gives(old(LowerCondition(scopeHandler.functionDeclarations, State(), condition)), r)
    {
      if condition.None? {
        return Some(Ir.Const(Ir.I1, 1));
      }
      var result := HandleExpression(condition.value);
      if result.None? || result.value.Type() != Ir.I32 {
        return None;
      }
      var v := Ir.Reg(builder.next, Ir.I1);
      Create(Ir.ICmpNe(builder.next, result.value, Ir.Const(Ir.I32, 0)));
      r := Some(v);
    }

    // ----- statements -----

    ghost predicate Leads(spec: Option<Gen>, ok: bool)
      requires Valid()
      reads Repr()
    {
      if spec.Some? then ok && State() == spec.value else !ok
    }

    // A body is being lowered: the current scope has the function's context,
    // and so will the next one.
    ghost predicate InFunction()
      reads this, scopeHandler
    {
      && hasBuilder && scopeHandler.contextDataForNextLocalScope.Some?
      && (scopeHandler.currentScope.kind == Kind.Local || scopeHandler.currentScope.kind == Kind.Function)
      && scopeHandler.currentScope.contextData.Some?
    }

    method HandleDeclaration(v: Variable) returns (ok: bool)
      requires Ready()
      modifies Repr()
      ensures Ready() && Steady() && (hasBuilder ==> Leads(old(LowerDeclaration(State(), v)), ok))
    {
      var typ := GetType(v.typ);
      if typ.None? || !hasBuilder {
        return false;
      }
      var cell := Ir.Reg(builder.next, Ir.Ptr);
      Create(Ir.Alloca(builder.next, if v.typ.isPointer then Ir.Ptr else typ.value));
      AddVariable(v.name, cell, typ.value, v.typ.pointerDepth);
      ok := true;
    }

    // A new cell, under its name in the current scope.
    method AddVariable(name: string, cell: Value, typ: Ir.Ty, depth: nat)
      requires Valid()
      modifies this`registry, scopeHandler.currentScope
      ensures Valid() && Steady()
      ensures State() == old(State().(vars := State().vars + [Slot(cell, typ, true, depth)], scopes := Declare(State().scopes, name, |State().vars|)))
    {
      hide Scope.Levels, IdsOf;
      var variable := NewVariable(cell, typ, true, depth);
      Bind(name, variable);
    }

    // A name for a variable, in the current scope.
    method Bind(name: string, variable: ScopeVariable)
      requires Valid() && Registered(variable)
      modifies scopeHandler.currentScope
      ensures Valid() && State() == old(State().(scopes := Declare(State().scopes, name, variable.id)))
    {
      hide Declare, IdsOf;
      ghost var names := Names();
      scopeHandler.Declare(name, variable);
      DeclareNames(names, Names(), name, variable);
    }

    // A variable that no scope names yet.
    method NewVariable(variable: Value, typ: Ir.Ty, isAlloca: bool, depth: nat) returns (v: ScopeVariable)
      requires Valid()
      modifies this`registry
      ensures Valid() && fresh(v) && v.id == |old(registry)| && registry == old(registry) + [v]
      ensures State() == old(State()).(vars := old(State()).vars + [Slot(variable, typ, isAlloca, depth)])
    {
      ghost var g := State();
      v := new ScopeVariable(variable, typ, isAlloca, depth, |registry|);
      registry := registry + [v];
      assert Slots(registry) == g.vars + [v.AsSlot()];
    }

    method HandleAssignment(target: string, steps: nat, e: Expression) returns (ok: bool)
      requires Ready()
      modifies Repr()
      ensures Ready() && Steady() && (hasBuilder ==> Leads(old(LowerAssignment(scopeHandler.functionDeclarations, State(), target, steps, e)), ok))
      decreases e, 2
    {
      hide Ids, Visible, LookupIn, LowerDereference, LowerExpression, Scope.Valid;
      if !hasBuilder {
        return false;
      }
      VisibleIsLookup(scopeHandler.AsStack(), target);
      IdsLookup(Names(), target);
      var variable := scopeHandler.currentScope.GetVisibleDeclaredVariable(target);
      if variable.None? {
        return false;
      }
      FoundRegistered(target);
      var assignmentTarget := PlaceOf(variable.value, steps);
      var exp := HandleExpression(e);
      if exp.None? {
        return false;
      }
      var value := exp.value;
      if e.evaluatedType.isPointer {
        value := CreateIntToPtr(value);
      }
      Create(Ir.Store(value, assignmentTarget));
      ok := true;
    }

    method PlaceOf(v: ScopeVariable, steps: nat) returns (place: Value)
      requires Ready() && Registered(v)
      modifies v, builder
      ensures Ready() && Steady() && old(LowerDereference(State(), v.id, steps)) == Lowered(State(), place)
    {
      hide ScopeHandler.Valid, IRGenerator.Names, LoadChain;
      ghost var g := State();
      place := v.DereferenceAssignment(builder, steps, g);
      UseTouches(g, v.id, Plain, steps);
      assert Slots(registry) == LowerDereference(g, v.id, steps).gen.vars;
    }

    method CreateIntToPtr(v: Value) returns (p: Value)
      requires Ready()
      modifies builder
      ensures Ready() && Steady() && old(CastToPointer(State(), v)) == Lowered(State(), p)
    {
      if v.Type() == Ir.Ptr {
        return v;
      }
      p := Ir.Reg(builder.next, Ir.Ptr);
      Create(Ir.IntToPtr(builder.next, v));
    }

    method HandleStatement(s: Statement) returns (ok: bool)
      requires Ready() && InFunction()
      modifies Repr()
      ensures Ready() && Steady() && Leads(old(LowerStatement(scopeHandler.functionDeclarations, State(), s)), ok)
      decreases s, 1
    {
      match s {
        case Declaration(v) => ok := HandleDeclaration(v);
        case Assignment(target, steps, e) => ok := HandleAssignment(target, steps, e);
        case CallStatement(call) =>
          var r := HandleCall(call);
          ok := r.Some?;
        case Conditional(chain) => ok := HandleGroup(s);
      }
    }

    // The merge block, the branches one by one, and the jump from the last
    // test.
    method HandleGroup(s: Statement) returns (ok: bool)
      requires Ready() && s.Conditional? && scopeHandler.contextDataForNextLocalScope.Some?
      modifies Repr()
      ensures Ready() && Steady()
      ensures if old(InFunction()) then Leads(old(LowerStatement(scopeHandler.functionDeclarations, State(), s)), ok) else !ok
      decreases s, 0
    {
      var localScope := scopeHandler.CastCurrentToLocalScope();
      if !hasBuilder || localScope.None? || localScope.value.contextData.None? {
        return false;
      }
      var mergeBlock := CreateBlock();
      ok := HandleChain(s.chain, mergeBlock);
    }

    method HandleChain(chain: seq<Branch>, mergeBlock: nat) returns (ok: bool)
      requires Ready() && InFunction() && mergeBlock < |State().blocks| && mergeBlock != State().cur
      modifies Repr()
      ensures Ready() && Steady() && Leads(old(LowerChain(scopeHandler.functionDeclarations, State(), chain, mergeBlock)), ok)
      decreases chain, 0
    {
      hide IRGenerator.Names, Grows, LowerBranch, ScopeVariable.AsSlot, IdsOf, FreshCode;
      ghost var F, g := scopeHandler.functionDeclarations, State();
      assert chain[0..] == chain;
      for i := 0 to |chain|
        invariant Ready() && Steady() && InFunction()
        invariant mergeBlock < |State().blocks| && mergeBlock != State().cur
        invariant LowerChain(F, State(), chain[i..], mergeBlock) == LowerChain(F, g, chain, mergeBlock)
      {
        assert chain[i..][0] == chain[i] && chain[i..][1..] == chain[i + 1..];
        var branched := HandleBranch(chain[i], mergeBlock);
        if !branched {
          return false;
        }
      }
      Create(Ir.Br(mergeBlock));
      SetInsertPoint(mergeBlock);
      ok := true;
    }

    method CreateBlock() returns (b: nat)
      requires Ready()
      modifies builder
      ensures Ready() && Steady() && b == old(|State().blocks|) && State() == old(State().(blocks := State().blocks + [[]]))
    {
      b := builder.CreateBlock();
    }

    method SetInsertPoint(b: nat)
      requires Ready() && b < |State().blocks|
      modifies builder
      ensures Ready() && Steady() && State() == old(State()).(cur := b)
    {
      builder.SetInsertPoint(b);
    }

    // One branch: two blocks, one for its body, one for the next test.
    method HandleBranch(b: Branch, mergeBlock: nat) returns (ok: bool)
      requires Ready() && InFunction() && mergeBlock < |State().blocks| && mergeBlock != State().cur
      modifies Repr()
      ensures Ready() && Steady() && Leads(old(LowerBranch(scopeHandler.functionDeclarations, State(), b, mergeBlock)), ok)
      decreases b, 2
    {
      hide Close, SplitAt, LowerBlock, LowerCondition, ScopeHandler.Valid;
      var comparison := GenerateComparison(b.condition);
      if comparison.None? {
        return false;
      }
      var falseBlock := Fork(comparison.value);
      ok := HandleTaken(b.block, mergeBlock, falseBlock);
    }

    // The body of a branch, the jump behind it, and the way on.
    method HandleTaken(b: Block, mergeBlock: nat, falseBlock: nat) returns (ok: bool)
      requires Ready() && InFunction() && mergeBlock < |State().blocks| && falseBlock < |State().blocks|
      modifies Repr()
      ensures Ready() && Steady()
      ensures var g := old(LowerBlock(scopeHandler.functionDeclarations, State(), map[], b));
              ok == g.Some? && (ok ==> State() == Close(g.value, mergeBlock).(cur := falseBlock))
      decreases b, 2
    {
      hide Close, LowerBlock, HasTerminator, ScopeHandler.Valid;
      ok := HandleBlock(b, Kind.Local);
      if ok {
        CloseBranch(mergeBlock);
        SetInsertPoint(falseBlock);
      }
    }

    method Fork(comparison: Value) returns (falseBlock: nat)
      requires Ready()
      modifies builder
      ensures Ready() && Steady() && State() == old(SplitAt(State(), comparison)) && falseBlock == State().cur + 1
    {
      falseBlock := builder.CreateFork(comparison);
    }

    // No jump after a return: the block that is open now may not be the one
    // the branch began with.
    method CloseBranch(mergeBlock: nat)
      requires Ready()
      modifies builder
      ensures Ready() && Steady() && State() == old(Close(State(), mergeBlock))
    {
      var code := builder.blocks[builder.insertBlock];
      if code == [] || !code[|code| - 1].IsTerminator() {
        Create(Ir.Br(mergeBlock));
      }
    }

    // ----- blocks -----

    // A function's scope starts with the parameters.
    ghost function InitialNames(kind: Kind): map<string, ScopeVariable>
      reads scopeHandler
    {
      var context := scopeHandler.contextDataForNextLocalScope;
      if kind == Kind.Function && context.Some? then context.value.parameters else map[]
    }

    method EnterBlock(kind: Kind)
      requires Valid() && (kind == Kind.Local || kind == Kind.Function) && scopeHandler.contextDataForNextLocalScope.Some?
      requires AllRegistered(InitialNames(kind))
      modifies scopeHandler`currentScope
      ensures Valid() && fresh(scopeHandler.currentScope) && scopeHandler.currentScope.parentScope == old(scopeHandler.currentScope)
      ensures scopeHandler.currentScope.kind == kind && scopeHandler.currentScope.contextData == scopeHandler.contextDataForNextLocalScope
      ensures State() == old(State().(scopes := [IdsOf(InitialNames(kind))] + State().scopes))
    {
      hide Slots, Ids, IdsOf, Scope.Valid, ScopesIn, IRGenerator.Names, IRGenerator.AllRegistered;
      ghost var names, initialNames := Names(), InitialNames(kind);
      OpenScope(kind);
      assert Ids(Names()) == [IdsOf(initialNames)] + Ids(names);
    }

    // A scope of its own, with the parameters in it.
    method OpenScope(kind: Kind)
      requires scopeHandler.Valid() && (kind == Kind.Local || kind == Kind.Function) && scopeHandler.contextDataForNextLocalScope.Some?
      modifies scopeHandler`currentScope
      ensures scopeHandler.Valid() && fresh(scopeHandler.currentScope) && scopeHandler.currentScope.parentScope == old(scopeHandler.currentScope)
      ensures scopeHandler.currentScope.kind == kind && scopeHandler.currentScope.contextData == scopeHandler.contextDataForNextLocalScope
      ensures Names() == [InitialNames(kind)] + old(Names())
      ensures fresh(scopeHandler.Repr() - old(scopeHandler.Repr()))
    {
      hide Stack.Names, IRGenerator.AllRegistered, Scope.Levels;
      ghost var stack := scopeHandler.AsStack();
      scopeHandler.Push(kind);
      assert scopeHandler.AsStack().levels[0].names == map[];
      if kind == Kind.Function {
        DeclareAll(scopeHandler, scopeHandler.currentScope.contextData.value.parameters);
      }
      OpenedNames(stack, scopeHandler.AsStack(), InitialNames(kind));
    }

    method LeaveBlock()
      requires Valid() && scopeHandler.currentScope.parentScope != null
      requires scopeHandler.currentScope.kind == Kind.Local || scopeHandler.currentScope.kind == Kind.Function
      modifies scopeHandler`currentScope, scopeHandler`contextDataForNextLocalScope
      ensures Valid() && scopeHandler.currentScope == old(scopeHandler.currentScope.parentScope)
      ensures scopeHandler.contextDataForNextLocalScope == old(if scopeHandler.currentScope.kind == Kind.Function then None else scopeHandler.contextDataForNextLocalScope)
      ensures |old(State()).scopes| > 0 && State() == old(State()).(scopes := old(State()).scopes[1..])
    {
      ghost var names, stack := Names(), scopeHandler.AsStack();
      assert scopeHandler.currentScope.chain[1..] == scopeHandler.currentScope.parentScope.chain;
      assert stack.levels[0] == scopeHandler.currentScope.AsLevel() && scopeHandler.currentScope.parentScope.Valid();
      scopeHandler.Pop();
      assert scopeHandler.AsStack().levels == stack.levels[1..];
      assert Names() == names[1..];
      assert Ids(Names()) == Ids(names)[1..];
    }

    method HandleBlock(b: Block, kind: Kind) returns (ok: bool)
      requires Ready() && hasBuilder && (kind == Kind.Local || kind == Kind.Function)
      requires scopeHandler.contextDataForNextLocalScope.Some? && AllRegistered(InitialNames(kind))
      modifies Repr()
      ensures Ready() && Bounded() && (kind == Kind.Local ==> Steady())
      ensures Leads(old(LowerBlock(scopeHandler.functionDeclarations, State(), IdsOf(InitialNames(kind)), b)), ok)
      decreases b, 1
    {
      hide IRGenerator.State, Scope.Levels;
      EnterBlock(kind);
      ok := HandleContent(b);
      LeaveBlock();
    }

    // The statements, then the return if there is one.
    method HandleContent(b: Block) returns (ok: bool)
      requires Ready() && InFunction()
      modifies Repr()
      ensures Ready() && Steady() && Leads(old(LowerContent(scopeHandler.functionDeclarations, State(), b)), ok)
      decreases b, 0
    {
      ok := HandleStatements(b.statements);
      if ok && b.returnValue.Some? {
        ok := HandleReturn(b.returnValue.value);
      }
    }

    // Every statement is handled, even after one has failed.
    method HandleStatements(ss: seq<Statement>) returns (ok: bool)
      requires Ready() && InFunction()
      modifies Repr()
      ensures Ready() && Steady() && Leads(old(LowerStatements(scopeHandler.functionDeclarations, State(), ss)), ok)
      decreases ss, 0
    {
      ghost var F, g := scopeHandler.functionDeclarations, State();
      ok := true;
      assert ss[0..] == ss;
      for i := 0 to |ss|
        invariant Ready() && Steady() && InFunction()
        invariant if ok then LowerStatements(F, State(), ss[i..]) == LowerStatements(F, g, ss) else LowerStatements(F, g, ss).None?
      {
        assert ss[i..][0] == ss[i] && ss[i..][1..] == ss[i + 1..];
        var handled := HandleStatement(ss[i]);
        ok := ok && handled;
      }
    }

    method HandleReturn(e: Expression) returns (ok: bool)
      requires Ready() && InFunction()
      modifies Repr()
      ensures Ready() && Steady() && Leads(old(LowerReturn(scopeHandler.functionDeclarations, State(), Some(e))), ok)
      decreases e, 2
    {
      var value := HandleExpression(e);
      if value.None? {
        return false;
      }
      Create(Ir.Ret(value.value));
      ok := true;
    }

    // ----- items -----

    ghost function UnitState(): UnitGen
      requires Valid()
      reads Repr()
    {
      UnitGen(State(), scopeHandler.functionDeclarations, functions, initial, hasBuilder)
    }

    // Between items no function is open.
    ghost predicate Idle()
      reads Repr()
    {
      Valid() && builder.blocks == []
    }

    ghost predicate Reaches(spec: Option<UnitGen>, ok: bool)
      requires Valid()
      reads Repr()
    {
      if spec.Some? then ok && UnitState() == spec.value else !ok
    }

    method HandleGlobal(v: Variable, constOperand: Option<Constant>) returns (ok: bool)
      requires Idle()
      modifies Repr()
      ensures Idle() && Grown() && Reaches(old(LowerGlobal(UnitState(), v, constOperand)), ok)
    {
      var typ := GetType(v.typ);
      var value := InitialValue(constOperand);
      if typ.None? || value.None? || (v.typ.isPointer && !hasBuilder) {
        return false;
      }
      AddVariable(v.name, Ir.Global(v.name), typ.value, v.typ.pointerDepth);
      AddInitial(value.value);
      ok := true;
    }

    method AddInitial(value: Ir.Val)
      requires Idle()
      modifies this`initial
      ensures Idle() && UnitState() == old(UnitState()).(initial := old(initial) + [value])
    {
      initial := initial + [value];
    }

    // The first declaration of a name stays.
    method HandleFunctionDeclaration(name: string, s: Signature) returns (ok: bool)
      requires Idle()
      modifies Repr()
      ensures Idle() && Grown() && Reaches(old(LowerFunction(UnitState(), name, s)), ok)
    {
      for i := 0 to |s.parameters|
        invariant Idle() && Repr() == old(Repr()) && UnitState() == old(UnitState())
        invariant forall j :: 0 <= j < i ==> GetType(s.parameters[j].typ).Some?
      {
        if GetType(s.parameters[i].typ).None? {
          assert s.parameters[i] in s.parameters;
          return false;
        }
      }
      if GetType(s.typ).None? {
        return false;
      }
      scopeHandler.AddFunctionDeclaration(name, s);
      ok := true;
    }

    method AddParameters(ps: seq<Variable>) returns (parameters: map<string, ScopeVariable>, ok: bool)
      requires Ready()
      modifies this`registry
      ensures Ready() && Steady() && AllRegistered(parameters)
      ensures ok == ParameterSlots(ps).Some?
      ensures ok ==> State() == old(State().(vars := State().vars + ParameterSlots(ps).value)) && IdsOf(parameters) == ParameterNames(ps, |old(State()).vars|)
    {
      ghost var g, slots := State(), [];
      parameters := map[];
      GatheredNone(ps, |g.vars|);
      assert g.vars + [] == g.vars && IdsOf(parameters) == map[];
      for i := 0 to |ps|
        invariant Ready() && Steady() && AllRegistered(parameters)
        invariant Gathered(ps, i, |g.vars|, slots, IdsOf(parameters)) && State() == g.(vars := g.vars + slots)
      {
        if GetType(ps[i].typ).None? {
          assert ParameterSlot(ps[i], i).None?;
          return parameters, false;
        }
        ghost var slot := ParameterSlot(ps[i], i).value;
        assert g.vars + slots + [slot] == g.vars + (slots + [slot]);
        parameters := AddParameter(ps, i, parameters, |g.vars|, slots);
        slots := slots + [slot];
      }
      assert ps[..|ps|] == ps;
      ok := true;
    }

    // The next parameter; a name that is already there keeps its entry.
    method AddParameter(ps: seq<Variable>, i: nat, parameters: map<string, ScopeVariable>, ghost base: nat, ghost slots: seq<Slot>)
      returns (more: map<string, ScopeVariable>)
      requires Ready() && AllRegistered(parameters) && i < |ps| && ParameterSlot(ps[i], i).Some?
      requires Gathered(ps, i, base, slots, IdsOf(parameters)) && |State().vars| == base + i
      modifies this`registry
      ensures Ready() && Steady() && AllRegistered(more)
      ensures State() == old(State().(vars := State().vars + [ParameterSlot(ps[i], i).value]))
      ensures Gathered(ps, i + 1, base, slots + [ParameterSlot(ps[i], i).value], IdsOf(more))
    {
      hide ParameterSlots, ParameterNames, ScopesIn, IRGenerator.Names, ScopeHandler.Valid;
      var p := ps[i];
      var typ := GetType(p.typ).value;
      var variable := NewVariable(Ir.Arg(i, if p.typ.isPointer then Ir.Ptr else typ), typ, false, p.typ.pointerDepth);
      more := if p.name in parameters then parameters else parameters[p.name := variable];
      assert IdsOf(more) == Emplace(IdsOf(parameters), p.name, base + i);
      GatheredNext(ps, i, base, slots, IdsOf(parameters));
    }

    method HandleFunctionBody(name: string, b: Block) returns (ok: bool)
      requires Idle()
      modifies Repr()
      ensures Idle() && Grown() && Reaches(old(LowerBodyItem(UnitState(), name, b)), ok)
    {
      hide LowerBlock, IRGenerator.Valid;
      if name !in scopeHandler.functionDeclarations {
        return false;
      }
      var code := if name in functions then functions[name] else [];
      ok := FillFunction(scopeHandler.functionDeclarations[name].parameters, b, code);
      CloseFunction(name, if ok then builder.blocks else code);
    }

    method CloseFunction(name: string, code: seq<Ir.BasicBlock>)
      requires Valid()
      modifies builder, this`functions
      ensures Idle() && Repr() == old(Repr())
      ensures UnitState() == old(UnitState()).(gen := old(State()).(blocks := []), blocks := old(functions)[name := code])
    {
      functions := functions[name := code];
      builder.Open([]);
    }

    // Adds a body to the code a function already has.
    method FillFunction(ps: seq<Variable>, b: Block, code: seq<Ir.BasicBlock>) returns (ok: bool)
      requires Idle()
      modifies Repr()
      ensures Valid() && Grown() && functions == old(functions) && initial == old(initial) && (ok ==> hasBuilder)
      ensures scopeHandler.functionDeclarations == old(scopeHandler.functionDeclarations)
      ensures Leads(old(LowerBody(scopeHandler.functionDeclarations, State().(blocks := code), ps, b)), ok)
    {
      hide IRGenerator.Idle, IRGenerator.Valid, ParameterNames, IRGenerator.Names, Grows,
        IRGenerator.InitialNames, IRGenerator.AllRegistered, ParameterSlots, LowerBlock, IRBuilder.Valid,
        ScopeHandler.Valid;
      ghost var known := |registry|;
      var entered := OpenFunction(ps, code);
      if !entered {
        return false;
      }
      ok := HandleBlock(b, Kind.Function);
      if ok {
        Forget(known);
      }
    }

    // The entry block, the parameters, and the context of the body's scope.
    method OpenFunction(ps: seq<Variable>, code: seq<Ir.BasicBlock>) returns (ok: bool)
      requires Idle()
      modifies builder, this`hasBuilder, this`registry, scopeHandler`contextDataForNextLocalScope
      ensures Ready() && hasBuilder && Grown() && ok == ParameterSlots(ps).Some?
      ensures ok ==> scopeHandler.contextDataForNextLocalScope.Some?
      ensures ok ==> AllRegistered(InitialNames(Kind.Function)) && IdsOf(InitialNames(Kind.Function)) == ParameterNames(ps, |old(registry)|)
      ensures ok ==> State() == StartBody(old(State()).(blocks := code), ParameterSlots(ps).value)
    {
      hide ScopeHandler.Valid;
      OpenBlock(code);
      var parameters, typed := AddParameters(ps);
      scopeHandler.PrepareFunctionScope(ContextData(parameters));
      ok := typed;
    }

    method OpenBlock(code: seq<Ir.BasicBlock>)
      requires Idle()
      modifies builder, this`hasBuilder
      ensures Ready() && hasBuilder && Repr() == old(Repr()) && State() == StartBody(old(State().(blocks := code)), [])
    {
      hide ScopeHandler.Valid, IRGenerator.Names;
      ghost var g := State();
      hasBuilder := true;
      builder.Open(code);
      var basicBlock := builder.CreateBlock();
      builder.SetInsertPoint(basicBlock);
      assert g.vars + [] == g.vars;
    }

    method HandleItem(item: Item) returns (ok: bool)
      requires Idle()
      modifies Repr()
      ensures Idle() && Grown() && Reaches(old(LowerItem(UnitState(), item)), ok)
    {
      match item {
        case GlobalItem(v, c) => ok := HandleGlobal(v, c);
        case FunctionItem(name, s) => ok := HandleFunctionDeclaration(name, s);
        case BodyItem(name, b) => ok := HandleFunctionBody(name, b);
      }
    }

    // Every item is handled, even after one has failed.
    method Walk(items: seq<Item>) returns (ok: bool)
      requires Idle()
      modifies Repr()
      ensures Idle() && Reaches(old(LowerItems(UnitState(), items)), ok)
    {
      ghost var u := UnitState();
      ok := true;
      assert items[0..] == items;
      for i := 0 to |items|
        invariant Idle() && Grown()
        invariant if ok then LowerItems(UnitState(), items[i..]) == LowerItems(u, items) else LowerItems(u, items).None?
      {
        assert items[i..][0] == items[i] && items[i..][1..] == items[i + 1..];
        var handled := HandleItem(items[i]);
        ok := ok && handled;
      }
    }

    // The variables of a finished body are gone.
    ghost method Forget(known: nat)
      requires Valid() && known <= |registry| && ScopesIn(State().scopes, known)
      modifies this`registry
      ensures Valid() && registry == old(registry)[..known]
      ensures State() == old(State()).(vars := old(State()).vars[..known])
    {
      ghost var g := State();
      registry := registry[..known];
      forall i | 0 <= i < |Names()| ensures AllRegistered(Names()[i]) {
        assert g.scopes[i] == IdsOf(Names()[i]);
        forall n | n in Names()[i] ensures Registered(Names()[i][n]) {
          assert n in g.scopes[i];
        }
      }
      assert Slots(registry) == g.vars[..known];
    }
  }

  lemma {:induction false} DeclareNames(names: seq<map<string, ScopeVariable>>, names': seq<map<string, ScopeVariable>>, name: string, v: ScopeVariable)
    requires |names| > 0 && |names'| == |names| && forall i :: 0 < i < |names| ==> names'[i] == names[i]
    requires names'[0] == if name in names[0] then names[0] else names[0][name := v]
    ensures Ids(names') == Declare(Ids(names), name, v.id)
  {
    assert IdsOf(names'[0]) == if name in names[0] then IdsOf(names[0]) else IdsOf(names[0])[name := v.id];
  }

  ghost function LowerContent(F: Signatures, g: Gen, b: Block): (r: Option<Gen>)
    requires WF(g)
    ensures r.Some? ==> WF(r.value)
  {
    var g1 :- LowerStatements(F, g, b.statements);
    LowerReturn(F, g1, b.returnValue)
  }

  // The first i parameters, as slots and as names.
  ghost predicate Gathered(ps: seq<Variable>, i: nat, base: nat, slots: seq<Slot>, names: map<string, nat>) {
    i <= |ps| && |slots| == i && ParameterSlots(ps[..i]) == Some(slots) && ParameterNames(ps[..i], base) == names
  }

  lemma {:induction false} GatheredNone(ps: seq<Variable>, base: nat)
    ensures Gathered(ps, 0, base, [], map[])
  {
    assert ps[..0] == [];
  }

  lemma {:induction false} GatheredNext(ps: seq<Variable>, i: nat, base: nat, slots: seq<Slot>, names: map<string, nat>)
    requires i < |ps| && Gathered(ps, i, base, slots, names) && ParameterSlot(ps[i], i).Some?
    ensures Gathered(ps, i + 1, base, slots + [ParameterSlot(ps[i], i).value], Emplace(names, ps[i].name, base + |slots|))
  {
    assert ps[..i + 1][..i] == ps[..i] && ps[..i + 1] == ps[..i] + [ps[i]];
    ParameterNamesSnoc(ps[..i], ps[i], base);
  }

  // The arguments evaluated so far, before those still to come.
  ghost function AndThen(done: seq<Value>, others: Option<(Gen, seq<Value>)>): Option<(Gen, seq<Value>)> {
    if others.Some? then Some((others.value.0, done + others.value.1)) else None
  }

  lemma {:induction false} AndThenNone(others: Option<(Gen, seq<Value>)>)
    ensures AndThen([], others) == others
  {
    if others.Some? {
      assert [] + others.value.1 == others.value.1;
    }
  }

  lemma {:induction false} AndThenMore(F: Signatures, g: Gen, done: seq<Value>, es: seq<Expression>)
    requires WF(g) && es != [] && LowerExpression(F, g, es[0]).Some?
    ensures var low := LowerExpression(F, g, es[0]).value;
            AndThen(done, LowerArguments(F, g, es)) == AndThen(done + [low.value], LowerArguments(F, low.gen, es[1..]))
  {
    var low := LowerExpression(F, g, es[0]).value;
    var others := LowerArguments(F, low.gen, es[1..]);
    if others.Some? {
      assert done + ([low.value] + others.value.1) == done + [low.value] + others.value.1;
    }
  }

  // A whole unit: the functions and the initial values of the globals.
  method Generate(items: seq<Item>) returns (r: Option<(map<string, seq<Ir.BasicBlock>>, seq<Ir.Val>)>)
    ensures var u := LowerItems(EMPTY_UNIT, items); r == if u.Some? then Some((u.value.blocks, u.value.initial)) else None
  {
    var generator := new IRGenerator();
    var ok := generator.Walk(items);
    r := if ok then Some((generator.functions, generator.initial)) else None;
  }
}
