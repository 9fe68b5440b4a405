/**
  The analyzer as it runs (lib/Analyzer): it declares names in the current
  scope, registers functions, and writes types and step counts into the nodes
  it is given. Every method is proved to decide and to write what Analysis.dfy
  says.
 */
module Analyzer {
  import opened Wrappers
  import opened Ast
  import opened Lowering
  import opened ScopeChain
  import opened Analysis

  // An expression node; the operands have been acted on already.
  class ExpressionNode {
    const units: seq<Unit>
    var evaluatedType: Type

    constructor (units: seq<Unit>)
      ensures this.units == units && evaluatedType == NO_TYPE
    {
      this.units, evaluatedType := units, NO_TYPE;
    }
  }

  class AssignmentNode {
    const target: string
    const expression: ExpressionNode
    var indirectionSteps: nat

    constructor (target: string, expression: ExpressionNode)
      ensures this.target == target && this.expression == expression && indirectionSteps == 0
    {
      this.target, this.expression, indirectionSteps := target, expression, 0;
    }
  }

  ghost function TypesIn(names: seq<map<string, Variable>>): (r: Types)
    ensures |r| == |names|
    ensures forall i :: 0 <= i < |r| ==> r[i] == TypesAt(names[i])
  {
    seq(|names|, i requires 0 <= i < |names| => TypesAt(names[i]))
  }

  ghost function TypesAt(names: map<string, Variable>): map<string, Type> {
    map n | n in names :: names[n].typ
  }

  lemma {:induction false} TypesLookup(names: seq<map<string, Variable>>, name: string)
    ensures var v := LookupIn<Variable>(names, name);
            LookupIn<Type>(TypesIn(names), name) == if v.Some? then Some(v.value.typ) else None
    decreases |names|
  {
    if names != [] {
      assert TypesIn(names)[1..] == TypesIn(names[1..]);
      TypesLookup(names[1..], name);
    }
  }

  // What is visible from the scope around the current one.
  lemma {:induction false} OuterLookup<C(!new)>(s: Stack<Variable, C>, name: string)
    requires s.levels != []
    ensures Visible(s.levels[1..], name).Some? == LookupIn<Type>(TypesIn(s.Names())[1..], name).Some?
  {
    var outer := s.(levels := s.levels[1..]);
    VisibleIsLookup(outer, name);
    assert outer.Names() == s.Names()[1..] && TypesIn(s.Names())[1..] == TypesIn(outer.Names());
    TypesLookup(outer.Names(), name);
  }

  class Analyzer {
    const scopeHandler: ScopeHandler<Variable, Entry, Signature>

    constructor ()
      ensures Valid() && fresh(scopeHandler.Repr()) && VisibleTypes() == [map[]] && Known() == map[]
      ensures scopeHandler.currentScope.kind == Kind.Global
    {
      scopeHandler := new ScopeHandler();
      new;
      assert scopeHandler.AsStack().Names() == [map[]] && TypesIn([map[]]) == [map[]];
    }

    ghost predicate Valid()
      reads scopeHandler
    {
      scopeHandler.Valid()
    }

    ghost function VisibleTypes(): Types
      reads scopeHandler, scopeHandler.currentScope.chain
    {
      TypesIn(scopeHandler.AsStack().Names())
    }

    ghost function Known(): Signatures
      reads scopeHandler
    {
      map n | n in scopeHandler.functionDeclarations :: scopeHandler.functionDeclarations[n].signature
    }

    // ----- expressions -----

    method GetIdentifierType(name: string) returns (r: Option<Type>)
      requires Valid()
      ensures r == LookupIn<Type>(VisibleTypes(), name)
    {
      VisibleIsLookup(scopeHandler.AsStack(), name);
      TypesLookup(scopeHandler.AsStack().Names(), name);
      var variable := scopeHandler.currentScope.GetVisibleDeclaredVariable(name);
      r := if variable.Some? then Some(variable.value.typ) else None;
    }

    // Each unit may change the type only if it is the first.
    method ActOnExpression(e: ExpressionNode) returns (ok: bool)
      requires Valid() && e.units != []
      modifies e`evaluatedType
      ensures var t := UnitsType(Known(), VisibleTypes(), None, e.units);
              if ok then t == Some(e.evaluatedType) else t == None && e.evaluatedType == old(e.evaluatedType)
    {
      ghost var F, T := Known(), VisibleTypes();
      var evaluatedType: Option<Type> := None;
      assert e.units[0..] == e.units;
      for i := 0 to |e.units|
        invariant UnitsType(F, T, evaluatedType, e.units[i..]) == UnitsType(F, T, None, e.units)
        invariant (i > 0 ==> evaluatedType.Some?) && e.evaluatedType == old(e.evaluatedType)
      {
        assert e.units[i..][0] == e.units[i] && e.units[i..][1..] == e.units[i + 1..];
        evaluatedType := ActOnUnit(evaluatedType, e.units[i]);
        if evaluatedType.None? {
          return false;
        }
      }
      e.evaluatedType := evaluatedType.value;
      ok := true;
    }

    method ActOnUnit(evaluated: Option<Type>, u: Unit) returns (r: Option<Type>)
      requires Valid()
      ensures r == UnitType(Known(), VisibleTypes(), evaluated, u)
    {
      if evaluated.Some? && u.operation.None? {
        return None;
      }
      match u.operand {
        case IntegerLiteral(digits) =>
          var expected := evaluated.GetOr(PLAIN_INT);
          return if IntegerAllowed(expected) && digits != [] then Some(expected) else None;
        case StringLiteral(_) =>
          var expected := evaluated.GetOr(Type(Str, false, 0));
          return if StringAllowed(expected) then Some(expected) else None;
        case Identifier(name, indirection, steps) =>
          var typ := GetIdentifierType(name);
          if typ.None? {
            return None;
          }
          if evaluated.None? {
            return IndirectionType(indirection, steps, typ.value);
          }
          return if IdentifierFits(steps, typ.value, evaluated.value) then evaluated else None;
        case CallOperand(call) =>
          if call.name !in scopeHandler.functionDeclarations {
            return None;
          }
          var typ := scopeHandler.functionDeclarations[call.name].signature.typ;
          if evaluated.None? {
            return Some(typ);
          }
          if evaluated.value == NO_TYPE {
            return None;
          }
          var allowed := ActOnCall(call);
          return if allowed && typ == evaluated.value then evaluated else None;
      }
    }

    method ActOnCall(call: Call) returns (ok: bool)
      requires Valid()
      ensures ok == CallAllowed(Known(), call)
    {
      if call.name !in scopeHandler.functionDeclarations {
        return false;
      }
      var parameters := scopeHandler.functionDeclarations[call.name].signature.parameters;
      if |parameters| != |call.parameters| {
        return false;
      }
      for i := 0 to |parameters|
        invariant forall j :: 0 <= j < i ==> call.parameters[j].evaluatedType == parameters[j].typ
      {
        if call.parameters[i].evaluatedType != parameters[i].typ {
          return false;
        }
      }
      ok := true;
    }

    // ----- variables -----

    // A name may be declared once per scope; outer scopes do not matter.
    // `hiding` is the mark of a declaration that hides one further out.
    method DeclareVariable(v: Variable) returns (ok: bool, hiding: bool)
      requires Valid()
      modifies scopeHandler.currentScope
      ensures Valid() && ok == (v.name !in old(VisibleTypes())[0])
      ensures hiding == (ok && LookupIn<Type>(old(VisibleTypes())[1..], v.name).Some?)
      ensures VisibleTypes() == if ok then Declare(old(VisibleTypes()), v.name, v.typ) else old(VisibleTypes())
    {
      var declared := scopeHandler.currentScope.GetDeclaredVariableCurrentScope(v.name);
      if declared.Some? {
        return false, false;
      }
      ghost var names := scopeHandler.AsStack().Names();
      var outer := Scope.GetDeclaredVariableParentScope(v.name, scopeHandler.currentScope.parentScope);
      OuterLookup(scopeHandler.AsStack(), v.name);
      ghost var parent, levels := scopeHandler.currentScope.parentScope, scopeHandler.AsStack().levels;
      assert levels[1..] == if parent == null then [] else parent.Levels();
      assert outer == Visible(levels[1..], v.name);
      scopeHandler.Declare(v.name, v);
      assert scopeHandler.AsStack().Names() == names[0 := names[0][v.name := v]];
      assert TypesAt(names[0][v.name := v]) == TypesAt(names[0])[v.name := v.typ];
      assert VisibleTypes() == Declare(TypesIn(names), v.name, v.typ);
      ok, hiding := true, outer.Some?;
    }

    method ActOnGlobalDeclaration(v: Variable) returns (ok: bool)
      requires Valid()
      modifies scopeHandler.currentScope
      ensures Valid() && ok == (scopeHandler.currentScope.kind == Kind.Global && v.name !in old(VisibleTypes())[0])
      ensures VisibleTypes() == if ok then Declare(old(VisibleTypes()), v.name, v.typ) else old(VisibleTypes())
    {
      if scopeHandler.currentScope.kind != Kind.Global {
        return false;
      }
      var hiding;
      ok, hiding := DeclareVariable(v);
    }

    method ActOnLocalDeclaration(v: Variable) returns (ok: bool)
      requires Valid()
      modifies scopeHandler.currentScope
      ensures Valid() && ok == (scopeHandler.currentScope.kind != Kind.Global && v.name !in old(VisibleTypes())[0])
      ensures VisibleTypes() == if ok then Declare(old(VisibleTypes()), v.name, v.typ) else old(VisibleTypes())
    {
      if scopeHandler.currentScope.kind == Kind.Global {
        return false;
      }
      var hiding;
      ok, hiding := DeclareVariable(v);
    }

    // Writes the steps that remain to be taken, and marks a pointer.
    method ActOnAssignment(a: AssignmentNode, indirection: nat) returns (ok: bool)
      requires Valid() && a.indirectionSteps == 0
      modifies a`indirectionSteps, a.expression`evaluatedType
      ensures var marks := AssignmentMarks(VisibleTypes(), a.target, indirection, old(a.expression.evaluatedType));
              && ok == marks.Some?
              && (ok ==> a.indirectionSteps == marks.value.0
                         && a.expression.evaluatedType == old(a.expression.evaluatedType).(isPointer := marks.value.1))
    {
      hide LookupIn, TypesIn, Stack.Names, Stack.Valid, ScopeHandler.Valid, Scope.Valid;
      var found := GetIdentifierType(a.target);
      if found.None? {
        return false;
      }
      var t, e := found.value, a.expression.evaluatedType;
      if t.isPointer {
        if indirection != 0 {
          a.indirectionSteps := indirection;
          if indirection > t.pointerDepth {
            return false;
          }
          if indirection == t.pointerDepth {
            return t.dataType == e.dataType;
          }
        }
        if e.dataType != Int {
          return false;
        }
        a.expression.evaluatedType := e.(isPointer := true);
        return true;
      }
      ok := e == t;
    }

    // ----- functions -----

    method AddFunction(name: string, e: Entry) returns (ok: bool)
      requires Valid()
      modifies scopeHandler`functionDeclarations
      ensures var r := Analysis.AddFunction(old(scopeHandler.functionDeclarations), name, e);
              ok == r.Some? && scopeHandler.functionDeclarations == if ok then r.value else old(scopeHandler.functionDeclarations)
    {
      if name !in scopeHandler.functionDeclarations {
        scopeHandler.AddFunctionDeclaration(name, e);
        return true;
      }
      var existing := scopeHandler.functionDeclarations[name];
      if existing.status == Defined || e.status == Defined {
        return false;
      }
      if |existing.signature.parameters| != |e.signature.parameters| {
        return false;
      }
      for i := 0 to |e.signature.parameters|
        invariant forall j :: 0 <= j < i ==> existing.signature.parameters[j].typ == e.signature.parameters[j].typ
      {
        if existing.signature.parameters[i].typ != e.signature.parameters[i].typ {
          assert TypesOf(existing.signature.parameters)[i] != TypesOf(e.signature.parameters)[i];
          return false;
        }
      }
      assert TypesOf(existing.signature.parameters) == TypesOf(e.signature.parameters);
      ok := existing.signature.typ == e.signature.typ;
    }

    // The parameters, in the scope just opened for a function.
    method ActOnParameters() returns (ok: bool)
      requires Valid() && VisibleTypes()[0] == map[]
      modifies scopeHandler.currentScope
      ensures Valid()
      ensures var s, outer := scopeHandler.currentScope, old(VisibleTypes())[1..];
              if (s.kind != Kind.Local && s.kind != Kind.Function) || s.contextData.None? then !ok
              else if s.kind == Kind.Local then ok && VisibleTypes() == old(VisibleTypes())
              else
                var names := ParameterTypes(s.contextData.value.parameters);
                ok == names.Some? && (ok ==> VisibleTypes() == [names.value] + outer)
    {
      var localScope := scopeHandler.CastCurrentToLocalScope();
      if localScope.None? || localScope.value.contextData.None? {
        return false;
      }
      if localScope.value.kind == Kind.Function {
        ok := DeclareParameters(localScope.value.contextData.value.parameters);
      } else {
        ok := true;
      }
    }

    method DeclareParameters(ps: seq<Variable>) returns (ok: bool)
      requires Valid() && VisibleTypes()[0] == map[] && scopeHandler.currentScope.kind == Kind.Function
      modifies scopeHandler.currentScope
      ensures Valid() && ok == ParameterTypes(ps).Some?
      ensures ok ==> VisibleTypes() == [ParameterTypes(ps).value] + old(VisibleTypes())[1..]
    {
      hide Stack.Valid, TypesIn, Stack.Names;
      ghost var outer := VisibleTypes()[1..];
      assert ps[..0] == [];
      for i := 0 to |ps|
        invariant Valid() && VisibleTypes() == [ParameterTypes(ps[..i]).GetOr(map[])] + outer
        invariant ParameterTypes(ps[..i]).Some?
      {
        ParameterTypesStep(ps, i);
        var declared := ActOnLocalDeclaration(ps[i]);
        if !declared {
          return false;
        }
      }
      assert ps[..|ps|] == ps;
      ok := true;
    }

    method ActOnReturnValue(returnValue: Type) returns (ok: bool)
      requires Valid()
      ensures var s := scopeHandler.currentScope;
              ok == ((s.kind == Kind.Local || s.kind == Kind.Function) && s.contextData.Some?
                     && (s.kind == Kind.Function || returnValue != NO_TYPE ==> returnValue == s.contextData.value.typ))
    {
      var localScope := scopeHandler.CastCurrentToLocalScope();
      if localScope.None? || localScope.value.contextData.None? {
        return false;
      }
      if localScope.value.kind == Kind.Function || (localScope.value.kind == Kind.Local && returnValue != NO_TYPE) {
        return localScope.value.contextData.value.typ == returnValue;
      }
      ok := true;
    }
  }

  lemma {:induction false} ParameterTypesStep(ps: seq<Variable>, i: nat)
    requires i < |ps| && ParameterTypes(ps[..i]).Some?
    ensures var names := ParameterTypes(ps[..i]).value;
            && ParameterTypes(ps[..i + 1]) == (if ps[i].name in names then None else Some(names[ps[i].name := ps[i].typ]))
            && (ps[i].name in names ==> ParameterTypes(ps).None?)
  {
    assert ps[..i + 1][..i] == ps[..i];
    if ps[i].name in ParameterTypes(ps[..i]).value {
      ParameterTypesNone(ps, i + 1);
    }
  }

  lemma {:induction false} ParameterTypesNone(ps: seq<Variable>, i: nat)
    requires i <= |ps| && ParameterTypes(ps[..i]).None?
    ensures ParameterTypes(ps).None?
    decreases |ps|
  {
    if i == |ps| {
      assert ps[..i] == ps;
    } else {
      assert ps[..|ps| - 1][..i] == ps[..i];
      ParameterTypesNone(ps[..|ps| - 1], i);
    }
  }
}
