/**
  The scope chain shared by the analyzer and the generator
  (include/Support/Scope.h): scopes linked to their parents, and a handler
  that pushes, pops and prepares them. Every method is proved against a stack
  of levels; what runs of the handler keep is proved about the stack.
 */
module ScopeChain {
  import opened Wrappers
  import opened Lowering

  datatype Kind = Base | Local | Function | Global

  // One scope, as a value.
  datatype Level<V, C> = Level(kind: Kind, context: Option<C>, names: map<string, V>)

  // The stack, innermost level first, and the context for the next scope.
  datatype Stack<V, C> = Stack(levels: seq<Level<V, C>>, next: Option<C>) {
    ghost predicate Valid() { levels != [] }

    function Names(): (r: seq<map<string, V>>)
      ensures |r| == |levels|
      ensures forall i :: 0 <= i < |r| ==> r[i] == levels[i].names
    {
      seq(|levels|, i requires 0 <= i < |levels| => levels[i].names)
    }

    function Push(kind: Kind): Stack<V, C> {
      match kind
      case Base => this.(levels := [Level(Base, None, map[])] + levels)
      case Global => this.(levels := [Level(Global, None, map[])])
      case _ => this.(levels := [Level(kind, next, map[])] + levels)
    }

    function Pop(): Stack<V, C>
      requires Valid()
    {
      if |levels| == 1 || levels[0].kind == Global then this
      else Stack(levels[1..], if levels[0].kind == Function then None else next)
    }

    function Prepare(context: C): Stack<V, C> { this.(next := Some(context)) }

    // An existing entry stays.
    function Declare(name: string, v: V): Stack<V, C>
      requires Valid()
    {
      if name in levels[0].names then this
      else this.(levels := levels[0 := levels[0].(names := levels[0].names[name := v])])
    }
  }

  // ----- the linked scopes -----

  class Scope<V, C> {
    var variableDeclarations: map<string, V>
    const parentScope: Scope?<V, C>
    const kind: Kind
    const contextData: Option<C>

    // This scope and its ancestors.
    ghost const chain: seq<Scope<V, C>>

    ghost predicate Valid()
      decreases |chain|
    {
      && chain != [] && chain[0] == this && this !in chain[1..]
      && if parentScope == null then |chain| == 1 else parentScope.chain == chain[1..] && parentScope.Valid()
    }

    constructor (kind: Kind, contextData: Option<C>, parentScope: Scope?<V, C>)
      requires parentScope != null ==> parentScope.Valid()
      ensures Valid() && this.kind == kind && this.contextData == contextData && this.parentScope == parentScope
      ensures variableDeclarations == map[]
    {
      this.variableDeclarations := map[];
      this.kind := kind;
      this.contextData := contextData;
      this.parentScope := parentScope;
      this.chain := [this] + (if parentScope == null then [] else parentScope.chain);
    }

    ghost function AsLevel(): Level<V, C>
      reads this
    {
      Level(kind, contextData, variableDeclarations)
    }

    ghost function Levels(): (r: seq<Level<V, C>>)
      reads chain
      ensures |r| == |chain|
      ensures forall i :: 0 <= i < |r| ==> r[i] == chain[i].AsLevel()
    {
      seq(|chain|, i requires 0 <= i < |chain| reads chain => chain[i].AsLevel())
    }

    method AddVariableDeclaration(name: string, variable: V)
      requires Valid()
      modifies this
      ensures variableDeclarations == old(if name in variableDeclarations then variableDeclarations else variableDeclarations[name := variable])
    {
      if name !in variableDeclarations {
        variableDeclarations := variableDeclarations[name := variable];
      }
    }

    function GetDeclaredVariableCurrentScope(name: string): (r: Option<V>)
      reads this
      ensures r == if name in AsLevel().names then Some(AsLevel().names[name]) else None
    {
      if name in variableDeclarations then Some(variableDeclarations[name]) else None
    }

    // The innermost declaration wins.
    function GetVisibleDeclaredVariable(name: string): (r: Option<V>)
      requires Valid()
      reads chain
      ensures r == Visible(Levels(), name)
    {
      assert parentScope != null ==> Levels()[1..] == parentScope.Levels();
      var current := GetDeclaredVariableCurrentScope(name);
      if current.Some? then current else GetDeclaredVariableParentScope(name, parentScope)
    }

    static function GetDeclaredVariableParentScope(name: string, scope: Scope?<V, C>): (r: Option<V>)
      requires scope != null ==> scope.Valid()
      reads if scope == null then [] else scope.chain
      ensures r == if scope == null then None else Visible(scope.Levels(), name)
      decreases if scope == null then 0 else |scope.chain|
    {
      if scope == null then None
      else
        assert scope.parentScope != null ==> scope.Levels()[1..] == scope.parentScope.Levels();
        if name in scope.variableDeclarations then Some(scope.variableDeclarations[name])
        else GetDeclaredVariableParentScope(name, scope.parentScope)
    }
  }

  // Innermost-first search.
  function Visible<V, C>(levels: seq<Level<V, C>>, name: string): Option<V> {
    if levels == [] then None
    else if name in levels[0].names then Some(levels[0].names[name])
    else Visible(levels[1..], name)
  }

  // The nearest function scope.
  function Enclosing<V, C>(levels: seq<Level<V, C>>): (r: Option<nat>)
    ensures r.Some? ==> r.value < |levels| && levels[r.value].kind == Function
    ensures forall i :: 0 <= i < (if r.Some? then r.value else |levels|) ==> levels[i].kind != Function
  {
    if levels == [] then None
    else if levels[0].kind == Function then Some(0)
    else
      var r := Enclosing(levels[1..]);
      if r.Some? then Some(r.value + 1) else None
  }

  class ScopeHandler<V, F, C> {
    var contextDataForNextLocalScope: Option<C>
    const globalScope: Scope<V, C>
    var functionDeclarations: map<string, F>
    var currentScope: Scope<V, C>

    ghost predicate Valid()
      reads this
    {
      currentScope.Valid()
    }

    ghost function Repr(): set<object>
      reads this
    {
      {this} + (set s: object | s in currentScope.chain)
    }

    ghost function AsStack(): Stack<V, C>
      reads this, currentScope.chain
    {
      Stack(currentScope.Levels(), contextDataForNextLocalScope)
    }

    constructor ()
      ensures Valid() && fresh(Repr()) && AsStack() == Stack([Level(Global, None, map[])], None) && functionDeclarations == map[]
    {
      var scope := new Scope<V, C>(Global, None, null);
      globalScope := scope;
      currentScope := scope;
      contextDataForNextLocalScope := None;
      functionDeclarations := map[];
    }

    method PrepareFunctionScope(contextData: C)
      requires Valid()
      modifies this`contextDataForNextLocalScope
      ensures Valid() && AsStack() == old(AsStack().Prepare(contextData))
    {
      contextDataForNextLocalScope := Some(contextData);
    }

    method Push(kind: Kind)
      requires Valid()
      modifies this`currentScope
      ensures Valid() && fresh(currentScope) && AsStack() == old(AsStack().Push(kind))
      ensures kind != Global ==> currentScope.parentScope == old(currentScope)
    {
      ghost var outer := currentScope.Levels();
      var newChildScope;
      match kind {
        case Base => newChildScope := new Scope<V, C>(Base, None, currentScope);
        case Local => newChildScope := new Scope<V, C>(Local, contextDataForNextLocalScope, currentScope);
        case Function => newChildScope := new Scope<V, C>(Function, contextDataForNextLocalScope, currentScope);
        case Global => newChildScope := new Scope<V, C>(Global, None, null);
      }
      currentScope := newChildScope;
      assert kind != Global ==> currentScope.Levels()[1..] == outer;
    }

    method Pop()
      requires Valid()
      modifies this`currentScope, this`contextDataForNextLocalScope
      ensures Valid() && AsStack() == old(AsStack().Pop())
      ensures currentScope == old(currentScope) || currentScope == old(currentScope.parentScope)
    {
      if currentScope.parentScope == null { return; }
      match currentScope.kind {
        case Base => {}
        case Local => {}
        case Function => contextDataForNextLocalScope := None;
        case Global => return;
      }
      assert currentScope.Levels()[1..] == currentScope.parentScope.Levels();
      currentScope := currentScope.parentScope;
    }

    function CastCurrentToLocalScope(): (r: Option<Scope<V, C>>)
      reads this
      ensures r.Some? <==> currentScope.kind == Local || currentScope.kind == Function
      ensures r.Some? ==> r.value == currentScope
    {
      if currentScope.kind == Local || currentScope.kind == Function then Some(currentScope) else None
    }

    // Declares a variable in the current scope.
    method Declare(name: string, variable: V)
      requires Valid()
      modifies currentScope
      ensures Valid() && AsStack() == old(AsStack().Declare(name, variable))
    {
      currentScope.AddVariableDeclaration(name, variable);
      assert forall i :: 0 < i < |currentScope.chain| ==> currentScope.chain[i] == currentScope.chain[1..][i - 1];
    }

    // The first entry of a name stays.
    method AddFunctionDeclaration(name: string, declaration: F)
      modifies this`functionDeclarations
      ensures functionDeclarations == old(if name in functionDeclarations then functionDeclarations else functionDeclarations[name := declaration])
    {
      if name !in functionDeclarations {
        functionDeclarations := functionDeclarations[name := declaration];
      }
    }

    static function FindFunctionFrom(scope: Scope<V, C>): (r: Option<Scope<V, C>>)
      requires scope.Valid()
      reads scope.chain
      ensures r.Some? <==> Enclosing(scope.Levels()).Some?
      ensures r.Some? ==> r.value == scope.chain[Enclosing(scope.Levels()).value]
      decreases |scope.chain|
    {
      assert scope.parentScope != null ==> scope.Levels()[1..] == scope.parentScope.Levels();
      if scope.kind == Function then Some(scope)
      else if scope.parentScope == null then None
      else FindFunctionFrom(scope.parentScope)
    }
  }

  // ----- runs of the handler -----

  datatype Step<V, C> = PushStep(kind: Kind) | PopStep | PrepareStep(context: C) | DeclareStep(name: string, variable: V)

  function Apply<V, C>(s: Stack<V, C>, step: Step<V, C>): (r: Stack<V, C>)
    requires s.Valid()
    ensures r.Valid()
  {
    match step
    case PushStep(kind) => s.Push(kind)
    case PopStep => s.Pop()
    case PrepareStep(context) => s.Prepare(context)
    case DeclareStep(name, v) => s.Declare(name, v)
  }

  function Run<V, C>(s: Stack<V, C>, steps: seq<Step<V, C>>): (r: Stack<V, C>)
    requires s.Valid()
    ensures r.Valid()
    decreases |steps|
  {
    if steps == [] then s else Apply(Run(s, steps[..|steps| - 1]), steps[|steps| - 1])
  }

  // Scopes open at the end of a run, not counting those open before it.
  function Open<V, C>(steps: seq<Step<V, C>>): int
    decreases |steps|
  {
    if steps == [] then 0
    else
      var n := Open(steps[..|steps| - 1]);
      match steps[|steps| - 1]
      case PushStep(_) => n + 1
      case PopStep => n - 1
      case _ => n
  }

  // A run that never pops what it did not push.
  ghost predicate Nested<V(!new), C(!new)>(steps: seq<Step<V, C>>) {
    && (forall n :: 0 <= n <= |steps| ==> Open(steps[..n]) >= 0)
    && (forall i :: 0 <= i < |steps| ==> steps[i] != PushStep(Global))
  }

  lemma {:induction false} NestedPrefix<V(!new), C(!new)>(steps: seq<Step<V, C>>)
    requires Nested(steps) && steps != []
    ensures Nested(steps[..|steps| - 1]) && Open(steps) >= 0
  {
    var init := steps[..|steps| - 1];
    forall n | 0 <= n <= |init| ensures Open(init[..n]) >= 0 {
      assert init[..n] == steps[..n];
    }
    assert steps[..|steps|] == steps;
  }

  ghost predicate Extends<V(!new), C(!new)>(a: Level<V, C>, b: Level<V, C>) {
    b.kind == a.kind && b.context == a.context && forall n :: n in a.names ==> n in b.names && b.names[n] == a.names[n]
  }

  // The stack has grown by k levels, and what was below is as it was.
  ghost predicate Above<V(!new), C(!new)>(s: Stack<V, C>, t: Stack<V, C>, k: nat)
    requires s.Valid()
  {
    && |t.levels| == |s.levels| + k && t.levels[k + 1..] == s.levels[1..] && Extends(s.levels[0], t.levels[k])
    && forall i :: 0 <= i < k ==> t.levels[i].kind != Global
  }

  lemma {:induction false} AboveStep<V(!new), C(!new)>(s: Stack<V, C>, t0: Stack<V, C>, step: Step<V, C>, k: nat)
    requires s.Valid() && t0.Valid() && Above(s, t0, k) && step != PushStep(Global) && (step.PopStep? ==> k > 0)
    ensures Above(s, Apply(t0, step), match step case PushStep(_) => k + 1 case PopStep => k - 1 case _ => k)
  {
    var t := Apply(t0, step);
    match step
    case PushStep(kind) =>
      assert t.levels[1..] == t0.levels && t.levels[k + 2..] == t0.levels[k + 1..];
    case PopStep =>
      assert t.levels == t0.levels[1..] && t.levels[k..] == t0.levels[k + 1..];
    case PrepareStep(_) =>
    case DeclareStep(_, _) =>
      assert t.levels[k + 1..] == t0.levels[k + 1..];
  }

  // A nested run leaves every outer level alone; only its own level gains
  // names, and no existing one changes.
  lemma {:induction false} NestedRun<V(!new), C(!new)>(s: Stack<V, C>, steps: seq<Step<V, C>>)
    requires s.Valid() && Nested(steps)
    ensures Open(steps) >= 0 && Above(s, Run(s, steps), Open(steps))
    decreases |steps|
  {
    if steps != [] {
      hide Apply, Above;
      var init, step := steps[..|steps| - 1], steps[|steps| - 1];
      NestedPrefix(steps);
      NestedRun(s, init);
      AboveStep(s, Run(s, init), step, Open(init));
    }
  }

  // Push, a balanced run, pop: every binding is as before.
  lemma {:induction false} BalancedRestores<V(!new), C(!new)>(s: Stack<V, C>, kind: Kind, steps: seq<Step<V, C>>)
    requires s.Valid() && kind != Global && Nested(steps) && Open(steps) == 0
    ensures Run(s.Push(kind), steps).Pop().levels == s.levels
  {
    NestedRun(s.Push(kind), steps);
  }

  // ----- the context of a function -----

  // Inside a body the parser declares variables and nests local scopes.
  ghost predicate BodyShaped<V(!new), C(!new)>(steps: seq<Step<V, C>>) {
    && Nested(steps)
    && forall i :: 0 <= i < |steps| ==> steps[i].DeclareStep? || steps[i].PopStep? || steps[i] == PushStep(Local)
  }

  // k local scopes are open in the body of a function with context c.
  ghost predicate InBody<V(!new), C(!new)>(s: Stack<V, C>, c: C, t: Stack<V, C>, k: int) {
    && k >= 0 && |t.levels| == |s.levels| + 1 + k && t.next == Some(c) && t.levels[k + 1..] == s.levels
    && (forall i :: 0 <= i <= k ==> t.levels[i].context == Some(c))
    && (forall i :: 0 <= i < k ==> t.levels[i].kind == Local) && t.levels[k].kind == Function
  }

  lemma {:induction false} BodyStep<V(!new), C(!new)>(s: Stack<V, C>, c: C, t: Stack<V, C>, k: int, step: Step<V, C>)
    requires InBody(s, c, t, k) && (step.DeclareStep? || (step.PopStep? && k > 0) || step == PushStep(Local))
    ensures InBody(s, c, Apply(t, step), if step.PushStep? then k + 1 else if step.PopStep? then k - 1 else k)
  {
    var t' := Apply(t, step);
    match step
    case PushStep(kind) =>
      assert t'.levels[1..] == t.levels && t'.levels[k + 2..] == t.levels[k + 1..];
    case PopStep =>
      assert t'.levels == t.levels[1..] && t'.levels[k..] == t.levels[k + 1..];
    case DeclareStep(_, _) =>
      assert t'.levels[k + 1..] == t.levels[k + 1..];
  }

  // Every scope of a body carries the context of its function and finds the
  // function's scope; once that is popped nothing of it is left.
  lemma {:induction false} BodyContext<V(!new), C(!new)>(s: Stack<V, C>, c: C, steps: seq<Step<V, C>>)
    requires s.Valid() && BodyShaped(steps)
    ensures var t, k := Run(s.Prepare(c).Push(Function), steps), Open(steps);
            && InBody(s, c, t, k) && Enclosing(t.levels) == Some(k)
            && (k == 0 ==> t.Pop() == s.(next := None))
    decreases |steps|
  {
    var s0 := s.Prepare(c).Push(Function);
    var t, k := Run(s0, steps), Open(steps);
    if steps == [] {
      assert t.levels[1..] == s.levels;
    } else {
      var init := steps[..|steps| - 1];
      NestedPrefix(steps);
      BodyContext(s, c, init);
      BodyStep(s, c, Run(s0, init), Open(init), steps[|steps| - 1]);
    }
    EnclosingAt(t.levels, k);
  }

  lemma {:induction false} EnclosingAt<V, C>(levels: seq<Level<V, C>>, k: nat)
    requires k < |levels| && levels[k].kind == Function && forall i :: 0 <= i < k ==> levels[i].kind != Function
    ensures Enclosing(levels) == Some(k)
    decreases k
  {
    if k > 0 {
      EnclosingAt(levels[1..], k - 1);
    }
  }

  // The stack's search is the lookup of the lowering.
  lemma {:induction false} VisibleIsLookup<V, C>(s: Stack<V, C>, name: string)
    ensures Visible(s.levels, name) == LookupIn(s.Names(), name)
    decreases |s.levels|
  {
    if s.levels != [] {
      var s' := s.(levels := s.levels[1..]);
      assert s.Names()[1..] == s'.Names();
      VisibleIsLookup(s', name);
    }
  }
}
