/**
  What a block does to the scopes: the parser, while it reads a block, and the
  generator, while it lowers it, push, declare and pop as the statements say.
  These runs have the shape that the promises about scopes ask for.
 */
module Traces {
  import opened Wrappers
  import opened Ast
  import opened ScopeChain
  import opened Lowering
  import opened Analysis
  import opened Analyzer

  function StatementsSteps<C>(ss: seq<Statement>): seq<Step<Variable, C>>
    decreases ss, 0
  {
    if ss == [] then [] else StatementSteps(ss[0]) + StatementsSteps(ss[1..])
  }

  function StatementSteps<C>(s: Statement): seq<Step<Variable, C>>
    decreases s, 1
  {
    match s
    case Declaration(v) => [DeclareStep(v.name, v)]
    case Conditional(chain) => ChainSteps(chain)
    case _ => []
  }

  function ChainSteps<C>(chain: seq<Branch>): seq<Step<Variable, C>>
    decreases chain, 0
  {
    if chain == [] then [] else BranchSteps(chain[0]) + ChainSteps(chain[1..])
  }

  function BranchSteps<C>(b: Branch): seq<Step<Variable, C>>
    decreases b, 2
  {
    [PushStep(Local)] + BlockSteps(b.block) + [PopStep]
  }

  // Between the push and the pop of a block.
  function BlockSteps<C>(b: Block): seq<Step<Variable, C>>
    decreases b, 1
  {
    StatementsSteps(b.statements)
  }

  function ParameterSteps<C>(ps: seq<Variable>): seq<Step<Variable, C>> {
    if ps == [] then [] else [DeclareStep(ps[0].name, ps[0])] + ParameterSteps(ps[1..])
  }

  // In the scope of a function: its parameters, then its block.
  function BodySteps<C>(ps: seq<Variable>, b: Block): seq<Step<Variable, C>> { ParameterSteps(ps) + BlockSteps(b) }

  // ----- the shape -----

  lemma {:induction false} OpenAppend<V, C>(a: seq<Step<V, C>>, b: seq<Step<V, C>>)
    ensures Open(a + b) == Open(a) + Open(b)
    decreases |b|
  {
    if b == [] {
      assert a + b == a;
    } else {
      assert (a + b)[..|a + b| - 1] == a + b[..|b| - 1];
      OpenAppend(a, b[..|b| - 1]);
    }
  }

  lemma {:induction false} RunAppend<V, C>(s: Stack<V, C>, a: seq<Step<V, C>>, b: seq<Step<V, C>>)
    requires s.Valid()
    ensures Run(s, a + b) == Run(Run(s, a), b)
    decreases |b|
  {
    if b == [] {
      assert a + b == a;
    } else {
      assert (a + b)[..|a + b| - 1] == a + b[..|b| - 1];
      RunAppend(s, a, b[..|b| - 1]);
    }
  }

  lemma {:induction false} NestedAppend<V(!new), C(!new)>(a: seq<Step<V, C>>, b: seq<Step<V, C>>)
    requires Nested(a) && Nested(b)
    ensures Nested(a + b)
  {
    var ab := a + b;
    forall n | 0 <= n <= |ab| ensures Open(ab[..n]) >= 0 {
      if n <= |a| {
        assert ab[..n] == a[..n];
      } else {
        assert ab[..n] == a + b[..n - |a|] && a[..|a|] == a;
        OpenAppend(a, b[..n - |a|]);
      }
    }
  }

  // Of the shape, with every scope closed again.
  ghost predicate Closed<V(!new), C(!new)>(steps: seq<Step<V, C>>) { BodyShaped(steps) && Open(steps) == 0 }

  lemma {:induction false} ClosedNone<V(!new), C(!new)>()
    ensures Closed<V, C>([])
  {}

  lemma {:induction false} ClosedAppend<V(!new), C(!new)>(a: seq<Step<V, C>>, b: seq<Step<V, C>>)
    requires Closed(a) && Closed(b)
    ensures Closed(a + b)
  {
    NestedAppend(a, b);
    OpenAppend(a, b);
  }

  lemma {:induction false} ClosedDeclare<V(!new), C(!new)>(name: string, v: V)
    ensures Closed<V, C>([DeclareStep(name, v)])
  {
    var steps: seq<Step<V, C>> := [DeclareStep(name, v)];
    assert steps[..0] == [] && steps[..1] == steps && Open<V, C>([]) == 0 && Open(steps) == 0;
  }

  lemma {:induction false} ClosedScope<V(!new), C(!new)>(steps: seq<Step<V, C>>)
    requires Closed(steps)
    ensures Closed([PushStep(Local)] + steps + [PopStep])
  {
    var push, all := [PushStep(Local)], [PushStep(Local)] + steps + [PopStep];
    assert push[..0] == [] && Open(push) == 1;
    forall n | 0 <= n <= |all| ensures Open(all[..n]) >= 0 && (n == |all| ==> Open(all[..n]) == 0) {
      if n == 0 {
        assert all[..n] == [];
      } else if n <= |steps| + 1 {
        assert all[..n] == push + steps[..n - 1];
        OpenAppend(push, steps[..n - 1]);
      } else {
        assert all[..n][..n - 1] == push + steps && steps[..|steps|] == steps;
        OpenAppend(push, steps);
      }
    }
    assert all[..|all|] == all;
  }

  lemma {:induction false} StatementsClosed<C(!new)>(ss: seq<Statement>)
    ensures Closed(StatementsSteps<C>(ss))
    decreases ss, 0
  {
    if ss == [] {
      ClosedNone<Variable, C>();
    } else {
      StatementClosed<C>(ss[0]);
      StatementsClosed<C>(ss[1..]);
      ClosedAppend(StatementSteps<C>(ss[0]), StatementsSteps<C>(ss[1..]));
    }
  }

  lemma {:induction false} StatementClosed<C(!new)>(s: Statement)
    ensures Closed(StatementSteps<C>(s))
    decreases s, 1
  {
    match s
    case Declaration(v) => ClosedDeclare<Variable, C>(v.name, v);
    case Conditional(chain) => ChainClosed<C>(chain);
    case _ => ClosedNone<Variable, C>();
  }

  lemma {:induction false} ChainClosed<C(!new)>(chain: seq<Branch>)
    ensures Closed(ChainSteps<C>(chain))
    decreases chain, 0
  {
    if chain == [] {
      ClosedNone<Variable, C>();
    } else {
      BranchClosed<C>(chain[0]);
      ChainClosed<C>(chain[1..]);
      ClosedAppend(BranchSteps<C>(chain[0]), ChainSteps<C>(chain[1..]));
    }
  }

  lemma {:induction false} BranchClosed<C(!new)>(b: Branch)
    ensures Closed(BranchSteps<C>(b))
    decreases b, 2
  {
    BlockClosed<C>(b.block);
    ClosedScope(BlockSteps<C>(b.block));
  }

  lemma {:induction false} BlockClosed<C(!new)>(b: Block)
    ensures Closed(BlockSteps<C>(b))
    decreases b, 1
  {
    StatementsClosed<C>(b.statements);
  }

  lemma {:induction false} ParametersClosed<C(!new)>(ps: seq<Variable>)
    ensures Closed(ParameterSteps<C>(ps))
    decreases |ps|
  {
    if ps == [] {
      ClosedNone<Variable, C>();
    } else {
      ClosedDeclare<Variable, C>(ps[0].name, ps[0]);
      ParametersClosed<C>(ps[1..]);
      ClosedAppend([DeclareStep(ps[0].name, ps[0])], ParameterSteps<C>(ps[1..]));
    }
  }

  // At every point of a body each scope carries the context of the function
  // and finds the function's scope; behind the body everything is as before.
  lemma {:induction false} BodyTrace<C(!new)>(s: Stack<Variable, C>, c: C, ps: seq<Variable>, b: Block, n: nat)
    requires s.Valid() && n <= |BodySteps<C>(ps, b)|
    ensures var steps, s0 := BodySteps<C>(ps, b), s.Prepare(c).Push(Function);
            && BodyShaped(steps) && Open(steps) == 0
            && InBody(s, c, Run(s0, steps[..n]), Open(steps[..n])) && Enclosing(Run(s0, steps[..n]).levels) == Some(Open(steps[..n]))
            && Run(s0, steps).Pop() == s.(next := None)
  {
    var steps := BodySteps<C>(ps, b);
    ParametersClosed<C>(ps);
    BlockClosed<C>(b);
    ClosedAppend(ParameterSteps<C>(ps), BlockSteps<C>(b));
    ShapedPrefix(steps, n);
    BodyContext(s, c, steps[..n]);
    BodyContext(s, c, steps);
  }

  lemma {:induction false} ShapedPrefix<V(!new), C(!new)>(steps: seq<Step<V, C>>, n: nat)
    requires BodyShaped(steps) && n <= |steps|
    ensures BodyShaped(steps[..n])
  {
    forall k | 0 <= k <= n ensures Open(steps[..n][..k]) >= 0 {
      assert steps[..n][..k] == steps[..k];
    }
  }

  // ----- the effect -----

  // The names of each scope, innermost first.
  function Keys<V>(scopes: seq<map<string, V>>): (r: seq<set<string>>)
    ensures |r| == |scopes|
    ensures forall i :: 0 <= i < |r| ==> r[i] == scopes[i].Keys
  {
    seq(|scopes|, i requires 0 <= i < |scopes| => scopes[i].Keys)
  }

  lemma {:induction false} BranchRestores<C(!new)>(s: Stack<Variable, C>, b: Branch)
    requires s.Valid()
    ensures Run(s, BranchSteps<C>(b)).levels == s.levels
  {
    var push: seq<Step<Variable, C>>, inner, pop: seq<Step<Variable, C>> := [PushStep(Local)], BlockSteps<C>(b.block), [PopStep];
    BlockClosed<C>(b.block);
    RunAppend(s, push + inner, pop);
    RunAppend(s, push, inner);
    RunOne(s, PushStep(Local));
    RunOne(Run(s.Push(Local), inner), PopStep);
    BalancedRestores(s, Local, inner);
  }

  lemma {:induction false} RunOne<V, C>(s: Stack<V, C>, step: Step<V, C>)
    requires s.Valid()
    ensures Run(s, [step]) == Apply(s, step)
  {
    assert [step][..0] == [] && Run<V, C>(s, []) == s;
  }

  lemma {:induction false} ChainRestores<C(!new)>(s: Stack<Variable, C>, chain: seq<Branch>)
    requires s.Valid()
    ensures Run(s, ChainSteps<C>(chain)).levels == s.levels
    decreases |chain|
  {
    if chain != [] {
      RunAppend(s, BranchSteps<C>(chain[0]), ChainSteps<C>(chain[1..]));
      BranchRestores(s, chain[0]);
      ChainRestores(Run(s, BranchSteps<C>(chain[0])), chain[1..]);
    }
  }

  lemma {:induction false} SameNames<V, C>(s: Stack<V, C>, t: Stack<V, C>)
    requires s.levels == t.levels
    ensures s.Names() == t.Names()
  {}

  lemma {:induction false} DeclaredNames<V, C>(s: Stack<V, C>, name: string, v: V)
    requires s.Valid()
    ensures s.Declare(name, v).Names() == Declare(s.Names(), name, v)
  {}

  // While the analyzer reads statements, its scopes bind the types that the
  // run of their steps leaves.
  lemma {:induction false} AnalysisTraced<C(!new)>(F: Signatures, s: Stack<Variable, C>, ret: Type, ss: seq<Statement>)
    requires s.Valid() && AnnotateStatements(F, TypesIn(s.Names()), ret, ss).Some?
    ensures TypesIn(Run(s, StatementsSteps<C>(ss)).Names()) == AnnotateStatements(F, TypesIn(s.Names()), ret, ss).value.1
    decreases |ss|
  {
    if ss != [] {
      var t := Run(s, StatementSteps<C>(ss[0]));
      RunAppend(s, StatementSteps<C>(ss[0]), StatementsSteps<C>(ss[1..]));
      AnalyzedOne(F, s, ret, ss[0]);
      AnalysisTraced(F, t, ret, ss[1..]);
    }
  }

  lemma {:induction false} AnalyzedOne<C(!new)>(F: Signatures, s: Stack<Variable, C>, ret: Type, st: Statement)
    requires s.Valid() && AnnotateStatement(F, TypesIn(s.Names()), ret, st).Some?
    ensures TypesIn(Run(s, StatementSteps<C>(st)).Names()) == AnnotateStatement(F, TypesIn(s.Names()), ret, st).value.1
  {
    match st
    case Declaration(v) =>
      RunOne(s, DeclareStep(v.name, v));
      DeclaredNames(s, v.name, v);
      DeclaredTypes(s.Names(), v);
    case Conditional(chain) =>
      ChainRestores(s, chain);
      SameNames(Run(s, ChainSteps<C>(chain)), s);
    case _ =>
  }

  // The same for the generator, with the names of its scopes.
  lemma {:induction false} LoweringTraced<C(!new)>(F: Signatures, s: Stack<Variable, C>, g: Gen, ss: seq<Statement>)
    requires s.Valid() && WF(g) && Keys(s.Names()) == Keys(g.scopes) && LowerStatements(F, g, ss).Some?
    ensures Keys(Run(s, StatementsSteps<C>(ss)).Names()) == Keys(LowerStatements(F, g, ss).value.scopes)
    decreases |ss|
  {
    if ss != [] {
      var t := Run(s, StatementSteps<C>(ss[0]));
      RunAppend(s, StatementSteps<C>(ss[0]), StatementsSteps<C>(ss[1..]));
      LoweredOne(F, s, g, ss[0]);
      LoweringTraced(F, t, LowerStatement(F, g, ss[0]).value, ss[1..]);
    }
  }

  lemma {:induction false} LoweredOne<C(!new)>(F: Signatures, s: Stack<Variable, C>, g: Gen, st: Statement)
    requires s.Valid() && WF(g) && Keys(s.Names()) == Keys(g.scopes) && LowerStatement(F, g, st).Some?
    ensures Keys(Run(s, StatementSteps<C>(st)).Names()) == Keys(LowerStatement(F, g, st).value.scopes)
  {
    match st
    case Declaration(v) =>
      RunOne(s, DeclareStep(v.name, v));
      DeclaredNames(s, v.name, v);
      DeclaredKeys(s.Names(), g.scopes, v.name, v, |g.vars|);
    case Conditional(chain) =>
      ChainRestores(s, chain);
      SameNames(Run(s, ChainSteps<C>(chain)), s);
    case _ =>
  }

  lemma {:induction false} DeclaredKeys<V, W>(a: seq<map<string, V>>, b: seq<map<string, W>>, name: string, v: V, w: W)
    requires Keys(a) == Keys(b)
    ensures Keys(Declare(a, name, v)) == Keys(Declare(b, name, w))
  {
    var a', b' := Declare(a, name, v), Declare(b, name, w);
    assert |a| == |Keys(a)| == |Keys(b)| == |b|;
    forall i | 0 <= i < |a| ensures a'[i].Keys == b'[i].Keys {
      assert Keys(a)[i] == a[i].Keys && Keys(b)[i] == b[i].Keys;
      if i == 0 {
        assert a'[0].Keys == a[0].Keys + {name} && b'[0].Keys == b[0].Keys + {name};
      }
    }
  }

  lemma {:induction false} DeclaredTypes(names: seq<map<string, Variable>>, v: Variable)
    ensures v.name !in (if names == [] then map[] else names[0]) ==>
              TypesIn(Declare(names, v.name, v)) == Declare(TypesIn(names), v.name, v.typ)
  {
    if names != [] && v.name !in names[0] {
      assert TypesAt(names[0][v.name := v]) == TypesAt(names[0])[v.name := v.typ];
      assert Declare(names, v.name, v) == names[0 := names[0][v.name := v]];
    }
  }
}
