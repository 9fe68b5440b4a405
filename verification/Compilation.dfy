/** What it means for a module to hold the lowered functions of a program. */
module Compilation {
  import opened Wrappers
  import opened Ast
  import opened Ir
  import opened Lowering
  import opened Semantics
  import opened DepthExact
  import opened Materialise
  import opened Relation

  // Before a body is lowered the generator knows the globals and nothing else.
  ghost predicate GlobalsKnown(P: Program, g: Gen) {
    && ScopesIn(g.scopes, |g.vars|) && g.blocks == [] && |g.scopes| == 1 && g.scopes[0].Keys == P.globals.Keys
    && (forall n :: n in g.scopes[0] ==> g.vars[g.scopes[0][n]].variable == Global(n))
    && forall k :: 0 <= k < |g.vars| ==>
         && g.vars[k].variable.Global? && g.vars[k].variable.name in P.globals
         && g.vars[k] == Slot(Global(g.vars[k].variable.name), I32, true, 0)
         && g.scopes[0][g.vars[k].variable.name] == k
  }

  // starts[f]: the generator before the body of f.
  ghost predicate FunctionLowered(P: Program, m: Module, starts: map<string, Gen>, name: string) {
    name in P.functions ==>
      && name in starts
      && var d, g := P.functions[name], starts[name];
      && GlobalsKnown(P, g) && name in m.functions
      && LowerBody(P.signatures, g, d.parameters, d.body).Some?
      && m.functions[name] == LowerBody(P.signatures, g, d.parameters, d.body).value.blocks
  }

  ghost predicate FunctionCompiled(P: Program, m: Module, starts: map<string, Gen>, name: string) {
    && FunctionLowered(P, m, starts, name)
    && (name in P.functions ==>
          CheckBody(starts[name].scopes, |starts[name].vars|, P.functions[name].parameters, P.functions[name].body).Some?)
  }

  ghost predicate GlobalsDistinct(P: Program) {
    forall a, b :: a in P.globals && b in P.globals && P.globals[a] == P.globals[b] ==> a == b
  }

  ghost predicate Compiled(P: Program, m: Module, starts: map<string, Gen>) {
    Exact(P) && GlobalsDistinct(P) && forall name :: FunctionCompiled(P, m, starts, name)
  }
}
