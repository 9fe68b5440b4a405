/**
  The items of a compilation unit and their lowering: global variables,
  function declarations, bodies.
 */
module Items {
  import opened Wrappers
  import opened Ast
  import opened Ir
  import opened Lowering

  datatype Constant = ConstInteger(digits: string) | ConstString(text: string)

  datatype Item =
    | GlobalItem(variable: Variable, initial: Option<Constant>)
    | FunctionItem(name: string, signature: Signature)
    | BodyItem(name: string, block: Block)

  // The generator between items. `initial` holds the global variables'
  // initialisers, in order; the builder comes with the first body.
  datatype UnitGen = UnitGen(gen: Gen, functions: Signatures, blocks: map<string, seq<BasicBlock>>, initial: seq<Val>, hasBuilder: bool)

  const EMPTY_UNIT := UnitGen(Gen([], 0, 0, [], [map[]]), map[], map[], [], false)

  ghost predicate UnitWF(u: UnitGen) {
    ScopesIn(u.gen.scopes, |u.gen.vars|)
  }

  // No initialiser: the variable is defined elsewhere.
  function InitialValue(c: Option<Constant>): Option<Val> {
    match c
    case None => Some(Undef)
    case Some(ConstString(_)) => None
    case Some(ConstInteger(digits)) =>
      var n :- Stoi(digits);
      Some(IntV(n))
  }

  function LowerGlobal(u: UnitGen, v: Variable, c: Option<Constant>): (r: Option<UnitGen>)
    requires UnitWF(u)
    ensures r.Some? ==> UnitWF(r.value)
  {
    var ty :- GetType(v.typ);
    var value :- InitialValue(c);
    if v.typ.isPointer && !u.hasBuilder then None
    else
      var slot := Slot(Global(v.name), ty, true, v.typ.pointerDepth);
      Some(u.(gen := u.gen.(vars := u.gen.vars + [slot], scopes := Declare(u.gen.scopes, v.name, |u.gen.vars|)),
              initial := u.initial + [value]))
  }

  predicate TypesKnown(ps: seq<Variable>, typ: Type) {
    GetType(typ).Some? && forall p :: p in ps ==> GetType(p.typ).Some?
  }

  function LowerFunction(u: UnitGen, name: string, s: Signature): Option<UnitGen> {
    if !TypesKnown(s.parameters, s.typ) then None
    else Some(if name in u.functions then u else u.(functions := u.functions[name := s]))
  }

  function LowerBodyItem(u: UnitGen, name: string, b: Block): (r: Option<UnitGen>)
    requires UnitWF(u)
    ensures r.Some? ==> UnitWF(r.value)
  {
    if name !in u.functions then None
    else
      var start := u.gen.(blocks := if name in u.blocks then u.blocks[name] else []);
      var g :- LowerBody(u.functions, start, u.functions[name].parameters, b);
      Some(u.(gen := g.(blocks := []), blocks := u.blocks[name := g.blocks], hasBuilder := true))
  }

  function LowerItem(u: UnitGen, i: Item): (r: Option<UnitGen>)
    requires UnitWF(u)
    ensures r.Some? ==> UnitWF(r.value)
  {
    match i
    case GlobalItem(v, c) => LowerGlobal(u, v, c)
    case FunctionItem(name, s) => LowerFunction(u, name, s)
    case BodyItem(name, b) => LowerBodyItem(u, name, b)
  }

  function LowerItems(u: UnitGen, items: seq<Item>): (r: Option<UnitGen>)
    requires UnitWF(u)
    ensures r.Some? ==> UnitWF(r.value)
    decreases |items|
  {
    if items == [] then Some(u)
    else
      var u1 :- LowerItem(u, items[0]);
      LowerItems(u1, items[1..])
  }

  lemma {:induction false} ItemsAppend(u: UnitGen, a: seq<Item>, b: seq<Item>)
    requires UnitWF(u)
    ensures var r := LowerItems(u, a); LowerItems(u, a + b) == if r.Some? then LowerItems(r.value, b) else None
    decreases |a|
  {
    if a == [] {
      assert a + b == b;
    } else {
      assert (a + b)[1..] == a[1..] + b;
      var r := LowerItem(u, a[0]);
      if r.Some? {
        ItemsAppend(r.value, a[1..], b);
      }
    }
  }
}
