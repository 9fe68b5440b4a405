/**
  The `&` and `*` in front of an operand (lib/Parser/Expression.cpp): the
  parser counts them into one net step count. What they mean one by one, from
  the operand outwards, is what the net form means.
 */
module Prefixes {
  import opened Wrappers
  import Ast
  import opened Ir
  import opened Semantics

  datatype Sign = Amp | Deref

  function Net(ops: seq<Sign>): int {
    if ops == [] then 0 else (if ops[0] == Amp then 1 else -1) + Net(ops[1..])
  }

  // What ParseIndirection refuses: the address of a temporary.
  ghost predicate NoDoubleAmp(ops: seq<Sign>) {
    forall i :: 0 <= i < |ops| - 1 ==> !(ops[i] == Amp && ops[i + 1] == Amp)
  }

  function NetIndirection(n: int): Ast.Indirection {
    if n == 0 then Ast.Plain else if n > 0 then Ast.GetAddress else Ast.GetValue
  }

  function NetSteps(n: int): nat { if n < 0 then -n else n }

  // Without `&&` the count is at most 1, wherever it is taken.
  lemma {:induction false} NetBound(ops: seq<Sign>)
    requires NoDoubleAmp(ops)
    ensures Net(ops) <= 1 && (ops == [] || ops[0] == Deref ==> Net(ops) <= 0)
    ensures -|ops| <= Net(ops)
    decreases |ops|
  {
    NetLength(ops);
    if ops != [] {
      NoDoubleTail(ops);
      NetBound(ops[1..]);
    }
  }

  lemma {:induction false} NoDoubleTail(ops: seq<Sign>)
    requires ops != []
    ensures NoDoubleAmp(ops) <==> NoDoubleAmp(ops[1..]) && (|ops| > 1 ==> !(ops[0] == Amp && ops[1] == Amp))
  {
    var rest := ops[1..];
    if NoDoubleAmp(ops) {
      assert |ops| > 1 ==> !(ops[0] == Amp && ops[0 + 1] == Amp);
      forall i | 0 <= i < |rest| - 1 ensures !(rest[i] == Amp && rest[i + 1] == Amp) {
        assert !(ops[i + 1] == Amp && ops[i + 1 + 1] == Amp);
      }
    } else {
      var i :| 0 <= i < |ops| - 1 && ops[i] == Amp && ops[i + 1] == Amp;
      assert i > 0 ==> rest[i - 1] == Amp && rest[i - 1 + 1] == Amp;
    }
  }

  lemma {:induction false} NetLength(ops: seq<Sign>)
    ensures -|ops| <= Net(ops) <= |ops|
    decreases |ops|
  {
    if ops != [] {
      NetLength(ops[1..]);
    }
  }

  // ----- the limit test -----

  const LIMIT: int := 0xffff

  newtype int32 = n: int | -0x8000_0000 <= n < 0x8000_0000

  // The value of a 32-bit signed integer converted to unsigned.
  function Unsigned(n: int): int { n % 0x1_0000_0000 }

  // The test as the code makes it: both comparisons are unsigned.
  predicate LimitTest(n: int) {
    Unsigned(n) > Unsigned(LIMIT) && Unsigned(n) < Unsigned(-LIMIT)
  }

  lemma {:induction false} LimitTestExact(n: int)
    requires -0x8000_0000 <= n < 0x8000_0000
    ensures LimitTest(n) <==> n > 0xffff || n < -0xffff
  {
    if n < 0 {
      assert Unsigned(n) == n + 0x1_0000_0000;
    }
  }

  // ----- the operators one by one -----

  // A place can be read or have its address taken; an address is a temporary.
  datatype Held = Place(cell: nat) | Address(cell: nat)

  ghost predicate InMemory(mem: Mem, h: Held) { h.cell < |mem| }

  function ApplyOne(mem: Mem, op: Sign, h: Held): (r: Outcome<Held>)
    requires InMemory(mem, h)
    ensures r.Ok? ==> InMemory(mem, r.value)
  {
    match (op, h)
    case (Amp, Place(c)) => Ok(Address(c))
    case (Amp, Address(_)) => Wrong
    case (Deref, Address(c)) => Ok(Place(c))
    case (Deref, Place(c)) =>
      var v :- Read(mem, c);
      if v.PtrV? && v.loc < |mem| then Ok(Place(v.loc)) else Wrong
  }

  // Right to left: the operator next to the operand comes first.
  function ApplyAll(mem: Mem, ops: seq<Sign>, l: nat): (r: Outcome<Held>)
    requires l < |mem|
    ensures r.Ok? ==> InMemory(mem, r.value)
    decreases |ops|
  {
    if ops == [] then Ok(Place(l))
    else
      var h :- ApplyAll(mem, ops[1..], l);
      ApplyOne(mem, ops[0], h)
  }

  function Finish(mem: Mem, h: Held): Outcome<Val>
    requires InMemory(mem, h)
  {
    match h
    case Place(c) => Read(mem, c)
    case Address(c) => Ok(PtrV(c))
  }

  // What the operators make of the variable at l.
  function ByOne(mem: Mem, ops: seq<Sign>, l: nat): Outcome<Val>
    requires l < |mem|
  {
    var h :- ApplyAll(mem, ops, l);
    Finish(mem, h)
  }

  // The cell that a cell points to.
  function Follow(mem: Mem, c: nat): Outcome<nat>
    requires c < |mem|
  {
    var v :- Read(mem, c);
    if v.PtrV? && v.loc < |mem| then Ok(v.loc) else Wrong
  }

  lemma {:induction false} ChaseOneMore(mem: Mem, l: nat, k: nat)
    requires l < |mem|
    ensures Chase(mem, l, k + 1) == var c := Chase(mem, l, k); if c.Ok? then Follow(mem, c.value) else c
    decreases k
  {
    var next := Follow(mem, l);
    if k == 0 {
      assert next.Ok? ==> Chase(mem, next.value, 0) == next;
    } else if next.Ok? {
      ChaseOneMore(mem, next.value, k - 1);
    }
  }

  predicate Leads(ops: seq<Sign>) { ops != [] && ops[0] == Amp }

  function AsPlace(c: Outcome<nat>): Outcome<Held> {
    var l :- c;
    Ok(Place(l))
  }

  function AsAddress(c: Outcome<nat>): Outcome<Held> {
    var l :- c;
    Ok(Address(l))
  }

  // The operators chase pointers; each `&` but a leading one undoes the `*` in
  // front of it.
  lemma {:induction false} HeldExact(mem: Mem, ops: seq<Sign>, l: nat)
    requires l < |mem| && NoDoubleAmp(ops)
    ensures Net(ops) <= if Leads(ops) then 1 else 0
    ensures ApplyAll(mem, ops, l) == if Leads(ops) then AsAddress(Chase(mem, l, 1 - Net(ops))) else AsPlace(Chase(mem, l, -Net(ops)))
    decreases |ops|
  {
    if ops == [] {
      assert AsPlace(Chase(mem, l, 0)) == Ok(Place(l));
    } else {
      var rest := ops[1..];
      NoDoubleTail(ops);
      HeldExact(mem, rest, l);
      if ops[0] == Deref && !Leads(rest) {
        ChaseOneMore(mem, l, -Net(rest));
      }
    }
  }

  // Only a valid pointer is left as it is.
  function AsPointer(mem: Mem, v: Outcome<Val>): Outcome<Val> {
    if v.Ok? && !(v.value.PtrV? && v.value.loc < |mem|) then Wrong else v
  }

  // A `&` in front of a read, which the net form leaves out.
  predicate DropsAmp(ops: seq<Sign>) { Leads(ops) && Net(ops) <= 0 }

  function NetUse(mem: Mem, ops: seq<Sign>, l: nat): Outcome<Val>
    requires l < |mem|
  {
    EvalUse(mem, l, NetIndirection(Net(ops)), NetSteps(Net(ops)))
  }

  // The net form has the outcome of the operators, failures included, but for
  // one family: under a `&` that it drops it also yields what is no pointer.
  lemma {:induction false} MeaningExact(mem: Mem, ops: seq<Sign>, l: nat)
    requires l < |mem| && NoDoubleAmp(ops)
    ensures ByOne(mem, ops, l) == if DropsAmp(ops) then AsPointer(mem, NetUse(mem, ops, l)) else NetUse(mem, ops, l)
  {
    var n := Net(ops);
    HeldExact(mem, ops, l);
    if DropsAmp(ops) {
      ChaseOneMore(mem, l, -n);
    } else {
      assert Chase(mem, l, 0) == Ok(l);
    }
  }

  // The net form has the meaning of the operators it stands for.
  lemma {:induction false} NetMeaning(mem: Mem, ops: seq<Sign>, l: nat, v: Val)
    requires l < |mem| && ApplyAll(mem, ops, l).Ok? && Finish(mem, ApplyAll(mem, ops, l).value) == Ok(v)
    ensures EvalUse(mem, l, NetIndirection(Net(ops)), NetSteps(Net(ops))) == Ok(v)
  {
    if !NoDoubleAmp(ops) {
      DoubleAmpMeansNothing(mem, ops, l);
    }
    MeaningExact(mem, ops, l);
  }

  // A prefix the parser refuses has no meaning at all.
  lemma {:induction false} DoubleAmpMeansNothing(mem: Mem, ops: seq<Sign>, l: nat)
    requires l < |mem| && !NoDoubleAmp(ops)
    ensures !ApplyAll(mem, ops, l).Ok?
    decreases |ops|
  {
    var i :| 0 <= i < |ops| - 1 && ops[i] == Amp && ops[i + 1] == Amp;
    if i == 0 {
      assert ops[1..][0] == Amp;
    } else {
      assert ops[1..][i - 1] == Amp && ops[1..][i - 1 + 1] == Amp;
      DoubleAmpMeansNothing(mem, ops[1..], l);
    }
  }
}
