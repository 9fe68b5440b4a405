/**
  The `&` and `*` of a text: what the loop in front of an operand
  (lib/Parser/Expression.cpp) accepts and counts on any tokens, and that the
  operand it gives means what the operators in the text mean.
 */
module Indirections {
  import opened Wrappers
  import opened Ast
  import opened Semantics
  import opened Soundness
  import opened Prefixes
  import opened Grammar
  import Ir
  import Lexing
  import Analysis

  function SignOf(t: Kind): Option<Sign> {
    match t
    case Ampersand => Some(Amp)
    case Star => Some(Deref)
    case _ => None
  }

  // The operators that ts begins with, m of them at most.
  function Signs(ts: Stream, m: nat): (r: seq<Sign>)
    ensures |r| <= m && |r| <= |ts|
    ensures forall i :: 0 <= i < |r| ==> SignOf(ts[i].typ) == Some(r[i])
    ensures |r| < m ==> SignOf(Head(ts[|r|..])) == None
    decreases m
  {
    if m == 0 || SignOf(Head(ts)) == None then []
    else [SignOf(Head(ts)).value] + Signs(Tail(ts), m - 1)
  }

  // The turns of the loop.
  const TURNS: nat := LOOP_LIMIT + 1

  predicate InLimit(n: int) { -0xffff <= n <= 0xffff }

  // The count after k operators.
  function CountAt(ops: seq<Sign>, k: nat): int
    requires k <= |ops|
  {
    Net(ops[..k])
  }

  // No `&&`, and no count on the way beyond the limit, from a count of step.
  ghost predicate Allowed(ops: seq<Sign>, step: int, afterAmp: bool) {
    && NoDoubleAmp(ops) && !(afterAmp && Leads(ops))
    && forall k :: 0 < k <= |ops| ==> InLimit(step + CountAt(ops, k))
  }

  function Weight(op: Sign): int { if op == Amp then 1 else -1 }

  lemma {:induction false} CountAtCons(ops: seq<Sign>, k: nat)
    requires 0 < k <= |ops|
    ensures CountAt(ops, k) == Weight(ops[0]) + CountAt(ops[1..], k - 1)
  {
    assert ops[..k][1..] == ops[1..][..k - 1];
  }

  lemma {:induction false} AllowedCons(ops: seq<Sign>, step: int, afterAmp: bool)
    requires ops != []
    ensures var next := step + Weight(ops[0]);
            Allowed(ops, step, afterAmp) <==> !(afterAmp && ops[0] == Amp) && InLimit(next) && Allowed(ops[1..], next, ops[0] == Amp)
  {
    var rest, next := ops[1..], step + Weight(ops[0]);
    NoDoubleTail(ops);
    CountAtCons(ops, 1);
    forall k | 0 < k <= |rest| ensures next + CountAt(rest, k) == step + CountAt(ops, k + 1) {
      CountAtCons(ops, k + 1);
    }
    if !(afterAmp && ops[0] == Amp) && InLimit(next) && Allowed(rest, next, ops[0] == Amp) {
      forall k | 0 < k <= |ops| ensures InLimit(step + CountAt(ops, k)) {
        if k > 1 {
          assert InLimit(next + CountAt(rest, k - 1));
        }
      }
    } else if Allowed(ops, step, afterAmp) {
      assert InLimit(step + CountAt(ops, 1));
      forall k | 0 < k <= |rest| ensures InLimit(next + CountAt(rest, k)) {
        assert InLimit(step + CountAt(ops, k + 1));
      }
    }
  }

  lemma {:induction false} SignsFirst(ts: Stream, m: nat)
    requires Signs(ts, m) != []
    ensures ts != [] && m > 0 && SignOf(Head(ts)) == Some(Signs(ts, m)[0]) && Signs(ts, m)[1..] == Signs(Tail(ts), m - 1)
  {}

  // One turn: a count of n turns has 32 bits, so that the limit test means
  // what it says.
  lemma {:induction false} TurnExact(ts: Stream, step: int, afterAmp: bool, n: nat, op: Sign)
    requires n <= LOOP_LIMIT && 0 - n <= step <= n && SignOf(Head(ts)) == Some(op)
    ensures var next := step + Weight(op);
            PrefixLoop(ts, step, afterAmp, n) ==
            if (afterAmp && op == Amp) || !InLimit(next) then None
            else if n < LOOP_LIMIT then PrefixLoop(Tail(ts), next, op == Amp, n + 1)
            else Some((next, Tail(ts)))
  {
    hide LimitTest;
    LimitTestExact(step + Weight(op));
  }

  // What the loop should give for these operators in front of ts.
  ghost function Counted(ts: Stream, ops: seq<Sign>, step: int, afterAmp: bool): Option<(int, Stream)>
    requires |ops| <= |ts|
  {
    if Allowed(ops, step, afterAmp) then Some((step + Net(ops), ts[|ops|..])) else None
  }

  lemma {:induction false} CountedNone(ts: Stream, step: int, afterAmp: bool)
    ensures Counted(ts, [], step, afterAmp) == Some((step, ts))
  {
    assert ts[0..] == ts;
  }

  lemma {:induction false} CountedCons(ts: Stream, ops: seq<Sign>, step: int, afterAmp: bool)
    requires 0 < |ops| <= |ts|
    ensures var next := step + Weight(ops[0]);
            Counted(ts, ops, step, afterAmp) ==
            if (afterAmp && ops[0] == Amp) || !InLimit(next) then None else Counted(Tail(ts), ops[1..], next, ops[0] == Amp)
  {
    hide Allowed, InLimit;
    AllowedCons(ops, step, afterAmp);
    assert Tail(ts)[|ops| - 1..] == ts[|ops|..];
  }

  // From the n-th turn on.
  lemma {:induction false} LoopExact(ts: Stream, step: int, afterAmp: bool, n: nat)
    requires n <= LOOP_LIMIT && 0 - n <= step <= n
    ensures PrefixLoop(ts, step, afterAmp, n) == Counted(ts, Signs(ts, TURNS - n), step, afterAmp)
    decreases |ts|
  {
    hide PrefixLoop, Signs, Counted, SignOf, Head;
    var ops := Signs(ts, TURNS - n);
    if ops == [] {
      NoTurn(ts, step, afterAmp, n);
      CountedNone(ts, step, afterAmp);
    } else {
      SignsFirst(ts, TURNS - n);
      TurnExact(ts, step, afterAmp, n, ops[0]);
      CountedCons(ts, ops, step, afterAmp);
      if n < LOOP_LIMIT {
        LoopExact(Tail(ts), step + Weight(ops[0]), ops[0] == Amp, n + 1);
      } else {
        assert ops[1..] == [];
        CountedNone(Tail(ts), step + Weight(ops[0]), ops[0] == Amp);
      }
    }
  }

  lemma {:induction false} NoTurn(ts: Stream, step: int, afterAmp: bool, n: nat)
    requires n <= LOOP_LIMIT && Signs(ts, TURNS - n) == []
    ensures PrefixLoop(ts, step, afterAmp, n) == Some((step, ts))
  {}

  // ----- every prefix -----

  // On any tokens: the loop accepts exactly what has no `&&` and no count on
  // the way beyond the limit, and then it gives the net count and the tokens
  // behind the operators.
  lemma {:induction false} PrefixExact(ts: Stream)
    ensures var ops, r := Signs(ts, TURNS), PrefixLoop(ts, 0, false, 0);
            && (r.Some? <==> NoDoubleAmp(ops) && forall k :: 0 <= k <= |ops| ==> InLimit(CountAt(ops, k)))
            && (r.Some? ==> r.value == (Net(ops), ts[|ops|..]) && Net(ops) <= 1)
  {
    hide PrefixLoop, Signs, Net, InLimit;
    var ops := Signs(ts, TURNS);
    LoopExact(ts, 0, false, 0);
    if Allowed(ops, 0, false) {
      NetBound(ops);
    }
    AllowedFromZero(ops);
  }

  lemma {:induction false} AllowedFromZero(ops: seq<Sign>)
    ensures Allowed(ops, 0, false) <==> NoDoubleAmp(ops) && forall k :: 0 <= k <= |ops| ==> InLimit(CountAt(ops, k))
  {
    if Allowed(ops, 0, false) {
      forall k | 0 <= k <= |ops| ensures InLimit(CountAt(ops, k)) {
        assert k > 0 ==> InLimit(0 + CountAt(ops, k));
      }
    }
  }

  // Accepted or not, every count the loop comes to has 32 bits.
  lemma {:induction false} CountsFit(ts: Stream, k: nat)
    requires k <= |Signs(ts, TURNS)|
    ensures -0x8000_0000 <= CountAt(Signs(ts, TURNS), k) < 0x8000_0000
  {
    NetLength(Signs(ts, TURNS)[..k]);
  }

  // All operators in front of an operand.
  function Operators(ts: Stream): seq<Sign> { Signs(ts, |ts|) }

  lemma {:induction false} OperatorsTaken(ts: Stream)
    ensures Signs(ts, TURNS) <= Operators(ts)
    ensures SignOf(Head(ts[|Signs(ts, TURNS)|..])) == None ==> Operators(ts) == Signs(ts, TURNS)
  {
    hide Signs;
    var taken, all := Signs(ts, TURNS), Operators(ts);
    if |taken| < |all| {
      assert SignOf(ts[|taken|].typ) == Some(all[|taken|]) && Head(ts[|taken|..]) == ts[|taken|].typ;
    }
  }

  // ----- the operands of a text -----

  // An operand carries the net form of all operators in front of it; on a
  // literal or a call they cancel out.
  lemma {:induction false} OperandSigns(ts: Stream)
    requires ParseOperand(ts).Some?
    ensures var o, ops := ParseOperand(ts).value.0, Operators(ts);
            && NoDoubleAmp(ops) && InLimit(Net(ops))
            && if o.Identifier? then o.indirection == NetIndirection(Net(ops)) && o.steps == NetSteps(Net(ops)) else Net(ops) == 0
  {
    hide PrefixLoop, Signs, NoDoubleAmp, Net, ParseCall, NetIndirection, NetSteps;
    var taken := Signs(ts, TURNS);
    PrefixExact(ts);
    OperatorsTaken(ts);
    assert taken[..|taken|] == taken && InLimit(CountAt(taken, |taken|));
  }

  // The analyzer's "reference step exceeds 1" cannot happen to an operand that
  // was parsed: it refuses reads through too many pointers only.
  lemma {:induction false} ReferenceOnce(ts: Stream, t: Type)
    requires ParseOperand(ts).Some? && ParseOperand(ts).value.0.Identifier?
    ensures var o := ParseOperand(ts).value.0;
            && (o.indirection == GetAddress ==> o.steps == 1)
            && (Analysis.IndirectionType(o.indirection, o.steps, t).None? ==>
                  o.indirection == GetValue && 0 < o.steps <= 0xffff && (!t.isPointer || t.pointerDepth < o.steps))
  {
    OperandSigns(ts);
    NetBound(Operators(ts));
  }

  // ----- their meaning -----

  predicate ValidPointer(mem: Mem, v: Outcome<Ir.Val>) { v.Ok? && v.value.PtrV? && v.value.loc < |mem| }

  // A parsed operand means what its operators mean one by one, failures
  // included, exactly unless a `&` in front of a read was dropped and the read
  // gives no pointer.
  lemma {:induction false} TextMeaning(ts: Stream, mem: Mem, l: nat)
    requires ParseOperand(ts).Some? && ParseOperand(ts).value.0.Identifier? && l < |mem|
    ensures var o, ops := ParseOperand(ts).value.0, Operators(ts); var r := EvalUse(mem, l, o.indirection, o.steps);
            && ByOne(mem, ops, l) == (if DropsAmp(ops) then AsPointer(mem, r) else r)
            && (ByOne(mem, ops, l) == r <==> !(DropsAmp(ops) && r.Ok? && !ValidPointer(mem, r)))
  {
    OperandSigns(ts);
    MeaningExact(mem, Operators(ts), l);
  }

  // In terms of declared depths, where the read stays within them: the two
  // part exactly on a `&` in front of the read of an integer.
  lemma {:induction false} TypedMeaning(ts: Stream, mem: Mem, l: nat)
    requires ParseOperand(ts).Some? && ParseOperand(ts).value.0.Identifier? && l < |mem| && WellTyped(mem)
    requires -Net(Operators(ts)) <= mem[l].depth
    ensures var o, ops := ParseOperand(ts).value.0, Operators(ts); var r := EvalUse(mem, l, o.indirection, o.steps);
            ByOne(mem, ops, l) == if DropsAmp(ops) && mem[l].depth == -Net(ops) && r.Ok? then Wrong else r
  {
    var ops := Operators(ts);
    OperandSigns(ts);
    TextMeaning(ts, mem, l);
    if DropsAmp(ops) {
      ReadTyped(mem, l, -Net(ops));
    }
  }

  lemma {:induction false} ReadTyped(mem: Mem, l: nat, k: nat)
    requires WellTyped(mem) && l < |mem| && k <= mem[l].depth
    ensures var r := EvalUse(mem, l, if k == 0 then Plain else GetValue, k);
            r.Ok? ==> HasDepth(mem, r.value, mem[l].depth - k)
  {
    ChaseTyped(mem, l, k);
    assert Chase(mem, l, 0) == Ok(l);
  }

  // What is refused within the limit has no meaning.
  lemma {:induction false} RefusedMeansNothing(ts: Stream, mem: Mem, l: nat)
    requires PrefixLoop(ts, 0, false, 0) == None && l < |mem|
    requires forall k :: 0 <= k <= |Signs(ts, TURNS)| ==> InLimit(CountAt(Signs(ts, TURNS), k))
    ensures !ByOne(mem, Operators(ts), l).Ok?
  {
    hide Signs, PrefixLoop, ApplyAll, InLimit, CountAt;
    PrefixExact(ts);
    OperatorsTaken(ts);
    var taken, all := Signs(ts, TURNS), Operators(ts);
    var i :| 0 <= i < |taken| - 1 && taken[i] == Amp && taken[i + 1] == Amp;
    assert all[i] == Amp && all[i + 1] == Amp;
    DoubleAmpMeansNothing(mem, all, l);
  }

  // `&*x` for an integer x is read as x itself.
  lemma {:induction false} DroppedAddress()
    ensures var ts := [Lexing.Token(Lexing.Ampersand, ""), Lexing.Token(Lexing.Star, ""), Lexing.Token(Lexing.Identifier, "x")];
            var mem := [Cell(0, Ir.IntV(5))];
            && ParseOperand(ts) == Some((Operand.Identifier("x", Plain, 0), []))
            && EvalUse(mem, 0, Plain, 0) == Ok(Ir.IntV(5)) && ByOne(mem, Operators(ts), 0) == Wrong
  {
    var x := [Lexing.Token(Lexing.Identifier, "x")];
    var star := [Lexing.Token(Lexing.Star, "")] + x;
    var ts := [Lexing.Token(Lexing.Ampersand, "")] + star;
    assert ts == [Lexing.Token(Lexing.Ampersand, ""), Lexing.Token(Lexing.Star, ""), Lexing.Token(Lexing.Identifier, "x")];
    assert Tail(ts) == star && Tail(star) == x && Tail(x) == [];
    hide Signs, PrefixLoop, ParseOperand, InLimit, CountAt, ByOne, EvalUse, NoDoubleAmp, Net;
    DroppedAddressSigns(ts, star, x);
    assert ts[2..] == x;
    PrefixExact(ts);
    DroppedAddressMeans();
    NameOperand(ts, x);
  }

  // Operators that cancel out, and a name.
  lemma {:induction false} NameOperand(ts: Stream, x: Stream)
    requires PrefixLoop(ts, 0, false, 0) == Some((0, x)) && Head(x) == Lexing.Identifier && Head(Tail(x)) != Lexing.LeftParenthesis
    ensures ParseOperand(ts) == Some((Operand.Identifier(Value(x), Plain, 0), Tail(x)))
  {
    hide PrefixLoop;
  }

  lemma {:induction false} DroppedAddressSigns(ts: Stream, star: Stream, x: Stream)
    requires Head(ts) == Lexing.Ampersand && Head(star) == Lexing.Star && Head(x) == Lexing.Identifier
    requires Tail(ts) == star && Tail(star) == x && |ts| == 3
    ensures Operators(ts) == Signs(ts, TURNS) == [Amp, Deref]
    ensures NoDoubleAmp([Amp, Deref]) && forall k :: 0 <= k <= 2 ==> InLimit(CountAt([Amp, Deref], k))
  {
    forall m | m >= 3 ensures Signs(ts, m) == [Amp, Deref] {
      assert Signs(x, m - 2) == [] && Signs(star, m - 1) == [Deref];
    }
    forall k | 0 <= k <= 2 ensures InLimit(CountAt([Amp, Deref], k)) {
      NetLength([Amp, Deref][..k]);
    }
  }

  lemma {:induction false} DroppedAddressMeans()
    ensures var mem := [Cell(0, Ir.IntV(5))];
            EvalUse(mem, 0, Plain, 0) == Ok(Ir.IntV(5)) && ByOne(mem, [Amp, Deref], 0) == Wrong && Net([Amp, Deref]) == 0
  {
    assert [Amp, Deref][1..] == [Deref] && [Deref][1..] == [];
  }
}
