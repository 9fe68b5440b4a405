/**
  What numbers mean: a literal is read as it is written in decimals, and sums
  are exact up to a multiple of 2^32.
 */
module Numbers {
  import opened Wrappers
  import opened Ast
  import opened Ir
  import opened Lowering
  import opened Semantics
  import opened Items
  import opened Units
  import Lexing

  // ----- wrap-around -----

  // The one integer of 32 bits that differs from n by a multiple of 2^32.
  lemma {:induction false} WrapExact(n: int, r: int)
    ensures Wrap32(n) == r <==> -0x8000_0000 <= r < 0x8000_0000 && (n - r) % 0x1_0000_0000 == 0
    ensures -0x8000_0000 <= n < 0x8000_0000 ==> Wrap32(n) == n
  {
    assert n - Wrap32(n) == (n + 0x8000_0000) / 0x1_0000_0000 * 0x1_0000_0000;
  }

  // The sum over the integers, of the operands as they are evaluated.
  function Total(P: Program, fuel: nat, env: Env, mem: Mem, total: int, units: seq<Unit>): Outcome<(int, Mem)>
    decreases |units|
  {
    if units == [] then Ok((total, mem))
    else
      var (v, mem1) :- EvalOperand(P, fuel, env, mem, units[0].operand);
      if !v.IntV? then Wrong
      else if units[0].operation == Some(Plus) then Total(P, fuel, env, mem1, total + v.n, units[1..])
      else if units[0].operation == Some(Minus) then Total(P, fuel, env, mem1, total - v.n, units[1..])
      else Wrong
  }

  // v is an integer of 32 bits, and s up to a multiple of 2^32; it is s itself
  // if s has 32 bits.
  predicate Rounds(s: int, v: Val) {
    && v.IntV? && -0x8000_0000 <= v.n < 0x8000_0000 && (s - v.n) % 0x1_0000_0000 == 0
    && (-0x8000_0000 <= s < 0x8000_0000 ==> v.n == s)
  }

  lemma {:induction false} WrapCongruent(s: int, t: int)
    requires (s - t) % 0x1_0000_0000 == 0
    ensures Rounds(s, IntV(Wrap32(t)))
  {
    WrapExact(t, Wrap32(t));
    WrapExact(s, Wrap32(t));
  }

  lemma {:induction false} WrapRounds(s: int, t: int, n: int)
    requires Rounds(s, IntV(t))
    ensures Rounds(s + n, IntV(Wrap32(t + n))) && Rounds(s - n, IntV(Wrap32(t - n)))
  {
    WrapCongruent(s + n, t + n);
    WrapCongruent(s - n, t - n);
  }

  // An expression and its sum over the integers have the same effects and
  // failures, and values that differ by a multiple of 2^32; they do not differ
  // when the sum has 32 bits, whatever it was on the way.
  lemma {:induction false} SumExact(P: Program, fuel: nat, env: Env, mem: Mem, t: int, total: int, units: seq<Unit>)
    requires Rounds(total, IntV(t))
    ensures var r, s := EvalUnits(P, fuel, env, mem, Some(IntV(t)), units), Total(P, fuel, env, mem, total, units);
            if s.Ok? then r.Ok? && r.value.1 == s.value.1 && Rounds(s.value.0, r.value.0) else r == s.PropagateFailure()
    decreases |units|
  {
    hide EvalOperand, Rounds, Wrap32;
    if units != [] {
      var o := EvalOperand(P, fuel, env, mem, units[0].operand);
      if o.Ok? && o.value.0.IntV? {
        WrapRounds(total, t, o.value.0.n);
        if units[0].operation == Some(Plus) {
          SumExact(P, fuel, env, o.value.1, Wrap32(t + o.value.0.n), total + o.value.0.n, units[1..]);
        } else if units[0].operation == Some(Minus) {
          SumExact(P, fuel, env, o.value.1, Wrap32(t - o.value.0.n), total - o.value.0.n, units[1..]);
        }
      }
    }
  }

  // A sum or difference of two operands.
  lemma {:induction false} TwoOperands(P: Program, fuel: nat, env: Env, mem: Mem, a: Operand, b: Operand, t: Type)
    requires var x := EvalOperand(P, fuel, env, mem, a); x.Ok? && x.value.0.IntV? && -0x8000_0000 <= x.value.0.n < 0x8000_0000
    requires var y := EvalOperand(P, fuel, env, EvalOperand(P, fuel, env, mem, a).value.1, b); y.Ok? && y.value.0.IntV?
    ensures var (x, mem1) := EvalOperand(P, fuel, env, mem, a).value; var (y, mem2) := EvalOperand(P, fuel, env, mem1, b).value;
            var sum := EvalExpression(P, fuel, env, mem, Expression([Unit(None, a), Unit(Some(Plus), b)], t));
            var difference := EvalExpression(P, fuel, env, mem, Expression([Unit(None, a), Unit(Some(Minus), b)], t));
            && sum.Ok? && sum.value.1 == mem2 && Rounds(x.n + y.n, sum.value.0)
            && difference.Ok? && difference.value.1 == mem2 && Rounds(x.n - y.n, difference.value.0)
  {
    var (x, mem1) := EvalOperand(P, fuel, env, mem, a).value;
    var (y, mem2) := EvalOperand(P, fuel, env, mem1, b).value;
    var first, plus, minus := Unit(None, a), Unit(Some(Plus), b), Unit(Some(Minus), b);
    assert EvalUnit(P, fuel, env, mem, None, first) == Ok((x, mem1));
    assert [first, plus][1..] == [plus] && [first, minus][1..] == [minus] && [plus][1..] == [] && [minus][1..] == [];
    assert Total(P, fuel, env, mem2, x.n + y.n, []) == Ok((x.n + y.n, mem2)) && Total(P, fuel, env, mem2, x.n - y.n, []) == Ok((x.n - y.n, mem2));
    SumExact(P, fuel, env, mem1, x.n, x.n, [plus]);
    SumExact(P, fuel, env, mem1, x.n, x.n, [minus]);
  }

  // ----- literals -----

  // A number in decimals.
  function Decimal(n: nat): (s: string)
    ensures s != [] && forall c :: c in s ==> Lexing.IsDigit(c)
  {
    if n < 10 then [DIGITS[n]] else Decimal(n / 10) + [DIGITS[n % 10]]
  }

  const DIGITS := "0123456789"

  function Zeros(k: nat): (s: string)
    ensures |s| == k && forall c :: c in s ==> c == '0'
  {
    seq(k, i requires 0 <= i < k => '0')
  }

  // What follows a number ends it.
  predicate Ends(rest: string) { rest == [] || !Lexing.IsDigit(rest[0]) }

  lemma {:induction false} LeadingStep(c: char, rest: string, n: nat)
    requires Lexing.IsDigit(c)
    ensures LeadingDigits([c] + rest, n) == LeadingDigits(rest, 10 * n + (c as int - '0' as int))
  {
    assert ([c] + rest)[1..] == rest;
  }

  lemma {:induction false} LeadingDecimal(n: nat, rest: string)
    ensures LeadingDigits(Decimal(n) + rest, 0) == LeadingDigits(rest, n)
    decreases n
  {
    var c := DIGITS[n % 10];
    LeadingStep(c, rest, n / 10);
    if n >= 10 {
      LeadingDecimal(n / 10, [c] + rest);
      assert Decimal(n) + rest == Decimal(n / 10) + ([c] + rest);
    }
  }

  lemma {:induction false} LeadingZeros(k: nat, rest: string)
    ensures LeadingDigits(Zeros(k) + rest, 0) == LeadingDigits(rest, 0)
    decreases k
  {
    if k == 0 {
      assert Zeros(0) + rest == rest;
    } else {
      assert Zeros(k) + rest == ['0'] + (Zeros(k - 1) + rest);
      LeadingStep('0', Zeros(k - 1) + rest, 0);
      LeadingZeros(k - 1, rest);
    }
  }

  // Reading is the inverse of writing: zeros in front change nothing, what is
  // behind the digits is ignored, and more than 32 signed bits are refused.
  lemma {:induction false} ReadsWritten(k: nat, n: nat, rest: string)
    requires Ends(rest)
    ensures Stoi(Zeros(k) + Decimal(n) + rest) == if n <= 0x7fff_ffff then Some(n) else None
  {
    assert Zeros(k) + Decimal(n) + rest == Zeros(k) + (Decimal(n) + rest);
    LeadingZeros(k, Decimal(n) + rest);
    LeadingDecimal(n, rest);
    assert (Zeros(k) + Decimal(n))[0] in Zeros(k) + Decimal(n);
  }

  lemma {:induction false} DigitAt(c: char) returns (d: nat)
    requires Lexing.IsDigit(c)
    ensures d < 10 && Decimal(d) == [c]
  {
    d := c as int - '0' as int;
  }

  // A digit behind a number; a zero in front of it is one more of the zeros.
  lemma {:induction false} OneMore(k: nat, m: nat, c: char) returns (n: nat)
    requires Lexing.IsDigit(c)
    ensures Zeros(k) + Decimal(m) + [c] == Zeros(if n < 10 then k + 1 else k) + Decimal(n)
  {
    var d := DigitAt(c);
    n := 10 * m + d;
    if m == 0 {
      assert Zeros(k) + ['0'] == Zeros(k + 1);
    } else {
      assert n / 10 == m && n % 10 == d && Decimal(n) == Decimal(m) + [c];
      assert Zeros(k) + (Decimal(m) + [c]) == Zeros(k) + Decimal(m) + [c];
    }
  }

  // The digits in front of a text, as a number.
  lemma {:induction false} Parts(digits: string) returns (k: nat, n: nat)
    requires digits != [] && forall c :: c in digits ==> Lexing.IsDigit(c)
    ensures digits == Zeros(k) + Decimal(n)
    decreases |digits|
  {
    var front, c := digits[..|digits| - 1], digits[|digits| - 1];
    assert c in digits && digits == front + [c];
    if front == [] {
      k := 0;
      n := DigitAt(c);
      assert Zeros(0) + [c] == [c];
    } else {
      k, n := Parts(front);
      n := OneMore(k, n, c);
      k := if n < 10 then k + 1 else k;
    }
  }

  // Only what is written so is read.
  lemma {:induction false} ReadExact(text: string, n: int)
    ensures Stoi(text) == Some(n) <==> 0 <= n <= 0x7fff_ffff && exists k: nat, rest :: Ends(rest) && text == Zeros(k) + Decimal(n) + rest
  {
    if exists k: nat, rest :: 0 <= n && Ends(rest) && text == Zeros(k) + Decimal(n) + rest {
      var k: nat, rest :| 0 <= n && Ends(rest) && text == Zeros(k) + Decimal(n) + rest;
      ReadsWritten(k, n, rest);
    }
    if Stoi(text) == Some(n) {
      var end := Lexing.RunEnd(text, 0, Lexing.IsDigit);
      var k, m := Parts(text[..end]);
      var rest := text[end..];
      assert text == Zeros(k) + Decimal(m) + rest;
      ReadsWritten(k, m, rest);
    }
  }

  // A literal is its number, in the source semantics, in the emitted code and
  // as the initial value of a global variable; one that has no 32 bits is
  // refused.
  lemma {:induction false} LiteralMeans(k: nat, n: nat, rest: string, P: Program, fuel: nat, env: Env, mem: Mem, F: Signatures, g: Gen)
    requires Ends(rest) && WF(g)
    ensures var text := Zeros(k) + Decimal(n) + rest;
            if n <= 0x7fff_ffff then
              && EvalOperand(P, fuel, env, mem, IntegerLiteral(text)) == Ok((IntV(n), mem))
              && LowerOperand(F, g, IntegerLiteral(text)) == Some(Lowered(g, Const(I32, n)))
              && InitialValue(Some(ConstInteger(text))) == Some(IntV(n))
            else
              && EvalOperand(P, fuel, env, mem, IntegerLiteral(text)) == Wrong
              && LowerOperand(F, g, IntegerLiteral(text)) == None
              && InitialValue(Some(ConstInteger(text))) == None
  {
    hide Zeros, Decimal, Stoi;
    ReadsWritten(k, n, rest);
  }

  // The initialisers of the global variables, in order.
  function InitialisersOf(items: seq<Item>): seq<Option<Constant>> {
    if items == [] then [] else (if items[0].GlobalItem? then [items[0].initial] else []) + InitialisersOf(items[1..])
  }

  ghost predicate StartsAs(c: Option<Constant>, v: Val) {
    match c
    case None => v == Undef
    case Some(ConstInteger(digits)) => Stoi(digits).Some? && v == IntV(Stoi(digits).value)
    case Some(ConstString(_)) => false
  }

  lemma {:induction false} OneInitial(u: UnitGen, i: Item)
    requires UnitWF(u) && i.GlobalItem? && LowerItem(u, i).Some?
    ensures InitialValue(i.initial).Some? && StartsAs(i.initial, InitialValue(i.initial).value)
  {
    hide Stoi;
  }

  // A global variable starts with the number it is given, and without a value
  // exactly if it is given none.
  lemma {:induction false} InitialsExact(u: UnitGen, items: seq<Item>)
    requires UnitWF(u) && LowerItems(u, items).Some?
    ensures |InitialsOf(items)| == |InitialisersOf(items)|
    ensures forall k :: 0 <= k < |InitialsOf(items)| ==> StartsAs(InitialisersOf(items)[k], InitialsOf(items)[k])
    decreases |items|
  {
    hide StartsAs, LowerItem, InitialValue;
    if items != [] {
      InitialsExact(LowerItem(u, items[0]).value, items[1..]);
      if items[0].GlobalItem? {
        OneInitial(u, items[0]);
      }
    }
  }
}
