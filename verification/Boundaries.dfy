/**
  The repair of function sizes (lib/Rewriter/Discover/Symbols.cpp): a function
  reaches to the next one or to the end of its section. The functions are kept
  in a map ordered by address.
 */
module Boundaries {
  import opened Wrappers
  import opened Layout

  // The state of a function: `start` and `end` are those of its section.
  datatype Shape = Shape(start: nat, end: nat, address: nat, size: nat, maxSize: nat, simple: bool) {
    function Stop(): nat { address + size }
  }

  function Min(a: nat, b: nat): nat { if a < b then a else b }

  // The difference of two words.
  function Minus(a: nat, b: nat): nat { (a - b) % WORD }

  function Repair(s: Shape, next: Option<nat>): Shape {
    var full := Minus(if next.Some? then Min(next.value, s.end) else s.end, s.address);
    var size := if s.size == 0 then full else s.size;
    if full < size then s.(size := size, maxSize := size, simple := false) else s.(size := size, maxSize := full)
  }

  function NextOf(shapes: seq<Shape>, k: nat): Option<nat> {
    if k + 1 < |shapes| then Some(shapes[k + 1].address) else None
  }

  ghost predicate Repaired(before: seq<Shape>, after: seq<Shape>) {
    |after| == |before| && forall k :: 0 <= k < |before| ==> after[k] == Repair(before[k], NextOf(before, k))
  }

  // Addresses are words, in increasing order; a function of 64 bits.
  ghost predicate Ordered(shapes: seq<Shape>) {
    && (forall k :: 0 <= k < |shapes| ==> shapes[k].address < WORD && shapes[k].end < WORD && shapes[k].size < WORD)
    && forall i, j :: 0 <= i < j < |shapes| ==> shapes[i].address < shapes[j].address
  }

  predicate Starts(s: Shape) { s.start <= s.address <= s.end }

  predicate Within(s: Shape) { s.start <= s.address && s.Stop() <= s.end }

  function EndMarker(shapes: seq<Shape>, k: nat): nat
    requires k < |shapes|
  {
    if k + 1 < |shapes| then Min(shapes[k + 1].address, shapes[k].end) else shapes[k].end
  }

  // It does not start behind the end of its section: no difference wraps.
  predicate InFront(s: Shape) { s.address <= s.end }

  lemma {:induction false} SizesBounded(before: seq<Shape>, after: seq<Shape>, k: nat)
    requires Ordered(before) && Repaired(before, after) && k < |before|
    ensures after[k].size <= after[k].maxSize
    ensures after[k].simple ==> before[k].simple && after[k].maxSize == Minus(EndMarker(before, k), before[k].address)
    ensures before[k].size != 0 ==> after[k].size == before[k].size
  {
    assert after[k] == Repair(before[k], NextOf(before, k));
  }

  // Such a function stays simple exactly when its own size fits in front of
  // the next function and the end of the section; then its largest size
  // reaches to there, and a size that was set is kept.
  lemma {:induction false} SimpleExact(before: seq<Shape>, after: seq<Shape>, k: nat)
    requires Ordered(before) && Repaired(before, after) && k < |before| && InFront(before[k])
    ensures after[k].simple <==> before[k].simple && before[k].Stop() <= EndMarker(before, k)
    ensures after[k].simple ==> after[k].Stop() <= after[k].address + after[k].maxSize == EndMarker(before, k)
    ensures after[k].size <= after[k].maxSize && (before[k].size != 0 ==> after[k].size == before[k].size)
  {
    SizesBounded(before, after, k);
    assert after[k] == Repair(before[k], NextOf(before, k));
    assert k + 1 < |before| ==> before[k].address < before[k + 1].address;
    assert Minus(EndMarker(before, k), before[k].address) == EndMarker(before, k) - before[k].address;
  }

  // A function without a size takes the whole gap up to the end marker, one
  // with a size keeps it; what is larger than the gap is no longer simple, and
  // the largest size is the larger of the two. Nothing else changes.
  lemma {:induction false} GapTaken(before: seq<Shape>, after: seq<Shape>, k: nat)
    requires Ordered(before) && Repaired(before, after) && k < |before| && InFront(before[k])
    ensures var s, gap := before[k], EndMarker(before, k) - before[k].address;
            && gap >= 0
            && (s.size == 0 ==> after[k] == s.(size := gap, maxSize := gap))
            && (0 < s.size <= gap ==> after[k] == s.(maxSize := gap))
            && (s.size > gap ==> after[k] == s.(maxSize := s.size, simple := false))
  {
    SimpleExact(before, after, k);
    assert after[k] == Repair(before[k], NextOf(before, k));
    assert k + 1 < |before| ==> before[k].address < before[k + 1].address;
    assert Minus(EndMarker(before, k), before[k].address) == EndMarker(before, k) - before[k].address;
  }

  // The bytes of b start behind those of a.
  predicate EndsBefore(a: Shape, b: Shape) { a.Stop() <= b.address }

  // A function that is left simple ends in front of its successor exactly when
  // it does not start behind its section, or had a size that fits there.
  lemma {:induction false} SuccessorExact(before: seq<Shape>, after: seq<Shape>, k: nat)
    requires Ordered(before) && Repaired(before, after) && k + 1 < |before| && after[k].simple
    ensures EndsBefore(after[k], after[k + 1]) <==> FitsNext(before[k], before[k + 1])
  {
    assert after[k] == Repair(before[k], NextOf(before, k)) && after[k + 1] == Repair(before[k + 1], NextOf(before, k + 1));
    assert before[k].address < before[k + 1].address;
    if InFront(before[k]) {
      SimpleExact(before, after, k);
    } else {
      assert EndMarker(before, k) == before[k].end;
      assert Minus(before[k].end, before[k].address) == before[k].end - before[k].address + WORD;
    }
  }

  predicate FitsNext(s: Shape, next: Shape) { InFront(s) || (s.size != 0 && EndsBefore(s, next)) }

  // A simple function lies in its own section exactly when it starts there,
  // and nothing starts inside it.
  lemma {:induction false} SimpleWithin(before: seq<Shape>, after: seq<Shape>, k: nat)
    requires Ordered(before) && Repaired(before, after) && k < |before| && after[k].simple
    ensures Within(after[k]) <==> Starts(before[k])
    ensures Starts(before[k]) ==> forall j :: 0 <= j < |before| && j != k ==> before[j].address < after[k].address || EndsBefore(after[k], after[j])
  {
    assert after[k] == Repair(before[k], NextOf(before, k));
    if Starts(before[k]) {
      SimpleExact(before, after, k);
      forall j | 0 <= j < |before| && j != k ensures before[j].address < after[k].address || EndsBefore(after[k], after[j]) {
        assert after[j] == Repair(before[j], NextOf(before, j));
        if k < j {
          assert before[k + 1].address <= before[j].address;
        }
      }
    }
  }

  // A function left simple is disjoint from every function behind it, exactly
  // when it ends in front of the next one.
  lemma {:induction false} SimpleApart(before: seq<Shape>, after: seq<Shape>, i: nat)
    requires Ordered(before) && Repaired(before, after) && i + 1 < |before| && after[i].simple
    ensures FitsNext(before[i], before[i + 1]) <==> forall j :: i < j < |after| ==> EndsBefore(after[i], after[j])
  {
    SuccessorExact(before, after, i);
    forall j | i < j < |after| ensures after[i + 1].address <= after[j].address {
      assert after[j] == Repair(before[j], NextOf(before, j)) && after[i + 1] == Repair(before[i + 1], NextOf(before, i + 1));
    }
  }

  // A function that starts behind its section and has no size gets one that
  // wraps around.
  lemma {:induction false} StartOutside()
    ensures var s := Shape(0, 16, 32, 0, 0, true);
            Repair(s, None) == s.(size := 0xffff_ffff_ffff_fff0, maxSize := 0xffff_ffff_ffff_fff0)
  {
    assert Minus(16, 32) == WORD - 16;
  }

  // ----- with the layout of the sections -----

  // The function belongs to the section placed at k, at an offset in it.
  ghost predicate Lies(placed: seq<Placed>, s: Shape, k: nat, offset: nat) {
    k < |placed| && offset < placed[k].section.size && s.address == placed[k].address + offset && s.start == placed[k].address && s.end == placed[k].End()
  }

  // A byte of two simple functions is a byte of one; it lies in no section but
  // that of the function.
  lemma {:induction false} BytesOwned(sections: seq<Section>, before: seq<Shape>, after: seq<Shape>, i: nat, k: nat, offset: nat, byte: nat)
    requires Fits(sections, FIRST_ADDRESS) && Ordered(before) && Repaired(before, after)
    requires i < |after| && after[i].simple && Lies(Place(sections, FIRST_ADDRESS), before[i], k, offset)
    requires after[i].address <= byte < after[i].Stop()
    ensures var placed := Place(sections, FIRST_ADDRESS);
            forall l :: 0 <= l < |placed| && placed[l].address <= byte < placed[l].End() ==> l == k
    ensures forall j :: 0 <= j < |after| && j != i && after[j].simple && InFront(before[j]) ==> !(after[j].address <= byte < after[j].Stop())
  {
    var placed := Place(sections, FIRST_ADDRESS);
    PlacedApart(sections, FIRST_ADDRESS);
    assert Starts(before[i]);
    SimpleWithin(before, after, i);
    forall j | 0 <= j < |after| && j != i && after[j].simple && InFront(before[j]) ensures !(after[j].address <= byte < after[j].Stop()) {
      SimpleApart(before, after, if i < j then i else j);
    }
    forall l | 0 <= l < |placed| && placed[l].address <= byte < placed[l].End() ensures l == k {
      assert placed[k].address <= byte < placed[k].End();
    }
  }

  // ----- the loop -----

  class BinaryFunction {
    const sectionStart: nat
    const sectionEnd: nat
    const address: nat
    var size: nat
    var maxSize: nat
    var simple: bool

    constructor (sectionStart: nat, sectionEnd: nat, address: nat, size: nat)
      ensures View() == Shape(sectionStart, sectionEnd, address, size, 0, true)
    {
      this.sectionStart, this.sectionEnd, this.address, this.size := sectionStart, sectionEnd, address, size;
      maxSize, simple := 0, true;
    }

    ghost function View(): Shape
      reads this
    {
      Shape(sectionStart, sectionEnd, address, size, maxSize, simple)
    }

    // One function, given the one behind it.
    method AdjustTo(next: Option<nat>)
      modifies this
      ensures View() == Repair(old(View()), next)
    {
      var functionEndMarker := if next == None then sectionEnd else Min(next.value, sectionEnd);
      var fullFunctionSize := Minus(functionEndMarker, address);
      maxSize := fullFunctionSize;
      if size == 0 {
        size := fullFunctionSize;
      }
      if fullFunctionSize < size {
        simple := false;
        maxSize := size;
      }
    }
  }

  ghost function Views(functions: seq<BinaryFunction>): seq<Shape>
    reads functions
  {
    seq(|functions|, k requires 0 <= k < |functions| reads functions => functions[k].View())
  }

  method AdjustFunctionBoundaries(functions: seq<BinaryFunction>)
    requires forall i, j :: 0 <= i < j < |functions| ==> functions[i].address < functions[j].address
    modifies functions
    ensures Repaired(old(Views(functions)), Views(functions))
  {
    ghost var before := Views(functions);
    var i := 0;
    while i < |functions|
      invariant 0 <= i <= |functions|
      invariant forall k :: 0 <= k < i ==> functions[k].View() == Repair(before[k], NextOf(before, k))
      invariant forall k :: i <= k < |functions| ==> functions[k].View() == before[k]
    {
      var next := if i + 1 < |functions| then Some(functions[i + 1].address) else None;
      assert next == NextOf(before, i);
      assert forall k :: 0 <= k < |functions| && k != i ==> functions[k] != functions[i];
      functions[i].AdjustTo(next);
      i := i + 1;
    }
  }
}
