/**
  The loops that write the data of an object file (lib/Rewriter/Emit.cpp):
  raw bytes, labels and relocated fields in order. The streamer is a log that
  only grows.
 */
module Emission {
  import opened Wrappers
  import Layout

  type Byte = bv8

  datatype Relocation = Relocation(offset: nat, size: nat, target: string)

  // What the streamer is told. A field holds the value of its relocations.
  datatype Event =
    | Label(symbol: string)
    | Bytes(data: seq<Byte>)
    | Field(relocations: seq<Relocation>, size: nat)
    | Switch(section: string)
    | Align(alignment: nat)

  // ----- what a log means -----

  // A byte of the stream: a byte of the contents, or the k-th of a field.
  datatype Cell = Raw(byte: Byte) | Part(relocations: seq<Relocation>, k: nat)

  // Padding comes before the first byte of a section or an island.
  function CellsOf(e: Event): seq<Cell> {
    match e
    case Label(_) => []
    case Switch(_) => []
    case Align(_) => []
    case Bytes(data) => seq(|data|, i requires 0 <= i < |data| => Raw(data[i]))
    case Field(relocations, size) => seq(size, i requires 0 <= i < size => Part(relocations, i))
  }

  function Cells(log: seq<Event>): seq<Cell> {
    if log == [] then [] else CellsOf(log[0]) + Cells(log[1..])
  }

  function LabelAt(e: Event, at: nat): seq<(string, nat)> { if e.Label? then [(e.symbol, at)] else [] }

  function FieldAt(e: Event, at: nat): seq<(seq<Relocation>, nat)> { if e.Field? then [(e.relocations, at)] else [] }

  // The labels of a log with their places in the stream, from `at` on.
  function Labels(log: seq<Event>, at: nat): seq<(string, nat)> {
    if log == [] then [] else LabelAt(log[0], at) + Labels(log[1..], at + |CellsOf(log[0])|)
  }

  // The fields likewise.
  function Fields(log: seq<Event>, at: nat): seq<(seq<Relocation>, nat)> {
    if log == [] then [] else FieldAt(log[0], at) + Fields(log[1..], at + |CellsOf(log[0])|)
  }

  lemma {:induction false} CellsCons(e: Event, log: seq<Event>)
    ensures Cells([e] + log) == CellsOf(e) + Cells(log)
  {
    assert ([e] + log)[1..] == log;
  }

  lemma {:induction false} LabelsCons(e: Event, log: seq<Event>, at: nat)
    ensures Labels([e] + log, at) == LabelAt(e, at) + Labels(log, at + |CellsOf(e)|)
  {
    assert ([e] + log)[1..] == log;
  }

  lemma {:induction false} FieldsCons(e: Event, log: seq<Event>, at: nat)
    ensures Fields([e] + log, at) == FieldAt(e, at) + Fields(log, at + |CellsOf(e)|)
  {
    assert ([e] + log)[1..] == log;
  }

  lemma {:induction false} FirstAndRest<T>(a: seq<T>, b: seq<T>)
    requires a != []
    ensures a == [a[0]] + a[1..] && a + b == [a[0]] + (a[1..] + b)
  {}

  lemma {:induction false} CellsAppend(a: seq<Event>, b: seq<Event>)
    ensures Cells(a + b) == Cells(a) + Cells(b)
    decreases |a|
  {
    if a == [] {
      assert a + b == b;
    } else {
      var e, rest := a[0], a[1..];
      FirstAndRest(a, b);
      CellsCons(e, rest);
      CellsCons(e, rest + b);
      CellsAppend(rest, b);
      Regroup(CellsOf(e), Cells(rest), Cells(b));
    }
  }

  lemma {:induction false} LabelsStep(e: Event, rest: seq<Event>, b: seq<Event>, at: nat)
    requires var n := at + |CellsOf(e)|; Labels(rest + b, n) == Labels(rest, n) + Labels(b, n + |Cells(rest)|)
    ensures Labels([e] + (rest + b), at) == Labels([e] + rest, at) + Labels(b, at + |Cells([e] + rest)|)
  {
    var n := at + |CellsOf(e)|;
    CellsCons(e, rest);
    LabelsCons(e, rest, at);
    LabelsCons(e, rest + b, at);
    Regroup(LabelAt(e, at), Labels(rest, n), Labels(b, n + |Cells(rest)|));
  }

  lemma {:induction false} LabelsAppend(a: seq<Event>, b: seq<Event>, at: nat)
    ensures Labels(a + b, at) == Labels(a, at) + Labels(b, at + |Cells(a)|)
    decreases |a|
  {
    if a == [] {
      assert a + b == b;
    } else {
      FirstAndRest(a, b);
      LabelsAppend(a[1..], b, at + |CellsOf(a[0])|);
      LabelsStep(a[0], a[1..], b, at);
    }
  }

  lemma {:induction false} FieldsStep(e: Event, rest: seq<Event>, b: seq<Event>, at: nat)
    requires var n := at + |CellsOf(e)|; Fields(rest + b, n) == Fields(rest, n) + Fields(b, n + |Cells(rest)|)
    ensures Fields([e] + (rest + b), at) == Fields([e] + rest, at) + Fields(b, at + |Cells([e] + rest)|)
  {
    var n := at + |CellsOf(e)|;
    CellsCons(e, rest);
    FieldsCons(e, rest, at);
    FieldsCons(e, rest + b, at);
    Regroup(FieldAt(e, at), Fields(rest, n), Fields(b, n + |Cells(rest)|));
  }

  lemma {:induction false} FieldsAppend(a: seq<Event>, b: seq<Event>, at: nat)
    ensures Fields(a + b, at) == Fields(a, at) + Fields(b, at + |Cells(a)|)
    decreases |a|
  {
    if a == [] {
      assert a + b == b;
    } else {
      FirstAndRest(a, b);
      FieldsAppend(a[1..], b, at + |CellsOf(a[0])|);
      FieldsStep(a[0], a[1..], b, at);
    }
  }

  lemma {:induction false} Regroup<T>(a: seq<T>, b: seq<T>, c: seq<T>)
    ensures a + (b + c) == a + b + c
  {}

  // ----- what a stream must be -----

  // Relocations that share a place share its field.
  datatype Spot = Spot(offset: nat, symbols: seq<string>, relocations: seq<Relocation>) {
    // The last relocation gives the size of the field.
    function Size(): nat { if relocations == [] then 0 else relocations[|relocations| - 1].size }

    function Stop(): nat { offset + Size() }

    predicate Covers(o: nat) { offset <= o < Stop() }
  }

  // In order, no field running into the next place or out of [from, end).
  ghost predicate Orderly(spots: seq<Spot>, from: nat, end: nat) {
    && (forall k :: 0 <= k < |spots| ==> from <= spots[k].offset && spots[k].Stop() <= end)
    && forall i, j :: 0 <= i < j < |spots| ==> spots[i].Stop() <= spots[j].offset && spots[i].offset < spots[j].offset
  }

  // The byte that belongs at offset o: a part of the field that covers it, or
  // the byte of the contents.
  ghost predicate Belongs(c: Cell, contents: seq<Byte>, spots: seq<Spot>, o: nat) {
    match c
    case Raw(b) => o < |contents| && b == contents[o] && forall k :: 0 <= k < |spots| ==> !spots[k].Covers(o)
    case Part(relocations, i) => exists k :: 0 <= k < |spots| && spots[k].relocations == relocations && spots[k].Covers(o) && o == spots[k].offset + i
  }

  ghost predicate Faithful(cells: seq<Cell>, contents: seq<Byte>, spots: seq<Spot>, from: nat) {
    forall i :: 0 <= i < |cells| ==> Belongs(cells[i], contents, spots, from + i)
  }

  // The same, read from the offset: only fields change the contents.
  lemma {:induction false} Overlaid(cells: seq<Cell>, contents: seq<Byte>, spots: seq<Spot>, from: nat, end: nat, o: nat)
    requires Orderly(spots, from, end) && Faithful(cells, contents, spots, from) && from <= o < from + |cells|
    ensures (forall k :: 0 <= k < |spots| ==> !spots[k].Covers(o)) ==> o < |contents| && cells[o - from] == Raw(contents[o])
    ensures forall k :: 0 <= k < |spots| && spots[k].Covers(o) ==> cells[o - from] == Part(spots[k].relocations, o - spots[k].offset)
  {
    assert Belongs(cells[o - from], contents, spots, from + (o - from));
  }

  lemma {:induction false} FaithfulAppend(a: seq<Cell>, b: seq<Cell>, contents: seq<Byte>, spots: seq<Spot>, from: nat)
    requires Faithful(a, contents, spots, from) && Faithful(b, contents, spots, from + |a|)
    ensures Faithful(a + b, contents, spots, from)
  {
    forall i | 0 <= i < |a + b| ensures Belongs((a + b)[i], contents, spots, from + i) {
      if i >= |a| {
        assert Belongs(b[i - |a|], contents, spots, from + |a| + (i - |a|));
      }
    }
  }

  // The log takes the stream from `at` to `to`, with these labels and fields.
  ghost predicate Tells(log: seq<Event>, at: nat, to: nat, labels: seq<(string, nat)>, fields: seq<(seq<Relocation>, nat)>) {
    at + |Cells(log)| == to && Labels(log, at) == labels && Fields(log, at) == fields
  }

  lemma {:induction false} TellsBoth(a: seq<Event>, b: seq<Event>, at: nat, mid: nat, to: nat,
                                     la: seq<(string, nat)>, fa: seq<(seq<Relocation>, nat)>, lb: seq<(string, nat)>, fb: seq<(seq<Relocation>, nat)>)
    requires Tells(a, at, mid, la, fa) && Tells(b, mid, to, lb, fb)
    ensures Tells(a + b, at, to, la + lb, fa + fb)
  {
    CellsAppend(a, b);
    LabelsAppend(a, b, at);
    FieldsAppend(a, b, at);
  }

  // And the bytes are what they must be.
  ghost predicate Writes(log: seq<Event>, contents: seq<Byte>, spots: seq<Spot>, at: nat, to: nat,
                         labels: seq<(string, nat)>, fields: seq<(seq<Relocation>, nat)>) {
    Tells(log, at, to, labels, fields) && Faithful(Cells(log), contents, spots, at)
  }

  lemma {:induction false} Join(a: seq<Event>, b: seq<Event>, contents: seq<Byte>, spots: seq<Spot>, at: nat, mid: nat, to: nat,
                                la: seq<(string, nat)>, fa: seq<(seq<Relocation>, nat)>, lb: seq<(string, nat)>, fb: seq<(seq<Relocation>, nat)>)
    requires Writes(a, contents, spots, at, mid, la, fa) && Writes(b, contents, spots, mid, to, lb, fb)
    ensures Writes(a + b, contents, spots, at, to, la + lb, fa + fb)
  {
    TellsBoth(a, b, at, mid, to, la, fa, lb, fb);
    CellsAppend(a, b);
    FaithfulAppend(Cells(a), Cells(b), contents, spots, at);
  }

  // ----- data sections -----

  // The events of a place whose bytes come from `current` on.
  function GapTo(contents: seq<Byte>, current: nat, to: nat): seq<Event> {
    if current < to then [Bytes(Slice(contents, current, to))] else []
  }

  // As string references cut themselves: out of range is cut off.
  function Slice(contents: seq<Byte>, from: nat, to: nat): seq<Byte> {
    var a := if from > |contents| then |contents| else from;
    var b := if to > |contents| then |contents| else to;
    if a <= b then contents[a..b] else []
  }

  // The bytes from the first offset on that there are in front of the second.
  lemma {:induction false} SliceCuts(contents: seq<Byte>, from: nat, to: nat)
    ensures |Slice(contents, from, to)| == if from >= to || from >= |contents| then 0 else if to < |contents| then to - from else |contents| - from
    ensures forall i :: 0 <= i < |Slice(contents, from, to)| ==> Slice(contents, from, to)[i] == contents[from + i]
  {}

  function LabelsFor(symbols: seq<string>): seq<Event> {
    seq(|symbols|, i requires 0 <= i < |symbols| => Label(symbols[i]))
  }

  function FieldFor(s: Spot): seq<Event> {
    if s.relocations == [] then [] else [Field(s.relocations, s.Size())]
  }

  function EmitSpot(contents: seq<Byte>, s: Spot, current: nat): seq<Event> {
    GapTo(contents, current, s.offset) + LabelsFor(s.symbols) + FieldFor(s)
  }

  // The offset reached behind a place.
  function After(s: Spot, current: nat): nat { (if current < s.offset then s.offset else current) + s.Size() }

  // All places, and the raw bytes behind them up to `end`.
  function EmitSpots(contents: seq<Byte>, spots: seq<Spot>, current: nat, end: nat): seq<Event> {
    if spots == [] then GapTo(contents, current, end)
    else EmitSpot(contents, spots[0], current) + EmitSpots(contents, spots[1..], After(spots[0], current), end)
  }

  // The offset reached behind all places and the bytes up to `end`.
  function Reached(spots: seq<Spot>, current: nat, end: nat): nat {
    if spots == [] then (if current < end then end else current) else Reached(spots[1..], After(spots[0], current), end)
  }

  // All symbols and fields, each at its offset.
  function SpotLabels(spots: seq<Spot>): seq<(string, nat)> {
    if spots == [] then [] else LabelsOf(spots[0]) + SpotLabels(spots[1..])
  }

  function LabelsOf(s: Spot): seq<(string, nat)> {
    seq(|s.symbols|, i requires 0 <= i < |s.symbols| => (s.symbols[i], s.offset))
  }

  function SpotFields(spots: seq<Spot>): seq<(seq<Relocation>, nat)> {
    if spots == [] then [] else FieldsOf(spots[0]) + SpotFields(spots[1..])
  }

  function FieldsOf(s: Spot): seq<(seq<Relocation>, nat)> {
    if s.relocations == [] then [] else [(s.relocations, s.offset)]
  }

  // ----- one place -----

  lemma {:induction false} LabelEvents(symbols: seq<string>, at: nat)
    ensures Cells(LabelsFor(symbols)) == [] && Fields(LabelsFor(symbols), at) == []
    ensures Labels(LabelsFor(symbols), at) == seq(|symbols|, i requires 0 <= i < |symbols| => (symbols[i], at))
    decreases |symbols|
  {
    if symbols != [] {
      assert LabelsFor(symbols) == [Label(symbols[0])] + LabelsFor(symbols[1..]);
      LabelEvents(symbols[1..], at);
    }
  }

  lemma {:induction false} SymbolsWrite(contents: seq<Byte>, spots: seq<Spot>, s: Spot)
    ensures Writes(LabelsFor(s.symbols), contents, spots, s.offset, s.offset, LabelsOf(s), [])
  {
    LabelEvents(s.symbols, s.offset);
  }

  lemma {:induction false} One(e: Event, at: nat)
    ensures Cells([e]) == CellsOf(e) && Labels([e], at) == LabelAt(e, at) && Fields([e], at) == FieldAt(e, at)
  {
    assert [e][1..] == [] && CellsOf(e) + [] == CellsOf(e) && LabelAt(e, at) + [] == LabelAt(e, at) && FieldAt(e, at) + [] == FieldAt(e, at);
  }

  ghost predicate Free(spots: seq<Spot>, from: nat, to: nat) {
    forall k, o :: 0 <= k < |spots| && from <= o < to ==> !spots[k].Covers(o)
  }

  // Raw bytes up to an offset in range.
  lemma {:induction false} GapWrites(contents: seq<Byte>, spots: seq<Spot>, current: nat, to: nat)
    requires current <= to <= |contents| && Free(spots, current, to)
    ensures Writes(GapTo(contents, current, to), contents, spots, current, to, [], [])
  {
    if current < to {
      One(Bytes(Slice(contents, current, to)), current);
    }
  }

  lemma {:induction false} FieldWrites(contents: seq<Byte>, spots: seq<Spot>, k: nat)
    requires k < |spots|
    ensures var s := spots[k]; Writes(FieldFor(s), contents, spots, s.offset, s.Stop(), [], FieldsOf(s))
  {
    if spots[k].relocations != [] {
      One(Field(spots[k].relocations, spots[k].Size()), spots[k].offset);
    }
  }

  // ----- all places of a section -----

  // The places from the k-th on are ahead, the others behind.
  ghost predicate Ahead(spots: seq<Spot>, k: nat, current: nat) {
    && (forall j :: 0 <= j < k && j < |spots| ==> spots[j].Stop() <= current)
    && forall j :: k <= j < |spots| ==> current <= spots[j].offset
  }

  // The places from the k-th to the m-th lie in front of `to`, the others not.
  ghost predicate Upto(spots: seq<Spot>, k: nat, m: nat, to: nat) {
    && k <= m <= |spots| && (forall j :: k <= j < m ==> spots[j].Stop() <= to) && forall j :: m <= j < |spots| ==> to <= spots[j].offset
  }

  lemma {:induction false} AheadFree(spots: seq<Spot>, k: nat, current: nat, from: nat, end: nat)
    requires Orderly(spots, from, end) && k < |spots| && Ahead(spots, k, current)
    ensures Free(spots, current, spots[k].offset)
    ensures Ahead(spots, k + 1, spots[k].Stop()) && current <= spots[k].offset <= spots[k].Stop() <= end
  {}

  lemma {:induction false} EndFree(spots: seq<Spot>, k: nat, current: nat, to: nat)
    requires k <= |spots| && Ahead(spots, k, current) && Upto(spots, k, k, to)
    ensures Free(spots, current, to)
  {}

  lemma {:induction false} NoneAround<T>(s: seq<T>)
    ensures [] + s == s && s + [] == s
  {}

  lemma {:induction false} SpotWrites(contents: seq<Byte>, spots: seq<Spot>, k: nat, current: nat, from: nat, end: nat)
    requires Orderly(spots, from, end) && end <= |contents| && k < |spots| && Ahead(spots, k, current)
    ensures var s := spots[k];
            Writes(EmitSpot(contents, s, current), contents, spots, current, s.Stop(), LabelsOf(s), FieldsOf(s)) && After(s, current) == s.Stop()
  {
    var s := spots[k];
    var gap, labels, field := GapTo(contents, current, s.offset), LabelsFor(s.symbols), FieldFor(s);
    AheadFree(spots, k, current, from, end);
    GapWrites(contents, spots, current, s.offset);
    SymbolsWrite(contents, spots, s);
    FieldWrites(contents, spots, k);
    Join(gap, labels, contents, spots, current, s.offset, s.offset, [], [], LabelsOf(s), []);
    NoneAround(LabelsOf(s));
    Join(gap + labels, field, contents, spots, current, s.offset, s.Stop(), LabelsOf(s), [], [], FieldsOf(s));
    NoneAround(FieldsOf(s));
  }

  // A window of the places, written up to an offset in front of the next one.
  lemma {:induction false} WindowWrites(contents: seq<Byte>, spots: seq<Spot>, k: nat, m: nat, current: nat, to: nat, from: nat, end: nat)
    requires Orderly(spots, from, end) && end <= |contents| && Ahead(spots, k, current) && Upto(spots, k, m, to) && current <= to <= |contents|
    ensures Writes(EmitSpots(contents, spots[k..m], current, to), contents, spots, current, to, SpotLabels(spots[k..m]), SpotFields(spots[k..m]))
    ensures Ahead(spots, m, to) && Reached(spots[k..m], current, to) == to
    decreases m - k
  {
    if k == m {
      EndFree(spots, k, current, to);
      GapWrites(contents, spots, current, to);
    } else {
      var s, others := spots[k], spots[k + 1..m];
      assert spots[k..m][1..] == others && spots[k..m][0] == s;
      AheadFree(spots, k, current, from, end);
      SpotWrites(contents, spots, k, current, from, end);
      WindowWrites(contents, spots, k + 1, m, s.Stop(), to, from, end);
      Join(EmitSpot(contents, s, current), EmitSpots(contents, others, s.Stop(), to), contents, spots, current, s.Stop(), to,
           LabelsOf(s), FieldsOf(s), SpotLabels(others), SpotFields(others));
    }
  }

  // The stream of a section is as long as the section, changes only the bytes
  // of the fields, and has every label and field once, at its own offset.
  lemma {:induction false} SectionConserved(contents: seq<Byte>, spots: seq<Spot>)
    requires Orderly(spots, 0, |contents|)
    ensures Writes(EmitSpots(contents, spots, 0, |contents|), contents, spots, 0, |contents|, SpotLabels(spots), SpotFields(spots))
  {
    assert spots[0..|spots|] == spots;
    WindowWrites(contents, spots, 0, |spots|, 0, |contents|, 0, |contents|);
  }

  // ----- and only then -----

  // Places in order, none of them empty: what merging gives.
  ghost predicate Listed(spots: seq<Spot>) {
    && (forall k :: 0 <= k < |spots| ==> spots[k].symbols != [] || spots[k].relocations != [])
    && forall i, j :: 0 <= i < j < |spots| ==> spots[i].offset < spots[j].offset
  }

  // From `current` on, every label and field is where it belongs and the
  // stream ends at `end`.
  ghost predicate InPlace(contents: seq<Byte>, spots: seq<Spot>, current: nat, end: nat) {
    Tells(EmitSpots(contents, spots, current, end), current, end, SpotLabels(spots), SpotFields(spots))
  }

  lemma {:induction false} GapLands(contents: seq<Byte>, current: nat, to: nat)
    ensures Tells(GapTo(contents, current, to), current, current + |Cells(GapTo(contents, current, to))|, [], [])
  {
    if current < to {
      One(Bytes(Slice(contents, current, to)), current);
    }
  }

  lemma {:induction false} FieldLands(s: Spot)
    ensures Tells(FieldFor(s), s.offset, s.Stop(), [], FieldsOf(s))
  {
    if s.relocations != [] {
      One(Field(s.relocations, s.Size()), s.offset);
    }
  }

  lemma {:induction false} SymbolsLand(s: Spot)
    ensures Tells(LabelsFor(s.symbols), s.offset, s.offset, LabelsOf(s), [])
  {
    LabelEvents(s.symbols, s.offset);
  }

  // Where a place really lands: t is s behind the bytes in front of it.
  lemma {:induction false} SpotLands(contents: seq<Byte>, s: Spot, t: Spot, current: nat)
    requires t.offset == current + |Cells(GapTo(contents, current, s.offset))| && t.symbols == s.symbols && t.relocations == s.relocations
    ensures Tells(EmitSpot(contents, s, current), current, t.Stop(), LabelsOf(t), FieldsOf(t))
  {
    var gap, labels, field := GapTo(contents, current, s.offset), LabelsFor(t.symbols), FieldFor(t);
    GapLands(contents, current, s.offset);
    SymbolsLand(t);
    FieldLands(t);
    TellsBoth(gap, labels, current, t.offset, t.offset, [], [], LabelsOf(t), []);
    NoneAround(LabelsOf(t));
    TellsBoth(gap + labels, field, current, t.offset, t.Stop(), LabelsOf(t), [], [], FieldsOf(t));
    NoneAround(FieldsOf(t));
  }

  lemma {:induction false} FirstSame<T>(a: seq<T>, b: seq<T>, c: seq<T>, d: seq<T>)
    requires |a| == |c| && a + b == c + d
    ensures a == c && b == d
  {
    assert a == (a + b)[..|a|] && b == (a + b)[|a|..];
    assert c == (c + d)[..|c|] && d == (c + d)[|c|..];
  }

  // A place in its place leaves the others in theirs.
  lemma {:induction false} FirstInPlace(contents: seq<Byte>, s: Spot, rest: seq<Spot>, current: nat, end: nat)
    requires (s.symbols != [] || s.relocations != []) && InPlace(contents, [s] + rest, current, end)
    ensures current <= s.offset && s.Stop() <= end && InPlace(contents, rest, s.Stop(), end)
  {
    var first, more := EmitSpot(contents, s, current), EmitSpots(contents, rest, After(s, current), end);
    var p := current + |Cells(GapTo(contents, current, s.offset))|;
    var t := s.(offset := p);
    assert ([s] + rest)[1..] == rest;
    SpotLands(contents, s, t, current);
    Split(first, more, current, t.Stop(), LabelsOf(t), FieldsOf(t), end, LabelsOf(s), FieldsOf(s), SpotLabels(rest), SpotFields(rest));
    LandsAt(s, p);
    assert After(s, current) == s.Stop();
  }

  // A log whose first part is known.
  lemma {:induction false} Split(a: seq<Event>, b: seq<Event>, at: nat, mid: nat, la: seq<(string, nat)>, fa: seq<(seq<Relocation>, nat)>, to: nat,
                                 l: seq<(string, nat)>, f: seq<(seq<Relocation>, nat)>, lb: seq<(string, nat)>, fb: seq<(seq<Relocation>, nat)>)
    requires Tells(a, at, mid, la, fa) && |l| == |la| && |f| == |fa| && Tells(a + b, at, to, l + lb, f + fb)
    ensures l == la && f == fa && Tells(b, mid, to, lb, fb)
  {
    CellsAppend(a, b);
    LabelsAppend(a, b, at);
    FieldsAppend(a, b, at);
    FirstSame(la, Labels(b, mid), l, lb);
    FirstSame(fa, Fields(b, mid), f, fb);
  }

  lemma {:induction false} LandsAt(s: Spot, p: nat)
    requires s.symbols != [] || s.relocations != []
    requires LabelsOf(s.(offset := p)) == LabelsOf(s) && FieldsOf(s.(offset := p)) == FieldsOf(s)
    ensures p == s.offset
  {
    if s.symbols != [] {
      assert LabelsOf(s.(offset := p))[0] == LabelsOf(s)[0];
    } else {
      assert FieldsOf(s.(offset := p))[0] == FieldsOf(s)[0];
    }
  }

  lemma {:induction false} InPlaceOrderly(contents: seq<Byte>, spots: seq<Spot>, current: nat, end: nat)
    requires Listed(spots) && InPlace(contents, spots, current, end)
    ensures Orderly(spots, current, end)
    decreases |spots|
  {
    if spots != [] {
      var s, rest := spots[0], spots[1..];
      assert [s] + rest == spots;
      FirstInPlace(contents, s, rest, current, end);
      InPlaceOrderly(contents, rest, s.Stop(), end);
      OrderlyCons(s, rest, current, end);
    }
  }

  lemma {:induction false} OrderlyCons(s: Spot, rest: seq<Spot>, current: nat, end: nat)
    requires Listed([s] + rest) && Orderly(rest, s.Stop(), end) && current <= s.offset && s.Stop() <= end
    ensures Orderly([s] + rest, current, end)
  {}

  // A section is conserved exactly when its fields do not run into the next
  // place or out of the section.
  lemma {:induction false} ConservedExactly(contents: seq<Byte>, spots: seq<Spot>)
    requires Listed(spots)
    ensures Orderly(spots, 0, |contents|) <==> InPlace(contents, spots, 0, |contents|)
  {
    if Orderly(spots, 0, |contents|) {
      SectionConserved(contents, spots);
    }
    if InPlace(contents, spots, 0, |contents|) {
      InPlaceOrderly(contents, spots, 0, |contents|);
    }
  }

  // ----- merging by offset -----

  // A place added to the ordered map of places.
  function Put(spots: seq<Spot>, s: Spot): seq<Spot> {
    if spots == [] || s.offset < spots[0].offset then [s] + spots
    else if s.offset == spots[0].offset then
      [Spot(s.offset, spots[0].symbols + s.symbols, spots[0].relocations + s.relocations)] + spots[1..]
    else [spots[0]] + Put(spots[1..], s)
  }

  function PutSymbols(spots: seq<Spot>, symbols: seq<(nat, string)>): seq<Spot>
    decreases |symbols|
  {
    if symbols == [] then spots else PutSymbols(Put(spots, Spot(symbols[0].0, [symbols[0].1], [])), symbols[1..])
  }

  function PutRelocations(spots: seq<Spot>, relocations: seq<Relocation>): seq<Spot>
    decreases |relocations|
  {
    if relocations == [] then spots else PutRelocations(Put(spots, Spot(relocations[0].offset, [], [relocations[0]])), relocations[1..])
  }

  function Merge(symbols: seq<(nat, string)>, relocations: seq<Relocation>): seq<Spot> {
    PutRelocations(PutSymbols([], symbols), relocations)
  }

  // A place holds something, all of it from the section and at its offset.
  ghost predicate Stems(s: Spot, symbols: seq<(nat, string)>, relocations: seq<Relocation>) {
    && (s.symbols != [] || s.relocations != [])
    && (forall n :: n in s.symbols ==> (s.offset, n) in symbols)
    && forall r :: r in s.relocations ==> r.offset == s.offset && r in relocations
  }

  ghost predicate Merged(spots: seq<Spot>, symbols: seq<(nat, string)>, relocations: seq<Relocation>) {
    && (forall k :: 0 <= k < |spots| ==> Stems(spots[k], symbols, relocations))
    && forall i, j :: 0 <= i < j < |spots| ==> spots[i].offset < spots[j].offset
  }

  lemma {:induction false} PutMerged(spots: seq<Spot>, s: Spot, symbols: seq<(nat, string)>, relocations: seq<Relocation>)
    requires Merged(spots, symbols, relocations) && Stems(s, symbols, relocations)
    ensures Merged(Put(spots, s), symbols, relocations)
    ensures forall k :: 0 <= k < |Put(spots, s)| ==> (spots != [] && spots[0].offset <= Put(spots, s)[k].offset) || s.offset <= Put(spots, s)[k].offset
    decreases |spots|
  {
    if spots != [] && s.offset > spots[0].offset {
      assert Merged(spots[1..], symbols, relocations);
      PutMerged(spots[1..], s, symbols, relocations);
      assert |spots| > 1 ==> spots[0].offset < spots[1..][0].offset;
    }
  }

  lemma {:induction false} SymbolsMerged(spots: seq<Spot>, some: seq<(nat, string)>, symbols: seq<(nat, string)>, relocations: seq<Relocation>)
    requires Merged(spots, symbols, relocations) && forall x :: x in some ==> x in symbols
    ensures Merged(PutSymbols(spots, some), symbols, relocations)
    decreases |some|
  {
    if some != [] {
      var s := Spot(some[0].0, [some[0].1], []);
      assert some[0] in symbols;
      PutMerged(spots, s, symbols, relocations);
      SymbolsMerged(Put(spots, s), some[1..], symbols, relocations);
    }
  }

  lemma {:induction false} RelocationsMerged(spots: seq<Spot>, some: seq<Relocation>, symbols: seq<(nat, string)>, relocations: seq<Relocation>)
    requires Merged(spots, symbols, relocations) && forall x :: x in some ==> x in relocations
    ensures Merged(PutRelocations(spots, some), symbols, relocations)
    decreases |some|
  {
    if some != [] {
      var s := Spot(some[0].offset, [], [some[0]]);
      assert some[0] in relocations;
      PutMerged(spots, s, symbols, relocations);
      RelocationsMerged(Put(spots, s), some[1..], symbols, relocations);
    }
  }

  // Fields do not overlap unless they start together, nothing lies strictly
  // inside one, and all is in range.
  ghost predicate Separate(symbols: seq<(nat, string)>, relocations: seq<Relocation>, end: nat) {
    && (forall x :: x in symbols ==> x.0 <= end)
    && (forall r :: r in relocations ==> r.offset + r.size <= end)
    && (forall r, q :: r in relocations && q in relocations && r.offset < q.offset ==> r.offset + r.size <= q.offset)
    && (forall r, x :: r in relocations && x in symbols && r.offset < x.0 ==> r.offset + r.size <= x.0)
  }

  lemma {:induction false} MergedOrderly(spots: seq<Spot>, symbols: seq<(nat, string)>, relocations: seq<Relocation>, end: nat)
    requires Merged(spots, symbols, relocations) && Separate(symbols, relocations, end)
    ensures Orderly(spots, 0, end)
  {
    forall k | 0 <= k < |spots| ensures spots[k].Stop() <= end {
      SpotEnds(spots[k], symbols, relocations, end);
    }
    forall i, j | 0 <= i < j < |spots| ensures spots[i].Stop() <= spots[j].offset {
      SpotsApart(spots[i], spots[j], symbols, relocations, end);
    }
  }

  lemma {:induction false} SpotEnds(s: Spot, symbols: seq<(nat, string)>, relocations: seq<Relocation>, end: nat)
    requires Stems(s, symbols, relocations) && Separate(symbols, relocations, end)
    ensures s.Stop() <= end
  {
    if s.relocations != [] {
      assert s.relocations[|s.relocations| - 1] in s.relocations;
    } else {
      assert s.symbols[0] in s.symbols;
      assert (s.offset, s.symbols[0]) in symbols;
    }
  }

  lemma {:induction false} SpotsApart(s: Spot, t: Spot, symbols: seq<(nat, string)>, relocations: seq<Relocation>, end: nat)
    requires Stems(s, symbols, relocations) && Stems(t, symbols, relocations) && s.offset < t.offset && Separate(symbols, relocations, end)
    ensures s.Stop() <= t.offset
  {
    if s.relocations != [] {
      var r := s.relocations[|s.relocations| - 1];
      assert r in s.relocations;
      if t.relocations != [] {
        assert t.relocations[0] in t.relocations;
      } else {
        assert t.symbols[0] in t.symbols;
        assert (t.offset, t.symbols[0]) in symbols;
      }
    }
  }

  // Nothing is lost or doubled.
  function Pairs(symbols: seq<(nat, string)>): multiset<(string, nat)> {
    if symbols == [] then multiset{} else multiset{(symbols[0].1, symbols[0].0)} + Pairs(symbols[1..])
  }

  function RelocationsOf(spots: seq<Spot>): multiset<Relocation> {
    if spots == [] then multiset{} else multiset(spots[0].relocations) + RelocationsOf(spots[1..])
  }

  lemma {:induction false} PutKeeps(spots: seq<Spot>, s: Spot)
    ensures multiset(SpotLabels(Put(spots, s))) == multiset(SpotLabels(spots)) + multiset(LabelsOf(s))
    ensures RelocationsOf(Put(spots, s)) == RelocationsOf(spots) + multiset(s.relocations)
    decreases |spots|
  {
    if spots == [] || s.offset < spots[0].offset {
      assert ([s] + spots)[1..] == spots;
    } else if s.offset == spots[0].offset {
      var t := Spot(s.offset, spots[0].symbols + s.symbols, spots[0].relocations + s.relocations);
      assert ([t] + spots[1..])[1..] == spots[1..];
      assert LabelsOf(t) == LabelsOf(spots[0]) + LabelsOf(s);
    } else {
      PutKeeps(spots[1..], s);
      assert ([spots[0]] + Put(spots[1..], s))[1..] == Put(spots[1..], s);
    }
  }

  lemma {:induction false} SymbolsKept(spots: seq<Spot>, symbols: seq<(nat, string)>)
    ensures multiset(SpotLabels(PutSymbols(spots, symbols))) == multiset(SpotLabels(spots)) + Pairs(symbols)
    ensures RelocationsOf(PutSymbols(spots, symbols)) == RelocationsOf(spots)
    decreases |symbols|
  {
    if symbols != [] {
      var s := Spot(symbols[0].0, [symbols[0].1], []);
      PutKeeps(spots, s);
      assert LabelsOf(s) == [(symbols[0].1, symbols[0].0)];
      SymbolsKept(Put(spots, s), symbols[1..]);
    }
  }

  lemma {:induction false} RelocationsKept(spots: seq<Spot>, relocations: seq<Relocation>)
    ensures multiset(SpotLabels(PutRelocations(spots, relocations))) == multiset(SpotLabels(spots))
    ensures RelocationsOf(PutRelocations(spots, relocations)) == RelocationsOf(spots) + multiset(relocations)
    decreases |relocations|
  {
    if relocations == [] {
    } else {
      var s := Spot(relocations[0].offset, [], [relocations[0]]);
      PutKeeps(spots, s);
      RelocationsKept(Put(spots, s), relocations[1..]);
      assert relocations == [relocations[0]] + relocations[1..];
    }
  }

  // From the symbols and relocations of a section to its stream.
  lemma {:induction false} DataConserved(contents: seq<Byte>, symbols: seq<(nat, string)>, relocations: seq<Relocation>)
    requires Separate(symbols, relocations, |contents|)
    ensures var spots := Merge(symbols, relocations); var log := EmitSpots(contents, spots, 0, |contents|);
            && |Cells(log)| == |contents| && Faithful(Cells(log), contents, spots, 0)
            && multiset(Labels(log, 0)) == Pairs(symbols)
            && Fields(log, 0) == SpotFields(spots) && RelocationsOf(spots) == multiset(relocations)
            && Merged(spots, symbols, relocations)
  {
    var some := PutSymbols([], symbols);
    SymbolsMerged([], symbols, symbols, relocations);
    RelocationsMerged(some, relocations, symbols, relocations);
    MergedOrderly(Merge(symbols, relocations), symbols, relocations, |contents|);
    SectionConserved(contents, Merge(symbols, relocations));
    SymbolsKept([], symbols);
    RelocationsKept(some, relocations);
  }

  // For any symbols and relocations of a section.
  lemma {:induction false} MergeExact(contents: seq<Byte>, symbols: seq<(nat, string)>, relocations: seq<Relocation>)
    ensures var spots := Merge(symbols, relocations);
            Orderly(spots, 0, |contents|) <==> InPlace(contents, spots, 0, |contents|)
  {
    SymbolsMerged([], symbols, symbols, relocations);
    RelocationsMerged(PutSymbols([], symbols), relocations, symbols, relocations);
    ConservedExactly(contents, Merge(symbols, relocations));
  }

  // ----- what is at an offset -----

  // The symbols and relocations of an offset, in the order of the section.
  function SymbolsAt(symbols: seq<(nat, string)>, o: nat): seq<string> {
    if symbols == [] then [] else (if symbols[0].0 == o then [symbols[0].1] else []) + SymbolsAt(symbols[1..], o)
  }

  function RelocationsAt(relocations: seq<Relocation>, o: nat): seq<Relocation> {
    if relocations == [] then [] else (if relocations[0].offset == o then [relocations[0]] else []) + RelocationsAt(relocations[1..], o)
  }

  // The same of places.
  function SymbolsThere(spots: seq<Spot>, o: nat): seq<string> {
    if spots == [] then [] else (if spots[0].offset == o then spots[0].symbols else []) + SymbolsThere(spots[1..], o)
  }

  function RelocationsThere(spots: seq<Spot>, o: nat): seq<Relocation> {
    if spots == [] then [] else (if spots[0].offset == o then spots[0].relocations else []) + RelocationsThere(spots[1..], o)
  }

  ghost predicate Ascending(spots: seq<Spot>) { forall i, j :: 0 <= i < j < |spots| ==> spots[i].offset < spots[j].offset }

  lemma {:induction false} NothingThere(spots: seq<Spot>, o: nat)
    requires forall k :: 0 <= k < |spots| ==> spots[k].offset != o
    ensures SymbolsThere(spots, o) == [] && RelocationsThere(spots, o) == []
    decreases |spots|
  {
    if spots != [] {
      NothingThere(spots[1..], o);
    }
  }

  // Each place of an ascending list is what is at its offset.
  lemma {:induction false} OnlyThere(spots: seq<Spot>, k: nat)
    requires Ascending(spots) && k < |spots|
    ensures SymbolsThere(spots, spots[k].offset) == spots[k].symbols && RelocationsThere(spots, spots[k].offset) == spots[k].relocations
    decreases |spots|
  {
    if k == 0 {
      NothingThere(spots[1..], spots[0].offset);
      NoneAround(spots[0].symbols);
      NoneAround(spots[0].relocations);
    } else {
      OnlyThere(spots[1..], k - 1);
    }
  }

  lemma {:induction false} ThereCons(s: Spot, rest: seq<Spot>, o: nat)
    ensures SymbolsThere([s] + rest, o) == (if s.offset == o then s.symbols else []) + SymbolsThere(rest, o)
    ensures RelocationsThere([s] + rest, o) == (if s.offset == o then s.relocations else []) + RelocationsThere(rest, o)
  {
    assert ([s] + rest)[1..] == rest;
  }

  // A place that is put comes behind what is at its offset.
  lemma {:induction false} PutThere(spots: seq<Spot>, s: Spot, o: nat)
    requires Ascending(spots)
    ensures SymbolsThere(Put(spots, s), o) == SymbolsThere(spots, o) + if s.offset == o then s.symbols else []
    ensures RelocationsThere(Put(spots, s), o) == RelocationsThere(spots, o) + if s.offset == o then s.relocations else []
    decreases |spots|
  {
    hide SymbolsThere, RelocationsThere;
    if spots == [] || s.offset < spots[0].offset {
      ThereCons(s, spots, o);
      if s.offset == o {
        NothingThere(spots, o);
      }
    } else {
      var first, rest := spots[0], spots[1..];
      assert spots == [first] + rest;
      ThereCons(first, rest, o);
      if s.offset == first.offset {
        PutOn(first, s, rest, o);
      } else {
        PutThere(rest, s, o);
        ThereCons(first, Put(rest, s), o);
      }
    }
  }

  lemma {:induction false} PutOn(first: Spot, s: Spot, rest: seq<Spot>, o: nat)
    requires s.offset == first.offset && forall k :: 0 <= k < |rest| ==> first.offset < rest[k].offset
    ensures var t := Spot(s.offset, first.symbols + s.symbols, first.relocations + s.relocations);
            && SymbolsThere([t] + rest, o) == SymbolsThere([first] + rest, o) + (if s.offset == o then s.symbols else [])
            && RelocationsThere([t] + rest, o) == RelocationsThere([first] + rest, o) + if s.offset == o then s.relocations else []
  {
    hide SymbolsThere, RelocationsThere;
    ThereCons(first, rest, o);
    ThereCons(Spot(s.offset, first.symbols + s.symbols, first.relocations + s.relocations), rest, o);
    if s.offset == o {
      NothingThere(rest, o);
    }
  }

  lemma {:induction false} PutAscends(spots: seq<Spot>, s: Spot)
    requires Ascending(spots)
    ensures Ascending(Put(spots, s))
    ensures forall k :: 0 <= k < |Put(spots, s)| ==> Put(spots, s)[k].offset == s.offset || exists j :: 0 <= j < |spots| && Put(spots, s)[k].offset == spots[j].offset
    decreases |spots|
  {
    if spots != [] && s.offset > spots[0].offset {
      PutAscends(spots[1..], s);
    }
  }

  lemma {:induction false} SymbolsThereAll(spots: seq<Spot>, symbols: seq<(nat, string)>, o: nat)
    requires Ascending(spots)
    ensures Ascending(PutSymbols(spots, symbols))
    ensures SymbolsThere(PutSymbols(spots, symbols), o) == SymbolsThere(spots, o) + SymbolsAt(symbols, o)
    ensures RelocationsThere(PutSymbols(spots, symbols), o) == RelocationsThere(spots, o)
    decreases |symbols|
  {
    if symbols != [] {
      var s := Spot(symbols[0].0, [symbols[0].1], []);
      PutAscends(spots, s);
      PutThere(spots, s, o);
      SymbolsThereAll(Put(spots, s), symbols[1..], o);
    }
  }

  lemma {:induction false} RelocationsThereAll(spots: seq<Spot>, relocations: seq<Relocation>, o: nat)
    requires Ascending(spots)
    ensures Ascending(PutRelocations(spots, relocations))
    ensures SymbolsThere(PutRelocations(spots, relocations), o) == SymbolsThere(spots, o)
    ensures RelocationsThere(PutRelocations(spots, relocations), o) == RelocationsThere(spots, o) + RelocationsAt(relocations, o)
    decreases |relocations|
  {
    if relocations != [] {
      var s := Spot(relocations[0].offset, [], [relocations[0]]);
      PutAscends(spots, s);
      PutThere(spots, s, o);
      RelocationsThereAll(Put(spots, s), relocations[1..], o);
    }
  }

  ghost predicate IsPlace(spots: seq<Spot>, o: nat) { exists k :: 0 <= k < |spots| && spots[k].offset == o }

  // Merging gives, in ascending order, one place for each offset of a symbol
  // or relocation, with all of them in the order of the section.
  lemma {:induction false} MergePlaces(symbols: seq<(nat, string)>, relocations: seq<Relocation>, o: nat)
    ensures var spots := Merge(symbols, relocations);
            && Ascending(spots)
            && (IsPlace(spots, o) <==> SymbolsAt(symbols, o) != [] || RelocationsAt(relocations, o) != [])
            && forall k :: 0 <= k < |spots| && spots[k].offset == o ==>
                 spots[k] == Spot(o, SymbolsAt(symbols, o), RelocationsAt(relocations, o))
  {
    var some, spots := PutSymbols([], symbols), Merge(symbols, relocations);
    SymbolsThereAll([], symbols, o);
    RelocationsThereAll(some, relocations, o);
    NoneAround(SymbolsAt(symbols, o));
    NoneAround(RelocationsAt(relocations, o));
    forall k | 0 <= k < |spots| && spots[k].offset == o ensures spots[k] == Spot(o, SymbolsAt(symbols, o), RelocationsAt(relocations, o)) {
      OnlyThere(spots, k);
    }
    SymbolsMerged([], symbols, symbols, relocations);
    RelocationsMerged(some, relocations, symbols, relocations);
    if IsPlace(spots, o) {
      var k :| 0 <= k < |spots| && spots[k].offset == o;
      assert Stems(spots[k], symbols, relocations);
    } else {
      NothingThere(spots, o);
    }
  }
}
