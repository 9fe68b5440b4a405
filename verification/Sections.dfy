/**
  What a data section is told to the streamer (lib/Rewriter/Emit.cpp), in terms
  of the section's own fields.
 */
module Sections {
  import opened Emission
  import opened Emitter
  import Layout

  // The bytes that are written: the new ones if there are any.
  ghost predicate Written(s: Section, data: seq<Byte>) {
    (s.finalized ==> data == s.outputContents) && (!s.finalized ==> data == s.contents)
  }

  // Every symbol lies in the section, its end included; fields lie in the
  // section, do not run into each other unless they start together, and hold
  // no symbol strictly inside.
  ghost predicate Sound(s: Section, size: nat) {
    && size < Layout.WORD
    && (forall x :: x in s.symbols ==> s.address <= x.0 <= s.address + size)
    && (forall r :: r in s.relocations ==> r.offset + r.size <= size)
    && (forall r, q :: r in s.relocations && q in s.relocations && r.offset < q.offset ==> r.offset + r.size <= q.offset)
    && (forall r, x :: r in s.relocations && x in s.symbols && s.address + r.offset < x.0 ==> s.address + r.offset + r.size <= x.0)
  }

  // Each symbol with its distance from the start of the section.
  function Distances(s: Section): (r: seq<(string, nat)>)
    requires forall x :: x in s.symbols ==> s.address <= x.0
    ensures |r| == |s.symbols|
  {
    seq(|s.symbols|, i requires 0 <= i < |s.symbols| => Distance(s, s.symbols[i]))
  }

  function Distance(s: Section, x: (nat, string)): (string, nat)
    requires s.address <= x.0
  {
    (x.1, x.0 - s.address)
  }

  lemma {:induction false} OffsetIs(s: Section, size: nat, i: nat)
    requires Sound(s, size) && i < |s.symbols|
    ensures s.Offsets()[i] == (s.symbols[i].0 - s.address, s.symbols[i].1)
  {
    assert s.symbols[i] in s.symbols;
  }

  lemma {:induction false} PairsAre(symbols: seq<(nat, string)>, pairs: seq<(string, nat)>)
    requires |pairs| == |symbols| && forall i :: 0 <= i < |symbols| ==> pairs[i] == (symbols[i].1, symbols[i].0)
    ensures Pairs(symbols) == multiset(pairs)
    decreases |symbols|
  {
    if symbols != [] {
      PairsAre(symbols[1..], pairs[1..]);
      assert pairs == [pairs[0]] + pairs[1..];
    }
  }

  lemma {:induction false} SoundSeparate(s: Section)
    requires Sound(s, |s.Bytes()|)
    ensures Separate(s.Offsets(), s.relocations, |s.Bytes()|)
    ensures Pairs(s.Offsets()) == multiset(Distances(s))
  {
    var size := |s.Bytes()|;
    forall i | 0 <= i < |s.symbols| ensures s.symbols[i] in s.symbols && s.Offsets()[i] == (s.symbols[i].0 - s.address, s.symbols[i].1) {
      OffsetIs(s, size, i);
    }
    PairsAre(s.Offsets(), Distances(s));
  }

  // No field covers the offset.
  ghost predicate Bare(s: Section, o: nat) { forall r :: r in s.relocations ==> !(r.offset <= o < r.offset + r.size) }

  lemma {:induction false} BareUncovered(s: Section, spots: seq<Spot>, symbols: seq<(nat, string)>, o: nat, k: nat)
    requires Merged(spots, symbols, s.relocations) && Bare(s, o) && k < |spots|
    ensures !spots[k].Covers(o)
  {
    assert Stems(spots[k], symbols, s.relocations);
    if spots[k].relocations != [] {
      var last := spots[k].relocations[|spots[k].relocations| - 1];
      assert last in spots[k].relocations;
    }
  }

  lemma {:induction false} FieldIn(spots: seq<Spot>, k: nat)
    requires k < |spots| && spots[k].relocations != []
    ensures (spots[k].relocations, spots[k].offset) in SpotFields(spots)
    decreases |spots|
  {
    if k > 0 {
      FieldIn(spots[1..], k - 1);
    }
  }

  lemma {:induction false} AtHas(relocations: seq<Relocation>, r: Relocation)
    requires r in relocations
    ensures r in RelocationsAt(relocations, r.offset)
    decreases |relocations|
  {
    if relocations[0] != r {
      AtHas(relocations[1..], r);
    }
  }

  // The field of a relocation holds all relocations of its offset, in order,
  // and is as long as the last of them.
  ghost predicate FieldThere(s: Section, cells: seq<Cell>, fields: seq<(seq<Relocation>, nat)>, r: Relocation) {
    var rs := RelocationsAt(s.relocations, r.offset);
    && rs != [] && r in rs && (rs, r.offset) in fields
    && r.offset + rs[|rs| - 1].size <= |cells|
    && forall o :: r.offset <= o < r.offset + rs[|rs| - 1].size ==> cells[o] == Part(rs, o - r.offset)
  }

  lemma {:induction false} PlaceOf(s: Section, r: Relocation) returns (k: nat)
    requires r in s.relocations
    ensures k < |s.Spots()| && s.Spots()[k].offset == r.offset
    ensures s.Spots()[k].relocations == RelocationsAt(s.relocations, r.offset) && r in s.Spots()[k].relocations
  {
    hide SymbolsAt, RelocationsAt;
    AtHas(s.relocations, r);
    MergePlaces(s.Offsets(), s.relocations, r.offset);
    k :| 0 <= k < |s.Spots()| && s.Spots()[k].offset == r.offset;
  }

  lemma {:induction false} BodyFields(s: Section)
    requires Sound(s, |s.Bytes()|)
    ensures Fields(s.Body(), 0) == SpotFields(s.Spots())
  {
    hide Fields, SpotFields, Sound, Separate, Faithful, Merged, Section.Spots, Section.Body;
    SoundSeparate(s);
    BodyConserved(s);
  }

  lemma {:induction false} SpotsOrderly(s: Section)
    requires Sound(s, |s.Bytes()|)
    ensures Orderly(s.Spots(), 0, |s.Bytes()|) && Faithful(Cells(s.Body()), s.Bytes(), s.Spots(), 0) && |Cells(s.Body())| == |s.Bytes()|
  {
    hide Cells, Sound, Separate, Faithful, Merged, Orderly, Section.Spots, Section.Body;
    SoundSeparate(s);
    BodyConserved(s);
    MergedOrderly(s.Spots(), s.Offsets(), s.relocations, |s.Bytes()|);
  }

  lemma {:induction false} BodyPart(s: Section, k: nat, o: nat)
    requires Sound(s, |s.Bytes()|) && k < |s.Spots()| && s.Spots()[k].Covers(o)
    ensures o < |Cells(s.Body())| && Cells(s.Body())[o] == Part(s.Spots()[k].relocations, o - s.Spots()[k].offset)
  {
    hide Cells, Merge, Sound, Faithful, Section.Body, Section.Spots;
    SpotsOrderly(s);
    assert s.Spots()[k].Stop() <= |s.Bytes()|;
    Overlaid(Cells(s.Body()), s.Bytes(), s.Spots(), 0, |s.Bytes()|, o);
  }

  lemma {:induction false} BodyField(s: Section, r: Relocation)
    requires Sound(s, |s.Bytes()|) && r in s.relocations
    ensures FieldThere(s, Cells(s.Body()), Fields(s.Body(), 0), r)
  {
    hide Cells, Fields, SpotFields, Merge, Section.Body, Section.Spots, Sound, SymbolsAt;
    var spots, cells := s.Spots(), Cells(s.Body());
    BodyFields(s);
    var k := PlaceOf(s, r);
    FieldIn(spots, k);
    var rs := RelocationsAt(s.relocations, r.offset);
    SpotsOrderly(s);
    assert spots[k].Stop() == r.offset + rs[|rs| - 1].size <= |cells|;
    forall o | r.offset <= o < r.offset + rs[|rs| - 1].size ensures cells[o] == Part(rs, o - r.offset) {
      BodyPart(s, k, o);
    }
  }

  lemma {:induction false} BodyByte(s: Section, o: nat)
    requires Sound(s, |s.Bytes()|) && o < |s.Bytes()| && Bare(s, o)
    ensures o < |Cells(s.Body())| && Cells(s.Body())[o] == Raw(s.Bytes()[o])
  {
    var spots, data := s.Spots(), s.Bytes();
    SoundSeparate(s);
    BodyConserved(s);
    MergedOrderly(spots, s.Offsets(), s.relocations, |data|);
    forall k | 0 <= k < |spots| ensures !spots[k].Covers(o) {
      BareUncovered(s, spots, s.Offsets(), o, k);
    }
    Overlaid(Cells(s.Body()), data, spots, 0, |data|, o);
  }

  lemma {:induction false} HeadTells(name: string, alignment: nat, body: seq<Event>)
    ensures var log := [Switch(name), Align(alignment)] + body;
            Cells(log) == Cells(body) && Labels(log, 0) == Labels(body, 0) && Fields(log, 0) == Fields(body, 0)
  {
    var rest := [Align(alignment)] + body;
    assert [Switch(name), Align(alignment)] + body == [Switch(name)] + rest;
    CellsCons(Switch(name), rest);
    CellsCons(Align(alignment), body);
    LabelsCons(Switch(name), rest, 0);
    LabelsCons(Align(alignment), body, 0);
    FieldsCons(Switch(name), rest, 0);
    FieldsCons(Align(alignment), body, 0);
  }

  // A section is left out exactly when it is not allocated, holds no data or
  // holds code. Of any other the streamer is told the name, the alignment, and
  // then: as many bytes as are written; every symbol as a label, once, at its
  // distance from the start of the section; the bytes as they are where no
  // field is; and the field of every relocation at its offset.
  lemma {:induction false} SectionTold(s: Section, data: seq<Byte>)
    requires Written(s, data) && Sound(s, |data|)
    ensures SectionLog(s) == [] <==> !s.allocatable || !s.isData || s.text
    ensures s.allocatable && s.isData && !s.text ==>
              var log := SectionLog(s);
              && |log| >= 2 && log[0] == Switch(s.name) && log[1] == Align(s.alignment)
              && |Cells(log)| == |data|
              && multiset(Labels(log, 0)) == multiset(Distances(s))
              && (forall o :: 0 <= o < |data| && Bare(s, o) ==> Cells(log)[o] == Raw(data[o]))
              && (forall r :: r in s.relocations ==> FieldThere(s, Cells(log), Fields(log, 0), r))
  {
    hide Cells, Labels, Fields, EmitSpots, Merge, FieldThere, Bare, Sound, Separate, Faithful, Merged, Pairs, Section.Spots, Section.Body;
    assert data == s.Bytes();
    SoundSeparate(s);
    BodyConserved(s);
    HeadTells(s.name, s.alignment, s.Body());
    forall o | 0 <= o < |data| && Bare(s, o) ensures Cells(s.Body())[o] == Raw(data[o]) {
      BodyByte(s, o);
    }
    forall r | r in s.relocations ensures FieldThere(s, Cells(s.Body()), Fields(s.Body(), 0), r) {
      BodyField(s, r);
    }
  }
}
