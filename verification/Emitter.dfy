/**
  The emission loops as the code runs them (lib/Rewriter/Emit.cpp), against
  what the streamer must have been told.
 */
module Emitter {
  import opened Wrappers
  import opened Emission
  import opened Islands
  import Layout

  // ----- sections -----

  datatype Section = Section(
    name: string, allocatable: bool, isData: bool, text: bool, finalized: bool, contents: seq<Byte>, outputContents: seq<Byte>,
    address: nat, alignment: nat, symbols: seq<(nat, string)>, relocations: seq<Relocation>)
  {
    predicate Skipped() { !allocatable || !isData || text }

    function Bytes(): seq<Byte> { if finalized then outputContents else contents }

    // The symbols with their offsets in the section.
    function Offsets(): seq<(nat, string)> {
      seq(|symbols|, i requires 0 <= i < |symbols| => ((symbols[i].0 - address) % Layout.WORD, symbols[i].1))
    }

    function Spots(): seq<Spot> { Merge(Offsets(), relocations) }

    function Body(): seq<Event> {
      if Spots() == [] then [Event.Bytes(Bytes())] else EmitSpots(Bytes(), Spots(), 0, |Bytes()|)
    }
  }

  function SectionLog(s: Section): seq<Event> {
    if s.Skipped() then [] else [Switch(s.name), Align(s.alignment)] + s.Body()
  }

  function SectionLogs(sections: seq<Section>): seq<Event> {
    if sections == [] then [] else SectionLog(sections[0]) + SectionLogs(sections[1..])
  }

  // With or without anything to merge, the section keeps its bytes.
  lemma {:induction false} BodyConserved(s: Section)
    requires Separate(s.Offsets(), s.relocations, |s.Bytes()|)
    ensures |Cells(s.Body())| == |s.Bytes()| && Faithful(Cells(s.Body()), s.Bytes(), s.Spots(), 0)
    ensures multiset(Labels(s.Body(), 0)) == Pairs(s.Offsets()) && Fields(s.Body(), 0) == SpotFields(s.Spots())
    ensures RelocationsOf(s.Spots()) == multiset(s.relocations) && Merged(s.Spots(), s.Offsets(), s.relocations)
  {
    DataConserved(s.Bytes(), s.Offsets(), s.relocations);
    if s.Spots() == [] {
      One(Event.Bytes(s.Bytes()), 0);
      GapWrites(s.Bytes(), [], 0, |s.Bytes()|);
    }
  }

  // ----- the streamer -----

  // It only grows; a label defines its symbol.
  class Streamer {
    var log: seq<Event>
    var defined: set<string>

    constructor ()
      ensures log == [] && defined == {}
    {
      log, defined := [], {};
    }

    method EmitLabel(symbol: string)
      modifies this
      ensures log == old(log) + [Label(symbol)] && defined == old(defined) + {symbol}
    {
      log, defined := log + [Label(symbol)], defined + {symbol};
    }

    method EmitBytes(data: seq<Byte>)
      modifies this`log
      ensures log == old(log) + [Event.Bytes(data)]
    {
      log := log + [Event.Bytes(data)];
    }

    // All relocations of one place; the last gives the size.
    method EmitField(relocations: seq<Relocation>) returns (size: nat)
      requires relocations != []
      modifies this`log
      ensures size == relocations[|relocations| - 1].size && log == old(log) + [Field(relocations, size)]
    {
      size := relocations[|relocations| - 1].size;
      log := log + [Field(relocations, size)];
    }

    method Tell(e: Event)
      modifies this`log
      ensures log == old(log) + [e]
    {
      log := log + [e];
    }
  }

  // The raw bytes in front of an offset.
  method EmitGap(streamer: Streamer, contents: seq<Byte>, current: nat, to: nat) returns (offset: nat)
    modifies streamer`log
    ensures streamer.log == old(streamer.log) + GapTo(contents, current, to) && offset == if current < to then to else current
  {
    offset := current;
    if current < to {
      streamer.EmitBytes(Slice(contents, current, to));
      offset := to;
    }
  }

  // ----- data sections -----

  method CollectData(s: Section) returns (dataToEmit: seq<Spot>)
    ensures dataToEmit == s.Spots()
  {
    dataToEmit := [];
    var offsets := s.Offsets();
    var i := 0;
    while i < |offsets|
      invariant 0 <= i <= |offsets| && PutSymbols(dataToEmit, offsets[i..]) == PutSymbols([], offsets)
    {
      assert offsets[i..][1..] == offsets[i + 1..];
      dataToEmit := Put(dataToEmit, Spot(offsets[i].0, [offsets[i].1], []));
      i := i + 1;
    }
    i := 0;
    while i < |s.relocations|
      invariant 0 <= i <= |s.relocations| && PutRelocations(dataToEmit, s.relocations[i..]) == s.Spots()
    {
      assert s.relocations[i..][1..] == s.relocations[i + 1..];
      dataToEmit := Put(dataToEmit, Spot(s.relocations[i].offset, [], [s.relocations[i]]));
      i := i + 1;
    }
  }

  // One place: the bytes in front, the labels, the field.
  method EmitPlace(streamer: Streamer, contents: seq<Byte>, s: Spot, current: nat) returns (offset: nat)
    modifies streamer
    ensures streamer.log == old(streamer.log) + EmitSpot(contents, s, current) && offset == After(s, current)
  {
    offset := EmitGap(streamer, contents, current, s.offset);
    ghost var before := streamer.log;
    var i := 0;
    while i < |s.symbols|
      invariant 0 <= i <= |s.symbols| && streamer.log == before + LabelsFor(s.symbols[..i])
    {
      assert LabelsFor(s.symbols[..i + 1]) == LabelsFor(s.symbols[..i]) + [Label(s.symbols[i])];
      streamer.EmitLabel(s.symbols[i]);
      i := i + 1;
    }
    assert s.symbols[..i] == s.symbols;
    if s.relocations != [] {
      var size := streamer.EmitField(s.relocations);
      offset := offset + size;
    }
  }

  lemma {:induction false} HeadOf(log: seq<Event>, s: Section)
    requires !s.Skipped()
    ensures log + SectionLog(s) == log + [Switch(s.name)] + [Align(s.alignment)] + s.Body()
  {
    assert log + [Switch(s.name)] + [Align(s.alignment)] == log + [Switch(s.name), Align(s.alignment)];
    Regroup(log, [Switch(s.name), Align(s.alignment)], s.Body());
  }

  method EmitDataSection(streamer: Streamer, s: Section)
    modifies streamer
    ensures streamer.log == old(streamer.log) + SectionLog(s)
  {
    if s.Skipped() {
      return;
    }
    var sectionContents := s.Bytes();
    HeadOf(streamer.log, s);
    streamer.Tell(Switch(s.name));
    streamer.Tell(Align(s.alignment));
    var dataToEmit := CollectData(s);
    if dataToEmit == [] {
      streamer.EmitBytes(sectionContents);
      return;
    }
    EmitPlaces(streamer, sectionContents, dataToEmit);
  }

  method EmitPlaces(streamer: Streamer, contents: seq<Byte>, spots: seq<Spot>)
    modifies streamer
    ensures streamer.log == old(streamer.log) + EmitSpots(contents, spots, 0, |contents|)
  {
    ghost var before := streamer.log;
    var currentSectionOffset: nat := 0;
    var i := 0;
    assert spots[0..] == spots;
    while i < |spots|
      invariant 0 <= i <= |spots|
      invariant streamer.log + EmitSpots(contents, spots[i..], currentSectionOffset, |contents|) == before + EmitSpots(contents, spots, 0, |contents|)
    {
      PlaceTurn(streamer.log, contents, spots, i, currentSectionOffset, |contents|);
      currentSectionOffset := EmitPlace(streamer, contents, spots[i], currentSectionOffset);
      i := i + 1;
    }
    var _ := EmitGap(streamer, contents, currentSectionOffset, |contents|);
  }

  lemma {:induction false} PlaceTurn(log: seq<Event>, contents: seq<Byte>, spots: seq<Spot>, i: nat, current: nat, end: nat)
    requires i < |spots|
    ensures log + EmitSpots(contents, spots[i..], current, end)
            == log + EmitSpot(contents, spots[i], current) + EmitSpots(contents, spots[i + 1..], After(spots[i], current), end)
    ensures Reached(spots[i..], current, end) == Reached(spots[i + 1..], After(spots[i], current), end)
  {
    assert spots[i..][0] == spots[i] && spots[i..][1..] == spots[i + 1..];
    Regroup(log, EmitSpot(contents, spots[i], current), EmitSpots(contents, spots[i + 1..], After(spots[i], current), end));
  }

  method EmitDataSections(streamer: Streamer, sections: seq<Section>)
    modifies streamer
    ensures streamer.log == old(streamer.log) + SectionLogs(sections)
  {
    ghost var before := streamer.log;
    var i := 0;
    assert sections[0..] == sections;
    while i < |sections|
      invariant 0 <= i <= |sections| && streamer.log + SectionLogs(sections[i..]) == before + SectionLogs(sections)
    {
      assert sections[i..][0] == sections[i] && sections[i..][1..] == sections[i + 1..];
      Regroup(streamer.log, SectionLog(sections[i]), SectionLogs(sections[i + 1..]));
      EmitDataSection(streamer, sections[i]);
      i := i + 1;
    }
    NoneAround(streamer.log);
  }

  // ----- constant islands -----

  // The raw bytes and fields of a range; the offset reached.
  method EmitDataInRange(streamer: Streamer, contents: seq<Byte>, current: nat, targetEndOffset: nat, relocations: seq<Relocation>)
    returns (offset: nat)
    modifies streamer`log
    ensures streamer.log == old(streamer.log) + EmitRange(contents, relocations, current, targetEndOffset)
    ensures offset == Reached(SpotsOf(relocations), current, targetEndOffset)
  {
    ghost var before, spots := streamer.log, SpotsOf(relocations);
    offset := current;
    var i := 0;
    assert spots[0..] == spots;
    while i < |relocations|
      invariant 0 <= i <= |relocations|
      invariant streamer.log + EmitSpots(contents, spots[i..], offset, targetEndOffset) == before + EmitSpots(contents, spots, current, targetEndOffset)
      invariant Reached(spots[i..], offset, targetEndOffset) == Reached(spots, current, targetEndOffset)
    {
      PlaceTurn(streamer.log, contents, spots, i, offset, targetEndOffset);
      offset := EmitRelocation(streamer, contents, relocations[i], offset);
      i := i + 1;
    }
    offset := EmitGap(streamer, contents, offset, targetEndOffset);
  }

  method EmitRelocation(streamer: Streamer, contents: seq<Byte>, r: Relocation, current: nat) returns (offset: nat)
    modifies streamer`log
    ensures streamer.log == old(streamer.log) + EmitSpot(contents, SpotOf(r), current) && offset == After(SpotOf(r), current)
  {
    offset := EmitGap(streamer, contents, current, r.offset);
    var size := streamer.EmitField([r]);
    offset := offset + size;
    assert LabelsFor([]) == [];
  }

  method FindLowerBound(relocations: seq<Relocation>, from: nat, offset: nat) returns (end: nat)
    requires from <= |relocations|
    ensures end == from + LowerBound(relocations[from..], offset)
  {
    end := from;
    while end < |relocations| && relocations[end].offset < offset
      invariant from <= end <= |relocations| && from + LowerBound(relocations[from..], offset) == end + LowerBound(relocations[end..], offset)
    {
      assert relocations[end..][1..] == relocations[end + 1..];
      end := end + 1;
    }
  }

  method EmitIslandChunk(streamer: Streamer, contents: seq<Byte>, chunk: Chunk)
    modifies streamer
    ensures streamer.log == old(streamer.log)
                            + EmitChunk(contents, chunk.jumpLabels, chunk.relocations, chunk.start, chunk.end, old(streamer.defined))
    ensures streamer.defined == old(streamer.defined) + SymbolsIn(chunk.jumpLabels)
  {
    ghost var before, known := streamer.log, streamer.defined;
    var currentOffset: nat, relocationsStart: nat := chunk.start, 0;
    var i := 0;
    assert chunk.jumpLabels[0..] == chunk.jumpLabels && chunk.relocations[0..] == chunk.relocations;
    while i < |chunk.jumpLabels|
      invariant 0 <= i <= |chunk.jumpLabels| && relocationsStart <= |chunk.relocations|
      invariant streamer.log + RestOf(contents, chunk, i, relocationsStart, currentOffset, streamer.defined)
                == before + RestOf(contents, chunk, 0, 0, chunk.start, known)
      invariant streamer.defined + SymbolsIn(chunk.jumpLabels[i..]) == known + SymbolsIn(chunk.jumpLabels)
    {
      SymbolsTurn(streamer.defined, chunk.jumpLabels, i);
      currentOffset, relocationsStart := EmitToLabel(streamer, contents, chunk, i, relocationsStart, currentOffset);
      i := i + 1;
    }
    currentOffset := EmitDataInRange(streamer, contents, currentOffset, chunk.end, chunk.relocations[relocationsStart..]);
  }

  // The window in front of a label, and the label if nothing defines it yet.
  method EmitToLabel(streamer: Streamer, contents: seq<Byte>, chunk: Chunk, i: nat, relocationsStart: nat, current: nat)
    returns (offset: nat, relocationsEnd: nat)
    requires i < |chunk.jumpLabels| && relocationsStart <= |chunk.relocations|
    modifies streamer
    ensures relocationsStart <= relocationsEnd <= |chunk.relocations|
    ensures streamer.defined == old(streamer.defined) + {chunk.jumpLabels[i].1}
    ensures streamer.log + RestOf(contents, chunk, i + 1, relocationsEnd, offset, streamer.defined)
            == old(streamer.log) + RestOf(contents, chunk, i, relocationsStart, current, old(streamer.defined))
  {
    var (endOffset, symbol) := chunk.jumpLabels[i];
    relocationsEnd := FindLowerBound(chunk.relocations, relocationsStart, endOffset);
    ChunkTurn(streamer.log, contents, chunk, i, relocationsStart, relocationsEnd, current, streamer.defined);
    offset := EmitDataInRange(streamer, contents, current, endOffset, chunk.relocations[relocationsStart..relocationsEnd]);
    EmitNew(streamer, symbol);
  }

  // A symbol that is emitted twice would stop the streamer.
  method EmitNew(streamer: Streamer, symbol: string)
    modifies streamer
    ensures streamer.log == old(streamer.log) + LabelIfNew(symbol, old(streamer.defined)) && streamer.defined == old(streamer.defined) + {symbol}
  {
    if symbol !in streamer.defined {
      streamer.EmitLabel(symbol);
    }
  }

  lemma {:induction false} SymbolsTurn(defined: set<string>, labels: seq<(nat, string)>, i: nat)
    requires i < |labels|
    ensures defined + {labels[i].1} + SymbolsIn(labels[i + 1..]) == defined + SymbolsIn(labels[i..])
  {
    assert labels[i..][0] == labels[i] && labels[i..][1..] == labels[i + 1..];
  }

  lemma {:induction false} ChunkTurn(log: seq<Event>, contents: seq<Byte>, c: Chunk, i: nat, k: nat, m: nat, current: nat, defined: set<string>)
    requires i < |c.jumpLabels| && k <= m <= |c.relocations| && m == k + LowerBound(c.relocations[k..], c.jumpLabels[i].0)
    ensures var (to, symbol) := c.jumpLabels[i];
            log + RestOf(contents, c, i, k, current, defined)
            == log + EmitRange(contents, c.relocations[k..m], current, to) + LabelIfNew(symbol, defined)
               + RestOf(contents, c, i + 1, m, Reached(SpotsOf(c.relocations[k..m]), current, to), defined + {symbol})
  {
    var (to, symbol) := c.jumpLabels[i];
    var labels, relocations := c.jumpLabels[i..], c.relocations[k..];
    assert labels[0] == c.jumpLabels[i] && labels[1..] == c.jumpLabels[i + 1..];
    assert relocations[..m - k] == c.relocations[k..m] && relocations[m - k..] == c.relocations[m..];
    var front, mark := EmitRange(contents, c.relocations[k..m], current, to), LabelIfNew(symbol, defined);
    var rest := RestOf(contents, c, i + 1, m, Reached(SpotsOf(c.relocations[k..m]), current, to), defined + {symbol});
    assert RestOf(contents, c, i, k, current, defined) == front + mark + rest;
    Regroup(log, front + mark, rest);
    Regroup(log, front, mark);
  }

  // The chunks come from elsewhere; a function without data has no island.
  method EmitConstantIsland(streamer: Streamer, contents: seq<Byte>, hasData: bool, alignment: nat, islandLabel: string, chunks: seq<Chunk>)
    modifies streamer
    ensures streamer.log == old(streamer.log) +
                            if !hasData then [] else [Align(alignment), Label(islandLabel)] + EmitChunks(contents, chunks, old(streamer.defined) + {islandLabel})
  {
    if !hasData {
      return;
    }
    streamer.Tell(Align(alignment));
    streamer.EmitLabel(islandLabel);
    ghost var before, known := streamer.log, streamer.defined;
    var i := 0;
    assert chunks[0..] == chunks;
    while i < |chunks|
      invariant 0 <= i <= |chunks|
      invariant streamer.log + EmitChunks(contents, chunks[i..], streamer.defined) == before + EmitChunks(contents, chunks, known)
    {
      var c := chunks[i];
      assert chunks[i..][0] == c && chunks[i..][1..] == chunks[i + 1..];
      Regroup(streamer.log, EmitChunk(contents, c.jumpLabels, c.relocations, c.start, c.end, streamer.defined),
              EmitChunks(contents, chunks[i + 1..], streamer.defined + SymbolsIn(c.jumpLabels)));
      EmitIslandChunk(streamer, contents, c);
      i := i + 1;
    }
    NoneAround(streamer.log);
  }
}
