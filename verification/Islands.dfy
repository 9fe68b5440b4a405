/**
  Constant islands (lib/Rewriter/Emit.cpp): the data between the instructions
  of a function, written chunk by chunk. A window slides over the relocations
  of a chunk from label to label.
 */
module Islands {
  import opened Wrappers
  import opened Emission

  datatype Chunk = Chunk(start: nat, end: nat, jumpLabels: seq<(nat, string)>, relocations: seq<Relocation>)

  function SpotOf(r: Relocation): Spot { Spot(r.offset, [], [r]) }

  function SpotsOf(relocations: seq<Relocation>): seq<Spot> {
    seq(|relocations|, i requires 0 <= i < |relocations| => SpotOf(relocations[i]))
  }

  // The raw bytes and fields of a range.
  function EmitRange(contents: seq<Byte>, relocations: seq<Relocation>, current: nat, end: nat): seq<Event> {
    EmitSpots(contents, SpotsOf(relocations), current, end)
  }

  // The first relocation that is not in front of the offset.
  function LowerBound(relocations: seq<Relocation>, offset: nat): (m: nat)
    ensures m <= |relocations| && (forall j :: 0 <= j < m ==> relocations[j].offset < offset)
    ensures m < |relocations| ==> relocations[m].offset >= offset
  {
    if relocations == [] || relocations[0].offset >= offset then 0 else 1 + LowerBound(relocations[1..], offset)
  }

  function LabelIfNew(symbol: string, defined: set<string>): seq<Event> { if symbol in defined then [] else [Label(symbol)] }

  function EmitChunk(contents: seq<Byte>, labels: seq<(nat, string)>, relocations: seq<Relocation>, current: nat, end: nat, defined: set<string>): seq<Event> {
    if labels == [] then EmitRange(contents, relocations, current, end)
    else
      var (offset, symbol) := labels[0];
      var m := LowerBound(relocations, offset);
      EmitRange(contents, relocations[..m], current, offset) + LabelIfNew(symbol, defined)
      + EmitChunk(contents, labels[1..], relocations[m..], Reached(SpotsOf(relocations[..m]), current, offset), end, defined + {symbol})
  }

  // ----- what a chunk promises -----

  // The labels that nothing has defined yet, each at its first offset.
  function NewLabels(labels: seq<(nat, string)>, defined: set<string>): seq<(string, nat)> {
    if labels == [] then []
    else (if labels[0].1 in defined then [] else [(labels[0].1, labels[0].0)]) + NewLabels(labels[1..], defined + {labels[0].1})
  }

  function SymbolsIn(labels: seq<(nat, string)>): set<string> {
    if labels == [] then {} else {labels[0].1} + SymbolsIn(labels[1..])
  }

  ghost predicate Emits(news: seq<(string, nat)>, s: string) { exists i :: 0 <= i < |news| && news[i].0 == s }

  lemma {:induction false} NoneMissed(labels: seq<(nat, string)>, defined: set<string>, s: string)
    requires s in SymbolsIn(labels) && s !in defined
    ensures Emits(NewLabels(labels, defined), s)
    decreases |labels|
  {
    var symbol, news := labels[0].1, NewLabels(labels, defined);
    if s == symbol {
      assert news[0].0 == s;
    } else {
      var others := NewLabels(labels[1..], defined + {symbol});
      NoneMissed(labels[1..], defined + {symbol}, s);
      var i :| 0 <= i < |others| && others[i].0 == s;
      assert news[if symbol in defined then i else i + 1] == others[i];
    }
  }

  ghost predicate Fresh(news: seq<(string, nat)>, labels: seq<(nat, string)>, defined: set<string>) {
    && (forall i :: 0 <= i < |news| ==> news[i].0 !in defined && (news[i].1, news[i].0) in labels)
    && forall i, j :: 0 <= i < j < |news| ==> news[i].0 != news[j].0
  }

  lemma {:induction false} NewLabelsFresh(labels: seq<(nat, string)>, defined: set<string>)
    ensures Fresh(NewLabels(labels, defined), labels, defined)
    decreases |labels|
  {
    if labels != [] {
      NewLabelsFresh(labels[1..], defined + {labels[0].1});
      assert forall l :: l in labels[1..] ==> l in labels;
    }
  }

  // No symbol is emitted twice, none that was defined, and none is missed.
  lemma {:induction false} NewLabelsOnce(labels: seq<(nat, string)>, defined: set<string>)
    ensures var news := NewLabels(labels, defined);
            && (forall i :: 0 <= i < |news| ==> news[i].0 !in defined && (news[i].1, news[i].0) in labels)
            && (forall i, j :: 0 <= i < j < |news| ==> news[i].0 != news[j].0)
            && forall s :: s in SymbolsIn(labels) && s !in defined ==> exists i :: 0 <= i < |news| && news[i].0 == s
  {
    hide NewLabels, SymbolsIn;
    NewLabelsFresh(labels, defined);
    forall s | s in SymbolsIn(labels) && s !in defined ensures Emits(NewLabels(labels, defined), s) {
      NoneMissed(labels, defined, s);
    }
  }

  // Relocations in order and apart, in the chunk and in the contents; labels
  // in order, none strictly inside a field.
  ghost predicate Tidy(contents: seq<Byte>, c: Chunk) {
    && c.start <= c.end <= |contents| && Orderly(SpotsOf(c.relocations), c.start, c.end)
    && (forall i :: 0 <= i < |c.jumpLabels| ==> c.start <= c.jumpLabels[i].0 <= c.end)
    && (forall i, j :: 0 <= i < j < |c.jumpLabels| ==> c.jumpLabels[i].0 <= c.jumpLabels[j].0)
    && forall i, k :: 0 <= i < |c.jumpLabels| && 0 <= k < |c.relocations| ==> !Inside(c.jumpLabels[i].0, c.relocations[k])
  }

  predicate Inside(offset: nat, r: Relocation) { r.offset < offset < r.offset + r.size }

  lemma {:induction false} SpotsSlice(relocations: seq<Relocation>, k: nat, m: nat)
    requires k <= m <= |relocations|
    ensures SpotsOf(relocations[k..m]) == SpotsOf(relocations)[k..m]
  {}

  lemma {:induction false} NoLabels(spots: seq<Spot>)
    requires forall s :: s in spots ==> s.symbols == []
    ensures SpotLabels(spots) == []
    decreases |spots|
  {
    if spots != [] {
      assert spots[0] in spots;
      NoLabels(spots[1..]);
    }
  }

  lemma {:induction false} FieldsSplit(spots: seq<Spot>, k: nat)
    requires k <= |spots|
    ensures SpotFields(spots[..k]) + SpotFields(spots[k..]) == SpotFields(spots)
    decreases k
  {
    if k == 0 {
      assert spots[..0] == [] && spots[0..] == spots;
    } else {
      FieldsSplit(spots[1..], k - 1);
      assert spots[..k][1..] == spots[1..][..k - 1] && spots[1..][k - 1..] == spots[k..];
      assert spots[..k][0] == spots[0];
      Regroup(FieldsOf(spots[0]), SpotFields(spots[..k][1..]), SpotFields(spots[k..]));
    }
  }

  // The window in front of a label.
  lemma {:induction false} WindowBound(contents: seq<Byte>, c: Chunk, i: nat, k: nat)
    requires Tidy(contents, c) && i < |c.jumpLabels| && k <= |c.relocations|
    ensures Upto(SpotsOf(c.relocations), k, k + LowerBound(c.relocations[k..], c.jumpLabels[i].0), c.jumpLabels[i].0)
  {
    var spots, rest, to := SpotsOf(c.relocations), c.relocations[k..], c.jumpLabels[i].0;
    var m := LowerBound(rest, to);
    forall j | k <= j < k + m ensures spots[j].Stop() <= to {
      assert rest[j - k] == c.relocations[j];
      assert !Inside(to, c.relocations[j]);
    }
    forall j | k + m <= j < |spots| ensures to <= spots[j].offset {
      assert rest[m] == c.relocations[k + m] && to <= spots[k + m].offset;
      assert k + m < j ==> spots[k + m].offset < spots[j].offset;
    }
  }

  // The part of a chunk from the i-th label and the k-th relocation on.
  function RestOf(contents: seq<Byte>, c: Chunk, i: nat, k: nat, current: nat, defined: set<string>): seq<Event>
    requires i <= |c.jumpLabels| && k <= |c.relocations|
  {
    EmitChunk(contents, c.jumpLabels[i..], c.relocations[k..], current, c.end, defined)
  }

  lemma {:induction false} RestWrites(contents: seq<Byte>, c: Chunk, i: nat, k: nat, current: nat, defined: set<string>)
    requires Tidy(contents, c) && i <= |c.jumpLabels| && k <= |c.relocations|
    requires Ahead(SpotsOf(c.relocations), k, current) && current <= c.end
    requires i < |c.jumpLabels| ==> current <= c.jumpLabels[i].0
    ensures Writes(RestOf(contents, c, i, k, current, defined), contents, SpotsOf(c.relocations), current, c.end,
                   NewLabels(c.jumpLabels[i..], defined), SpotFields(SpotsOf(c.relocations)[k..]))
    decreases |c.jumpLabels| - i
  {
    if i == |c.jumpLabels| {
      LastWrites(contents, c, k, current, defined);
    } else {
      var (to, symbol) := c.jumpLabels[i];
      var m := k + LowerBound(c.relocations[k..], to);
      WindowBound(contents, c, i, k);
      RangeWrites(contents, c, k, m, current, to);
      RestWrites(contents, c, i + 1, m, to, defined + {symbol});
      TurnWrites(contents, c, i, k, m, current, defined);
    }
  }

  lemma {:induction false} LastWrites(contents: seq<Byte>, c: Chunk, k: nat, current: nat, defined: set<string>)
    requires Tidy(contents, c) && k <= |c.relocations| && Ahead(SpotsOf(c.relocations), k, current) && current <= c.end
    ensures Writes(RestOf(contents, c, |c.jumpLabels|, k, current, defined), contents, SpotsOf(c.relocations), current, c.end,
                   [], SpotFields(SpotsOf(c.relocations)[k..]))
  {
    var spots := SpotsOf(c.relocations);
    RangeWrites(contents, c, k, |spots|, current, c.end);
    assert c.relocations[k..|spots|] == c.relocations[k..] && spots[k..|spots|] == spots[k..];
  }

  lemma {:induction false} RangeWrites(contents: seq<Byte>, c: Chunk, k: nat, m: nat, current: nat, to: nat)
    requires Tidy(contents, c) && k <= m <= |c.relocations| && current <= to <= c.end
    requires Ahead(SpotsOf(c.relocations), k, current) && Upto(SpotsOf(c.relocations), k, m, to)
    ensures Writes(EmitRange(contents, c.relocations[k..m], current, to), contents, SpotsOf(c.relocations), current, to,
                   [], SpotFields(SpotsOf(c.relocations)[k..m]))
    ensures Ahead(SpotsOf(c.relocations), m, to) && Reached(SpotsOf(c.relocations[k..m]), current, to) == to
  {
    var spots := SpotsOf(c.relocations);
    SpotsSlice(c.relocations, k, m);
    WindowWrites(contents, spots, k, m, current, to, c.start, c.end);
    NoLabels(spots[k..m]);
  }

  // One label with the window in front of it, and what follows.
  lemma {:induction false} TurnWrites(contents: seq<Byte>, c: Chunk, i: nat, k: nat, m: nat, current: nat, defined: set<string>)
    requires i < |c.jumpLabels| && k <= m <= |c.relocations| && m == k + LowerBound(c.relocations[k..], c.jumpLabels[i].0)
    requires var (to, symbol) := c.jumpLabels[i]; var spots := SpotsOf(c.relocations);
             && Writes(EmitRange(contents, c.relocations[k..m], current, to), contents, spots, current, to, [], SpotFields(spots[k..m]))
             && Reached(SpotsOf(c.relocations[k..m]), current, to) == to
             && Writes(RestOf(contents, c, i + 1, m, to, defined + {symbol}), contents, spots, to, c.end,
                       NewLabels(c.jumpLabels[i + 1..], defined + {symbol}), SpotFields(spots[m..]))
    ensures Writes(RestOf(contents, c, i, k, current, defined), contents, SpotsOf(c.relocations), current, c.end,
                   NewLabels(c.jumpLabels[i..], defined), SpotFields(SpotsOf(c.relocations)[k..]))
  {
    var (to, symbol) := c.jumpLabels[i];
    var spots := SpotsOf(c.relocations);
    var front, mark := EmitRange(contents, c.relocations[k..m], current, to), LabelIfNew(symbol, defined);
    var rest := RestOf(contents, c, i + 1, m, to, defined + {symbol});
    var news: seq<(string, nat)> := if symbol in defined then [] else [(symbol, to)];
    LabelWrites(contents, spots, symbol, defined, to);
    Join(front, mark, contents, spots, current, to, to, [], SpotFields(spots[k..m]), news, []);
    NoneAround(news);
    NoneAround(SpotFields(spots[k..m]));
    Join(front + mark, rest, contents, spots, current, to, c.end, news, SpotFields(spots[k..m]),
         NewLabels(c.jumpLabels[i + 1..], defined + {symbol}), SpotFields(spots[m..]));
    FieldsWindow(spots, k, m);
    RestUnfolds(contents, c, i, k, m, current, defined);
  }

  lemma {:induction false} FieldsWindow(spots: seq<Spot>, k: nat, m: nat)
    requires k <= m <= |spots|
    ensures SpotFields(spots[k..m]) + SpotFields(spots[m..]) == SpotFields(spots[k..])
  {
    FieldsSplit(spots[k..], m - k);
    assert spots[k..][..m - k] == spots[k..m] && spots[k..][m - k..] == spots[m..];
  }

  lemma {:induction false} LabelWrites(contents: seq<Byte>, spots: seq<Spot>, symbol: string, defined: set<string>, at: nat)
    ensures Writes(LabelIfNew(symbol, defined), contents, spots, at, at, if symbol in defined then [] else [(symbol, at)], [])
  {
    if symbol !in defined {
      One(Label(symbol), at);
    }
  }

  lemma {:induction false} RestUnfolds(contents: seq<Byte>, c: Chunk, i: nat, k: nat, m: nat, current: nat, defined: set<string>)
    requires i < |c.jumpLabels| && k <= m <= |c.relocations| && m == k + LowerBound(c.relocations[k..], c.jumpLabels[i].0)
    requires Reached(SpotsOf(c.relocations[k..m]), current, c.jumpLabels[i].0) == c.jumpLabels[i].0
    ensures var (to, symbol) := c.jumpLabels[i];
            && RestOf(contents, c, i, k, current, defined)
               == EmitRange(contents, c.relocations[k..m], current, to) + LabelIfNew(symbol, defined)
                  + RestOf(contents, c, i + 1, m, to, defined + {symbol})
            && NewLabels(c.jumpLabels[i..], defined)
               == (if symbol in defined then [] else [(symbol, to)]) + NewLabels(c.jumpLabels[i + 1..], defined + {symbol})
  {
    var labels, relocations := c.jumpLabels[i..], c.relocations[k..];
    assert labels[0] == c.jumpLabels[i] && labels[1..] == c.jumpLabels[i + 1..];
    assert relocations[..m - k] == c.relocations[k..m] && relocations[m - k..] == c.relocations[m..];
  }

  // A chunk: every relocation once, every new label at its offset, raw bytes
  // as in the function, and as long as the chunk.
  lemma {:induction false} ChunkConserved(contents: seq<Byte>, c: Chunk, defined: set<string>)
    requires Tidy(contents, c)
    ensures Writes(EmitChunk(contents, c.jumpLabels, c.relocations, c.start, c.end, defined), contents, SpotsOf(c.relocations), c.start, c.end,
                   NewLabels(c.jumpLabels, defined), SpotFields(SpotsOf(c.relocations)))
  {
    assert c.jumpLabels[0..] == c.jumpLabels && c.relocations[0..] == c.relocations && SpotsOf(c.relocations)[0..] == SpotsOf(c.relocations);
    RestWrites(contents, c, 0, 0, c.start, defined);
  }

  // ----- all chunks -----

  function EmitChunks(contents: seq<Byte>, chunks: seq<Chunk>, defined: set<string>): seq<Event> {
    if chunks == [] then []
    else
      EmitChunk(contents, chunks[0].jumpLabels, chunks[0].relocations, chunks[0].start, chunks[0].end, defined)
      + EmitChunks(contents, chunks[1..], defined + SymbolsIn(chunks[0].jumpLabels))
  }

  function Length(chunks: seq<Chunk>): int {
    if chunks == [] then 0 else chunks[0].end - chunks[0].start + Length(chunks[1..])
  }

  // What is defined behind the chunks.
  function Defined(chunks: seq<Chunk>, defined: set<string>): set<string> {
    if chunks == [] then defined else Defined(chunks[1..], defined + SymbolsIn(chunks[0].jumpLabels))
  }

  lemma {:induction false} IslandLength(contents: seq<Byte>, chunks: seq<Chunk>, defined: set<string>)
    requires forall c :: c in chunks ==> Tidy(contents, c)
    ensures |Cells(EmitChunks(contents, chunks, defined))| == Length(chunks)
    decreases |chunks|
  {
    if chunks != [] {
      var c, d := chunks[0], defined + SymbolsIn(chunks[0].jumpLabels);
      assert c in chunks;
      ChunkConserved(contents, c, defined);
      IslandLength(contents, chunks[1..], d);
      CellsAppend(EmitChunk(contents, c.jumpLabels, c.relocations, c.start, c.end, defined), EmitChunks(contents, chunks[1..], d));
    }
  }

  lemma {:induction false} SliceRest<T>(s: seq<T>, n: nat)
    requires 0 < n <= |s|
    ensures s[..n][0] == s[0] && s[..n][1..] == s[1..][..n - 1] && s[1..][n - 1..] == s[n..]
  {}

  lemma {:induction false} IslandSplit(contents: seq<Byte>, chunks: seq<Chunk>, defined: set<string>, n: nat)
    requires n <= |chunks|
    ensures EmitChunks(contents, chunks, defined)
            == EmitChunks(contents, chunks[..n], defined) + EmitChunks(contents, chunks[n..], Defined(chunks[..n], defined))
    decreases |chunks|
  {
    if n == 0 {
      assert chunks[..0] == [] && chunks[0..] == chunks;
    } else {
      var c, d := chunks[0], defined + SymbolsIn(chunks[0].jumpLabels);
      IslandSplit(contents, chunks[1..], d, n - 1);
      SliceRest(chunks, n);
      Regroup(EmitChunk(contents, c.jumpLabels, c.relocations, c.start, c.end, defined),
              EmitChunks(contents, chunks[1..][..n - 1], d), EmitChunks(contents, chunks[n..], Defined(chunks[..n], defined)));
    }
  }

  // The chunks lie back to back: the n-th begins where those before it end.
  lemma {:induction false} IslandConserved(contents: seq<Byte>, chunks: seq<Chunk>, defined: set<string>, n: nat)
    requires (forall c :: c in chunks ==> Tidy(contents, c)) && n < |chunks|
    ensures var front, c, d := EmitChunks(contents, chunks[..n], defined), chunks[n], Defined(chunks[..n], defined);
            var log := EmitChunk(contents, c.jumpLabels, c.relocations, c.start, c.end, d);
            && |Cells(front)| == Length(chunks[..n]) && |Cells(EmitChunks(contents, chunks, defined))| == Length(chunks)
            && EmitChunks(contents, chunks, defined) == front + (log + EmitChunks(contents, chunks[n + 1..], d + SymbolsIn(c.jumpLabels)))
            && Writes(log, contents, SpotsOf(c.relocations), c.start, c.end, NewLabels(c.jumpLabels, d), SpotFields(SpotsOf(c.relocations)))
  {
    assert chunks[n] in chunks && forall c :: c in chunks[..n] ==> c in chunks;
    IslandLength(contents, chunks, defined);
    IslandLength(contents, chunks[..n], defined);
    IslandSplit(contents, chunks, defined, n);
    assert chunks[n..][0] == chunks[n] && chunks[n..][1..] == chunks[n + 1..];
    ChunkConserved(contents, chunks[n], Defined(chunks[..n], defined));
  }
}
