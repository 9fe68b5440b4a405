/**
  Where the rewriter puts the sections of an object file
  (lib/Rewriter/Discover): every section with a name gets an address of its
  own, and a symbol is moved by the address of its section. Addresses are
  64-bit words and wrap around.
 */
module Layout {
  import opened Wrappers

  const WORD: nat := 0x1_0000_0000_0000_0000

  const FIRST_ADDRESS: nat := 0x10000

  datatype Section = Section(name: string, size: nat, alignment: nat)

  datatype Placed = Placed(section: Section, address: nat) {
    function End(): nat { address + section.size }
  }

  // The least multiple of the alignment that is not below the value.
  function AlignTo(value: nat, alignment: nat): nat
    requires alignment > 0
  {
    (value + alignment - 1) / alignment * alignment
  }

  lemma {:induction false} MultipleGrows(k: nat, a: nat)
    requires k >= 1
    ensures k * a >= a
  {
    assert k * a == (k - 1) * a + a;
  }

  lemma {:induction false} MultipleIsAligned(q: nat, a: nat)
    requires a > 0
    ensures q * a % a == 0
  {
    var d, m := q * a / a, q * a % a;
    assert d >= 0 && q * a == d * a + m;
    if q > d {
      assert (q - d) * a == m;
      MultipleGrows(q - d, a);
    } else if q < d {
      assert (d - q) * a == -m;
      MultipleGrows(d - q, a);
    }
  }

  lemma {:induction false} AlignToLeast(value: nat, alignment: nat)
    requires alignment > 0
    ensures AlignTo(value, alignment) % alignment == 0 && value <= AlignTo(value, alignment) < value + alignment
  {
    MultipleIsAligned((value + alignment - 1) / alignment, alignment);
  }

  function Unbounded(s: Section, next: nat): nat { if s.alignment > 0 then AlignTo(next, s.alignment) else next }

  function AddressFor(s: Section, next: nat): nat { Unbounded(s, next) % WORD }

  function NextAfter(s: Section, next: nat): nat { (AddressFor(s, next) + s.size) % WORD }

  // The sections with a name, one behind the other.
  function Place(sections: seq<Section>, next: nat): seq<Placed> {
    if sections == [] then []
    else if sections[0].name == "" then Place(sections[1..], next)
    else [Placed(sections[0], AddressFor(sections[0], next))] + Place(sections[1..], NextAfter(sections[0], next))
  }

  predicate FitsOne(s: Section, next: nat) { Unbounded(s, next) + s.size < WORD }

  // No address leaves 64 bits on the way.
  predicate Fits(sections: seq<Section>, next: nat) {
    if sections == [] then true
    else if sections[0].name == "" then Fits(sections[1..], next)
    else FitsOne(sections[0], next) && Fits(sections[1..], NextAfter(sections[0], next))
  }

  predicate IsAligned(p: Placed) { p.section.alignment > 0 ==> p.address % p.section.alignment == 0 }

  lemma {:induction false} OneFits(s: Section, next: nat)
    requires FitsOne(s, next)
    ensures var p := Placed(s, AddressFor(s, next)); IsAligned(p) && next <= p.address && p.End() == NextAfter(s, next) < WORD
  {
    hide AlignTo;
    assert AddressFor(s, next) == Unbounded(s, next) && NextAfter(s, next) == Unbounded(s, next) + s.size;
    if s.alignment > 0 {
      AlignToLeast(next, s.alignment);
    }
  }

  ghost predicate Apart(placed: seq<Placed>) {
    forall i, j :: 0 <= i < j < |placed| ==> placed[i].End() <= placed[j].address
  }

  ghost predicate AllFrom(placed: seq<Placed>, next: nat) {
    forall k :: 0 <= k < |placed| ==> IsAligned(placed[k]) && next <= placed[k].address && placed[k].End() < 0x1_0000_0000_0000_0000
  }

  lemma {:induction false} ApartCons(p: Placed, others: seq<Placed>, next: nat)
    requires Apart(others) && AllFrom(others, p.End()) && IsAligned(p) && next <= p.address && p.End() < WORD
    ensures Apart([p] + others) && AllFrom([p] + others, next)
  {}

  // Placed sections are aligned, in range and pairwise disjoint.
  lemma {:induction false} PlacedApart(sections: seq<Section>, next: nat)
    requires Fits(sections, next)
    ensures Apart(Place(sections, next)) && AllFrom(Place(sections, next), next)
    decreases |sections|
  {
    if sections != [] {
      var s := sections[0];
      if s.name == "" {
        PlacedApart(sections[1..], next);
      } else {
        var n := NextAfter(s, next);
        OneFits(s, next);
        PlacedApart(sections[1..], n);
        ApartCons(Placed(s, AddressFor(s, next)), Place(sections[1..], n), next);
      }
    }
  }

  // Alignments are words, too.
  ghost predicate WordAligned(sections: seq<Section>) {
    forall i :: 0 <= i < |sections| ==> sections[i].alignment <= WORD
  }

  // A section whose address wrapped around lies in front of what came before.
  lemma {:induction false} OneFitsBack(s: Section, next: nat)
    requires next < WORD && s.alignment <= WORD
    requires next <= AddressFor(s, next) && AddressFor(s, next) + s.size < WORD
    ensures FitsOne(s, next) && NextAfter(s, next) == AddressFor(s, next) + s.size
  {
    if s.alignment > 0 {
      AlignToLeast(next, s.alignment);
    }
    WrapsBack(Unbounded(s, next), next);
  }

  lemma {:induction false} WrapsBack(address: nat, next: nat)
    requires next < WORD && address < next + WORD && next <= address % WORD
    ensures address < WORD
  {}

  lemma {:induction false} ApartRest(p: Placed, others: seq<Placed>, next: nat)
    requires Apart([p] + others) && AllFrom([p] + others, next)
    ensures Apart(others) && AllFrom(others, p.End()) && next <= p.address && p.End() < WORD
  {
    var all := [p] + others;
    assert all[0] == p && forall k :: 0 <= k < |others| ==> all[k + 1] == others[k];
  }

  lemma {:induction false} ApartFits(sections: seq<Section>, next: nat)
    requires next < WORD && WordAligned(sections)
    requires Apart(Place(sections, next)) && AllFrom(Place(sections, next), next)
    ensures Fits(sections, next)
    decreases |sections|
  {
    if sections != [] {
      var s, rest := sections[0], sections[1..];
      if s.name == "" {
        ApartFits(rest, next);
      } else {
        var n := NextAfter(s, next);
        ApartRest(Placed(s, AddressFor(s, next)), Place(rest, n), next);
        OneFitsBack(s, next);
        ApartFits(rest, n);
      }
    }
  }

  // Placement keeps sections aligned, in range and in order, apart from each
  // other, exactly when no address leaves 64 bits on the way.
  lemma {:induction false} PlacedExact(sections: seq<Section>, next: nat)
    requires next < WORD && WordAligned(sections)
    ensures Fits(sections, next) <==> Apart(Place(sections, next)) && AllFrom(Place(sections, next), next)
  {
    if Fits(sections, next) {
      PlacedApart(sections, next);
    } else if Apart(Place(sections, next)) && AllFrom(Place(sections, next), next) {
      ApartFits(sections, next);
    }
  }

  // Where the k-th section may begin at the earliest.
  function Earliest(placed: seq<Placed>, k: nat, next: nat): nat
    requires k < |placed|
  {
    if k == 0 then next else placed[k - 1].End()
  }

  function NamedOnly(sections: seq<Section>): seq<Section> {
    if sections == [] then [] else (if sections[0].name == "" then [] else [sections[0]]) + NamedOnly(sections[1..])
  }

  ghost predicate Tight(placed: seq<Placed>, next: nat) {
    forall k :: 0 <= k < |placed| ==> TightAt(placed[k], Earliest(placed, k, next))
  }

  // An aligned address less than the alignment away is the least one.
  predicate TightAt(p: Placed, earliest: nat) {
    IsAligned(p) && earliest <= p.address && if p.section.alignment > 0 then p.address < earliest + p.section.alignment else p.address == earliest
  }

  lemma {:induction false} TightCons(p: Placed, others: seq<Placed>, next: nat)
    requires TightAt(p, next) && Tight(others, p.End())
    ensures Tight([p] + others, next)
  {
    var all := [p] + others;
    forall k | 0 <= k < |all| ensures TightAt(all[k], Earliest(all, k, next)) {
      if k > 0 {
        assert TightAt(others[k - 1], Earliest(others, k - 1, p.End()));
      }
    }
  }

  // Without overflow the sections with a name are placed in their order, each
  // at the least address of its alignment behind the end of the one before.
  lemma {:induction false} PlacedTightly(sections: seq<Section>, next: nat)
    requires Fits(sections, next)
    ensures Tight(Place(sections, next), next)
    ensures var placed := Place(sections, next);
            |placed| == |NamedOnly(sections)| && forall k :: 0 <= k < |placed| ==> placed[k].section == NamedOnly(sections)[k]
    decreases |sections|
  {
    if sections != [] {
      var s := sections[0];
      if s.name == "" {
        PlacedTightly(sections[1..], next);
        assert NamedOnly(sections) == NamedOnly(sections[1..]);
      } else {
        var n := NextAfter(s, next);
        OneFits(s, next);
        OneTight(s, next);
        PlacedTightly(sections[1..], n);
        TightCons(Placed(s, AddressFor(s, next)), Place(sections[1..], n), next);
      }
    }
  }

  lemma {:induction false} OneTight(s: Section, next: nat)
    requires FitsOne(s, next)
    ensures TightAt(Placed(s, AddressFor(s, next)), next)
  {
    hide AlignTo;
    if s.alignment > 0 {
      AlignToLeast(next, s.alignment);
    }
  }

  // ----- names -----

  ghost predicate Distinct(sections: seq<Section>) {
    forall i, j :: 0 <= i < j < |sections| && sections[i].name != "" ==> sections[i].name != sections[j].name
  }

  function MappingOf(placed: seq<Placed>): map<string, nat> {
    if placed == [] then map[]
    else MappingOf(placed[..|placed| - 1])[placed[|placed| - 1].section.name := placed[|placed| - 1].address]
  }

  ghost predicate DistinctPlaced(placed: seq<Placed>) {
    forall i, j :: 0 <= i < j < |placed| ==> placed[i].section.name != placed[j].section.name
  }

  ghost predicate Holds(placed: seq<Placed>, s: Section) { exists k :: 0 <= k < |placed| && placed[k].section == s }

  // What is placed: the sections with a name.
  lemma {:induction false} PlacedWhich(sections: seq<Section>, next: nat, s: Section)
    ensures Holds(Place(sections, next), s) <==> s in sections && s.name != ""
    decreases |sections|
  {
    if sections != [] {
      var first := sections[0];
      var n := if first.name == "" then next else NextAfter(first, next);
      var placed, others := Place(sections, next), Place(sections[1..], n);
      PlacedWhich(sections[1..], n, s);
      assert s in sections <==> s == first || s in sections[1..];
      if first.name != "" {
        assert placed[0].section == first && forall k :: 0 <= k < |others| ==> placed[k + 1] == others[k];
        if k :| 0 <= k < |others| && others[k].section == s {
          assert placed[k + 1].section == s;
        }
      }
    }
  }

  lemma {:induction false} DistinctRest(sections: seq<Section>)
    requires sections != [] && Distinct(sections)
    ensures Distinct(sections[1..]) && (sections[0].name != "" ==> forall s :: s in sections[1..] ==> s.name != sections[0].name)
  {
    var rest := sections[1..];
    assert forall i :: 0 <= i < |rest| ==> rest[i] == sections[i + 1];
  }

  lemma {:induction false} PlacedNames(sections: seq<Section>, next: nat)
    requires Distinct(sections)
    ensures DistinctPlaced(Place(sections, next))
    decreases |sections|
  {
    if sections != [] {
      var first := sections[0];
      var n := if first.name == "" then next else NextAfter(first, next);
      DistinctRest(sections);
      PlacedNames(sections[1..], n);
      var others := Place(sections[1..], n);
      forall k | 0 <= k < |others| && first.name != "" ensures others[k].section.name != first.name {
        assert Holds(others, others[k].section);
        PlacedWhich(sections[1..], n, others[k].section);
      }
    }
  }

  lemma {:induction false} MappingHas(placed: seq<Placed>, k: nat)
    requires k < |placed| && DistinctPlaced(placed)
    ensures placed[k].section.name in MappingOf(placed) && MappingOf(placed)[placed[k].section.name] == placed[k].address
    decreases |placed|
  {
    if k < |placed| - 1 {
      var front := placed[..|placed| - 1];
      assert front[k] == placed[k];
      MappingHas(front, k);
    }
  }

  // ----- virtual addresses -----

  // None is the failed assertion on a section that is not known.
  function GetVirtualAddress(original: nat, section: Option<string>, mapping: map<string, nat>): Option<nat> {
    match section
    case None => Some(original)
    case Some(name) => if name in mapping then Some((original + mapping[name]) % WORD) else None
  }

  lemma {:induction false} MappingNames(placed: seq<Placed>, name: string)
    ensures name in MappingOf(placed) <==> exists k :: 0 <= k < |placed| && placed[k].section.name == name
    decreases |placed|
  {
    if placed != [] {
      var front := placed[..|placed| - 1];
      MappingNames(front, name);
      if name in MappingOf(front) {
        var k :| 0 <= k < |front| && front[k].section.name == name;
        assert placed[k].section.name == name;
      }
      if k :| 0 <= k < |placed| && placed[k].section.name == name {
        assert k < |placed| - 1 ==> front[k].section.name == name;
      }
    }
  }

  // A symbol of no section keeps its address; one of a section is known
  // exactly when the file has a section of that name.
  lemma {:induction false} AddressKnown(sections: seq<Section>, original: nat, name: string)
    ensures var mapping := MappingOf(Place(sections, FIRST_ADDRESS));
            && GetVirtualAddress(original, None, mapping) == Some(original)
            && (GetVirtualAddress(original, Some(name), mapping).Some? <==> name != "" && exists s :: s in sections && s.name == name)
  {
    var placed := Place(sections, FIRST_ADDRESS);
    MappingNames(placed, name);
    if name in MappingOf(placed) {
      var k :| 0 <= k < |placed| && placed[k].section.name == name;
      assert Holds(placed, placed[k].section);
      PlacedWhich(sections, FIRST_ADDRESS, placed[k].section);
    }
    if name != "" && exists s :: s in sections && s.name == name {
      var s :| s in sections && s.name == name;
      PlacedWhich(sections, FIRST_ADDRESS, s);
      var k :| 0 <= k < |placed| && placed[k].section == s;
      assert placed[k].section.name == name;
    }
  }

  // A place in a section.
  predicate InSection(sections: seq<Section>, s: Section, offset: nat) {
    s in sections && s.name != "" && offset < s.size
  }

  // A place in a section is moved into the range of the section.
  lemma {:induction false} AddressInside(sections: seq<Section>, s: Section, offset: nat) returns (k: nat)
    requires Fits(sections, FIRST_ADDRESS) && Distinct(sections) && InSection(sections, s, offset)
    ensures var placed := Place(sections, FIRST_ADDRESS);
            && k < |placed| && placed[k].section == s
            && GetVirtualAddress(offset, Some(s.name), MappingOf(placed)) == Some(placed[k].address + offset)
            && placed[k].address + offset < placed[k].End()
  {
    var placed := Place(sections, FIRST_ADDRESS);
    PlacedWhich(sections, FIRST_ADDRESS, s);
    k :| 0 <= k < |placed| && placed[k].section == s;
    PlacedNames(sections, FIRST_ADDRESS);
    PlacedApart(sections, FIRST_ADDRESS);
    MappingHas(placed, k);
    InsideWord(placed, k, offset);
  }

  lemma {:induction false} InsideWord(placed: seq<Placed>, k: nat, offset: nat)
    requires k < |placed| && AllFrom(placed, FIRST_ADDRESS) && offset < placed[k].section.size
    ensures (offset + placed[k].address) % WORD == placed[k].address + offset < placed[k].End()
  {}

  // Different places never share a virtual address.
  lemma {:induction false} AddressInjective(sections: seq<Section>, s: Section, a: nat, t: Section, b: nat)
    requires Fits(sections, FIRST_ADDRESS) && Distinct(sections) && InSection(sections, s, a) && InSection(sections, t, b)
    requires var m := MappingOf(Place(sections, FIRST_ADDRESS)); GetVirtualAddress(a, Some(s.name), m) == GetVirtualAddress(b, Some(t.name), m)
    ensures s == t && a == b
  {
    var i := AddressInside(sections, s, a);
    var j := AddressInside(sections, t, b);
    PlacedApart(sections, FIRST_ADDRESS);
    assert i < j || i == j || j < i;
  }

  // Without the bound the second section can land on the first one: both own
  // the byte at the first address.
  lemma {:induction false} OverflowOverlaps()
    ensures var sections := [Section("a", 0xffff_ffff_ffff_ffff, 0), Section("b", 2, 0)]; var placed := Place(sections, FIRST_ADDRESS);
            && Distinct(sections) && !Fits(sections, FIRST_ADDRESS)
            && placed == [Placed(sections[0], 0x10000), Placed(sections[1], 0xffff)]
            && placed[0].address <= 0x10000 < placed[0].End() && placed[1].address <= 0x10000 < placed[1].End()
  {
    var a, b := Section("a", WORD - 1, 0), Section("b", 2, 0);
    assert [a, b][1..] == [b] && [b][1..] == [];
    assert NextAfter(a, FIRST_ADDRESS) == FIRST_ADDRESS - 1;
    var low := Placed(b, FIRST_ADDRESS - 1);
    assert Place([b], FIRST_ADDRESS - 1) == [low];
    assert Place([a, b], FIRST_ADDRESS) == [Placed(a, FIRST_ADDRESS), low];
  }

  // ----- the loop -----

  // What the rewriter keeps about the file.
  class BinaryContext {
    var isStripped: bool
    var hasRelocations: bool
    var oldTextSectionSize: nat
    var registered: seq<Placed>

    constructor ()
      ensures !hasRelocations && registered == []
    {
      isStripped, hasRelocations, oldTextSectionSize, registered := false, false, 0, [];
    }

    // What a name tells about the file.
    method NoteName(section: Section)
      modifies this`isStripped, this`hasRelocations, this`oldTextSectionSize
      ensures hasRelocations == (old(hasRelocations) || section.name == RELA_TEXT)
      ensures isStripped == (old(isStripped) && section.name != SYMTAB)
      ensures oldTextSectionSize == if section.name == TEXT then section.size else old(oldTextSectionSize)
    {
      if section.name == TEXT {
        oldTextSectionSize := section.size;
      } else if section.name == RELA_TEXT {
        hasRelocations := true;
      } else if section.name == SYMTAB {
        isStripped := false;
      }
    }

    method RegisterSection(section: Section, address: nat)
      modifies this`registered
      ensures registered == old(registered) + [Placed(section, address)]
    {
      registered := registered + [Placed(section, address)];
    }
  }

  datatype Discovery = Discovered(mapping: map<string, nat>) | DuplicateSection | NoRelocations | NoSymbolTable

  const TEXT := ".text"
  const RELA_TEXT := ".rela.text"
  const SYMTAB := ".symtab"

  predicate Named(sections: seq<Section>, name: string) { exists s :: s in sections && s.name == name }

  lemma {:induction false} DistinctSnoc(sections: seq<Section>, s: Section)
    requires Distinct(sections)
    ensures Distinct(sections + [s]) <==> !(s.name != "" && Named(sections, s.name))
  {
    var all := sections + [s];
    assert forall k :: 0 <= k < |sections| ==> all[k] == sections[k];
    if s.name != "" && Named(sections, s.name) {
      var t :| t in sections && t.name == s.name;
      var k :| 0 <= k < |sections| && sections[k] == t;
      assert all[k].name == all[|sections|].name;
    } else if s.name != "" {
      forall k | 0 <= k < |sections| ensures sections[k].name != s.name {
        assert sections[k] in sections;
      }
    }
  }

  lemma {:induction false} DistinctPrefix(sections: seq<Section>, i: nat)
    requires i <= |sections|
    ensures Distinct(sections) ==> Distinct(sections[..i])
  {}

  lemma {:induction false} NamedSnoc(sections: seq<Section>, s: Section, name: string)
    ensures Named(sections + [s], name) <==> Named(sections, name) || s.name == name
  {
    if Named(sections, name) {
      var t :| t in sections && t.name == name;
      assert t in sections + [s];
    }
    assert s in sections + [s];
  }

  // Which names have been seen, and what the marks of the context say.
  ghost predicate Seen(sections: seq<Section>, mapping: map<string, nat>) {
    forall name :: name in mapping <==> name != "" && Named(sections, name)
  }

  lemma {:induction false} SeenSnoc(sections: seq<Section>, mapping: map<string, nat>, s: Section, address: nat)
    requires Seen(sections, mapping)
    ensures Seen(sections + [s], if s.name == "" then mapping else mapping[s.name := address])
  {
    forall name ensures Named(sections + [s], name) <==> Named(sections, name) || s.name == name {
      NamedSnoc(sections, s, name);
    }
  }

  // The loop has dealt with the first i sections.
  ghost predicate Walked(sections: seq<Section>, i: nat, placed: seq<Placed>, next: nat, mapping: map<string, nat>)
    requires i <= |sections|
  {
    && Distinct(sections[..i]) && Seen(sections[..i], mapping) && mapping == MappingOf(placed)
    && placed + Place(sections[i..], next) == Place(sections, FIRST_ADDRESS)
  }

  lemma {:induction false} WalkSkip(sections: seq<Section>, i: nat, placed: seq<Placed>, next: nat, mapping: map<string, nat>)
    requires i < |sections| && sections[i].name == "" && Walked(sections, i, placed, next, mapping)
    ensures Walked(sections, i + 1, placed, next, mapping)
  {
    assert sections[..i + 1] == sections[..i] + [sections[i]] && sections[i..][1..] == sections[i + 1..];
    DistinctSnoc(sections[..i], sections[i]);
    SeenSnoc(sections[..i], mapping, sections[i], 0);
  }

  lemma {:induction false} WalkPlace(sections: seq<Section>, i: nat, placed: seq<Placed>, next: nat, mapping: map<string, nat>)
    requires i < |sections| && sections[i].name != "" && sections[i].name !in mapping && Walked(sections, i, placed, next, mapping)
    ensures var s, a := sections[i], AddressFor(sections[i], next);
            Walked(sections, i + 1, placed + [Placed(s, a)], NextAfter(s, next), mapping[s.name := a])
  {
    var s, a := sections[i], AddressFor(sections[i], next);
    assert sections[..i + 1] == sections[..i] + [s] && sections[i..][1..] == sections[i + 1..];
    DistinctSnoc(sections[..i], s);
    SeenSnoc(sections[..i], mapping, s, a);
    RegisterOne(placed, Placed(s, a), Place(sections[i + 1..], NextAfter(s, next)));
  }

  lemma {:induction false} WalkTwice(sections: seq<Section>, i: nat, placed: seq<Placed>, next: nat, mapping: map<string, nat>)
    requires i < |sections| && sections[i].name in mapping && Walked(sections, i, placed, next, mapping)
    ensures !Distinct(sections)
  {
    assert sections[..i + 1] == sections[..i] + [sections[i]];
    DistinctSnoc(sections[..i], sections[i]);
    DistinctPrefix(sections, i + 1);
  }

  lemma {:induction false} WalkEnd(sections: seq<Section>, placed: seq<Placed>, next: nat, mapping: map<string, nat>)
    requires Walked(sections, |sections|, placed, next, mapping)
    ensures Distinct(sections) && placed == Place(sections, FIRST_ADDRESS) && mapping == MappingOf(placed)
  {
    assert sections[..|sections|] == sections && placed + [] == placed;
  }

  lemma {:induction false} NamedStep(sections: seq<Section>, i: nat, name: string)
    requires i < |sections|
    ensures Named(sections[..i + 1], name) <==> Named(sections[..i], name) || sections[i].name == name
  {
    assert sections[..i + 1] == sections[..i] + [sections[i]];
    NamedSnoc(sections[..i], sections[i], name);
  }

  // The size kept for the code is that of the section of this name.
  ghost predicate TextSized(sections: seq<Section>, size: nat) { forall s :: s in sections && s.name == TEXT ==> size == s.size }

  lemma {:induction false} TextStep(sections: seq<Section>, i: nat, size: nat)
    requires i < |sections| && TextSized(sections[..i], size)
    ensures var s := sections[i];
            if s.name != TEXT then TextSized(sections[..i + 1], size)
            else Distinct(sections[..i + 1]) ==> TextSized(sections[..i + 1], s.size)
  {
    var front, all := sections[..i], sections[..i + 1];
    assert all == front + [sections[i]];
    if sections[i].name == TEXT && Distinct(all) {
      DistinctPrefix(all, i);
      assert all[..i] == front;
      DistinctSnoc(front, sections[i]);
    }
  }

  // One section of the loop; false is the failed assertion on its name.
  method RegisterNext(context: BinaryContext, section: Section, next: nat, mapping: map<string, nat>)
    returns (ok: bool, next': nat, mapping': map<string, nat>)
    modifies context
    ensures context.hasRelocations == (old(context.hasRelocations) || section.name == RELA_TEXT)
    ensures context.isStripped == (old(context.isStripped) && section.name != SYMTAB)
    ensures context.oldTextSectionSize == if section.name == TEXT then section.size else old(context.oldTextSectionSize)
    ensures ok == (section.name == "" || section.name !in mapping)
    ensures ok && section.name == "" ==> next' == next && mapping' == mapping && context.registered == old(context.registered)
    ensures ok && section.name != "" ==>
              && next' == NextAfter(section, next) && mapping' == mapping[section.name := AddressFor(section, next)]
              && context.registered == old(context.registered) + [Placed(section, AddressFor(section, next))]
  {
    ok, next', mapping' := true, next, mapping;
    context.NoteName(section);
    if section.name == "" {
      return;
    }
    if section.name in mapping {
      ok := false;
      return;
    }
    next' := AddressFor(section, next);
    context.RegisterSection(section, next');
    mapping' := mapping[section.name := next'];
    next' := (next' + section.size) % WORD;
  }

  method DiscoverAndRegisterSections(sections: seq<Section>, context: BinaryContext) returns (r: Discovery)
    requires context.registered == []
    modifies context
    ensures r == DuplicateSection <==> !Distinct(sections)
    ensures Distinct(sections) ==> context.registered == Place(sections, 0x10000)
    ensures Distinct(sections) ==> context.hasRelocations == (old(context.hasRelocations) || Named(sections, RELA_TEXT))
    ensures Distinct(sections) ==> context.isStripped == !Named(sections, SYMTAB)
    ensures Distinct(sections) ==> forall s :: s in sections && s.name == TEXT ==> context.oldTextSectionSize == s.size
    ensures Distinct(sections) ==>
              r == if !context.hasRelocations then NoRelocations
                   else if context.isStripped then NoSymbolTable
                   else Discovered(MappingOf(Place(sections, 0x10000)))
  {
    hide Named, Place, MappingOf, Distinct;
    context.isStripped := true;
    var ok, sectionVirtualMapping := RegisterAll(sections, context);
    if !ok {
      return DuplicateSection;
    }
    if !context.hasRelocations {
      return NoRelocations;
    }
    if context.isStripped {
      return NoSymbolTable;
    }
    r := Discovered(sectionVirtualMapping);
  }

  // The loop over the sections.
  method RegisterAll(sections: seq<Section>, context: BinaryContext) returns (ok: bool, sectionVirtualMapping: map<string, nat>)
    requires context.registered == [] && context.isStripped
    modifies context
    ensures ok == Distinct(sections)
    ensures ok ==> context.registered == Place(sections, FIRST_ADDRESS) && sectionVirtualMapping == MappingOf(context.registered)
    ensures ok ==> context.hasRelocations == (old(context.hasRelocations) || Named(sections, RELA_TEXT))
    ensures ok ==> context.isStripped == !Named(sections, SYMTAB)
    ensures ok ==> TextSized(sections, context.oldTextSectionSize)
  {
    var nextAvailableAddress: nat := FIRST_ADDRESS;
    sectionVirtualMapping := map[];
    assert sections[0..] == sections && Walked(sections, 0, [], FIRST_ADDRESS, map[]);
    assert !Named(sections[..0], RELA_TEXT) && !Named(sections[..0], SYMTAB);
    hide Walked, Named, Place, MappingOf, Distinct;
    var i := 0;
    while i < |sections|
      invariant 0 <= i <= |sections| && Walked(sections, i, context.registered, nextAvailableAddress, sectionVirtualMapping)
      invariant context.hasRelocations == (old(context.hasRelocations) || Named(sections[..i], RELA_TEXT))
      invariant context.isStripped == !Named(sections[..i], SYMTAB)
      invariant TextSized(sections[..i], context.oldTextSectionSize)
    {
      NamedStep(sections, i, RELA_TEXT);
      NamedStep(sections, i, SYMTAB);
      TextStep(sections, i, context.oldTextSectionSize);
      WalkStep(sections, i, context.registered, nextAvailableAddress, sectionVirtualMapping);
      ok, nextAvailableAddress, sectionVirtualMapping := RegisterNext(context, sections[i], nextAvailableAddress, sectionVirtualMapping);
      if !ok {
        return;
      }
      i := i + 1;
    }
    assert sections[..i] == sections;
    WalkEnd(sections, context.registered, nextAvailableAddress, sectionVirtualMapping);
    ok := true;
  }

  lemma {:induction false} WalkStep(sections: seq<Section>, i: nat, placed: seq<Placed>, next: nat, mapping: map<string, nat>)
    requires i < |sections| && Walked(sections, i, placed, next, mapping)
    ensures var s, a := sections[i], AddressFor(sections[i], next);
            if s.name == "" then Walked(sections, i + 1, placed, next, mapping)
            else if s.name in mapping then !Distinct(sections)
            else Walked(sections, i + 1, placed + [Placed(s, a)], NextAfter(s, next), mapping[s.name := a])
  {
    if sections[i].name == "" {
      WalkSkip(sections, i, placed, next, mapping);
    } else if sections[i].name in mapping {
      WalkTwice(sections, i, placed, next, mapping);
    } else {
      WalkPlace(sections, i, placed, next, mapping);
    }
  }

  lemma {:induction false} RegisterOne(placed: seq<Placed>, p: Placed, rest: seq<Placed>)
    ensures placed + [p] + rest == placed + ([p] + rest)
    ensures MappingOf(placed + [p]) == MappingOf(placed)[p.section.name := p.address]
  {
    assert (placed + [p])[..|placed|] == placed;
  }
}
