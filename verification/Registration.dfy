/**
  Which functions a unit may declare and define. The analyzer keeps only the
  first entry of a name and compares the others with it, yet what it accepts
  does not depend on the order.
 */
module Registration {
  import opened Wrappers
  import opened Ast
  import opened Analysis

  datatype Named = Named(name: string, entry: Entry)

  function AddAll(E: map<string, Entry>, fs: seq<Named>): Option<map<string, Entry>>
    decreases |fs|
  {
    if fs == [] then Some(E)
    else
      var E1 :- AddFunction(E, fs[0].name, fs[0].entry);
      AddAll(E1, fs[1..])
  }

  // Two entries of one name may stand together only as equal declarations.
  ghost predicate Agree(a: Entry, b: Entry) {
    && a.status == Declared && b.status == Declared
    && TypesOf(a.signature.parameters) == TypesOf(b.signature.parameters) && a.signature.typ == b.signature.typ
  }

  ghost predicate AllAgree(fs: seq<Named>) {
    forall i, j :: 0 <= i < j < |fs| && fs[i].name == fs[j].name ==> Agree(fs[i].entry, fs[j].entry)
  }

  ghost predicate AgreesWith(E: map<string, Entry>, fs: seq<Named>) {
    forall i :: 0 <= i < |fs| && fs[i].name in E ==> Agree(E[fs[i].name], fs[i].entry)
  }

  lemma {:induction false} AddAllExact(E: map<string, Entry>, fs: seq<Named>)
    ensures AddAll(E, fs).Some? <==> AgreesWith(E, fs) && AllAgree(fs)
    decreases |fs|
  {
    if fs != [] {
      var x, rest := fs[0], fs[1..];
      var E1 := AddFunction(E, x.name, x.entry);
      if E1.Some? {
        AddAllExact(E1.value, rest);
        if AgreesWith(E1.value, rest) && AllAgree(rest) {
          AddedAgrees(E, fs);
        }
        if AgreesWith(E, fs) && AllAgree(fs) {
          forall i | 0 <= i < |rest| && rest[i].name in E1.value ensures Agree(E1.value[rest[i].name], rest[i].entry) {
            assert rest[i] == fs[i + 1];
          }
          forall i, j | 0 <= i < j < |rest| && rest[i].name == rest[j].name ensures Agree(rest[i].entry, rest[j].entry) {
            assert Agree(fs[i + 1].entry, fs[j + 1].entry);
          }
        }
      } else {
        assert x.name in E && !Agree(E[x.name], x.entry);
      }
    }
  }

  lemma {:induction false} AddedAgrees(E: map<string, Entry>, fs: seq<Named>)
    requires fs != [] && AddFunction(E, fs[0].name, fs[0].entry).Some?
    requires AgreesWith(AddFunction(E, fs[0].name, fs[0].entry).value, fs[1..]) && AllAgree(fs[1..])
    ensures AgreesWith(E, fs) && AllAgree(fs)
  {
    var x, rest := fs[0], fs[1..];
    var E1 := AddFunction(E, x.name, x.entry).value;
    forall i | 0 <= i < |fs| && fs[i].name in E ensures Agree(E[fs[i].name], fs[i].entry) {
      if i > 0 {
        assert rest[i - 1] == fs[i];
      }
    }
    forall i, j | 0 <= i < j < |fs| && fs[i].name == fs[j].name ensures Agree(fs[i].entry, fs[j].entry) {
      assert rest[j - 1] == fs[j];
      if i > 0 {
        assert rest[i - 1] == fs[i];
      } else {
        assert Agree(E1[x.name], fs[j].entry);
      }
    }
  }

  // The same, without an order.
  ghost predicate BagAgrees(bag: multiset<Named>) {
    forall a, b :: a in bag && b in bag && a.name == b.name && (a != b || bag[a] > 1) ==> Agree(a.entry, b.entry)
  }

  lemma {:induction false} TwiceIn(fs: seq<Named>, i: nat, j: nat)
    requires i < j < |fs| && fs[i] == fs[j]
    ensures multiset(fs)[fs[i]] > 1
  {
    assert fs == fs[..j] + fs[j..];
    assert fs[..j][i] == fs[i] && fs[j..][0] == fs[j];
    assert multiset(fs) == multiset(fs[..j]) + multiset(fs[j..]);
  }

  lemma {:induction false} OccursTwice(fs: seq<Named>, x: Named) returns (i: nat, j: nat)
    requires multiset(fs)[x] > 1
    ensures i < j < |fs| && fs[i] == x == fs[j]
  {
    i :| i < |fs| && fs[i] == x;
    var others := fs[..i] + fs[i + 1..];
    assert fs == fs[..i] + [x] + fs[i + 1..];
    assert multiset(fs) == multiset(others) + multiset{x};
    var k :| 0 <= k < |others| && others[k] == x;
    if k < i {
      i, j := k, i;
    } else {
      j := k + 1;
    }
  }

  // A unit is accepted exactly when each name has one entry, or several
  // declarations that agree; so the order of the text does not matter.
  lemma {:induction false} RegistrationExact(fs: seq<Named>)
    ensures AddAll(map[], fs).Some? <==> BagAgrees(multiset(fs))
  {
    AddAllExact(map[], fs);
    if AllAgree(fs) {
      forall a, b | a in multiset(fs) && b in multiset(fs) && a.name == b.name && (a != b || multiset(fs)[a] > 1) ensures Agree(a.entry, b.entry) {
        if a == b {
          var i, j := OccursTwice(fs, a);
        } else {
          var i :| 0 <= i < |fs| && fs[i] == a;
          var j :| 0 <= j < |fs| && fs[j] == b;
          assert i < j || j < i;
        }
      }
    }
    if BagAgrees(multiset(fs)) {
      forall i, j | 0 <= i < j < |fs| && fs[i].name == fs[j].name ensures Agree(fs[i].entry, fs[j].entry) {
        assert fs[i] in multiset(fs) && fs[j] in multiset(fs);
        if fs[i] == fs[j] {
          TwiceIn(fs, i, j);
        }
      }
    }
  }

  lemma {:induction false} RegistrationUnordered(fs: seq<Named>, gs: seq<Named>)
    requires multiset(fs) == multiset(gs)
    ensures AddAll(map[], fs).Some? <==> AddAll(map[], gs).Some?
  {
    RegistrationExact(fs);
    RegistrationExact(gs);
  }
}
