// Context names of one node: a vector kept sorted by name and searched by bisection.
module Names {
  import opened Words

  datatype Entry = Entry(name: Bytes, id: U32)

  // Bytewise lexicographic order.
  predicate Less(a: Bytes, b: Bytes) {
    b != [] && (a == [] || a[0] < b[0] || (a[0] == b[0] && Less(a[1..], b[1..])))
  }

  lemma {:induction false} LessIsTotal(a: Bytes, b: Bytes)
    ensures Less(a, b) || a == b || Less(b, a)
    ensures !(Less(a, b) && Less(b, a)) && !Less(a, a)
  {
    if a != [] && b != [] {
      LessIsTotal(a[1..], b[1..]);
      assert a == [a[0]] + a[1..] && b == [b[0]] + b[1..];
    }
    if a != [] {
      LessIsTotal(a[1..], a[1..]);
    }
  }

  lemma {:induction false} LessIsTransitive(a: Bytes, b: Bytes, c: Bytes)
    requires Less(a, b) && Less(b, c)
    ensures Less(a, c)
  {
    if a != [] && a[0] == b[0] == c[0] {
      LessIsTransitive(a[1..], b[1..], c[1..]);
    }
  }

  // The first byte in which two names differ decides, and a name comes before its continuations.
  lemma {:induction false} LessAtFirstDifference(common: Bytes, x: Byte, y: Byte, a: Bytes, b: Bytes)
    ensures x < y ==> Less(common + [x] + a, common + [y] + b) && !Less(common + [y] + b, common + [x] + a)
    ensures Less(common, common + [y] + b) && !Less(common + [y] + b, common) && !Less(common, common)
  {
    if common != [] {
      var rest := common[1..];
      LessAtFirstDifference(rest, x, y, a, b);
      assert (common + [x] + a)[1..] == rest + [x] + a;
      assert (common + [y] + b)[1..] == rest + [y] + b;
    }
  }

  predicate Below(name: Bytes, entries: seq<Entry>) {
    forall e | e in entries :: Less(name, e.name)
  }

  // Strictly ascending, so no name twice.
  predicate Ascending(entries: seq<Entry>) {
    entries != [] ==> Below(entries[0].name, entries[1..]) && Ascending(entries[1..])
  }

  // What the vector stands for.
  function Meaning(entries: seq<Entry>): map<Bytes, U32> {
    if entries == [] then map[] else Meaning(entries[1..])[entries[0].name := entries[0].id]
  }

  lemma {:induction false} MeaningOf(entries: seq<Entry>)
    requires Ascending(entries)
    ensures forall e | e in entries :: e.name in Meaning(entries) && Meaning(entries)[e.name] == e.id
    ensures forall name | name in Meaning(entries) :: Entry(name, Meaning(entries)[name]) in entries
  {
    if entries != [] {
      MeaningOf(entries[1..]);
      LessIsTotal(entries[0].name, entries[0].name);
    }
  }

  lemma {:induction false} AscendingPairs(entries: seq<Entry>, i: nat, j: nat)
    requires Ascending(entries) && i < j < |entries|
    ensures Less(entries[i].name, entries[j].name)
  {
    if i > 0 {
      AscendingPairs(entries[1..], i - 1, j - 1);
    } else {
      assert entries[j] == entries[1..][j - 1];
    }
  }

  // Appending an entry and sorting again puts it in its place.
  function Inserted(entries: seq<Entry>, x: Entry): seq<Entry> {
    if entries == [] || Less(x.name, entries[0].name) then [x] + entries
    else [entries[0]] + Inserted(entries[1..], x)
  }

  lemma {:induction false} InsertedRearranges(entries: seq<Entry>, x: Entry)
    ensures multiset(Inserted(entries, x)) == multiset(entries + [x])
  {
    if entries != [] && !Less(x.name, entries[0].name) {
      InsertedRearranges(entries[1..], x);
      assert entries + [x] == [entries[0]] + (entries[1..] + [x]);
    }
  }

  lemma {:induction false} InsertedAscends(entries: seq<Entry>, x: Entry)
    requires Ascending(entries) && x.name !in Meaning(entries)
    ensures Ascending(Inserted(entries, x))
  {
    if entries == [] {
    } else if Less(x.name, entries[0].name) {
      forall e | e in entries ensures Less(x.name, e.name) {
        if e != entries[0] {
          assert e in entries[1..];
          LessIsTransitive(x.name, entries[0].name, e.name);
        }
      }
      assert Inserted(entries, x)[1..] == entries;
    } else {
      LessIsTotal(x.name, entries[0].name);
      InsertedAscends(entries[1..], x);
      InsertedRearranges(entries[1..], x);
      var rest := Inserted(entries[1..], x);
      assert Inserted(entries, x)[1..] == rest;
      assert forall e | e in rest :: e in multiset(rest);
    }
  }

  lemma {:induction false} InsertedMeans(entries: seq<Entry>, x: Entry)
    requires x.name !in Meaning(entries)
    ensures Meaning(Inserted(entries, x)) == Meaning(entries)[x.name := x.id]
  {
    if entries == [] || Less(x.name, entries[0].name) {
      assert Inserted(entries, x)[1..] == entries;
    } else {
      InsertedMeans(entries[1..], x);
      assert Inserted(entries, x)[1..] == Inserted(entries[1..], x);
    }
  }

  // Whatever sorting algorithm is used, the strictly ascending arrangement is unique.
  lemma {:induction false} ArrangementIsUnique(a: seq<Entry>, b: seq<Entry>)
    requires Ascending(a) && Ascending(b) && multiset(a) == multiset(b)
    ensures a == b
  {
    assert |a| == |multiset(a)| == |b|;
    if a != [] {
      assert a[0] in multiset(b) && b[0] in multiset(a);
      if a[0] != b[0] {
        assert a[0] in b[1..] && b[0] in a[1..] by {
          assert b == [b[0]] + b[1..] && a == [a[0]] + a[1..];
        }
        LessIsTotal(a[0].name, b[0].name);
      }
      assert a == [a[0]] + a[1..] && b == [b[0]] + b[1..];
      assert multiset(a[1..]) == multiset(a) - multiset{a[0]};
      assert multiset(b[1..]) == multiset(b) - multiset{b[0]};
      ArrangementIsUnique(a[1..], b[1..]);
    }
  }

  // Deleting a context removes the first entry that names it.
  function FirstRemoved(entries: seq<Entry>, id: U32): seq<Entry> {
    if entries == [] then []
    else if entries[0].id == id then entries[1..]
    else [entries[0]] + FirstRemoved(entries[1..], id)
  }

  lemma {:induction false} FirstRemovedAt(entries: seq<Entry>, i: nat, id: U32)
    requires i <= |entries| && forall k | 0 <= k < i :: entries[k].id != id
    requires i < |entries| ==> entries[i].id == id
    ensures FirstRemoved(entries, id) == if i < |entries| then entries[..i] + entries[i + 1..] else entries
  {
    if i > 0 {
      FirstRemovedAt(entries[1..], i - 1, id);
    }
  }

  function NamesOf(entries: seq<Entry>, id: U32): nat {
    if entries == [] then 0 else (if entries[0].id == id then 1 else 0) + NamesOf(entries[1..], id)
  }

  lemma {:induction false} NoNamesLeft(entries: seq<Entry>, id: U32)
    ensures NamesOf(entries, id) == 0 <==> forall e | e in entries :: e.id != id
  {
    if entries != [] {
      NoNamesLeft(entries[1..], id);
      assert entries == [entries[0]] + entries[1..];
    }
  }

  // After deletion the name lookup gives no name for the context exactly when it had at most one;
  // order and every other context's names stay.
  lemma {:induction false} FirstRemovedKeeps(entries: seq<Entry>, id: U32)
    requires Ascending(entries)
    ensures Ascending(FirstRemoved(entries, id))
    ensures (forall e | e in FirstRemoved(entries, id) :: e.id != id) <==> NamesOf(entries, id) <= 1
    ensures forall e :: e in FirstRemoved(entries, id) ==> e in entries
    ensures forall e :: e in entries && e.id != id ==> e in FirstRemoved(entries, id)
  {
    if entries != [] {
      if entries[0].id == id {
        NoNamesLeft(entries[1..], id);
      } else {
        FirstRemovedKeeps(entries[1..], id);
        assert FirstRemoved(entries, id)[1..] == FirstRemoved(entries[1..], id);
      }
    }
  }

  // So a deletion takes all names of the context out of the lookup, and no others, exactly if the
  // context had at most one.
  lemma DeletionMeans(entries: seq<Entry>, id: U32)
    requires Ascending(entries)
    ensures var others := map n | n in Meaning(entries) && Meaning(entries)[n] != id :: Meaning(entries)[n];
      NamesOf(entries, id) <= 1 <==> Meaning(FirstRemoved(entries, id)) == others
  {
    FirstRemovedKeeps(entries, id);
    MeaningOf(entries);
    MeaningOf(FirstRemoved(entries, id));
    if NamesOf(entries, id) > 1 {
      var e :| e in FirstRemoved(entries, id) && e.id == id;
      assert e.name in Meaning(FirstRemoved(entries, id));
    }
  }

  // The context manager of a node: its contexts by handle, their names, and the id counter.
  class Registry<Context> {
    var issued: U32
    var contexts: map<U32, Context>
    var names: seq<Entry>

    constructor ()
      ensures issued == 0 && contexts == map[] && names == [] && Valid()
    {
      issued, contexts, names := 0, map[], [];
    }

    ghost predicate Valid()
      reads this
    {
      Ascending(names)
    }

    ghost function Named(): map<Bytes, U32>
      reads this
    {
      Meaning(names)
    }

    method NewId() returns (id: U32)
      modifies this`issued
      ensures id == Low32(1 + old(issued)) && issued == id
    {
      id := Low32(1 + issued);
      issued := id;
    }

    // A handle that is in use keeps its context, which an assertion of the source rules out.
    method AddContext(id: U32, context: Context)
      modifies this`contexts
      ensures contexts == if id in old(contexts) then old(contexts) else old(contexts)[id := context]
    {
      if id !in contexts {
        contexts := contexts[id := context];
      }
    }

    // Bisection for the first entry that is not less than `name`.
    method LowerBound(name: Bytes) returns (at: nat)
      requires Valid()
      ensures at <= |names|
      ensures forall i | 0 <= i < at :: Less(names[i].name, name)
      ensures forall i | at <= i < |names| :: !Less(names[i].name, name)
    {
      at := 0;
      var count := |names|;
      while count > 0
        invariant 0 <= at && 0 <= count && at + count <= |names|
        invariant forall i | 0 <= i < at :: Less(names[i].name, name)
        invariant forall i | at + count <= i < |names| :: !Less(names[i].name, name)
      {
        var half := count / 2;
        var middle := at + half;
        if Less(names[middle].name, name) {
          forall i | 0 <= i < middle ensures Less(names[i].name, name) {
            AscendingPairs(names, i, middle);
            LessIsTransitive(names[i].name, names[middle].name, name);
          }
          at := middle + 1;
          count := count - half - 1;
        } else {
          forall i | middle < i < |names| ensures !Less(names[i].name, name) {
            AscendingPairs(names, middle, i);
            if Less(names[i].name, name) {
              LessIsTransitive(names[middle].name, names[i].name, name);
            }
          }
          count := half;
        }
      }
    }

    method Search(name: Bytes) returns (found: bool, at: nat)
      requires Valid()
      ensures found <==> name in Named()
      ensures found ==> at < |names| && names[at].name == name && names[at].id == Named()[name]
    {
      at := LowerBound(name);
      found := at < |names| && names[at].name == name;
      MeaningOf(names);
      forall i | 0 <= i < |names|
        ensures names[i].name == name ==> found
      {
        LessIsTotal(name, name);
        if at < i {
          AscendingPairs(names, at, i);
        }
      }
    }

    // The id registered under a name, or 0.
    method FindName(name: Bytes) returns (id: U32)
      requires Valid()
      ensures id == if name in Named() then Named()[name] else 0
    {
      var found, at := Search(name);
      id := if found then names[at].id else 0;
    }

    // Fails, changing nothing, exactly if the name is taken.
    method RegisterName(name: Bytes, id: U32) returns (ok: bool)
      requires Valid()
      modifies this`names
      ensures Valid()
      ensures ok <==> name !in old(Named())
      ensures Named() == if ok then old(Named())[name := id] else old(Named())
    {
      var found, at := Search(name);
      if found {
        return false;
      }
      InsertedAscends(names, Entry(name, id));
      InsertedMeans(names, Entry(name, id));
      names := Inserted(names, Entry(name, id));
      return true;
    }

    // The first entry that names the context, or the end.
    method PositionOf(id: U32) returns (at: nat)
      ensures at <= |names| && forall k | 0 <= k < at :: names[k].id != id
      ensures at < |names| ==> names[at].id == id
    {
      at := 0;
      while at < |names| && names[at].id != id
        invariant at <= |names|
        invariant forall k | 0 <= k < at :: names[k].id != id
      {
        at := at + 1;
      }
    }

    // Removes the context and the first name that leads to it.
    method DeleteContext(id: U32)
      requires Valid()
      modifies this`contexts, this`names
      ensures Valid()
      ensures contexts == old(contexts) - {id}
      ensures names == FirstRemoved(old(names), id)
    {
      hide Ascending, FirstRemoved, NamesOf;
      contexts := contexts - {id};
      FirstRemovedKeeps(names, id);
      var at := PositionOf(id);
      FirstRemovedAt(names, at, id);
      if at < |names| {
        names := names[..at] + names[at + 1..];
      }
    }
  }
}
