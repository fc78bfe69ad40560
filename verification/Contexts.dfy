// Creating and stopping contexts on a node: every one gets a handle of its own.
module Contexts {
  import opened Words
  import opened Handles
  import opened Names

  class Host<Context> {
    const node: Byte
    const registry: Registry<Context>
    ghost var created: nat  // how many ids were given out

    // The registry counts along, and every context has the handle of one of the creations.
    ghost predicate Valid()
      reads this, registry
    {
      && registry.Valid()
      && registry.issued == Low32(created)
      && (forall h | h in registry.contexts :: IsCreated(h))
    }

    ghost predicate IsCreated(handle: U32)
      reads this`created
    {
      exists k: nat :: k < created && handle == Created(node, k)
    }

    constructor (node: Byte)
      ensures this.node == node && fresh(registry) && created == 0
      ensures Valid() && registry.contexts == map[] && registry.names == []
    {
      this.node := node;
      registry := new Registry();
      created := 0;
    }

    // create_ctx: 0 if the type of the context is unknown, or if its on_init fails, which has
    // used up an id. Exactly for the first 2^24 ids the handle was never given out before; so
    // they always find room in the table.
    method CreateContext(known: bool, context: Context, initialized: bool) returns (handle: U32)
      requires Valid()
      modifies this`created, registry`issued, registry`contexts
      ensures Valid() && created == old(created) + if known then 1 else 0
      ensures known && initialized ==>
        && handle == Created(node, old(created))
        && (old(created) < NUMBERS <==> forall k: nat | k < old(created) :: handle != Created(node, k))
        && (old(created) < NUMBERS ==> handle !in old(registry.contexts))
        && registry.contexts ==
          if handle in old(registry.contexts) then old(registry.contexts)
          else old(registry.contexts)[handle := context]
      ensures !(known && initialized) ==> handle == 0 && registry.contexts == old(registry.contexts)
    {
      if !known {
        return 0;
      }
      hide Created, WithNode, WithNumber, Low32;
      var id := registry.NewId();
      handle := WithNode(WithNumber(0, id), node);
      NextCreated(node, created);
      FreshExactly(node, created);
      created := created + 1;
      assert IsCreated(handle);
      forall h | h in registry.contexts
        ensures IsCreated(h) && (old(created) < NUMBERS ==> h != handle)
      {
        var k: nat :| k < old(created) && h == Created(node, k);
      }
      if !initialized {
        return 0;
      }
      registry.AddContext(handle, context);
    }

    // stop_ctx by handle.
    method StopById(id: U32)
      requires Valid()
      modifies registry`contexts, registry`names
      ensures Valid() && registry.contexts == old(registry.contexts) - {id}
      ensures registry.names ==
        if id in old(registry.contexts) then FirstRemoved(old(registry.names), id) else old(registry.names)
    {
      if id in registry.contexts {
        registry.DeleteContext(id);
      }
    }

    // stop_ctx by name: the context that the name leads to goes, if it exists.
    method StopByName(name: Bytes)
      requires Valid()
      modifies registry`contexts, registry`names
      ensures Valid()
      ensures var id := if name in old(registry.Named()) then old(registry.Named())[name] else 0;
        && registry.contexts == old(registry.contexts) - {id}
        && registry.names ==
          if id in old(registry.contexts) then FirstRemoved(old(registry.names), id) else old(registry.names)
    {
      var id := registry.FindName(name);
      StopById(id);
    }
  }

  // The first 2^24 handles of a node are new, and after that every one is a repetition.
  lemma FreshExactly(node: Byte, n: nat)
    ensures n < NUMBERS <==> forall k: nat | k < n :: Created(node, n) != Created(node, k)
  {
    hide Created;
    forall k: nat | k < n
      ensures Created(node, n) == Created(node, k) <==> n % NUMBERS == k % NUMBERS
    {
      CreatedHandlesCollide(node, n, node, k);
    }
    if n >= NUMBERS {
      var k := n - NUMBERS;
      assert k % NUMBERS == n % NUMBERS;
      assert Created(node, n) == Created(node, k);
    }
  }

  lemma NextCreated(node: Byte, k: nat)
    ensures Low32(1 + Low32(k)) == Low32(k + 1)
    ensures WithNode(WithNumber(0, Low32(1 + Low32(k))), node) == Created(node, k)
  {
  }

  // Stopping a context by one of its names takes just that name out of the lookup, exactly if it
  // is the first of them, like the only one.
  lemma StoppedNameIsGone(entries: seq<Entry>, name: Bytes)
    requires Ascending(entries) && name in Meaning(entries)
    ensures var id := Meaning(entries)[name];
      Meaning(FirstRemoved(entries, id)) == Meaning(entries) - {name}
      <==> forall n | n in Meaning(entries) && Meaning(entries)[n] == id :: !Less(n, name)
  {
    hide Ascending, FirstRemoved, Meaning, Less;
    var id := Meaning(entries)[name];
    MeaningOf(entries);
    FirstNameGoes(entries, Entry(name, id));
    forall n | n in Meaning(entries) && Meaning(entries)[n] == id
      ensures Entry(n, id) in entries
    {
    }
  }

  lemma {:induction false} FirstNameGoes(entries: seq<Entry>, e: Entry)
    requires Ascending(entries) && e in entries
    ensures Meaning(FirstRemoved(entries, e.id)) == Meaning(entries) - {e.name}
      <==> forall f | f in entries && f.id == e.id :: !Less(f.name, e.name)
  {
    var head, rest := entries[0], entries[1..];
    MeaningOf(entries);
    MeaningOf(rest);
    LessIsTotal(head.name, head.name);
    if head.id == e.id {
      if e == head {
        HeadLeaves(entries);
        forall f | f in entries ensures !Less(f.name, e.name) {
          LessIsTotal(head.name, f.name);
        }
      } else {
        assert head.name !in Meaning(rest) && head.name in Meaning(entries) - {e.name};
      }
    } else {
      FirstNameGoes(rest, e);
      LessIsTotal(head.name, e.name);
      HeadStays(rest, head, e);
    }
  }

  lemma HeadLeaves(entries: seq<Entry>)
    requires Ascending(entries) && entries != []
    ensures Meaning(entries[1..]) == Meaning(entries) - {entries[0].name}
  {
    MeaningOf(entries[1..]);
    LessIsTotal(entries[0].name, entries[0].name);
  }

  lemma HeadStays(rest: seq<Entry>, head: Entry, e: Entry)
    requires Ascending([head] + rest) && e in rest && head.id != e.id
    ensures var all := [head] + rest;
      Meaning(FirstRemoved(all, e.id)) == Meaning(all) - {e.name}
      <==> Meaning(FirstRemoved(rest, e.id)) == Meaning(rest) - {e.name}
  {
    hide Meaning, FirstRemoved, Ascending;
    var less := FirstRemoved(rest, e.id);
    BehindHead(rest, head);
    NotNamed(rest, head.name);
    FirstRemovedKeeps(rest, e.id);
    NotNamed(less, head.name);
    Skipped(rest, head, e.id);
    WithHead(less, head);
    WithHead(rest, head);
    WithKeyWithout(Meaning(rest), head.name, head.id, e.name);
    SameWithKey(Meaning(less), Meaning(rest) - {e.name}, head.name, head.id);
  }

  lemma NotNamed(entries: seq<Entry>, name: Bytes)
    requires Ascending(entries) && forall f | f in entries :: f.name != name
    ensures name !in Meaning(entries)
  {
    MeaningOf(entries);
  }

  lemma WithKeyWithout<K, V>(m: map<K, V>, k: K, v: V, other: K)
    requires k != other
    ensures m[k := v] - {other} == (m - {other})[k := v]
  {
  }

  lemma BehindHead(rest: seq<Entry>, head: Entry)
    requires Ascending([head] + rest)
    ensures Ascending(rest) && forall f | f in rest :: f.name != head.name
  {
    assert ([head] + rest)[1..] == rest;
    LessIsTotal(head.name, head.name);
  }

  lemma Skipped(rest: seq<Entry>, head: Entry, id: U32)
    requires head.id != id
    ensures FirstRemoved([head] + rest, id) == [head] + FirstRemoved(rest, id)
  {
    assert ([head] + rest)[1..] == rest;
  }

  lemma WithHead(rest: seq<Entry>, head: Entry)
    ensures Meaning([head] + rest) == Meaning(rest)[head.name := head.id]
  {
    assert ([head] + rest)[1..] == rest;
  }

  lemma SameWithKey<K, V>(a: map<K, V>, b: map<K, V>, k: K, v: V)
    requires k !in a && k !in b
    ensures a[k := v] == b[k := v] <==> a == b
  {
    assert a[k := v] - {k} == a && b[k := v] - {k} == b;
  }
}
