// Generator and iterator objects: who owns the root coroutine, and what a consumer sees.
module Generators {
  import opened GenSemantics
  import opened GenMachine
  import opened Wrappers

  // A call returns, lets an exception out, or is refused by a logic assertion.
  datatype Reply<+T> = Done(value: T) | Thrown(error: Error) | LogicError

  // The ghost record of one iteration: the linked frames, everything created so far, and how
  // often control was transferred (by a resume, into a nested generator, out of one).
  datatype Record = Record(chain: Chain, heap: Heap, resumes: nat, pushes: nat, pops: nat)

  ghost function Start(root: Frame): Record {
    Record(Root(root), Heap({root}, {}), 0, 0, 0)
  }

  ghost predicate Tracks(r: Record, root: Frame)
    reads Frames(r.chain), Awaiters(r.chain), r.heap.frames
  {
    && Sound(r.chain, r.heap)
    && RootOf(r.chain) == root
    && r.pushes == Depth(r.chain) + r.pops
  }

  ghost function Left(r: Record): Trace
    reads r.chain.frame
  {
    Meaning(StackOf(r.chain))
  }

  ghost predicate Grown(r: Record, r': Record) {
    r.heap.frames <= r'.heap.frames && r.heap.awaiters <= r'.heap.awaiters
  }

  // What the consumer sees after begin or ++, when `due` was still to be read: the next value,
  // with the rest still to come, or the end, at which an uncaught exception leaves the call.
  ghost predicate Delivered(due: Trace, r: Reply<()>, atEnd: bool, coming: Trace) {
    if due.values != [] then
      r == Done(()) && !atEnd && coming.values == due.values && coming.outcome == due.outcome
    else
      && r == (match due.outcome case Finished => Done(()) case Raised(e) => Thrown(e))
      && atEnd && coming == Nothing
  }

  // One resume of the root's top frame.
  method Advance(root: Frame, ghost r: Record) returns (signal: Signal, ghost r': Record)
    requires Tracks(r, root)
    modifies r.heap.frames, r.heap.awaiters
    ensures Tracks(r', root)
    ensures r.heap.frames <= r'.heap.frames && fresh(r'.heap.frames - r.heap.frames)
    ensures r.heap.awaiters <= r'.heap.awaiters && fresh(r'.heap.awaiters - r.heap.awaiters)
    ensures Advanced(old(Left(r)), Left(r'), signal, r'.chain.frame, root)
    ensures root.at == AtEnd <==> old(Left(r)).values == []
    ensures root.at == AtEnd ==> r'.chain.Root? && Left(r') == Trace([], Finished, 0)
    ensures r'.resumes == r.resumes + 1
    ensures Left(r').nested + r'.pushes == old(Left(r).nested) + r.pushes
  {
    ghost var c, h, pushes, pops;
    ghost var before := Left(r);
    signal, c, h, pushes, pops := Resume(root.top, r.chain, r.heap);
    r' := Record(c, h, r.resumes + 1, r.pushes + pushes, r.pops + pops);
    if c.Over? {
      RootWaits(c, root);
    }
  }

  // An iteration that rests: at its end, or on a value, with `coming` that value and the rest.
  ghost predicate Standing(root: Frame, r: Record, coming: Trace)
    reads Frames(r.chain), Awaiters(r.chain), r.heap.frames
  {
    && Tracks(r, root)
    && var top := r.chain.frame;
      if root.at == Place.AtEnd then
        r.chain.Root? && Left(r) == coming == Nothing
      else
        top.at == AtYield && top.value.Some? && coming == Prepended(top.value.value, Left(r))
  }

  // One resume, as begin and ++ make it.
  method Proceed(root: Frame, ghost r: Record) returns (reply: Reply<()>, ghost r': Record, ghost coming: Trace)
    requires Tracks(r, root)
    modifies r.heap.frames, r.heap.awaiters
    ensures Standing(root, r', coming)
    ensures Delivered(old(Left(r)), reply, root.at == Place.AtEnd, coming)
    ensures r'.resumes == r.resumes + 1
    ensures coming.nested + r'.pushes == old(Left(r)).nested + r.pushes
    ensures reply.Thrown? ==> r'.chain.Root?
    ensures Grown(r, r') && fresh(r'.heap.frames - r.heap.frames) && fresh(r'.heap.awaiters - r.heap.awaiters)
  {
    hide Meaning, Frames, Awaiters, RootOf, Depth, Sound;
    var signal;
    signal, r' := Advance(root, r);
    reply := match signal case Rested => Done(()) case Escaped(e) => Thrown(e);
    coming := if root.at == Place.AtEnd then Nothing else Prepended(r'.chain.frame.value.value, Left(r'));
  }

  // Destroying the root destroys every frame that still exists, each of them once.
  method Release(root: Frame, ghost r: Record)
    requires Tracks(r, root)
    modifies r.heap.frames
    ensures forall f | f in r.heap.frames :: !f.alive
  {
    ChainHolds(r.chain, root, Bare(r.chain.frame));
    Destroy(root, TowerOf(r.chain, Bare(r.chain.frame)));
  }

  const Nothing := Trace([], Finished, 0)

  lemma ValuesAreLeft(root: Frame, r: Record, coming: Trace)
    requires Standing(root, r, coming) && root.at != Place.AtEnd
    ensures Tracks(r, root)
    ensures coming.values != [] && Left(r) == coming.(values := coming.values[1..])
  {
  }

  class Iterator {
    var coro: Frame?
    ghost var record: Record
    ghost var coming: Trace  // the current value, if there is one, and everything after it

    ghost predicate Valid()
      reads this, Frames(record.chain), Awaiters(record.chain), record.heap.frames
    {
      coro != null ==> Standing(coro, record, coming)
    }

    constructor (coro: Frame, ghost record: Record, ghost coming: Trace)
      ensures this.coro == coro && this.record == record && this.coming == coming
    {
      this.coro := coro;
      this.record := record;
      this.coming := coming;
    }

    // The comparison with the default sentinel.
    predicate AtEnd()
      reads this, coro
    {
      coro == null || coro.at == Place.AtEnd
    }

    // operator*
    method Value() returns (r: Reply<Value>)
      requires Valid()
      ensures Valid()
      ensures AtEnd() ==> r == LogicError
      ensures !AtEnd() ==> coming.values != [] && r == Done(coming.values[0])
    {
      if AtEnd() {
        return LogicError;
      }
      return Done(coro.top.value.value);
    }

    // operator++: the next value, or the end, or the exception of the body that ran.
    method Next() returns (r: Reply<()>)
      requires Valid()
      modifies this`record, this`coming, record.heap.frames, record.heap.awaiters
      ensures Valid() && coro == old(coro)
      ensures old(AtEnd()) ==> r == LogicError && record == old(record) && coming == old(coming) && AtEnd()
      ensures !old(AtEnd()) ==>
        && old(coming).values != []
        && Delivered(old(coming).(values := old(coming).values[1..]), r, AtEnd(), coming)
        && record.resumes == old(record).resumes + 1
        && old(coming).nested + old(record).pushes == coming.nested + record.pushes
      ensures Grown(old(record), record)
      ensures fresh(record.heap.frames - old(record.heap.frames))
      ensures fresh(record.heap.awaiters - old(record.heap.awaiters))
    {
      if AtEnd() {
        return LogicError;
      }
      hide Meaning, Frames, Awaiters, RootOf, Depth, Sound, Tracks, Left;
      ValuesAreLeft(coro, record, coming);
      r, record, coming := Proceed(coro, record);
    }

    // ~iterator and destroy(): a second call finds no coroutine and does nothing.
    method Destroy()
      requires Valid()
      modifies this`coro, record.heap.frames
      ensures Valid() && coro == null
      ensures old(coro) != null ==> forall f | f in record.heap.frames :: !f.alive
    {
      if coro != null {
        Release(coro, record);
        coro := null;
      }
    }
  }

  // Wherever an iterator rests: the path from the root's top to the root goes through every frame
  // that exists, each held by the next, and only the top stands on a yield: of the current value.
  lemma RestingShape(it: Iterator)
    requires it.Valid() && !it.AtEnd()
    ensures var path := PathOf(it.record.chain);
      && FollowsParents(path, it.coro) && path[0] == it.coro.top
      && (forall f | f in it.record.heap.frames :: f.alive <==> f in path)
      && path[0].at == AtYield && path[0].awaiter == null
      && it.coming.values != [] && path[0].value == Some(it.coming.values[0])
  {
    PathFollowsParents(it.record.chain, it.coro);
    FramesAreAlive(it.record.chain, it.coro);
  }

  lemma {:induction false} FramesAreAlive(c: Chain, root: Frame)
    requires Hangs(c, root) && c.frame.alive
    ensures forall f | f in Frames(c) :: f.alive
  {
    if c.Over? {
      FramesAreAlive(c.below, root);
    }
  }

  class Generator {
    var coro: Frame?
    ghost var record: Record

    // A generator that still owns its coroutine has not been started, or died in begin.
    ghost predicate Valid()
      reads this, Frames(record.chain), Awaiters(record.chain), record.heap.frames
    {
      coro != null ==>
        && Tracks(record, coro) && record.chain.Root?
        && (coro.at == AtStart || (coro.at == AtEnd && Left(record) == Trace([], Finished, 0)))
    }

    ghost predicate Unstarted(body: Body)
      reads this, Frames(record.chain), Awaiters(record.chain), record.heap.frames
    {
      && coro != null && Valid()
      && coro.at == AtStart && coro.code == body
      && record == Start(coro)
    }

    // Calling a generator coroutine: the frame exists, suspended at its start.
    constructor (body: Body)
      ensures Unstarted(body) && fresh(coro) && fresh(record.heap.frames) && Left(record) == Flatten(body)
    {
      var root := new Frame(body);
      coro := root;
      record := Start(root);
    }

    // begin(): runs to the first value. Only if that does not throw does the iterator take the
    // coroutine over.
    method Begin() returns (r: Reply<Iterator>)
      requires Valid() && (coro != null ==> coro.at == AtStart)
      modifies this, record.heap.frames, record.heap.awaiters
      ensures Valid()
      ensures old(coro) == null ==> r == LogicError && coro == null && record == old(record)
      ensures old(coro) != null ==> !r.LogicError?
      ensures r.Done? ==>
        var it := r.value;
        && fresh(it) && coro == null
        && it.Valid() && it.coro == old(coro) && it.record == record
        && Delivered(old(Left(record)), Done(()), it.AtEnd(), it.coming)
        && old(Left(record)).nested + old(record).pushes == it.coming.nested + record.pushes
      ensures r.Thrown? ==>
        && coro == old(coro) && coro.at == AtEnd
        && Delivered(old(Left(record)), Thrown(r.error), true, Nothing)
        && old(Left(record)).nested + old(record).pushes == record.pushes
      ensures old(coro) != null ==> record.resumes == old(record).resumes + 1
      ensures Grown(old(record), record)
      ensures fresh(record.heap.frames - old(record.heap.frames))
      ensures fresh(record.heap.awaiters - old(record.heap.awaiters))
    {
      if coro == null {
        return LogicError;
      }
      hide Meaning, Frames, Awaiters, RootOf, Depth, Sound;
      var reply;
      ghost var coming;
      reply, record, coming := Proceed(coro, record);
      if reply.Thrown? {
        return Thrown(reply.error);
      }
      var it := new Iterator(coro, record, coming);
      coro := null;
      return Done(it);
    }

    // The move constructor and move assignment. A generator that owns a coroutine must not be
    // assigned to itself: it would keep the coroutine it has just destroyed.
    method TakeFrom(other: Generator)
      requires Valid() && other.Valid()
      requires this != other && coro != null && other.coro != null ==>
        record.heap.frames !! other.record.heap.frames && record.heap.awaiters !! other.record.heap.awaiters
      modifies this, other`coro, record.heap.frames
      ensures coro == old(other.coro) && record == old(other.record)
      ensures this != other ==> other.coro == null && Valid() && other.Valid()
      ensures this == other ==> (Valid() <==> old(coro) == null)
      ensures old(coro) != null ==> forall f | f in old(record.heap.frames) :: !f.alive
    {
      if coro != null {
        Release(coro, record);
      }
      var taken := other.coro;
      record := other.record;
      other.coro := null;
      coro := taken;
    }

    method Destroy()
      requires Valid()
      modifies this`coro, record.heap.frames
      ensures Valid() && coro == null
      ensures old(coro) != null ==> forall f | f in record.heap.frames :: !f.alive
    {
      if coro != null {
        Release(coro, record);
        coro := null;
      }
    }
  }

  // The loop of a range-based for over a started iterator.
  method ReadAll(it: Iterator) returns (values: seq<Value>, ended: Outcome)
    requires it.Valid() && it.coro != null
    modifies it`record, it`coming, it.record.heap.frames, it.record.heap.awaiters
    ensures it.Valid() && it.coro == old(it.coro) && it.AtEnd()
    ensures values == old(it.coming).values && ended == old(it.coming).outcome
    ensures it.record.resumes == old(it.record).resumes + |values|
    ensures it.record.pushes == old(it.coming).nested + old(it.record).pushes
    ensures fresh(it.record.heap.frames - old(it.record.heap.frames))
    ensures fresh(it.record.heap.awaiters - old(it.record.heap.awaiters))
  {
    hide Meaning, Hangs, Frames, Awaiters, RootOf, Depth, Sound, Tracks, Left;
    ghost var all := it.coming.values;
    values, ended := [], Finished;
    while !it.AtEnd()
      invariant it.Valid() && it.coro == old(it.coro)
      invariant |values| <= |all| && values == all[..|values|] && it.coming.values == all[|values|..]
      invariant old(it.coming).outcome == if it.AtEnd() then ended else it.coming.outcome
      invariant if it.AtEnd() then it.coming == Nothing else ended == Finished
      invariant it.record.resumes == old(it.record).resumes + |values|
      invariant it.coming.nested + it.record.pushes == old(it.coming).nested + old(it.record).pushes
      invariant Grown(old(it.record), it.record)
      invariant fresh(it.record.heap.frames - old(it.record.heap.frames))
      invariant fresh(it.record.heap.awaiters - old(it.record.heap.awaiters))
      decreases |it.coming.values|
    {
      var read := it.Value();
      values := values + [read.value];
      var moved := it.Next();
      if moved.Thrown? {
        ended := Raised(moved.error);
      }
    }
  }

  // A whole range-based for loop over a generator: what is read, how it ends, what it costs in
  // control transfers, and that no frame outlives it.
  method ForEach(body: Body) returns (values: seq<Value>, ended: Outcome, ghost record: Record)
    ensures values == Flatten(body).values && ended == Flatten(body).outcome
    ensures record.resumes == |values| + 1
    ensures record.pushes == record.pops == Flatten(body).nested
    ensures forall f | f in record.heap.frames :: fresh(f) && !f.alive
  {
    hide Meaning, Flatten, Frames, Awaiters, RootOf, Sound;
    var g := new Generator(body);
    var begun := g.Begin();
    if begun.Thrown? {
      values, ended, record := [], Raised(begun.error), g.record;
      g.Destroy();
    } else {
      var it := begun.value;
      values, ended := ReadAll(it);
      record := it.record;
      it.Destroy();
    }
  }

  // An exception that nobody around it handles, however deep, leaves the loop after the values read.
  method UncaughtLeaves(child: Body, shells: seq<(Body, Catches)>, e: Error)
    returns (values: seq<Value>, ended: Outcome)
    requires Flatten(child).outcome == Raised(e) && forall shell | shell in shells :: Unhandled(shell.1, e)
    ensures values == Flatten(child).values && ended == Raised(e)
  {
    UnhandledEscapes(child, shells, e);
    ghost var record;
    values, ended, record := ForEach(Around(child, shells));
  }
}
