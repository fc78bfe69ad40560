// The recursive generator as it runs: coroutine frames on the heap, linked by pointers.
module GenMachine {
  import opened GenSemantics
  import opened Wrappers

  // Where a coroutine frame is suspended, if it is not running.
  datatype Place = AtStart | Running | AtYield | InNested | AtEnd

  // How resuming the top frame comes back to the iterator.
  datatype Signal = Rested | Escaped(error: Error)

  // The awaiter of `co_yield elements_of(g)`. It lives in the frame of the parent coroutine,
  // owns the nested generator, and carries the links the child frame reaches through `info`.
  class NestedAwaiter {
    var exception: Option<Error>
    var parent: Frame?
    var root: Frame?
    const child: Frame

    constructor (child: Frame)
      ensures this.child == child && exception == None && parent == null && root == null
    {
      this.child := child;
      exception, parent, root := None, null, null;
    }

    // Link the child below the current frame, make it the root's top, and transfer to it.
    method AwaitSuspend(current: Frame) returns (target: Frame)
      requires current.HasRoot() && current.info != this
      modifies this`parent, this`root, child`info, current.Root()`top
      ensures target == child && child.info == this && parent == current
      ensures root == old(current.Root())
      ensures root.top == child
    {
      target := child;
      parent := current;
      if current.info != null {
        root := current.info.root;
      } else {
        root := parent;
      }
      root.top := target;
      target.info := this;
    }

    // What the parent sees when it is resumed: the child's exception, if there was one.
    method AwaitResume() returns (rethrown: Option<Error>)
      modifies this`exception
      ensures rethrown == old(exception) && exception == None
    {
      rethrown := exception;
      exception := None;
    }
  }

  // A coroutine frame with its promise.
  class Frame {
    var code: Body             // what is left to run; while a nested generator runs, its Nest
    var at: Place
    var alive: bool            // false once the frame has been destroyed
    var awaiter: NestedAwaiter?  // the awaiter held in this frame while it waits
    // promise
    var value: Option<Value>
    var top: Frame
    var info: NestedAwaiter?

    constructor (body: Body)
      ensures code == body && at == AtStart && alive
      ensures awaiter == null && value == None && top == this && info == null
    {
      code, at, alive := body, AtStart, true;
      awaiter, value, info := null, None, null;
      top := this;
    }

    ghost predicate HasRoot()
      reads this, info
    {
      info != null ==> info.root != null
    }

    ghost function Root(): Frame
      requires HasRoot()
      reads this, info
    {
      if info == null then this else info.root
    }

    // The next thing this frame does gives control back to whoever resumed: it yields a value,
    // or it ends with no generator around it.
    predicate Rests()
      reads this
    {
      code.Yield? || ((code.Return? || code.Throw?) && info == null)
    }

    // Returns true when the exception leaves `resume`: nobody is nested around this frame.
    method UnhandledException(e: Error) returns (escapes: bool)
      modifies info
      ensures escapes == (info == null)
      ensures info != null ==>
        info.exception == Some(e) && info.parent == old(info.parent) && info.root == old(info.root)
    {
      if info != null {
        info.exception := Some(e);
        escapes := false;
      } else {
        escapes := true;
      }
    }

    // The final awaiter: null stands for the no-op coroutine, which returns to the resumer.
    method FinalSuspend() returns (next: Frame?)
      requires HasRoot() && (info != null ==> info.parent != null)
      modifies this`info, this`at, Root()`top
      ensures at == AtEnd && info == null
      ensures old(info) == null ==> next == null && top == old(top)
      ensures old(info) != null ==> next == old(info.parent) && old(info.root).top == next
    {
      at := AtEnd;
      if info == null {
        return null;
      }
      var previous := info.parent;
      info.root.top := previous;
      info := null;
      return previous;
    }
  }

  // The frames of one iteration, top first: under a nested frame stand the awaiter that owns
  // it, in the parent's frame, and what the parent will go on with.
  datatype Chain =
    | Root(frame: Frame)
    | Over(frame: Frame, awaiter: NestedAwaiter, rest: Body, catches: Catches, below: Chain)

  ghost function Frames(c: Chain): set<Frame> {
    match c
    case Root(f) => {f}
    case Over(f, _, _, _, below) => {f} + Frames(below)
  }

  ghost function Awaiters(c: Chain): set<NestedAwaiter> {
    match c
    case Root(_) => {}
    case Over(_, a, _, _, below) => {a} + Awaiters(below)
  }

  ghost function RootOf(c: Chain): Frame {
    match c
    case Root(f) => f
    case Over(_, _, _, _, below) => RootOf(below)
  }

  ghost function WaitingOf(c: Chain): Waiting {
    match c
    case Root(_) => Bottom
    case Over(_, _, rest, catches, below) => Waits(rest, catches, WaitingOf(below))
  }

  // Every frame under the top waits for exactly the frame above it: it holds the awaiter that
  // owns that frame, and the awaiter leads back to it and to the root.
  ghost predicate Hangs(c: Chain, root: Frame)
    reads Frames(c)`alive, Frames(c)`at, Frames(c)`code, Frames(c)`awaiter, Frames(c)`info, Awaiters(c)
  {
    match c
    case Root(f) => f.info == null && f == root
    case Over(f, a, rest, catches, below) =>
      var p := below.frame;
      && f !in Frames(below) && a !in Awaiters(below)
      && p.alive && p.at == InNested && p.awaiter == a
      && p.code.Nest? && p.code.rest == rest && p.code.catches == catches
      && a.child == f && a.parent == p && a.root == root && a.exception == None
      && f.info == a
      && Hangs(below, root)
  }

  // All that was ever created for one iteration.
  datatype Heap = Heap(frames: set<Frame>, awaiters: set<NestedAwaiter>)

  ghost predicate Within(c: Chain, h: Heap) {
    Frames(c) <= h.frames && Awaiters(c) <= h.awaiters
  }

  // A linked chain whose top is about to run or rests.
  ghost predicate Linked(c: Chain, h: Heap)
    reads Frames(c), Awaiters(c)
  {
    && Within(c, h)
    && Hangs(c, RootOf(c))
    && c.frame.alive && c.frame.awaiter == null
    && RootOf(c) in Frames(c) && RootOf(c).top == c.frame
  }

  ghost function StackOf(c: Chain): Stack
    reads c.frame
  {
    Stack(c.frame.code, WaitingOf(c))
  }

  ghost function Depth(c: Chain): nat {
    match c
    case Root(_) => 0
    case Over(_, _, _, _, below) => 1 + Depth(below)
  }

  lemma RootIsAFrame(c: Chain)
    ensures RootOf(c) in Frames(c) && c.frame in Frames(c)
  {
  }

  // The frames that exist are exactly those of the chain.
  ghost predicate Sound(c: Chain, h: Heap)
    reads Frames(c), Awaiters(c), h.frames
  {
    && Linked(c, h)
    && forall f | f in h.frames && f.alive :: f in Frames(c)
  }

  lemma {:induction false} RootWaits(c: Chain, root: Frame)
    requires c.Over? && Hangs(c, root)
    ensures root in Frames(c.below) && root.at == InNested
  {
    if c.below.Over? {
      RootWaits(c.below, root);
    }
  }

  // The frames from the top down to the root.
  ghost function PathOf(c: Chain): seq<Frame> {
    match c
    case Root(f) => [f]
    case Over(f, _, _, _, below) => [f] + PathOf(below)
  }

  // From each frame of the path, `info->parent` leads to the next one, which waits in the awaiter
  // that owns it; no frame comes twice, everyone knows the root, and the path ends there.
  ghost predicate FollowsParents(path: seq<Frame>, root: Frame)
    reads path, set f | f in path && f.info != null :: f.info
  {
    if |path| <= 1 then
      |path| == 1 && path[0].info == null && path[0] == root
    else
      var f, parent, rest := path[0], path[1], path[1..];
      && f !in rest
      && f.info != null && f.info.parent == parent && f.info.root == root
      && parent.at == InNested && parent.awaiter == f.info && f.info.child == f
      && FollowsParents(rest, root)
  }

  lemma {:induction false} PathFollowsParents(c: Chain, root: Frame)
    requires Hangs(c, root)
    ensures FollowsParents(PathOf(c), root) && PathOf(c)[0] == c.frame
    ensures forall f :: f in PathOf(c) <==> f in Frames(c)
  {
    if c.Over? {
      PathFollowsParents(c.below, root);
      assert PathOf(c)[1..] == PathOf(c.below);
    }
  }

  // `co_yield elements_of` of a live generator: create the child, link it, transfer to it.
  method Enter(current: Frame, ghost c: Chain, ghost h: Heap)
    returns (target: Frame, ghost c': Chain, ghost h': Heap)
    requires Sound(c, h) && current == c.frame && current.code.Nest?
    modifies current, RootOf(c)
    ensures fresh(h'.frames - h.frames) && fresh(h'.awaiters - h.awaiters)
    ensures h.frames <= h'.frames && h.awaiters <= h'.awaiters
    ensures Sound(c', h') && RootOf(c') == RootOf(c) && target == c'.frame
    ensures c'.Over? && c'.below == c
    ensures StackOf(c') == Step(old(StackOf(c)))
  {
    var child := new Frame(current.code.child);
    var awaiter := new NestedAwaiter(child);
    target, c', h' := Attach(current, awaiter, c, h);
  }

  method Attach(current: Frame, awaiter: NestedAwaiter, ghost c: Chain, ghost h: Heap)
    returns (target: Frame, ghost c': Chain, ghost h': Heap)
    requires Linked(c, h) && current == c.frame && current.code.Nest?
    requires awaiter !in Awaiters(c) && awaiter.child !in Frames(c) && awaiter.exception == None
    requires awaiter.child.alive && awaiter.child.awaiter == null && awaiter.child.code == current.code.child
    modifies current`awaiter, current`at, awaiter, awaiter.child`info, RootOf(c)`top
    ensures c' == Over(awaiter.child, awaiter, current.code.rest, current.code.catches, c)
    ensures h' == Heap(h.frames + {target}, h.awaiters + {awaiter})
    ensures Linked(c', h') && target == c'.frame
  {
    current.awaiter := awaiter;
    current.at := InNested;
    target := awaiter.AwaitSuspend(current);
    c' := Over(target, awaiter, current.code.rest, current.code.catches, c);
    h' := Heap(h.frames + {target}, h.awaiters + {awaiter});
    assert Hangs(c, RootOf(c));
  }

  // The nested generator on top has handed control back, but its parent still owns it.
  ghost predicate Detached(c: Chain, h: Heap, left: Option<Error>)
    reads Frames(c), Awaiters(c)
  {
    && Within(c, h)
    && c.Over? && c.frame !in Frames(c.below) && c.awaiter !in Awaiters(c.below)
    && c.frame.alive && c.frame.awaiter == null
    && Hangs(c.below, RootOf(c))
    && c.below.frame.alive && c.below.frame.awaiter == c.awaiter && c.awaiter.child == c.frame
    && c.awaiter.exception == left
    && RootOf(c) in Frames(c.below) && RootOf(c).top == c.below.frame
  }

  function Ending(last: Body): Option<Error> {
    if last.Throw? then Some(last.error) else None
  }

  // The nested generator on top is at its end, or throws: final suspension makes its parent the
  // root's top and transfers to it. An exception waits in the parent's awaiter.
  method Leave(current: Frame, ghost c: Chain, ghost h: Heap) returns (previous: Frame)
    requires Linked(c, h) && current == c.frame && c.Over?
    requires current.code.Return? || current.code.Throw?
    modifies current`info, current`at, c.awaiter, RootOf(c)`top
    ensures previous == c.below.frame && Detached(c, h, Ending(current.code))
  {
    if current.code.Throw? {
      var escapes := current.UnhandledException(current.code.error);
      assert !escapes;
    }
    assert RootOf(c) in Frames(c.below) by { RootIsAFrame(c.below); }
    previous := current.FinalSuspend();
  }

  // Destroying a coroutine destroys what its frame holds: the awaiter, and so the generator the
  // awaiter owns. `Holds` lists the frames from the handle upwards, none destroyed before.
  datatype Tower = Bare(frame: Frame) | Holding(frame: Frame, above: Tower)

  ghost function TowerFrames(t: Tower): set<Frame> {
    match t
    case Bare(f) => {f}
    case Holding(f, above) => {f} + TowerFrames(above)
  }

  ghost predicate Holds(t: Tower)
    reads TowerFrames(t)`alive, TowerFrames(t)`awaiter
  {
    && t.frame.alive
    && match t
      case Bare(f) => f.awaiter == null
      case Holding(f, above) =>
        f !in TowerFrames(above) && f.awaiter != null && f.awaiter.child == above.frame && Holds(above)
  }

  method Destroy(handle: Frame, ghost t: Tower)
    requires Holds(t) && handle == t.frame
    modifies TowerFrames(t)`alive, TowerFrames(t)`awaiter
    ensures forall f | f in TowerFrames(t) :: !f.alive && f.awaiter == null
    decreases t
  {
    if handle.awaiter != null {
      Destroy(handle.awaiter.child, t.above);
      handle.awaiter := null;
    }
    handle.alive := false;
  }

  // The tower of a chain, from the root up to the frames of `t` on top of it.
  ghost function TowerOf(c: Chain, t: Tower): Tower {
    match c
    case Root(_) => t
    case Over(_, _, _, _, below) => TowerOf(below, Holding(below.frame, t))
  }

  lemma {:induction false} ChainHolds(c: Chain, root: Frame, t: Tower)
    requires Hangs(c, root) && Holds(t) && t.frame == c.frame
    requires TowerFrames(t) * Frames(c) == {c.frame}
    ensures Holds(TowerOf(c, t)) && TowerOf(c, t).frame == root
    ensures TowerFrames(TowerOf(c, t)) == Frames(c) + TowerFrames(t)
  {
    if c.Over? {
      var t' := Holding(c.below.frame, t);
      RootIsAFrame(c.below);
      assert TowerFrames(t') * Frames(c.below) == {c.below.frame};
      ChainHolds(c.below, root, t');
    }
  }

  // The parent's awaiter hands out what its child left behind; then the co_yield expression is
  // over, and the awaiter goes with the generator it owns.
  method Rejoin(current: Frame, ghost c: Chain, ghost h: Heap, ghost left: Option<Error>)
    returns (rethrown: Option<Error>)
    requires Detached(c, h, left) && current == c.below.frame
    modifies current`awaiter, c.frame, c.awaiter
    ensures rethrown == left
    ensures !c.frame.alive && Linked(c.below, h)
  {
    rethrown := current.awaiter.AwaitResume();
    Destroy(current.awaiter.child, Bare(c.frame));
    current.awaiter := null;
    RootIsAFrame(c.below);
  }

  method GoBack(current: Frame, ghost c: Chain, ghost h: Heap) returns (previous: Frame, ghost c': Chain)
    requires Sound(c, h) && current == c.frame && (current.code.Return? || current.code.Throw?)
    requires current.info != null
    modifies Frames(c), Awaiters(c)
    ensures c.Over? && c' == c.below && Sound(c', h)
    ensures RootOf(c') == RootOf(c) && previous == c'.frame
    ensures StackOf(c') == Step(old(StackOf(c)))
  {
    var left := Ending(current.code);
    previous := Leave(current, c, h);
    var rethrown := Rejoin(previous, c, h, left);
    c' := c.below;
    previous.code := match rethrown
      case None => previous.code.rest
      case Some(e) => Caught(previous.code.catches, e);
    previous.at := Running;
  }

  // One transfer of control from the current frame: the heap takes exactly the pure machine's step.
  method Transfer(current: Frame, ghost c: Chain, ghost h: Heap)
    returns (next: Frame, ghost c': Chain, ghost h': Heap)
    requires Sound(c, h) && current == c.frame && !Stops(StackOf(c))
    modifies h.frames, h.awaiters
    ensures fresh(h'.frames - h.frames) && fresh(h'.awaiters - h.awaiters)
    ensures h.frames <= h'.frames && h.awaiters <= h'.awaiters
    ensures Sound(c', h') && RootOf(c') == RootOf(c) && next == c'.frame
    ensures StackOf(c') == Step(old(StackOf(c)))
    ensures Depth(c') ==
      Depth(c) + (if old(current.code.Nest?) then 1 else if old(current.code.NestMoved?) then 0 else -1)
  {
    c', h' := c, h;
    next := current;
    if current.code.NestMoved? {
      current.code := current.code.rest;
    } else if current.code.Nest? {
      next, c', h' := Enter(current, c, h);
    } else {
      next, c' := GoBack(current, c, h);
    }
  }

  // What one resumption must do with what is left: deliver the first value, or end.
  ghost predicate Advanced(before: Trace, after: Trace, signal: Signal, top: Frame, root: Frame)
    reads top, root
  {
    if before.values != [] then
      && signal == Rested
      && top.at == AtYield && top.value == Some(before.values[0])
      && after.values == before.values[1..] && after.outcome == before.outcome
    else
      && signal == (match before.outcome case Finished => Rested case Raised(e) => Escaped(e))
      && top == root && root.at == AtEnd
      && after == Trace([], Finished, 0)
  }

  method Emit(current: Frame, ghost c: Chain, ghost h: Heap)
    requires Sound(c, h) && current == c.frame && current.code.Yield?
    modifies current`value, current`code, current`at
    ensures Sound(c, h)
    ensures Advanced(old(Meaning(StackOf(c))), Meaning(StackOf(c)), Rested, c.frame, RootOf(c))
    ensures Meaning(StackOf(c)).nested == old(Meaning(StackOf(c)).nested)
  {
    hide Meaning, Frames, Awaiters;
    YieldEmits(current.code.value, current.code.rest, WaitingOf(c));
    current.value := Some(current.code.value);
    current.code := current.code.rest;
    current.at := AtYield;
  }

  // Final suspension of the root returns to the resumer, and an exception nobody is nested
  // around leaves `resume`.
  method Finish(current: Frame, ghost c: Chain, ghost h: Heap) returns (signal: Signal)
    requires Sound(c, h) && current == c.frame && c.Root? && (current.code.Return? || current.code.Throw?)
    modifies current
    ensures Sound(c, h)
    ensures Advanced(old(Meaning(StackOf(c))), Meaning(StackOf(c)), signal, c.frame, RootOf(c))
    ensures Meaning(StackOf(c)).nested == old(Meaning(StackOf(c)).nested)
  {
    signal := Rested;
    if current.code.Throw? {
      var escapes := current.UnhandledException(current.code.error);
      if escapes {
        signal := Escaped(current.code.error);
      }
    }
    var next := current.FinalSuspend();
    current.code := Return;
  }

  // Deliver a value, or end.
  method Stop(current: Frame, ghost c: Chain, ghost h: Heap) returns (signal: Signal)
    requires Sound(c, h) && current == c.frame && current.Rests()
    modifies current
    ensures Sound(c, h)
    ensures Advanced(old(Meaning(StackOf(c))), Meaning(StackOf(c)), signal, c.frame, RootOf(c))
    ensures Meaning(StackOf(c)).nested == old(Meaning(StackOf(c)).nested)
  {
    if current.code.Yield? {
      Emit(current, c, h);
      signal := Rested;
    } else {
      signal := Finish(current, c, h);
    }
  }

  // Resume the top frame and follow control from frame to frame until it comes back.
  method Resume(handle: Frame, ghost c: Chain, ghost h: Heap)
    returns (signal: Signal, ghost c': Chain, ghost h': Heap, ghost pushes: nat, ghost pops: nat)
    requires Sound(c, h) && handle == c.frame
    modifies h.frames, h.awaiters
    ensures fresh(h'.frames - h.frames) && fresh(h'.awaiters - h.awaiters)
    ensures h.frames <= h'.frames && h.awaiters <= h'.awaiters
    ensures Sound(c', h') && RootOf(c') == RootOf(c)
    ensures Advanced(old(Meaning(StackOf(c))), Meaning(StackOf(c')), signal, c'.frame, RootOf(c'))
    ensures old(Meaning(StackOf(c)).nested) == Meaning(StackOf(c')).nested + pushes
    ensures Depth(c') + pops == Depth(c) + pushes
  {
    hide Meaning, Fuel;
    var current := handle;
    c', h', pushes, pops := c, h, 0, 0;
    ghost var start := Meaning(StackOf(c));
    ghost var stack := StackOf(c);
    while !current.Rests()
      invariant fresh(h'.frames - h.frames) && fresh(h'.awaiters - h.awaiters)
      invariant h.frames <= h'.frames && h.awaiters <= h'.awaiters
      invariant Sound(c', h') && RootOf(c') == RootOf(c) && current == c'.frame
      invariant stack == StackOf(c') && (Stops(stack) <==> current.Rests())
      invariant Meaning(stack).values == start.values && Meaning(stack).outcome == start.outcome
      invariant Meaning(stack).nested + pushes == start.nested
      invariant Depth(c') + pops == Depth(c) + pushes
      decreases Fuel(stack)
    {
      StepKeeps(stack);
      StepUsesFuel(stack);
      pushes := pushes + if stack.code.Nest? then 1 else 0;
      pops := pops + if stack.code.Return? || stack.code.Throw? then 1 else 0;
      current, c', h' := Transfer(current, c', h');
      stack := StackOf(c');
    }
    signal := Stop(current, c', h');
  }
}
