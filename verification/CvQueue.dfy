// The queue between pushers and one consumer.
module CvQueue {
  import opened Wrappers

  class Queue<T> {
    var items: seq<T>
    var stop: bool
    ghost var pushed: seq<T>  // history: everything ever appended
    ghost var taken: seq<T>   // history: everything ever handed out, in order

    // First in, first out, and nothing lost: what was handed out, then what is there.
    ghost predicate Valid()
      reads this
    {
      pushed == taken + items
    }

    constructor ()
      ensures Valid() && items == [] && !stop && pushed == []
    {
      items, stop, pushed, taken := [], false, [], [];
    }

    // True for the call that stops the queue.
    method Shutdown() returns (first: bool)
      modifies this`stop
      ensures stop && first == !old(stop)
    {
      first := !stop;
      stop := true;
    }

    method Size() returns (n: nat)
      ensures n == |items|
    {
      n := |items|;
    }

    // The two parts of push: the test of stop, and the append under the lock. A stop in between
    // does not undo the test.
    method MayPush() returns (ok: bool)
      ensures ok == !stop
    {
      ok := !stop;
    }

    method Append(t: T)
      requires Valid()
      modifies this`items, this`pushed
      ensures Valid() && items == old(items) + [t] && pushed == old(pushed) + [t]
    {
      items := items + [t];
      pushed := pushed + [t];
    }

    // What the waits of pop and pop_all let through.
    predicate Ready()
      reads this
    {
      items != [] || stop
    }

    // None stands for the exception of a stopped queue: even if there are items left.
    method Pop() returns (front: Option<T>)
      requires Valid() && Ready()
      modifies this`items, this`taken
      ensures Valid() && pushed == old(pushed)
      ensures stop ==> front == None && items == old(items)
      ensures !stop ==> old(items) != [] && front == Some(old(items)[0]) && items == old(items)[1..]
    {
      if items == [] || stop {
        return None;
      }
      front := Some(items[0]);
      taken := taken + [items[0]];
      items := items[1..];
    }

    // Gives up if the lock is held, here an input.
    method TryPop(locked: bool) returns (front: Option<T>)
      requires Valid()
      modifies this`items, this`taken
      ensures Valid() && pushed == old(pushed)
      ensures locked || old(items) == [] ==> front == None && items == old(items)
      ensures !locked && old(items) != [] ==> front == Some(old(items)[0]) && items == old(items)[1..]
    {
      if locked || items == [] {
        return None;
      }
      front := Some(items[0]);
      taken := taken + [items[0]];
      items := items[1..];
    }

    method PopAll() returns (all: seq<T>)
      requires Valid() && Ready()
      modifies this`items, this`taken
      ensures Valid() && pushed == old(pushed)
      ensures all == old(items) && items == [] && taken == old(taken) + all
    {
      all := items;
      taken := taken + items;
      items := [];
    }
  }
}
