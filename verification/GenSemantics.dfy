// What a tree of generator bodies means: the sequence a consumer reads and how it ends.
module GenSemantics {
  type Value = int
  type Error = int

  // A generator body as seen from its suspension points. Everything after a point is part of
  // the constructor, so the residual body is also the program counter of a coroutine frame.
  //   NestMoved: elements_of a generator object that no longer owns a coroutine.
  //   Nest:      elements_of a nested generator; `rest` runs when it ends, and `catches` says
  //              what the surrounding try block does with an exception that comes out of it.
  datatype Body =
    | Return
    | Throw(error: Error)
    | Yield(value: Value, rest: Body)
    | NestMoved(rest: Body)
    | Nest(child: Body, rest: Body, catches: Catches)

  datatype Catches =
    | Rethrow
    | CatchAny(handler: Body)
    | CatchOne(error: Error, handler: Body, others: Catches)

  datatype Outcome = Finished | Raised(error: Error)

  // Values in order, how the body ended, and how many nested generators were entered.
  datatype Trace = Trace(values: seq<Value>, outcome: Outcome, nested: nat)

  function Then(first: Trace, second: Trace): Trace {
    Trace(first.values + second.values, second.outcome, first.nested + second.nested)
  }

  function Entered(t: Trace): Trace {
    t.(nested := t.nested + 1)
  }

  function Prepended(v: Value, t: Trace): Trace {
    t.(values := [v] + t.values)
  }

  // The depth-first recursive flattening.
  function Flatten(b: Body): Trace
    decreases b
  {
    match b
    case Return => Trace([], Finished, 0)
    case Throw(e) => Trace([], Raised(e), 0)
    case Yield(v, rest) => Prepended(v, Flatten(rest))
    case NestMoved(rest) => Flatten(rest)
    case Nest(child, rest, catches) =>
      var inner := Flatten(child);
      var after := match inner.outcome
        case Finished => Flatten(rest)
        case Raised(e) => FlattenCaught(catches, e);
      Entered(Then(inner, after))
  }

  function FlattenCaught(c: Catches, e: Error): Trace
    decreases c
  {
    match c
    case Rethrow => Trace([], Raised(e), 0)
    case CatchAny(handler) => Flatten(handler)
    case CatchOne(e', handler, others) => if e == e' then Flatten(handler) else FlattenCaught(others, e)
  }

  function Caught(c: Catches, e: Error): Body {
    match c
    case Rethrow => Throw(e)
    case CatchAny(handler) => handler
    case CatchOne(e', handler, others) => if e == e' then handler else Caught(others, e)
  }

  lemma {:induction false} CaughtMeans(c: Catches, e: Error)
    ensures Flatten(Caught(c, e)) == FlattenCaught(c, e)
  {
    if c.CatchOne? {
      CaughtMeans(c.others, e);
    }
  }

  // The frames below the running one, nearest first: each waits inside a Nest and knows how it
  // will go on.
  datatype Waiting = Bottom | Waits(rest: Body, catches: Catches, below: Waiting)

  // A stack of frames reduced to code: what runs now, and who waits for it.
  datatype Stack = Stack(code: Body, waiting: Waiting)

  // What a waiting frame runs when the generator it nests has ended by `ending`.
  function Resumed(w: Waiting, ending: Outcome): Body
    requires w.Waits?
  {
    match ending
    case Finished => w.rest
    case Raised(e) => Caught(w.catches, e)
  }

  function Unwind(w: Waiting, t: Trace): Trace {
    match w
    case Bottom => t
    case Waits(_, _, below) => Unwind(below, Then(t, Flatten(Resumed(w, t.outcome))))
  }

  // What is still to be read, and the outcome.
  function Meaning(s: Stack): Trace {
    Unwind(s.waiting, Flatten(s.code))
  }

  lemma {:induction false} UnwindPrepended(w: Waiting, v: Value, t: Trace)
    ensures Unwind(w, Prepended(v, t)) == Prepended(v, Unwind(w, t))
  {
    if w.Waits? {
      var after := Flatten(Resumed(w, t.outcome));
      assert Then(Prepended(v, t), after) == Prepended(v, Then(t, after));
      UnwindPrepended(w.below, v, Then(t, after));
    }
  }

  lemma {:induction false} UnwindEntered(w: Waiting, t: Trace)
    ensures Unwind(w, Entered(t)) == Entered(Unwind(w, t))
  {
    if w.Waits? {
      var after := Flatten(Resumed(w, t.outcome));
      assert Then(Entered(t), after) == Entered(Then(t, after));
      UnwindEntered(w.below, Then(t, after));
    }
  }

  // The next thing to happen gives control back to whoever resumed: a value, or the end of the
  // root.
  predicate Stops(s: Stack) {
    s.code.Yield? || ((s.code.Return? || s.code.Throw?) && s.waiting.Bottom?)
  }

  // One transfer of control inside the stack.
  function Step(s: Stack): Stack
    requires !Stops(s)
  {
    match s.code
    case NestMoved(rest) => Stack(rest, s.waiting)
    case Nest(child, rest, catches) => Stack(child, Waits(rest, catches, s.waiting))
    case Return => Stack(Resumed(s.waiting, Finished), s.waiting.below)
    case Throw(e) => Stack(Resumed(s.waiting, Raised(e)), s.waiting.below)
  }

  // A transfer keeps everything that is still to be read, and the outcome; entering a generator
  // is counted.
  lemma StepKeeps(s: Stack)
    requires !Stops(s)
    ensures Meaning(s) == if s.code.Nest? then Entered(Meaning(Step(s))) else Meaning(Step(s))
  {
    var next := Step(s);
    if s.code.Nest? {
      var inner := Flatten(s.code.child);
      if inner.outcome.Raised? {
        CaughtMeans(s.code.catches, inner.outcome.error);
      }
      UnwindEntered(s.waiting, Then(inner, Flatten(Resumed(next.waiting, inner.outcome))));
    } else if !s.code.NestMoved? {
      assert Flatten(s.code).values + Flatten(next.code).values == Flatten(next.code).values;
    }
  }

  // A yield takes exactly the first value off what is to be read.
  lemma YieldEmits(v: Value, rest: Body, w: Waiting)
    ensures Meaning(Stack(Yield(v, rest), w)) == Prepended(v, Meaning(Stack(rest, w)))
  {
    UnwindPrepended(w, v, Flatten(rest));
  }

  // A measure that every transfer lowers: a waiting frame no longer counts the child it entered.
  function Fuel(s: Stack): nat {
    Size(s.code) + WaitingSize(s.waiting)
  }

  function WaitingSize(w: Waiting): nat {
    match w
    case Bottom => 0
    case Waits(rest, catches, below) => Size(rest) + CatchSize(catches) + WaitingSize(below)
  }

  function Size(b: Body): nat
    ensures Size(b) >= 1
  {
    match b
    case Return => 1
    case Throw(_) => 1
    case Yield(_, rest) => 1 + Size(rest)
    case NestMoved(rest) => 1 + Size(rest)
    case Nest(child, rest, catches) => 1 + Size(child) + Size(rest) + CatchSize(catches)
  }

  function CatchSize(c: Catches): nat
    ensures CatchSize(c) >= 1
  {
    match c
    case Rethrow => 1
    case CatchAny(handler) => Size(handler)
    case CatchOne(_, handler, others) => Size(handler) + CatchSize(others)
  }

  lemma {:induction false} CaughtIsSmaller(c: Catches, e: Error)
    ensures Size(Caught(c, e)) <= CatchSize(c)
  {
    if c.CatchOne? {
      CaughtIsSmaller(c.others, e);
    }
  }

  lemma StepUsesFuel(s: Stack)
    requires !Stops(s)
    ensures Fuel(Step(s)) < Fuel(s)
  {
    if s.code.Throw? {
      CaughtIsSmaller(s.waiting.catches, s.code.error);
    }
  }

  // elements_of an input range is a nested generator that yields the range's elements.
  function RangeBody(xs: seq<Value>): Body {
    if xs == [] then Return else Yield(xs[0], RangeBody(xs[1..]))
  }

  lemma {:induction false} RangeFlattens(xs: seq<Value>)
    ensures Flatten(RangeBody(xs)) == Trace(xs, Finished, 0)
  {
    if xs != [] {
      RangeFlattens(xs[1..]);
      assert xs == [xs[0]] + xs[1..];
    }
  }

  lemma RangeYieldsItsElements(xs: seq<Value>, rest: Body, catches: Catches)
    ensures Flatten(Nest(RangeBody(xs), rest, catches)) == Entered(Then(Trace(xs, Finished, 0), Flatten(rest)))
  {
    RangeFlattens(xs);
  }

  // ---- What the flattening is, case by case ----

  lemma PlainLaws(v: Value, e: Error, rest: Body)
    ensures Flatten(Return) == Trace([], Finished, 0)
    ensures Flatten(Throw(e)) == Trace([], Raised(e), 0)
    ensures Flatten(NestMoved(rest)) == Flatten(rest)
    ensures var t, after := Flatten(Yield(v, rest)), Flatten(rest);
      t.values == [v] + after.values && t.outcome == after.outcome && t.nested == after.nested
  {
  }

  // First the nested generator's values; if it ends normally, then those of the rest.
  lemma NestLaw(child: Body, rest: Body, catches: Catches)
    requires Flatten(child).outcome == Finished
    ensures var t, inner, after := Flatten(Nest(child, rest, catches)), Flatten(child), Flatten(rest);
      t.values == inner.values + after.values && t.outcome == after.outcome
      && t.nested == 1 + inner.nested + after.nested
  {
  }

  // What a nested generator's exception meets, clause by clause.
  lemma CatchLaws(child: Body, rest: Body, handler: Body, other: Error, others: Catches, e: Error)
    requires Flatten(child).outcome == Raised(e)
    ensures var t, inner := Flatten(Nest(child, rest, Rethrow)), Flatten(child);
      t.values == inner.values && t.outcome == Raised(e) && t.nested == 1 + inner.nested
    ensures var t, inner, after := Flatten(Nest(child, rest, CatchAny(handler))), Flatten(child), Flatten(handler);
      t.values == inner.values + after.values && t.outcome == after.outcome
      && t.nested == 1 + inner.nested + after.nested
    ensures Flatten(Nest(child, rest, CatchOne(other, handler, others))) ==
      Flatten(Nest(child, rest, if e == other then CatchAny(handler) else others))
  {
  }

  // The clauses of a try block in the order in which they are looked at.
  datatype Clause = AnyError(handler: Body) | OneError(error: Error, handler: Body)

  function Clauses(c: Catches): seq<Clause> {
    match c
    case Rethrow => []
    case CatchAny(handler) => [AnyError(handler)]
    case CatchOne(e, handler, others) => [OneError(e, handler)] + Clauses(others)
  }

  predicate Fits(c: Clause, e: Error) {
    c.AnyError? || c.error == e
  }

  predicate Unhandled(catches: Catches, e: Error) {
    forall k | 0 <= k < |Clauses(catches)| :: !Fits(Clauses(catches)[k], e)
  }

  // An exception that no clause fits leaves the surrounding generator, too: after the same values,
  // and without its rest.
  lemma {:induction false} UnhandledSurvives(child: Body, rest: Body, catches: Catches, e: Error)
    requires Flatten(child).outcome == Raised(e) && Unhandled(catches, e)
    ensures var t, inner := Flatten(Nest(child, rest, catches)), Flatten(child);
      t.values == inner.values && t.outcome == Raised(e) && t.nested == 1 + inner.nested
    decreases catches
  {
    assert Clauses(catches) != [] ==> !Fits(Clauses(catches)[0], e);
    match catches
    case Rethrow =>
      CatchLaws(child, rest, Return, e, Rethrow, e);
    case CatchAny(handler) =>
    case CatchOne(other, handler, others) =>
      forall k | 0 <= k < |Clauses(others)|
        ensures !Fits(Clauses(others)[k], e)
      {
        assert Clauses(catches)[k + 1] == Clauses(others)[k];
      }
      UnhandledSurvives(child, rest, others, e);
      CatchLaws(child, rest, handler, other, others, e);
  }

  // The first clause that fits handles it: its handler takes the place of the rest.
  lemma {:induction false} FirstFitHandles(child: Body, rest: Body, catches: Catches, e: Error, k: nat)
    requires Flatten(child).outcome == Raised(e)
    requires k < |Clauses(catches)| && Fits(Clauses(catches)[k], e)
    requires forall j | 0 <= j < k :: !Fits(Clauses(catches)[j], e)
    ensures var t, inner := Flatten(Nest(child, rest, catches)), Flatten(child);
      var after := Flatten(Clauses(catches)[k].handler);
      t.values == inner.values + after.values && t.outcome == after.outcome
      && t.nested == 1 + inner.nested + after.nested
    decreases catches
  {
    match catches
    case CatchAny(handler) =>
      CatchLaws(child, rest, handler, e, Rethrow, e);
    case CatchOne(other, handler, others) =>
      CatchLaws(child, rest, handler, other, others, e);
      if k > 0 {
        assert !Fits(Clauses(catches)[0], e);
        forall j | 0 <= j < k - 1
          ensures !Fits(Clauses(others)[j], e)
        {
          assert Clauses(catches)[j + 1] == Clauses(others)[j];
        }
        FirstFitHandles(child, rest, others, e, k - 1);
      }
  }

  // Generators nested around one another: what each goes on with, and what it catches.
  function Around(child: Body, shells: seq<(Body, Catches)>): Body {
    if shells == [] then child else Nest(Around(child, shells[1..]), shells[0].0, shells[0].1)
  }

  lemma {:induction false} UnhandledEscapes(child: Body, shells: seq<(Body, Catches)>, e: Error)
    requires Flatten(child).outcome == Raised(e) && forall shell | shell in shells :: Unhandled(shell.1, e)
    ensures var t, inner := Flatten(Around(child, shells)), Flatten(child);
      t.values == inner.values && t.outcome == Raised(e) && t.nested == inner.nested + |shells|
  {
    if shells != [] {
      UnhandledEscapes(child, shells[1..], e);
      UnhandledSurvives(Around(child, shells[1..]), shells[0].0, shells[0].1, e);
    }
  }
}
