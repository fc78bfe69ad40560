// The slow form of a recursive generator: each generator loops over its nested generator and
// yields every element again. The fast form must read the same; only its cost differs.
module GenSlow {
  import opened GenSemantics

  // A slow generator runs its own code, or stands inside `for (x : inner) co_yield x`.
  datatype Slow = Running(code: Body) | Looping(inner: Slow, rest: Body, catches: Catches)

  datatype Event = Emits(value: Value, next: Slow) | Ends | Fails(error: Error)

  function SlowSize(g: Slow): nat
    ensures SlowSize(g) >= 1
  {
    match g
    case Running(code) => Size(code)
    case Looping(inner, rest, catches) => SlowSize(inner) + Size(rest) + CatchSize(catches)
  }

  // What one resume of `g` leads to, and how many resumes of nested generators it costs.
  function Advance(g: Slow): (r: (Event, nat))
    ensures r.0.Emits? ==> SlowSize(r.0.next) < SlowSize(g)
    decreases SlowSize(g)
  {
    match g
    case Running(Return) => (Ends, 0)
    case Running(Throw(e)) => (Fails(e), 0)
    case Running(Yield(v, rest)) => (Emits(v, Running(rest)), 0)
    case Running(NestMoved(rest)) => Advance(Running(rest))
    case Running(Nest(child, rest, catches)) =>
      assert SlowSize(Running(child)) == Size(child);
      Advance(Looping(Running(child), rest, catches))
    case Looping(inner, rest, catches) =>
      var (event, cost) := Advance(inner);
      match event
      case Emits(v, next) => (Emits(v, Looping(next, rest, catches)), cost + 1)
      case Ends =>
        var (event', cost') := Advance(Running(rest));
        (event', cost + 1 + cost')
      case Fails(e) =>
        CaughtIsSmaller(catches, e);
        var (event', cost') := Advance(Running(Caught(catches, e)));
        (event', cost + 1 + cost')
  }

  // Reading a slow generator to its end: the values, the outcome, and all resumes made.
  function ReadSlowly(g: Slow): (seq<Value>, Outcome, nat)
    decreases SlowSize(g)
  {
    var (event, cost) := Advance(g);
    match event
    case Emits(v, next) =>
      var (values, outcome, resumes) := ReadSlowly(next);
      ([v] + values, outcome, 1 + cost + resumes)
    case Ends => ([], Finished, 1 + cost)
    case Fails(e) => ([], Raised(e), 1 + cost)
  }

  // What a slow generator still means, and the nested resumes it will still cost: every nested
  // generator is resumed once for each of its values and once more to find its end.
  function Means(g: Slow): Trace {
    match g
    case Running(code) => Flatten(code)
    case Looping(inner, rest, catches) => Then(Means(inner), Flatten(After(Means(inner), rest, catches)))
  }

  function After(t: Trace, rest: Body, catches: Catches): Body {
    Resumed(Waits(rest, catches, Bottom), t.outcome)
  }

  function NestedCost(b: Body): nat
    decreases b
  {
    match b
    case Return => 0
    case Throw(_) => 0
    case Yield(_, rest) => NestedCost(rest)
    case NestMoved(rest) => NestedCost(rest)
    case Nest(child, rest, catches) =>
      var t := Flatten(child);
      var after := match t.outcome case Finished => NestedCost(rest) case Raised(e) => CaughtCost(catches, e);
      |t.values| + 1 + NestedCost(child) + after
  }

  function CaughtCost(c: Catches, e: Error): nat
    decreases c
  {
    match c
    case Rethrow => 0
    case CatchAny(handler) => NestedCost(handler)
    case CatchOne(e', handler, others) => if e == e' then NestedCost(handler) else CaughtCost(others, e)
  }

  lemma {:induction false} CaughtCosts(c: Catches, e: Error)
    ensures NestedCost(Caught(c, e)) == CaughtCost(c, e)
  {
    if c.CatchOne? {
      CaughtCosts(c.others, e);
    }
  }

  function CostLeft(g: Slow): nat {
    match g
    case Running(code) => NestedCost(code)
    case Looping(inner, rest, catches) =>
      |Means(inner).values| + 1 + CostLeft(inner) + NestedCost(After(Means(inner), rest, catches))
  }

  // One resume takes the first value off, or ends as meant, and pays its share of the cost.
  predicate Pays(before: Trace, costBefore: nat, event: Event, cost: nat) {
    match event
    case Emits(v, next) =>
      && before.values == [v] + Means(next).values && before.outcome == Means(next).outcome
      && costBefore == cost + CostLeft(next)
    case Ends => before.values == [] && before.outcome == Finished && costBefore == cost
    case Fails(e) => before.values == [] && before.outcome == Raised(e) && costBefore == cost
  }

  lemma {:induction false} AdvancePays(g: Slow)
    ensures Pays(Means(g), CostLeft(g), Advance(g).0, Advance(g).1)
    decreases SlowSize(g)
  {
    match g
    case Running(NestMoved(rest)) =>
      AdvancePays(Running(rest));
    case Running(Nest(child, rest, catches)) =>
      var t := Flatten(child);
      if t.outcome.Raised? {
        CaughtMeans(catches, t.outcome.error);
        CaughtCosts(catches, t.outcome.error);
      }
      assert SlowSize(Running(child)) == Size(child);
      assert Means(Running(child)) == t && CostLeft(Running(child)) == NestedCost(child);
      AdvancePays(Looping(Running(child), rest, catches));
    case Looping(inner, rest, catches) =>
      AdvancePays(inner);
      match Advance(inner).0 {
        case Emits(v, next) =>
          var after := Flatten(After(Means(next), rest, catches)).values;
          assert ([v] + Means(next).values) + after == [v] + (Means(next).values + after);
        case Ends =>
          AdvancePays(Running(rest));
        case Fails(e) =>
          CaughtIsSmaller(catches, e);
          AdvancePays(Running(Caught(catches, e)));
      }
    case Running(_) =>
  }

  lemma {:induction false} ReadingPays(g: Slow)
    ensures var (values, outcome, resumes) := ReadSlowly(g);
      && values == Means(g).values && outcome == Means(g).outcome
      && resumes == |values| + 1 + CostLeft(g)
    decreases SlowSize(g)
  {
    AdvancePays(g);
    if Advance(g).0.Emits? {
      ReadingPays(Advance(g).0.next);
    }
  }

  // The slow form reads the same flattening, and costs one resume more per value for every
  // generator the value passes through.
  lemma SlowFormFlattens(body: Body)
    ensures var (values, outcome, resumes) := ReadSlowly(Running(body));
      && values == Flatten(body).values && outcome == Flatten(body).outcome
      && resumes == |values| + 1 + NestedCost(body)
  {
    ReadingPays(Running(body));
  }

  // It never takes fewer resumes than the fast form takes resumes and entries together.
  lemma {:induction false} NestedCostsMore(b: Body)
    ensures NestedCost(b) >= Flatten(b).nested
    decreases b
  {
    match b
    case Yield(_, rest) => NestedCostsMore(rest);
    case NestMoved(rest) => NestedCostsMore(rest);
    case Nest(child, rest, catches) =>
      NestedCostsMore(child);
      NestedCostsMore(rest);
      CaughtCostsMore(catches, if Flatten(child).outcome.Raised? then Flatten(child).outcome.error else 0);
    case _ =>
  }

  lemma {:induction false} CaughtCostsMore(c: Catches, e: Error)
    ensures CaughtCost(c, e) >= FlattenCaught(c, e).nested
    decreases c
  {
    match c
    case Rethrow =>
    case CatchAny(handler) => NestedCostsMore(handler);
    case CatchOne(_, handler, others) =>
      NestedCostsMore(handler);
      CaughtCostsMore(others, e);
  }

  // `depth` generators around one that yields n values: the slow form needs (depth + 1)(n + 1)
  // resumes, the fast one n + 1 and a push and a pop per generator.
  function Tunnel(depth: nat, xs: seq<Value>): Body {
    if depth == 0 then RangeBody(xs) else Nest(Tunnel(depth - 1, xs), Return, Rethrow)
  }

  lemma {:induction false} TunnelCosts(depth: nat, xs: seq<Value>)
    ensures Flatten(Tunnel(depth, xs)) == Trace(xs, Finished, depth)
    ensures NestedCost(Tunnel(depth, xs)) == depth * (|xs| + 1)
  {
    hide Flatten, NestedCost;
    if depth == 0 {
      RangeFlattens(xs);
      RangeCostsNothing(xs);
    } else {
      var child := Tunnel(depth - 1, xs);
      TunnelCosts(depth - 1, xs);
      ReturnFlattens();
      NestFlattens(child, Return, Rethrow);
      NestPays(child);
      assert (depth - 1) * (|xs| + 1) + (|xs| + 1) == depth * (|xs| + 1);
    }
  }

  lemma NestFlattens(child: Body, rest: Body, catches: Catches)
    requires Flatten(child).outcome == Finished && Flatten(rest) == Trace([], Finished, 0)
    ensures Flatten(Nest(child, rest, catches)) == Entered(Flatten(child))
  {
    ThenNothing(Flatten(child));
  }

  lemma ReturnFlattens()
    ensures Flatten(Return) == Trace([], Finished, 0)
  {
  }

  lemma ThenNothing(t: Trace)
    requires t.outcome == Finished
    ensures Then(t, Trace([], Finished, 0)) == t
  {
    assert t.values + [] == t.values;
  }

  lemma NestPays(child: Body)
    requires Flatten(child).outcome == Finished
    ensures NestedCost(Nest(child, Return, Rethrow)) == |Flatten(child).values| + 1 + NestedCost(child)
  {
  }

  lemma {:induction false} RangeCostsNothing(xs: seq<Value>)
    ensures NestedCost(RangeBody(xs)) == 0
  {
    if xs != [] {
      RangeCostsNothing(xs[1..]);
    }
  }
}
