// The lock of one context and the coroutines that run on it, in any interleaving.
module CtxLock {
  datatype Outcome = Returned(value: int) | Thrown

  // What a coroutine does next, as far as its context can tell. Each access may read and change
  // the context and decides how the coroutine goes on; an await goes on with whatever value the
  // rest of the world sends. A callee on the same context is a task of its own.
  datatype Code<!S> =
    | Done(value: int)
    | Fail
    | Access(step: S -> (S, Code<S>))
    | Await(resume: int -> Code<S>)
    | Drop(inner: Code<S>, after: Outcome -> Code<S>)  // ctx_call, ctx_call_name, sync_call

  datatype Phase = Waiting | Active | Over

  // A guarded task holds the lock from its beginning to its end: a message handler, a locked RPC
  // or an async_call. The others are the RPCs registered with muli, and on_init.
  datatype Task<!S> = Task(
    guarded: bool,
    phase: Phase,
    code: Code<S>,
    calls: seq<Outcome -> Code<S>>,  // the lock-dropping calls it is in, outermost first
    turn: nat)                       // label: how often it has taken the lock

  datatype Touch = Touch(task: nat, turn: nat)

  datatype State<!S> = State(
    locked: bool,
    context: S,
    tasks: seq<Task<S>>,
    log: seq<Touch>)  // history: who accessed the context, in which of its turns

  function Fresh<S>(context: S): State<S> {
    State(false, context, [], [])
  }

  datatype Action<!S> =
    | Spawn(guarded: bool, code: Code<S>)
    | Begin(task: nat)               // a guarded task takes the lock here
    | Use(task: nat)                 // an access to the context
    | Resume(task: nat, value: int)  // an await is over
    | Release(task: nat)             // the unlock at the start of a lock-dropping call
    | Retake(task: nat)              // the lock in its `finally`
    | End(task: nat)                 // the guard's destructor

  predicate Ended<S>(code: Code<S>) {
    code.Done? || code.Fail?
  }

  function OutcomeOf<S>(code: Code<S>): Outcome
    requires Ended(code)
  {
    if code.Done? then Returned(code.value) else Thrown
  }

  predicate Enabled<S>(s: State<S>, a: Action<S>) {
    a.Spawn? || (a.task < |s.tasks| && Ready(s.tasks[a.task], a) && (Takes(s.tasks[a.task], a) ==> !s.locked))
  }

  predicate Ready<S>(t: Task<S>, a: Action<S>) {
    match a
    case Spawn(_, _) => false
    case Begin(_) => t.phase == Waiting
    case Use(_) => t.phase == Active && t.code.Access?
    case Resume(_, _) => t.phase == Active && t.code.Await?
    case Release(_) => t.phase == Active && t.code.Drop?
    case Retake(_) => t.phase == Active && Ended(t.code) && t.calls != []
    case End(_) => t.phase == Active && Ended(t.code) && t.calls == []
  }

  predicate Takes<S>(t: Task<S>, a: Action<S>) {
    a.Retake? || (a.Begin? && t.guarded)
  }

  predicate Frees<S>(t: Task<S>, a: Action<S>) {
    a.Release? || (a.End? && t.guarded)
  }

  function Moved<S>(t: Task<S>, context: S, a: Action<S>): Task<S>
    requires Ready(t, a)
  {
    match a
    case Begin(_) => t.(phase := Active, turn := if t.guarded then t.turn + 1 else t.turn)
    case Use(_) => t.(code := t.code.step(context).1)
    case Resume(_, v) => t.(code := t.code.resume(v))
    case Release(_) => t.(code := t.code.inner, calls := t.calls + [t.code.after])
    case Retake(_) =>
      t.(code := t.calls[|t.calls| - 1](OutcomeOf(t.code)), calls := t.calls[..|t.calls| - 1], turn := t.turn + 1)
    case End(_) => t.(phase := Over)
  }

  // The lock does not know its owner: an unlock frees it, whoever calls.
  // Actions that are not enabled change nothing, so a run is any sequence of actions.
  function Step<S>(s: State<S>, a: Action<S>): State<S> {
    if !Enabled(s, a) then s
    else if a.Spawn? then s.(tasks := s.tasks + [Task(a.guarded, Waiting, a.code, [], 0)])
    else
      var t := s.tasks[a.task];
      var locked := if Takes(t, a) then true else if Frees(t, a) then false else s.locked;
      var rest := s.(locked := locked, tasks := s.tasks[a.task := Moved(t, s.context, a)]);
      if a.Use? then rest.(context := t.code.step(s.context).0, log := s.log + [Touch(a.task, t.turn)]) else rest
  }

  function Run<S>(s: State<S>, actions: seq<Action<S>>): State<S> {
    if actions == [] then s else Step(Run(s, actions[..|actions| - 1]), actions[|actions| - 1])
  }

  // Every task that is not over can go on, whatever the others do, except while it waits for a lock
  // that is taken: a guarded one to begin, or any one to come back from a lock-dropping call. So a
  // muli RPC can always begin.
  lemma OnlyTakingWaits<S(!new)>(s: State<S>, i: nat)
    requires i < |s.tasks| && s.tasks[i].phase != Over
    ensures var t := s.tasks[i];
      (forall a: Action<S> | !a.Spawn? && a.task == i :: !Enabled(s, a)) <==>
      s.locked && if t.phase == Waiting then t.guarded else (t.code.Done? || t.code.Fail?) && t.calls != []
    ensures s.tasks[i].phase == Waiting ==> (Enabled(s, Begin(i)) <==> !s.tasks[i].guarded || !s.locked)
  {
    var t := s.tasks[i];
    if t.phase == Waiting {
      assert Enabled(s, Begin(i)) <==> !t.guarded || !s.locked;
    } else {
      match t.code
      case Access(_) => assert Enabled(s, Use(i));
      case Await(_) => assert Enabled(s, Resume(i, 0));
      case Drop(_, _) => assert Enabled(s, Release(i));
      case _ =>
        assert t.calls == [] ==> Enabled(s, End(i));
        assert t.calls != [] ==> (Enabled(s, Retake(i)) <==> !s.locked);
    }
  }

  // What a step does to the lock, and that it leaves the other tasks alone.
  lemma StepMeans<S>(s: State<S>, a: Action<S>)
    requires Enabled(s, a) && !a.Spawn?
    ensures var t, next := s.tasks[a.task], Step(s, a);
      && (a.Retake? || (a.Begin? && t.guarded) ==> !s.locked && next.locked)
      && (a.Release? || (a.End? && t.guarded) ==> !next.locked)
      && (a.Use? || a.Resume? || (!t.guarded && (a.Begin? || a.End?)) ==> next.locked == s.locked)
      && |next.tasks| == |s.tasks| && (forall i | 0 <= i < |s.tasks| && i != a.task :: next.tasks[i] == s.tasks[i])
      && next.tasks[a.task].phase == (if a.End? then Over else Active)
      && (a.Use? || (next.context == s.context && next.log == s.log))
  {
  }

  // ---- Well-mannered code ----

  // Code that runs without the lock must neither use the context nor drop the lock again.
  greatest predicate Free<S(!new)>[nat](code: Code<S>) {
    match code
    case Done(_) => true
    case Fail => true
    case Access(_) => false
    case Await(resume) => forall v :: Free(resume(v))
    case Drop(_, _) => false
  }

  // The ways such code can end.
  least predicate Ends<S(!new)>[nat](code: Code<S>, o: Outcome) {
    match code
    case Done(v) => o == Returned(v)
    case Fail => o == Thrown
    case Access(_) => false
    case Await(resume) => exists v :: Ends(resume(v), o)
    case Drop(_, _) => false
  }

  // Code that runs with the lock, from context `s`: it leaves `inv` true wherever it gives the lock
  // up, and gets back a context of which it only knows `inv`.
  greatest predicate Held<S(!new)>[nat](code: Code<S>, s: S, inv: S -> bool) {
    match code
    case Done(_) => inv(s)
    case Fail => inv(s)
    case Access(step) => Held(step(s).1, step(s).0, inv)
    case Await(resume) => forall v :: Held(resume(v), s, inv)
    case Drop(inner, after) =>
      inv(s) && Free(inner) && (forall o, t | Ends(inner, o) && inv(t) :: Held(after(o), t, inv))
  }

  ghost predicate Mannered<S(!new)>(guarded: bool, code: Code<S>, inv: S -> bool) {
    if guarded then forall s | inv(s) :: Held(code, s, inv) else Free(code)
  }

  // Every task but those that run `code` has manners.
  ghost predicate MannersBut<S(!new)>(actions: seq<Action<S>>, guarded: bool, code: Code<S>, inv: S -> bool) {
    forall a | a in actions && a.Spawn? :: Mannered(a.guarded, a.code, inv) || (a.guarded == guarded && a.code == code)
  }

  // ---- What manners keep ----

  // The accesses of one turn are uninterrupted.
  ghost predicate Whole(log: seq<Touch>) {
    forall a, b, c | 0 <= a < b < c < |log| && log[a] == log[c] :: log[b] == log[a]
  }

  ghost predicate Kept<S(!new)>(s: State<S>, inv: S -> bool) {
    Whole(s.log) && (!s.locked ==> inv(s.context))
  }

  predicate Inside<S>(t: Task<S>) {
    t.guarded && t.phase == Active && t.calls == []
  }

  ghost predicate TaskFits<S(!new)>(t: Task<S>, inv: S -> bool) {
    match t.phase
    case Waiting => t.calls == [] && Mannered(t.guarded, t.code, inv)
    case Over => true
    case Active =>
      if !t.guarded then t.calls == [] && Free(t.code)
      else t.calls == [] || (|t.calls| == 1 && Free(t.code) && Owed(t.code, t.calls[0], inv))
  }

  // Whichever way the call ends, the code after it will do.
  ghost predicate Owed<S(!new)>(inner: Code<S>, after: Outcome -> Code<S>, inv: S -> bool) {
    forall o, t | Ends(inner, o) && inv(t) :: Held(after(o), t, inv)
  }

  ghost predicate LogFits<S(!new)>(log: seq<Touch>, tasks: seq<Task<S>>) {
    && Whole(log)
    && (forall e | e in log :: e.task < |tasks| && e.turn <= tasks[e.task].turn)
    && (forall a, b | 0 <= a < b < |log| && log[a].task < |tasks| && Inside(tasks[log[a].task])
      && log[a].turn == tasks[log[a].task].turn :: log[b] == log[a])
  }

  // The lock is taken exactly when some task is inside, and then just one is.
  ghost predicate LockFits<S(!new)>(locked: bool, tasks: seq<Task<S>>) {
    && (forall i | 0 <= i < |tasks| && Inside(tasks[i]) :: locked)
    && (locked ==> exists i :: 0 <= i < |tasks| && Inside(tasks[i]))
    && (forall i, j | 0 <= i < j < |tasks| && Inside(tasks[i]) :: !Inside(tasks[j]))
  }

  ghost predicate Fits<S(!new)>(s: State<S>, inv: S -> bool) {
    && (forall i | 0 <= i < |s.tasks| :: TaskFits(s.tasks[i], inv))
    && (forall i | 0 <= i < |s.tasks| && Inside(s.tasks[i]) :: Held(s.tasks[i].code, s.context, inv))
    && LockFits(s.locked, s.tasks)
    && LogFits(s.log, s.tasks)
    && (!s.locked ==> inv(s.context))
  }

  function ContextAfter<S>(t: Task<S>, context: S, a: Action<S>): S
    requires Ready(t, a)
  {
    if a.Use? then t.code.step(context).0 else context
  }

  // A task keeps its manners, and only the one inside uses the context or frees the lock.
  lemma TaskMoves<S(!new)>(t: Task<S>, context: S, a: Action<S>, inv: S -> bool)
    requires TaskFits(t, inv) && Ready(t, a)
    requires Inside(t) ==> Held(t.code, context, inv)
    requires Takes(t, a) ==> inv(context)
    ensures TaskFits(Moved(t, context, a), inv)
    ensures a.Use? || Frees(t, a) ==> Inside(t)
    ensures Frees(t, a) ==> inv(context)
    ensures Inside(Moved(t, context, a)) <==> Takes(t, a) || (Inside(t) && !Frees(t, a))
    ensures Inside(Moved(t, context, a)) ==>
      Held(Moved(t, context, a).code, ContextAfter(t, context, a), inv)
  {
    match a
    case Begin(_) =>
    case Use(_) =>
    case Resume(_, v) =>
      if !Inside(t) && t.guarded {
        assert forall o :: Ends(t.code.resume(v), o) ==> Ends(t.code, o);
      }
    case Release(_) =>
    case Retake(_) =>
      assert Ends(t.code, OutcomeOf(t.code));
    case End(_) =>
  }

  lemma LockMoves<S(!new)>(s: State<S>, a: Action<S>)
    requires LockFits(s.locked, s.tasks) && Enabled(s, a) && !a.Spawn?
    requires var t := s.tasks[a.task];
      && (Frees(t, a) ==> Inside(t))
      && (Inside(Moved(t, s.context, a)) <==> Takes(t, a) || (Inside(t) && !Frees(t, a)))
    ensures LockFits(Step(s, a).locked, Step(s, a).tasks)
  {
    var t, next := s.tasks[a.task], Step(s, a);
    if next.locked {
      if Takes(t, a) {
        assert Inside(next.tasks[a.task]);
      } else {
        var i :| 0 <= i < |s.tasks| && Inside(s.tasks[i]);
        assert Inside(next.tasks[i]);
      }
    }
  }

  lemma LogMoves<S(!new)>(s: State<S>, a: Action<S>)
    requires LogFits(s.log, s.tasks) && LockFits(s.locked, s.tasks) && Enabled(s, a) && !a.Spawn?
    requires var t := s.tasks[a.task];
      && (a.Use? || Frees(t, a) ==> Inside(t))
      && (Inside(Moved(t, s.context, a)) <==> Takes(t, a) || (Inside(t) && !Frees(t, a)))
    ensures LogFits(Step(s, a).log, Step(s, a).tasks)
  {
  }

  lemma SpawnKeeps<S(!new)>(s: State<S>, a: Action<S>, inv: S -> bool)
    requires Fits(s, inv) && a.Spawn? && Mannered(a.guarded, a.code, inv)
    ensures Fits(Step(s, a), inv)
  {
    if s.locked {
      var i :| 0 <= i < |s.tasks| && Inside(s.tasks[i]);
      assert Inside(Step(s, a).tasks[i]);
    }
  }

  lemma StepKeeps<S(!new)>(s: State<S>, a: Action<S>, inv: S -> bool)
    requires Fits(s, inv) && (a.Spawn? ==> Mannered(a.guarded, a.code, inv))
    ensures Fits(Step(s, a), inv)
  {
    if a.Spawn? {
      SpawnKeeps(s, a, inv);
    } else if Enabled(s, a) {
      TaskMoves(s.tasks[a.task], s.context, a, inv);
      LockMoves(s, a);
      LogMoves(s, a);
    }
  }

  lemma {:induction false} RunKeeps<S(!new)>(start: S, actions: seq<Action<S>>, inv: S -> bool)
    requires inv(start) && forall a | a in actions && a.Spawn? :: Mannered(a.guarded, a.code, inv)
    ensures Fits(Run(Fresh(start), actions), inv)
  {
    if actions != [] {
      RunKeeps(start, actions[..|actions| - 1], inv);
      StepKeeps(Run(Fresh(start), actions[..|actions| - 1]), actions[|actions| - 1], inv);
    }
  }

  // At most one task is inside, the lock is taken exactly then, and only that task can use the
  // context.
  lemma MutualExclusion<S(!new)>(start: S, actions: seq<Action<S>>, inv: S -> bool)
    requires inv(start) && forall a | a in actions && a.Spawn? :: Mannered(a.guarded, a.code, inv)
    ensures var s := Run(Fresh(start), actions);
      && (s.locked <==> exists i :: 0 <= i < |s.tasks| && Inside(s.tasks[i]))
      && (forall i, j | 0 <= i < |s.tasks| && 0 <= j < |s.tasks| && Inside(s.tasks[i]) && Inside(s.tasks[j]) :: i == j)
      && (forall i | 0 <= i < |s.tasks| && Enabled(s, Use(i)) :: Inside(s.tasks[i]))
  {
    RunKeeps(start, actions, inv);
  }

  // A plain await keeps the lock: until the task inside moves on, nobody else uses the context.
  lemma {:induction false} AwaitsAreUndisturbed<S(!new)>(
    s: State<S>, others: seq<Action<S>>, i: nat, inv: S -> bool)
    requires Fits(s, inv) && i < |s.tasks| && Inside(s.tasks[i])
    requires forall a | a in others :: if a.Spawn? then Mannered(a.guarded, a.code, inv) else a.task != i
    ensures var next := Run(s, others);
      && Fits(next, inv) && i < |next.tasks|
      && next.tasks[i] == s.tasks[i] && next.context == s.context && next.log == s.log
  {
    if others != [] {
      var a, before := others[|others| - 1], Run(s, others[..|others| - 1]);
      AwaitsAreUndisturbed(s, others[..|others| - 1], i, inv);
      StepKeeps(before, a, inv);
      if a.Use? && Enabled(before, a) {
        TaskMoves(before.tasks[a.task], before.context, a, inv);
      }
    }
  }

  // ---- Manners are needed: what else can run breaks the guarantees ----

  function Quiet<S>(): Code<S> {
    Access(s => (s, Done(0)))
  }

  function Paused<S>(): Code<S> {
    Await(v => Quiet())
  }

  // Two accesses in one turn, with an await between them.
  function Pausing<S>(): Code<S> {
    Access(s => (s, Paused()))
  }

  function Setting<S>(context: S): Code<S> {
    Access(s => (context, Done(0)))
  }

  lemma ProbesHaveManners<S(!new)>(inv: S -> bool)
    ensures Mannered(true, Quiet(), inv) && Mannered(true, Pausing(), inv)
    ensures forall t | inv(t) :: Mannered(true, Setting(t), inv)
  {
    forall s | inv(s)
      ensures Held(Quiet(), s, inv) && Held(Pausing(), s, inv)
    {
      assert Held(Code<S>.Done(0), s, inv);
      assert Held(Quiet(), s, inv);
      forall v
        ensures Held(Paused<S>().resume(v), s, inv)
      {
      }
      assert Held(Paused(), s, inv);
    }
    forall s, t | inv(t)
      ensures Held(Setting(t), s, inv)
    {
      assert Held(Code<S>.Done(0), t, inv);
    }
  }

  lemma RunOn<S>(start: State<S>, actions: seq<Action<S>>, a: Action<S>)
    ensures Run(start, actions + [a]) == Step(Run(start, actions), a)
  {
    assert (actions + [a])[..|actions|] == actions;
  }

  // One more task takes the free lock and makes its first access.
  lemma Enters<S(!new)>(start: State<S>, actions: seq<Action<S>>, code: Code<S>) returns (more: seq<Action<S>>)
    requires !Run(start, actions).locked && code.Access?
    ensures var s := Run(start, actions);
      Run(start, more) == State(
        true, code.step(s.context).0,
        s.tasks + [Task(true, Active, code.step(s.context).1, [], 1)],
        s.log + [Touch(|s.tasks|, 1)])
    ensures more == actions + [Spawn(true, code), Begin(|Run(start, actions).tasks|), Use(|Run(start, actions).tasks|)]
  {
    hide Run;
    var s := Run(start, actions);
    var n := |s.tasks|;
    var t := Task(true, Active, code, [], 1);
    var spawned := s.(tasks := s.tasks + [t.(phase := Waiting, turn := 0)]);
    var begun := s.(locked := true, tasks := s.tasks + [t]);
    assert Step(s, Spawn(true, code)) == spawned;
    assert Step(spawned, Begin(n)).tasks == begun.tasks;
    assert Step(begun, Use(n)).tasks == s.tasks + [t.(code := code.step(s.context).1)];
    RunOn(start, actions, Spawn(true, code));
    RunOn(start, actions + [Spawn(true, code)], Begin(n));
    RunOn(start, actions + [Spawn(true, code)] + [Begin(n)], Use(n));
    more := actions + [Spawn(true, code)] + [Begin(n)] + [Use(n)];
  }

  lemma Sets<S(!new)>(
    start: State<S>, actions: seq<Action<S>>, context: S, guarded: bool, code: Code<S>, inv: S -> bool)
    returns (more: seq<Action<S>>)
    requires !Run(start, actions).locked && inv(context) && MannersBut(actions, guarded, code, inv)
    ensures MannersBut(more, guarded, code, inv)
    ensures var s, next := Run(start, actions), Run(start, more);
      && !next.locked && next.context == context
      && |next.tasks| == |s.tasks| + 1 && next.tasks[..|s.tasks|] == s.tasks
  {
    ProbesHaveManners(inv);
    var n := |Run(start, actions).tasks|;
    var entered := Enters(start, actions, Setting(context));
    RunOn(start, entered, End(n));
    more := entered + [End(n)];
  }

  lemma BrokenInTwo(log: seq<Touch>, e: Touch, at: nat)
    requires at + 1 < |log| && log[at] == e && log[at + 1] != e
    ensures !Whole(log + [e])
  {
    var longer := log + [e];
    assert longer[at] == longer[|log|] && longer[at + 1] != longer[at];
  }

  lemma Wakes<S(!new)>(s: State<S>, p: nat)
    requires p < |s.tasks| && s.tasks[p] == Task(true, Active, Paused(), [], 1)
    ensures Step(Step(s, Resume(p, 0)), Use(p)).log == s.log + [Touch(p, 1)]
  {
    var resumed := Step(s, Resume(p, 0));
    assert resumed.log == s.log;
    assert resumed.tasks[p] == Task(true, Active, Quiet(), [], 1);
  }

  // A task that pauses inside while somebody else makes an access finds its turn broken in two.
  lemma Interrupted<S(!new)>(start: State<S>, actions: seq<Action<S>>, p: nat, at: nat) returns (more: seq<Action<S>>)
    requires var s := Run(start, actions);
      && p < |s.tasks| && s.tasks[p] == Task(true, Active, Paused(), [], 1)
      && at + 1 < |s.log| && s.log[at] == Touch(p, 1) && s.log[at + 1] != Touch(p, 1)
    ensures more == actions + [Resume(p, 0), Use(p)] && !Whole(Run(start, more).log)
  {
    hide Whole, Step;
    RunOn(start, actions, Resume(p, 0));
    RunOn(start, actions + [Resume(p, 0)], Use(p));
    more := actions + [Resume(p, 0)] + [Use(p)];
    Wakes(Run(start, actions), p);
    BrokenInTwo(Run(start, actions).log, Touch(p, 1), at);
  }

  // Using the context without the lock, while another task pauses inside.
  lemma UseIntrudes<S(!new)>(start: State<S>, actions: seq<Action<S>>, i: nat) returns (more: seq<Action<S>>)
    requires var s := Run(start, actions);
      !s.locked && i < |s.tasks| && s.tasks[i].phase == Active && s.tasks[i].code.Access?
    ensures forall a | a in more && a.Spawn? :: a in actions || a == Spawn(true, Pausing())
    ensures !Whole(Run(start, more).log)
  {
    hide Whole;
    var p, at := |Run(start, actions).tasks|, |Run(start, actions).log|;
    var entered := Enters(start, actions, Pausing());
    RunOn(start, entered, Use(i));
    more := Interrupted(start, entered + [Use(i)], p, at);
  }

  // Freeing a lock that another task holds, and a third task comes in.
  lemma ReleaseIntrudes<S(!new)>(start: State<S>, actions: seq<Action<S>>, i: nat) returns (more: seq<Action<S>>)
    requires var s := Run(start, actions);
      !s.locked && i < |s.tasks| && s.tasks[i].phase == Active && s.tasks[i].code.Drop?
    ensures forall a | a in more && a.Spawn? :: a in actions || a == Spawn(true, Pausing()) || a == Spawn(true, Quiet())
    ensures !Whole(Run(start, more).log)
  {
    hide Whole;
    var p, at := |Run(start, actions).tasks|, |Run(start, actions).log|;
    var entered := Enters(start, actions, Pausing());
    RunOn(start, entered, Release(i));
    var twice := Enters(start, entered + [Release(i)], Quiet());
    more := Interrupted(start, twice, p, at);
  }

  lemma {:induction false} BreaksFree<S(!new)>(
    k: nat, start: State<S>, actions: seq<Action<S>>, i: nat, guarded: bool, code: Code<S>, inv: S -> bool)
    returns (more: seq<Action<S>>)
    requires MannersBut(actions, guarded, code, inv)
    requires var s := Run(start, actions);
      !s.locked && i < |s.tasks| && s.tasks[i].phase == Active && !Free#[k](s.tasks[i].code)
    ensures MannersBut(more, guarded, code, inv) && !Whole(Run(start, more).log)
    decreases k
  {
    var s := Run(start, actions);
    ProbesHaveManners(inv);
    match s.tasks[i].code
    case Await(resume) =>
      var v :| !Free#[k - 1](resume(v));
      RunOn(start, actions, Resume(i, v));
      more := BreaksFree(k - 1, start, actions + [Resume(i, v)], i, guarded, code, inv);
    case Access(_) =>
      more := UseIntrudes(start, actions, i);
    case Drop(_, _) =>
      more := ReleaseIntrudes(start, actions, i);
  }

  lemma {:induction false} RunsToEnd<S(!new)>(
    k: nat, start: State<S>, actions: seq<Action<S>>, i: nat, o: Outcome) returns (more: seq<Action<S>>)
    requires var s := Run(start, actions);
      i < |s.tasks| && s.tasks[i].phase == Active && Ends#[k](s.tasks[i].code, o)
    ensures forall a | a in more :: a in actions || !a.Spawn?
    ensures var s, next := Run(start, actions), Run(start, more);
      && |next.tasks| == |s.tasks|
      && next == s.(tasks := next.tasks) && next.tasks[i] == s.tasks[i].(code := next.tasks[i].code)
      && Ended(next.tasks[i].code) && OutcomeOf(next.tasks[i].code) == o
    decreases k
  {
    var s := Run(start, actions);
    match s.tasks[i].code
    case Done(_) => more := actions;
    case Fail => more := actions;
    case Await(resume) =>
      var v :| Ends#[k - 1](resume(v), o);
      RunOn(start, actions, Resume(i, v));
      more := RunsToEnd(k - 1, start, actions + [Resume(i, v)], i, o);
  }

  // A lock-dropping call comes back with any outcome its inner code has, to any context that `inv`
  // allows.
  lemma Returns<S(!new)>(
    start: State<S>, actions: seq<Action<S>>, i: nat, o: Outcome, context: S,
    guarded: bool, code: Code<S>, inv: S -> bool) returns (more: seq<Action<S>>)
    requires MannersBut(actions, guarded, code, inv) && inv(context)
    requires var s := Run(start, actions);
      && s.locked && i < |s.tasks| && Inside(s.tasks[i])
      && s.tasks[i].code.Drop? && Ends(s.tasks[i].code.inner, o)
    ensures MannersBut(more, guarded, code, inv)
    ensures var t, next := Run(start, actions).tasks[i], Run(start, more);
      && next.locked && next.context == context && i < |next.tasks|
      && next.tasks[i] == t.(code := t.code.after(o), turn := t.turn + 1)
  {
    var t := Run(start, actions).tasks[i];
    RunOn(start, actions, Release(i));
    var released := actions + [Release(i)];
    assert Run(start, released).tasks[i] == t.(code := t.code.inner, calls := [t.code.after]);
    var n: nat :| Ends#[n](t.code.inner, o);
    var ended := RunsToEnd(n, start, released, i, o);
    var renewed := Sets(start, ended, context, guarded, code, inv);
    assert Run(start, renewed).tasks[i] == Run(start, ended).tasks[i];
    RunOn(start, renewed, Retake(i));
    more := renewed + [Retake(i)];
  }

  // Giving up the lock without `inv`, or for code that is not fit to run without it.
  lemma BreaksNow<S(!new)>(
    start: State<S>, actions: seq<Action<S>>, i: nat, guarded: bool, code: Code<S>, inv: S -> bool)
    returns (more: seq<Action<S>>)
    requires MannersBut(actions, guarded, code, inv)
    requires var s := Run(start, actions);
      && s.locked && i < |s.tasks| && Inside(s.tasks[i])
      && (Ended(s.tasks[i].code) || s.tasks[i].code.Drop?)
      && (inv(s.context) ==> s.tasks[i].code.Drop? && !Free(s.tasks[i].code.inner))
    ensures MannersBut(more, guarded, code, inv) && !Kept(Run(start, more), inv)
  {
    var s := Run(start, actions);
    if Ended(s.tasks[i].code) {
      RunOn(start, actions, End(i));
      more := actions + [End(i)];
    } else {
      RunOn(start, actions, Release(i));
      more := actions + [Release(i)];
      if inv(s.context) {
        var n: nat :| !Free#[n](s.tasks[i].code.inner);
        more := BreaksFree(n, start, more, i, guarded, code, inv);
      }
    }
  }

  lemma {:induction false} BreaksHeld<S(!new)>(
    k: nat, start: State<S>, actions: seq<Action<S>>, i: nat, guarded: bool, code: Code<S>, inv: S -> bool)
    returns (more: seq<Action<S>>)
    requires MannersBut(actions, guarded, code, inv)
    requires var s := Run(start, actions);
      s.locked && i < |s.tasks| && Inside(s.tasks[i]) && !Held#[k](s.tasks[i].code, s.context, inv)
    ensures MannersBut(more, guarded, code, inv) && !Kept(Run(start, more), inv)
    decreases k
  {
    hide Kept, Run;
    var s := Run(start, actions);
    match s.tasks[i].code
    case Done(_) =>
      more := BreaksNow(start, actions, i, guarded, code, inv);
    case Fail =>
      more := BreaksNow(start, actions, i, guarded, code, inv);
    case Access(step) =>
      RunOn(start, actions, Use(i));
      more := BreaksHeld(k - 1, start, actions + [Use(i)], i, guarded, code, inv);
    case Await(resume) =>
      var v :| !Held#[k - 1](resume(v), s.context, inv);
      RunOn(start, actions, Resume(i, v));
      more := BreaksHeld(k - 1, start, actions + [Resume(i, v)], i, guarded, code, inv);
    case Drop(inner, after) =>
      if !inv(s.context) || !Free(inner) {
        more := BreaksNow(start, actions, i, guarded, code, inv);
      } else {
        var o, t :| Ends(inner, o) && inv(t) && !Held#[k - 1](after(o), t, inv);
        var retaken := Returns(start, actions, i, o, t, guarded, code, inv);
        more := BreaksHeld(k - 1, start, retaken, i, guarded, code, inv);
      }
  }

  // Code without manners can break the guarantees even when it is the only such code.
  lemma MannersAreNeeded<S(!new)>(start: S, guarded: bool, code: Code<S>, inv: S -> bool)
    returns (actions: seq<Action<S>>)
    requires inv(start) && !Mannered(guarded, code, inv)
    ensures MannersBut(actions, guarded, code, inv) && !Kept(Run(Fresh(start), actions), inv)
  {
    var context := start;
    if guarded {
      context :| inv(context) && !Held(code, context, inv);
    }
    actions := Sets(Fresh(start), [], context, guarded, code, inv);
    RunOn(Fresh(start), actions, Spawn(guarded, code));
    actions := actions + [Spawn(guarded, code)];
    RunOn(Fresh(start), actions, Begin(1));
    actions := actions + [Begin(1)];
    if guarded {
      var k: nat :| !Held#[k](code, context, inv);
      actions := BreaksHeld(k, Fresh(start), actions, 1, guarded, code, inv);
    } else {
      var k: nat :| !Free#[k](code);
      actions := BreaksFree(k, Fresh(start), actions, 1, guarded, code, inv);
    }
  }

  // Whatever runs beside it as long as it has manners, a task keeps every turn whole and `inv`
  // true whenever the lock is free, in every run, exactly if it has manners itself.
  lemma MannersExactly<S(!new)>(start: S, guarded: bool, code: Code<S>, inv: S -> bool)
    requires inv(start)
    ensures Mannered(guarded, code, inv) <==>
      forall actions: seq<Action<S>> | MannersBut(actions, guarded, code, inv) :: Kept(Run(Fresh(start), actions), inv)
  {
    if Mannered(guarded, code, inv) {
      forall actions: seq<Action<S>> | MannersBut(actions, guarded, code, inv)
        ensures Kept(Run(Fresh(start), actions), inv)
      {
        RunKeeps(start, actions, inv);
      }
    } else {
      var actions := MannersAreNeeded(start, guarded, code, inv);
    }
  }

  // So a muli RPC must not make a lock-dropping call, and neither must code inside one.
  lemma DropsNeedTheLock<S(!new)>(
    inner: Code<S>, after: Outcome -> Code<S>, later: Outcome -> Code<S>, start: S, inv: S -> bool)
    requires inv(start)
    ensures !Mannered(false, Drop(inner, after), inv)
    ensures !Mannered(true, Drop(Drop(inner, after), later), inv)
  {
    assert !Held(Drop(Drop(inner, after), later), start, inv);
  }
}
