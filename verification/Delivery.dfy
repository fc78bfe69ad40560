// Delivery from one node to another as a system of steps: pushers, the sender loop that holds
// and resends one batch, and the receiver working through whatever copies arrive.
module Delivery {
  import opened Words
  import opened Framing

  // A message with the ordinal of its acceptance. The ordinal is a label of this model, so that
  // equal messages pushed twice can be told apart.
  datatype Tagged = Tagged(id: nat, bytes: Bytes)

  // What one attempt put on its way: the batch, how many of its messages the receiver has worked
  // through, and whether rpc_on_mq has returned. A copy may be worked on at any later time, side
  // by side with others, or never.
  datatype Copy = Copy(msgs: seq<Tagged>, done: nat, returned: bool)

  // Broken: the loop has dereferenced the null pointer of a client that was reset. The model leaves
  // the sender there.
  datatype Phase = Testing | Filling | Sending | Awaiting(copy: nat) | Stopped | Broken

  datatype State = State(
    stop: bool,
    client: bool,            // rpc_client is not null
    pending: seq<Bytes>,     // pushes past the stop test, not yet in the queue
    queue: seq<Tagged>,
    phase: Phase,
    batch: seq<Tagged>,      // the sender's msgs
    copies: seq<Copy>,
    log: seq<Tagged>,        // what the receiver has processed, in order
    accepted: seq<Tagged>,   // history: everything that entered the queue
    acked: seq<Tagged>)      // history: every batch the sender has cleared

  const INIT := State(false, true, [], [], Testing, [], [], [], [], [])

  datatype Action =
    | PushStart(bytes: Bytes)  // node_mq_push checks the bytes, push tests stop
    | PushCommit(k: nat)       // the pending push takes the lock and appends
    | Shutdown                 // the two statements of the node's shutdown: the queue stops,
    | Reset                    // and the client goes
    | Test                     // the loop condition
    | Fill                     // pop_all, unless a batch is held
    | Send
    | Fail                     // connection or remote error
    | Succeed                  // a reply; only rpc_on_mq's return can cause one
    | Process(k: nat)          // the receiver goes one message further in a copy

  predicate Enabled(s: State, a: Action) {
    match a
    case PushStart(bytes) => true
    case PushCommit(k) => k < |s.pending|
    case Shutdown => true
    case Reset => s.stop
    case Test => s.phase == Testing
    case Fill => s.phase == Filling && (s.batch != [] || s.queue != [] || s.stop)
    case Send => s.phase == Sending
    case Fail => s.phase.Awaiting?
    case Succeed => s.phase.Awaiting? && s.phase.copy < |s.copies| && s.copies[s.phase.copy].returned
    case Process(k) => k < |s.copies| && !s.copies[k].returned
  }

  // Actions that are not enabled change nothing, so a run is any sequence of actions.
  function Step(s: State, a: Action): State {
    if !Enabled(s, a) then s else
      match a
      case PushStart(bytes) =>
        if Parse(bytes).None? || s.stop then s else s.(pending := s.pending + [bytes])
      case PushCommit(k) =>
        var m := Tagged(|s.accepted|, s.pending[k]);
        s.(pending := s.pending[..k] + s.pending[k + 1..], queue := s.queue + [m], accepted := s.accepted + [m])
      case Shutdown => s.(stop := true)
      case Reset => s.(client := false)
      case Test => s.(phase := if s.stop then Stopped else Filling)
      case Fill =>
        if s.batch != [] then s.(phase := Sending)
        else s.(batch := s.queue, queue := [], phase := if s.queue == [] then Stopped else Sending)
      case Send =>
        if !s.client then s.(phase := Broken)
        else s.(copies := s.copies + [Copy(s.batch, 0, false)], phase := Awaiting(|s.copies|))
      case Fail => s.(phase := Testing)
      case Succeed => s.(acked := s.acked + s.batch, batch := [], phase := Testing)
      case Process(k) => Processed(s, k)
  }

  // rpc_on_mq on one copy: the next message, or the return; a message that does not parse makes
  // it return early.
  function Processed(s: State, k: nat): State
    requires k < |s.copies|
  {
    var c := s.copies[k];
    if c.done >= |c.msgs| || Parse(c.msgs[c.done].bytes).None? then
      s.(copies := s.copies[k := c.(returned := true)])
    else
      s.(copies := s.copies[k := c.(done := c.done + 1)], log := s.log + [c.msgs[c.done]])
  }

  function Run(s: State, actions: seq<Action>): State {
    if actions == [] then s else Step(Run(s, actions[..|actions| - 1]), actions[|actions| - 1])
  }

  lemma {:induction false} RunInParts(s: State, first: seq<Action>, second: seq<Action>)
    ensures Run(s, first + second) == Run(Run(s, first), second)
  {
    hide Step;
    if second == [] {
      assert first + second == first;
    } else {
      var n := |second| - 1;
      assert (first + second)[..|first| + n] == first + second[..n];
      RunInParts(s, first, second[..n]);
    }
  }

  lemma RunMore(s: State, first: seq<Action>, a: Action)
    ensures Run(s, first + [a]) == Step(Run(s, first), a)
  {
    assert (first + [a])[..|first|] == first;
  }

  // The log reduced to first occurrences.
  function Firsts(log: seq<Tagged>): seq<Tagged> {
    if log == [] then [] else
      var earlier, m := log[..|log| - 1], log[|log| - 1];
      if m in earlier then Firsts(earlier) else Firsts(earlier) + [m]
  }

  lemma {:induction false} FirstsContain(log: seq<Tagged>)
    ensures forall m :: m in Firsts(log) <==> m in log
  {
    if log != [] {
      FirstsContain(log[..|log| - 1]);
      assert log == log[..|log| - 1] + [log[|log| - 1]];
    }
  }

  lemma FirstsExtend(log: seq<Tagged>, m: Tagged)
    ensures Firsts(log + [m]) == if m in log then Firsts(log) else Firsts(log) + [m]
  {
    assert (log + [m])[..|log|] == log;
  }

  // Each message stands in the reduced log for its first occurrence, in the order of these.
  lemma {:induction false} FirstsAt(log: seq<Tagged>, p: nat) returns (i: nat)
    requires p < |Firsts(log)|
    ensures i < |log| && log[i] == Firsts(log)[p] && log[i] !in log[..i] && Firsts(log[..i]) == Firsts(log)[..p]
  {
    var earlier := log[..|log| - 1];
    if p < |Firsts(earlier)| {
      i := FirstsAt(earlier, p);
      assert log[..i] == earlier[..i];
    } else {
      i := |log| - 1;
    }
  }

  // ---- The invariant ----

  predicate Labelled(accepted: seq<Tagged>) {
    forall i | 0 <= i < |accepted| :: accepted[i].id == i && Parse(accepted[i].bytes).Some?
  }

  // Nothing gets lost, doubled or reordered on the sender's side.
  predicate Conserved(s: State) {
    s.accepted == s.acked + s.batch + s.queue
  }

  // How many messages the sender has taken out of the queue.
  function Taken(s: State): nat {
    |s.acked| + |s.batch|
  }

  function From(c: Copy): nat {
    if c.msgs == [] then 0 else c.msgs[0].id
  }

  // A copy holds a stretch of the accepted messages that the sender has taken on by now, the
  // receiver has got at least as far as the copy, and returned only at its end.
  predicate CopyFits(accepted: seq<Tagged>, acked: nat, taken: nat, c: Copy, reached: nat) {
    && c.msgs != [] && From(c) <= acked && From(c) + |c.msgs| <= taken <= |accepted|
    && c.msgs == accepted[From(c)..From(c) + |c.msgs|]
    && c.done <= |c.msgs| && From(c) + c.done <= reached
    && (c.returned ==> c.done == |c.msgs|)
  }

  predicate PhaseFits(s: State) {
    match s.phase
    case Sending => s.batch != []
    case Awaiting(k) => s.batch != [] && k < |s.copies| && s.copies[k].msgs == s.batch
    case _ => true
  }

  // The receiver has processed exactly the first `reached` accepted messages, whatever repeats.
  predicate Reaches(s: State, reached: nat) {
    && |s.acked| <= reached <= Taken(s) <= |s.accepted|
    && Firsts(s.log) == s.accepted[..reached]
    && CopiesFit(s.accepted, |s.acked|, Taken(s), s.copies, reached)
  }

  predicate CopiesFit(accepted: seq<Tagged>, acked: nat, taken: nat, copies: seq<Copy>, reached: nat) {
    forall k | 0 <= k < |copies| :: CopyFits(accepted, acked, taken, copies[k], reached)
  }

  predicate Steady(s: State) {
    Labelled(s.accepted) && AllParse(s.pending) && Conserved(s) && PhaseFits(s)
  }

  ghost predicate Inv(s: State) {
    && Steady(s)
    && exists reached :: Reaches(s, reached)
  }

  // Processing one message at or before the frontier moves the frontier by at most that message.
  lemma FirstsAdvance(accepted: seq<Tagged>, log: seq<Tagged>, reached: nat, at: nat)
    requires Labelled(accepted)
    requires at <= reached <= |accepted| && at < |accepted| && Firsts(log) == accepted[..reached]
    ensures Firsts(log + [accepted[at]]) == accepted[..if at < reached then reached else reached + 1]
  {
    hide Firsts, Parse;
    var m := accepted[at];
    FirstsContain(log);
    FirstsExtend(log, m);
    if at < reached {
      assert m == accepted[..reached][at];
    } else {
      assert forall i | 0 <= i < reached :: accepted[..reached][i].id == i;
      assert accepted[..reached + 1] == accepted[..reached] + [m];
    }
  }

  // The frontier after one more message of copy c.
  function Frontier(c: Copy, reached: nat): nat {
    if c.done < |c.msgs| && From(c) + c.done == reached then reached + 1 else reached
  }

  // The next message of a copy is the accepted message of that ordinal.
  lemma NextMessage(s: State, k: nat)
    requires Inv(s) && k < |s.copies| && s.copies[k].done < |s.copies[k].msgs|
    ensures var c := s.copies[k]; var at := From(c) + c.done;
      && at < |s.accepted| && c.msgs[c.done] == s.accepted[at]
      && s.accepted[at].id == at && Parse(s.accepted[at].bytes).Some?
  {
    var reached :| Reaches(s, reached);
    var c := s.copies[k];
    assert CopyFits(s.accepted, |s.acked|, Taken(s), c, reached);
    assert c.msgs[c.done] == s.accepted[From(c)..From(c) + |c.msgs|][c.done];
  }

  lemma ProcessedLog(s: State, k: nat, reached: nat)
    requires Steady(s) && Reaches(s, reached) && Enabled(s, Process(k))
    ensures reached <= Frontier(s.copies[k], reached) <= Taken(s)
    ensures Firsts(Processed(s, k).log) == s.accepted[..Frontier(s.copies[k], reached)]
  {
    hide Firsts, Parse;
    var c := s.copies[k];
    assert CopyFits(s.accepted, |s.acked|, Taken(s), c, reached);
    if c.done < |c.msgs| {
      assert c.msgs[c.done] == s.accepted[From(c) + c.done];
      FirstsAdvance(s.accepted, s.log, reached, From(c) + c.done);
    }
  }

  lemma FitsOf(s: State, k: nat, reached: nat)
    requires Reaches(s, reached) && k < |s.copies|
    ensures CopyFits(s.accepted, |s.acked|, Taken(s), s.copies[k], reached)
  {
  }

  lemma ProcessedCopy(s: State, k: nat, reached: nat)
    requires Steady(s) && Reaches(s, reached) && Enabled(s, Process(k))
    ensures CopyFits(s.accepted, |s.acked|, Taken(s), Processed(s, k).copies[k], Frontier(s.copies[k], reached))
  {
    hide Firsts, Parse, AllParse, Conserved, PhaseFits, Reaches;
    var c := s.copies[k];
    FitsOf(s, k, reached);
    if c.done < |c.msgs| {
      assert c.msgs[c.done] == s.accepted[From(c) + c.done];
    }
  }

  lemma FitsLater(accepted: seq<Tagged>, acked: nat, taken: nat, c: Copy, reached: nat, later: nat)
    requires CopyFits(accepted, acked, taken, c, reached) && reached <= later
    ensures CopyFits(accepted, acked, taken, c, later)
  {
  }

  lemma FitsWider(accepted: seq<Tagged>, acked: nat, taken: nat, wider: nat, c: Copy, reached: nat)
    requires CopyFits(accepted, acked, taken, c, reached) && taken <= wider <= |accepted|
    ensures CopyFits(accepted, acked, wider, c, reached)
  {
  }

  lemma ProcessedCopies(s: State, k: nat, reached: nat)
    requires Steady(s) && Reaches(s, reached) && Enabled(s, Process(k))
    ensures CopiesFit(s.accepted, |s.acked|, Taken(s), Processed(s, k).copies, Frontier(s.copies[k], reached))
  {
    hide Firsts, Parse, CopyFits, Labelled;
    ProcessedCopy(s, k, reached);
    var copies, later := Processed(s, k).copies, Frontier(s.copies[k], reached);
    forall i | 0 <= i < |copies|
      ensures CopyFits(s.accepted, |s.acked|, Taken(s), copies[i], later)
    {
      if i != k {
        FitsLater(s.accepted, |s.acked|, Taken(s), s.copies[i], reached, later);
      }
    }
  }

  lemma ProcessKeeps(s: State, k: nat, reached: nat)
    requires Steady(s) && Reaches(s, reached)
    requires Enabled(s, Process(k))
    ensures Inv(Processed(s, k))
  {
    hide Firsts, Parse, CopiesFit, Frontier, Labelled, AllParse;
    ProcessedLog(s, k, reached);
    ProcessedCopies(s, k, reached);
    assert Reaches(Processed(s, k), Frontier(s.copies[k], reached));
  }

  lemma CommitKeeps(s: State, k: nat, reached: nat)
    requires Steady(s) && Reaches(s, reached)
    requires Enabled(s, PushCommit(k))
    ensures Inv(Step(s, PushCommit(k)))
  {
    hide Firsts, Parse;
    var s' := Step(s, PushCommit(k));
    assert s'.accepted[..|s.accepted|] == s.accepted;
    assert s'.accepted[..reached] == s.accepted[..reached];
    forall i | 0 <= i < |s'.copies| ensures CopyFits(s'.accepted, |s'.acked|, Taken(s'), s'.copies[i], reached) {
      assert CopyFits(s.accepted, |s.acked|, Taken(s), s.copies[i], reached);
    }
    assert Reaches(s', reached);
  }

  lemma SucceedKeeps(s: State, reached: nat)
    requires Steady(s) && Reaches(s, reached)
    requires Enabled(s, Succeed)
    ensures Inv(Step(s, Succeed))
  {
    hide Firsts, Parse, AllParse;
    var c := s.copies[s.phase.copy];
    assert CopyFits(s.accepted, |s.acked|, Taken(s), c, reached);
    assert c.msgs[0] == s.accepted[|s.acked|];
    var s' := Step(s, Succeed);
    forall i | 0 <= i < |s'.copies| ensures CopyFits(s'.accepted, |s'.acked|, Taken(s'), s'.copies[i], reached) {
      assert CopyFits(s.accepted, |s.acked|, Taken(s), s.copies[i], reached);
    }
    assert Reaches(s', reached);
  }

  lemma SendKeeps(s: State, reached: nat)
    requires Steady(s) && Reaches(s, reached)
    requires Enabled(s, Send) && s.client
    ensures Inv(Step(s, Send))
  {
    hide Firsts, Parse;
    var s' := Step(s, Send);
    assert s.accepted[|s.acked|..|s.acked| + |s.batch|] == s.batch;
    assert s.batch[0] == s.accepted[|s.acked|];
    forall i | 0 <= i < |s'.copies| ensures CopyFits(s'.accepted, |s'.acked|, Taken(s'), s'.copies[i], reached) {
      if i < |s.copies| {
        assert CopyFits(s.accepted, |s.acked|, Taken(s), s.copies[i], reached);
      }
    }
    assert Reaches(s', reached);
  }

  lemma FillKeeps(s: State, reached: nat)
    requires Steady(s) && Reaches(s, reached)
    requires Enabled(s, Fill)
    ensures Inv(Step(s, Fill))
  {
    hide Firsts, Parse, Labelled, AllParse, CopyFits;
    var s' := Step(s, Fill);
    forall i | 0 <= i < |s'.copies| ensures CopyFits(s'.accepted, |s'.acked|, Taken(s'), s'.copies[i], reached) {
      FitsWider(s.accepted, |s.acked|, Taken(s), Taken(s'), s.copies[i], reached);
    }
    assert Reaches(s', reached);
  }

  // The other steps leave batch, queue, copies, log and history alone.
  lemma OtherKeeps(s: State, a: Action, reached: nat)
    requires Steady(s) && Reaches(s, reached)
    requires Enabled(s, a) && (a.PushStart? || a.Shutdown? || a.Reset? || a.Test? || a.Fail? || (a.Send? && !s.client))
    ensures Inv(Step(s, a))
  {
    hide Firsts, CopiesFit, Labelled;
    assert Reaches(Step(s, a), reached);
  }

  lemma StepKeeps(s: State, a: Action)
    requires Inv(s)
    ensures Inv(Step(s, a))
  {
    var reached :| Reaches(s, reached);
    if Enabled(s, a) {
      match a
      case PushCommit(k) => CommitKeeps(s, k, reached);
      case Succeed => SucceedKeeps(s, reached);
      case Send =>
        if s.client {
          SendKeeps(s, reached);
        } else {
          OtherKeeps(s, a, reached);
        }
      case Fill => FillKeeps(s, reached);
      case Process(k) => ProcessKeeps(s, k, reached);
      case _ => OtherKeeps(s, a, reached);
    }
  }

  lemma {:induction false} RunKeeps(actions: seq<Action>)
    ensures Inv(Run(INIT, actions))
  {
    if actions == [] {
      assert Reaches(INIT, 0);
    } else {
      RunKeeps(actions[..|actions| - 1]);
      StepKeeps(Run(INIT, actions[..|actions| - 1]), actions[|actions| - 1]);
    }
  }

  // ---- What every run guarantees ----

  lemma AckedIsReached(s: State, n: nat, m: Tagged)
    requires Conserved(s) && Reaches(s, n)
    ensures m in s.acked ==> m in s.log
  {
    FirstsContain(s.log);
    if m in s.acked {
      var i :| 0 <= i < |s.acked| && s.acked[i] == m;
      assert s.accepted[..n][i] == m;
    }
  }

  lemma QueuedIsNotReached(s: State, n: nat, m: Tagged)
    requires Steady(s) && Reaches(s, n)
    ensures m in s.log ==> m in s.accepted && m !in s.queue
  {
    hide Firsts, Parse, AllParse, CopiesFit, PhaseFits;
    FirstsContain(s.log);
    if m in s.log {
      var i :| 0 <= i < n && s.accepted[..n][i] == m;
      forall j | 0 <= j < |s.queue| ensures s.queue[j] != m {
        var later := |s.acked| + |s.batch| + j;
        assert s.queue[j] == s.accepted[later] && s.accepted[later].id == later && s.accepted[i].id == i;
      }
    }
  }

  // At least once, and in order: reduced to first occurrences, the receiver's log is a prefix of
  // what was accepted, at least as long as what is acknowledged and at most as long as what the
  // sender has taken on.
  lemma FirstDeliveriesInOrder(actions: seq<Action>) returns (n: nat)
    ensures var s := Run(INIT, actions);
      |s.acked| <= n <= |s.acked| + |s.batch| <= |s.accepted| && Firsts(s.log) == s.accepted[..n]
  {
    RunKeeps(actions);
    n :| Reaches(Run(INIT, actions), n);
  }

  // The receiver has processed everything acknowledged, and nothing that was never accepted or is
  // still in the queue.
  lemma AcknowledgedIsProcessed(actions: seq<Action>, m: Tagged)
    ensures var s := Run(INIT, actions);
      (m in s.acked ==> m in s.log) && (m in s.log ==> m in s.accepted && m !in s.queue)
  {
    RunKeeps(actions);
    var s := Run(INIT, actions);
    var n :| Reaches(s, n);
    AckedIsReached(s, n, m);
    QueuedIsNotReached(s, n, m);
  }

  // At every step the accepted messages are the acknowledged ones, then the batch, then the
  // queue: what is unacknowledged when the sender stops is a suffix, held in order.
  lemma NothingIsLost(actions: seq<Action>)
    ensures var s := Run(INIT, actions);
      s.accepted == s.acked + s.batch + s.queue
  {
    RunKeeps(actions);
  }

  // The receiver's early return is never taken: every returned copy was worked through.
  lemma CopiesAreWorkedThrough(actions: seq<Action>, k: nat)
    ensures var s := Run(INIT, actions);
      k < |s.copies| && s.copies[k].returned ==> s.copies[k].done == |s.copies[k].msgs|
  {
    RunKeeps(actions);
    var s := Run(INIT, actions);
    var n :| Reaches(s, n);
    assert k < |s.copies| ==> CopyFits(s.accepted, |s.acked|, Taken(s), s.copies[k], n);
  }

  // ---- What can still be processed, and what is lost ----

  // A batch that is held, and neither about to be sent nor stuck on the missing client, has been sent.
  predicate HeldWasSent(s: State) {
    && (s.batch != [] && s.phase != Sending && s.phase != Broken ==>
      exists k :: 0 <= k < |s.copies| && s.copies[k].msgs == s.batch)
    && (s.phase == Stopped ==> s.stop)
    && (s.phase == Broken ==> !s.client)
    && (!s.client ==> s.stop)
  }

  predicate Sent(s: State, m: Tagged) {
    exists k :: 0 <= k < |s.copies| && m in s.copies[k].msgs
  }

  ghost predicate Reachable(s: State) {
    Inv(s) && HeldWasSent(s) && forall m | m in s.log :: Sent(s, m)
  }

  lemma SendingIsNoted(s: State, a: Action)
    requires HeldWasSent(s)
    ensures HeldWasSent(Step(s, a))
  {
    var s' := Step(s, a);
    if s'.batch != [] && s'.phase != Sending && s'.phase != Broken {
      if Enabled(s, a) && a.Send? {
        assert s'.copies[|s.copies|].msgs == s'.batch;
      } else {
        var k :| 0 <= k < |s.copies| && s.copies[k].msgs == s.batch;
        assert s'.copies[k].msgs == s'.batch;
      }
    }
  }

  lemma SentStays(s: State, a: Action, m: Tagged)
    requires Sent(s, m)
    ensures Sent(Step(s, a), m)
  {
    var k :| 0 <= k < |s.copies| && m in s.copies[k].msgs;
    assert Step(s, a).copies[k].msgs == s.copies[k].msgs;
  }

  lemma LoggedWasSent(s: State, a: Action)
    requires forall m | m in s.log :: Sent(s, m)
    ensures forall m | m in Step(s, a).log :: Sent(Step(s, a), m)
  {
    forall m | m in Step(s, a).log
      ensures Sent(Step(s, a), m)
    {
      if m !in s.log {
        assert s.copies[a.k].msgs[s.copies[a.k].done] == m;
      }
      SentStays(s, a, m);
    }
  }

  lemma StepStaysReachable(s: State, a: Action)
    requires Reachable(s)
    ensures Reachable(Step(s, a))
  {
    hide Inv, HeldWasSent, Step, Sent;
    StepKeeps(s, a);
    SendingIsNoted(s, a);
    LoggedWasSent(s, a);
  }

  lemma {:induction false} RunStaysReachable(s: State, actions: seq<Action>)
    requires Reachable(s)
    ensures Reachable(Run(s, actions))
  {
    hide Reachable, Step;
    if actions != [] {
      RunStaysReachable(s, actions[..|actions| - 1]);
      StepStaysReachable(Run(s, actions[..|actions| - 1]), actions[|actions| - 1]);
    }
  }

  lemma RunIsReachable(actions: seq<Action>)
    ensures Reachable(Run(INIT, actions))
  {
    assert Reaches(INIT, 0);
    RunStaysReachable(INIT, actions);
  }

  // The sender can come back for what is in the queue: until the stop, and once more if it is past
  // its loop condition with nothing held.
  predicate Fillable(s: State) {
    !s.stop || (s.phase == Filling && s.batch == [])
  }

  // No attempt with this message has been made, and none can be made any more.
  predicate Unsendable(s: State, m: Tagged) {
    !Sent(s, m) && (!s.client || (m in s.queue && !Fillable(s)))
  }

  lemma QueuedIsNotHeld(s: State, m: Tagged)
    requires Inv(s) && m in s.queue
    ensures m !in s.batch
  {
    hide Parse, Firsts, AllParse, PhaseFits, CopiesFit;
    var queued := QueuePlace(s, m);
    forall i | 0 <= i < |s.batch| ensures s.batch[i] != m {
      assert s.accepted[|s.acked| + i] == s.batch[i];
    }
  }

  lemma UnsendableStays(s: State, a: Action, m: Tagged)
    requires Inv(s) && Unsendable(s, m)
    ensures Unsendable(Step(s, a), m)
  {
    hide Inv, Parse;
    var s' := Step(s, a);
    if m in s.queue {
      QueuedIsNotHeld(s, m);
    }
    forall k | 0 <= k < |s'.copies|
      ensures m !in s'.copies[k].msgs
    {
      if k < |s.copies| {
        assert s'.copies[k].msgs == s.copies[k].msgs;
      }
    }
  }

  lemma {:induction false} UnsendableForever(s: State, more: seq<Action>, m: Tagged)
    requires Reachable(s) && Unsendable(s, m)
    ensures Unsendable(Run(s, more), m) && m !in Run(s, more).log
  {
    hide Step, Inv, Sent;
    RunStaysReachable(s, more);
    if more != [] {
      UnsendableForever(s, more[..|more| - 1], m);
      RunStaysReachable(s, more[..|more| - 1]);
      UnsendableStays(Run(s, more[..|more| - 1]), more[|more| - 1], m);
    }
  }

  lemma RunsFirst(s: State, a: Action, more: seq<Action>)
    ensures Run(s, [a] + more) == Run(Step(s, a), more)
  {
    RunInParts(s, [a], more);
    RunMore(s, [], a);
    assert [] + [a] == [a];
  }

  // Whatever has happened, the receiver can work a copy through to its return.
  lemma {:induction false} CopyReturns(s: State, k: nat) returns (more: seq<Action>)
    requires k < |s.copies|
    ensures var s' := Run(s, more);
      && s' == s.(copies := s'.copies, log := s'.log) && |s'.copies| == |s.copies|
      && s'.copies[k].msgs == s.copies[k].msgs && s'.copies[k].returned
    decreases |s.copies[k].msgs| - s.copies[k].done, if s.copies[k].returned then 0 else 1
  {
    hide Parse, Run;
    more := [];
    assert Run(s, []) == s by { RunNothing(s); }
    if !s.copies[k].returned {
      var rest := CopyReturns(Step(s, Process(k)), k);
      RunsFirst(s, Process(k), rest);
      more := [Process(k)] + rest;
    }
  }

  lemma RunNothing(s: State)
    ensures Run(s, []) == s
  {
  }

  // Every message of a copy that returned has been processed.
  lemma ReturnedIsProcessed(s: State, k: nat, m: Tagged)
    requires Inv(s) && k < |s.copies| && s.copies[k].returned && m in s.copies[k].msgs
    ensures m in s.log
  {
    var reached: nat :| Reaches(s, reached);
    var c := s.copies[k];
    assert CopyFits(s.accepted, |s.acked|, Taken(s), c, reached);
    var i :| 0 <= i < |c.msgs| && c.msgs[i] == m;
    assert s.accepted[..reached][From(c) + i] == m;
    FirstsContain(s.log);
  }

  lemma SentCanBeProcessed(s: State, k: nat, m: Tagged) returns (more: seq<Action>)
    requires Reachable(s) && k < |s.copies| && m in s.copies[k].msgs
    ensures m in Run(s, more).log
  {
    hide Inv, HeldWasSent, Run;
    more := CopyReturns(s, k);
    RunStaysReachable(s, more);
    ReturnedIsProcessed(Run(s, more), k, m);
  }

  lemma BatchCanBeProcessed(s: State, m: Tagged) returns (more: seq<Action>)
    requires Reachable(s) && m in s.batch && s.client
    ensures m in Run(s, more).log
  {
    hide Inv, Run;
    if s.phase == Sending {
      var sent := Step(s, Send);
      StepStaysReachable(s, Send);
      assert sent.copies[|s.copies|].msgs == s.batch;
      var rest := SentCanBeProcessed(sent, |s.copies|, m);
      RunsFirst(s, Send, rest);
      more := [Send] + rest;
    } else {
      var k :| 0 <= k < |s.copies| && s.copies[k].msgs == s.batch;
      more := SentCanBeProcessed(s, k, m);
    }
  }

  // The steps to the next pop_all, counted down.
  function StepsToFill(s: State): nat {
    match s.phase
    case Testing => if s.batch == [] then 1 else 5
    case Filling => if s.batch == [] then 0 else 4
    case Sending => 3
    case Awaiting(_) => 2
    case Stopped => 0
    case Broken => 0
  }

  lemma PhaseMeans(s: State)
    requires Reachable(s)
    ensures PhaseFits(s) && (s.phase == Stopped ==> s.stop) && (s.phase == Broken ==> !s.client)
    ensures !s.client ==> s.stop
  {
  }

  lemma {:induction false} QueueCanBeProcessed(s: State, m: Tagged) returns (more: seq<Action>)
    requires Reachable(s) && m in s.queue && Fillable(s) && s.client
    ensures m in Run(s, more).log
    decreases StepsToFill(s)
  {
    hide Run, Reachable;
    PhaseMeans(s);
    match s.phase
    case Testing =>
      more := QueueLater(s, Test, m);
    case Sending =>
      more := QueueLater(s, Send, m);
    case Filling =>
      if s.batch == [] {
        StepStaysReachable(s, Fill);
        var rest := BatchCanBeProcessed(Step(s, Fill), m);
        RunsFirst(s, Fill, rest);
        more := [Fill] + rest;
      } else {
        more := QueueLater(s, Fill, m);
      }
    case Awaiting(k) =>
      var returning := CopyReturns(s, k);
      RunStaysReachable(s, returning);
      var rest := QueueLater(Run(s, returning), Succeed, m);
      RunInParts(s, returning, rest);
      more := returning + rest;
  }

  lemma {:induction false} QueueLater(s: State, a: Action, m: Tagged) returns (more: seq<Action>)
    requires Reachable(s) && m in s.queue && !s.stop && s.client && Enabled(s, a)
    requires a == Test || a == Send || a == Succeed || (a == Fill && s.batch != [])
    ensures m in Run(s, more).log
    decreases StepsToFill(s), 0
  {
    hide Run, Reachable;
    StepStaysReachable(s, a);
    var rest := QueueCanBeProcessed(Step(s, a), m);
    RunsFirst(s, a, rest);
    more := [a] + rest;
  }

  lemma AcceptedCanBeProcessed(s: State, m: Tagged) returns (more: seq<Action>)
    requires Reachable(s) && m in s.accepted && s.client && (m in s.queue ==> Fillable(s))
    ensures m in Run(s, more).log
  {
    hide Run;
    if m in s.queue {
      more := QueueCanBeProcessed(s, m);
    } else if m in s.batch {
      more := BatchCanBeProcessed(s, m);
    } else {
      var n :| Reaches(s, n);
      AckedIsReached(s, n, m);
      RunNothing(s);
      more := [];
    }
  }

  lemma SentPlace(s: State, m: Tagged) returns (at: nat)
    requires Inv(s) && Sent(s, m)
    ensures at < Taken(s) <= |s.accepted| && s.accepted[at] == m && at == m.id
  {
    hide Parse, Firsts, AllParse, PhaseFits;
    var n :| Reaches(s, n);
    var k :| 0 <= k < |s.copies| && m in s.copies[k].msgs;
    var c := s.copies[k];
    assert CopyFits(s.accepted, |s.acked|, Taken(s), c, n);
    var i :| 0 <= i < |c.msgs| && c.msgs[i] == m;
    at := From(c) + i;
    assert c.msgs[i] == s.accepted[at];
  }

  lemma QueuePlace(s: State, m: Tagged) returns (at: nat)
    requires Inv(s) && m in s.queue
    ensures Taken(s) <= at < |s.accepted| && s.accepted[at] == m && at == m.id
  {
    hide Parse, Firsts, AllParse, PhaseFits, CopiesFit;
    var j :| 0 <= j < |s.queue| && s.queue[j] == m;
    at := Taken(s) + j;
    assert s.accepted[at] == m;
  }

  lemma SentIsNotQueued(s: State, m: Tagged)
    requires Inv(s) && Sent(s, m)
    ensures m !in s.queue
  {
    hide Inv, Sent;
    var sent := SentPlace(s, m);
    if m in s.queue {
      var queued := QueuePlace(s, m);
      assert false;
    }
  }

  // An accepted message is processed in some continuation of a run exactly if an attempt with it
  // has been made, or if the client is still there and the sender holds the message or can come
  // back for it. While the client is there, a stop loses what the sender will not come back for; once
  // the client is reset, everything that was never sent is lost.
  lemma ProcessableExactly(actions: seq<Action>, m: Tagged)
    requires m in Run(INIT, actions).accepted
    ensures var s := Run(INIT, actions);
      && ((exists more :: m in Run(s, more).log) <==> Sent(s, m) || (s.client && (m in s.queue ==> Fillable(s))))
      && (s.client ==> ((exists more :: m in Run(s, more).log) <==> (m in s.queue ==> Fillable(s))))
  {
    hide Reachable, Run, Inv, Fillable;
    var s := Run(INIT, actions);
    RunIsReachable(actions);
    RunKeeps(actions);
    if Sent(s, m) {
      SentIsNotQueued(s, m);
      var k :| 0 <= k < |s.copies| && m in s.copies[k].msgs;
      var more := SentCanBeProcessed(s, k, m);
    } else if s.client && (m in s.queue ==> Fillable(s)) {
      var more := AcceptedCanBeProcessed(s, m);
    } else {
      forall more ensures m !in Run(s, more).log {
        UnsendableForever(s, more, m);
      }
    }
  }

  // ---- Where the sender breaks ----

  // The states from which the loop can still run into the missing client.
  predicate Breakable(s: State) {
    match s.phase
    case Testing => !s.stop
    case Filling => !s.stop || s.batch != [] || s.queue != [] || s.pending != []
    case Sending => true
    case Awaiting(_) => !s.stop
    case Stopped => false
    case Broken => true
  }

  lemma {:induction false} SafeForever(s: State, more: seq<Action>)
    requires !Breakable(s)
    ensures !Breakable(Run(s, more))
  {
    if more != [] {
      SafeForever(s, more[..|more| - 1]);
    }
  }

  function StepsToBreak(s: State): nat {
    match s.phase
    case Awaiting(_) => 6
    case Testing => 5
    case Filling => if s.batch != [] || s.queue != [] then 2 else if s.pending != [] then 3 else 4
    case Sending => 1
    case Stopped => 0
    case Broken => 0
  }

  lemma {:induction false} CanBreak(s: State) returns (more: seq<Action>)
    requires Breakable(s)
    ensures Run(s, more).phase == Broken
    decreases StepsToBreak(s)
  {
    hide Run, Parse;
    match s.phase
    case Broken =>
      RunNothing(s);
      more := [];
    case Awaiting(_) => more := BreakLater(s, Action.Fail);
    case Testing => more := BreakLater(s, Test);
    case Filling =>
      if s.batch != [] || s.queue != [] {
        more := BreakLater(s, Fill);
      } else if s.pending != [] {
        more := BreakLater(s, PushCommit(0));
      } else {
        var msg := SomeMessage();
        more := BreakLater(s, PushStart(msg));
      }
    case Sending =>
      more := SendingBreaks(s);
  }

  lemma SomeMessage() returns (msg: Bytes)
    ensures Parse(msg).Some?
  {
    msg := Direct(0, 0, 0, 0, false, []);
    DirectRoundTrip(0, 0, 0, 0, false, []);
  }

  lemma SendingBreaks(s: State) returns (more: seq<Action>)
    requires s.phase == Sending
    ensures Run(s, more).phase == Broken
  {
    hide Run;
    var stopped := Step(s, Shutdown);
    var reset := Step(stopped, Reset);
    RunNothing(Step(reset, Send));
    RunsFirst(reset, Send, []);
    RunsFirst(stopped, Reset, [Send] + []);
    RunsFirst(s, Shutdown, [Reset] + ([Send] + []));
    more := [Shutdown] + ([Reset] + ([Send] + []));
  }

  lemma {:induction false} BreakLater(s: State, a: Action) returns (more: seq<Action>)
    requires Breakable(Step(s, a)) && StepsToBreak(Step(s, a)) < StepsToBreak(s)
    ensures Run(s, more).phase == Broken
    decreases StepsToBreak(s), 0
  {
    hide Run, Step;
    var rest := CanBreak(Step(s, a));
    RunsFirst(s, a, rest);
    more := [a] + rest;
  }

  // A shutdown can make the loop dereference the null pointer until it is safe from it: ended, or,
  // after the stop, before its condition, waiting for a reply, or past the condition with nothing
  // there, or on its way, to send.
  lemma BreaksExactly(s: State)
    ensures (exists more :: Run(s, more).phase == Broken) <==> Breakable(s)
  {
    hide Run;
    if Breakable(s) {
      var more := CanBreak(s);
    } else {
      forall more ensures Run(s, more).phase != Broken {
        SafeForever(s, more);
      }
    }
  }

  // ---- Repeats ----

  function Covers(c: Copy, id: nat, upTo: nat): nat {
    if From(c) <= id < From(c) + upTo then 1 else 0
  }

  // Copies whose processing has passed message `id`, and copies that hold it at all: the attempts
  // made with its batch.
  function Passed(copies: seq<Copy>, id: nat): nat {
    if copies == [] then 0
    else Passed(copies[..|copies| - 1], id) + Covers(copies[|copies| - 1], id, copies[|copies| - 1].done)
  }

  function Attempts(copies: seq<Copy>, id: nat): nat {
    if copies == [] then 0
    else Attempts(copies[..|copies| - 1], id) + Covers(copies[|copies| - 1], id, |copies[|copies| - 1].msgs|)
  }

  lemma {:induction false} PassedUpdate(copies: seq<Copy>, k: nat, c: Copy, id: nat)
    requires k < |copies|
    ensures Passed(copies[k := c], id)
         == Passed(copies, id) - Covers(copies[k], id, copies[k].done) + Covers(c, id, c.done)
  {
    var n := |copies| - 1;
    if k == n {
      assert copies[k := c][..n] == copies[..n];
    } else {
      PassedUpdate(copies[..n], k, c, id);
      assert copies[k := c][..n] == copies[..n][k := c];
    }
  }

  lemma PassedMore(copies: seq<Copy>, c: Copy, id: nat)
    ensures Passed(copies + [c], id) == Passed(copies, id) + Covers(c, id, c.done)
  {
    assert (copies + [c])[..|copies|] == copies;
  }

  lemma {:induction false} PassedByAttempts(copies: seq<Copy>, id: nat)
    requires forall k | 0 <= k < |copies| :: copies[k].done <= |copies[k].msgs|
    ensures Passed(copies, id) <= Attempts(copies, id)
  {
    if copies != [] {
      PassedByAttempts(copies[..|copies| - 1], id);
    }
  }

  function Times(log: seq<Tagged>, id: nat): nat {
    if log == [] then 0 else Times(log[..|log| - 1], id) + if log[|log| - 1].id == id then 1 else 0
  }

  // Every occurrence in the log is one copy's passing.
  lemma StepCounts(s: State, a: Action, id: nat)
    requires Inv(s) && Times(s.log, id) == Passed(s.copies, id)
    ensures Times(Step(s, a).log, id) == Passed(Step(s, a).copies, id)
  {
    hide Times, Passed, Inv, Parse;
    if Enabled(s, a) {
      if a.Send? && s.client {
        PassedMore(s.copies, Copy(s.batch, 0, false), id);
      } else if a.Process? {
        ProcessCounts(s, a.k, id);
      }
    }
  }

  lemma ProcessCounts(s: State, k: nat, id: nat)
    requires Inv(s) && Enabled(s, Process(k)) && Times(s.log, id) == Passed(s.copies, id)
    ensures Times(Processed(s, k).log, id) == Passed(Processed(s, k).copies, id)
  {
    hide Firsts, Parse, Times, Passed, Inv;
    var c := s.copies[k];
    PassedUpdate(s.copies, k, Processed(s, k).copies[k], id);
    if c.done < |c.msgs| {
      NextMessage(s, k);
      TimesMore(s.log, c.msgs[c.done], id);
    }
  }

  lemma TimesMore(log: seq<Tagged>, m: Tagged, id: nat)
    ensures Times(log + [m], id) == Times(log, id) + if m.id == id then 1 else 0
  {
    assert (log + [m])[..|log|] == log;
  }

  lemma {:induction false} RunCounts(actions: seq<Action>, id: nat)
    ensures Times(Run(INIT, actions).log, id) == Passed(Run(INIT, actions).copies, id)
  {
    if actions != [] {
      var before := actions[..|actions| - 1];
      RunKeeps(before);
      RunCounts(before, id);
      StepCounts(Run(INIT, before), actions[|actions| - 1], id);
    }
  }

  // Duplicates are possible, but a message is processed at most as often as its batch was sent.
  lemma RepeatsAreAttempts(actions: seq<Action>, id: nat)
    ensures var s := Run(INIT, actions); Times(s.log, id) <= Attempts(s.copies, id)
  {
    RunKeeps(actions);
    RunCounts(actions, id);
    var s := Run(INIT, actions);
    var n :| Reaches(s, n);
    assert forall k | 0 <= k < |s.copies| :: CopyFits(s.accepted, |s.acked|, Taken(s), s.copies[k], n);
    PassedByAttempts(s.copies, id);
  }

  function Places(log: seq<Tagged>, id: nat): set<nat> {
    set i: nat | i < |log| && log[i].id == id
  }

  predicate Has(c: Copy, id: nat) {
    exists m :: m in c.msgs && m.id == id
  }

  function Holders(copies: seq<Copy>, id: nat): set<nat> {
    set k: nat | k < |copies| && Has(copies[k], id)
  }

  lemma {:induction false} TimesArePlaces(log: seq<Tagged>, id: nat)
    ensures Times(log, id) == |Places(log, id)|
  {
    if log == [] {
      assert Places(log, id) == {};
    } else {
      var n := |log| - 1;
      TimesArePlaces(log[..n], id);
      assert Places(log, id) == Places(log[..n], id) + if log[n].id == id then {n} else {};
    }
  }

  lemma {:induction false} AttemptsAreHolders(accepted: seq<Tagged>, acked: nat, taken: nat, copies: seq<Copy>,
                                              reached: nat, id: nat)
    requires Labelled(accepted) && CopiesFit(accepted, acked, taken, copies, reached)
    ensures Attempts(copies, id) == |Holders(copies, id)|
  {
    hide Parse, CopyFits, Labelled, Covers, Has;
    if copies == [] {
      assert Holders(copies, id) == {};
    } else {
      var n := |copies| - 1;
      var most, c := copies[..n], copies[n];
      AttemptsAreHolders(accepted, acked, taken, most, reached, id);
      CoversExactly(accepted, acked, taken, c, reached, id);
      HoldersGrow(copies, id);
    }
  }

  lemma HoldersGrow(copies: seq<Copy>, id: nat)
    requires copies != []
    ensures var n := |copies| - 1;
      |Holders(copies, id)| == |Holders(copies[..n], id)| + if Has(copies[n], id) then 1 else 0
  {
    hide Has;
    var n := |copies| - 1;
    assert Holders(copies, id) == Holders(copies[..n], id) + if Has(copies[n], id) then {n} else {};
  }

  lemma CoversExactly(accepted: seq<Tagged>, acked: nat, taken: nat, c: Copy, reached: nat, id: nat)
    requires Labelled(accepted) && CopyFits(accepted, acked, taken, c, reached)
    ensures Covers(c, id, |c.msgs|) == if Has(c, id) then 1 else 0
  {
    hide Parse;
    forall j | 0 <= j < |c.msgs|
      ensures c.msgs[j].id == From(c) + j
    {
      assert c.msgs[j] == accepted[From(c) + j];
    }
    if From(c) <= id < From(c) + |c.msgs| {
      assert c.msgs[id - From(c)].id == id;
    }
  }

  // Counted in places: a message stands in the log at most as often as there are copies that
  // hold it.
  lemma RepeatsAreCounted(actions: seq<Action>, id: nat)
    ensures var s := Run(INIT, actions); |Places(s.log, id)| <= |Holders(s.copies, id)|
  {
    RunKeeps(actions);
    RepeatsAreAttempts(actions, id);
    var s := Run(INIT, actions);
    var n :| Reaches(s, n);
    TimesArePlaces(s.log, id);
    AttemptsAreHolders(s.accepted, |s.acked|, Taken(s), s.copies, n, id);
  }

  // And repeats do happen: a batch whose first attempt only lost its reply is processed twice.
  lemma DuplicatesHappen(bytes: Bytes)
    requires Parse(bytes).Some?
    ensures exists actions :: Times(Run(INIT, actions).log, 0) == 2
  {
    hide Run;
    var m := Tagged(0, bytes);
    var actions := ProcessedTwice(bytes);
    assert Run(INIT, actions).log == [m] + [m];
    TimesMore([m], m, 0);
    TimesMore([], m, 0);
    assert [] + [m] == [m];
  }

  lemma ProcessedTwice(bytes: Bytes) returns (actions: seq<Action>)
    requires Parse(bytes).Some?
    ensures Run(INIT, actions).log == [Tagged(0, bytes), Tagged(0, bytes)]
  {
    hide Parse, Run;
    var m := Tagged(0, bytes);
    actions := ProcessedOnce(bytes);
    var s := Run(INIT, actions);
    var again := s.(phase := Sending);
    var sent := again.(phase := Awaiting(1), copies := [Copy([m], 1, false), Copy([m], 0, false)]);
    actions := RunOne(actions, s, Test, s.(phase := Filling));
    actions := RunOne(actions, s.(phase := Filling), Fill, again);
    actions := RunOne(actions, again, Send, sent);
    actions := RunOne(actions, sent, Process(1), Processed(sent, 1));
  }

  lemma ProcessedOnce(bytes: Bytes) returns (actions: seq<Action>)
    requires Parse(bytes).Some?
    ensures var m := Tagged(0, bytes);
      Run(INIT, actions) == State(false, true, [], [], Testing, [m], [Copy([m], 1, false)], [m], [m], [])
  {
    hide Parse;
    var m := Tagged(0, bytes);
    var sending := State(false, true, [], [], Sending, [m], [], [], [m], []);
    actions := PushedAndFilled(bytes);
    var sent := sending.(copies := [Copy([m], 0, false)], phase := Awaiting(0));
    actions := RunOne(actions, sending, Send, sent);
    actions := RunOne(actions, sent, Process(0), Processed(sent, 0));
    actions := RunOne(actions, Processed(sent, 0), Fail, Processed(sent, 0).(phase := Testing));
  }

  lemma PushedAndFilled(bytes: Bytes) returns (actions: seq<Action>)
    requires Parse(bytes).Some?
    ensures var m := Tagged(0, bytes);
      Run(INIT, actions) == State(false, true, [], [], Sending, [m], [], [], [m], [])
  {
    hide Parse;
    var m := Tagged(0, bytes);
    var pending := INIT.(pending := [bytes]);
    var queued := INIT.(queue := [m], accepted := [m]);
    actions := RunOne([], INIT, PushStart(bytes), pending);
    actions := RunOne(actions, pending, PushCommit(0), queued);
    actions := RunOne(actions, queued, Test, queued.(phase := Filling));
    actions := RunOne(actions, queued.(phase := Filling), Fill, queued.(queue := [], batch := [m], phase := Sending));
  }

  // A stop right after a push: the message is accepted, and no continuation processes it.
  lemma LossHappens(bytes: Bytes) returns (actions: seq<Action>)
    requires Parse(bytes).Some?
    ensures var s, m := Run(INIT, actions), Tagged(0, bytes);
      s.phase == Stopped && m in s.accepted && forall more :: m !in Run(s, more).log
  {
    hide Parse, Run;
    var m := Tagged(0, bytes);
    var pending := INIT.(pending := [bytes]);
    var queued := INIT.(queue := [m], accepted := [m]);
    var stopped := queued.(stop := true);
    actions := RunOne([], INIT, PushStart(bytes), pending) by { RunNothing(INIT); }
    actions := RunOne(actions, pending, PushCommit(0), queued);
    actions := RunOne(actions, queued, Shutdown, stopped);
    actions := RunOne(actions, stopped, Test, stopped.(phase := Stopped));
    ProcessableExactly(actions, m);
  }

  // A shutdown that finds the sender with a batch it has popped and not sent: the batch is lost, and
  // the sender breaks.
  lemma LossByReset(bytes: Bytes) returns (actions: seq<Action>)
    requires Parse(bytes).Some?
    ensures var s, m := Run(INIT, actions), Tagged(0, bytes);
      && s.batch == [m] && s.phase == Sending && Step(s, Send).phase == Broken
      && forall more :: m !in Run(s, more).log
  {
    hide Parse, Run;
    var m := Tagged(0, bytes);
    actions := PushedAndFilled(bytes);
    var sending := Run(INIT, actions);
    var stopped := sending.(stop := true);
    actions := RunOne(actions, sending, Shutdown, stopped);
    actions := RunOne(actions, stopped, Reset, stopped.(client := false));
    ProcessableExactly(actions, m);
  }

  // A sender that stops with a batch it has no reply for: the batch may have been processed.
  lemma UnacknowledgedButProcessed(bytes: Bytes) returns (actions: seq<Action>)
    requires Parse(bytes).Some?
    ensures var s, m := Run(INIT, actions), Tagged(0, bytes);
      s.phase == Stopped && s.acked == [] && s.batch == [m] && s.log == [m]
  {
    hide Parse, Run;
    actions := ProcessedOnce(bytes);
    var s := Run(INIT, actions);
    actions := RunOne(actions, s, Shutdown, s.(stop := true));
    actions := RunOne(actions, s.(stop := true), Test, s.(stop := true, phase := Stopped));
  }

  lemma RunOne(actions: seq<Action>, s: State, a: Action, s': State) returns (more: seq<Action>)
    requires Run(INIT, actions) == s && Step(s, a) == s'
    ensures more == actions + [a] && Run(INIT, more) == s'
  {
    more := actions + [a];
    assert more[..|actions|] == actions;
  }
}
