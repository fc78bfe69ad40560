// The sender loop as it runs, with everything else happening between its steps.
module Sender {
  import opened Words
  import opened Wrappers
  import opened Framing
  import opened Delivery
  import opened CvQueue
  import opened Backlog

  // How one request ends. Ok is possible only after rpc_on_mq has returned at the receiver.
  datatype Reply = ConnectionError | CallError | Ok

  // One turn of the loop, as the outside decides it: what the others do before each of its steps,
  // and how the request ends.
  datatype Turn = Turn(beforeTest: seq<Action>, beforeSize: seq<Action>, beforePop: seq<Action>,
                       beforeSend: seq<Action>, beforeReply: seq<Action>, reply: Reply)

  predicate OfOthers(a: Action) {
    a.PushStart? || a.PushCommit? || a.Shutdown? || a.Reset? || a.Process?
  }

  predicate ByOthers(actions: seq<Action>) {
    forall a | a in actions :: OfOthers(a)
  }

  // ---- What one turn, and the whole loop, do to the state ----

  // The loop condition, the look at the queue's size, and pop_all unless a batch is held.
  function Gathered(s: State, t: Turn): State {
    var tested := Step(Run(s, t.beforeTest), Test);
    if tested.phase != Filling then tested
    else Step(Run(Run(tested, t.beforeSize), t.beforePop), Fill)
  }

  function SizeSeen(s: State, t: Turn): Option<nat> {
    var tested := Step(Run(s, t.beforeTest), Test);
    if tested.phase != Filling then None else Some(|Run(tested, t.beforeSize).queue|)
  }

  // One attempt, which breaks the loop if the client has gone. Only a reply that rpc_on_mq's return
  // has made possible counts as success.
  function Exchanged(s: State, t: Turn): State {
    var sent := Step(Run(s, t.beforeSend), Send);
    if sent.phase == Broken then sent
    else
      var waiting := Run(sent, t.beforeReply);
      Step(waiting, if t.reply.Ok? && Enabled(waiting, Succeed) then Succeed else Action.Fail)
  }

  function TurnOf(s: State, t: Turn): State {
    var gathered := Gathered(s, t);
    if gathered.phase == Sending then Exchanged(gathered, t) else gathered
  }

  // The loop is over, broken, or waits in pop_all, once a turn does not come back to its condition.
  function Loop(s: State, turns: seq<Turn>): State {
    if turns == [] then s else
      var before := Loop(s, turns[..|turns| - 1]);
      if before.phase == Testing then TurnOf(before, turns[|turns| - 1]) else before
  }

  function Sizes(s: State, turns: seq<Turn>): seq<nat> {
    if turns == [] then [] else
      var earlier, before := Sizes(s, turns[..|turns| - 1]), Loop(s, turns[..|turns| - 1]);
      var seen := SizeSeen(before, turns[|turns| - 1]);
      if before.phase == Testing && seen.Some? then earlier + [seen.value] else earlier
  }

  predicate TurnByOthers(t: Turn) {
    && ByOthers(t.beforeTest) && ByOthers(t.beforeSize) && ByOthers(t.beforePop)
    && ByOthers(t.beforeSend) && ByOthers(t.beforeReply)
  }

  // What the others cannot do: touch what the loop has in hand, make attempts, or take anything out
  // of the queue.
  predicate Leaves(s: State, later: State) {
    && later.batch == s.batch && later.acked == s.acked && later.phase == s.phase
    && s.queue <= later.queue && s.accepted <= later.accepted
    && |later.queue| - |s.queue| == |later.accepted| - |s.accepted|
    && |later.copies| == |s.copies| && (forall k | 0 <= k < |s.copies| :: later.copies[k].msgs == s.copies[k].msgs)
    && (s.stop ==> later.stop) && (later.client ==> s.client) && (!later.stop ==> later.client == s.client)
  }

  lemma StepLeaves(s: State, a: Action)
    requires OfOthers(a)
    ensures Leaves(s, Step(s, a))
  {
    hide Parse;
  }

  lemma {:induction false} OthersLeave(s: State, actions: seq<Action>)
    requires ByOthers(actions)
    ensures Leaves(s, Run(s, actions))
  {
    hide Step;
    if actions != [] {
      var most, a := actions[..|actions| - 1], actions[|actions| - 1];
      assert ByOthers(most) && OfOthers(a);
      OthersLeave(s, most);
      StepLeaves(Run(s, most), a);
    }
  }

  lemma {:induction false} LoopStays(s: State, turns: seq<Turn>, n: nat)
    requires n <= |turns| && Loop(s, turns[..n]).phase != Testing
    ensures Loop(s, turns) == Loop(s, turns[..n]) && Sizes(s, turns) == Sizes(s, turns[..n])
  {
    if n == |turns| {
      assert turns[..n] == turns;
    } else {
      var most := turns[..|turns| - 1];
      assert most[..n] == turns[..n];
      LoopStays(s, most, n);
    }
  }

  // Whatever happens between its steps, the loop is a run of the step system.
  lemma {:induction false} LoopIsARun(s: State, turns: seq<Turn>) returns (actions: seq<Action>)
    ensures Run(s, actions) == Loop(s, turns)
  {
    actions := [];
    if turns != [] {
      actions := LoopIsARun(s, turns[..|turns| - 1]);
      var before := Loop(s, turns[..|turns| - 1]);
      if before.phase == Testing {
        var more := TurnIsARun(before, turns[|turns| - 1]);
        RunInParts(s, actions, more);
        actions := actions + more;
      }
    }
  }

  lemma TurnIsARun(s: State, t: Turn) returns (actions: seq<Action>)
    ensures Run(s, actions) == TurnOf(s, t)
  {
    hide Step;
    RunNothing(s);
    actions := DidAll(s, [], t.beforeTest);
    actions := Did(s, actions, Test);
    if Step(Run(s, t.beforeTest), Test).phase == Filling {
      actions := DidAll(s, actions, t.beforeSize);
      actions := DidAll(s, actions, t.beforePop);
      actions := Did(s, actions, Fill);
    }
    var gathered := Gathered(s, t);
    if gathered.phase == Sending {
      actions := DidAll(s, actions, t.beforeSend);
      actions := Did(s, actions, Send);
      var sent := Step(Run(gathered, t.beforeSend), Send);
      if sent.phase != Broken {
        actions := DidAll(s, actions, t.beforeReply);
        var waiting := Run(sent, t.beforeReply);
        actions := Did(s, actions, if t.reply.Ok? && Enabled(waiting, Succeed) then Succeed else Action.Fail);
      }
    }
  }

  // What one turn does to what the loop has in hand. It either makes one attempt, with the batch it
  // held, or else with all that it found in the queue; or it makes none, and then it does not come
  // back. A success acknowledges exactly that batch and clears it, and nothing else does.
  ghost predicate TurnFits(s: State, next: State, reply: Reply) {
    var n := |s.copies|;
    if |next.copies| == n then
      && next.phase != Testing && next.acked == s.acked
      && (s.batch != [] ==> next.batch == s.batch)
    else
      && |next.copies| == n + 1 && next.phase == Testing
      && var sent := next.copies[n].msgs;
        && (if s.batch != [] then sent == s.batch else sent != [] && s.queue <= sent)
        && (if reply.Ok? && next.copies[n].returned then next.acked == s.acked + sent && next.batch == []
          else next.acked == s.acked && next.batch == sent)
  }

  lemma GatheredMeans(s: State, t: Turn)
    requires s.phase == Testing && TurnByOthers(t)
    ensures var g := Gathered(s, t);
      && g.acked == s.acked && |g.copies| == |s.copies| && g.phase != Testing && g.phase != Broken
      && (s.batch != [] ==> g.batch == s.batch)
      && (s.batch == [] && g.phase == Sending ==> s.queue <= g.batch && g.batch != [] && g.queue == [])
      && (s.stop ==> g.phase == Stopped)
      && (!g.stop && (s.batch != [] || s.queue != []) ==> g.phase == Sending)
      && (g.client ==> s.client) && (!g.stop ==> g.client == s.client) && s.accepted <= g.accepted
  {
    hide Run;
    OthersLeave(s, t.beforeTest);
    var tested := Step(Run(s, t.beforeTest), Test);
    if tested.phase == Filling {
      OthersLeave(tested, t.beforeSize);
      OthersLeave(Run(tested, t.beforeSize), t.beforePop);
    }
  }

  // The size seen lies between what was there before the turn and what was ever there in it.
  lemma SizeMeans(s: State, t: Turn)
    requires s.phase == Testing && TurnByOthers(t)
    ensures var g, size := Gathered(s, t), SizeSeen(s, t);
      && (s.stop ==> size.None?) && (!g.stop ==> size.Some?)
      && (size.Some? ==> |s.queue| <= size.value <= |g.accepted| - |s.accepted| + |s.queue|)
  {
    hide Run;
    OthersLeave(s, t.beforeTest);
    var tested := Step(Run(s, t.beforeTest), Test);
    if tested.phase == Filling {
      OthersLeave(tested, t.beforeSize);
      OthersLeave(Run(tested, t.beforeSize), t.beforePop);
    }
  }

  lemma ExchangedMeans(s: State, t: Turn)
    requires s.phase == Sending && TurnByOthers(t)
    ensures var next := Exchanged(s, t);
      var n := |s.copies|;
      if next.phase == Broken then
        next.acked == s.acked && |next.copies| == n && next.batch == s.batch && !next.client
      else
        && next.phase == Testing && |next.copies| == n + 1 && next.copies[n].msgs == s.batch
        && (if t.reply.Ok? && next.copies[n].returned then next.acked == s.acked + s.batch && next.batch == []
          else next.acked == s.acked && next.batch == s.batch)
    ensures !Exchanged(s, t).stop && s.client ==> Exchanged(s, t).phase == Testing
    ensures s.stop ==> Exchanged(s, t).stop
    ensures s.accepted <= Exchanged(s, t).accepted
  {
    hide Run;
    OthersLeave(s, t.beforeSend);
    var sent := Step(Run(s, t.beforeSend), Send);
    OthersLeave(sent, t.beforeReply);
  }

  lemma TurnAcknowledges(start: State, turns: seq<Turn>, t: Turn)
    requires Loop(start, turns).phase == Testing && TurnByOthers(t)
    ensures var s, next := Loop(start, turns), Loop(start, turns + [t]);
      && TurnFits(s, next, t.reply)
      && (s.stop ==> next.phase == Stopped)
      && (!next.stop && s.client && (s.batch != [] || s.queue != []) ==> |next.copies| == |s.copies| + 1)
    ensures var s, next := Loop(start, turns), Loop(start, turns + [t]);
      var sizes, seen := Sizes(start, turns), Sizes(start, turns + [t]);
      && (sizes == seen || exists size: nat ::
        seen == sizes + [size] && |s.queue| <= size <= |next.accepted| - |s.accepted| + |s.queue|)
      && (s.stop ==> seen == sizes) && (!next.stop ==> seen != sizes)
  {
    assert (turns + [t])[..|turns|] == turns;
    var s := Loop(start, turns);
    assert Loop(start, turns + [t]) == TurnOf(s, t);
    var size := SizeSeen(s, t);
    assert Sizes(start, turns + [t]) == Sizes(start, turns) + if size.Some? then [size.value] else [];
    hide Gathered, Exchanged, Loop, Sizes, SizeSeen;
    GatheredMeans(s, t);
    SizeMeans(s, t);
    if Gathered(s, t).phase == Sending {
      ExchangedMeans(Gathered(s, t), t);
    }
  }

  // So from whatever the others have done before its first turn, the loop delivers at least once
  // and in order, and loses nothing.
  lemma LoopDelivers(others: seq<Action>, turns: seq<Turn>) returns (n: nat)
    ensures var s := Loop(Run(INIT, others), turns);
      && |s.acked| <= n <= |s.acked| + |s.batch| <= |s.accepted| && Firsts(s.log) == s.accepted[..n]
      && s.accepted == s.acked + s.batch + s.queue
  {
    var actions := LoopIsARun(Run(INIT, others), turns);
    RunInParts(INIT, others, actions);
    n := FirstDeliveriesInOrder(others + actions);
    NothingIsLost(others + actions);
  }

  lemma {:induction false} SizesAreFewer(s: State, turns: seq<Turn>)
    ensures |Sizes(s, turns)| <= |turns|
  {
    if turns != [] {
      SizesAreFewer(s, turns[..|turns| - 1]);
    }
  }

  // If the loop never sees more than `bound` messages in the queue, in the units of WarningsAreFew,
  // at most half of its turns end in a warning, apart from K.
  lemma LoopWarnsSeldom(s: State, turns: seq<Turn>, bound: nat, K: nat)
    requires forall n | n in Sizes(s, turns) :: n <= bound
    requires K > 0 && LEAST * Power(K - 1) <= bound < LEAST * Power(K) && 2 * bound < SIZE_RANGE
    ensures 2 * Warnings(Sizes(s, turns)) <= |turns| + K && Threshold(Sizes(s, turns)) <= 2 * bound
  {
    SizesAreFewer(s, turns);
    var level := WarningsAreFew(Sizes(s, turns), bound, K);
  }

  // The queue towards one node, with the other side of the wire.
  class Link {
    const queue: Queue<Tagged>
    var client: bool
    var pending: seq<Bytes>
    var accepted: nat  // counts the appends, for the labels
    var copies: seq<Copy>
    var log: seq<Tagged>
    ghost var phase: Phase
    ghost var batch: seq<Tagged>  // the loop's msgs
    ghost var acked: seq<Tagged>

    ghost predicate Valid()
      reads this, queue
    {
      queue.Valid() && accepted == |queue.pushed|
    }

    ghost function View(): State
      reads this, queue
    {
      State(queue.stop, client, pending, queue.items, phase, batch, copies, log, queue.pushed, acked)
    }

    constructor ()
      ensures fresh(queue) && Valid() && View() == INIT
    {
      queue := new Queue();
      client := true;
      pending, accepted, copies, log := [], 0, [], [];
      phase, batch, acked := Testing, [], [];
    }

    // One action of somebody else.
    method Other(a: Action)
      requires Valid() && OfOthers(a)
      modifies this`client, this`pending, this`accepted, this`copies, this`log, queue
      ensures Valid() && View() == Step(old(View()), a)
    {
      match a {
        case PushStart(bytes) =>
          var ok := queue.MayPush();
          if Parse(bytes).Some? && ok {
            pending := pending + [bytes];
          }
        case PushCommit(k) =>
          if k < |pending| {
            Commit(k);
          }
        case Shutdown =>
          var first := queue.Shutdown();
        case Reset =>
          if queue.stop {
            client := false;
          }
        case Process(k) =>
          if k < |copies| && !copies[k].returned {
            ProcessNext(k);
          }
      }
    }

    method Commit(k: nat)
      requires Valid() && k < |pending|
      modifies this`pending, this`accepted, queue
      ensures Valid() && View() == Step(old(View()), PushCommit(k))
    {
      var bytes := pending[k];
      pending := pending[..k] + pending[k + 1..];
      queue.Append(Tagged(accepted, bytes));
      accepted := accepted + 1;
    }

    method ProcessNext(k: nat)
      requires Valid() && k < |copies| && !copies[k].returned
      modifies this`copies, this`log
      ensures Valid() && View() == Processed(old(View()), k)
    {
      var c := copies[k];
      if c.done >= |c.msgs| || Parse(c.msgs[c.done].bytes).None? {
        copies := copies[k := c.(returned := true)];
      } else {
        log := log + [c.msgs[c.done]];
        copies := copies[k := c.(done := c.done + 1)];
      }
    }

    method Others(actions: seq<Action>)
      requires Valid() && ByOthers(actions)
      modifies this`client, this`pending, this`accepted, this`copies, this`log, queue
      ensures Valid() && View() == Run(old(View()), actions)
    {
      var i := 0;
      while i < |actions|
        invariant 0 <= i <= |actions| && Valid()
        invariant View() == Run(old(View()), actions[..i])
      {
        Other(actions[i]);
        RunMore(old(View()), actions[..i], actions[i]);
        assert actions[..i + 1] == actions[..i] + [actions[i]];
        i := i + 1;
      }
      assert actions[..|actions|] == actions;
    }

    // The steps of the loop itself.

    method TestStop() returns (stopped: bool)
      requires Valid() && phase == Testing
      modifies this`phase
      ensures Valid() && View() == Step(old(View()), Test) && stopped == queue.stop
    {
      stopped := queue.stop;
      phase := if stopped then Stopped else Filling;
    }

    method TakeAll(held: seq<Tagged>) returns (msgs: seq<Tagged>)
      requires Valid() && phase == Filling && batch == held && (held != [] || queue.Ready())
      modifies this`phase, this`batch, queue
      ensures Valid() && View() == Step(old(View()), Fill) && batch == msgs
      ensures msgs == [] <==> phase == Stopped
    {
      msgs := held;
      if msgs == [] {
        msgs := queue.PopAll();
      }
      batch := msgs;
      phase := if msgs == [] then Stopped else Sending;
    }

    // The request, unless there is no client to make it: then the loop does not come back.
    method SendBatch(msgs: seq<Tagged>) returns (sent: bool, copy: nat)
      requires Valid() && phase == Sending && batch == msgs
      modifies this`phase, this`copies
      ensures Valid() && View() == Step(old(View()), Send) && batch == msgs
      ensures if sent then phase == Awaiting(copy) && copy < |copies| else phase == Broken
    {
      sent, copy := client, |copies|;
      if client {
        copies := copies + [Copy(msgs, 0, false)];
        phase := Awaiting(copy);
      } else {
        phase := Broken;
      }
    }

    // The reply: an error keeps msgs for the next turn, success clears it.
    method TakeReply(msgs: seq<Tagged>, copy: nat, reply: Reply) returns (kept: seq<Tagged>)
      requires Valid() && phase == Awaiting(copy) && batch == msgs
      modifies this`phase, this`batch, this`acked
      ensures var before := old(View());
        View() == Step(before, if reply.Ok? && Enabled(before, Succeed) then Succeed else Action.Fail)
      ensures Valid() && batch == kept && phase == Testing
    {
      phase := Testing;
      if reply.Ok? && copy < |copies| && copies[copy].returned {
        acked := acked + msgs;
        batch := [];
        return [];
      }
      return msgs;
    }

    // From the loop condition to a batch to send: `go` says that there is one. The loop ends here
    // if it finds the queue stopped, if pop_all comes back with nothing, or waiting in pop_all.
    method Gather(held: seq<Tagged>, turn: Turn) returns (go: bool, msgs: seq<Tagged>, size: Option<nat>)
      requires Valid() && phase == Testing && batch == held && TurnByOthers(turn)
      modifies this, queue
      ensures Valid() && View() == Gathered(old(View()), turn) && size == SizeSeen(old(View()), turn)
      ensures go <==> phase == Sending
      ensures batch == msgs && (go ==> size.Some?) && phase != Testing
      ensures held != [] ==> msgs == held
      ensures held == [] ==> (go <==> msgs != []) && (go ==> old(queue.items) <= msgs && queue.items == [])
      ensures size.Some? ==>
        |old(queue.items)| <= size.value <= |queue.pushed| - |old(queue.pushed)| + |old(queue.items)|
      ensures old(queue.stop) ==> size.None?
      ensures !queue.stop ==> size.Some? && (held != [] || old(queue.items) != [] ==> go)
    {
      go, msgs, size := false, held, None;
      GatheredMeans(View(), turn);
      SizeMeans(View(), turn);
      Others(turn.beforeTest);
      var stopped := TestStop();
      if stopped {
        return;
      }
      Others(turn.beforeSize);
      var n := queue.Size();
      size := Some(n);
      Others(turn.beforePop);
      if msgs != [] || queue.Ready() {
        msgs := TakeAll(msgs);
        go := msgs != [];
      }
    }

    // One attempt at the batch.
    method Exchange(msgs: seq<Tagged>, turn: Turn) returns (sent: bool, kept: seq<Tagged>)
      requires Valid() && phase == Sending && batch == msgs && TurnByOthers(turn)
      modifies this, queue
      ensures Valid() && View() == Exchanged(old(View()), turn)
      ensures batch == kept && phase == if sent then Testing else Broken
      ensures sent ==> |copies| == |old(copies)| + 1 && copies[|old(copies)|].msgs == msgs
      ensures if sent && turn.reply.Ok? && copies[|old(copies)|].returned
        then kept == [] && acked == old(acked) + msgs
        else kept == msgs && acked == old(acked)
      ensures old(client) && !queue.stop ==> sent
    {
      ExchangedMeans(View(), turn);
      Others(turn.beforeSend);
      var copy;
      sent, copy := SendBatch(msgs);
      if !sent {
        return sent, msgs;
      }
      Others(turn.beforeReply);
      kept := TakeReply(msgs, copy, turn.reply);
    }

    // The whole loop, for as many turns as are given.
    method NodeMqSpawn(turns: seq<Turn>) returns (threshold: nat, warnings: nat)
      requires Valid() && phase == Testing && batch == []
      requires forall t | t in turns :: TurnByOthers(t)
      modifies this, queue
      ensures Valid() && View() == Loop(old(View()), turns)
      ensures threshold == Threshold(Sizes(old(View()), turns))
      ensures warnings == Warnings(Sizes(old(View()), turns))
    {
      hide Gathered, Exchanged, SizeSeen, Threshold, Warnings;
      var msgs := [];
      threshold, warnings := LEAST, 0;
      ghost var start := View();
      NothingNoted();
      var i := 0;
      while i < |turns|
        invariant 0 <= i <= |turns|
        invariant Valid() && View() == Loop(start, turns[..i])
        invariant phase == Testing && batch == msgs
        invariant threshold == Threshold(Sizes(start, turns[..i]))
        invariant warnings == Warnings(Sizes(start, turns[..i]))
      {
        assert turns[..i + 1][..i] == turns[..i];
        var go, size;
        go, msgs, size := Gather(msgs, turns[i]);
        if size.Some? {
          Noted(Sizes(start, turns[..i]), size.value);
          if size.value >= threshold {
            warnings := warnings + 1;
          }
          threshold := Next(threshold, size.value);
        }
        if !go {
          LoopStays(start, turns, i + 1);
          return;
        }
        var sent;
        sent, msgs := Exchange(msgs, turns[i]);
        if !sent {
          LoopStays(start, turns, i + 1);
          return;
        }
        i := i + 1;
      }
      assert turns[..|turns|] == turns;
    }
  }

  lemma Did(s: State, actions: seq<Action>, a: Action) returns (more: seq<Action>)
    ensures more == actions + [a] && Run(s, more) == Step(Run(s, actions), a)
  {
    more := actions + [a];
    RunMore(s, actions, a);
  }

  lemma DidAll(s: State, actions: seq<Action>, next: seq<Action>) returns (more: seq<Action>)
    ensures more == actions + next && Run(s, more) == Run(Run(s, actions), next)
  {
    more := actions + next;
    RunInParts(s, actions, next);
  }

  lemma Noted(sizes: seq<nat>, size: nat)
    ensures Threshold(sizes + [size]) == Next(Threshold(sizes), size)
    ensures Warnings(sizes + [size]) == Warnings(sizes) + if size >= Threshold(sizes) then 1 else 0
  {
    assert (sizes + [size])[..|sizes|] == sizes;
  }

  lemma NothingNoted()
    ensures Threshold([]) == LEAST && Warnings([]) == 0
  {
  }
}
