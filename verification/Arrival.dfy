// Delivery and routing together: what the inbox of one context on the receiving node gets.
module Arrival {
  import opened Words
  import opened Wrappers
  import opened Framing
  import opened Handles
  import opened Routing
  import opened Delivery

  function BytesOf(msgs: seq<Tagged>): seq<Bytes> {
    if msgs == [] then [] else BytesOf(msgs[..|msgs| - 1]) + [msgs[|msgs| - 1].bytes]
  }

  lemma {:induction false} BytesOfEach(msgs: seq<Tagged>)
    ensures |BytesOf(msgs)| == |msgs| && forall i | 0 <= i < |msgs| :: BytesOf(msgs)[i] == msgs[i].bytes
  {
    if msgs != [] {
      BytesOfEach(msgs[..|msgs| - 1]);
    }
  }

  predicate IsFor(n: Node, to: U32, m: Tagged) {
    Parse(m.bytes).Some? && Addressee(n, m.bytes) == to
  }

  // The messages that node n resolves to context `to`, in order.
  function For(n: Node, to: U32, msgs: seq<Tagged>): seq<Tagged> {
    if msgs == [] then [] else
      var m := msgs[|msgs| - 1];
      var earlier := For(n, to, msgs[..|msgs| - 1]);
      if IsFor(n, to, m) then earlier + [m] else earlier
  }

  lemma {:induction false} ForContains(n: Node, to: U32, msgs: seq<Tagged>, m: Tagged)
    ensures m in For(n, to, msgs) <==> m in msgs && IsFor(n, to, m)
  {
    if msgs != [] {
      ForContains(n, to, msgs[..|msgs| - 1], m);
      assert msgs == msgs[..|msgs| - 1] + [msgs[|msgs| - 1]];
    }
  }

  lemma ForMore(n: Node, to: U32, msgs: seq<Tagged>, m: Tagged)
    ensures For(n, to, msgs + [m]) == if IsFor(n, to, m) then For(n, to, msgs) + [m] else For(n, to, msgs)
  {
    assert (msgs + [m])[..|msgs|] == msgs;
  }

  // Picking out one context's messages and dropping repeats can be done in either order.
  lemma {:induction false} FirstsOfFor(n: Node, to: U32, msgs: seq<Tagged>)
    ensures Firsts(For(n, to, msgs)) == For(n, to, Firsts(msgs))
  {
    if msgs != [] {
      var earlier, m := msgs[..|msgs| - 1], msgs[|msgs| - 1];
      FirstsOfFor(n, to, earlier);
      ForContains(n, to, earlier, m);
      FirstsExtend(For(n, to, earlier), m);
      ForMore(n, to, Firsts(earlier), m);
    }
  }

  // Receiving leaves the names alone, so addressees do not change on the way.
  lemma {:induction false} ReceivedKeepsNames(n: Node, msgs: seq<Bytes>)
    ensures Received(n, msgs).names == n.names && Received(n, msgs).inboxes.Keys == n.inboxes.Keys
    decreases |msgs|
  {
    if msgs != [] && Parse(msgs[0]).Some? {
      ReceivedKeepsNames(ToInbox(n, Addressee(n, msgs[0]), msgs[0]), msgs[1..]);
    }
  }

  predicate TaggedParse(msgs: seq<Tagged>) {
    forall m | m in msgs :: Parse(m.bytes).Some?
  }

  lemma {:induction false} BytesParse(msgs: seq<Tagged>)
    requires TaggedParse(msgs)
    ensures AllParse(BytesOf(msgs))
  {
    if msgs != [] {
      BytesParse(msgs[..|msgs| - 1]);
    }
  }

  // A context's inbox grows by exactly its messages.
  lemma {:induction false} InboxGets(n: Node, to: U32, msgs: seq<Tagged>)
    requires TaggedParse(msgs) && to in n.inboxes
    ensures to in Received(n, BytesOf(msgs)).inboxes
    ensures Received(n, BytesOf(msgs)).inboxes[to] == n.inboxes[to] + BytesOf(For(n, to, msgs))
  {
    hide Received, Parse, Addressee;
    if msgs == [] {
      NothingReceived(n);
    } else {
      var earlier, m := msgs[..|msgs| - 1], msgs[|msgs| - 1];
      InboxGets(n, to, earlier);
      ReceivedMore(n, earlier, m);
      BytesMore(For(n, to, earlier), m);
      assert BytesOf(msgs) == BytesOf(earlier) + [m.bytes];
    }
  }

  lemma ReceivedMore(n: Node, msgs: seq<Tagged>, m: Tagged)
    requires TaggedParse(msgs) && Parse(m.bytes).Some?
    ensures Received(n, BytesOf(msgs) + [m.bytes])
         == ToInbox(Received(n, BytesOf(msgs)), Addressee(n, m.bytes), m.bytes)
  {
    BytesParse(msgs);
    ReceivedInParts(n, BytesOf(msgs), [m.bytes]);
    ReceivedKeepsNames(n, BytesOf(msgs));
    var before := Received(n, BytesOf(msgs));
    assert [m.bytes][1..] == [];
    assert Received(before, [m.bytes]) == ToInbox(before, Addressee(before, m.bytes), m.bytes);
  }

  lemma NothingReceived(n: Node)
    ensures Received(n, []) == n
  {
  }

  lemma BytesMore(msgs: seq<Tagged>, m: Tagged)
    ensures BytesOf(msgs + [m]) == BytesOf(msgs) + [m.bytes]
  {
    assert (msgs + [m])[..|msgs|] == msgs;
  }

  // End to end, for every run and every context of the receiving node: the context's inbox gets
  // its share of the log, and up to repeats that is its share of a prefix of what was accepted,
  // in push order, with everything acknowledged in it.
  lemma InboxInOrder(actions: seq<Action>, receiver: Node, to: U32) returns (n: nat)
    requires to in receiver.inboxes
    ensures var s := Run(INIT, actions);
      var after := Received(receiver, BytesOf(s.log));
      && to in after.inboxes && after.inboxes[to] == receiver.inboxes[to] + BytesOf(For(receiver, to, s.log))
      && |s.acked| <= n <= |s.accepted|
      && Firsts(For(receiver, to, s.log)) == For(receiver, to, s.accepted[..n])
  {
    n := FirstDeliveriesInOrder(actions);
    LogParses(actions);
    var s := Run(INIT, actions);
    InboxGets(receiver, to, s.log);
    FirstsOfFor(receiver, to, s.log);
  }

  lemma LogParses(actions: seq<Action>)
    ensures TaggedParse(Run(INIT, actions).log)
  {
    RunKeeps(actions);
    var s := Run(INIT, actions);
    forall m | m in s.log ensures Parse(m.bytes).Some? {
      AcknowledgedIsProcessed(actions, m);
      assert Labelled(s.accepted);
    }
  }

  // ---- From dispatch to inbox ----

  // The queue towards a node stands for all that its link has accepted.
  predicate Feeds(a: Node, node: Byte, s: State) {
    node in a.outboxes && a.outboxes[node] == BytesOf(s.accepted)
  }

  // Whatever a node pushes for another one, by handle or by name, waits until it is appended, which
  // may be much later, and is then what the link accepts.
  lemma PushedFeeds(a: Node, msg: Bytes, s: State, later: State, k: nat)
    requires Parse(msg).Some? && !s.stop && k < |later.pending| && later.pending[k] == msg
    requires var node := NodeOf(HeaderOf(msg).to); node != a.self && Feeds(a, node, later)
    ensures Step(s, PushStart(msg)) == s.(pending := s.pending + [msg])
    ensures Feeds(Pushed(a, msg), NodeOf(HeaderOf(msg).to), Step(later, PushCommit(k)))
  {
    hide Parse;
    BytesMore(later.accepted, Tagged(|later.accepted|, msg));
  }

  lemma {:induction false} AcceptedGrows(s: State, more: seq<Action>)
    ensures s.accepted <= Run(s, more).accepted
  {
    hide Step;
    if more != [] {
      AcceptedGrows(s, more[..|more| - 1]);
      StepAccepts(Run(s, more[..|more| - 1]), more[|more| - 1]);
    }
  }

  lemma StepAccepts(s: State, a: Action)
    ensures s.accepted <= Step(s, a).accepted
  {
    hide Parse;
  }

  lemma {:induction false} ForKeepsOrder(n: Node, to: U32, msgs: seq<Tagged>, i: nat, j: nat) returns (p: nat, q: nat)
    requires i < j < |msgs| && IsFor(n, to, msgs[i]) && IsFor(n, to, msgs[j])
    ensures var mine := For(n, to, msgs); p < q < |mine| && mine[p] == msgs[i] && mine[q] == msgs[j]
  {
    hide IsFor;
    var earlier := msgs[..|msgs| - 1];
    if j == |msgs| - 1 {
      assert earlier[i] == msgs[i];
      ForContains(n, to, earlier, msgs[i]);
      p :| 0 <= p < |For(n, to, earlier)| && For(n, to, earlier)[p] == msgs[i];
      q := |For(n, to, earlier)|;
    } else {
      p, q := ForKeepsOrder(n, to, earlier, i, j);
    }
  }

  // In every run, of two accepted messages for one context: once the receiver has processed the
  // second, both have reached the context's inbox, up to repeats in the order of acceptance.
  lemma AcceptedInOrder(actions: seq<Action>, receiver: Node, to: U32, i: nat, j: nat) returns (p: nat, q: nat)
    requires i < j < |Run(INIT, actions).accepted|
    requires var accepted := Run(INIT, actions).accepted;
      IsFor(receiver, to, accepted[i]) && IsFor(receiver, to, accepted[j])
    ensures var s := Run(INIT, actions);
      var inbox := Firsts(For(receiver, to, s.log));
      s.accepted[j] in s.log ==> p < q < |inbox| && inbox[p] == s.accepted[i] && inbox[q] == s.accepted[j]
  {
    hide Run, Firsts, IsFor, Inv;
    var s := Run(INIT, actions);
    var n := FirstDeliveriesInOrder(actions);
    p, q := 0, 0;
    if s.accepted[j] in s.log {
      FirstsContain(s.log);
      var at :| 0 <= at < n && s.accepted[..n][at] == s.accepted[j];
      RunKeeps(actions);
      LabelIsPlace(s, at);
      LabelIsPlace(s, j);
      FirstsOfFor(receiver, to, s.log);
      p, q := ForKeepsOrder(receiver, to, s.accepted[..n], i, j);
    }
  }

  lemma LabelIsPlace(s: State, j: nat)
    requires Inv(s) && j < |s.accepted|
    ensures s.accepted[j].id == j
  {
    assert Labelled(s.accepted);
  }

  // The append of the k-th waiting push, and whatever happens after it.
  function Appended(actions: seq<Action>, k: nat, after: seq<Action>): seq<Action> {
    actions + [PushCommit(k)] + after
  }

  lemma AppendedAccepts(actions: seq<Action>, k: nat, after: seq<Action>)
    requires k < |Run(INIT, actions).pending|
    ensures var s, s' := Run(INIT, actions), Run(INIT, Appended(actions, k, after));
      |s.accepted| < |s'.accepted| && s'.accepted[|s.accepted|] == Tagged(|s.accepted|, s.pending[k])
      && s.accepted <= s'.accepted
  {
    hide Run;
    var s := Run(INIT, actions);
    var next := Step(s, PushCommit(k));
    RunMore(INIT, actions, PushCommit(k));
    RunInParts(INIT, actions + [PushCommit(k)], after);
    AcceptedGrows(next, after);
    assert next.accepted == s.accepted + [Tagged(|s.accepted|, s.pending[k])];
  }

  // Two messages for one context, the first appended before the second, whatever happens before,
  // between and after, and between the stop test and the append of either: once the second is
  // processed, both have reached the inbox, up to repeats in the order of the appends.
  lemma PushesStayInOrder(before: seq<Action>, k: nat, between: seq<Action>, l: nat, after: seq<Action>,
                          receiver: Node, to: U32) returns (p: nat, q: nat)
    requires k < |Run(INIT, before).pending| && Addresses(receiver, to, Run(INIT, before).pending[k])
    requires var second := Run(INIT, Appended(before, k, between));
      l < |second.pending| && Addresses(receiver, to, second.pending[l])
    ensures var r1, r2 := Run(INIT, before), Run(INIT, Appended(before, k, between));
      var m1, m2 := Tagged(|r1.accepted|, r1.pending[k]), Tagged(|r2.accepted|, r2.pending[l]);
      var s := Run(INIT, Appended(Appended(before, k, between), l, after));
      var inbox := Firsts(For(receiver, to, s.log));
      m2 in s.log ==> p < q < |inbox| && inbox[p] == m1 && inbox[q] == m2
  {
    hide Run, Addressee, Parse, Firsts, For, Appended;
    AppendedAccepts(before, k, between);
    AppendedAccepts(Appended(before, k, between), l, after);
    var i, j := |Run(INIT, before).accepted|, |Run(INIT, Appended(before, k, between)).accepted|;
    p, q := AcceptedInOrder(Appended(Appended(before, k, between), l, after), receiver, to, i, j);
  }

  predicate Addresses(receiver: Node, to: U32, msg: Bytes) {
    Parse(msg).Some? && Addressee(receiver, msg) == to
  }

  // What a dispatch by handle, or by the name of a context on another node, pushes.
  function Dispatched(from: U32, to: U32, name: Option<Bytes>, session: U32, kind: Byte, body: Bytes): Bytes {
    match name
    case None => Direct(from, to, session, kind, false, body)
    case Some(context) => Routed(from, WithNode(0, NodeOf(to)), context, session, kind, false, body)
  }

  predicate Leads(receiver: Node, to: U32, name: Option<Bytes>) {
    name.Some? ==> 1 <= |name.value| <= 255 && FindName(receiver, name.value) == to
  }

  lemma DispatchedMeans(receiver: Node, from: U32, to: U32, name: Option<Bytes>, session: U32, kind: Byte, body: Bytes)
    requires Leads(receiver, to, name) && |body| < WORD
    ensures var msg := Dispatched(from, to, name, session, kind, body);
      Addresses(receiver, to, msg) && IsView(msg, View(from, session, kind, false, body))
  {
    match name
    case None => DirectRoundTrip(from, to, session, kind, false, body);
    case Some(context) => RoutedRoundTrip(from, WithNode(0, NodeOf(to)), context, session, kind, false, body);
  }

  // So two successive dispatches of one context to another, each by handle or by name, reach its
  // inbox in session order.
  lemma SessionsInOrder(before: seq<Action>, k: nat, between: seq<Action>, l: nat, after: seq<Action>, receiver: Node,
                        from: U32, to: U32, session: U32, name1: Option<Bytes>, kind1: Byte, body1: Bytes,
                        name2: Option<Bytes>, kind2: Byte, body2: Bytes) returns (p: nat, q: nat)
    requires Leads(receiver, to, name1) && Leads(receiver, to, name2) && |body1| < WORD && |body2| < WORD
    requires var r1 := Run(INIT, before);
      k < |r1.pending| && r1.pending[k] == Dispatched(from, to, name1, session, kind1, body1)
    requires var r2 := Run(INIT, Appended(before, k, between));
      l < |r2.pending| && r2.pending[l] == Dispatched(from, to, name2, Low32(session + 1), kind2, body2)
    ensures var r2 := Run(INIT, Appended(before, k, between));
      var s := Run(INIT, Appended(Appended(before, k, between), l, after));
      var inbox := Firsts(For(receiver, to, s.log));
      Tagged(|r2.accepted|, r2.pending[l]) in s.log ==>
        && p < q < |inbox|
        && IsView(inbox[p].bytes, View(from, session, kind1, false, body1))
        && IsView(inbox[q].bytes, View(from, Low32(session + 1), kind2, false, body2))
  {
    hide Run, Addresses, IsView, Dispatched, Firsts, For, Appended;
    DispatchedMeans(receiver, from, to, name1, session, kind1, body1);
    DispatchedMeans(receiver, from, to, name2, Low32(session + 1), kind2, body2);
    p, q := PushesStayInOrder(before, k, between, l, after, receiver, to);
  }

  predicate IsView(msg: Bytes, v: View) {
    Parse(msg).Some? && PayloadInside(msg) && ViewOf(msg) == v
  }
}
