// How a message or call finds its context: node table, name resolution, local and remote delivery.
module Routing {
  import opened Words
  import opened Wrappers
  import opened Framing
  import opened Handles

  // ---- The node table ----

  datatype NodeInfo = NodeInfo(id: U32, name: Bytes)

  const DOT: Byte := 46

  // One shared configuration: ids that fit a byte, no id or name twice, names that can stand
  // before the dot.
  predicate GoodConfig(config: seq<NodeInfo>) {
    && (forall i | 0 <= i < |config| :: 1 <= config[i].id <= 255 && config[i].name != [] && DOT !in config[i].name)
    && (forall i, j | 0 <= i < j < |config| :: config[i].id != config[j].id && config[i].name != config[j].name)
  }

  // The table a node builds at start: clients in configuration order, then its own entry, the last
  // if there should be several.
  function TableOf(config: seq<NodeInfo>, self: Byte): seq<NodeInfo> {
    Others(config, self) + Selves(config, self)
  }

  function Others(config: seq<NodeInfo>, self: Byte): seq<NodeInfo> {
    if config == [] then []
    else (if config[0].id != self then [config[0]] else []) + Others(config[1..], self)
  }

  function Selves(config: seq<NodeInfo>, self: Byte): seq<NodeInfo> {
    if config == [] then []
    else if Selves(config[1..], self) != [] then Selves(config[1..], self)
    else if config[0].id == self then [config[0]] else []
  }

  lemma {:induction false} TableHasConfig(config: seq<NodeInfo>, self: Byte)
    requires GoodConfig(config)
    ensures multiset(TableOf(config, self)) == multiset(config)
  {
    if config != [] {
      var head, rest := config[0], config[1..];
      HeadGoesTo(config, self);
      TableHasConfig(rest, self);
      assert config == [head] + rest;
      hide Others, Selves;
      Rearranged(head, rest, Others(rest, self), Selves(rest, self));
    }
  }

  lemma {:induction false} OwnEntries(config: seq<NodeInfo>, self: Byte)
    ensures forall e | e in Selves(config, self) :: e in config && e.id == self
  {
    if config != [] {
      OwnEntries(config[1..], self);
    }
  }

  lemma HeadGoesTo(config: seq<NodeInfo>, self: Byte)
    requires config != [] && GoodConfig(config)
    ensures var head, others, selves := config[0], Others(config[1..], self), Selves(config[1..], self);
      if head.id != self then Others(config, self) == [head] + others && Selves(config, self) == selves
      else Others(config, self) == others && Selves(config, self) == [head] + selves
  {
    OwnEntries(config[1..], self);
    if Selves(config[1..], self) != [] {
      var own := Selves(config[1..], self)[0];
      assert own in config[1..];
    }
  }

  lemma Rearranged<T>(x: T, rest: seq<T>, a: seq<T>, b: seq<T>)
    requires multiset(a + b) == multiset(rest)
    ensures multiset(([x] + a) + b) == multiset([x] + rest) == multiset(a + ([x] + b))
  {
    assert multiset(a + b) == multiset(a) + multiset(b);
    assert multiset(a + ([x] + b)) == multiset(a) + multiset([x] + b);
    assert multiset(([x] + a) + b) == multiset([x] + a) + multiset(b);
  }

  function ById(table: seq<NodeInfo>, id: Byte): Option<NodeInfo> {
    if table == [] then None
    else if table[0].id == id then Some(table[0])
    else ById(table[1..], id)
  }

  function ByName(table: seq<NodeInfo>, name: Bytes): Option<NodeInfo> {
    if table == [] then None
    else if table[0].name == name then Some(table[0])
    else ByName(table[1..], name)
  }

  // The first hit, as the scanning loops find it.
  lemma {:induction false} LookupsHit(table: seq<NodeInfo>, id: Byte, name: Bytes)
    ensures ById(table, id).Some? ==> ById(table, id).value in table && ById(table, id).value.id == id
    ensures ById(table, id).None? ==> forall e | e in table :: e.id != id
    ensures ByName(table, name).Some? ==> ByName(table, name).value in table && ByName(table, name).value.name == name
    ensures ByName(table, name).None? ==> forall e | e in table :: e.name != name
  {
    if table != [] {
      LookupsHit(table[1..], id, name);
    }
  }

  // Of several entries that fit, the scans find the first.
  lemma {:induction false} FirstHit(table: seq<NodeInfo>, i: nat, id: Byte, name: Bytes)
    requires i < |table|
    ensures table[i].id == id && (forall j | 0 <= j < i :: table[j].id != id) ==> ById(table, id) == Some(table[i])
    ensures table[i].name == name && (forall j | 0 <= j < i :: table[j].name != name) ==>
      ByName(table, name) == Some(table[i])
  {
    if i > 0 {
      FirstHit(table[1..], i - 1, id, name);
      assert forall j | 0 <= j < i - 1 :: table[1..][j] == table[j + 1];
    }
  }

  lemma TableMembers(config: seq<NodeInfo>, self: Byte)
    requires GoodConfig(config)
    ensures forall e :: e in TableOf(config, self) <==> e in config
  {
    hide TableOf;
    TableHasConfig(config, self);
    var table := TableOf(config, self);
    assert forall e :: e in table <==> e in multiset(table);
    assert forall e :: e in config <==> e in multiset(config);
  }

  lemma {:induction false} UniqueEntries(config: seq<NodeInfo>, e: NodeInfo, f: NodeInfo)
    requires GoodConfig(config) && e in config && f in config
    ensures e.id == f.id || e.name == f.name ==> e == f
  {
    var i :| 0 <= i < |config| && config[i] == e;
    var j :| 0 <= j < |config| && config[j] == f;
    assert i < j || j < i || i == j;
  }

  lemma LookupsFind(config: seq<NodeInfo>, self: Byte, e: NodeInfo)
    requires GoodConfig(config) && e in config
    ensures ById(TableOf(config, self), e.id) == Some(e) && ByName(TableOf(config, self), e.name) == Some(e)
  {
    hide TableOf, ById, ByName;
    var table := TableOf(config, self);
    TableMembers(config, self);
    LookupsHit(table, e.id, e.name);
    UniqueEntries(config, e, ById(table, e.id).value);
    UniqueEntries(config, e, ByName(table, e.name).value);
  }

  // Whatever node asks, the order of its table does not matter.
  lemma TablesAgree(config: seq<NodeInfo>, a: Byte, b: Byte, id: Byte, name: Bytes)
    requires GoodConfig(config)
    ensures ById(TableOf(config, a), id) == ById(TableOf(config, b), id)
    ensures ByName(TableOf(config, a), name) == ByName(TableOf(config, b), name)
  {
    hide TableOf, GoodConfig, ById, ByName;
    TableMembers(config, a);
    TableMembers(config, b);
    LookupsHit(TableOf(config, a), id, name);
    LookupsHit(TableOf(config, b), id, name);
    var byId, byName := ById(TableOf(config, a), id), ByName(TableOf(config, a), name);
    if byId.Some? {
      LookupsFind(config, b, byId.value);
    }
    if byName.Some? {
      LookupsFind(config, b, byName.value);
    }
  }

  // ---- Resolving "node.context" ----

  function SplitAt(s: Bytes, sep: Byte): (Bytes, Bytes) {
    if s == [] then ([], [])
    else if s[0] == sep then ([], s[1..])
    else var (a, b) := SplitAt(s[1..], sep); ([s[0]] + a, b)
  }

  // The split is at the first separator, and without one all goes to the left.
  lemma {:induction false} SplitMeans(s: Bytes, sep: Byte)
    ensures var (a, b) := SplitAt(s, sep);
      sep !in a && (if sep in s then s == a + [sep] + b else a == s && b == [])
  {
    if s != [] && s[0] != sep {
      SplitMeans(s[1..], sep);
      assert s == [s[0]] + s[1..];
    }
  }

  lemma {:induction false} SplitJoined(a: Bytes, b: Bytes, sep: Byte)
    requires sep !in a
    ensures SplitAt(a + [sep] + b, sep) == (a, b)
  {
    var s := a + [sep] + b;
    if a == [] {
      assert s[1..] == b;
    } else {
      assert s[0] == a[0] && s[1..] == a[1..] + [sep] + b && a == [a[0]] + a[1..];
      SplitJoined(a[1..], b, sep);
    }
  }

  // What a node knows and holds. The inboxes are those of its live contexts; the outboxes are
  // the queues towards the other nodes.
  datatype Node = Node(self: Byte, table: seq<NodeInfo>, names: map<Bytes, U32>,
                       inboxes: map<U32, seq<Bytes>>, outboxes: map<Byte, seq<Bytes>>)

  function GetNode(n: Node, name: Bytes): Option<NodeInfo> {
    if name == [] then ById(n.table, n.self) else ByName(n.table, name)
  }

  // The node (only its low byte is kept) and the context's name, if the name has a dot with
  // something behind it and the node is known.
  function GetHandle(n: Node, nodectx: Bytes): Option<(Byte, Bytes)> {
    var (node, context) := SplitAt(nodectx, DOT);
    if context == [] then None else
      match GetNode(n, node)
      case None => None
      case Some(info) => Some((Low8(info.id), context))
  }

  function FindName(n: Node, name: Bytes): U32 {
    if name in n.names then n.names[name] else 0
  }

  // ---- Messages ----

  function ToInbox(n: Node, to: U32, msg: Bytes): Node {
    if to in n.inboxes then n.(inboxes := n.inboxes[to := n.inboxes[to] + [msg]]) else n
  }

  // node_mq_push: to a context of this node, to the queue of a known node, or nowhere.
  function Pushed(n: Node, msg: Bytes): Node {
    match Parse(msg)
    case None => n
    case Some(h) =>
      if NodeOf(h.to) == n.self then ToInbox(n, h.to, msg)
      else if NodeOf(h.to) in n.outboxes then
        n.(outboxes := n.outboxes[NodeOf(h.to) := n.outboxes[NodeOf(h.to)] + [msg]])
      else n
  }

  function Addressee(n: Node, msg: Bytes): U32
    requires Parse(msg).Some?
  {
    if Name(msg) != [] then FindName(n, Name(msg)) else HeaderOf(msg).to
  }

  // rpc_on_mq: every message in turn, but the whole call returns at one that does not parse.
  function Received(n: Node, msgs: seq<Bytes>): Node
    decreases |msgs|
  {
    if msgs == [] || Parse(msgs[0]).None? then n
    else Received(ToInbox(n, Addressee(n, msgs[0]), msgs[0]), msgs[1..])
  }

  function DispatchTo(n: Node, from: U32, to: U32, session: U32, kind: Byte, body: Bytes): Node {
    Pushed(n, Direct(from, to, session, kind, false, body))
  }

  // Dispatching by name; None if the name does not resolve to a node.
  function DispatchNamed(n: Node, from: U32, nodectx: Bytes, session: U32, kind: Byte, body: Bytes): Option<Node> {
    match GetHandle(n, nodectx)
    case None => None
    case Some((node, context)) =>
      if node == n.self || node == 0 then Some(DispatchTo(n, from, FindName(n, context), session, kind, body))
      else Some(Pushed(n, Routed(from, WithNode(0, node), context, session, kind, false, body)))
  }

  // response: straight back to whoever a message came from.
  function Respond(n: Node, from: U32, msg: Bytes, data: Bytes): Node
    requires Parse(msg).Some?
  {
    var h := HeaderOf(msg);
    Pushed(n, Direct(from, h.from, h.session, h.kind, true, data))
  }

  // What a handler sees of a message.
  datatype View = View(from: U32, session: U32, kind: Byte, response: bool, payload: Bytes)

  function ViewOf(msg: Bytes): View
    requires Parse(msg).Some? && PayloadInside(msg)
  {
    var h := HeaderOf(msg);
    View(h.from, h.session, h.kind, h.response, Payload(msg))
  }

  // ---- Resolving on one configuration ----

  // A node as it comes up from a shared configuration.
  predicate Wired(config: seq<NodeInfo>, n: Node) {
    && GoodConfig(config)
    && (exists e :: e in config && e.id == n.self)
    && n.table == TableOf(config, n.self)
    && HasQueues(n.outboxes, config, n.self)
  }

  // A queue towards every other node of the configuration.
  predicate HasQueues(outboxes: map<Byte, seq<Bytes>>, config: seq<NodeInfo>, self: Byte) {
    forall id: Byte :: id in outboxes <==> id != self && exists e :: e in config && e.id == id
  }

  // "node.context" resolves to the same node and context wherever it is asked.
  lemma HandleFound(config: seq<NodeInfo>, n: Node, e: NodeInfo, context: Bytes)
    requires Wired(config, n) && e in config && context != []
    ensures GetHandle(n, e.name + [DOT] + context) == Some((e.id, context))
  {
    SplitJoined(e.name, context, DOT);
    LookupsFind(config, n.self, e);
  }

  // Without a node before the dot it is the node that asks.
  lemma OwnHandleFound(config: seq<NodeInfo>, n: Node, context: Bytes)
    requires Wired(config, n) && context != []
    ensures GetHandle(n, [DOT] + context) == Some((n.self, context))
  {
    var e :| e in config && e.id == n.self;
    SplitJoined([], context, DOT);
    assert [] + [DOT] + context == [DOT] + context;
    LookupsFind(config, n.self, e);
  }

  // "node.context", with something behind the first dot, and before it a configured name or nothing.
  ghost predicate Resolvable(config: seq<NodeInfo>, s: Bytes, node: Bytes, context: Bytes) {
    && s == node + [DOT] + context && DOT !in node && context != []
    && (node == [] || exists e :: e in config && e.name == node)
  }

  // Exactly these names resolve; everything else, like a name without a dot or of an unknown node,
  // does not.
  lemma ResolvesExactly(config: seq<NodeInfo>, n: Node, s: Bytes)
    requires Wired(config, n)
    ensures GetHandle(n, s).Some? <==> exists node, context :: Resolvable(config, s, node, context)
    ensures forall node, context | Resolvable(config, s, node, context) ::
      GetHandle(n, s).Some? && GetHandle(n, s).value.1 == context
      && (node == [] ==> GetHandle(n, s).value.0 == n.self)
      && (forall e | e in config && e.name == node :: GetHandle(n, s).value.0 == e.id)
  {
    hide TableOf, GoodConfig, HasQueues, GetHandle;
    forall node, context | Resolvable(config, s, node, context)
      ensures GetHandle(n, s).Some? && GetHandle(n, s).value.1 == context
      ensures node == [] ==> GetHandle(n, s).value.0 == n.self
      ensures forall e | e in config && e.name == node :: GetHandle(n, s).value.0 == e.id
    {
      if node == [] {
        OwnHandleFound(config, n, context);
        assert [] + [DOT] + context == [DOT] + context;
        NoNameIsEmpty(config);
      } else {
        forall e | e in config && e.name == node
          ensures GetHandle(n, s) == Some((e.id, context))
        {
          HandleFound(config, n, e, context);
        }
      }
    }
    if GetHandle(n, s).Some? {
      OnlyThese(config, n, s);
    }
  }

  // `resolved` is right for the name, whatever configuration the node came up with.
  ghost predicate ResolvesRightly(n: Node, s: Bytes, resolved: bool) {
    forall config | Wired(config, n) :: resolved <==> exists node, context :: Resolvable(config, s, node, context)
  }

  lemma ResolvesOnEvery(n: Node, s: Bytes)
    ensures ResolvesRightly(n, s, GetHandle(n, s).Some?)
  {
    forall config | Wired(config, n)
      ensures GetHandle(n, s).Some? <==> exists node, context :: Resolvable(config, s, node, context)
    {
      ResolvesExactly(config, n, s);
    }
  }

  lemma NoNameIsEmpty(config: seq<NodeInfo>)
    requires GoodConfig(config)
    ensures forall e | e in config :: e.name != []
  {
  }

  lemma OnlyThese(config: seq<NodeInfo>, n: Node, s: Bytes)
    requires Wired(config, n) && GetHandle(n, s).Some?
    ensures Resolvable(config, s, SplitAt(s, DOT).0, SplitAt(s, DOT).1)
  {
    hide TableOf, GoodConfig, HasQueues, SplitAt;
    var (node, context) := SplitAt(s, DOT);
    SplitMeans(s, DOT);
    LookupsHit(n.table, n.self, node);
    TableMembers(config, n.self);
    if node != [] {
      var e := ByName(n.table, node).value;
      assert e in config && e.name == node;
    }
  }

  // A push adds the message to at most one queue: that of the addressed context, if it is on this
  // node, or that towards the context's node.
  lemma PushedTouchesOne(n: Node, msg: Bytes)
    ensures var after := Pushed(n, msg);
      && after.self == n.self && after.table == n.table && after.names == n.names
      && after.inboxes.Keys == n.inboxes.Keys && after.outboxes.Keys == n.outboxes.Keys
      && (forall h | h in n.inboxes ::
        var here := Parse(msg).Some? && HeaderOf(msg).to == h && h / 0x100_0000 == n.self;
        after.inboxes[h] == n.inboxes[h] + if here then [msg] else [])
      && (forall id | id in n.outboxes ::
        var there := Parse(msg).Some? && HeaderOf(msg).to / 0x100_0000 == id && id != n.self;
        after.outboxes[id] == n.outboxes[id] + if there then [msg] else [])
  {
    hide Parse;
  }

  // ---- The three ways are one ----

  // `msg` is put into the context's queue at once, or queued for the other node, which puts it
  // there in whatever state, `there`, it receives it.
  ghost predicate Carries(before: Node, after: Node, there: Node, to: U32, msg: Bytes) {
    && to in there.inboxes && Parse(msg).Some? && PayloadInside(msg)
    && if there.self == before.self then
        there == before && after == ToInbox(before, to, msg)
      else
        && there.self in before.outboxes
        && after == before.(outboxes := before.outboxes[there.self := before.outboxes[there.self] + [msg]])
        && Received(there, [msg]) == ToInbox(there, to, msg)
  }

  lemma DirectCarried(a: Node, there: Node, from: U32, to: U32, session: U32, kind: Byte, response: bool, body: Bytes)
    requires if there.self == a.self then there == a else there.self in a.outboxes
    requires |body| < WORD && NodeOf(to) == there.self && to in there.inboxes
    ensures var msg := Direct(from, to, session, kind, response, body);
      Carries(a, Pushed(a, msg), there, to, msg) && ViewOf(msg) == View(from, session, kind, response, body)
  {
    var msg := Direct(from, to, session, kind, response, body);
    DirectRoundTrip(from, to, session, kind, response, body);
    hide Direct, Parse, PayloadInside, Payload, Name;
    assert Addressee(there, msg) == to;
    ReceivedOne(there, msg);
  }

  lemma RoutedCarried(a: Node, there: Node, from: U32, context: Bytes, session: U32, kind: Byte, body: Bytes)
    requires there.self != a.self && there.self in a.outboxes
    requires |body| < WORD && 1 <= |context| <= 255 && FindName(there, context) in there.inboxes
    ensures var msg := Routed(from, WithNode(0, there.self), context, session, kind, false, body);
      && Carries(a, Pushed(a, msg), there, FindName(there, context), msg)
      && ViewOf(msg) == View(from, session, kind, false, body)
  {
    var msg := Routed(from, WithNode(0, there.self), context, session, kind, false, body);
    RoutedRoundTrip(from, WithNode(0, there.self), context, session, kind, false, body);
    HandleRoundTrip(there.self, 0);
    hide Routed, Parse, PayloadInside, Payload, Name;
    assert Addressee(there, msg) == FindName(there, context);
    ReceivedOne(there, msg);
  }

  lemma ReceivedOne(n: Node, msg: Bytes)
    requires Parse(msg).Some?
    ensures Received(n, [msg]) == ToInbox(n, Addressee(n, msg), msg)
  {
    assert [msg][1..] == [];
  }

  lemma HasQueueTo(config: seq<NodeInfo>, a: Node, e: NodeInfo)
    requires Wired(config, a) && e in config
    ensures 1 <= e.id <= 255 && (e.id != a.self ==> e.id as Byte in a.outboxes)
  {
  }

  // A message dispatched to a context of the same node, by handle or by name, with or without the
  // node's own name, gets there with this view.
  lemma LocalDispatchArrives(config: seq<NodeInfo>, a: Node, e: NodeInfo, context: Bytes,
                             from: U32, session: U32, kind: Byte, body: Bytes) returns (msg: Bytes)
    requires Wired(config, a) && e in config && e.id == a.self && context in a.names
    requires NodeOf(a.names[context]) == a.self && a.names[context] in a.inboxes
    requires context != [] && |body| < WORD
    ensures var to := a.names[context];
      var after := DispatchTo(a, from, to, session, kind, body);
      && Carries(a, after, a, to, msg) && ViewOf(msg) == View(from, session, kind, false, body)
      && DispatchNamed(a, from, e.name + [DOT] + context, session, kind, body) == Some(after)
      && DispatchNamed(a, from, [DOT] + context, session, kind, body) == Some(after)
  {
    hide GetHandle, GoodConfig, Pushed, Direct, Parse, PayloadInside;
    HandleFound(config, a, e, context);
    OwnHandleFound(config, a, context);
    DirectCarried(a, a, from, a.names[context], session, kind, false, body);
    msg := Direct(from, a.names[context], session, kind, false, body);
  }

  // A name that leads to no context: on this node the dispatch takes a session number and the
  // message goes nowhere; from another node it goes nowhere once it gets here.
  lemma UnknownContextIsDropped(config: seq<NodeInfo>, a: Node, e: NodeInfo, context: Bytes,
                                from: U32, session: U32, kind: Byte, body: Bytes)
    requires Wired(config, a) && e in config && e.id == a.self && context !in a.names && |body| < WORD
    requires 1 <= |context| <= 255 && 0 !in a.inboxes
    ensures DispatchNamed(a, from, e.name + [DOT] + context, session, kind, body) == Some(a)
    ensures Received(a, [Routed(from, WithNode(0, a.self), context, session, kind, false, body)]) == a
  {
    HandleFound(config, a, e, context);
    DirectRoundTrip(from, 0, session, kind, false, body);
    RoutedRoundTrip(from, WithNode(0, a.self), context, session, kind, false, body);
    hide GetHandle, Direct, Routed, Parse, Name, Payload, PayloadInside, TableOf, GoodConfig;
    KnowsOther(config, a, a);
    var msg := Routed(from, WithNode(0, a.self), context, session, kind, false, body);
    ReceivedOne(a, msg);
    ZeroHasNoQueue(config, a);
  }

  lemma ZeroHasNoQueue(config: seq<NodeInfo>, n: Node)
    requires Wired(config, n)
    ensures 0 !in n.outboxes
  {
  }

  // To another node, by handle or by name, it is carried with the same view.
  lemma RemoteDispatchArrives(config: seq<NodeInfo>, a: Node, b: Node, e: NodeInfo, context: Bytes,
                              from: U32, session: U32, kind: Byte, body: Bytes)
    returns (direct: Bytes, routed: Bytes)
    requires Wired(config, a) && e in config && e.id == b.self && b.self != a.self && context in b.names
    requires NodeOf(b.names[context]) == b.self && b.names[context] in b.inboxes
    requires 1 <= |context| <= 255 && |body| < WORD
    ensures var to := b.names[context];
      var named := DispatchNamed(a, from, e.name + [DOT] + context, session, kind, body);
      && Carries(a, DispatchTo(a, from, to, session, kind, body), b, to, direct)
      && named.Some? && Carries(a, named.value, b, to, routed)
      && ViewOf(direct) == ViewOf(routed) == View(from, session, kind, false, body)
  {
    hide GetHandle, GoodConfig, Pushed, Direct, Routed, Parse, PayloadInside;
    HandleFound(config, a, e, context);
    HasQueueTo(config, a, e);
    DirectCarried(a, b, from, b.names[context], session, kind, false, body);
    RoutedCarried(a, b, from, context, session, kind, body);
    direct := Direct(from, b.names[context], session, kind, false, body);
    routed := Routed(from, WithNode(0, b.self), context, session, kind, false, body);
  }

  // ---- A request and its response, end to end ----

  // Every context of the node has the handle of one of the first `created` creations there.
  ghost predicate Numbered(n: Node, created: nat) {
    created <= NUMBERS && forall h | h in n.inboxes :: exists k: nat :: k < created && h == Created(n.self, k)
  }

  // `rsp` gets into the queue of the k-th context of the waiting node, and of no other context:
  // neither another one there, nor one with its handle anywhere else.
  ghost predicate Answers(before: Node, after: Node, waiting: Node, created: nat, k: nat, rsp: Bytes) {
    var to, done := Created(waiting.self, k), ToInbox(waiting, Created(waiting.self, k), rsp);
    && Carries(before, after, waiting, to, rsp)
    && (forall j: nat | j < created && Created(waiting.self, j) in waiting.inboxes ::
      var h := Created(waiting.self, j);
      h in done.inboxes && done.inboxes[h] == waiting.inboxes[h] + if j == k then [rsp] else [])
    && (forall n: Byte, j: nat | j < NUMBERS && (n, j) != (waiting.self, k) :: Created(n, j) != to)
  }

  // A response goes back to exactly the context that sent the request, with its session number.
  lemma ResponseReturns(config: seq<NodeInfo>, answering: Node, waiting: Node, created: nat, k: nat,
                        request: Bytes, from: U32, data: Bytes) returns (rsp: Bytes)
    requires Wired(config, answering) && Wired(config, waiting)
    requires waiting.self == answering.self ==> waiting == answering
    requires Numbered(waiting, created) && k < created && Created(waiting.self, k) in waiting.inboxes
    requires Parse(request).Some? && PayloadInside(request) && ViewOf(request).from == Created(waiting.self, k)
    requires |data| < WORD
    ensures Answers(answering, Respond(answering, from, request, data), waiting, created, k, rsp)
    ensures ViewOf(rsp) == View(from, ViewOf(request).session, ViewOf(request).kind, true, data)
  {
    hide Created, Parse, Direct, PayloadInside, GoodConfig, TableOf, Pushed;
    var h := HeaderOf(request);
    CreatedNumber(waiting.self, k);
    KnowsOther(config, answering, waiting);
    DirectCarried(answering, waiting, from, h.from, h.session, h.kind, true, data);
    rsp := Direct(from, h.from, h.session, h.kind, true, data);
    forall n: Byte, j: nat | j < NUMBERS && (n, j) != (waiting.self, k)
      ensures Created(n, j) != Created(waiting.self, k)
    {
      CreatedHandlesAreDistinct(n, j, waiting.self, k);
    }
  }

  // A request by handle, sent by the k-th context of node `a`, and its response. Between sending
  // and receiving, and between receiving and responding, the nodes may have changed: `asked` is
  // the other node when the request gets there, `answering` when its handler responds, and
  // `waiting` the requester's node when the response gets there. `used` is the session number
  // that the dispatch returned.
  lemma RoundTrip(config: seq<NodeInfo>, a: Node, asked: Node, answering: Node, waiting: Node, created: nat, k: nat,
                  to: U32, used: U32, kind: Byte, body: Bytes, data: Bytes) returns (msg: Bytes, rsp: Bytes)
    requires Meeting(config, a, asked, answering, waiting, created, k)
    requires NodeOf(to) == asked.self && to in asked.inboxes && |body| < WORD && |data| < WORD
    ensures var from := Created(a.self, k);
      && Carries(a, DispatchTo(a, from, to, used, kind, body), asked, to, msg)
      && ViewOf(msg) == View(from, used, kind, false, body)
      && Answers(answering, Respond(answering, to, msg, data), waiting, created, k, rsp)
      && ViewOf(rsp) == View(to, used, kind, true, data)
  {
    hide Created, Parse, Direct, Wired, PayloadInside, Answers, Respond;
    var from := Created(a.self, k);
    KnowsOther(config, a, asked);
    DirectCarried(a, asked, from, to, used, kind, false, body);
    msg := Direct(from, to, used, kind, false, body);
    rsp := ResponseReturns(config, answering, waiting, created, k, msg, to, data);
  }

  // The same for a request by name.
  lemma NamedRoundTrip(config: seq<NodeInfo>, a: Node, asked: Node, answering: Node, waiting: Node, created: nat,
                       k: nat, e: NodeInfo, context: Bytes, used: U32, kind: Byte, body: Bytes, data: Bytes)
    returns (msg: Bytes, rsp: Bytes)
    requires Meeting(config, a, asked, answering, waiting, created, k)
    requires e in config && e.id == asked.self && 1 <= |context| <= 255 && |body| < WORD && |data| < WORD
    requires context in asked.names && NodeOf(asked.names[context]) == asked.self
    requires asked.names[context] in asked.inboxes
    ensures var from, to := Created(a.self, k), asked.names[context];
      var after := DispatchNamed(a, from, e.name + [DOT] + context, used, kind, body);
      && after.Some? && Carries(a, after.value, asked, to, msg)
      && ViewOf(msg) == View(from, used, kind, false, body)
      && Answers(answering, Respond(answering, to, msg, data), waiting, created, k, rsp)
      && ViewOf(rsp) == View(to, used, kind, true, data)
  {
    hide Created, Parse, Direct, Routed, Wired, GetHandle, PayloadInside, Answers, Respond;
    var from, to := Created(a.self, k), asked.names[context];
    HandleFound(config, a, e, context);
    KnowsOther(config, a, asked);
    if asked.self == a.self {
      DirectCarried(a, asked, from, to, used, kind, false, body);
      msg := Direct(from, to, used, kind, false, body);
    } else {
      RoutedCarried(a, asked, from, context, used, kind, body);
      msg := Routed(from, WithNode(0, asked.self), context, used, kind, false, body);
    }
    rsp := ResponseReturns(config, answering, waiting, created, k, msg, to, data);
  }

  // Two nodes of one configuration, each at two times; a node that asks itself is asked at once.
  ghost predicate Meeting(config: seq<NodeInfo>, a: Node, asked: Node, answering: Node, waiting: Node, created: nat,
                          k: nat) {
    && Wired(config, a) && Wired(config, asked) && Wired(config, answering) && Wired(config, waiting)
    && a.self == waiting.self && asked.self == answering.self
    && (asked.self == a.self ==> asked == a && waiting == answering)
    && Numbered(waiting, created) && k < created && Created(waiting.self, k) in waiting.inboxes
  }

  lemma KnowsOther(config: seq<NodeInfo>, a: Node, b: Node)
    requires Wired(config, a) && Wired(config, b)
    ensures b.self != 0 && (b.self != a.self ==> b.self in a.outboxes)
  {
  }

  // ---- Batches ----

  // Everything that gets into an outbox parses.
  predicate OutboxesParse(n: Node) {
    forall id | id in n.outboxes :: AllParse(n.outboxes[id])
  }

  lemma PushedParses(n: Node, msg: Bytes)
    requires OutboxesParse(n)
    ensures OutboxesParse(Pushed(n, msg))
  {
  }

  // A message that does not parse ends the work on its batch.
  lemma {:induction false} BadMessageEnds(n: Node, good: seq<Bytes>, bad: Bytes, rest: seq<Bytes>)
    requires AllParse(good) && Parse(bad) == None
    ensures Received(n, good + ([bad] + rest)) == Received(n, good)
  {
    ReceivedInParts(n, good, [bad] + rest);
  }

  // So the receiver works through a batch to its end: batches can be cut anywhere.
  lemma {:induction false} ReceivedInParts(n: Node, first: seq<Bytes>, second: seq<Bytes>)
    requires AllParse(first)
    ensures Received(n, first + second) == Received(Received(n, first), second)
    decreases |first|
  {
    if first == [] {
      assert first + second == second;
    } else {
      assert (first + second)[1..] == first[1..] + second;
      ReceivedInParts(ToInbox(n, Addressee(n, first[0]), first[0]), first[1..], second);
    }
  }
}
