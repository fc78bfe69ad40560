// The node object and its contexts, step by step as they run, against the routing functions.
module App {
  import opened Words
  import opened Wrappers
  import opened Framing
  import opened Handles
  import opened Routing
  import Contexts

  class NodeApp {
    const self: Byte
    const host: Contexts.Host<seq<Bytes>>  // the contexts, each standing for its message queue
    var table: seq<NodeInfo>
    var outboxes: map<Byte, seq<Bytes>>

    ghost predicate Valid()
      reads this, host, host.registry
    {
      host.node == self && host.Valid()
    }

    ghost function View(): Node
      reads this, host, host.registry
    {
      Node(self, table, host.registry.Named(), host.registry.contexts, outboxes)
    }

    constructor (nodeid: Byte)
      ensures fresh(host) && fresh(host.registry) && host.created == 0
      ensures Valid() && View() == Node(nodeid, [], map[], map[], map[])
    {
      self, table, outboxes := nodeid, [], map[];
      host := new Contexts.Host(nodeid);
    }

    // start: a client with a queue for every other configured node, then the node's own entry.
    // Refused if the node itself is not configured.
    method Start(config: seq<NodeInfo>) returns (ok: bool)
      requires GoodConfig(config) && table == [] && outboxes == map[]
      modifies this`table, this`outboxes
      ensures ok <==> exists e :: e in config && e.id == self
      ensures ok ==> Wired(config, View())
    {
      hide HasQueues, GoodConfig;
      var i := 0;
      var own := None;
      NoQueues(outboxes, self);
      while i < |config|
        invariant 0 <= i <= |config|
        invariant table == Others(config[..i], self)
        invariant HasQueues(outboxes, config[..i], self)
        invariant Selves(config[..i], self) == match own case None => [] case Some(e) => [e]
        invariant own.Some? ==> own.value.id == self && own.value in config[..i]
        invariant own.None? ==> forall e | e in config[..i] :: e.id != self
      {
        TableGrows(config, i, self);
        QueuesGrow(outboxes, config, i, self);
        var e := config[i];
        if e.id != self {
          table := table + [e];
          outboxes := outboxes[e.id as Byte := []];
        } else {
          own := Some(e);
        }
        assert config[..i + 1] == config[..i] + [e];
        i := i + 1;
      }
      assert config[..|config|] == config;
      if own.None? {
        return false;
      }
      table := table + [own.value];
      return true;
    }

    // A new context, with an empty queue; its number is how many were created before it.
    method CreateContext(known: bool, initialized: bool) returns (handle: U32)
      requires Valid()
      modifies host`created, host.registry`issued, host.registry`contexts
      ensures Valid() && host.created == old(host.created) + if known then 1 else 0
      ensures known && initialized ==> handle == Created(self, old(host.created))
      ensures known && initialized && old(host.created) < NUMBERS ==>
        && handle !in old(View()).inboxes
        && View() == old(View()).(inboxes := old(View()).inboxes[handle := []])
      ensures !(known && initialized) ==> handle == 0 && View() == old(View())
    {
      handle := host.CreateContext(known, [], initialized);
    }

    // get_node by id and by name: scans to the first hit.
    method GetNodeById(id: Byte) returns (node: Option<NodeInfo>)
      ensures node == ById(table, id)
    {
      var i := 0;
      while i < |table|
        invariant 0 <= i <= |table|
        invariant ById(table, id) == ById(table[i..], id)
      {
        if table[i].id == id {
          return Some(table[i]);
        }
        i := i + 1;
      }
      return None;
    }

    method GetNodeByName(name: Bytes) returns (node: Option<NodeInfo>)
      ensures node == GetNode(View(), name)
    {
      if name == [] {
        node := GetNodeById(self);
        return;
      }
      var i := 0;
      while i < |table|
        invariant 0 <= i <= |table|
        invariant ByName(table, name) == ByName(table[i..], name)
      {
        if table[i].name == name {
          return Some(table[i]);
        }
        i := i + 1;
      }
      return None;
    }

    // A context's queue gets the message, if there is such a context.
    method Deliver(to: U32, msg: Bytes)
      requires Valid()
      modifies host.registry`contexts
      ensures Valid() && View() == ToInbox(old(View()), to, msg)
    {
      if to in host.registry.contexts {
        host.registry.contexts := host.registry.contexts[to := host.registry.contexts[to] + [msg]];
      }
    }

    method NodeMqPush(msg: Bytes)
      requires Valid()
      modifies this`outboxes, host.registry`contexts
      ensures Valid() && View() == Pushed(old(View()), msg)
    {
      var header := Parse(msg);
      if header.None? {
        return;
      }
      var to := header.value.to;
      var node := NodeOf(to);
      if node == self {
        Deliver(to, msg);
      } else if node in outboxes {
        outboxes := outboxes[node := outboxes[node] + [msg]];
      }
    }

    method RpcOnMq(msgs: seq<Bytes>)
      requires Valid()
      modifies host.registry`contexts
      ensures Valid() && View() == Received(old(View()), msgs)
    {
      hide Parse, Name;
      var i := 0;
      while i < |msgs|
        invariant 0 <= i <= |msgs| && Valid()
        invariant Received(old(View()), msgs) == Received(View(), msgs[i..])
      {
        var header := Parse(msgs[i]);
        if header.None? {
          return;
        }
        var to := header.value.to;
        var name := Name(msgs[i]);
        if name != [] {
          to := host.registry.FindName(name);
        }
        assert to == Addressee(View(), msgs[i]);
        Deliver(to, msgs[i]);
        i := i + 1;
      }
    }
  }

  // So the contexts of a running node are numbered as the round trips of requests and responses
  // need it.
  lemma ContextsAreNumbered(app: NodeApp)
    requires app.Valid() && app.host.created <= NUMBERS
    ensures Numbered(app.View(), app.host.created)
  {
    forall h | h in app.host.registry.contexts
      ensures exists k: nat :: k < app.host.created && h == Created(app.self, k)
    {
      assert app.host.IsCreated(h);
    }
  }

  lemma NoQueues(outboxes: map<Byte, seq<Bytes>>, self: Byte)
    requires outboxes == map[]
    ensures HasQueues(outboxes, [], self)
  {
  }

  lemma QueuesGrow(outboxes: map<Byte, seq<Bytes>>, config: seq<NodeInfo>, i: nat, self: Byte)
    requires GoodConfig(config) && i < |config| && HasQueues(outboxes, config[..i], self)
    ensures 1 <= config[i].id <= 255
    ensures var id := config[i].id as Byte;
      HasQueues(if id != self then outboxes[id := []] else outboxes, config[..i + 1], self)
  {
    assert config[..i + 1] == config[..i] + [config[i]];
  }

  lemma {:induction false} TableGrows(config: seq<NodeInfo>, i: nat, self: Byte)
    requires i < |config|
    ensures Others(config[..i + 1], self) ==
      Others(config[..i], self) + if config[i].id != self then [config[i]] else []
    ensures Selves(config[..i + 1], self) ==
      if config[i].id == self then [config[i]] else Selves(config[..i], self)
  {
    if i > 0 {
      assert config[..i + 1][1..] == config[1..][..i] && config[..i][1..] == config[1..][..i - 1];
      TableGrows(config[1..], i - 1, self);
    }
  }

  // A context with its session counter. The counter wraps in 32 bits.
  class Context {
    const id: U32
    const app: NodeApp
    var session: U32

    constructor (app: NodeApp, id: U32)
      ensures this.app == app && this.id == id && session == 0
    {
      this.app := app;
      this.id := id;
      session := 0;
    }

    method Dispatch(to: U32, kind: Byte, body: Bytes) returns (used: U32)
      requires app.Valid()
      modifies this, app, app.host.registry
      ensures app.Valid() && used == session == Low32(old(session) + 1)
      ensures app.View() == DispatchTo(old(app.View()), id, to, used, kind, body)
    {
      hide Direct, Pushed;
      session := Low32(session + 1);
      var s := new MessageString();
      s.Make(id, to, session, kind, false, body);
      app.NodeMqPush(s.data);
      used := session;
    }

    // By name; a name that does not resolve takes no session number, and -1 comes back.
    method DispatchByName(nodectx: Bytes, kind: Byte, body: Bytes) returns (used: U32)
      requires app.Valid()
      modifies this, app, app.host.registry
      ensures app.Valid()
      ensures var after := DispatchNamed(old(app.View()), id, nodectx, Low32(old(session) + 1), kind, body);
        if after.None? then
          used == WORD - 1 && session == old(session) && app.View() == old(app.View())
        else
          used == session == Low32(old(session) + 1) && app.View() == after.value
      ensures ResolvesRightly(old(app.View()), nodectx, session != old(session))
      ensures session == old(session) ==> used == 0xFFFF_FFFF && app.View() == old(app.View())
    {
      ResolvesOnEvery(app.View(), nodectx);
      hide ResolvesRightly;
      hide SplitAt, GetNode, Direct, Routed, Pushed;
      var (nodename, context) := SplitAt(nodectx, DOT);
      if context == [] {
        return WORD - 1;
      }
      var info := app.GetNodeByName(nodename);
      if info.None? {
        return WORD - 1;
      }
      var node := Low8(info.value.id);
      if node == app.self || node == 0 {
        var to := app.host.registry.FindName(context);
        used := Dispatch(to, kind, body);
        return;
      }
      used := DispatchRemotely(node, context, kind, body);
    }

    method DispatchRemotely(node: Byte, context: Bytes, kind: Byte, body: Bytes) returns (used: U32)
      requires app.Valid()
      modifies this, app, app.host.registry
      ensures app.Valid() && used == session == Low32(old(session) + 1)
      ensures app.View() == Pushed(old(app.View()), Routed(id, WithNode(0, node), context, used, kind, false, body))
    {
      hide Routed, Pushed;
      session := Low32(session + 1);
      var s := new MessageString();
      s.MakeNamed(id, WithNode(0, node), context, session, kind, false, body);
      app.NodeMqPush(s.data);
      used := session;
    }

    method Response(msg: Bytes, data: Bytes)
      requires Parse(msg).Some? && app.Valid()
      modifies app, app.host.registry
      ensures app.Valid() && app.View() == Respond(old(app.View()), id, msg, data)
    {
      hide Direct, Pushed;
      var h := HeaderOf(msg);
      var s := new MessageString();
      s.Make(id, h.from, h.session, h.kind, true, data);
      app.NodeMqPush(s.data);
    }
  }
}
