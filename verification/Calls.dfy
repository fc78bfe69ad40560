// Remote calls: finding a context by name, calling it by handle, calling it by name.
module Calls {
  import opened Words
  import opened Wrappers
  import opened Framing
  import opened Handles
  import opened Routing

  // The outcome of a call: the function's own result, or one of the routing errors. The texts
  // that go with errors are not kept.
  datatype CallResult =
    | Result(status: int, value: Bytes)
    | Missing    // -1: no such context here, or no such function
    | NoNode     // -2: the node is not configured
    | NoNetwork  // -4: the request or the remote call failed

  // A context as calls see it: its registered functions.
  datatype Callee = Callee(functions: map<Bytes, Bytes -> (int, Bytes)>)

  // The nodes of one system, by id, and the callable contexts of each.
  datatype System = System(nodes: map<Byte, Node>, callees: map<Byte, map<U32, Callee>>)

  predicate WellFormed(s: System) {
    && s.nodes.Keys == s.callees.Keys
    && forall id | id in s.nodes :: s.nodes[id].self == id
  }

  function CallContext(contexts: map<U32, Callee>, to: U32, func: Bytes, param: Bytes): CallResult {
    if to !in contexts then Missing
    else if func !in contexts[to].functions then Missing
    else var (status, value) := contexts[to].functions[func](param); Result(status, value)
  }

  // rpc_ctx_call and rpc_ctx_call_name, as they run on the node that is asked.

  function ServeCall(s: System, at: Byte, to: U32, func: Bytes, param: Bytes): CallResult
    requires WellFormed(s) && at in s.nodes
  {
    if NodeOf(to) != at then Missing else CallContext(s.callees[at], to, func, param)
  }

  function ServeNamedCall(s: System, at: Byte, nodectx: Bytes, func: Bytes, param: Bytes): CallResult
    requires WellFormed(s) && at in s.nodes
  {
    match GetHandle(s.nodes[at], nodectx)
    case None => Missing
    case Some((node, context)) =>
      if node != at then Missing else CallContext(s.callees[at], FindName(s.nodes[at], context), func, param)
  }

  // The callers' side. `reached` says whether the one request over the network succeeds, which
  // it can only do to a node that is there.

  function CallById(s: System, at: Byte, to: U32, func: Bytes, param: Bytes, reached: bool): CallResult
    requires WellFormed(s) && at in s.nodes
  {
    if NodeOf(to) == at then ServeCall(s, at, to, func, param)
    else if ById(s.nodes[at].table, NodeOf(to)).None? then NoNode
    else if !reached || NodeOf(to) !in s.nodes then NoNetwork
    else ServeCall(s, NodeOf(to), to, func, param)
  }

  function CallByName(s: System, at: Byte, nodectx: Bytes, func: Bytes, param: Bytes, reached: bool): CallResult
    requires WellFormed(s) && at in s.nodes
  {
    match GetHandle(s.nodes[at], nodectx)
    case None => Missing
    case Some((node, _)) =>
      if node == at then ServeNamedCall(s, at, nodectx, func, param)
      else if ById(s.nodes[at].table, node).None? then NoNode
      else if !reached || node !in s.nodes then NoNetwork
      else ServeNamedCall(s, node, nodectx, func, param)
  }

  // rpc_find_ctx: a node that is not meant forwards the question; `reached` lists how the
  // forwarded requests fare. 0 is the answer to every failure.
  function Find(s: System, at: Byte, nodectx: Bytes, reached: seq<bool>): U32
    requires WellFormed(s) && at in s.nodes
    decreases |reached|
  {
    match GetHandle(s.nodes[at], nodectx)
    case None => 0
    case Some((node, context)) =>
      if node == at then FindName(s.nodes[at], context)
      else if ById(s.nodes[at].table, node).None? then 0
      else if reached == [] || !reached[0] || node !in s.nodes then 0
      else Find(s, node, nodectx, reached[1..])
  }

  // All nodes come from one configuration; a node's contexts, and its names, have its own handles.
  predicate Shared(s: System, config: seq<NodeInfo>) {
    && WellFormed(s)
    && (forall id | id in s.nodes :: Wired(config, s.nodes[id]))
    && (forall id, name | id in s.nodes && name in s.nodes[id].names ::
      NodeOf(s.nodes[id].names[name]) == id)
    && (forall id, to | id in s.callees && to in s.callees[id] :: NodeOf(to) == id)
  }

  // From whatever node it is asked, "node.context" names the same node and context.
  lemma ResolvesAlike(config: seq<NodeInfo>, a: Node, b: Node, nodectx: Bytes)
    requires Wired(config, a) && Wired(config, b) && SplitAt(nodectx, DOT).0 != []
    ensures GetHandle(a, nodectx) == GetHandle(b, nodectx)
  {
    hide SplitAt, TableOf;
    TablesAgree(config, a.self, b.self, 0, SplitAt(nodectx, DOT).0);
  }

  // What resolves is a configured node; ".context" is on the node that is asked.
  lemma ResolvesToANode(config: seq<NodeInfo>, n: Node, nodectx: Bytes)
    requires Wired(config, n) && GetHandle(n, nodectx).Some?
    ensures var node := GetHandle(n, nodectx).value.0;
      && node != 0 && ById(n.table, node).Some?
      && (SplitAt(nodectx, DOT).0 == [] ==> node == n.self)
  {
    hide SplitAt, TableOf;
    var info := GetNode(n, SplitAt(nodectx, DOT).0).value;
    LookupsHit(n.table, n.self, SplitAt(nodectx, DOT).0);
    TableHasConfig(config, n.self);
    assert info in multiset(n.table);
    LookupsFind(config, n.self, info);
  }

  // The same call by name gives the same result wherever it is made, as long as the request over
  // the network, if one is needed, succeeds. Without a node before the dot it stays on the caller's.
  lemma CallByNameAnywhere(
    s: System, config: seq<NodeInfo>, a: Byte, b: Byte, nodectx: Bytes, func: Bytes, param: Bytes)
    requires Shared(s, config) && a in s.nodes && b in s.nodes && SplitAt(nodectx, DOT).0 != []
    ensures CallByName(s, a, nodectx, func, param, true) == CallByName(s, b, nodectx, func, param, true)
  {
    hide GetHandle, ById, SplitAt, GoodConfig, HasQueues, TableOf, CallContext;
    ResolvesAlike(config, s.nodes[a], s.nodes[b], nodectx);
    if GetHandle(s.nodes[a], nodectx).Some? {
      ResolvesToANode(config, s.nodes[a], nodectx);
      ResolvesToANode(config, s.nodes[b], nodectx);
    }
  }

  // What a call comes to: the registered function's own result at the parameters, exactly if the
  // node has the context and the context has the function.
  ghost predicate Answers(contexts: map<U32, Callee>, to: U32, func: Bytes, param: Bytes, r: CallResult) {
    if to in contexts && func in contexts[to].functions then
      var (status, value) := contexts[to].functions[func](param);
      r.Result? && r.status == status && r.value == value
    else r == Missing
  }

  lemma CallByIdMeans(s: System, config: seq<NodeInfo>, at: Byte, to: U32, func: Bytes, param: Bytes, reached: bool)
    requires Shared(s, config) && at in s.nodes
    ensures var node, r := to / 0x100_0000, CallById(s, at, to, func, param, reached);
      if node != at && forall e | e in config :: e.id != node then r == NoNode
      else if node != at && (!reached || node !in s.nodes) then r == NoNetwork
      else Answers(s.callees[node], to, func, param, r)
  {
    hide GoodConfig, TableOf;
    TableMembers(config, at);
    LookupsHit(s.nodes[at].table, NodeOf(to), []);
  }

  // By name, the context is the one that the name leads to on the node before the dot.
  lemma CallByNameMeans(s: System, config: seq<NodeInfo>, at: Byte, e: NodeInfo, context: Bytes,
                        func: Bytes, param: Bytes, reached: bool)
    requires Shared(s, config) && at in s.nodes && e in config && context != []
    ensures var r := CallByName(s, at, e.name + [DOT] + context, func, param, reached);
      if e.id != at && (!reached || e.id !in s.nodes) then r == NoNetwork
      else if context !in s.nodes[e.id].names then r == Missing
      else Answers(s.callees[e.id], s.nodes[e.id].names[context], func, param, r)
  {
    hide GoodConfig, TableOf, GetHandle;
    HandleFound(config, s.nodes[at], e, context);
    LookupsFind(config, at, e);
    if e.id in s.nodes {
      HandleFound(config, s.nodes[e.id], e, context);
      NoContextZero(s, config, e.id);
    }
  }

  lemma NoContextZero(s: System, config: seq<NodeInfo>, id: Byte)
    requires Shared(s, config) && id in s.nodes
    ensures 0 !in s.callees[id]
  {
    ZeroIsNoNode(config, s.nodes[id]);
    assert NodeOf(0) == 0;
  }

  // A node's own context without the node's name, and names that do not resolve.
  lemma OtherCallsByName(s: System, config: seq<NodeInfo>, at: Byte, nodectx: Bytes, func: Bytes, param: Bytes,
                         reached: bool)
    requires Shared(s, config) && at in s.nodes
    ensures forall context | Resolvable(config, nodectx, [], context) ::
      var r, names := CallByName(s, at, nodectx, func, param, reached), s.nodes[at].names;
      if context !in names then r == Missing else Answers(s.callees[at], names[context], func, param, r)
    ensures !(exists node, context :: Resolvable(config, nodectx, node, context)) ==>
      CallByName(s, at, nodectx, func, param, reached) == Missing
  {
    hide GoodConfig, TableOf, GetHandle, Resolvable;
    ResolvesExactly(config, s.nodes[at], nodectx);
    NoContextZero(s, config, at);
    forall context | Resolvable(config, nodectx, [], context)
      ensures GetHandle(s.nodes[at], nodectx) == Some((at, context))
    {
    }
  }

  // A node serves calls to its own contexts only.
  lemma ServedElsewhere(s: System, config: seq<NodeInfo>, at: Byte, to: U32, e: NodeInfo, context: Bytes,
                        func: Bytes, param: Bytes)
    requires Shared(s, config) && at in s.nodes && e in config && context != []
    ensures to / 0x100_0000 != at ==> ServeCall(s, at, to, func, param) == Missing
    ensures e.id != at ==> ServeNamedCall(s, at, e.name + [DOT] + context, func, param) == Missing
  {
    hide GoodConfig, TableOf, GetHandle;
    HandleFound(config, s.nodes[at], e, context);
  }

  // The handle behind the name, if the node can be asked and has the name, and 0 otherwise.
  lemma FindMeans(s: System, config: seq<NodeInfo>, at: Byte, e: NodeInfo, context: Bytes, reached: bool)
    requires Shared(s, config) && at in s.nodes && e in config && context != []
    ensures Find(s, at, e.name + [DOT] + context, [reached]) ==
      if (e.id == at || (reached && e.id in s.nodes)) && context in s.nodes[e.id].names
      then s.nodes[e.id].names[context] else 0
  {
    hide GoodConfig, TableOf, GetHandle;
    HandleFound(config, s.nodes[at], e, context);
    LookupsFind(config, at, e);
    if e.id in s.nodes && e.id != at && reached {
      HandleFound(config, s.nodes[e.id], e, context);
      FoundThere(s, at, e.name + [DOT] + context, e.id, context);
    }
  }

  // Finding a context and calling it by handle is calling it by name: the results are equal
  // exactly if the context is found. If not, both are errors that differ only in their code.
  lemma FindThenCall(
    s: System, config: seq<NodeInfo>, at: Byte, nodectx: Bytes, func: Bytes, param: Bytes, reached: bool)
    requires Shared(s, config) && at in s.nodes
    ensures var id := Find(s, at, nodectx, [reached]);
      var byId := CallById(s, at, id, func, param, reached);
      var byName := CallByName(s, at, nodectx, func, param, reached);
      && (byId == byName <==> id != 0)
      && (id == 0 ==> byId == NoNode && (byName == Missing || byName == NoNetwork))
  {
    hide GetHandle, ById, SplitAt, TableOf, GoodConfig;
    ZeroIsNoNode(config, s.nodes[at]);
    match GetHandle(s.nodes[at], nodectx)
    case None =>
    case Some((node, context)) =>
      ResolvesToANode(config, s.nodes[at], nodectx);
      if node != at && reached && node in s.nodes {
        ResolvesAlike(config, s.nodes[at], s.nodes[node], nodectx);
        FoundThere(s, at, nodectx, node, context);
      }
  }

  lemma FoundThere(s: System, at: Byte, nodectx: Bytes, node: Byte, context: Bytes)
    requires WellFormed(s) && at in s.nodes && node in s.nodes && node != at
    requires GetHandle(s.nodes[at], nodectx) == GetHandle(s.nodes[node], nodectx) == Some((node, context))
    requires ById(s.nodes[at].table, node).Some?
    ensures Find(s, at, nodectx, [true]) == FindName(s.nodes[node], context)
  {
    assert [true][1..] == [];
    assert Find(s, node, nodectx, []) == FindName(s.nodes[node], context);
  }

  lemma ZeroIsNoNode(config: seq<NodeInfo>, n: Node)
    requires Wired(config, n)
    ensures n.self != 0 && ById(n.table, 0) == None
  {
    LookupsHit(n.table, 0, []);
    TableHasConfig(config, n.self);
    assert forall e :: e in n.table <==> e in multiset(n.table);
    assert forall e :: e in config <==> e in multiset(config);
  }
}
