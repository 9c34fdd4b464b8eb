/** The controller's node manager (backend/internal/node/manager.go): a
    table of remote nodes and a table of the rules they run, with cascading
    delete, heartbeat updates and the aggregates the dashboard shows.

    Go keeps pointers to the records; no modelled operation shares them, so
    the tables are maps of values that the operations reassign. The HTTP
    requests the manager sends to a node are returned as `RemoteCall`
    descriptions, and the node's reply to the one whose result is returned
    is an input. Times are Unix seconds passed in as `now`. */
module Nodes {
  import opened Wrappers
  import opened Models
  import Sums
  import Listings
  import Forwarder

  /** getLatencyStatus: the controller's own thresholds for a remote
      tunnel's latency. */
  function LatencyStatus(ms: int): (status: string)
    ensures status == StatusError <==> ms < 0
    ensures status == StatusWarning <==> ms > 200
    ensures status == StatusNormal <==> 0 <= ms <= 200
  {
    if ms < 0 then StatusError else if ms > 200 then StatusWarning else StatusNormal
  }

  /** A longer latency never gets a better label. */
  lemma LatencyStatusMonotone(a: int, b: int)
    requires 0 <= a <= b
    ensures Forwarder.Severity(LatencyStatus(a)) <= Forwarder.Severity(LatencyStatus(b))
  {
  }

  /** The controller labels a remote latency with other thresholds than a
      local tunnel's probe uses: 100..200 ms is "normal" here and "warning"
      locally, and 300 ms or more is "warning" here and "error" locally. */
  lemma ThresholdsDiffer(ms: int)
    ensures 100 <= ms <= 200 ==>
      LatencyStatus(ms) == StatusNormal && Forwarder.ClassifyLatency(ms) == StatusWarning
    ensures ms >= 300 ==>
      LatencyStatus(ms) == StatusWarning && Forwarder.ClassifyLatency(ms) == StatusError
    ensures 0 <= ms < 100 ==> LatencyStatus(ms) == Forwarder.ClassifyLatency(ms)
  {
  }

  /** What an HTTP request to a node gives: a response, or no connection. */
  datatype HttpReply = Response(statusCode: int, body: string) | ConnectFailed(reason: string)

  const HttpOk := 200

  /** The result of sendRuleToNode: a connection failure or any status but
      200 is an error carrying the reason or the response body. */
  function SendRuleOutcome(reply: HttpReply): (o: Outcome)
    ensures o == Ok <==> reply.Response? && reply.statusCode == HttpOk
    ensures reply.ConnectFailed? ==>
      o == Fail(RemoteFailed("failed to connect to node: " + reply.reason))
    ensures reply.Response? && reply.statusCode != HttpOk ==>
      o == Fail(RemoteFailed("node returned error: " + reply.body))
  {
    match reply
    case ConnectFailed(reason) => Fail(RemoteFailed("failed to connect to node: " + reason))
    case Response(code, body) =>
      if code == HttpOk then Ok else Fail(RemoteFailed("node returned error: " + body))
  }

  /** The result of deleteRuleFromNode, startRuleOnNode and stopRuleOnNode:
      only a connection failure is an error; the status code is not looked
      at. */
  function CommandOutcome(reply: HttpReply): (o: Outcome)
    ensures o == Ok <==> reply.Response?
    ensures reply.ConnectFailed? ==>
      o == Fail(RemoteFailed("failed to connect to node: " + reply.reason))
  {
    match reply
    case ConnectFailed(reason) => Fail(RemoteFailed("failed to connect to node: " + reason))
    case Response(_, _) => Ok
  }

  /** A request the manager sends to a node's agent. */
  datatype RemoteCall =
    | CreateTunnel(node: Node, rule: NodeRule, autoStart: bool)
    | DeleteTunnel(node: Node, ruleId: string)
    | StartTunnel(node: Node, ruleId: string)
    | StopTunnel(node: Node, ruleId: string)
    | Uninstall(node: Node)

  /** A node, its last status report if any, and when it was last checked. */
  datatype NodeInfo = NodeInfo(node: Node, status: Option<NodeStatus>, lastCheck: int)

  function TunnelRunning(t: NodeTunnelStatus): bool {
    t.running
  }

  function TunnelBytesIn(t: NodeTunnelStatus): int {
    t.bytesIn
  }

  function TunnelBytesOut(t: NodeTunnelStatus): int {
    t.bytesOut
  }

  /** The running count and the byte totals of a report's tunnels. */
  method TallyTunnels(ts: seq<NodeTunnelStatus>) returns (active: int, totalIn: int, totalOut: int)
    ensures active == Sums.SeqCount(ts, TunnelRunning)
    ensures totalIn == Sums.SeqSum(ts, TunnelBytesIn)
    ensures totalOut == Sums.SeqSum(ts, TunnelBytesOut)
  {
    active, totalIn, totalOut := 0, 0, 0;
    for i := 0 to |ts|
      invariant active == Sums.SeqCount(ts[..i], TunnelRunning)
      invariant totalIn == Sums.SeqSum(ts[..i], TunnelBytesIn)
      invariant totalOut == Sums.SeqSum(ts[..i], TunnelBytesOut)
    {
      Sums.SeqCountStep(ts, i, TunnelRunning);
      Sums.SeqSumStep(ts, i, TunnelBytesIn);
      Sums.SeqSumStep(ts, i, TunnelBytesOut);
      if ts[i].running {
        active := active + 1;
      }
      totalIn := totalIn + ts[i].bytesIn;
      totalOut := totalOut + ts[i].bytesOut;
    }
    assert ts[..|ts|] == ts;
  }

  /** A node with the aggregates of its last report: the reported tunnel
      count and list, the number of running tunnels and the byte totals;
      all zero and empty before any report. */
  function NodeView(info: NodeInfo): NodeWithStatus {
    match info.status
    case None => NodeWithStatus(info.node, 0, 0, 0, 0, [])
    case Some(s) =>
      NodeWithStatus(info.node, s.tunnelCount, Sums.SeqCount(s.tunnels, TunnelRunning),
                     Sums.SeqSum(s.tunnels, TunnelBytesIn), Sums.SeqSum(s.tunnels, TunnelBytesOut),
                     s.tunnels)
  }

  /** The running count of a node's view is the number of running tunnels
      of its report, and never more than the tunnels listed. */
  lemma NodeViewActive(info: NodeInfo)
    ensures info.status.None? ==> NodeView(info).activeTunnels == 0
    ensures info.status.Some? ==>
      NodeView(info).activeTunnels == |Sums.Positions(info.status.value.tunnels, TunnelRunning)|
    ensures NodeView(info).activeTunnels <= |NodeView(info).tunnels|
  {
    if info.status.Some? {
      var ts := info.status.value.tunnels;
      Sums.SeqCountIsPositions(ts, TunnelRunning);
      Sums.SeqCountBound(ts, TunnelRunning);
    }
  }

  /** buildNodeWithStatus. */
  method BuildNodeWithStatus(info: NodeInfo) returns (v: NodeWithStatus)
    ensures v == NodeView(info)
  {
    v := NodeWithStatus(info.node, 0, 0, 0, 0, []);
    if info.status.Some? {
      var s := info.status.value;
      var active, totalIn, totalOut := TallyTunnels(s.tunnels);
      v := v.(tunnelCount := s.tunnelCount, tunnels := s.tunnels, activeTunnels := active,
               totalIn := totalIn, totalOut := totalOut);
    }
  }

  /** The first tunnel of a report with the given id. */
  function FirstWithId(ts: seq<NodeTunnelStatus>, id: string): (r: Option<NodeTunnelStatus>)
    ensures r.None? <==> forall i :: 0 <= i < |ts| ==> ts[i].id != id
    ensures r.Some? ==>
      exists i :: 0 <= i < |ts| && ts[i] == r.value && ts[i].id == id &&
                  (forall j :: 0 <= j < i ==> ts[j].id != id)
    decreases |ts|
  {
    if ts == [] then None
    else if ts[0].id == id then Some(ts[0])
    else
      var r := FirstWithId(ts[1..], id);
      assert forall i :: 1 <= i < |ts| ==> ts[i] == ts[1..][i - 1];
      r
  }

  /** The inner loop of GetAllTunnelStatus: the first tunnel with the id,
      leaving the loop at the first match. */
  method FindTunnel(ts: seq<NodeTunnelStatus>, id: string) returns (found: Option<NodeTunnelStatus>)
    ensures found == FirstWithId(ts, id)
  {
    found := None;
    var i := 0;
    while i < |ts|
      invariant 0 <= i <= |ts|
      invariant FirstWithId(ts, id) == FirstWithId(ts[i..], id)
    {
      if ts[i].id == id {
        found := Some(ts[i]);
        return;
      }
      assert ts[i..][1..] == ts[i + 1..];
      i := i + 1;
    }
  }

  /** The dashboard entry of one rule: the rule as a plain Rule (creation
      time not copied), the node's host or "" when the node is unknown,
      and the default of a stopped tunnel (latency -1 "error", no
      traffic) unless the node's last report lists a tunnel with the
      rule's id, in which case the first such tunnel gives the traffic,
      the latency and the running flag. */
  function TunnelView(rule: NodeRule, nodes: map<string, NodeInfo>): (s: TunnelStatus)
    ensures s.rule == Rule(rule.id, rule.name, rule.localPort, rule.targetIP, rule.targetPort,
                           rule.protocol, rule.enabled, 0)
    ensures s.nodeHost == (if rule.nodeId in nodes then nodes[rule.nodeId].node.host else "")
    ensures ReportedTunnel(rule, nodes).None? ==>
      !s.running && s.traffic == NoTraffic && s.latency == LatencyInfo(-1, StatusError, 0)
    ensures ReportedTunnel(rule, nodes).Some? ==>
      var t := ReportedTunnel(rule, nodes).value;
      && t.id == rule.id
      && s.running == t.running
      && s.traffic == TrafficStats(t.rateIn, t.rateOut, t.bytesIn, t.bytesOut, 0)
      && s.latency == LatencyInfo(t.latency, LatencyStatus(t.latency), 0)
  {
    var host := if rule.nodeId in nodes then nodes[rule.nodeId].node.host else "";
    var base := TunnelStatus(
      Rule(rule.id, rule.name, rule.localPort, rule.targetIP, rule.targetPort,
           rule.protocol, rule.enabled, 0),
      NoTraffic, LatencyInfo(-1, StatusError, 0), false, host);
    match ReportedTunnel(rule, nodes)
    case None => base
    case Some(t) =>
      base.(traffic := TrafficStats(t.rateIn, t.rateOut, t.bytesIn, t.bytesOut, 0),
            latency := LatencyInfo(t.latency, LatencyStatus(t.latency), 0),
            running := t.running)
  }

  /** The tunnel the rule's node reports under the rule's id, if the node
      is known, has reported, and lists one. */
  function ReportedTunnel(rule: NodeRule, nodes: map<string, NodeInfo>): Option<NodeTunnelStatus> {
    if rule.nodeId in nodes && nodes[rule.nodeId].status.Some?
    then FirstWithId(nodes[rule.nodeId].status.value.tunnels, rule.id)
    else None
  }

  /** One iteration of GetAllTunnelStatus: the default entry of a stopped
      tunnel, overridden by the first tunnel of the node's report with the
      rule's id. */
  method BuildTunnelStatus(rule: NodeRule, nodes: map<string, NodeInfo>) returns (status: TunnelStatus)
    ensures status == TunnelView(rule, nodes)
  {
    var host := "";
    if rule.nodeId in nodes {
      host := nodes[rule.nodeId].node.host;
    }
    status := TunnelStatus(
      Rule(rule.id, rule.name, rule.localPort, rule.targetIP, rule.targetPort,
           rule.protocol, rule.enabled, 0),
      NoTraffic, LatencyInfo(-1, StatusError, 0), false, host);
    if rule.nodeId in nodes && nodes[rule.nodeId].status.Some? {
      var found := FindTunnel(nodes[rule.nodeId].status.value.tunnels, rule.id);
      if found.Some? {
        var t := found.value;
        status := status.(traffic := TrafficStats(t.rateIn, t.rateOut, t.bytesIn, t.bytesOut, 0),
                          latency := LatencyInfo(t.latency, LatencyStatus(t.latency), 0),
                          running := t.running);
      }
    }
  }

  /** A rule shown as running is listed as running in its node's report. */
  lemma RunningOnlyIfReported(rule: NodeRule, nodes: map<string, NodeInfo>)
    ensures TunnelView(rule, nodes).running ==>
      && rule.nodeId in nodes && nodes[rule.nodeId].status.Some?
      && exists i :: 0 <= i < |nodes[rule.nodeId].status.value.tunnels| &&
           var t := nodes[rule.nodeId].status.value.tunnels[i];
           t.id == rule.id && t.running
  {
  }

  function StatusKey(s: TunnelStatus): string {
    s.rule.id
  }

  /** Applies `items` in order to `m`, each storing `val(item)` under
      `key(item)`: a later item overwrites an earlier one with the same
      key. */
  function PutAll<T, V>(m: map<string, V>, items: seq<T>, key: T -> string, val: T -> V): (r: map<string, V>)
    ensures r.Keys == m.Keys + set i | 0 <= i < |items| :: key(items[i])
    decreases |items|
  {
    if items == [] then m
    else
      var n := |items| - 1;
      var r := PutAll(m, items[..n], key, val);
      assert (set i | 0 <= i < |items| :: key(items[i])) ==
        (set i | 0 <= i < n :: key(items[..n][i])) + {key(items[n])};
      r[key(items[n]) := val(items[n])]
  }

  /** The last item with a key decides its value. */
  lemma {:induction false} PutAllLastWins<T, V>(m: map<string, V>, items: seq<T>, key: T -> string,
                                                val: T -> V, i: nat)
    requires i < |items|
    requires forall j :: i < j < |items| ==> key(items[j]) != key(items[i])
    ensures key(items[i]) in PutAll(m, items, key, val)
    ensures PutAll(m, items, key, val)[key(items[i])] == val(items[i])
    decreases |items|
  {
    var n := |items| - 1;
    if i < n {
      PutAllLastWins(m, items[..n], key, val, i);
    }
  }

  /** A key no item carries keeps its entry, or its absence. */
  lemma {:induction false} PutAllUntouched<T, V>(m: map<string, V>, items: seq<T>, key: T -> string,
                                                 val: T -> V, k: string)
    requires forall j :: 0 <= j < |items| ==> key(items[j]) != k
    ensures k in PutAll(m, items, key, val) <==> k in m
    ensures k in m ==> PutAll(m, items, key, val)[k] == m[k]
    decreases |items|
  {
    if items != [] {
      PutAllUntouched(m, items[..|items| - 1], key, val, k);
    }
  }

  function NodeId(n: Node): string {
    n.id
  }

  function RuleId(r: NodeRule): string {
    r.id
  }

  function AsRule(r: NodeRule): NodeRule {
    r
  }

  /** A restored node: no report yet, checked at `now`. */
  function Restored(now: int): Node -> NodeInfo {
    n => NodeInfo(n, None, now)
  }

  /** A heartbeat report applied to a node's record: the node is online
      with the reported load and uptime, seen and checked at `now`, and
      the report is kept as its status. */
  function Beat(info: NodeInfo, status: NodeStatus, now: int): NodeInfo {
    NodeInfo(info.node.(online := true, cpuPercent := status.cpuPercent,
                        memPercent := status.memPercent, uptime := status.uptime,
                        lastSeen := now),
             Some(status), now)
  }

  function IsOnline(nodes: map<string, NodeInfo>): string -> bool {
    id => id in nodes && nodes[id].node.online
  }

  /** The ids of the nodes marked online. */
  function OnlineIds(nodes: map<string, NodeInfo>): set<string> {
    Sums.Where(nodes.Keys, IsOnline(nodes))
  }

  /** An aggregate of each node's view, zero for an absent key. */
  function ViewActive(nodes: map<string, NodeInfo>): string -> int {
    id => if id in nodes then NodeView(nodes[id]).activeTunnels else 0
  }

  function ViewIn(nodes: map<string, NodeInfo>): string -> int {
    id => if id in nodes then NodeView(nodes[id]).totalIn else 0
  }

  function ViewOut(nodes: map<string, NodeInfo>): string -> int {
    id => if id in nodes then NodeView(nodes[id]).totalOut else 0
  }

  /** Adding one node to the visited ones adds its view's aggregates. */
  lemma TallyStep(nodes: map<string, NodeInfo>, done: set<string>, id: string)
    requires id in nodes && id !in done
    ensures Sums.SumOver(done + {id}, ViewActive(nodes)) ==
      Sums.SumOver(done, ViewActive(nodes)) + NodeView(nodes[id]).activeTunnels
    ensures Sums.SumOver(done + {id}, ViewIn(nodes)) ==
      Sums.SumOver(done, ViewIn(nodes)) + NodeView(nodes[id]).totalIn
    ensures Sums.SumOver(done + {id}, ViewOut(nodes)) ==
      Sums.SumOver(done, ViewOut(nodes)) + NodeView(nodes[id]).totalOut
  {
    Sums.SumOverAdd(done, ViewActive(nodes), id);
    Sums.SumOverAdd(done, ViewIn(nodes), id);
    Sums.SumOverAdd(done, ViewOut(nodes), id);
  }

  /** The totals of GetGlobalStats. */
  datatype GlobalStats = GlobalStats(totalIn: int, totalOut: int, activeNodes: int, activeTunnels: int)

  /** The loop of GetGlobalStats over a snapshot of the node table. */
  method TallyNodes(ns: map<string, NodeInfo>) returns (g: GlobalStats)
    ensures g.activeNodes == |OnlineIds(ns)|
    ensures g.activeTunnels == Sums.SumOver(ns.Keys, ViewActive(ns))
    ensures g.totalIn == Sums.SumOver(ns.Keys, ViewIn(ns))
    ensures g.totalOut == Sums.SumOver(ns.Keys, ViewOut(ns))
  {
    var totalIn, totalOut, activeNodes, activeTunnels := 0, 0, 0, 0;
    var remaining := ns.Keys;
    ghost var done: set<string> := {};
    while remaining != {}
      invariant remaining == ns.Keys - done && done <= ns.Keys
      invariant activeNodes == Sums.SumOver(done, Sums.Indicator(IsOnline(ns)))
      invariant activeTunnels == Sums.SumOver(done, ViewActive(ns))
      invariant totalIn == Sums.SumOver(done, ViewIn(ns))
      invariant totalOut == Sums.SumOver(done, ViewOut(ns))
      decreases remaining
    {
      var id :| id in remaining;
      var info := ns[id];
      if info.node.online {
        activeNodes := activeNodes + 1;
      }
      var v := BuildNodeWithStatus(info);
      TallyStep(ns, done, id);
      Sums.SumOverAdd(done, Sums.Indicator(IsOnline(ns)), id);
      activeTunnels, totalIn, totalOut :=
        activeTunnels + v.activeTunnels, totalIn + v.totalIn, totalOut + v.totalOut;
      done := done + {id};
      remaining := remaining - {id};
    }
    assert done == ns.Keys;
    Sums.SumOverIndicator(ns.Keys, IsOnline(ns));
    g := GlobalStats(totalIn, totalOut, activeNodes, activeTunnels);
  }

  class Manager {
    var nodes: map<string, NodeInfo>
    var rules: map<string, NodeRule>

    /** Every node and every rule is filed under its own id. */
    ghost predicate Valid()
      reads this
    {
      && (forall id :: id in nodes ==> nodes[id].node.id == id)
      && (forall id :: id in rules ==> rules[id].id == id)
    }

    constructor ()
      ensures Valid() && nodes == map[] && rules == map[]
    {
      nodes, rules := map[], map[];
    }

    /** AddNode: a present id is an error and changes nothing; otherwise
        the node is filed with no report, checked at `now`. */
    method AddNode(node: Node, now: int) returns (result: Outcome)
      requires Valid()
      modifies this`nodes
      ensures Valid()
      ensures node.id in old(nodes) ==> result == Fail(NodeExists(node.id)) && nodes == old(nodes)
      ensures node.id !in old(nodes) ==>
        result == Ok && nodes == old(nodes)[node.id := NodeInfo(node, None, now)]
    {
      if node.id in nodes {
        return Fail(NodeExists(node.id));
      }
      nodes := nodes[node.id := NodeInfo(node, None, now)];
      result := Ok;
    }

    /** UpdateNode: an unknown id is an error; otherwise only that node's
        record is replaced, its report and check time are kept. */
    method UpdateNode(node: Node) returns (result: Outcome)
      requires Valid()
      modifies this`nodes
      ensures Valid()
      ensures node.id !in old(nodes) ==> result == Fail(NodeNotFound(node.id)) && nodes == old(nodes)
      ensures node.id in old(nodes) ==>
        && result == Ok
        && nodes == old(nodes)[node.id := old(nodes)[node.id].(node := node)]
    {
      if node.id !in nodes {
        return Fail(NodeNotFound(node.id));
      }
      nodes := nodes[node.id := nodes[node.id].(node := node)];
      result := Ok;
    }

    /** DeleteNode: an unknown id is an error; otherwise the node and
        exactly the rules filed for it are removed, the other rules are
        kept as they were, and an uninstall request is sent to the node
        (its outcome is ignored). */
    method DeleteNode(id: string) returns (result: Outcome, calls: seq<RemoteCall>)
      requires Valid()
      modifies this
      ensures Valid()
      ensures id !in old(nodes) ==>
        result == Fail(NodeNotFound(id)) && calls == [] && nodes == old(nodes) && rules == old(rules)
      ensures id in old(nodes) ==>
        && result == Ok
        && calls == [Uninstall(old(nodes)[id].node)]
        && nodes == old(nodes) - {id}
        && (forall r :: r in rules <==> r in old(rules) && old(rules)[r].nodeId != id)
        && (forall r :: r in rules ==> rules[r] == old(rules)[r])
    {
      if id !in nodes {
        return Fail(NodeNotFound(id)), [];
      }
      var info := nodes[id];
      var kept := rules;
      var remaining := rules.Keys;
      while remaining != {}
        invariant remaining <= rules.Keys
        invariant forall r :: r in kept <==> r in rules && (r in remaining || rules[r].nodeId != id)
        invariant forall r :: r in kept ==> kept[r] == rules[r]
        decreases remaining
      {
        var r :| r in remaining;
        if kept[r].nodeId == id {
          kept := kept - {r};
        }
        remaining := remaining - {r};
      }
      rules := kept;
      nodes := nodes - {id};
      result, calls := Ok, [Uninstall(info.node)];
    }

    /** AddRule: a rule for an unknown node is an error and changes
        nothing; otherwise the rule is filed under its id, replacing any
        rule there, and sent to its node with auto-start set, whether the
        rule is enabled or not; the send's outcome is the result. */
    method AddRule(rule: NodeRule, reply: HttpReply) returns (result: Outcome, calls: seq<RemoteCall>)
      requires Valid()
      modifies this`rules
      ensures Valid()
      ensures rule.nodeId !in nodes ==>
        result == Fail(NodeNotFound(rule.nodeId)) && calls == [] && rules == old(rules)
      ensures rule.nodeId in nodes ==>
        && rules == old(rules)[rule.id := rule]
        && calls == [CreateTunnel(nodes[rule.nodeId].node, rule, true)]
        && result == SendRuleOutcome(reply)
    {
      if rule.nodeId !in nodes {
        return Fail(NodeNotFound(rule.nodeId)), [];
      }
      var info := nodes[rule.nodeId];
      rules := rules[rule.id := rule];
      calls := [CreateTunnel(info.node, rule, true)];
      result := SendRuleOutcome(reply);
    }

    /** UpdateRule: an unknown rule id, then an unknown new node, is an
        error and changes nothing. Otherwise, when the rule moves away from
        a node that still exists, it is first deleted there (outcome
        ignored); the rule is filed and sent to its new node, to start iff
        it is enabled, and that send's outcome is the result. */
    method UpdateRule(rule: NodeRule, reply: HttpReply) returns (result: Outcome, calls: seq<RemoteCall>)
      requires Valid()
      modifies this`rules
      ensures Valid()
      ensures rule.id !in old(rules) ==>
        result == Fail(RuleNotFound(rule.id)) && calls == [] && rules == old(rules)
      ensures rule.id in old(rules) && rule.nodeId !in nodes ==>
        result == Fail(NodeNotFound(rule.nodeId)) && calls == [] && rules == old(rules)
      ensures rule.id in old(rules) && rule.nodeId in nodes ==>
        var previous := old(rules)[rule.id].nodeId;
        var send := CreateTunnel(nodes[rule.nodeId].node, rule, rule.enabled);
        && rules == old(rules)[rule.id := rule]
        && calls == (if previous != rule.nodeId && previous in nodes
                     then [DeleteTunnel(nodes[previous].node, rule.id), send]
                     else [send])
        && result == SendRuleOutcome(reply)
    {
      if rule.id !in rules {
        return Fail(RuleNotFound(rule.id)), [];
      }
      var oldRule := rules[rule.id];
      if rule.nodeId !in nodes {
        return Fail(NodeNotFound(rule.nodeId)), [];
      }
      var info := nodes[rule.nodeId];
      calls := [];
      if oldRule.nodeId != rule.nodeId && oldRule.nodeId in nodes {
        calls := [DeleteTunnel(nodes[oldRule.nodeId].node, oldRule.id)];
      }
      rules := rules[rule.id := rule];
      calls := calls + [CreateTunnel(info.node, rule, rule.enabled)];
      result := SendRuleOutcome(reply);
    }

    /** DeleteRule: an unknown id is an error; otherwise only that rule is
        removed, and when its node exists the node is told to delete the
        tunnel and that request's outcome is the result. */
    method DeleteRule(id: string, reply: HttpReply) returns (result: Outcome, calls: seq<RemoteCall>)
      requires Valid()
      modifies this`rules
      ensures Valid()
      ensures id !in old(rules) ==> result == Fail(RuleNotFound(id)) && calls == [] && rules == old(rules)
      ensures id in old(rules) ==>
        var nodeId := old(rules)[id].nodeId;
        && rules == old(rules) - {id}
        && (nodeId in nodes ==>
              calls == [DeleteTunnel(nodes[nodeId].node, id)] && result == CommandOutcome(reply))
        && (nodeId !in nodes ==> calls == [] && result == Ok)
    {
      if id !in rules {
        return Fail(RuleNotFound(id)), [];
      }
      var rule := rules[id];
      rules := rules - {id};
      if rule.nodeId in nodes {
        calls := [DeleteTunnel(nodes[rule.nodeId].node, id)];
        result := CommandOutcome(reply);
      } else {
        calls, result := [], Ok;
      }
    }

    /** ToggleRule: an unknown rule, then an unknown node, is an error and
        changes nothing; otherwise the stored rule's enabled flag is set
        and the node is told to start or stop the tunnel, whose outcome is
        the result. */
    method ToggleRule(id: string, enabled: bool, reply: HttpReply) returns (result: Outcome, calls: seq<RemoteCall>)
      requires Valid()
      modifies this`rules
      ensures Valid()
      ensures id !in old(rules) ==> result == Fail(RuleNotFound(id)) && calls == [] && rules == old(rules)
      ensures id in old(rules) && old(rules)[id].nodeId !in nodes ==>
        result == Fail(NodeNotFound(old(rules)[id].nodeId)) && calls == [] && rules == old(rules)
      ensures id in old(rules) && old(rules)[id].nodeId in nodes ==>
        var node := nodes[old(rules)[id].nodeId].node;
        && rules == old(rules)[id := old(rules)[id].(enabled := enabled)]
        && calls == [if enabled then StartTunnel(node, id) else StopTunnel(node, id)]
        && result == CommandOutcome(reply)
    {
      if id !in rules {
        return Fail(RuleNotFound(id)), [];
      }
      var rule := rules[id];
      if rule.nodeId !in nodes {
        return Fail(NodeNotFound(rule.nodeId)), [];
      }
      var info := nodes[rule.nodeId];
      rules := rules[id := rule.(enabled := enabled)];
      if enabled {
        calls := [StartTunnel(info.node, id)];
      } else {
        calls := [StopTunnel(info.node, id)];
      }
      result := CommandOutcome(reply);
    }

    /** The entry GetAllTunnelStatus gives for each rule id. */
    ghost function ExpectedTunnels(): map<string, TunnelStatus>
      reads this
    {
      map id | id in rules :: TunnelView(rules[id], nodes)
    }

    /** GetAllTunnelStatus: exactly one entry per rule, each the rule's
        TunnelView. */
    method GetAllTunnelStatus() returns (result: seq<TunnelStatus>)
      requires Valid()
      ensures |result| == |rules|
      ensures Listings.Listing(result, StatusKey, ExpectedTunnels(), rules.Keys)
    {
      var rs, ns := rules, nodes;
      var ids := Listings.Enumerate(rs.Keys);
      ghost var expected := ExpectedTunnels();
      result := [];
      for i := 0 to |ids|
        invariant |result| == i
        invariant forall j :: 0 <= j < i ==>
          StatusKey(result[j]) == ids[j] && ids[j] in expected && result[j] == expected[ids[j]]
      {
        var status := BuildTunnelStatus(rs[ids[i]], ns);
        result := result + [status];
      }
      Listings.ListingInOrder(result, StatusKey, expected, ids, rs.Keys);
    }

    /** GetGlobalStats: the number of online nodes, and the running count
        and byte totals summed over every node's view. */
    method GetGlobalStats() returns (g: GlobalStats)
      ensures g.activeNodes == |OnlineIds(nodes)|
      ensures g.activeTunnels == Sums.SumOver(nodes.Keys, ViewActive(nodes))
      ensures g.totalIn == Sums.SumOver(nodes.Keys, ViewIn(nodes))
      ensures g.totalOut == Sums.SumOver(nodes.Keys, ViewOut(nodes))
    {
      g := TallyNodes(nodes);
    }

    /** HandleHeartbeat: the first node met whose key is the report's key
        takes the report (see Beat); no other record changes, and nothing
        changes when no node has that key. */
    method HandleHeartbeat(status: NodeStatus, now: int)
      requires Valid()
      modifies this`nodes
      ensures Valid()
      ensures (forall id :: id in old(nodes) ==> old(nodes)[id].node.key != status.nodeKey) ==>
        nodes == old(nodes)
      ensures (exists id :: id in old(nodes) && old(nodes)[id].node.key == status.nodeKey) ==>
        exists id :: id in old(nodes) && old(nodes)[id].node.key == status.nodeKey &&
          nodes == old(nodes)[id := Beat(old(nodes)[id], status, now)]
    {
      var ids := Listings.Enumerate(nodes.Keys);
      for i := 0 to |ids|
        invariant nodes == old(nodes)
        invariant forall j :: 0 <= j < i ==> nodes[ids[j]].node.key != status.nodeKey
      {
        var info := nodes[ids[i]];
        if info.node.key == status.nodeKey {
          nodes := nodes[ids[i] := Beat(info, status, now)];
          return;
        }
      }
    }

    /** RestoreRules: the saved nodes, each with no report and checked at
        `now`, then the saved rules, are filed under their ids in order,
        over whatever the tables hold. */
    method RestoreRules(savedNodes: seq<Node>, savedRules: seq<NodeRule>, now: int)
      requires Valid()
      modifies this
      ensures Valid()
      ensures nodes == PutAll(old(nodes), savedNodes, NodeId, Restored(now))
      ensures rules == PutAll(old(rules), savedRules, RuleId, AsRule)
    {
      for i := 0 to |savedNodes|
        invariant nodes == PutAll(old(nodes), savedNodes[..i], NodeId, Restored(now))
        invariant rules == old(rules)
        invariant Valid()
      {
        assert savedNodes[..i + 1][..i] == savedNodes[..i];
        nodes := nodes[savedNodes[i].id := NodeInfo(savedNodes[i], None, now)];
      }
      assert savedNodes[..|savedNodes|] == savedNodes;
      for i := 0 to |savedRules|
        invariant rules == PutAll(old(rules), savedRules[..i], RuleId, AsRule)
        invariant nodes == PutAll(old(nodes), savedNodes, NodeId, Restored(now))
        invariant Valid()
      {
        assert savedRules[..i + 1][..i] == savedRules[..i];
        rules := rules[savedRules[i].id := savedRules[i]];
      }
      assert savedRules[..|savedRules|] == savedRules;
    }
  }
}
