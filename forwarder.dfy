/** The controller's local forwarding engine: one Tunnel per rule
    (backend/internal/forwarder/tunnel.go) and the Manager that owns them,
    keyed by rule id (backend/internal/forwarder/manager.go).

    Sockets are inputs: a bind is a BindOutcome, a dial a boolean, a copy
    loop a sequence of Relay.CopyStep, the UDP loop a sequence of
    Relay.InboundEvent. The tunnel's context is the `cancelled` flag, the
    listener and the UDP socket are the `listenerBound` and `udpBound`
    flags. Time is an argument: monotonic time in nanoseconds, wall-clock
    time in Unix seconds. */
module Forwarder {
  import opened Wrappers
  import opened Models
  import Relay
  import Sums
  import Listings

  /** UpdateRates skips a sample taken less than 0.1 s after the previous one. */
  const MinSampleNanos: int := 100_000_000

  /** The label checkLatency gives a successful connect that took `ms`
      milliseconds. */
  function ClassifyLatency(ms: int): (status: string)
    ensures status == StatusNormal <==> ms < 100
    ensures status == StatusWarning <==> 100 <= ms < 300
    ensures status == StatusError <==> ms >= 300
  {
    if ms < 100 then StatusNormal else if ms < 300 then StatusWarning else StatusError
  }

  /** Rank of a latency label, best first. */
  function Severity(status: string): nat {
    if status == StatusNormal then 0 else if status == StatusWarning then 1 else 2
  }

  /** A slower connect never gets a better label. */
  lemma ClassifyLatencyMonotone(a: int, b: int)
    requires a <= b
    ensures Severity(ClassifyLatency(a)) <= Severity(ClassifyLatency(b))
  {
  }

  class Tunnel {
    var rule: Rule
    /** The live atomic counters: BytesIn, BytesOut. */
    const stats: Relay.ByteCounters
    /** The live atomic connection counter (stats.Connections). */
    var connections: int
    /** The fields UpdateRates samples into. */
    var bytesInRate: Rate
    var bytesOutRate: Rate
    var totalIn: int
    var totalOut: int
    var connCount: int
    var latency: LatencyInfo
    var running: bool
    var listenerBound: bool
    var udpBound: bool
    /** The tunnel's context has been cancelled. */
    var cancelled: bool
    var lastBytesIn: int
    var lastBytesOut: int
    var lastUpdate: int
    /** Accepted connections whose handler has not exited yet. */
    ghost var handlers: set<nat>
    ghost var nextHandler: nat

    ghost predicate Valid()
      reads this, stats
    {
      && running == (listenerBound || udpBound)
      && !(listenerBound && udpBound)
      && (running ==> !cancelled)
      && 0 <= lastBytesIn <= stats.bytesIn
      && 0 <= lastBytesOut <= stats.bytesOut
      && connections == |handlers|
      && (forall h :: h in handlers ==> h < nextHandler)
    }

    /** NewTunnel: stopped, zero counters, latency "unknown". */
    constructor (rule: Rule, now: int)
      ensures Valid() && fresh(stats)
      ensures this.rule == rule && !running && !listenerBound && !udpBound
      ensures stats.bytesIn == 0 && stats.bytesOut == 0 && connections == 0
      ensures latency == LatencyInfo(0, StatusUnknown, 0)
      ensures bytesInRate == Zero && bytesOutRate == Zero
      ensures lastBytesIn == 0 && lastBytesOut == 0 && lastUpdate == now
    {
      this.rule := rule;
      stats := new Relay.ByteCounters();
      connections := 0;
      bytesInRate, bytesOutRate := Zero, Zero;
      totalIn, totalOut, connCount := 0, 0, 0;
      latency := LatencyInfo(0, StatusUnknown, 0);
      running, listenerBound, udpBound, cancelled := false, false, false, false;
      lastBytesIn, lastBytesOut, lastUpdate := 0, 0, now;
      handlers, nextHandler := {}, 0;
    }

    /** The live counters, the sampled rates and totals, the bookmarks and
        the last latency check are untouched. */
    twostate predicate SamplingUnchanged()
      reads this, stats
    {
      && stats.bytesIn == old(stats.bytesIn) && stats.bytesOut == old(stats.bytesOut)
      && connections == old(connections) && handlers == old(handlers)
      && bytesInRate == old(bytesInRate) && bytesOutRate == old(bytesOutRate)
      && totalIn == old(totalIn) && totalOut == old(totalOut) && connCount == old(connCount)
      && lastBytesIn == old(lastBytesIn) && lastBytesOut == old(lastBytesOut)
      && lastUpdate == old(lastUpdate) && latency == old(latency)
    }

    /** The tunnel is stopped as Stop leaves it, from the old state. */
    twostate predicate StoppedFromOld()
      reads this, stats
    {
      !running && rule == StoppedRule(old(running), old(rule)) && SamplingUnchanged()
    }

    /** Start: a no-op success when running. Otherwise a new context is
        created and the local port bound, UDP for protocol "udp" and TCP for
        anything else; a failed bind is returned and leaves the tunnel
        stopped with its rule unchanged; a successful one marks the tunnel
        running and its rule enabled. */
    method Start(bind: BindOutcome) returns (result: Outcome)
      requires Valid()
      modifies this`running, this`listenerBound, this`udpBound, this`cancelled, this`rule
      ensures Valid() && SamplingUnchanged()
      ensures old(running) ==> result == Ok && unchanged(this)
      ensures !old(running) && bind.BindError? ==>
        && result == Fail(ListenFailed(bind.reason))
        && !running && !listenerBound && !udpBound && rule == old(rule)
      ensures !old(running) && bind.Bound? ==>
        && result == Ok && running && !cancelled
        && rule == old(rule).(enabled := true)
        && udpBound == IsUdp(rule.protocol) && listenerBound == !IsUdp(rule.protocol)
    {
      if running {
        return Ok;
      }
      cancelled := false;
      if bind.BindError? {
        return Fail(ListenFailed(bind.reason));
      }
      if IsUdp(rule.protocol) {
        udpBound := true;
      } else {
        listenerBound := true;
      }
      running := true;
      rule := rule.(enabled := true);
      result := Ok;
    }

    /** Stop: a no-op when stopped; otherwise cancels the context, closes
        the listener or UDP socket, and marks the tunnel stopped and its rule
        disabled. */
    method Stop()
      requires Valid()
      modifies this`running, this`listenerBound, this`udpBound, this`cancelled, this`rule
      ensures Valid() && SamplingUnchanged()
      ensures !old(running) ==> unchanged(this)
      ensures old(running) ==>
        && !running && !listenerBound && !udpBound && cancelled
        && rule == old(rule).(enabled := false)
    {
      if !running {
        return;
      }
      cancelled := true;
      listenerBound, udpBound := false, false;
      running := false;
      rule := rule.(enabled := false);
    }

    /** UpdateRule: replaces the rule and nothing else. */
    method UpdateRule(r: Rule)
      requires Valid()
      modifies this`rule
      ensures Valid() && rule == r
    {
      rule := r;
    }

    /** UpdateRates at monotonic time `now`: nothing changes when less than
        0.1 s passed since the last sample; otherwise the rates are the byte
        deltas since the bookmarks over the elapsed time, the totals and
        connection count are copied from the live counters, and the
        bookmarks advance to now. */
    method UpdateRates(now: int)
      requires Valid()
      modifies this`bytesInRate, this`bytesOutRate, this`totalIn, this`totalOut, this`connCount
      modifies this`lastBytesIn, this`lastBytesOut, this`lastUpdate
      ensures Valid()
      ensures now - old(lastUpdate) < MinSampleNanos ==>
        && bytesInRate == old(bytesInRate) && bytesOutRate == old(bytesOutRate)
        && totalIn == old(totalIn) && totalOut == old(totalOut) && connCount == old(connCount)
        && lastBytesIn == old(lastBytesIn) && lastBytesOut == old(lastBytesOut)
        && lastUpdate == old(lastUpdate)
      ensures now - old(lastUpdate) >= MinSampleNanos ==>
        && bytesInRate == Sampled(stats.bytesIn - old(lastBytesIn), now - old(lastUpdate))
        && bytesOutRate == Sampled(stats.bytesOut - old(lastBytesOut), now - old(lastUpdate))
        && bytesInRate.delta >= 0 && bytesOutRate.delta >= 0
        && totalIn == stats.bytesIn && totalOut == stats.bytesOut && connCount == connections
        && lastBytesIn == stats.bytesIn && lastBytesOut == stats.bytesOut && lastUpdate == now
    {
      var elapsed := now - lastUpdate;
      if elapsed < MinSampleNanos {
        return;
      }
      var currentIn, currentOut := stats.bytesIn, stats.bytesOut;
      bytesInRate := Sampled(currentIn - lastBytesIn, elapsed);
      bytesOutRate := Sampled(currentOut - lastBytesOut, elapsed);
      totalIn, totalOut, connCount := currentIn, currentOut, connections;
      lastBytesIn, lastBytesOut, lastUpdate := currentIn, currentOut, now;
    }

    /** checkLatency: `probe` is the outcome of the TCP connect to the
        target, `nowUnix` the wall-clock time when it returned. */
    method CheckLatency(probe: Probe, nowUnix: int)
      requires Valid()
      modifies this`latency
      ensures Valid()
      ensures latency.lastCheck == nowUnix
      ensures probe.Unreachable? ==> latency.latency == -1 && latency.status == StatusError
      ensures probe.Connected? ==>
        latency.latency == probe.ms && latency.status == ClassifyLatency(probe.ms)
    {
      match probe
      case Unreachable =>
        latency := LatencyInfo(-1, StatusError, nowUnix);
      case Connected(ms) =>
        latency := LatencyInfo(ms, ClassifyLatency(ms), nowUnix);
    }

    /** acceptTCP accepting one connection: the connection counter goes up
        and a handler starts (returned as a ghost token); no other field
        changes. */
    method Accept() returns (ghost h: nat)
      requires Valid() && listenerBound
      modifies this`handlers, this`nextHandler, this`connections
      ensures Valid()
      ensures h !in old(handlers) && handlers == old(handlers) + {h}
      ensures connections == old(connections) + 1
    {
      h := nextHandler;
      handlers := handlers + {h};
      nextHandler := nextHandler + 1;
      connections := connections + 1;
    }

    /** handleTCPConn for handler `h`: dial the target, then run both copy
        loops; the deferred decrement runs on every exit, a failed dial
        included. */
    method HandleTcpConn(ghost h: nat, dialOk: bool, upstream: seq<Relay.CopyStep>, downstream: seq<Relay.CopyStep>)
      requires Valid() && h in handlers
      modifies this`handlers, this`connections, stats
      ensures Valid()
      ensures handlers == old(handlers) - {h} && connections == old(connections) - 1
      ensures connections >= 0
      ensures stats.bytesOut >= old(stats.bytesOut) && stats.bytesIn >= old(stats.bytesIn)
      ensures stats.bytesOut == old(stats.bytesOut)
        + (if dialOk && !cancelled then Relay.CountedBytes(upstream) else 0)
      ensures stats.bytesIn == old(stats.bytesIn)
        + (if dialOk && !cancelled then Relay.CountedBytes(downstream) else 0)
    {
      Relay.CountedNonNegative(upstream);
      Relay.CountedNonNegative(downstream);
      if dialOk {
        var _ := Relay.CopyWithStats(stats, Relay.Upstream, cancelled, upstream);
        var _ := Relay.CopyWithStats(stats, Relay.Downstream, cancelled, downstream);
      }
      assert |handlers - {h}| == |handlers| - 1;
      handlers := handlers - {h};
      connections := connections - 1;
    }

    /** One accepted connection from accept to handler exit: the connection
        counter is back to its prior value and each direction's counter grew
        by what its copy loop counted. */
    method ServeConnection(dialOk: bool, upstream: seq<Relay.CopyStep>, downstream: seq<Relay.CopyStep>)
      requires Valid() && listenerBound
      modifies this`handlers, this`nextHandler, this`connections, stats
      ensures Valid()
      ensures connections == old(connections) && handlers == old(handlers)
      ensures stats.bytesOut == old(stats.bytesOut)
        + (if dialOk && !cancelled then Relay.CountedBytes(upstream) else 0)
      ensures stats.bytesIn == old(stats.bytesIn)
        + (if dialOk && !cancelled then Relay.CountedBytes(downstream) else 0)
    {
      ghost var h := Accept();
      HandleTcpConn(h, dialOk, upstream, downstream);
    }

    /** handleUDP: a fresh session table; a target that does not resolve
        ends the loop at once, otherwise the inbound loop runs over
        `events`. */
    method HandleUdp(resolveOk: bool, events: seq<Relay.InboundEvent>)
      returns (sessions: Relay.UdpSessions, consumed: nat)
      requires Valid()
      modifies stats
      ensures Valid() && fresh(sessions) && sessions.Valid()
      ensures stats.bytesIn == old(stats.bytesIn)
      ensures !resolveOk ==>
        consumed == 0 && sessions.clients == map[] && stats.bytesOut == old(stats.bytesOut)
      ensures resolveOk ==>
        && stats.bytesOut == old(stats.bytesOut) + Relay.ForwardedBytes(Relay.BeforeCancel(events))
        && sessions.clients.Keys == (if Relay.HasCancel(events) then {} else Relay.DialedClients(events))
    {
      sessions := new Relay.UdpSessions();
      if !resolveOk {
        return sessions, 0;
      }
      Sums.SeqSumNonNegative(Relay.BeforeCancel(events), Relay.DatagramBytes);
      consumed := sessions.Serve(events, stats);
    }

    /** GetTrafficStats: the sampled rates with the live counters. */
    method GetTrafficStats() returns (t: TrafficStats)
      ensures t.totalIn == stats.bytesIn && t.totalOut == stats.bytesOut
      ensures t.connCount == connections
      ensures t.bytesInRate == bytesInRate && t.bytesOutRate == bytesOutRate
    {
      t := TrafficStats(bytesInRate, bytesOutRate, stats.bytesIn, stats.bytesOut, connections);
    }

    /** GetStatus: rule, live traffic, last latency, running flag; a local
        tunnel has no node host. */
    method GetStatus() returns (s: TunnelStatus)
      ensures s.rule == rule && s.latency == latency && s.running == running
      ensures s.traffic.totalIn == stats.bytesIn && s.traffic.totalOut == stats.bytesOut
      ensures s.traffic.connCount == connections && s.nodeHost == ""
      ensures s.traffic.bytesInRate == bytesInRate && s.traffic.bytesOutRate == bytesOutRate
    {
      var traffic := GetTrafficStats();
      s := TunnelStatus(rule, traffic, latency, running, "");
    }
  }

  /** The rule a tunnel keeps once Stop returns: Stop marks a running
      tunnel's rule disabled and returns early on a stopped one. */
  function StoppedRule(running: bool, rule: Rule): Rule {
    if running then rule.(enabled := false) else rule
  }

  /** The rule ToggleRule leaves in the table, from the tunnel's running
      flag and rule before the call: enabling goes through Start, which
      sets Enabled only when it binds a stopped tunnel; disabling goes
      through Stop. */
  function ToggledRule(running: bool, rule: Rule, enabled: bool, bind: BindOutcome): (r: Rule)
    ensures r.(enabled := rule.enabled) == rule
    ensures enabled && !running && bind.Bound? ==> r.enabled
    ensures !enabled && running ==> !r.enabled
    ensures (enabled && (running || bind.BindError?)) || (!enabled && !running) ==> r == rule
  {
    if enabled then (if !running && bind.Bound? then rule.(enabled := true) else rule)
    else StoppedRule(running, rule)
  }

  /** Disabling a tunnel that is not running, such as one whose start
      failed, leaves its rule marked enabled, and that rule is what
      GetAllRules hands to the configuration being saved. */
  lemma DisableStoppedStaysEnabled(rule: Rule, bind: BindOutcome)
    requires rule.enabled
    ensures ToggledRule(false, rule, false, bind).enabled
  {
  }

  /** The toggle as evidently intended: disabling always clears Enabled,
      whether or not the tunnel was running. */
  function IntendedToggledRule(running: bool, rule: Rule, enabled: bool, bind: BindOutcome): (r: Rule)
    ensures r.(enabled := rule.enabled) == rule
  {
    if enabled then ToggledRule(running, rule, enabled, bind) else rule.(enabled := false)
  }

  /** With the intended toggle the stored Enabled flag follows a disable
      request in every state, and differs from the code's only when a
      stopped tunnel with an enabled rule is disabled. */
  lemma IntendedToggleHonoursDisable(running: bool, rule: Rule, enabled: bool, bind: BindOutcome)
    ensures !enabled ==> !IntendedToggledRule(running, rule, enabled, bind).enabled
    ensures enabled && !running && bind.Bound? ==> IntendedToggledRule(running, rule, enabled, bind).enabled
    ensures IntendedToggledRule(running, rule, enabled, bind) != ToggledRule(running, rule, enabled, bind)
      <==> !enabled && !running && rule.enabled
  {
    if !enabled && !running && rule.enabled {
      assert IntendedToggledRule(running, rule, enabled, bind).enabled != ToggledRule(running, rule, enabled, bind).enabled;
    }
  }

  function RuleKey(r: Rule): string {
    r.id
  }

  /** The value of `m` at `k`, zero when absent, as a total function for
      sums over key sets. */
  function ValueAt(m: map<string, int>): string -> int {
    k => if k in m then m[k] else 0
  }

  class Manager {
    var tunnels: map<string, Tunnel>

    /** Every tunnel is filed under its own rule's id. */
    ghost predicate Valid()
      reads this, tunnels.Values, set t | t in tunnels.Values :: t.stats
    {
      forall id :: id in tunnels ==> tunnels[id].rule.id == id && tunnels[id].Valid()
    }

    constructor ()
      ensures Valid() && tunnels == map[]
    {
      tunnels := map[];
    }

    /** Changing the one tunnel filed under `id`, while it stays valid and
        keeps its rule's id, keeps the table valid. */
    twostate lemma ValidAfterOne(id: string)
      requires old(Valid()) && tunnels == old(tunnels) && id in tunnels
      requires tunnels[id].Valid() && tunnels[id].rule.id == id
      requires forall other :: other in tunnels && other != id ==> unchanged(tunnels[other])
      requires forall other :: other in tunnels ==> unchanged(tunnels[other].stats)
      ensures Valid()
    {
      forall other | other in tunnels && other != id
        ensures tunnels[other].rule.id == other && tunnels[other].Valid()
      {
        assert old(tunnels[other].Valid());
      }
    }

    /** Ids of the running tunnels. */
    ghost function RunningIds(): set<string>
      reads this, tunnels.Values
    {
      set id | id in tunnels && tunnels[id].running
    }

    ghost function BytesInById(): map<string, int>
      reads this, tunnels.Values, set t | t in tunnels.Values :: t.stats
    {
      map id | id in tunnels :: tunnels[id].stats.bytesIn
    }

    ghost function BytesOutById(): map<string, int>
      reads this, tunnels.Values, set t | t in tunnels.Values :: t.stats
    {
      map id | id in tunnels :: tunnels[id].stats.bytesOut
    }

    /** AddRule: a present id is an error and changes nothing; a new id is
        always inserted and reported as success, started when the rule is
        enabled, whatever the start gives. */
    method AddRule(rule: Rule, now: int, bind: BindOutcome) returns (result: Outcome)
      requires Valid()
      modifies this
      ensures Valid()
      ensures old(rule.id in tunnels) ==>
        result == Fail(RuleExists(rule.id)) && tunnels == old(tunnels)
      ensures old(rule.id !in tunnels) ==>
        && result == Ok
        && tunnels.Keys == old(tunnels.Keys) + {rule.id}
        && (forall id :: id in old(tunnels) ==> tunnels[id] == old(tunnels[id]))
        && fresh(tunnels[rule.id])
        && tunnels[rule.id].running == (rule.enabled && bind.Bound?)
        && tunnels[rule.id].rule == rule
    {
      if rule.id in tunnels {
        return Fail(RuleExists(rule.id));
      }
      var tunnel := new Tunnel(rule, now);
      tunnels := tunnels[rule.id := tunnel];
      if rule.enabled {
        var _ := tunnel.Start(bind);
      }
      result := Ok;
    }

    /** UpdateRule: an unknown id is an error; otherwise the tunnel is
        stopped, its rule replaced, and restarted when the new rule is
        enabled; a failed start is returned while the new rule stays. */
    method UpdateRule(rule: Rule, bind: BindOutcome) returns (result: Outcome)
      requires Valid()
      modifies tunnels.Values
      ensures Valid() && tunnels == old(tunnels)
      ensures rule.id !in tunnels ==>
        result == Fail(RuleNotFound(rule.id)) && unchanged(tunnels.Values)
      ensures rule.id in tunnels ==>
        && (forall id :: id in tunnels && id != rule.id ==> unchanged(tunnels[id]))
        && tunnels[rule.id].rule == rule
        && tunnels[rule.id].running == (rule.enabled && bind.Bound?)
        && tunnels[rule.id].SamplingUnchanged()
        && result == (if rule.enabled && bind.BindError?
                      then Fail(StartFailed(ListenFailed(bind.reason))) else Ok)
    {
      if rule.id !in tunnels {
        return Fail(RuleNotFound(rule.id));
      }
      var tunnel := tunnels[rule.id];
      if tunnel.running {
        tunnel.Stop();
      }
      tunnel.UpdateRule(rule);
      result := Ok;
      if rule.enabled {
        var err := tunnel.Start(bind);
        if err.Fail? {
          result := Fail(StartFailed(err.error));
        }
      }
      ValidAfterOne(rule.id);
    }

    /** DeleteRule: an unknown id is an error; otherwise that tunnel is
        stopped and removed, and the other entries are untouched. */
    method DeleteRule(id: string) returns (result: Outcome)
      requires Valid()
      modifies this, tunnels.Values
      ensures Valid()
      ensures id !in old(tunnels) ==>
        result == Fail(RuleNotFound(id)) && tunnels == old(tunnels) && unchanged(tunnels.Values)
      ensures id in old(tunnels) ==>
        && result == Ok
        && tunnels == old(tunnels) - {id}
        && !old(tunnels)[id].running
        && (forall other :: other in tunnels ==> unchanged(tunnels[other]))
    {
      if id !in tunnels {
        return Fail(RuleNotFound(id));
      }
      var tunnel := tunnels[id];
      tunnel.Stop();
      tunnels := tunnels - {id};
      result := Ok;
    }

    /** ToggleRule: an unknown id is an error; enabling returns what Start
        gives, disabling stops and succeeds. */
    method ToggleRule(id: string, enabled: bool, bind: BindOutcome) returns (result: Outcome)
      requires Valid()
      modifies tunnels.Values
      ensures Valid() && tunnels == old(tunnels)
      ensures id !in tunnels ==> result == Fail(RuleNotFound(id)) && unchanged(tunnels.Values)
      ensures id in tunnels ==>
        && (forall other :: other in tunnels && other != id ==> unchanged(tunnels[other]))
        && tunnels[id].rule == ToggledRule(old(tunnels[id].running), old(tunnels[id].rule), enabled, bind)
        && tunnels[id].SamplingUnchanged()
      ensures id in tunnels && enabled ==>
        && tunnels[id].running == (old(tunnels[id].running) || bind.Bound?)
        && result == (if old(tunnels[id].running) || bind.Bound? then Ok
                      else Fail(ListenFailed(bind.reason)))
      ensures id in tunnels && !enabled ==> result == Ok && !tunnels[id].running
    {
      if id !in tunnels {
        return Fail(RuleNotFound(id));
      }
      var tunnel := tunnels[id];
      if enabled {
        result := tunnel.Start(bind);
      } else {
        tunnel.Stop();
        result := Ok;
      }
      ValidAfterOne(id);
    }

    /** GetActiveTunnelCount: the number of running tunnels. */
    method GetActiveTunnelCount() returns (count: nat)
      ensures count == |RunningIds()|
    {
      count := 0;
      var remaining := tunnels.Keys;
      ghost var counted: set<string> := {};
      while remaining != {}
        invariant remaining <= tunnels.Keys
        invariant counted == set id | id in tunnels.Keys - remaining && tunnels[id].running
        invariant count == |counted|
        decreases remaining
      {
        var id :| id in remaining;
        if tunnels[id].running {
          counted := counted + {id};
          count := count + 1;
        }
        remaining := remaining - {id};
      }
      assert counted == RunningIds();
    }

    /** GetGlobalTraffic: the byte totals are the sums of every tunnel's
        live counters. */
    method GetGlobalTraffic() returns (g: GlobalTraffic)
      ensures g.totalIn == Sums.SumOver(tunnels.Keys, ValueAt(BytesInById()))
      ensures g.totalOut == Sums.SumOver(tunnels.Keys, ValueAt(BytesOutById()))
    {
      ghost var ins, outs := BytesInById(), BytesOutById();
      var totalIn, totalOut := 0, 0;
      var remaining := tunnels.Keys;
      while remaining != {}
        invariant remaining <= tunnels.Keys
        invariant totalIn == Sums.SumOver(tunnels.Keys - remaining, ValueAt(ins))
        invariant totalOut == Sums.SumOver(tunnels.Keys - remaining, ValueAt(outs))
        decreases remaining
      {
        var id :| id in remaining;
        var stats := tunnels[id].GetTrafficStats();
        Sums.SumOverAdd(tunnels.Keys - remaining, ValueAt(ins), id);
        Sums.SumOverAdd(tunnels.Keys - remaining, ValueAt(outs), id);
        assert tunnels.Keys - (remaining - {id}) == (tunnels.Keys - remaining) + {id};
        totalIn := totalIn + stats.totalIn;
        totalOut := totalOut + stats.totalOut;
        remaining := remaining - {id};
      }
      assert tunnels.Keys - remaining == tunnels.Keys;
      g := GlobalTraffic(totalIn, totalOut);
    }

    /** The stored rules by id. */
    ghost function RulesById(): map<string, Rule>
      reads this, tunnels.Values
    {
      map id | id in tunnels :: tunnels[id].rule
    }

    /** GetAllRules: exactly one rule per tunnel, each as stored. */
    method GetAllRules() returns (rules: seq<Rule>)
      requires Valid()
      ensures |rules| == |tunnels|
      ensures Listings.Listing(rules, RuleKey, RulesById(), tunnels.Keys)
    {
      ghost var expected := RulesById();
      var ids := Listings.Enumerate(tunnels.Keys);
      rules := [];
      var i := 0;
      while i < |ids|
        invariant 0 <= i <= |ids| && |rules| == i
        invariant forall j :: 0 <= j < i ==>
          RuleKey(rules[j]) == ids[j] && ids[j] in expected && rules[j] == expected[ids[j]]
      {
        rules := rules + [tunnels[ids[i]].rule];
        i := i + 1;
      }
      Listings.ListingInOrder(rules, RuleKey, expected, ids, tunnels.Keys);
    }

    /** StopAll: every tunnel is stopped, the table itself is unchanged. */
    method StopAll()
      requires Valid()
      modifies tunnels.Values
      ensures Valid() && tunnels == old(tunnels)
      ensures forall id :: id in tunnels ==>
        && !tunnels[id].running && tunnels[id].rule == StoppedRule(old(tunnels[id].running), old(tunnels[id].rule))
        && tunnels[id].SamplingUnchanged()
    {
      var ids := Listings.Enumerate(tunnels.Keys);
      var i := 0;
      while i < |ids|
        invariant 0 <= i <= |ids|
        invariant Valid()
        invariant forall j :: 0 <= j < i ==> tunnels[ids[j]].StoppedFromOld()
        invariant forall j :: i <= j < |ids| ==> unchanged(tunnels[ids[j]])
      {
        StopOne(ids[i]);
        i := i + 1;
      }
    }

    /** One step of StopAll: stops the tunnel filed under `id`. */
    method StopOne(id: string)
      requires Valid() && id in tunnels
      modifies tunnels[id]
      ensures Valid()
      ensures !tunnels[id].running
      ensures tunnels[id].rule == StoppedRule(old(tunnels[id].running), old(tunnels[id].rule))
      ensures tunnels[id].SamplingUnchanged() && tunnels[id].StoppedFromOld()
      ensures forall other :: other in tunnels && other != id ==> unchanged(tunnels[other])
    {
      tunnels[id].Stop();
      ValidAfterOne(id);
    }
  }
}
