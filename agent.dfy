/** The remote agent's forwarding (agent/main.go): its own tunnel type, the
    process-wide `tunnels` table the HTTP handlers mutate, the rate-sampling
    tick and the status report sent to the controller.

    The agent's tunnel differs from the controller's: it has no `Enabled`
    flag and no connection counter, its rate guard only requires that some
    time has passed, and its bind errors name the port they failed on. The copy
    loop and the UDP session table are the shared ones of module Relay. */
module Agent {
  import opened Wrappers
  import opened Models
  import Relay
  import Sums
  import Listings

  /** The body of POST /tunnels. */
  datatype TunnelRequest = TunnelRequest(
    id: string,
    localPort: int,
    targetIP: string,
    targetPort: int,
    protocol: string,
    autoStart: bool)

  /** checkLatency: milliseconds of a successful connect, -1 on failure. */
  function LatencyMs(p: Probe): (ms: int)
    ensures ms >= 0 <==> p.Connected?
    ensures p.Connected? ==> ms == p.ms
  {
    match p
    case Connected(t) => t
    case Unreachable => -1
  }

  class AgentTunnel {
    const id: string
    const localPort: int
    const targetIP: string
    const targetPort: int
    const protocol: string
    /** bytesIn, bytesOut. */
    const counters: Relay.ByteCounters
    var running: bool
    var listenerBound: bool
    var udpBound: bool
    /** The `cancel` channel has been closed. */
    var cancelled: bool
    var rateIn: Rate
    var rateOut: Rate
    var lastIn: int
    var lastOut: int
    var lastUpdate: int

    ghost predicate Valid()
      reads this, counters
    {
      && running == (listenerBound || udpBound)
      && !(listenerBound && udpBound)
      && (running ==> !cancelled)
      && 0 <= lastIn <= counters.bytesIn
      && 0 <= lastOut <= counters.bytesOut
    }

    /** The tunnel built by the create handler: stopped, zero counters. */
    constructor (req: TunnelRequest, now: int)
      ensures Valid() && fresh(counters)
      ensures id == req.id && localPort == req.localPort && targetIP == req.targetIP
      ensures targetPort == req.targetPort && protocol == req.protocol
      ensures !running && counters.bytesIn == 0 && counters.bytesOut == 0
      ensures rateIn == Zero && rateOut == Zero
      ensures lastIn == 0 && lastOut == 0 && lastUpdate == now
    {
      id, localPort, targetIP, targetPort, protocol :=
        req.id, req.localPort, req.targetIP, req.targetPort, req.protocol;
      counters := new Relay.ByteCounters();
      running, listenerBound, udpBound, cancelled := false, false, false, false;
      rateIn, rateOut := Zero, Zero;
      lastIn, lastOut, lastUpdate := 0, 0, now;
    }

    /** The rate fields and bookmarks are untouched. */
    twostate predicate SamplingUnchanged()
      reads this, counters
    {
      && counters.bytesIn == old(counters.bytesIn) && counters.bytesOut == old(counters.bytesOut)
      && rateIn == old(rateIn) && rateOut == old(rateOut)
      && lastIn == old(lastIn) && lastOut == old(lastOut) && lastUpdate == old(lastUpdate)
    }

    /** What one rate sample at `now` leaves behind: if time has passed
        since the last sample, the rates over the bytes counted since the
        bookmarks and the bookmarks moved to the present; otherwise no
        change at all. */
    twostate predicate SampledAt(now: int)
      reads this, counters
    {
      if now - old(lastUpdate) > 0 then
        && rateIn == Sampled(counters.bytesIn - old(lastIn), now - old(lastUpdate))
        && rateOut == Sampled(counters.bytesOut - old(lastOut), now - old(lastUpdate))
        && lastIn == counters.bytesIn && lastOut == counters.bytesOut && lastUpdate == now
        && running == old(running)
      else unchanged(this)
    }

    /** The error startTunnel returns for a failed bind of this tunnel's
        port. */
    function BindFailure(reason: string): (e: Error)
      ensures e.ListenOnPortFailed? && e.port == localPort && e.reason == reason
      ensures e.udp <==> protocol == "udp"
    {
      ListenOnPortFailed(IsUdp(protocol), localPort, reason)
    }

    /** startTunnel: a no-op success when running; otherwise a fresh cancel
        channel and a bind, UDP for protocol "udp" and TCP otherwise; a
        failed bind is returned and the tunnel stays stopped. */
    method Start(bind: BindOutcome) returns (result: Outcome)
      requires Valid()
      modifies this
      ensures Valid() && SamplingUnchanged()
      ensures old(running) ==> result == Ok && unchanged(this)
      ensures !old(running) && bind.BindError? ==>
        result == Fail(BindFailure(bind.reason)) && !running
      ensures !old(running) && bind.Bound? ==>
        && result == Ok && running && !cancelled
        && udpBound == IsUdp(protocol) && listenerBound == !IsUdp(protocol)
    {
      if running {
        return Ok;
      }
      cancelled := false;
      if bind.BindError? {
        return Fail(BindFailure(bind.reason));
      }
      if IsUdp(protocol) {
        udpBound := true;
      } else {
        listenerBound := true;
      }
      running := true;
      result := Ok;
    }

    /** stopTunnel: a no-op when stopped; otherwise closes the cancel
        channel and the listener or UDP socket and clears `running`. */
    method Stop()
      requires Valid()
      modifies this
      ensures Valid() && SamplingUnchanged()
      ensures !old(running) ==> unchanged(this)
      ensures old(running) ==> !running && !listenerBound && !udpBound && cancelled
    {
      if !running {
        return;
      }
      cancelled := true;
      listenerBound, udpBound := false, false;
      running := false;
    }

    /** handleTCPConn: a failed dial closes the client connection; otherwise
        both copy loops run. */
    method HandleTcpConn(dialOk: bool, upstream: seq<Relay.CopyStep>, downstream: seq<Relay.CopyStep>)
      requires Valid()
      modifies counters
      ensures Valid()
      ensures counters.bytesOut >= old(counters.bytesOut) && counters.bytesIn >= old(counters.bytesIn)
      ensures counters.bytesOut == old(counters.bytesOut)
        + (if dialOk && !cancelled then Relay.CountedBytes(upstream) else 0)
      ensures counters.bytesIn == old(counters.bytesIn)
        + (if dialOk && !cancelled then Relay.CountedBytes(downstream) else 0)
    {
      Relay.CountedNonNegative(upstream);
      Relay.CountedNonNegative(downstream);
      if dialOk {
        var _ := Relay.CopyWithStats(counters, Relay.Upstream, cancelled, upstream);
        var _ := Relay.CopyWithStats(counters, Relay.Downstream, cancelled, downstream);
      }
    }

    /** handleUDP: a fresh session table; an unresolvable target ends the
        loop at once, otherwise the inbound loop runs over `events`. */
    method HandleUdp(resolveOk: bool, events: seq<Relay.InboundEvent>)
      returns (sessions: Relay.UdpSessions, consumed: nat)
      requires Valid()
      modifies counters
      ensures Valid() && fresh(sessions) && sessions.Valid()
      ensures counters.bytesIn == old(counters.bytesIn)
      ensures !resolveOk ==>
        consumed == 0 && sessions.clients == map[] && counters.bytesOut == old(counters.bytesOut)
      ensures resolveOk ==>
        && counters.bytesOut == old(counters.bytesOut) + Relay.ForwardedBytes(Relay.BeforeCancel(events))
        && sessions.clients.Keys == (if Relay.HasCancel(events) then {} else Relay.DialedClients(events))
    {
      sessions := new Relay.UdpSessions();
      if !resolveOk {
        return sessions, 0;
      }
      Sums.SeqSumNonNegative(Relay.BeforeCancel(events), Relay.DatagramBytes);
      consumed := sessions.Serve(events, counters);
    }

    /** One tunnel's turn in updateRatesLoop at monotonic time `now`
        (nanoseconds): only when time has passed since the last sample are
        the rates recomputed and the bookmarks advanced. */
    method SampleRates(now: int)
      requires Valid()
      modifies this
      ensures Valid()
      ensures now - old(lastUpdate) <= 0 ==> unchanged(this)
      ensures now - old(lastUpdate) > 0 ==>
        && rateIn == Sampled(counters.bytesIn - old(lastIn), now - old(lastUpdate))
        && rateOut == Sampled(counters.bytesOut - old(lastOut), now - old(lastUpdate))
        && rateIn.delta >= 0 && rateOut.delta >= 0
        && lastIn == counters.bytesIn && lastOut == counters.bytesOut && lastUpdate == now
        && running == old(running) && listenerBound == old(listenerBound)
        && udpBound == old(udpBound) && cancelled == old(cancelled)
      ensures SampledAt(now)
    {
      var elapsed := now - lastUpdate;
      if elapsed > 0 {
        var currentIn, currentOut := counters.bytesIn, counters.bytesOut;
        rateIn := Sampled(currentIn - lastIn, elapsed);
        rateOut := Sampled(currentOut - lastOut, elapsed);
        lastIn, lastOut, lastUpdate := currentIn, currentOut, now;
      }
    }

    /** This tunnel's entry in the status report, with `probe` the outcome
        of the latency connect to its target. */
    function Report(probe: Probe): (entry: NodeTunnelStatus)
      reads this, counters
      ensures entry.id == id && entry.running == running
      ensures entry.localPort == localPort && entry.targetIP == targetIP
      ensures entry.targetPort == targetPort && entry.protocol == protocol
      ensures entry.bytesIn == counters.bytesIn && entry.bytesOut == counters.bytesOut
      ensures entry.rateIn == rateIn && entry.rateOut == rateOut
      ensures entry.latency == LatencyMs(probe)
      ensures entry.latency >= 0 <==> probe.Connected?
    {
      NodeTunnelStatus(id, localPort, targetIP, targetPort, protocol, running,
        counters.bytesIn, counters.bytesOut, rateIn, rateOut, LatencyMs(probe))
    }
  }

  function ReportKey(e: NodeTunnelStatus): string {
    e.id
  }

  /** The metrics gopsutil supplies to the status report. */
  datatype HostMetrics = HostMetrics(
    cpuPercent: real,
    memPercent: real,
    netBytesRecv: real,
    netBytesSent: real,
    uptime: int)

  /** The agent process: its key and name and the `tunnels` table. */
  class AgentProcess {
    const nodeKey: string
    const nodeName: string
    var tunnels: map<string, AgentTunnel>

    /** Every tunnel is filed under its own id. */
    ghost predicate KeyedById()
      reads this
    {
      forall id :: id in tunnels ==> tunnels[id].id == id
    }

    ghost predicate Valid()
      reads this, tunnels.Values, set t | t in tunnels.Values :: t.counters
    {
      && KeyedById()
      && forall id :: id in tunnels ==> tunnels[id].Valid()
    }

    constructor (nodeKey: string, nodeName: string)
      ensures Valid() && tunnels == map[]
      ensures this.nodeKey == nodeKey && this.nodeName == nodeName
    {
      this.nodeKey, this.nodeName := nodeKey, nodeName;
      tunnels := map[];
    }

    /** handleCreateTunnel: a present id is rejected and nothing changes; a
        new tunnel is registered stopped, then started when `autoStart` is
        set; a failed start is reported but the tunnel stays registered. */
    method CreateTunnel(req: TunnelRequest, now: int, bind: BindOutcome) returns (result: Outcome)
      requires Valid()
      modifies this
      ensures Valid()
      ensures old(req.id in tunnels) ==>
        result == Fail(TunnelExists(req.id)) && tunnels == old(tunnels)
      ensures old(req.id !in tunnels) ==>
        && tunnels.Keys == old(tunnels.Keys) + {req.id}
        && (forall id :: id in old(tunnels) ==> tunnels[id] == old(tunnels[id]))
        && fresh(tunnels[req.id])
        && tunnels[req.id].running == (req.autoStart && bind.Bound?)
        && result == (if req.autoStart && bind.BindError?
                      then Fail(ListenOnPortFailed(IsUdp(req.protocol), req.localPort, bind.reason)) else Ok)
    {
      if req.id in tunnels {
        return Fail(TunnelExists(req.id));
      }
      var tunnel := new AgentTunnel(req, now);
      tunnels := tunnels[req.id := tunnel];
      result := Ok;
      if req.autoStart {
        result := tunnel.Start(bind);
      }
    }

    /** handleDeleteTunnel: an unknown id is not found; otherwise that
        tunnel is stopped and removed and the others are untouched. */
    method DeleteTunnel(id: string) returns (result: Outcome)
      requires Valid()
      modifies this, tunnels.Values
      ensures Valid()
      ensures id !in old(tunnels) ==>
        result == Fail(TunnelNotFound(id)) && tunnels == old(tunnels) && unchanged(tunnels.Values)
      ensures id in old(tunnels) ==>
        && result == Ok
        && tunnels == old(tunnels) - {id}
        && !old(tunnels)[id].running
        && (forall other :: other in tunnels ==> unchanged(tunnels[other]))
    {
      if id !in tunnels {
        return Fail(TunnelNotFound(id));
      }
      var tunnel := tunnels[id];
      tunnel.Stop();
      tunnels := tunnels - {id};
      result := Ok;
    }

    /** handleStartTunnel: not found, or what startTunnel gives. */
    method StartTunnel(id: string, bind: BindOutcome) returns (result: Outcome)
      requires Valid()
      modifies tunnels.Values
      ensures Valid() && tunnels == old(tunnels)
      ensures id !in tunnels ==> result == Fail(TunnelNotFound(id)) && unchanged(tunnels.Values)
      ensures id in tunnels ==>
        && (forall other :: other in tunnels && other != id ==> unchanged(tunnels[other]))
        && tunnels[id].running == (old(tunnels[id].running) || bind.Bound?)
        && tunnels[id].SamplingUnchanged()
        && result == (if old(tunnels[id].running) || bind.Bound? then Ok
                      else Fail(tunnels[id].BindFailure(bind.reason)))
    {
      if id !in tunnels {
        return Fail(TunnelNotFound(id));
      }
      result := tunnels[id].Start(bind);
    }

    /** handleStopTunnel: not found, or the tunnel is stopped. */
    method StopTunnel(id: string) returns (result: Outcome)
      requires Valid()
      modifies tunnels.Values
      ensures Valid() && tunnels == old(tunnels)
      ensures id !in tunnels ==> result == Fail(TunnelNotFound(id)) && unchanged(tunnels.Values)
      ensures id in tunnels ==>
        && result == Ok && !tunnels[id].running && tunnels[id].SamplingUnchanged()
        && (forall other :: other in tunnels && other != id ==> unchanged(tunnels[other]))
    {
      if id !in tunnels {
        return Fail(TunnelNotFound(id));
      }
      tunnels[id].Stop();
      result := Ok;
    }

    /** stopAllTunnels: every tunnel stopped, the table unchanged. */
    method StopAllTunnels()
      requires Valid()
      modifies tunnels.Values
      ensures Valid() && tunnels == old(tunnels)
      ensures forall id :: id in tunnels ==> !tunnels[id].running && tunnels[id].SamplingUnchanged()
    {
      var remaining := tunnels.Keys;
      while remaining != {}
        invariant remaining <= tunnels.Keys
        invariant Valid()
        invariant forall id :: id in tunnels.Keys - remaining ==>
          !tunnels[id].running && tunnels[id].SamplingUnchanged()
        invariant forall id :: id in remaining ==> unchanged(tunnels[id])
        decreases remaining
      {
        var id :| id in remaining;
        tunnels[id].Stop();
        remaining := remaining - {id};
      }
    }

    /** One tick of updateRatesLoop: every tunnel samples its rates at
        `now`; the bookmarks of a tunnel advance only if time has passed
        since its last sample. */
    method UpdateRatesTick(now: int)
      requires Valid()
      modifies tunnels.Values
      ensures Valid() && tunnels == old(tunnels)
      ensures forall id :: id in tunnels ==> tunnels[id].SampledAt(now)
    {
      var remaining := tunnels.Keys;
      while remaining != {}
        invariant remaining <= tunnels.Keys
        invariant Valid()
        invariant forall id :: id in tunnels.Keys - remaining ==> tunnels[id].SampledAt(now)
        invariant forall id :: id in remaining ==> unchanged(tunnels[id])
        decreases remaining
      {
        var id :| id in remaining;
        tunnels[id].SampleRates(now);
        remaining := remaining - {id};
      }
    }

    /** The report entry each tunnel should produce, by id. */
    ghost function ExpectedReports(probe: (string, int) -> Probe): map<string, NodeTunnelStatus>
      reads this, tunnels.Values, set t | t in tunnels.Values :: t.counters
    {
      map id | id in tunnels :: tunnels[id].Report(probe(tunnels[id].targetIP, tunnels[id].targetPort))
    }

    /** The tunnel listing of getNodeStatus. */
    method ListTunnels(probe: (string, int) -> Probe) returns (entries: seq<NodeTunnelStatus>)
      requires KeyedById()
      ensures |entries| == |tunnels|
      ensures Listings.Listing(entries, ReportKey, ExpectedReports(probe), tunnels.Keys)
    {
      var ids := Listings.Enumerate(tunnels.Keys);
      ghost var expected := ExpectedReports(probe);
      entries := [];
      var i := 0;
      while i < |ids|
        invariant 0 <= i <= |ids| && |entries| == i
        invariant forall j :: 0 <= j < i ==>
          ReportKey(entries[j]) == ids[j] && ids[j] in expected && entries[j] == expected[ids[j]]
      {
        var t := tunnels[ids[i]];
        var entry := t.Report(probe(t.targetIP, t.targetPort));
        entries := entries + [entry];
        i := i + 1;
      }
      Listings.ListingInOrder(entries, ReportKey, expected, ids, tunnels.Keys);
    }

    /** getNodeStatus: online, with the host metrics, `TunnelCount` the
        number of tunnels and exactly one report entry per tunnel, whose
        latency is measured by `probe` on its target. */
    method GetNodeStatus(metrics: HostMetrics, probe: (string, int) -> Probe) returns (status: NodeStatus)
      requires KeyedById()
      ensures status.nodeKey == nodeKey && status.nodeName == nodeName && status.online
      ensures status.uptime == metrics.uptime
      ensures status.tunnelCount == |tunnels| == |status.tunnels|
      ensures Listings.Listing(status.tunnels, ReportKey, ExpectedReports(probe), tunnels.Keys)
    {
      var entries := ListTunnels(probe);
      status := NodeStatus(nodeKey, nodeName, true, metrics.cpuPercent, metrics.memPercent,
        metrics.netBytesRecv, metrics.netBytesSent, metrics.uptime, |tunnels|, entries);
    }
  }
}
