/** The records shared by the controller, the agent and the dashboard
    (backend/internal/models/models.go and node.go), and the outcomes of the
    operations the model takes as inputs instead of performing them: a bind,
    a dial, a latency probe. Floating-point fields are kept as `real` values
    that are only copied; rates are kept as the (delta, elapsed) pair they
    are computed from. */
module Models {

  /** Protocol names of a rule. Only "udp" selects the UDP relay: any other
      value, "tcp" or not, starts the TCP relay. */
  const TcpProtocol: string := "tcp"
  const UdpProtocol: string := "udp"

  predicate IsUdp(protocol: string) {
    protocol == UdpProtocol
  }

  /** A forwarding rule of the controller (models.Rule). */
  datatype Rule = Rule(
    id: string,
    name: string,
    localPort: int,
    targetIP: string,
    targetPort: int,
    protocol: string,
    enabled: bool,
    createdAt: int)

  /** A throughput sample, `delta` bytes over `elapsedNanos` nanoseconds;
      `Zero` before the first sample. The division itself is floating point
      and is not modelled. */
  datatype Rate = Zero | Sampled(delta: int, elapsedNanos: int)

  /** The serialised traffic view of one tunnel (the JSON fields of
      models.TrafficStats). */
  datatype TrafficStats = TrafficStats(
    bytesInRate: Rate,
    bytesOutRate: Rate,
    totalIn: int,
    totalOut: int,
    connCount: int)

  const NoTraffic := TrafficStats(Zero, Zero, 0, 0, 0)

  /** Latency classification labels. */
  const StatusUnknown: string := "unknown"
  const StatusNormal: string := "normal"
  const StatusWarning: string := "warning"
  const StatusError: string := "error"

  /** models.LatencyInfo: milliseconds (-1 on failure), label, Unix seconds. */
  datatype LatencyInfo = LatencyInfo(latency: int, status: string, lastCheck: int)

  /** models.TunnelStatus; `nodeHost` is empty for local tunnels. */
  datatype TunnelStatus = TunnelStatus(
    rule: Rule,
    traffic: TrafficStats,
    latency: LatencyInfo,
    running: bool,
    nodeHost: string)

  /** The byte totals of models.GlobalTraffic (its rate sums are floating
      point and not modelled). */
  datatype GlobalTraffic = GlobalTraffic(totalIn: int, totalOut: int)

  /** models.SystemStats, as the dashboard receives it. */
  datatype SystemStats = SystemStats(
    cpuPercent: real,
    memoryPercent: real,
    memoryUsed: int,
    memoryTotal: int,
    netBytesIn: int,
    netBytesOut: int,
    netRateIn: real,
    netRateOut: real,
    activeTunnels: int,
    uptime: int)

  /** A remote machine running the agent (models.Node). */
  datatype Node = Node(
    id: string,
    name: string,
    host: string,
    port: int,
    key: string,
    online: bool,
    cpuPercent: real,
    memPercent: real,
    uptime: int,
    lastSeen: int,
    createdAt: int)

  /** A rule executed on a remote node (models.NodeRule). */
  datatype NodeRule = NodeRule(
    id: string,
    nodeId: string,
    name: string,
    localPort: int,
    targetIP: string,
    targetPort: int,
    protocol: string,
    enabled: bool,
    createdAt: int)

  /** One tunnel in an agent's status report (models.NodeTunnelStatus, the
      agent's TunnelStatus). */
  datatype NodeTunnelStatus = NodeTunnelStatus(
    id: string,
    localPort: int,
    targetIP: string,
    targetPort: int,
    protocol: string,
    running: bool,
    bytesIn: int,
    bytesOut: int,
    rateIn: Rate,
    rateOut: Rate,
    latency: int)

  /** An agent's status report, sent as heartbeat or returned by /status. */
  datatype NodeStatus = NodeStatus(
    nodeKey: string,
    nodeName: string,
    online: bool,
    cpuPercent: real,
    memPercent: real,
    netRateIn: real,
    netRateOut: real,
    uptime: int,
    tunnelCount: int,
    tunnels: seq<NodeTunnelStatus>)

  /** A node with the aggregates of its last report (models.NodeWithStatus). */
  datatype NodeWithStatus = NodeWithStatus(
    node: Node,
    tunnelCount: int,
    activeTunnels: int,
    totalIn: int,
    totalOut: int,
    tunnels: seq<NodeTunnelStatus>)

  /** The errors the modelled operations return. */
  datatype Error =
    | RuleExists(id: string)
    | RuleNotFound(id: string)
    | NodeExists(id: string)
    | NodeNotFound(id: string)
    | TunnelExists(id: string)
    | TunnelNotFound(id: string)
    | ListenFailed(reason: string)
    /** The agent's bind error, which names the address: "failed to listen
        on 0.0.0.0:<port>: ..." for TCP, "failed to listen UDP on port
        <port>: ..." for UDP. */
    | ListenOnPortFailed(udp: bool, port: int, reason: string)
    | StartFailed(cause: Error)
    | RemoteFailed(reason: string)

  /** A Go `error` result: nil or an error. */
  datatype Outcome = Ok | Fail(error: Error)

  /** What binding the local port (net.Listen / net.ListenUDP) gives. */
  datatype BindOutcome = Bound | BindError(reason: string)

  /** What a TCP connect to the target gives, with the elapsed wall-clock
      milliseconds when it succeeds. */
  datatype Probe = Connected(ms: nat) | Unreachable
}
