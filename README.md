# Port-forward dashboard: tunnel bookkeeping and dashboard logic in Dafny

This project models the core of a port-forwarding dashboard. A controller forwards local ports to targets through its own tunnels. It also drives remote agents that forward ports on other machines. A browser dashboard shows their state. The model covers:

- **Controller tunnel** (`Forwarder.Tunnel`, backend/internal/forwarder/tunnel.go):
  - a stopped/running lifecycle that is idempotent both ways;
  - cumulative byte counters that grow by every byte read, before the write;
  - a TCP connection counter that stays balanced;
  - the per-client UDP session table;
  - the rate-sampling guard;
  - latency classification.
- **Controller tunnel table** (`Forwarder.Manager`, backend/internal/forwarder/manager.go): add, update, delete, toggle, the running count, the traffic totals, the rule listing and stop-all.
- **Shared relay code** (`Relay`): the TCP copy loop and the UDP session table. Both deployments implement these with the same code.
- **Agent** (`Agent`, agent/main.go):
  - its tunnel type;
  - the process-wide `tunnels` table behind the create, delete, start and stop handlers;
  - the one-second rate tick;
  - the status report sent to the controller.
- **Node manager** (`Nodes`, backend/internal/node/manager.go):
  - the node table and the rule table, with cascading delete;
  - the rule operations, with the requests they send to a node;
  - the per-node and global aggregates;
  - the per-rule status listing, heartbeats and the restore at start-up.
- **Dashboard store** (`Dashboard`, frontend/src/stores/dashboard.js): the bounded traffic history and the derived counts.
- **Formatters** (`Format`, frontend/src/utils/format.js): uptime and latency.
- **Translation lookup** (`I18n`, frontend/src/i18n/index.js): dotted-key lookup and the locale setting.
- **Reconnect backoff** (`Socket`, frontend/src/composables/useWebSocket.js): capped exponential delay and an attempt limit.

Code that updates state in place is modelled as classes with `modifies` clauses and a `Valid()` invariant. Pure logic is modelled as functions and lemmas. Loops are methods proved against specification functions.

The network is an input. A bind is a `BindOutcome`, a dial is a boolean and a latency probe is a `Probe`. A copy loop is a sequence of `Relay.CopyStep`, and the UDP loop is a sequence of `Relay.InboundEvent`. An HTTP reply from a node is an `HttpReply`. Time is an integer argument: monotonic nanoseconds, Unix seconds, or the dashboard's `nowSeconds`.

Go's `range` over a map visits the keys in an unspecified order. The model enumerates them with `Listings.Enumerate`, and listings are proved to hold exactly one entry per key (`Listings.Listing`) whatever the order.

Shared support modules:

- `Wrappers`: Option.
- `Text`: decimal rendering, split and join.
- `Sums`: sums over key sets and sequences.
- `Listings`: key enumeration and listings.
- `Models`: the records of backend/internal/models/models.go and node.go.

## Model

| member | source | states |
|---|---|---|
| Forwarder.ClassifyLatency | backend/internal/forwarder/tunnel.go:309-314 | "normal" iff < 100 ms, "warning" iff 100..299 ms, "error" iff ≥ 300 ms |
| Forwarder.ClassifyLatencyMonotone | backend/internal/forwarder/tunnel.go:309-314 | a slower connect never gets a better label |
| Forwarder.Tunnel.constructor | backend/internal/forwarder/tunnel.go:31-38 | a new tunnel is stopped, with zero counters and latency status "unknown" |
| Forwarder.Tunnel.Start | backend/internal/forwarder/tunnel.go:40-74 | when running: success and nothing changes; a failed bind returns the error, stays stopped, and leaves the rule unchanged; a good bind sets running and rule.Enabled, with a UDP socket for "udp" and a TCP listener otherwise; the counters, rates and sample bookmarks are untouched |
| Forwarder.Tunnel.Stop | backend/internal/forwarder/tunnel.go:318-344 | a no-op when stopped; otherwise it cancels, drops the listener and the UDP socket, and clears running and rule.Enabled; the counters, rates and sample bookmarks are untouched |
| Forwarder.Tunnel.UpdateRule | backend/internal/forwarder/tunnel.go:346-350 | replaces the rule and nothing else |
| Forwarder.Tunnel.UpdateRates | backend/internal/forwarder/tunnel.go:362-381 | under 0.1 s since the last sample nothing changes; otherwise the rates are the deltas over the elapsed time, the totals and connection count equal the live counters, and the bookmarks advance to now |
| Forwarder.Tunnel.CheckLatency | backend/internal/forwarder/tunnel.go:289-316 | a failed connect gives -1 and "error"; otherwise the measured ms and its classification; LastCheck is set in every case |
| Forwarder.Tunnel.Accept | backend/internal/forwarder/tunnel.go:88-110 | each accepted connection adds one to the counter and starts one new handler; it may change only the handler set, the handler numbering and the counter |
| Forwarder.Tunnel.HandleTcpConn | backend/internal/forwarder/tunnel.go:112-142 | handler exit takes one off the counter, on dial failure too, so the counter is never negative; each direction adds exactly the bytes its copy loop counts, client to target in BytesOut and target to client in BytesIn; it may change only the handler set, the counter and the byte counters |
| Forwarder.Tunnel.ServeConnection | backend/internal/forwarder/tunnel.go:107-123 | accept and handler together leave the connection counter and the handler set as they were; BytesOut grows by exactly the client-to-target loop's counted bytes and BytesIn by the target-to-client loop's, and neither grows on dial failure or cancellation |
| Forwarder.Tunnel.HandleUdp | backend/internal/forwarder/tunnel.go:187-273 | a failed resolve does nothing; otherwise BytesOut grows by every datagram received before cancellation, BytesIn is untouched, and the session table ends empty on cancellation and otherwise holds the clients whose dial succeeded |
| Forwarder.Tunnel.GetTrafficStats | backend/internal/forwarder/tunnel.go:383-391 | totals and connection count are read from the live counters; the rates are the last sampled ones |
| Forwarder.Tunnel.GetStatus | backend/internal/forwarder/tunnel.go:393-403 | the rule, latency and running flag of the tunnel, its live byte totals and connection count, and its last sampled rates |
| Forwarder.Manager.constructor | backend/internal/forwarder/manager.go:18-23 | the table starts empty |
| Forwarder.Manager.AddRule | backend/internal/forwarder/manager.go:25-43 | an existing id errors and the table is unchanged; a new id is always inserted with success, running iff enabled and the bind succeeded; other entries are untouched |
| Forwarder.Manager.UpdateRule | backend/internal/forwarder/manager.go:45-68 | an unknown id errors; otherwise the new rule is stored, the tunnel runs iff enabled and the bind succeeded, a start error is returned, the tunnel's counters, rates and sample bookmarks are kept, and other tunnels are untouched |
| Forwarder.Manager.DeleteRule | backend/internal/forwarder/manager.go:70-82 | an unknown id errors; otherwise that tunnel is stopped and removed, and only it |
| Forwarder.Manager.ToggleRule | backend/internal/forwarder/manager.go:84-98 | an unknown id errors; enabling returns Start's result and disabling stops and succeeds; the tunnel's rule afterwards is ToggledRule of its old running flag and rule, its counters, rates and sample bookmarks are kept, and other tunnels are untouched |
| Forwarder.ToggledRule | backend/internal/forwarder/manager.go:93-97 | the rule a toggle leaves: only Enabled can change; enabling a stopped tunnel whose bind succeeds sets it; disabling a running tunnel clears it; a failed or redundant enable and disabling a stopped tunnel leave the rule as it was |
| Forwarder.DisableStoppedStaysEnabled | backend/internal/forwarder/tunnel.go:318-324 | disabling a stopped tunnel whose rule is enabled leaves Enabled set, so the rule saved after the toggle is still enabled |
| Forwarder.IntendedToggledRule | backend/internal/forwarder/manager.go:93-97 | the toggle the endpoint promises: only Enabled can change, and disabling always clears it |
| Forwarder.IntendedToggleHonoursDisable | backend/internal/forwarder/manager.go:93-97 | the intended toggle clears Enabled on every disable and sets it on a successful enable of a stopped tunnel; it differs from the toggle as written exactly when a stopped tunnel with an enabled rule is disabled |
| Forwarder.Manager.GetActiveTunnelCount | backend/internal/forwarder/manager.go:149-160 | the number of tunnels whose running flag is set |
| Forwarder.Manager.GetGlobalTraffic | backend/internal/forwarder/manager.go:134-147 | the totals are the sums of every tunnel's live byte counters |
| Forwarder.Manager.GetAllRules | backend/internal/forwarder/manager.go:123-132 | one rule per tunnel, each the tunnel's own rule |
| Forwarder.Manager.StopAll | backend/internal/forwarder/manager.go:166-173 | every tunnel is stopped, the running ones get rule.Enabled cleared, their counters, rates and sample bookmarks are kept, and the key set is unchanged |
| Forwarder.Manager.StopOne | backend/internal/forwarder/manager.go:169-171 | one iteration of StopAll: that tunnel is stopped with its counters, rates and sample bookmarks kept, and the others are untouched |
| Relay.ByteCounters.constructor | backend/internal/forwarder/tunnel.go:34 | the counters start at zero |
| Relay.StepsPerformed | backend/internal/forwarder/tunnel.go:146-172 | the copy loop performs the steps up to and including the first that ends it: cancellation, a failed write or a read error |
| Relay.CountedIsPerformedReads | backend/internal/forwarder/tunnel.go:154-162 | the bytes counted are exactly the bytes read by the performed steps, counted before the write, so a failed write keeps its bytes counted |
| Relay.CountedBytesBound | backend/internal/forwarder/tunnel.go:145 | each read counts at most the 32 KiB buffer |
| Relay.CountedNonNegative | backend/internal/forwarder/tunnel.go:154-162 | a copy loop never counts a negative number of bytes, so the byte counters never decrease |
| Relay.CopyWithStats | backend/internal/forwarder/tunnel.go:144-173 | adds the counted bytes to the direction's counter only, nothing when already cancelled, and performs exactly StepsPerformed steps |
| Relay.UdpSessions.constructor | backend/internal/forwarder/tunnel.go:189 | the session table starts empty |
| Relay.UdpSessions.Forward | backend/internal/forwarder/tunnel.go:224-240 | counts the datagram in BytesOut before the lookup; a known client reuses its session; an unseen client gets exactly one new, unshared session unless the dial fails, when nothing is inserted but the bytes stay counted |
| Relay.UdpSessions.Reverse | backend/internal/forwarder/tunnel.go:244-267 | a reply adds its bytes to BytesIn; a read timeout removes only that client's session; any other error keeps it |
| Relay.UdpSessions.CloseAll | backend/internal/forwarder/tunnel.go:200-206 | cancellation closes every session and empties the table |
| Relay.UdpSessions.Receive | backend/internal/forwarder/tunnel.go:210-240 | one loop iteration: a timeout or receive error changes nothing; a datagram is counted and may add its client |
| Relay.UdpSessions.Serve | backend/internal/forwarder/tunnel.go:198-272 | the inbound loop consumes events up to the first cancellation, counts every datagram before it, and ends with an empty table if cancelled or with the dialled clients added otherwise |
| Relay.BeforeCancel | backend/internal/forwarder/tunnel.go:198-208 | the events the loop handles before it observes cancellation are a prefix of the input |
| Relay.BeforeCancelAt | backend/internal/forwarder/tunnel.go:198-208 | that prefix ends just before the first cancellation |
| Relay.BeforeCancelNone | backend/internal/forwarder/tunnel.go:198-208 | without a cancellation every event is handled |
| Relay.DialedClientsStep | backend/internal/forwarder/tunnel.go:231-240 | each datagram adds its client to the dialled set iff its dial succeeded |
| Agent.LatencyMs | agent/main.go:540-548 | ms of a successful connect, -1 (the only negative result) on failure |
| Agent.AgentTunnel.constructor | agent/main.go:175-183 | the request's fields, stopped, zero counters, lastUpdate now |
| Agent.AgentTunnel.Start | agent/main.go:253-277 | a no-op success when running; a failed bind returns the agent's error naming the port, stays stopped; a good bind sets running with the protocol's socket; the counters, rates and bookmarks are untouched |
| Agent.AgentTunnel.BindFailure | agent/main.go:279-366 | the error of a failed bind names the tunnel's local port and the cause, in the UDP form iff the protocol is "udp" |
| Agent.AgentTunnel.Stop | agent/main.go:460-482 | a no-op when stopped; otherwise closes the cancel channel, drops both sockets and clears running; the counters, rates and bookmarks are untouched |
| Agent.AgentTunnel.HandleTcpConn | agent/main.go:312-336 | each direction adds exactly its copy loop's counted bytes; nothing on dial failure |
| Agent.AgentTunnel.HandleUdp | agent/main.go:374-458 | as the controller's: BytesOut grows by every datagram before cancellation; the table ends empty on cancellation and otherwise holds the dialled clients |
| Agent.AgentTunnel.SampleRates | agent/main.go:556-567 | when no time has passed nothing changes; otherwise the rates are the deltas over the elapsed time and the bookmarks advance to the counters and now |
| Agent.AgentTunnel.Report | agent/main.go:520-533 | the tunnel's id, running flag, local port, target IP and port, protocol, live byte counters and last sampled rates; the latency is the probe's LatencyMs, ≥ 0 iff the probe connected |
| Agent.AgentProcess.constructor | agent/main.go:89-146 | an empty table with the agent's key and name |
| Agent.AgentProcess.CreateTunnel | agent/main.go:153-196 | an existing id is rejected with the table unchanged; a new tunnel is always registered and runs iff auto-start is set and the bind succeeded; a failed auto-start is reported with the error naming the port while the tunnel stays registered |
| Agent.AgentProcess.DeleteTunnel | agent/main.go:198-215 | an unknown id reports not found; otherwise that tunnel is stopped and removed, and only it |
| Agent.AgentProcess.StartTunnel | agent/main.go:217-235 | an unknown id reports not found; otherwise startTunnel's result (the bind error naming the port on failure), the tunnel's counters, rates and bookmarks kept, and other tunnels untouched |
| Agent.AgentProcess.StopTunnel | agent/main.go:237-251 | an unknown id reports not found; otherwise the tunnel is stopped with its counters, rates and bookmarks kept, and the others are untouched |
| Agent.AgentProcess.StopAllTunnels | agent/main.go:484-491 | every tunnel is stopped with its counters, rates and bookmarks kept, and the table's keys are unchanged |
| Agent.AgentProcess.UpdateRatesTick | agent/main.go:550-571 | every tunnel is sampled at now: where time has passed its rates are the bytes counted since its bookmarks over the elapsed time and the bookmarks advance to the counters and now; elsewhere it is unchanged |
| Agent.AgentProcess.ListTunnels | agent/main.go:517-535 | exactly one report per tunnel, each that tunnel's own |
| Agent.AgentProcess.GetNodeStatus | agent/main.go:493-538 | online, with the agent's key, name and uptime; TunnelCount is the number of tunnels and the list holds exactly one report per tunnel |
| Nodes.LatencyStatus | backend/internal/node/manager.go:357-365 | "error" iff negative, "warning" iff > 200, "normal" iff 0..200 |
| Nodes.LatencyStatusMonotone | backend/internal/node/manager.go:357-365 | a larger non-negative latency never gets a better label |
| Nodes.ThresholdsDiffer | backend/internal/node/manager.go:361-364 | the node labels disagree with the local tunnel's labels on 100..200 ms and from 300 ms, and agree below 100 ms |
| Nodes.SendRuleOutcome | backend/internal/node/manager.go:384-395 | success iff the node answered 200; otherwise the connect error or the node's error body |
| Nodes.CommandOutcome | backend/internal/node/manager.go:398-441 | success iff the node answered at all, whatever the status code |
| Nodes.TallyTunnels | backend/internal/node/manager.go:137-143 | the running count and the byte totals of a report's tunnels |
| Nodes.NodeViewActive | backend/internal/node/manager.go:128-147 | ActiveTunnels counts the report's running tunnels, is at most the number listed, and is zero without a report |
| Nodes.BuildNodeWithStatus | backend/internal/node/manager.go:128-147 | the node's view: its report's tunnel count, running count and byte sums, or all zero without a report |
| Nodes.FirstWithId | backend/internal/node/manager.go:295-311 | none iff no reported tunnel has the id; otherwise the first one that does |
| Nodes.FindTunnel | backend/internal/node/manager.go:295-311 | the search loop finds that first matching tunnel |
| Nodes.TunnelView | backend/internal/node/manager.go:265-314 | the rule's fields (CreatedAt zero) and the node's host; not running, latency -1/"error" and zero traffic by default, overridden only by a reported tunnel with the same id |
| Nodes.BuildTunnelStatus | backend/internal/node/manager.go:265-314 | one iteration of the listing builds that entry |
| Nodes.RunningOnlyIfReported | backend/internal/node/manager.go:265-314 | an entry is running only if the rule's node reported a running tunnel with its id |
| Nodes.PutAll | backend/internal/node/manager.go:542-557 | storing a list of records adds exactly their keys |
| Nodes.PutAllLastWins | backend/internal/node/manager.go:546-556 | a key holds the last record stored under it |
| Nodes.PutAllUntouched | backend/internal/node/manager.go:546-556 | keys not in the list keep their entries |
| Nodes.TallyStep | backend/internal/node/manager.go:525-538 | visiting one more node adds its view's running count and byte totals |
| Nodes.TallyNodes | backend/internal/node/manager.go:521-540 | activeNodes counts the online nodes; the tunnel count and byte totals are the sums over the node views |
| Nodes.Manager.constructor | backend/internal/node/manager.go:28-36 | both tables start empty |
| Nodes.Manager.AddNode | backend/internal/node/manager.go:38-52 | an existing id errors and nothing changes; otherwise the node is stored without a report |
| Nodes.Manager.UpdateNode | backend/internal/node/manager.go:54-65 | an unknown id errors; otherwise only that node's record is replaced, its report kept |
| Nodes.Manager.DeleteNode | backend/internal/node/manager.go:67-89 | an unknown id errors; otherwise the node and exactly the rules on it are removed, every other rule is kept as it was, and the uninstall request is sent |
| Nodes.Manager.AddRule | backend/internal/node/manager.go:149-161 | errors unless the rule's node is known; otherwise the rule is stored under its id, overwriting any entry, and sent to the node with auto-start |
| Nodes.Manager.UpdateRule | backend/internal/node/manager.go:163-190 | errors if the rule id or the new node is unknown; otherwise the rule is replaced, removed from its old node if it moved, and sent to the new one |
| Nodes.Manager.DeleteRule | backend/internal/node/manager.go:192-208 | an unknown id errors; otherwise only that rule is removed and its node, if still known, is told to delete it |
| Nodes.Manager.ToggleRule | backend/internal/node/manager.go:210-231 | the Enabled flag is set only after both the rule and its node are found; the node is told to start or stop |
| Nodes.Manager.GetAllTunnelStatus | backend/internal/node/manager.go:258-317 | exactly one entry per rule, each that rule's TunnelView |
| Nodes.Manager.GetGlobalStats | backend/internal/node/manager.go:521-540 | activeNodes counts the online nodes; the tunnel count and byte totals are the sums over the node views |
| Nodes.Manager.HandleHeartbeat | backend/internal/node/manager.go:503-519 | a node whose key matches (the first one the map iteration meets) gets the report: online, load, uptime, last seen now; without a match nothing changes |
| Nodes.Manager.RestoreRules | backend/internal/node/manager.go:542-557 | the saved nodes, without reports, and the saved rules are stored under their ids, later entries overwriting earlier ones |
| Dashboard.OrZero | frontend/src/stores/dashboard.js:46-47 | a present rate is recorded as it is (`0 \|\| 0` is 0 too); a missing one as 0 |
| Dashboard.SampleOf | frontend/src/stores/dashboard.js:44-48 | the message's timestamp, or now when it is missing or 0; the global object's rates through OrZero, or 0 when the global object is missing |
| Dashboard.ActiveTunnelCount | frontend/src/stores/dashboard.js:30-32 | the number of tunnels with running set, at most the number of tunnels |
| Dashboard.TotalConnectionsAppend | frontend/src/stores/dashboard.js:34-36 | the total is additive over the tunnel list |
| Dashboard.TotalConnectionsMissing | frontend/src/stores/dashboard.js:35 | entries without connections count as zero |
| Dashboard.Pushed | frontend/src/stores/dashboard.js:44-52 | the new sample is last, the length stays ≤ 60, and the rest is the old history or it without its oldest sample |
| Dashboard.PushedKeepsRecent | frontend/src/stores/dashboard.js:44-52 | below 60 nothing is dropped; at 60 exactly the oldest is dropped; order is kept |
| Dashboard.PushAllSuffix | frontend/src/stores/dashboard.js:44-52 | after any number of updates the history holds min(old + new, 60) samples: exactly the most recent ones, in order |
| Dashboard.Store.constructor | frontend/src/stores/dashboard.js:5-27 | the initial zero system, global, tunnels and history |
| Dashboard.Store.UpdateData | frontend/src/stores/dashboard.js:38-53 | system, global and tunnels are replaced only when present; exactly one sample is pushed |
| Dashboard.Store.ClearHistory | frontend/src/stores/dashboard.js:55-57 | the history is emptied and nothing else changes |
| Format.JsRem | frontend/src/utils/format.js:26-28 | JavaScript's `%`: the Euclidean remainder for a non-negative dividend, non-positive and above -b for a negative one, and in both cases congruent to the dividend modulo b |
| Format.UptimeComponents | frontend/src/utils/format.js:25-28 | d·86400 + h·3600 + m·60 + s = seconds, with h < 24, m < 60, s < 60 |
| Format.FormatUptime | frontend/src/utils/format.js:22-37 | "0s" for zero; never empty |
| Format.PiecesShape | frontend/src/utils/format.js:30-34 | at least one part, units among d, h, m, s, no negative value, and no zero value unless every component is zero |
| Format.PiecesOrdered | frontend/src/utils/format.js:30-34 | the units strictly follow the order d, h, m, s |
| Format.PiecesTotal | frontend/src/utils/format.js:30-34 | the parts add back up to the components' seconds |
| Format.UptimePartsMeaning | frontend/src/utils/format.js:22-36 | for positive seconds, every part is digits plus unit with a positive value, the units strictly ordered, and the parts add up to the input |
| Format.UptimeRoundTrip | frontend/src/utils/format.js:22-36 | splitting the output at spaces and reading it back gives the input |
| Format.UptimeWholeHour | frontend/src/utils/format.js:31-34 | 3600 gives "1h" |
| Format.UptimeAllUnits | frontend/src/utils/format.js:22-36 | 90061 gives "1d 1h 1m 1s" |
| Format.UptimeNegative | frontend/src/utils/format.js:25-34 | -5 gives "-5s" |
| Format.FormatLatency | frontend/src/utils/format.js:44-47 | "-" iff missing or negative; otherwise decimal digits whose value is the latency, followed by " ms" |
| Format.FormatLatencyInjective | frontend/src/utils/format.js:44-47 | distinct latencies give distinct texts |
| I18n.Translate | frontend/src/i18n/index.js:273-284 | under an unknown locale the key itself; any other result is the non-empty node the key's path resolves to |
| I18n.ResolveAppend | frontend/src/i18n/index.js:276-282 | walking a path in two pieces is walking it whole |
| I18n.ResolveMissingSegment | frontend/src/i18n/index.js:276-282 | a missing segment makes the path lead nowhere |
| I18n.ResolveThroughString | frontend/src/i18n/index.js:277-281 | meeting a string before the last segment makes the path lead nowhere |
| I18n.KeyOfPath | frontend/src/i18n/index.js:274 | a dotted key splits back into its segments |
| I18n.TranslateFound | frontend/src/i18n/index.js:273-284 | a key resolving to a non-empty string returns that string |
| I18n.TranslateSubTable | frontend/src/i18n/index.js:283 | a key resolving to a sub-table returns the table, not the key |
| I18n.TranslateMissingSegment | frontend/src/i18n/index.js:276-283 | a key with a missing segment returns itself |
| I18n.TranslateThroughString | frontend/src/i18n/index.js:277-281 | a key that meets a string before its end returns itself |
| I18n.InitialLocale | frontend/src/i18n/index.js:262 | the stored locale, or "zh" when missing or empty |
| I18n.Translator.constructor | frontend/src/i18n/index.js:262 | the locale starts as InitialLocale of the stored one |
| I18n.Translator.SetLocale | frontend/src/i18n/index.js:265-271 | the locale in force and the stored locale both become the new one |
| I18n.Translator.T | frontend/src/i18n/index.js:273-284 | the segment walk returns Translate under the current locale |
| Socket.Pow2Monotone | frontend/src/composables/useWebSocket.js:58 | powers of two grow with the exponent |
| Socket.ReconnectDelay | frontend/src/composables/useWebSocket.js:58 | min(1000·2^attempts, 30000): never over 30 s |
| Socket.ReconnectDelayMonotone | frontend/src/composables/useWebSocket.js:58-59 | more attempts never shorten the delay, so consecutive delays never decrease |
| Socket.ReconnectDelaySchedule | frontend/src/composables/useWebSocket.js:58 | 1 s, 2 s, … 16 s, then 30 s from the sixth attempt on |
| Socket.TotalDelay | frontend/src/composables/useWebSocket.js:53-59 | n delays total at most 30 s each |
| Socket.TotalDelayMonotone | frontend/src/composables/useWebSocket.js:53-59 | more delays never shorten the total |
| Socket.TotalDelayBeforeGivingUp | frontend/src/composables/useWebSocket.js:53-59 | the ten delays before giving up total 181 s |
| Socket.TotalDelayBound | frontend/src/composables/useWebSocket.js:53-59 | no run of up to ten delays waits more than 181 s |
| Socket.Connection.constructor | frontend/src/composables/useWebSocket.js:5-9 | disconnected, no socket, no timer, zero attempts |
| Socket.Connection.ScheduleReconnect | frontend/src/composables/useWebSocket.js:52-65 | nothing at ≥ 10 attempts; otherwise the delay from the attempts before the increment, one more attempt, and a timer; attempts never exceed 10 |
| Socket.Connection.Connect | frontend/src/composables/useWebSocket.js:11-50 | nothing without a token; a new socket when it can be created; otherwise ScheduleReconnect's outcome: no delay, attempts and timer kept at ≥ 10 attempts, else the delay of the old count, one more attempt and a timer |
| Socket.Connection.OnOpen | frontend/src/composables/useWebSocket.js:22-26 | connected, and the attempts reset to 0 |
| Socket.Connection.OnClose | frontend/src/composables/useWebSocket.js:37-41 | not connected, and a reconnect is scheduled: no delay, attempts and timer kept at ≥ 10 attempts, else the delay of the old count, one more attempt and a timer |
| Socket.Connection.Disconnect | frontend/src/composables/useWebSocket.js:67-79 | timer and socket cleared and not connected; the attempts are left unchanged |

## Left out

- Socket I/O (listen, accept, dial, read, write, resolve, deadlines) is replaced by input outcomes and event sequences. Payload bytes are not modelled, only their counts.
- Concurrency is left out: goroutines, mutexes, atomics, wait groups, and the ticker loops `latencyProbe`, `updateRatesLoop` and `healthCheckLoop`. The operations run one at a time, and cancellation is a flag.
- When the UDP loop is cancelled during a failed receive it returns without closing its sessions. The model discards the session table in both cancellation paths, because the table belongs to the goroutine that ends.
- Rates are floating point in the source. The model keeps the (delta, elapsed) pair of a sample and does not divide. Node load, network rates and the dashboard's chart rates are copied as `real` values.
- Forwarder.Manager.GetGlobalTraffic: only the byte totals are stated. The sums of the tunnels' floating-point rates are not modelled.
- `int64` counters and JavaScript numbers are unbounded integers, so overflow is not modelled. Dashboard timestamps are `real`, and uptime and latency inputs to the formatters are integers.
- The agent measures `time.Now()` once per tunnel in its rate tick. The model uses one `now` for the whole tick.
- The agent reports cumulative `BytesRecv`/`BytesSent` as its network rates. This comes from host metrics (gopsutil), which are parameters here.
- HTTP, JSON and authentication are left out. The node manager's requests to a node are returned as `RemoteCall` descriptions, and the node's reply is an `HttpReply` input. Uninstall's own request, `checkNode`, agent registration and `handleUninstall` are not modelled.
- Go pointers to `NodeInfo` and `NodeRule` are map values here. No modelled operation shares them. ToggleRule's write to the rule through its pointer after unlocking is modelled as an ordinary update.
- Getters that only copy or filter are left out: forwarder `GetTunnelStatus`, `GetAllStatus`, `GetUptime` and `UpdateAllRates` (which calls UpdateRates on each tunnel). From the node manager: `GetNode`, `GetAllNodes`, `GetAllRules`, `GetRulesByNode` and `GetNodesForSave`.
- The node manager's `GetGlobalTraffic` and `GetActiveTunnelCount` are not modelled. They compute the same sums and count over the node views as `GetGlobalStats`, which is modelled.
- `formatBytes`, `formatBytesRate` and `formatPercent` depend on `Math.log` and `toFixed`, so they are not modelled.
- The contents of the message table are not modelled. The translation lemmas hold for every table.
- I18n.Translate: JavaScript property lookup also finds inherited members (a segment such as `toString`). The model's tables hold only their own entries.
- Format.FormatUptime: non-integer seconds are not modelled.
- The WebSocket object, message parsing and the closure over `onMessage` are not modelled. So is the close event that `disconnect`'s `close()` later delivers.
- Persistence (the rules file, `localStorage` apart from the locale entry) and the system metrics are not modelled.

## Findings

| source | as written | input that shows it | evidently intended | confidence | as-written member | corrected member |
|---|---|---|---|---|---|---|
| backend/internal/forwarder/manager.go:93-97 | disabling calls Tunnel.Stop, which returns at tunnel.go:322-324 without touching the rule when the tunnel is not running, so rule.Enabled stays set; server.go:226-231 then saves the rules with that flag | a rule with Enabled set whose tunnel is stopped (its bind failed at start-up), toggled with enabled = false: the call succeeds and the saved rule is still enabled | a disable clears Enabled whether or not the tunnel was running | not executed; follows from the cited lines | Forwarder.ToggledRule, Forwarder.DisableStoppedStaysEnabled | Forwarder.IntendedToggledRule, Forwarder.IntendedToggleHonoursDisable |
