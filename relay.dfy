/** The relay machinery that the controller's tunnel
    (backend/internal/forwarder/tunnel.go) and the agent's tunnel
    (agent/main.go) implement with the same code: the byte counters, the
    per-direction TCP copy loop, and the UDP session table with its inbound
    loop and per-session reverse path.

    Sockets are not modelled: each read of the copy loop and each datagram of
    the UDP loop is an input event, a dial is a boolean outcome, and a UDP
    session's outbound socket is represented by a number. */
module Relay {
  import opened Wrappers
  import Sums

  /** Size of the copy loop's buffer: one read returns at most 32 KiB. */
  const CopyBufferSize: nat := 32 * 1024

  /** Size of the UDP receive buffers. */
  const DatagramBufferSize: nat := 65535

  /** The live cumulative byte counters of one tunnel. By the convention of
      both deployments, bytes travelling client to target are counted in
      `bytesOut` and bytes travelling target to client in `bytesIn`, for TCP
      and UDP alike. */
  class ByteCounters {
    var bytesIn: nat
    var bytesOut: nat

    constructor ()
      ensures bytesIn == 0 && bytesOut == 0
    {
      bytesIn, bytesOut := 0, 0;
    }
  }

  /** The two copy tasks of a TCP connection. */
  datatype Direction =
    | Upstream    // client to target, counted in bytesOut
    | Downstream  // target to client, counted in bytesIn

  // ---------------------------------------------------------------------
  // TCP copy loop (copyWithStats)
  // ---------------------------------------------------------------------

  type Chunk = n: nat | n <= CopyBufferSize

  /** How a read ended: no error, end of stream, or any other error (a read
      deadline expiring included). */
  datatype ReadError = NoError | EndOfStream | ReadFailed

  /** One iteration of the copy loop: either the loop observes that the
      tunnel was cancelled, or it reads `n` bytes with error `err` and, when
      `n > 0`, writes them with success `writeOk`. */
  datatype CopyStep =
    | Read(n: Chunk, err: ReadError, writeOk: bool)
    | Cancelled

  /** The step ends the loop: cancellation, a failed write, or a read error. */
  predicate Ends(s: CopyStep) {
    match s
    case Cancelled => true
    case Read(n, err, writeOk) => (n > 0 && !writeOk) || err != NoError
  }

  /** Bytes a step adds to the counter: every byte read is counted, before
      the write is attempted. */
  function StepBytes(s: CopyStep): int {
    if s.Read? then s.n else 0
  }

  /** Bytes the copy loop counts for a sequence of steps. */
  function CountedBytes(steps: seq<CopyStep>): int
    decreases |steps|
  {
    if steps == [] then 0
    else StepBytes(steps[0]) + (if Ends(steps[0]) then 0 else CountedBytes(steps[1..]))
  }

  /** Number of steps the loop performs: up to and including the first
      ending step. */
  function StepsPerformed(steps: seq<CopyStep>): (k: nat)
    ensures k <= |steps|
    ensures forall j :: 0 <= j < k - 1 ==> !Ends(steps[j])
    ensures k < |steps| ==> k > 0 && Ends(steps[k - 1])
    ensures k == |steps| && k > 0 && !Ends(steps[k - 1]) ==> forall j :: 0 <= j < k ==> !Ends(steps[j])
    decreases |steps|
  {
    if steps == [] then 0
    else if Ends(steps[0]) then 1
    else 1 + StepsPerformed(steps[1..])
  }

  /** The counted bytes are exactly the bytes read by the steps performed:
      bytes read before a failed write or together with an error stay
      counted, and nothing after the ending step is. */
  lemma {:induction false} CountedIsPerformedReads(steps: seq<CopyStep>)
    ensures CountedBytes(steps) == Sums.SeqSum(steps[..StepsPerformed(steps)], StepBytes)
    decreases |steps|
  {
    if steps != [] {
      var k := StepsPerformed(steps);
      if Ends(steps[0]) {
        assert steps[..1] == [steps[0]];
        assert steps[..1][..0] == [];
      } else {
        var rest := steps[1..];
        CountedIsPerformedReads(rest);
        assert steps[..k] == [steps[0]] + rest[..k - 1];
        assert k - 1 == StepsPerformed(rest);
        Sums.SeqSumAppend([steps[0]], rest[..k - 1], StepBytes);
        assert [steps[0]][..0] == [];
        assert Sums.SeqSum([steps[0]], StepBytes) == StepBytes(steps[0]);
      }
    }
  }

  /** A copy loop never counts a negative number of bytes. */
  lemma CountedNonNegative(steps: seq<CopyStep>)
    ensures CountedBytes(steps) >= 0
  {
    CountedIsPerformedReads(steps);
    Sums.SeqSumNonNegative(steps[..StepsPerformed(steps)], StepBytes);
  }

  /** The counter grows by at most one buffer per step performed. */
  lemma {:induction false} CountedBytesBound(steps: seq<CopyStep>)
    ensures CountedBytes(steps) <= CopyBufferSize * StepsPerformed(steps)
    decreases |steps|
  {
    if steps != [] && !Ends(steps[0]) {
      CountedBytesBound(steps[1..]);
    }
  }

  /** The copy loop of one direction of a TCP connection. `cancelled` is the
      tunnel's cancellation state when the loop starts; a later cancellation
      is a `Cancelled` step. Returns the number of steps performed. */
  method CopyWithStats(counters: ByteCounters, dir: Direction, cancelled: bool, steps: seq<CopyStep>)
    returns (performed: nat)
    modifies counters
    ensures performed == if cancelled then 0 else StepsPerformed(steps)
    ensures dir == Upstream ==>
      counters.bytesOut == old(counters.bytesOut) + (if cancelled then 0 else CountedBytes(steps))
      && counters.bytesIn == old(counters.bytesIn)
    ensures dir == Downstream ==>
      counters.bytesIn == old(counters.bytesIn) + (if cancelled then 0 else CountedBytes(steps))
      && counters.bytesOut == old(counters.bytesOut)
  {
    var i := 0;
    performed := 0;
    while i < |steps|
      invariant 0 <= i <= |steps|
      invariant cancelled ==> i == 0
      invariant performed == i
      invariant StepsPerformed(steps) == i + StepsPerformed(steps[i..])
      invariant CountedBytes(steps) == Sums.SeqSum(steps[..i], StepBytes) + CountedBytes(steps[i..])
      invariant dir == Upstream ==>
        counters.bytesOut == old(counters.bytesOut) + Sums.SeqSum(steps[..i], StepBytes)
        && counters.bytesIn == old(counters.bytesIn)
      invariant dir == Downstream ==>
        counters.bytesIn == old(counters.bytesIn) + Sums.SeqSum(steps[..i], StepBytes)
        && counters.bytesOut == old(counters.bytesOut)
    {
      if cancelled {
        return;
      }
      var step := steps[i];
      StepAt(steps, i);
      Sums.SeqSumStep(steps, i, StepBytes);
      performed := performed + 1;
      if step.Cancelled? {
        return;
      }
      if step.n > 0 {
        if dir == Upstream {
          counters.bytesOut := counters.bytesOut + step.n;
        } else {
          counters.bytesIn := counters.bytesIn + step.n;
        }
        if !step.writeOk {
          return;
        }
      }
      if step.err != NoError {
        return;
      }
      i := i + 1;
    }
  }

  /** How the step at `i` contributes to what the loop performs and
      counts from there on. */
  lemma StepAt(steps: seq<CopyStep>, i: nat)
    requires i < |steps|
    ensures Ends(steps[i]) ==>
      StepsPerformed(steps[i..]) == 1 && CountedBytes(steps[i..]) == StepBytes(steps[i])
    ensures !Ends(steps[i]) ==>
      && StepsPerformed(steps[i..]) == 1 + StepsPerformed(steps[i + 1..])
      && CountedBytes(steps[i..]) == StepBytes(steps[i]) + CountedBytes(steps[i + 1..])
  {
    assert steps[i..][0] == steps[i] && steps[i..][1..] == steps[i + 1..];
  }

  // ---------------------------------------------------------------------
  // UDP session table (handleUDP)
  // ---------------------------------------------------------------------

  type DatagramSize = n: nat | n <= DatagramBufferSize

  /** What one iteration of the inbound loop observes on the shared socket. */
  datatype InboundEvent =
    | Datagram(client: string, n: DatagramSize, dialOk: bool)
      // n bytes from `client`; `dialOk` is the outcome of dialling the
      // target, used only when the client has no session yet
    | ReceiveTimeout  // the 1 s read deadline expired
    | ReceiveFailed   // any other receive error
    | Cancel          // the loop observes the tunnel's cancellation

  /** What one iteration of a session's reverse path observes on the
      session's outbound socket. */
  datatype ReverseEvent =
    | Received(n: DatagramSize)  // a reply, written back to the client
    | IdleTimeout                // the 30 s read deadline expired
    | ReverseFailed              // any other read error

  /** The session table of one run of the UDP relay: client address to the
      outbound socket dialled for it. */
  class UdpSessions {
    var clients: map<string, nat>
    var nextSocket: nat

    /** Sockets are never reused, so distinct clients never share a session. */
    ghost predicate Valid()
      reads this
    {
      && (forall k :: k in clients ==> clients[k] < nextSocket)
      && (forall a, b :: a in clients && b in clients && a != b ==> clients[a] != clients[b])
    }

    constructor ()
      ensures Valid() && clients == map[]
    {
      clients, nextSocket := map[], 0;
    }

    /** The forward path for one datagram: count it, then reuse the client's
        session or dial a new one. A failed dial drops the datagram without
        inserting anything; its bytes stay counted. */
    method Forward(client: string, n: DatagramSize, dialOk: bool, counters: ByteCounters)
      returns (session: Option<nat>)
      requires Valid()
      modifies this, counters
      ensures Valid()
      ensures counters.bytesOut == old(counters.bytesOut) + n
      ensures counters.bytesIn == old(counters.bytesIn)
      ensures old(client in clients) ==>
        clients == old(clients) && session == Some(old(clients[client]))
      ensures old(client !in clients) && !dialOk ==>
        clients == old(clients) && session == None
      ensures old(client !in clients) && dialOk ==>
        && session.Some?
        && session.value !in old(clients).Values
        && clients == old(clients)[client := session.value]
    {
      counters.bytesOut := counters.bytesOut + n;
      if client in clients {
        session := Some(clients[client]);
      } else if !dialOk {
        session := None;
      } else {
        var socket := nextSocket;
        clients := clients[client := socket];
        nextSocket := nextSocket + 1;
        session := Some(socket);
      }
    }

    /** One iteration of the reverse path of `client`'s session: a reply is
        counted, an idle timeout evicts this client only and closes its
        socket (returned), any other error keeps the session. */
    method Reverse(client: string, event: ReverseEvent, counters: ByteCounters)
      returns (closed: Option<nat>)
      requires Valid() && client in clients
      modifies this, counters
      ensures Valid()
      ensures counters.bytesOut == old(counters.bytesOut)
      ensures counters.bytesIn == old(counters.bytesIn) + (if event.Received? then event.n else 0)
      ensures event.IdleTimeout? ==>
        clients == old(clients) - {client} && closed == Some(old(clients[client]))
      ensures !event.IdleTimeout? ==> clients == old(clients) && closed == None
    {
      match event
      case Received(n) =>
        counters.bytesIn := counters.bytesIn + n;
        closed := None;
      case IdleTimeout =>
        closed := Some(clients[client]);
        clients := clients - {client};
      case ReverseFailed =>
        closed := None;
    }

    /** Cancellation: every session socket is closed and the loop ends, so
        the table is discarded. */
    method CloseAll() returns (closed: set<nat>)
      requires Valid()
      modifies this
      ensures Valid()
      ensures closed == old(clients.Values) && clients == map[]
    {
      closed := clients.Values;
      clients := map[];
    }

    /** One iteration of the inbound loop that does not observe
        cancellation: a datagram goes through the forward path, a receive
        timeout or error only starts the next iteration. */
    method Receive(event: InboundEvent, counters: ByteCounters)
      requires Valid() && !event.Cancel?
      modifies this, counters
      ensures Valid()
      ensures counters.bytesOut == old(counters.bytesOut) + DatagramBytes(event)
      ensures counters.bytesIn == old(counters.bytesIn)
      ensures clients.Keys == old(clients).Keys
        + (if event.Datagram? && event.dialOk then {event.client} else {})
      ensures forall k :: k in old(clients) ==> k in clients && clients[k] == old(clients)[k]
    {
      if event.Datagram? {
        var _ := Forward(event.client, event.n, event.dialOk, counters);
      }
    }

    /** The inbound loop of the UDP relay over a sequence of observations.
        Returns the number of events it consumed (it stops after the first
        `Cancel`). */
    method Serve(events: seq<InboundEvent>, counters: ByteCounters) returns (consumed: nat)
      requires Valid()
      modifies this, counters
      ensures Valid()
      ensures consumed == |BeforeCancel(events)| + (if HasCancel(events) then 1 else 0)
      ensures counters.bytesOut == old(counters.bytesOut) + ForwardedBytes(BeforeCancel(events))
      ensures counters.bytesIn == old(counters.bytesIn)
      ensures HasCancel(events) ==> clients == map[]
      ensures !HasCancel(events) ==>
        && clients.Keys == old(clients).Keys + DialedClients(events)
        && forall k :: k in old(clients) ==> k in clients && clients[k] == old(clients)[k]
    {
      var i := 0;
      while i < |events|
        invariant 0 <= i <= |events|
        invariant Valid()
        invariant forall j :: 0 <= j < i ==> !events[j].Cancel?
        invariant counters.bytesOut == old(counters.bytesOut) + ForwardedBytes(events[..i])
        invariant counters.bytesIn == old(counters.bytesIn)
        invariant clients.Keys == old(clients).Keys + DialedClients(events[..i])
        invariant forall k :: k in old(clients) ==> k in clients && clients[k] == old(clients)[k]
      {
        if events[i].Cancel? {
          BeforeCancelAt(events, i);
          var _ := CloseAll();
          return i + 1;
        }
        DialedClientsStep(events, i);
        Sums.SeqSumStep(events, i, DatagramBytes);
        Receive(events[i], counters);
        i := i + 1;
      }
      BeforeCancelNone(events);
      assert events[..i] == events;
      consumed := i;
    }
  }

  /** The events up to the first cancellation. */
  function BeforeCancel(events: seq<InboundEvent>): (pre: seq<InboundEvent>)
    ensures |pre| <= |events|
    decreases |events|
  {
    if events == [] || events[0].Cancel? then [] else [events[0]] + BeforeCancel(events[1..])
  }

  predicate HasCancel(events: seq<InboundEvent>) {
    exists i :: 0 <= i < |events| && events[i].Cancel?
  }

  lemma {:induction false} BeforeCancelAt(events: seq<InboundEvent>, i: nat)
    requires i < |events| && events[i].Cancel?
    requires forall j :: 0 <= j < i ==> !events[j].Cancel?
    ensures BeforeCancel(events) == events[..i] && HasCancel(events)
    decreases i
  {
    if i > 0 {
      BeforeCancelAt(events[1..], i - 1);
      assert events[..i] == [events[0]] + events[1..][..i - 1];
    }
  }

  lemma {:induction false} BeforeCancelNone(events: seq<InboundEvent>)
    requires forall j :: 0 <= j < |events| ==> !events[j].Cancel?
    ensures BeforeCancel(events) == events && !HasCancel(events)
    decreases |events|
  {
    if events != [] {
      BeforeCancelNone(events[1..]);
      assert events == [events[0]] + events[1..];
    }
  }

  function DatagramBytes(e: InboundEvent): int {
    if e.Datagram? then e.n else 0
  }

  /** Bytes counted by the inbound loop: every datagram received, whether
      or not a session could be dialled for it. */
  function ForwardedBytes(events: seq<InboundEvent>): int {
    Sums.SeqSum(events, DatagramBytes)
  }

  /** Clients whose datagram found a working dial before cancellation. */
  ghost function DialedClients(events: seq<InboundEvent>): set<string> {
    set i | 0 <= i < |events| && events[i].Datagram? && events[i].dialOk :: events[i].client
  }

  lemma DialedClientsStep(events: seq<InboundEvent>, i: nat)
    requires i < |events|
    ensures DialedClients(events[..i + 1]) ==
      DialedClients(events[..i])
      + (if events[i].Datagram? && events[i].dialOk then {events[i].client} else {})
  {
    var pre, next := events[..i], events[..i + 1];
    forall c | c in DialedClients(next)
      ensures c in DialedClients(pre) || (events[i].Datagram? && events[i].dialOk && c == events[i].client)
    {
      var j :| 0 <= j < |next| && next[j].Datagram? && next[j].dialOk && next[j].client == c;
      if j < i {
        assert pre[j] == next[j];
      }
    }
    forall c | c in DialedClients(pre) ensures c in DialedClients(next) {
      var j :| 0 <= j < |pre| && pre[j].Datagram? && pre[j].dialOk && pre[j].client == c;
      assert next[j] == pre[j];
    }
    if events[i].Datagram? && events[i].dialOk {
      assert next[i] == events[i];
    }
  }
}
