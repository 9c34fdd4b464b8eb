/** The dashboard store (frontend/src/stores/dashboard.js): the latest
    system, traffic and tunnel data pushed over the WebSocket, and a
    bounded history of traffic-rate samples for the chart.

    The pushed data is JSON in which any field may be missing; a missing
    field is `None`. Rates are kept as the `real` values received and only
    copied. `Date.now() / 1000` is passed in as `nowSeconds`. */
module Dashboard {
  import opened Wrappers
  import opened Models
  import Sums

  /** The chart keeps at most this many samples. */
  const MaxHistoryLength := 60

  /** The `global` object as received: totals, and rates that may be
      missing. */
  datatype GlobalData = GlobalData(totalIn: int, totalOut: int, rateIn: Option<real>, rateOut: Option<real>)

  const NoGlobal := GlobalData(0, 0, Some(0.0), Some(0.0))

  /** A tunnel entry as received; only the fields the store reads are
      kept. `connections` is `None` when `traffic` or its `connections`
      field is missing. */
  datatype TunnelData = TunnelData(id: string, running: bool, connections: Option<int>)

  /** One `updateData` message; `timestamp` may be missing. */
  datatype Update = Update(
    system: Option<SystemStats>,
    global: Option<GlobalData>,
    tunnels: Option<seq<TunnelData>>,
    timestamp: Option<real>)

  /** One chart point. */
  datatype Sample = Sample(timestamp: real, rateIn: real, rateOut: real)

  const NoSystem := SystemStats(0.0, 0.0, 0, 0, 0, 0, 0.0, 0.0, 0, 0)

  /** `x || 0` on an optional number: missing and zero both give zero. */
  function OrZero(x: Option<real>): (r: real)
    ensures x.Some? ==> r == x.value
    ensures x.None? ==> r == 0.0
  {
    if x.Some? then x.value else 0.0
  }

  /** The sample an update adds: the message's timestamp unless missing
      or zero, else the current time; the message's global rates, zero
      when the global object or the rate is missing. */
  function SampleOf(data: Update, nowSeconds: real): (s: Sample)
    ensures data.global.None? ==> s.rateIn == 0.0 && s.rateOut == 0.0
    ensures data.global.Some? ==>
      s.rateIn == OrZero(data.global.value.rateIn) && s.rateOut == OrZero(data.global.value.rateOut)
    ensures data.timestamp.None? || data.timestamp == Some(0.0) ==> s.timestamp == nowSeconds
    ensures data.timestamp.Some? && data.timestamp.value != 0.0 ==> s.timestamp == data.timestamp.value
  {
    var ts := if data.timestamp.Some? && data.timestamp.value != 0.0 then data.timestamp.value else nowSeconds;
    match data.global
    case None => Sample(ts, 0.0, 0.0)
    case Some(g) => Sample(ts, OrZero(g.rateIn), OrZero(g.rateOut))
  }

  /** activeTunnelCount: the tunnels whose `running` is set. */
  function TunnelRunning(t: TunnelData): bool {
    t.running
  }

  function ActiveTunnelCount(tunnels: seq<TunnelData>): (n: nat)
    ensures n == |Sums.Positions(tunnels, TunnelRunning)|
    ensures n <= |tunnels|
  {
    Sums.SeqCountIsPositions(tunnels, TunnelRunning);
    Sums.SeqCountBound(tunnels, TunnelRunning);
    Sums.SeqCount(tunnels, TunnelRunning)
  }

  /** The connections of one entry, zero when missing. */
  function ConnectionsOf(t: TunnelData): int {
    t.connections.GetOr(0)
  }

  /** totalConnections: the sum of the entries' connection counts, a
      missing one counting as zero. */
  function TotalConnections(tunnels: seq<TunnelData>): int {
    Sums.SeqSum(tunnels, ConnectionsOf)
  }

  /** The total over a list split in two is the sum of the two totals,
      so entries without connections add nothing. */
  lemma TotalConnectionsAppend(a: seq<TunnelData>, b: seq<TunnelData>)
    ensures TotalConnections(a + b) == TotalConnections(a) + TotalConnections(b)
  {
    Sums.SeqSumAppend(a, b, ConnectionsOf);
  }

  lemma {:induction false} TotalConnectionsMissing(tunnels: seq<TunnelData>)
    requires forall i :: 0 <= i < |tunnels| ==> tunnels[i].connections.None?
    ensures TotalConnections(tunnels) == 0
    decreases |tunnels|
  {
    if tunnels != [] {
      TotalConnectionsMissing(tunnels[..|tunnels| - 1]);
    }
  }

  /** The history after `push(sample)` and, past the bound, one `shift`. */
  function Pushed(history: seq<Sample>, sample: Sample): (h: seq<Sample>)
    ensures |history| <= MaxHistoryLength ==> |h| <= MaxHistoryLength
    ensures |h| > 0 && h[|h| - 1] == sample
    ensures h[..|h| - 1] == history || (|history| > 0 && h[..|h| - 1] == history[1..])
  {
    var grown := history + [sample];
    if |grown| > MaxHistoryLength then grown[1..] else grown
  }

  /** Below the bound nothing is dropped; at the bound exactly the oldest
      sample is; the retained samples keep their order. */
  lemma PushedKeepsRecent(history: seq<Sample>, sample: Sample)
    requires |history| <= MaxHistoryLength
    ensures |history| < MaxHistoryLength ==> Pushed(history, sample) == history + [sample]
    ensures |history| == MaxHistoryLength ==> Pushed(history, sample) == history[1..] + [sample]
    ensures |Pushed(history, sample)| == if |history| < MaxHistoryLength then |history| + 1 else MaxHistoryLength
  {
  }

  /** Any number of updates keeps the history within the bound, newest
      last, each the suffix of the samples pushed so far. */
  function PushAll(history: seq<Sample>, samples: seq<Sample>): seq<Sample>
    decreases |samples|
  {
    if samples == [] then history else PushAll(Pushed(history, samples[0]), samples[1..])
  }

  lemma {:induction false} PushAllSuffix(history: seq<Sample>, samples: seq<Sample>)
    requires |history| <= MaxHistoryLength
    ensures var all, h := history + samples, PushAll(history, samples);
      && |h| == (if |all| < MaxHistoryLength then |all| else MaxHistoryLength)
      && h == all[|all| - |h|..]
    decreases |samples|
  {
    if samples == [] {
      assert history + samples == history;
    } else {
      var grown := history + [samples[0]];
      var d := if |history| < MaxHistoryLength then 0 else 1;
      PushedKeepsRecent(history, samples[0]);
      assert Pushed(history, samples[0]) == grown[d..];
      PushAllSuffix(grown[d..], samples[1..]);
      SplitFirst(history, samples);
      DropThenAppend(grown, samples[1..], d);
      TailOfDrop(history + samples, d, |PushAll(history, samples)|);
    }
  }

  lemma SplitFirst<T>(a: seq<T>, b: seq<T>)
    requires |b| > 0
    ensures a + b == (a + [b[0]]) + b[1..]
  {
    assert b == [b[0]] + b[1..];
  }

  lemma DropThenAppend<T>(a: seq<T>, b: seq<T>, d: nat)
    requires d <= |a|
    ensures a[d..] + b == (a + b)[d..]
  {
  }

  lemma TailOfDrop<T>(s: seq<T>, d: nat, n: nat)
    requires d <= |s| && n <= |s| - d
    ensures s[d..][|s| - d - n..] == s[|s| - n..]
  {
  }

  class Store {
    var system: SystemStats
    var global: GlobalData
    var tunnels: seq<TunnelData>
    var trafficHistory: seq<Sample>

    ghost predicate Valid()
      reads this
    {
      |trafficHistory| <= MaxHistoryLength
    }

    constructor ()
      ensures Valid()
      ensures system == NoSystem && global == NoGlobal && tunnels == [] && trafficHistory == []
    {
      system, global, tunnels, trafficHistory := NoSystem, NoGlobal, [], [];
    }

    /** updateData: each of system, global and tunnels is replaced only
        when present in the message, and one sample is appended to the
        history, the oldest being dropped past the bound. */
    method UpdateData(data: Update, nowSeconds: real)
      requires Valid()
      modifies this
      ensures Valid()
      ensures system == (if data.system.Some? then data.system.value else old(system))
      ensures global == (if data.global.Some? then data.global.value else old(global))
      ensures tunnels == (if data.tunnels.Some? then data.tunnels.value else old(tunnels))
      ensures trafficHistory == Pushed(old(trafficHistory), SampleOf(data, nowSeconds))
    {
      if data.system.Some? {
        system := data.system.value;
      }
      if data.global.Some? {
        global := data.global.value;
      }
      if data.tunnels.Some? {
        tunnels := data.tunnels.value;
      }
      var ts := nowSeconds;
      if data.timestamp.Some? && data.timestamp.value != 0.0 {
        ts := data.timestamp.value;
      }
      var rateIn, rateOut := 0.0, 0.0;
      if data.global.Some? {
        rateIn, rateOut := OrZero(data.global.value.rateIn), OrZero(data.global.value.rateOut);
      }
      trafficHistory := trafficHistory + [Sample(ts, rateIn, rateOut)];
      if |trafficHistory| > MaxHistoryLength {
        trafficHistory := trafficHistory[1..];
      }
    }

    /** clearHistory: the history is emptied and nothing else changes. */
    method ClearHistory()
      modifies this`trafficHistory
      ensures Valid() && trafficHistory == []
    {
      trafficHistory := [];
    }
  }
}
