/** The dashboard's WebSocket connection with reconnection backoff
    (frontend/src/composables/useWebSocket.js). The browser socket and the
    timer are not modelled: what the composable keeps is whether a socket
    and a timer handle are held, whether the socket is open, and the
    number of reconnection attempts made since the last successful open.
    Whether a token is stored and whether `new WebSocket` throws are
    inputs. */
module Socket {
  import opened Wrappers

  /** No reconnection is scheduled after this many attempts. */
  const MaxReconnectAttempts := 10
  /** The longest wait between attempts, in milliseconds. */
  const MaxDelayMs := 30000

  function Pow2(n: nat): (p: nat)
    ensures p >= 1
  {
    if n == 0 then 1 else 2 * Pow2(n - 1)
  }

  lemma {:induction false} Pow2Monotone(a: nat, b: nat)
    requires a <= b
    ensures Pow2(a) <= Pow2(b)
    decreases b
  {
    if a < b {
      Pow2Monotone(a, b - 1);
    }
  }

  /** The wait before the reconnection following `attempts` earlier ones:
      `Math.min(1000 * Math.pow(2, attempts), 30000)`. */
  function ReconnectDelay(attempts: nat): (delay: nat)
    ensures delay <= MaxDelayMs
    ensures delay == MaxDelayMs || delay == 1000 * Pow2(attempts)
    ensures delay <= 1000 * Pow2(attempts)
  {
    var d := 1000 * Pow2(attempts);
    if d < MaxDelayMs then d else MaxDelayMs
  }

  /** More attempts never shorten the wait. */
  lemma ReconnectDelayMonotone(a: nat, b: nat)
    requires a <= b
    ensures ReconnectDelay(a) <= ReconnectDelay(b)
  {
    Pow2Monotone(a, b);
  }

  /** The waits double from one second and are capped at 30 seconds from
      the sixth attempt on. */
  lemma ReconnectDelaySchedule()
    ensures ReconnectDelay(0) == 1000 && ReconnectDelay(1) == 2000 && ReconnectDelay(4) == 16000
    ensures forall n: nat :: n >= 5 ==> ReconnectDelay(n) == MaxDelayMs
  {
    forall n: nat | n >= 5
      ensures ReconnectDelay(n) == MaxDelayMs
    {
      Pow2Monotone(5, n);
    }
  }

  /** The most waiting between two successful opens, in milliseconds. */
  const MaxTotalDelayMs := 181000

  /** The total wait over the first `n` scheduled reconnections. */
  function TotalDelay(n: nat): (t: nat)
    ensures t <= 30000 * n
  {
    if n == 0 then 0 else TotalDelay(n - 1) + ReconnectDelay(n - 1)
  }

  lemma {:induction false} TotalDelayMonotone(a: nat, b: nat)
    requires a <= b
    ensures TotalDelay(a) <= TotalDelay(b)
    decreases b
  {
    if a < b {
      TotalDelayMonotone(a, b - 1);
    }
  }

  /** Without a successful open in between, the composable gives up after
      ten reconnections spread over 181 seconds of waiting. */
  lemma TotalDelayBeforeGivingUp()
    ensures TotalDelay(MaxReconnectAttempts) == MaxTotalDelayMs
  {
    ReconnectDelaySchedule();
    assert TotalDelay(5) == 31000;
  }

  lemma TotalDelayBound(n: nat)
    requires n <= MaxReconnectAttempts
    ensures TotalDelay(n) <= MaxTotalDelayMs
  {
    TotalDelayMonotone(n, MaxReconnectAttempts);
    TotalDelayBeforeGivingUp();
  }

  class Connection {
    /** `connected.value`. */
    var connected: bool
    /** `ws.value` is a socket. */
    var hasSocket: bool
    /** `reconnectTimer` holds a timer handle. */
    var hasTimer: bool
    var reconnectAttempts: nat

    ghost predicate Valid()
      reads this
    {
      reconnectAttempts <= MaxReconnectAttempts
    }

    constructor ()
      ensures Valid()
      ensures !connected && !hasSocket && !hasTimer && reconnectAttempts == 0
    {
      connected, hasSocket, hasTimer, reconnectAttempts := false, false, false, 0;
    }

    /** scheduleReconnect: nothing once the attempts are used up;
        otherwise a timer is set for the delay computed from the attempts
        before this one, and the count goes up by one. Between two
        successful opens the delays scheduled are therefore
        `ReconnectDelay(0)`, `ReconnectDelay(1)`, ... and add up to at most
        `TotalDelay(MaxReconnectAttempts)`. */
    method ScheduleReconnect() returns (delay: Option<nat>)
      requires Valid()
      modifies this`hasTimer, this`reconnectAttempts
      ensures Valid()
      ensures delay == if old(reconnectAttempts) >= MaxReconnectAttempts then None
                       else Some(ReconnectDelay(old(reconnectAttempts)))
      ensures reconnectAttempts == if delay.None? then old(reconnectAttempts) else old(reconnectAttempts) + 1
      ensures hasTimer == (delay.Some? || old(hasTimer))
    {
      if reconnectAttempts >= MaxReconnectAttempts {
        return None;
      }
      delay := Some(ReconnectDelay(reconnectAttempts));
      reconnectAttempts := reconnectAttempts + 1;
      hasTimer := true;
    }

    /** connect: nothing without a token; otherwise a new socket is
        created, or, when its creation throws, a reconnection is
        scheduled. */
    method Connect(hasToken: bool, createOk: bool) returns (delay: Option<nat>)
      requires Valid()
      modifies this`hasSocket, this`hasTimer, this`reconnectAttempts
      ensures Valid()
      ensures !hasToken ==> delay.None? && unchanged(this)
      ensures hasToken && createOk ==>
        && delay.None? && hasSocket && connected == old(connected)
        && reconnectAttempts == old(reconnectAttempts) && hasTimer == old(hasTimer)
      ensures hasToken && !createOk ==>
        && connected == old(connected) && hasSocket == old(hasSocket)
        && (delay.None? <==> old(reconnectAttempts) >= MaxReconnectAttempts)
        && (delay.None? ==> reconnectAttempts == old(reconnectAttempts) && hasTimer == old(hasTimer))
        && (delay.Some? ==> delay.value == ReconnectDelay(old(reconnectAttempts))
                            && reconnectAttempts == old(reconnectAttempts) + 1 && hasTimer)
    {
      if !hasToken {
        return None;
      }
      if createOk {
        hasSocket := true;
        return None;
      }
      delay := ScheduleReconnect();
    }

    /** onopen: connected, and the attempt count starts over. */
    method OnOpen()
      requires Valid()
      modifies this`connected, this`reconnectAttempts
      ensures Valid() && connected && reconnectAttempts == 0
    {
      connected := true;
      reconnectAttempts := 0;
    }

    /** onclose: not connected, and a reconnection is scheduled. */
    method OnClose() returns (delay: Option<nat>)
      requires Valid()
      modifies this`connected, this`hasTimer, this`reconnectAttempts
      ensures Valid() && !connected && hasSocket == old(hasSocket)
      ensures delay.None? <==> old(reconnectAttempts) >= MaxReconnectAttempts
      ensures delay.None? ==> reconnectAttempts == old(reconnectAttempts) && hasTimer == old(hasTimer)
      ensures delay.Some? ==>
        && delay.value == ReconnectDelay(old(reconnectAttempts)) && reconnectAttempts == old(reconnectAttempts) + 1
        && hasTimer
    {
      connected := false;
      delay := ScheduleReconnect();
    }

    /** disconnect: the timer is cleared and the socket dropped, not
        connected; the attempt count is left as it is. */
    method Disconnect()
      requires Valid()
      modifies this`connected, this`hasSocket, this`hasTimer
      ensures Valid()
      ensures !connected && !hasSocket && !hasTimer
      ensures reconnectAttempts == old(reconnectAttempts)
    {
      hasTimer := false;
      hasSocket := false;
      connected := false;
    }
  }
}
