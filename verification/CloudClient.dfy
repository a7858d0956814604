/** The reconnecting gateway client: packages/cloud-client/src/client.ts.

    Sockets are numbered in order of creation. Every event handler runs to its next await in one
    step. A callback of the embedding program may call back into the client while a handler
    runs; what it does is given with the event as a list of calls, each with the reactions it
    provokes in turn. */
module CloudClient {
  import opened Common

  type Envelope = string

  /** An envelope with its place in the order of acceptance. */
  datatype Ticket = Ticket(number: nat, envelope: Envelope)

  /** The ticket handed over as number `at` went past `victim`, accepted earlier and still pending. */
  datatype Overtaking = Overtaking(at: nat, victim: Ticket)

  datatype Status = Initial | Connecting | Connected | Disconnected | Stopped

  /** `Closing` is a socket whose `close` was called; it will still report that it closed. */
  datatype Socket = Opening | Open | Closing | Closed

  /** A call into the client, and how `send` and the callbacks react to it. */
  datatype Act =
    | Send(envelope: Envelope, throws: bool, onError: seq<Act>)
    | Stop(onChange: seq<Act>)

  datatype Config = Config(initialBackoff: nat, maxBackoff: nat)

  /** The closure variables of `createCloudClient`, and a record of what was accepted from the
      caller, handed to a socket, and waited for since the last success. `overtook` is the first
      send that went out directly while something was pending. */
  datatype Client = Client(
    status: Status,
    ws: Option<nat>,
    socks: seq<Socket>,
    stopRequested: bool,
    attempts: nat,
    timer: Option<nat>,
    tokenTimer: Option<nat>,
    signing: nat,
    pending: seq<Ticket>,
    accepted: seq<Ticket>,
    handed: seq<Ticket>,
    delays: seq<nat>,
    overtook: Option<Overtaking>)

  const FRESH := Client(Initial, None, [], false, 0, None, None, 0, [], [], [], [], None)

  // --------------------------------------------------------------- handlers

  function CloseSocket(socks: seq<Socket>, i: nat): (r: seq<Socket>)
    ensures |r| == |socks|
    ensures forall j :: 0 <= j < |socks| ==> (r[j].Closed? <==> socks[j].Closed?)
  {
    if i < |socks| && (socks[i].Opening? || socks[i].Open?) then socks[i := Closing] else socks
  }

  /** Whatever a callback does, call by call. */
  function React(c: Client, acts: seq<Act>): Client
    decreases acts, 1
  {
    if acts == [] then c else React(Do(c, acts[0]), acts[1..])
  }

  function Do(c: Client, a: Act): Client
    decreases a, 0
  {
    match a
    case Send(e, throws, onError) =>
      var t := Ticket(|c.accepted|, e);
      var c := c.(accepted := c.accepted + [t]);
      if c.ws.None? || !c.status.Connected? then c.(pending := c.pending + [t])
      else if throws then React(c.(pending := c.pending + [t]), onError)
      else c.(handed := c.handed + [t], overtook := NoteOvertaking(c))
    case Stop(onChange) =>
      var c := c.(stopRequested := true);
      var c := if c.status.Stopped? then c else React(c.(status := Stopped), onChange);
      c.(timer := None, tokenTimer := None, ws := None,
         socks := if c.ws.Some? then CloseSocket(c.socks, c.ws.value) else c.socks)
  }

  /** A direct send goes past whatever is pending. */
  function NoteOvertaking(c: Client): Option<Overtaking> {
    if c.overtook.None? && c.pending != [] then Some(Overtaking(|c.handed|, c.pending[0])) else c.overtook
  }

  /** `setState` to anything but connected. */
  function Enter(c: Client, s: Status, onChange: seq<Act>): Client {
    if c.status == s then c else React(c.(status := s), onChange)
  }

  /** `flushPendingOutbound`; the send number `throwsAt`, if there is one, throws. */
  function Flush(c: Client, throwsAt: Option<nat>, onError: seq<Act>): Client {
    if c.ws.None? || !c.status.Connected? then c
    else if throwsAt.Some? && throwsAt.value < |c.pending| then
      React(c.(handed := c.handed + c.pending[..throwsAt.value], pending := c.pending[throwsAt.value..]), onError)
    else c.(handed := c.handed + c.pending, pending := [])
  }

  function Pow2(n: nat): nat { if n == 0 then 1 else 2 * Pow2(n - 1) }

  function Backoff(k: Config, attempts: nat): nat {
    Min(k.initialBackoff * Pow2(Min(attempts, 10)), k.maxBackoff)
  }

  function ScheduleReconnect(k: Config, c: Client): Client {
    if c.stopRequested then c
    else
      var delay := Backoff(k, c.attempts);
      c.(attempts := c.attempts + 1, timer := Some(delay), delays := c.delays + [delay])
  }

  /** `connect` up to the signing of the token. */
  function Connect(c: Client, onChange: seq<Act>): Client {
    if c.stopRequested then c
    else
      var c := Enter(c, Connecting, onChange);
      c.(signing := c.signing + 1)
  }

  datatype Event =
    | Call(acts: seq<Act>)  // the caller, or a callback that is not part of a handler below
    | SignFails(onError: seq<Act>)
    | Signed(constructorThrows: bool, onError: seq<Act>)
    | Opened(sock: nat, onChange: seq<Act>, throwsAt: Option<nat>, onFlushError: seq<Act>, helloThrows: bool, onHelloError: seq<Act>)
    | Shutdown(sock: nat)
    | SocketClosed(sock: nat, onChange: seq<Act>)
    | TimerFires(onChange: seq<Act>)
    | TokenFires

  function OnSigned(k: Config, c: Client, constructorThrows: bool, onError: seq<Act>): Client
    requires c.signing > 0
  {
    var c := c.(signing := c.signing - 1);
    if constructorThrows then ScheduleReconnect(k, React(c, onError))
    else c.(socks := c.socks + [Opening], ws := Some(|c.socks|))
  }

  function OnOpened(c: Client, e: Event): Client
    requires e.Opened? && e.sock < |c.socks|
  {
    var c := c.(socks := c.socks[e.sock := Open]);
    var c := if c.status.Connected? then c
             else Flush(React(c.(status := Connected), e.onChange), e.throwsAt, e.onFlushError);
    var c := c.(attempts := 0, delays := []);
    var c := if e.helloThrows then React(c, e.onHelloError) else c;
    c.(tokenTimer := Some(e.sock))
  }

  function OnClosed(k: Config, c: Client, i: nat, onChange: seq<Act>): Client
    requires i < |c.socks|
  {
    var c := Enter(c.(socks := c.socks[i := Closed]), Disconnected, onChange);
    ScheduleReconnect(k, c.(tokenTimer := None, ws := None))
  }

  /** One event. An event that cannot happen now changes nothing: sockets open at most once,
      before they close, and close once. */
  function Next(k: Config, c: Client, e: Event): Client {
    match e
    case Call(acts) => React(c, acts)
    case SignFails(onError) =>
      if c.signing == 0 then c else ScheduleReconnect(k, React(c.(signing := c.signing - 1), onError))
    case Signed(throws, onError) => if c.signing == 0 then c else OnSigned(k, c, throws, onError)
    case Opened(i, _, _, _, _, _) => if i < |c.socks| && c.socks[i].Opening? then OnOpened(c, e) else c
    case Shutdown(i) =>
      if i < |c.socks| && (c.socks[i].Open? || c.socks[i].Closing?) then
        c.(attempts := 0, delays := [], socks := CloseSocket(c.socks, i))
      else c
    case SocketClosed(i, onChange) => if i < |c.socks| && !c.socks[i].Closed? then OnClosed(k, c, i, onChange) else c
    case TimerFires(onChange) => if c.timer.None? then c else Connect(c.(timer := None), onChange)
    case TokenFires =>
      if c.tokenTimer.None? then c
      else c.(tokenTimer := None, socks := CloseSocket(c.socks, c.tokenTimer.value))
  }

  /** The client after its creation and a run of events. */
  function Run(k: Config, onChange: seq<Act>, events: seq<Event>): Client {
    if events == [] then Connect(FRESH, onChange)
    else Next(k, Run(k, onChange, events[..|events| - 1]), events[|events| - 1])
  }

  // ----------------------------------------------------- what reactions keep

  /** What a reaction cannot do to the connection: until a stop nothing changes, and a stop
      leaves no timer and closes the current socket, if there is one. */
  ghost predicate Kept(c: Client, d: Client) {
    && d.signing == c.signing && d.attempts == c.attempts && d.delays == c.delays
    && (c.stopRequested ==> d.stopRequested)
    && (d.status == c.status || d.status.Stopped?)
    && (|| (d.ws == c.ws && d.socks == c.socks && (d.timer == c.timer || (d.timer.None? && d.stopRequested)))
        || (&& d.ws.None? && d.status.Stopped? && d.stopRequested && d.timer.None?
            && d.socks == if c.ws.Some? then CloseSocket(c.socks, c.ws.value) else c.socks))
    && (d.stopRequested && !c.stopRequested ==> d.timer.None? && d.ws.None?)
    && (!d.stopRequested ==> d.status == c.status && d.timer == c.timer && d.tokenTimer == c.tokenTimer)
  }

  lemma KeptTrans(a: Client, b: Client, c: Client)
    requires Kept(a, b) && Kept(b, c)
    ensures Kept(a, c)
  {
  }

  lemma {:induction false} ReactKeeps(c: Client, acts: seq<Act>)
    ensures Kept(c, React(c, acts))
    decreases acts, 1
  {
    if acts != [] {
      DoKeeps(c, acts[0]);
      ReactKeeps(Do(c, acts[0]), acts[1..]);
      KeptTrans(c, Do(c, acts[0]), React(c, acts));
    }
  }

  lemma {:induction false} DoKeeps(c: Client, a: Act)
    ensures Kept(c, Do(c, a))
    decreases a, 0
  {
    match a
    case Send(e, throws, onError) =>
      ReactKeeps(c.(accepted := c.accepted + [Ticket(|c.accepted|, e)], pending := c.pending + [Ticket(|c.accepted|, e)]), onError);
    case Stop(onChange) =>
      ReactKeeps(c.(stopRequested := true, status := Stopped), onChange);
  }

  // ------------------------------------------------------------ connection

  /** Sockets that have not yet reported that they closed. */
  function Alive(socks: seq<Socket>): set<nat> {
    set i: nat | i < |socks| && !socks[i].Closed?
  }

  ghost predicate SocketsOk(c: Client) {
    && (c.ws.Some? ==> c.ws.value < |c.socks| && !c.socks[c.ws.value].Closed?)
    && (forall i: nat :: i < |c.socks| && (c.socks[i].Opening? || c.socks[i].Open?) ==> c.ws == Some(i))
    && (c.status.Connected? ==> c.ws.Some?)
  }

  function Activities(c: Client): nat {
    c.signing + |Alive(c.socks)| + if c.timer.Some? then 1 else 0
  }

  /** Exactly one thing is going on until a stop, and no timer is armed after it. */
  ghost predicate OneActivity(c: Client) {
    && Activities(c) <= 1
    && (!c.stopRequested ==> Activities(c) == 1)
    && (c.stopRequested ==> c.timer.None?)
  }

  /** The waits since the last success are the backoff of 0, 1, 2, ... */
  ghost predicate DelaysOk(k: Config, c: Client) {
    && |c.delays| == c.attempts
    && (forall i :: 0 <= i < |c.delays| ==> c.delays[i] == Backoff(k, i))
    && (c.timer.Some? ==> c.delays != [] && c.timer == Some(c.delays[|c.delays| - 1]))
  }

  ghost predicate Inv(k: Config, c: Client) {
    SocketsOk(c) && OneActivity(c) && DelaysOk(k, c)
  }

  lemma AliveUpdate(socks: seq<Socket>, i: nat, to: Socket)
    requires i < |socks|
    ensures Alive(socks[i := to]) == if to.Closed? then Alive(socks) - {i} else Alive(socks) + {i}
  {
  }

  lemma AliveClose(socks: seq<Socket>, i: nat)
    ensures Alive(CloseSocket(socks, i)) == Alive(socks)
  {
  }

  /** Reactions keep sockets in order and add nothing to what is going on. */
  lemma KeptActivities(c: Client, d: Client)
    requires Kept(c, d)
    ensures Alive(d.socks) == Alive(c.socks)
    ensures !d.stopRequested ==> Activities(d) == Activities(c)
    ensures Activities(d) <= Activities(c)
    ensures c.timer.None? || (d.stopRequested && !c.stopRequested) ==> d.timer.None?
  {
    if c.ws.Some? { AliveClose(c.socks, c.ws.value); }
  }

  lemma ReactKeepsInv(k: Config, c: Client, acts: seq<Act>)
    requires Inv(k, c)
    ensures Inv(k, React(c, acts))
  {
    ReactKeeps(c, acts);
    KeptActivities(c, React(c, acts));
  }

  /** Arming the timer when nothing else is going on. */
  lemma ScheduleRestoresInv(k: Config, c: Client)
    requires SocketsOk(c) && Activities(c) == 0 && DelaysOk(k, c)
    ensures Inv(k, ScheduleReconnect(k, c))
  {
  }

  lemma ConnectRestoresInv(k: Config, c: Client, onChange: seq<Act>)
    requires SocketsOk(c) && Activities(c) == 0 && DelaysOk(k, c)
    ensures Inv(k, Connect(c, onChange))
  {
    if !c.stopRequested && !c.status.Connecting? {
      var started := c.(status := Connecting);
      ReactKeeps(started, onChange);
      KeptActivities(started, React(started, onChange));
    }
  }

  lemma SignFailsKeepsInv(k: Config, c: Client, onError: seq<Act>)
    requires Inv(k, c) && c.signing > 0
    ensures Inv(k, ScheduleReconnect(k, React(c.(signing := c.signing - 1), onError)))
  {
    var idle := c.(signing := c.signing - 1);
    ReactKeeps(idle, onError);
    KeptActivities(idle, React(idle, onError));
    ScheduleRestoresInv(k, React(idle, onError));
  }

  lemma SignedKeepsInv(k: Config, c: Client, constructorThrows: bool, onError: seq<Act>)
    requires Inv(k, c) && c.signing > 0
    ensures Inv(k, OnSigned(k, c, constructorThrows, onError))
  {
    if constructorThrows {
      SignFailsKeepsInv(k, c, onError);
    } else {
      assert Alive(c.socks) == {};
      forall j: nat | j < |c.socks| ensures c.socks[j].Closed? {
        assert j !in Alive(c.socks);
      }
      assert Alive(c.socks + [Opening]) == Alive(c.socks) + {|c.socks|};
    }
  }

  lemma FlushKeeps(c: Client, throwsAt: Option<nat>, onError: seq<Act>)
    ensures Kept(c, Flush(c, throwsAt, onError))
  {
    if c.ws.Some? && c.status.Connected? && throwsAt.Some? && throwsAt.value < |c.pending| {
      ReactKeeps(c.(handed := c.handed + c.pending[..throwsAt.value], pending := c.pending[throwsAt.value..]), onError);
    }
  }

  lemma OpensKeepsInv(k: Config, c: Client, i: nat)
    requires Inv(k, c)
    requires i < |c.socks| && c.socks[i].Opening?
    ensures Inv(k, c.(socks := c.socks[i := Open])) && Inv(k, c.(socks := c.socks[i := Open], status := Connected))
    ensures c.timer.None?
  {
    AliveUpdate(c.socks, i, Open);
    assert i in Alive(c.socks);
  }

  /** Announcing the connection and flushing what was pending. */
  lemma AnnounceKeepsInv(k: Config, up: Client, e: Event)
    requires Inv(k, up) && up.timer.None? && e.Opened?
    ensures var c := Flush(React(up, e.onChange), e.throwsAt, e.onFlushError); Inv(k, c) && c.timer.None?
  {
    ReactKeepsInv(k, up, e.onChange);
    var reacted := React(up, e.onChange);
    var c := Flush(reacted, e.throwsAt, e.onFlushError);
    FlushKeeps(reacted, e.throwsAt, e.onFlushError);
    KeptActivities(reacted, c);
    ReactKeeps(up, e.onChange);
    KeptTrans(up, reacted, c);
    KeptActivities(up, c);
  }

  lemma OpenedKeepsInv(k: Config, c: Client, e: Event)
    requires Inv(k, c)
    requires e.Opened? && e.sock < |c.socks| && c.socks[e.sock].Opening?
    ensures Inv(k, OnOpened(c, e))
  {
    OpensKeepsInv(k, c, e.sock);
    var c1 := c.(socks := c.socks[e.sock := Open]);
    var c2 := c1;
    if !c1.status.Connected? {
      AnnounceKeepsInv(k, c1.(status := Connected), e);
      c2 := Flush(React(c1.(status := Connected), e.onChange), e.throwsAt, e.onFlushError);
    }
    var c3 := c2.(attempts := 0, delays := []);
    assert Inv(k, c3);
    if e.helloThrows { ReactKeepsInv(k, c3, e.onHelloError); }
  }

  lemma ClosedKeepsInv(k: Config, c: Client, i: nat, onChange: seq<Act>)
    requires Inv(k, c)
    requires i < |c.socks| && !c.socks[i].Closed?
    ensures Inv(k, OnClosed(k, c, i, onChange))
  {
    AliveUpdate(c.socks, i, Closed);
    assert i in Alive(c.socks);
    var down := c.(socks := c.socks[i := Closed]);
    assert Activities(down) == 0;
    var d := Enter(down, Disconnected, onChange);
    if !down.status.Disconnected? {
      ReactKeeps(down.(status := Disconnected), onChange);
      KeptActivities(down.(status := Disconnected), d);
    }
    assert Alive(d.socks) == {};
    var idle := d.(tokenTimer := None, ws := None);
    forall j: nat | j < |idle.socks| ensures idle.socks[j].Closed? {
      assert j !in Alive(idle.socks);
    }
    ScheduleRestoresInv(k, idle);
  }

  lemma CloseKeepsInv(k: Config, c: Client, i: nat)
    requires Inv(k, c)
    ensures Inv(k, c.(socks := CloseSocket(c.socks, i)))
  {
    AliveClose(c.socks, i);
  }

  lemma StepKeepsInv(k: Config, c: Client, e: Event)
    requires Inv(k, c)
    ensures Inv(k, Next(k, c, e))
  {
    match e
    case Call(acts) => ReactKeepsInv(k, c, acts);
    case SignFails(onError) => if c.signing > 0 { SignFailsKeepsInv(k, c, onError); }
    case Signed(throws, onError) => if c.signing > 0 { SignedKeepsInv(k, c, throws, onError); }
    case Opened(i, _, _, _, _, _) => if i < |c.socks| && c.socks[i].Opening? { OpenedKeepsInv(k, c, e); }
    case Shutdown(i) =>
      CloseKeepsInv(k, c, i);
      if i < |c.socks| && (c.socks[i].Open? || c.socks[i].Closing?) {
        assert i in Alive(c.socks);
        assert |Alive(c.socks)| >= 1;
      }
    case SocketClosed(i, onChange) => if i < |c.socks| && !c.socks[i].Closed? { ClosedKeepsInv(k, c, i, onChange); }
    case TimerFires(onChange) => if c.timer.Some? { ConnectRestoresInv(k, c.(timer := None), onChange); }
    case TokenFires => if c.tokenTimer.Some? { CloseKeepsInv(k, c, c.tokenTimer.value); }
  }

  /** In every reachable state: until stop is requested exactly one of {signing in flight, one
      socket not yet closed, reconnect timer armed} holds; after it no timer is armed;
      `connected` implies a current socket; the waits since the last success are the backoff
      of 0, 1, 2, ... */
  lemma {:induction false} EveryRunKeepsInv(k: Config, onChange: seq<Act>, events: seq<Event>)
    ensures Inv(k, Run(k, onChange, events))
  {
    if events == [] {
      assert Alive(FRESH.socks) == {};
      ConnectRestoresInv(k, FRESH, onChange);
    } else {
      EveryRunKeepsInv(k, onChange, events[..|events| - 1]);
      StepKeepsInv(k, Run(k, onChange, events[..|events| - 1]), events[|events| - 1]);
    }
  }

  lemma {:induction false} Pow2Monotone(m: nat, n: nat)
    requires m <= n
    ensures 1 <= Pow2(m) <= Pow2(n)
  {
    if m < n { Pow2Monotone(m, n - 1); }
    if m == n && m > 0 { Pow2Monotone(m - 1, m - 1); }
  }

  lemma ScaleMonotone(a: nat, m: nat, n: nat)
    requires m <= n
    ensures a * m <= a * n
  {
  }

  /** Waits do not shrink over consecutive failures, and never exceed the maximum. */
  lemma BackoffMonotone(k: Config, m: nat, n: nat)
    requires m <= n
    ensures Backoff(k, m) <= Backoff(k, n) <= k.maxBackoff
    ensures n >= 10 ==> Backoff(k, n) == Backoff(k, 10)
  {
    Pow2Monotone(Min(m, 10), Min(n, 10));
    ScaleMonotone(k.initialBackoff, Pow2(Min(m, 10)), Pow2(Min(n, 10)));
  }

  /** The first wait is the initial one; each further one is twice as long, ten times at most. */
  lemma BackoffDoubles(k: Config, n: nat)
    ensures Backoff(k, 0) == Min(k.initialBackoff, k.maxBackoff)
    ensures Backoff(k, n + 1) == if n < 10 then Min(2 * Backoff(k, n), k.maxBackoff) else Backoff(k, n)
  {
    if n < 10 {
      assert k.initialBackoff * Pow2(n + 1) == 2 * (k.initialBackoff * Pow2(n));
    }
  }

  lemma NextPending(all: seq<Ticket>, n: nat)
    requires n < |all|
    ensures all[n..][0] == all[n] && all[n..][1..] == all[n + 1..] && [all[n]] + all[n + 1..] == all[n..]
    ensures all[..n] + [all[n]] == all[..n + 1]
  {
  }

  /** A stop leaves nothing armed, whatever the callback does, and closes the current socket alone. */
  lemma StopEffect(c: Client, onChange: seq<Act>)
    ensures var d := Do(c, Stop(onChange));
      && d.stopRequested && d.status.Stopped? && d.timer.None? && d.tokenTimer.None? && d.ws.None?
      && |d.socks| == |c.socks|
      && forall i :: 0 <= i < |c.socks| ==>
           d.socks[i] == if c.ws == Some(i) && (c.socks[i].Opening? || c.socks[i].Open?) then Closing else c.socks[i]
  {
    ReactKeeps(c.(stopRequested := true, status := Stopped), onChange);
  }

  /** An open socket resets the backoff and arms its own token timer; it is connected unless a
      callback stopped the client, and with quiet callbacks it flushes all that was pending. */
  lemma OpenedEffect(c: Client, e: Event)
    requires e.Opened? && e.sock < |c.socks|
    ensures var d := OnOpened(c, e);
      && d.attempts == 0 && d.tokenTimer == Some(e.sock)
      && (!d.stopRequested ==> d.status.Connected? && d.socks == c.socks[e.sock := Open] && d.ws == c.ws)
      && (!c.status.Connected? && c.ws.Some? && e.onChange == [] && e.throwsAt.None? && !e.helloThrows ==>
            d.pending == [] && d.handed == c.handed + c.pending)
  {
    var up := c.(socks := c.socks[e.sock := Open], status := Connected);
    var told := React(up, e.onChange);
    ReactKeeps(up, e.onChange);
    FlushKeeps(told, e.throwsAt, e.onFlushError);
    KeptTrans(up, told, Flush(told, e.throwsAt, e.onFlushError));
    var open := if c.status.Connected? then up else Flush(told, e.throwsAt, e.onFlushError);
    ReactKeeps(open.(attempts := 0, delays := []), e.onHelloError);
  }

  /** What the remaining events do: the server goes away, signing fails, the timers fire. */
  lemma OtherEvents(k: Config, c: Client, i: nat, onError: seq<Act>, onChange: seq<Act>)
    ensures var gone := Next(k, c, Shutdown(i));
      i < |c.socks| && c.socks[i].Open? ==> gone == c.(attempts := 0, delays := [], socks := c.socks[i := Closing])
    ensures var failed := Next(k, c, SignFails(onError));
      c.signing > 0 && !failed.stopRequested ==>
        failed.signing == c.signing - 1 && failed.attempts == c.attempts + 1 && failed.timer == Some(Backoff(k, c.attempts))
    ensures var retried := Next(k, c, TimerFires(onChange));
      c.timer.Some? && !retried.stopRequested ==>
        retried.timer.None? && retried.signing == c.signing + 1 && retried.status.Connecting?
    ensures var rotated := Next(k, c, TokenFires);
      c.tokenTimer.Some? && c.tokenTimer.value < |c.socks| && c.socks[c.tokenTimer.value].Open? ==>
        rotated == c.(tokenTimer := None, socks := c.socks[c.tokenTimer.value := Closing])
  {
    if c.signing > 0 { ReactKeeps(c.(signing := c.signing - 1), onError); }
    ReactKeeps(c.(timer := None, status := Connecting), onChange);
  }

  // ---------------------------------------------------------------- outbox

  /** Every accepted envelope is handed to a socket once or still pending, with multiplicity. */
  ghost predicate Conserved(c: Client) {
    multiset(c.accepted) == multiset(c.handed) + multiset(c.pending)
  }

  lemma {:induction false} ReactConserves(c: Client, acts: seq<Act>)
    requires Conserved(c)
    ensures Conserved(React(c, acts))
    decreases acts, 1
  {
    if acts != [] {
      DoConserves(c, acts[0]);
      ReactConserves(Do(c, acts[0]), acts[1..]);
    }
  }

  /** What was accepted stays accepted, in its place, and what was handed over stays so. */
  ghost predicate Records(c: Client, d: Client) {
    c.accepted <= d.accepted && c.handed <= d.handed
  }

  lemma {:induction false} ReactRecords(c: Client, acts: seq<Act>)
    ensures Records(c, React(c, acts))
    decreases acts, 1
  {
    if acts != [] {
      DoRecords(c, acts[0]);
      ReactRecords(Do(c, acts[0]), acts[1..]);
    }
  }

  lemma {:induction false} DoRecords(c: Client, a: Act)
    ensures Records(c, Do(c, a))
    decreases a, 0
  {
    match a
    case Send(e, throws, onError) =>
      ReactRecords(c.(accepted := c.accepted + [Ticket(|c.accepted|, e)], pending := c.pending + [Ticket(|c.accepted|, e)]), onError);
    case Stop(onChange) => ReactRecords(c.(stopRequested := true, status := Stopped), onChange);
  }

  lemma {:induction false} DoConserves(c: Client, a: Act)
    requires Conserved(c)
    ensures Conserved(Do(c, a))
    decreases a, 0
  {
    match a
    case Send(e, throws, onError) =>
      ReactConserves(c.(accepted := c.accepted + [Ticket(|c.accepted|, e)], pending := c.pending + [Ticket(|c.accepted|, e)]), onError);
    case Stop(onChange) =>
      ReactConserves(c.(stopRequested := true, status := Stopped), onChange);
  }

  lemma FlushConserves(c: Client, throwsAt: Option<nat>, onError: seq<Act>)
    requires Conserved(c)
    ensures Conserved(Flush(c, throwsAt, onError))
  {
    if c.ws.Some? && c.status.Connected? && throwsAt.Some? && throwsAt.value < |c.pending| {
      assert c.pending == c.pending[..throwsAt.value] + c.pending[throwsAt.value..];
      ReactConserves(c.(handed := c.handed + c.pending[..throwsAt.value], pending := c.pending[throwsAt.value..]), onError);
    }
  }

  lemma StepConserves(k: Config, c: Client, e: Event)
    requires Conserved(c)
    ensures Conserved(Next(k, c, e))
  {
    match e
    case Call(acts) => ReactConserves(c, acts);
    case SignFails(onError) => if c.signing > 0 { ReactConserves(c.(signing := c.signing - 1), onError); }
    case Signed(_, onError) => if c.signing > 0 { ReactConserves(c.(signing := c.signing - 1), onError); }
    case Opened(i, onChange, throwsAt, onFlushError, helloThrows, onHelloError) =>
      if i < |c.socks| && c.socks[i].Opening? {
        var c1 := c.(socks := c.socks[i := Open]);
        ReactConserves(c1.(status := Connected), onChange);
        FlushConserves(React(c1.(status := Connected), onChange), throwsAt, onFlushError);
        var c2 := if c1.status.Connected? then c1
                  else Flush(React(c1.(status := Connected), onChange), throwsAt, onFlushError);
        ReactConserves(c2.(attempts := 0, delays := []), onHelloError);
      }
    case SocketClosed(i, onChange) =>
      if i < |c.socks| { ReactConserves(c.(socks := c.socks[i := Closed], status := Disconnected), onChange); }
    case TimerFires(onChange) => ReactConserves(c.(timer := None, status := Connecting), onChange);
    case _ =>
  }

  /** Over every run of sends, throwing sockets, re-entrant callbacks, reconnects and stops no
      accepted envelope is lost or duplicated: each is handed to a socket exactly once or pending. */
  lemma {:induction false} EveryRunConserves(k: Config, onChange: seq<Act>, events: seq<Event>)
    ensures Conserved(Run(k, onChange, events))
  {
    if events == [] {
      ReactConserves(FRESH.(status := Connecting), onChange);
    } else {
      EveryRunConserves(k, onChange, events[..|events| - 1]);
      StepConserves(k, Run(k, onChange, events[..|events| - 1]), events[|events| - 1]);
    }
  }

  // ----------------------------------------------------------------- order

  /** What was handed over, then what is pending, is what was accepted, in that order. */
  ghost predicate InAcceptanceOrder(c: Client) {
    c.handed + c.pending == c.accepted
  }

  /** Tickets are numbered; without an overtaking the order holds, and after one the envelope that
      was passed still comes behind the one that passed it. */
  ghost predicate LinedUp(accepted: seq<Ticket>, handed: seq<Ticket>, pending: seq<Ticket>, overtook: Option<Overtaking>) {
    && (forall i :: 0 <= i < |accepted| ==> accepted[i].number == i)
    && (forall i :: 0 <= i < |pending| ==> pending[i].number < |accepted|)
    && match overtook
       case None => handed + pending == accepted
       case Some(o) =>
         && o.at < |handed| && o.victim.number < handed[o.at].number
         && o.victim in handed[o.at + 1..] + pending
  }

  ghost predicate Lined(c: Client) {
    LinedUp(c.accepted, c.handed, c.pending, c.overtook)
  }

  lemma StillBehind(c: Client)
    requires Lined(c) && c.overtook.Some?
    ensures var all := c.handed + c.pending;
      exists i, j :: 0 <= i < j < |all| && all[i].number > all[j].number
  {
    var o, all := c.overtook.value, c.handed + c.pending;
    var rest := c.handed[o.at + 1..] + c.pending;
    var j :| 0 <= j < |rest| && rest[j] == o.victim;
    assert all[o.at + 1..] == rest;
    assert all[o.at + 1 + j] == o.victim && all[o.at] == c.handed[o.at];
  }

  lemma LinedMeans(c: Client)
    requires Lined(c)
    ensures InAcceptanceOrder(c) <==> c.overtook.None?
  {
    if c.overtook.Some? {
      StillBehind(c);
    }
  }

  lemma AcceptKeepsLined(c: Client, t: Ticket)
    requires Lined(c) && t.number == |c.accepted|
    ensures Lined(c.(accepted := c.accepted + [t], pending := c.pending + [t]))
  {
    assert c.handed + (c.pending + [t]) == (c.handed + c.pending) + [t];
    if c.overtook.Some? {
      var at := c.overtook.value.at;
      assert c.handed[at + 1..] + (c.pending + [t]) == (c.handed[at + 1..] + c.pending) + [t];
    }
  }

  lemma DirectSendKeepsLined(c: Client, t: Ticket)
    requires Lined(c) && t.number == |c.accepted|
    ensures Lined(c.(accepted := c.accepted + [t], handed := c.handed + [t], overtook := NoteOvertaking(c)))
  {
    var handed := c.handed + [t];
    if c.overtook.Some? {
      var at := c.overtook.value.at;
      assert handed[at + 1..] + c.pending == c.handed[at + 1..] + [t] + c.pending;
    } else if c.pending != [] {
      assert handed[|c.handed| + 1..] + c.pending == c.pending;
    } else {
      assert handed + c.pending == (c.handed + c.pending) + [t];
    }
  }

  /** From an ordered outbox, a send breaks the order exactly if it goes out directly while
      something is pending. A send that throws keeps it. */
  lemma SendKeepsOrderIff(c: Client, e: Envelope, throws: bool)
    requires Lined(c) && InAcceptanceOrder(c)
    ensures InAcceptanceOrder(Do(c, Send(e, throws, [])))
            <==> c.ws.None? || !c.status.Connected? || throws || c.pending == []
  {
    var t := Ticket(|c.accepted|, e);
    LinedMeans(c);
    DoKeepsLined(c, Send(e, throws, []));
    LinedMeans(Do(c, Send(e, throws, [])));
    assert React(c.(accepted := c.accepted + [t], pending := c.pending + [t]), [])
        == c.(accepted := c.accepted + [t], pending := c.pending + [t]);
  }

  lemma {:induction false} ReactKeepsLined(c: Client, acts: seq<Act>)
    requires Lined(c)
    ensures Lined(React(c, acts))
    decreases acts, 1
  {
    if acts != [] {
      DoKeepsLined(c, acts[0]);
      ReactKeepsLined(Do(c, acts[0]), acts[1..]);
    }
  }

  lemma {:induction false} DoKeepsLined(c: Client, a: Act)
    requires Lined(c)
    ensures Lined(Do(c, a))
    decreases a, 0
  {
    match a
    case Send(e, throws, onError) =>
      var t := Ticket(|c.accepted|, e);
      AcceptKeepsLined(c, t);
      if c.ws.None? || !c.status.Connected? {
      } else if throws {
        ReactKeepsLined(c.(accepted := c.accepted + [t], pending := c.pending + [t]), onError);
      } else {
        DirectSendKeepsLined(c, t);
        assert NoteOvertaking(c.(accepted := c.accepted + [t])) == NoteOvertaking(c);
      }
    case Stop(onChange) =>
      ReactKeepsLined(c.(stopRequested := true, status := Stopped), onChange);
  }

  /** Handing over any part of what is pending keeps the line. */
  lemma HandOverKeepsLined(c: Client, n: nat)
    requires Lined(c) && n <= |c.pending|
    ensures Lined(c.(handed := c.handed + c.pending[..n], pending := c.pending[n..]))
  {
    assert c.pending == c.pending[..n] + c.pending[n..];
    assert (c.handed + c.pending[..n]) + c.pending[n..] == c.handed + c.pending;
    if c.overtook.Some? {
      var at := c.overtook.value.at;
      assert (c.handed + c.pending[..n])[at + 1..] + c.pending[n..] == c.handed[at + 1..] + c.pending;
    }
  }

  lemma FlushKeepsLined(c: Client, throwsAt: Option<nat>, onError: seq<Act>)
    requires Lined(c)
    ensures Lined(Flush(c, throwsAt, onError))
  {
    if c.ws.None? || !c.status.Connected? {
    } else if throwsAt.Some? && throwsAt.value < |c.pending| {
      HandOverKeepsLined(c, throwsAt.value);
      ReactKeepsLined(c.(handed := c.handed + c.pending[..throwsAt.value], pending := c.pending[throwsAt.value..]), onError);
    } else {
      HandOverKeepsLined(c, |c.pending|);
      assert c.pending[..|c.pending|] == c.pending && c.pending[|c.pending|..] == [];
    }
  }

  /** A flush keeps the order wherever it throws. */
  lemma FlushKeepsOrder(c: Client, throwsAt: Option<nat>)
    requires InAcceptanceOrder(c)
    ensures InAcceptanceOrder(Flush(c, throwsAt, []))
  {
    if throwsAt.Some? && throwsAt.value < |c.pending| {
      var n := throwsAt.value;
      assert c.pending == c.pending[..n] + c.pending[n..];
      assert (c.handed + c.pending[..n]) + c.pending[n..] == c.handed + c.pending;
    }
    assert (c.handed + c.pending) + [] == c.handed + c.pending;
  }

  lemma OpenedKeepsLined(c: Client, e: Event)
    requires Lined(c) && e.Opened? && e.sock < |c.socks|
    ensures Lined(OnOpened(c, e))
  {
    var c1 := c.(socks := c.socks[e.sock := Open]);
    var c2 := c1;
    if !c1.status.Connected? {
      ReactKeepsLined(c1.(status := Connected), e.onChange);
      c2 := Flush(React(c1.(status := Connected), e.onChange), e.throwsAt, e.onFlushError);
      FlushKeepsLined(React(c1.(status := Connected), e.onChange), e.throwsAt, e.onFlushError);
    }
    ReactKeepsLined(c2.(attempts := 0, delays := []), e.onHelloError);
  }

  lemma StepKeepsLined(k: Config, c: Client, e: Event)
    requires Lined(c)
    ensures Lined(Next(k, c, e))
  {
    hide React, LinedUp;
    match e
    case Call(acts) => ReactKeepsLined(c, acts);
    case SignFails(onError) => if c.signing > 0 { ReactKeepsLined(c.(signing := c.signing - 1), onError); }
    case Signed(_, onError) => if c.signing > 0 { ReactKeepsLined(c.(signing := c.signing - 1), onError); }
    case Opened(i, _, _, _, _, _) => if i < |c.socks| { OpenedKeepsLined(c, e); }
    case SocketClosed(i, onChange) =>
      if i < |c.socks| { ReactKeepsLined(c.(socks := c.socks[i := Closed], status := Disconnected), onChange); }
    case TimerFires(onChange) => ReactKeepsLined(c.(timer := None, status := Connecting), onChange);
    case _ =>
  }

  lemma {:induction false} EveryRunKeepsLined(k: Config, onChange: seq<Act>, events: seq<Event>)
    ensures Lined(Run(k, onChange, events))
  {
    if events == [] {
      ReactKeepsLined(FRESH.(status := Connecting), onChange);
    } else {
      EveryRunKeepsLined(k, onChange, events[..|events| - 1]);
      StepKeepsLined(k, Run(k, onChange, events[..|events| - 1]), events[|events| - 1]);
    }
  }

  /** Some send among the calls goes out directly while an envelope is pending. */
  predicate ActsOvertake(c: Client, acts: seq<Act>)
    decreases acts, 1
  {
    acts != [] && (ActOvertakes(c, acts[0]) || ActsOvertake(Do(c, acts[0]), acts[1..]))
  }

  predicate ActOvertakes(c: Client, a: Act)
    decreases a, 0
  {
    match a
    case Send(e, throws, onError) =>
      && c.ws.Some? && c.status.Connected?
      && if throws then
           var t := Ticket(|c.accepted|, e);
           ActsOvertake(c.(accepted := c.accepted + [t], pending := c.pending + [t]), onError)
         else c.pending != []
    case Stop(onChange) => !c.status.Stopped? && ActsOvertake(c.(stopRequested := true, status := Stopped), onChange)
  }

  predicate EnterOvertakes(c: Client, s: Status, onChange: seq<Act>) {
    c.status != s && ActsOvertake(c.(status := s), onChange)
  }

  predicate FlushOvertakes(c: Client, throwsAt: Option<nat>, onError: seq<Act>) {
    && c.ws.Some? && c.status.Connected? && throwsAt.Some? && throwsAt.value < |c.pending|
    && ActsOvertake(c.(handed := c.handed + c.pending[..throwsAt.value], pending := c.pending[throwsAt.value..]), onError)
  }

  predicate OpenedOvertakes(c: Client, e: Event)
    requires e.Opened? && e.sock < |c.socks|
  {
    var c1 := c.(socks := c.socks[e.sock := Open]);
    var told := React(c1.(status := Connected), e.onChange);
    var c2 := if c1.status.Connected? then c1 else Flush(told, e.throwsAt, e.onFlushError);
    || (!c1.status.Connected? && (ActsOvertake(c1.(status := Connected), e.onChange) || FlushOvertakes(told, e.throwsAt, e.onFlushError)))
    || (e.helloThrows && ActsOvertake(c2.(attempts := 0, delays := []), e.onHelloError))
  }

  /** So does one of the calls the event makes or provokes. */
  predicate EventOvertakes(c: Client, e: Event) {
    match e
    case Call(acts) => ActsOvertake(c, acts)
    case SignFails(onError) => c.signing > 0 && ActsOvertake(c.(signing := c.signing - 1), onError)
    case Signed(throws, onError) => c.signing > 0 && throws && ActsOvertake(c.(signing := c.signing - 1), onError)
    case Opened(i, _, _, _, _, _) => i < |c.socks| && c.socks[i].Opening? && OpenedOvertakes(c, e)
    case SocketClosed(i, onChange) =>
      i < |c.socks| && !c.socks[i].Closed? && EnterOvertakes(c.(socks := c.socks[i := Closed]), Disconnected, onChange)
    case TimerFires(onChange) => c.timer.Some? && !c.stopRequested && EnterOvertakes(c.(timer := None), Connecting, onChange)
    case _ => false
  }

  ghost predicate NeverOvertakes(k: Config, onChange: seq<Act>, events: seq<Event>) {
    if events == [] then !EnterOvertakes(FRESH, Connecting, onChange)
    else
      var front := events[..|events| - 1];
      NeverOvertakes(k, onChange, front) && !EventOvertakes(Run(k, onChange, front), events[|events| - 1])
  }

  lemma {:induction false} ReactNotesIff(c: Client, acts: seq<Act>)
    ensures React(c, acts).overtook.None? <==> c.overtook.None? && !ActsOvertake(c, acts)
    decreases acts, 1
  {
    if acts != [] {
      DoNotesIff(c, acts[0]);
      ReactNotesIff(Do(c, acts[0]), acts[1..]);
    }
  }

  lemma {:induction false} DoNotesIff(c: Client, a: Act)
    ensures Do(c, a).overtook.None? <==> c.overtook.None? && !ActOvertakes(c, a)
    decreases a, 0
  {
    match a
    case Send(e, throws, onError) =>
      ReactNotesIff(c.(accepted := c.accepted + [Ticket(|c.accepted|, e)], pending := c.pending + [Ticket(|c.accepted|, e)]), onError);
    case Stop(onChange) => ReactNotesIff(c.(stopRequested := true, status := Stopped), onChange);
  }

  lemma FlushNotesIff(c: Client, throwsAt: Option<nat>, onError: seq<Act>)
    ensures Flush(c, throwsAt, onError).overtook.None? <==> c.overtook.None? && !FlushOvertakes(c, throwsAt, onError)
  {
    if throwsAt.Some? && throwsAt.value < |c.pending| {
      ReactNotesIff(c.(handed := c.handed + c.pending[..throwsAt.value], pending := c.pending[throwsAt.value..]), onError);
    }
  }

  lemma OpenedNotesIff(c: Client, e: Event)
    requires e.Opened? && e.sock < |c.socks|
    ensures OnOpened(c, e).overtook.None? <==> c.overtook.None? && !OpenedOvertakes(c, e)
  {
    var c1 := c.(socks := c.socks[e.sock := Open]);
    var told := React(c1.(status := Connected), e.onChange);
    ReactNotesIff(c1.(status := Connected), e.onChange);
    FlushNotesIff(told, e.throwsAt, e.onFlushError);
    var c2 := if c1.status.Connected? then c1 else Flush(told, e.throwsAt, e.onFlushError);
    ReactNotesIff(c2.(attempts := 0, delays := []), e.onHelloError);
  }

  lemma StepNotesIff(k: Config, c: Client, e: Event)
    ensures Next(k, c, e).overtook.None? <==> c.overtook.None? && !EventOvertakes(c, e)
  {
    match e
    case Call(acts) => ReactNotesIff(c, acts);
    case SignFails(onError) => if c.signing > 0 { ReactNotesIff(c.(signing := c.signing - 1), onError); }
    case Signed(_, onError) => if c.signing > 0 { ReactNotesIff(c.(signing := c.signing - 1), onError); }
    case Opened(i, _, _, _, _, _) => if i < |c.socks| { OpenedNotesIff(c, e); }
    case SocketClosed(i, onChange) =>
      if i < |c.socks| { ReactNotesIff(c.(socks := c.socks[i := Closed], status := Disconnected), onChange); }
    case TimerFires(onChange) => ReactNotesIff(c.(timer := None, status := Connecting), onChange);
    case _ =>
  }

  lemma {:induction false} EveryRunNotesIff(k: Config, onChange: seq<Act>, events: seq<Event>)
    ensures Run(k, onChange, events).overtook.None? <==> NeverOvertakes(k, onChange, events)
  {
    if events == [] {
      ReactNotesIff(FRESH.(status := Connecting), onChange);
    } else {
      EveryRunNotesIff(k, onChange, events[..|events| - 1]);
      StepNotesIff(k, Run(k, onChange, events[..|events| - 1]), events[|events| - 1]);
    }
  }

  /** Over every run, throwing sends, throwing flushes and re-entrant callbacks included, what was
      handed over and then what is pending is the order of acceptance if and only if no send ever
      went out directly while something was pending. */
  lemma OrderKeptIff(k: Config, onChange: seq<Act>, events: seq<Event>)
    ensures InAcceptanceOrder(Run(k, onChange, events)) <==> NeverOvertakes(k, onChange, events)
  {
    EveryRunKeepsLined(k, onChange, events);
    EveryRunNotesIff(k, onChange, events);
    LinedMeans(Run(k, onChange, events));
  }

  /** No send throws and no callback calls back. */
  predicate Orderly(e: Event) {
    match e
    case Call(acts) => |acts| == 1 && (acts[0].Send? ==> !acts[0].throws) && (acts[0].Stop? ==> acts[0].onChange == [])
    case SignFails(onError) => onError == []
    case Signed(_, onError) => onError == []
    case Opened(_, onChange, throwsAt, _, helloThrows, _) => onChange == [] && throwsAt.None? && !helloThrows
    case SocketClosed(_, onChange) => onChange == []
    case TimerFires(onChange) => onChange == []
    case _ => true
  }

  ghost predicate InOrder(c: Client) {
    c.handed + c.pending == c.accepted && (c.status.Connected? ==> c.pending == [])
  }

  lemma ActKeepsOrder(c: Client, a: Act)
    requires SocketsOk(c) && InOrder(c)
    requires if a.Send? then !a.throws else a.onChange == []
    ensures InOrder(Do(c, a))
  {
    if a.Send? {
      var t := Ticket(|c.accepted|, a.envelope);
      assert c.handed + (c.pending + [t]) == (c.handed + c.pending) + [t];
      if c.pending == [] {
        assert (c.handed + [t]) + c.pending == (c.handed + c.pending) + [t];
      }
    } else {
      assert React(c.(stopRequested := true, status := Stopped), []) == c.(stopRequested := true, status := Stopped);
    }
  }

  lemma OpenedKeepsOrder(c: Client, e: Event)
    requires SocketsOk(c) && InOrder(c) && Orderly(e)
    requires e.Opened? && e.sock < |c.socks| && c.socks[e.sock].Opening?
    ensures InOrder(OnOpened(c, e))
  {
    var up := c.(socks := c.socks[e.sock := Open], status := Connected);
    assert React(up, []) == up;
    assert (c.handed + c.pending) + [] == c.handed + c.pending;
  }

  lemma StepKeepsOrder(k: Config, c: Client, e: Event)
    requires SocketsOk(c) && InOrder(c) && Orderly(e)
    ensures InOrder(Next(k, c, e))
  {
    if e.Call? {
      ActKeepsOrder(c, e.acts[0]);
      assert e.acts[1..] == [];
      assert React(c, e.acts) == React(Do(c, e.acts[0]), []) == Do(c, e.acts[0]);
    } else if e.Opened? {
      if e.sock < |c.socks| && c.socks[e.sock].Opening? {
        OpenedKeepsOrder(c, e);
      }
    }
  }

  /** If no send throws and no callback calls back, envelopes are handed over in the order in
      which they were accepted, and what is pending comes after them. */
  lemma {:induction false} OrderlyRunsKeepOrder(k: Config, events: seq<Event>)
    requires forall e :: e in events ==> Orderly(e)
    ensures InOrder(Run(k, [], events))
  {
    if events != [] {
      var front := events[..|events| - 1];
      OrderlyRunsKeepOrder(k, front);
      EveryRunKeepsInv(k, [], front);
      StepKeepsOrder(k, Run(k, [], front), events[|events| - 1]);
    }
  }

  /** One throwing send leaves an envelope pending on an open socket, and the next one overtakes it. */
  lemma ThrowingSendReorders(k: Config) returns (events: seq<Event>)
    ensures Run(k, [], events).accepted == [Ticket(0, "a"), Ticket(1, "b")]
    ensures Run(k, [], events).handed == [Ticket(1, "b")] && Run(k, [], events).pending == [Ticket(0, "a")]
  {
    var e0, e1 := Signed(false, []), Opened(0, [], None, [], false, []);
    var e2 := Call([Send("a", true, []), Send("b", false, [])]);
    events := [e0, e1, e2];
    assert events[..2] == [e0, e1] && [e0, e1][..1] == [e0] && [e0][..0] == [];
    var c0 := Run(k, [], []);
    assert c0 == FRESH.(status := Connecting, signing := 1);
    var c1 := Run(k, [], [e0]);
    assert c1 == Next(k, c0, e0) == c0.(signing := 0, socks := [Opening], ws := Some(0));
    var c2 := Run(k, [], [e0, e1]);
    assert c2 == Next(k, c1, e1);
    assert c2 == c1.(socks := [Open], status := Connected, tokenTimer := Some(0));
    var c3 := Do(c2, e2.acts[0]);
    assert c3 == c2.(accepted := [Ticket(0, "a")], pending := [Ticket(0, "a")]);
    assert e2.acts[1..] == [Send("b", false, [])] && e2.acts[1..][1..] == [];
    assert React(c2, e2.acts) == Do(c3, Send("b", false, []));
  }

  // ------------------------------------------------- the client in its own form

  /** The closure of `createCloudClient`: its variables, and its handlers changing them in place.
      Each handler does to the state what the step functions above say. */
  class CloudClientHandle {
    const k: Config
    var status: Status
    var ws: Option<nat>
    var socks: seq<Socket>
    var stopRequested: bool
    var attempts: nat
    var timer: Option<nat>
    var tokenTimer: Option<nat>
    var signing: nat
    var pending: seq<Ticket>
    var accepted: seq<Ticket>
    ghost var handed: seq<Ticket>
    ghost var delays: seq<nat>
    ghost var overtook: Option<Overtaking>

    ghost function View(): Client
      reads this
    {
      Client(status, ws, socks, stopRequested, attempts, timer, tokenTimer, signing, pending, accepted, handed, delays, overtook)
    }

    constructor Create(k: Config, onChange: seq<Act>)
      ensures this.k == k
      ensures View() == Run(k, onChange, [])
    {
      this.k := k;
      status, ws, socks, stopRequested, attempts := Initial, None, [], false, 0;
      timer, tokenTimer, signing, pending := None, None, 0, [];
      accepted, handed, delays, overtook := [], [], [], None;
      new;
      BeginConnect(onChange);
    }

    method RunCallback(acts: seq<Act>)
      modifies this
      ensures View() == React(old(View()), acts)
      decreases acts, 1
    {
      if acts != [] {
        match acts[0] {
          case Send(e, throws, onError) => SendOutboundEnvelope(e, throws, onError);
          case Stop(onChange) => StopClient(onChange);
        }
        RunCallback(acts[1..]);
      }
    }

    method SendOutboundEnvelope(e: Envelope, throws: bool, onError: seq<Act>)
      modifies this
      ensures View() == Do(old(View()), Send(e, throws, onError))
      ensures old(accepted) + [Ticket(|old(accepted)|, e)] <= accepted
      ensures old(ws).None? || old(status) != Connected ==>
        pending == old(pending) + [Ticket(|old(accepted)|, e)] && handed == old(handed)
      ensures old(ws).Some? && old(status) == Connected && !throws ==>
        pending == old(pending) && handed == old(handed) + [Ticket(|old(accepted)|, e)]
      ensures old(ws).Some? && old(status) == Connected && throws && onError == [] ==>
        pending == old(pending) + [Ticket(|old(accepted)|, e)] && handed == old(handed)
      decreases Send(e, throws, onError), 0
    {
      var t := Ticket(|accepted|, e);
      accepted := accepted + [t];
      if ws.None? || status != Connected {
        pending := pending + [t];
      } else if throws {
        pending := pending + [t];
        ReactRecords(View(), onError);
        RunCallback(onError);
      } else {
        overtook := NoteOvertaking(View());
        handed := handed + [t];
      }
    }

    method StopClient(onChange: seq<Act>)
      modifies this
      ensures View() == Do(old(View()), Stop(onChange))
      decreases Stop(onChange), 0
    {
      stopRequested := true;
      if status != Stopped {
        status := Stopped;
        RunCallback(onChange);
      }
      timer := None;
      tokenTimer := None;
      var sock := ws;
      ws := None;
      if sock.Some? {
        socks := CloseSocket(socks, sock.value);
      }
    }

    /** Hand over what is pending, one by one, until it is gone or a send throws. */
    method FlushPendingOutbound(throwsAt: Option<nat>, onError: seq<Act>)
      modifies this
      ensures View() == Flush(old(View()), throwsAt, onError)
      ensures old(ws).None? || old(status) != Connected ==> pending == old(pending) && handed == old(handed)
      ensures old(ws).Some? && old(status) == Connected && (throwsAt.None? || throwsAt.value >= |old(pending)|) ==>
        pending == [] && handed == old(handed) + old(pending)
      ensures old(ws).Some? && old(status) == Connected && throwsAt.Some? && throwsAt.value < |old(pending)| ==>
        && old(handed) + old(pending)[..throwsAt.value] <= handed
        && (onError == [] ==> handed == old(handed) + old(pending)[..throwsAt.value] && pending == old(pending)[throwsAt.value..])
    {
      if ws.None? || status != Connected { return; }
      ghost var before := View();
      var sent := 0;
      while pending != []
        invariant sent <= |before.pending| && pending == before.pending[sent..]
        invariant throwsAt.Some? ==> sent <= throwsAt.value
        invariant handed == before.handed + before.pending[..sent]
        invariant View() == before.(pending := pending, handed := handed)
        decreases |pending|
      {
        var next := pending[0];
        NextPending(before.pending, sent);
        pending := pending[1..];
        if throwsAt == Some(sent) {
          pending := [next] + pending;
          assert pending == before.pending[sent..];
          ReactRecords(View(), onError);
          RunCallback(onError);
          return;
        }
        handed := handed + [next];
        sent := sent + 1;
      }
      assert before.pending[..sent] == before.pending;
    }

    method ArmReconnect()
      modifies this
      ensures View() == ScheduleReconnect(k, old(View()))
      ensures stopRequested ==> View() == old(View())
      ensures !stopRequested ==> attempts == old(attempts) + 1 && timer == Some(Backoff(k, old(attempts)))
    {
      if stopRequested { return; }
      var delay := Backoff(k, attempts);
      attempts := attempts + 1;
      timer := Some(delay);
      delays := delays + [delay];
    }

    method BeginConnect(onChange: seq<Act>)
      modifies this
      ensures View() == Connect(old(View()), onChange)
      ensures old(stopRequested) ==> View() == old(View())
      ensures !old(stopRequested) ==> signing == old(signing) + 1 && (!stopRequested ==> status == Connecting)
    {
      if stopRequested { return; }
      if status != Connecting {
        status := Connecting;
        ReactKeeps(View(), onChange);
        RunCallback(onChange);
      }
      signing := signing + 1;
    }

    method FinishConnect(constructorThrows: bool, onError: seq<Act>)
      requires signing > 0
      modifies this
      ensures View() == OnSigned(k, old(View()), constructorThrows, onError)
      ensures signing == old(signing) - 1
      ensures !constructorThrows ==> socks == old(socks) + [Opening] && ws == Some(|old(socks)|)
      ensures constructorThrows && !stopRequested ==>
        socks == old(socks) && attempts == old(attempts) + 1 && timer == Some(Backoff(k, old(attempts)))
    {
      signing := signing - 1;
      if constructorThrows {
        ReactKeeps(View(), onError);
        RunCallback(onError);
        ArmReconnect();
        return;
      }
      socks := socks + [Opening];
      ws := Some(|socks| - 1);
    }

    method OnOpen(e: Event)
      requires e.Opened? && e.sock < |socks|
      modifies this
      ensures View() == OnOpened(old(View()), e)
    {
      hide Flush, React, Do;
      socks := socks[e.sock := Open];
      if status != Connected {
        status := Connected;
        RunCallback(e.onChange);
        FlushPendingOutbound(e.throwsAt, e.onFlushError);
      }
      attempts, delays := 0, [];
      if e.helloThrows {
        RunCallback(e.onHelloError);
      }
      tokenTimer := Some(e.sock);
    }

    method OnClose(i: nat, onChange: seq<Act>)
      requires i < |socks|
      modifies this
      ensures View() == OnClosed(k, old(View()), i, onChange)
      ensures tokenTimer.None? && ws.None?
      ensures !stopRequested ==>
        && status == Disconnected && i < |socks| && socks[i] == Closed
        && attempts == old(attempts) + 1 && timer == Some(Backoff(k, old(attempts)))
    {
      socks := socks[i := Closed];
      if status != Disconnected {
        status := Disconnected;
        ReactKeeps(View(), onChange);
        RunCallback(onChange);
      }
      tokenTimer := None;
      ws := None;
      ArmReconnect();
    }
  }
}
