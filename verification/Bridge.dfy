/** The bridge between the gateway and an agent framework, and networks of bridges:
    packages/cloud-bridge/src/bridge.ts. The adapter may answer anything; the policy verdict,
    whether an envelope decodes and what the adapter answers are given with each delivery. */
module Bridge {
  import opened Common

  const RESPONSE_TYPE := "https://didcomm.org/arp/1.0/response"

  /** `thid` stands for the thread id, or the message id when there is none. */
  datatype Message = Message(from: nat, to: nat, msgType: string, thid: Option<string>)

  // --------------------------------------------------------- awaited replies

  datatype Outcome = Resolved | TimedOut | BridgeStopped

  /** `waiting` is the `pending` map; `armed` are the awaits whose timer is set; `thids` is the
      thread each await asked for and `settled` how its promise ended. */
  datatype Awaits = Awaits(
    waiting: map<string, nat>,
    armed: set<nat>,
    thids: map<nat, string>,
    settled: map<nat, Outcome>)

  const NO_AWAITS := Awaits(map[], {}, map[], map[])

  /** A promise settles once; later attempts do nothing. */
  function Settle(settled: map<nat, Outcome>, id: nat, o: Outcome): map<nat, Outcome> {
    if id in settled then settled else settled[id := o]
  }

  function AwaitReply(b: Awaits, id: nat, thid: string): Awaits {
    b.(waiting := b.waiting[thid := id], armed := b.armed + {id}, thids := b.thids[id := thid])
  }

  predicate Intercepts(b: Awaits, thid: Option<string>) {
    thid.Some? && thid.value != "" && thid.value in b.waiting
  }

  function Intercept(b: Awaits, thid: string): Awaits
    requires thid in b.waiting
  {
    var id := b.waiting[thid];
    b.(waiting := b.waiting - {thid}, armed := b.armed - {id}, settled := Settle(b.settled, id, Resolved))
  }

  /** The timer of one await: it deletes whatever entry its thread has by now. */
  function TimeOut(b: Awaits, id: nat): Awaits
    requires id in b.thids
  {
    b.(waiting := b.waiting - {b.thids[id]}, armed := b.armed - {id}, settled := Settle(b.settled, id, TimedOut))
  }

  function Listed(waiting: map<string, nat>, threads: set<string>): set<nat> {
    set t | t in threads && t in waiting :: waiting[t]
  }

  /** The awaits listed under `threads` are rejected. */
  function Reject(b: Awaits, threads: set<string>): Awaits {
    b.(armed := b.armed - Listed(b.waiting, threads),
       settled := map id | id in b.settled.Keys + Listed(b.waiting, threads) ::
                    if id in b.settled then b.settled[id] else BridgeStopped)
  }

  function StopAll(b: Awaits): Awaits { Reject(b, b.waiting.Keys).(waiting := map[]) }

  datatype Event = Await(id: nat, thid: string) | Inbound(of: Option<string>) | Timer(id: nat) | Stop

  function Next(b: Awaits, e: Event): Awaits {
    match e
    case Await(id, thid) => if id in b.thids then b else AwaitReply(b, id, thid)
    case Inbound(thid) => if Intercepts(b, thid) then Intercept(b, thid.value) else b
    case Timer(id) => if id in b.armed && id in b.thids then TimeOut(b, id) else b
    case Stop => StopAll(b)
  }

  function Run(events: seq<Event>): Awaits {
    if events == [] then NO_AWAITS else Next(Run(events[..|events| - 1]), events[|events| - 1])
  }

  /** Every await is either waiting for its timer or settled, never both. */
  ghost predicate Accounted(b: Awaits) {
    && b.armed !! b.settled.Keys
    && b.armed + b.settled.Keys == b.thids.Keys
    && (forall t :: t in b.waiting ==> b.waiting[t] in b.armed && b.thids[b.waiting[t]] == t)
  }

  lemma StepAccounted(b: Awaits, e: Event)
    requires Accounted(b)
    ensures Accounted(Next(b, e))
    ensures forall id :: id in b.settled ==> id in Next(b, e).settled && Next(b, e).settled[id] == b.settled[id]
  {
  }

  /** Over every run each await settles exactly once: it is unsettled exactly while its own timer
      is armed, and how it settled never changes again. */
  lemma {:induction false} EveryAwaitSettlesOnce(events: seq<Event>)
    ensures Accounted(Run(events))
    ensures forall k :: 0 <= k <= |events| ==>
              forall id :: id in Run(events[..k]).settled ==>
                id in Run(events).settled && Run(events).settled[id] == Run(events[..k]).settled[id]
  {
    if events != [] {
      var front := events[..|events| - 1];
      EveryAwaitSettlesOnce(front);
      StepAccounted(Run(front), events[|events| - 1]);
      forall k | 0 <= k <= |events|
        ensures forall id :: id in Run(events[..k]).settled ==>
                  id in Run(events).settled && Run(events).settled[id] == Run(events[..k]).settled[id]
      {
        if k < |events| {
          assert front[..k] == events[..k];
        } else {
          assert events[..k] == events;
        }
      }
    }
  }

  /** No two awaits ask for the same thread. */
  ghost predicate DistinctThreads(events: seq<Event>) {
    forall i, j :: 0 <= i < j < |events| && events[i].Await? && events[j].Await? ==> events[i].thid != events[j].thid
  }

  ghost predicate EveryArmedListed(b: Awaits) {
    forall id :: id in b.armed ==> id in b.thids && b.thids[id] in b.waiting && b.waiting[b.thids[id]] == id
  }

  lemma {:induction false} OnlyAwaitedThreads(events: seq<Event>, id: nat)
    requires id in Run(events).thids
    ensures exists i :: 0 <= i < |events| && events[i].Await? && events[i].thid == Run(events).thids[id]
  {
    var front, last := events[..|events| - 1], events[|events| - 1];
    if id in Run(front).thids && Run(front).thids[id] == Run(events).thids[id] {
      OnlyAwaitedThreads(front, id);
      var i :| 0 <= i < |front| && front[i].Await? && front[i].thid == Run(front).thids[id];
      assert events[i] == front[i];
    } else {
      assert last.Await?;
    }
  }

  /** The thread is being awaited at this moment. */
  ghost predicate Busy(b: Awaits, thid: string) {
    exists id :: id in b.armed && id in b.thids && b.thids[id] == thid
  }

  /** The event awaits a thread that is being awaited. */
  ghost predicate AwaitsBusy(b: Awaits, e: Event) {
    e.Await? && e.id !in b.thids && Busy(b, e.thid)
  }

  /** One event keeps every unsettled await listed exactly if it does not await a busy thread. */
  lemma NextListedIff(b: Awaits, e: Event)
    requires Accounted(b) && EveryArmedListed(b)
    ensures EveryArmedListed(Next(b, e)) <==> !AwaitsBusy(b, e)
  {
    if AwaitsBusy(b, e) {
      var id :| id in b.armed && id in b.thids && b.thids[id] == e.thid;
      assert id in Next(b, e).armed && Next(b, e).waiting[e.thid] == e.id;
    }
  }

  /** Every unsettled await is listed after every event. */
  ghost predicate AlwaysListed(events: seq<Event>) {
    events == [] || (AlwaysListed(events[..|events| - 1]) && EveryArmedListed(Run(events)))
  }

  ghost predicate NeverAwaitsBusy(events: seq<Event>) {
    events == []
    || (NeverAwaitsBusy(events[..|events| - 1]) && !AwaitsBusy(Run(events[..|events| - 1]), events[|events| - 1]))
  }

  /** Over a run every unsettled await stays listed exactly if no thread is awaited while it is
      being awaited. A thread whose await has settled may be awaited again. */
  lemma {:induction false} AlwaysListedIff(events: seq<Event>)
    ensures AlwaysListed(events) <==> NeverAwaitsBusy(events)
  {
    if events != [] {
      var front := events[..|events| - 1];
      AlwaysListedIff(front);
      if AlwaysListed(front) {
        EveryAwaitSettlesOnce(front);
        NextListedIff(Run(front), events[|events| - 1]);
      }
    }
  }

  /** A reply on the await's thread resolves it. */
  ghost predicate Answerable(b: Awaits, id: nat)
    requires id in b.thids
  {
    var b' := Next(b, Inbound(Some(b.thids[id])));
    id in b'.settled && b'.settled[id] == Resolved
  }

  /** An unsettled await gets its reply exactly if it is the one listed, and its thread has a name. */
  lemma AnswerableIffListed(b: Awaits, id: nat)
    requires Accounted(b) && id in b.armed
    ensures Answerable(b, id) <==> b.thids[id] != "" && b.thids[id] in b.waiting && b.waiting[b.thids[id]] == id
  {
  }

  ghost predicate EveryArmedAnswerable(b: Awaits) {
    forall id :: id in b.armed && id in b.thids ==> Answerable(b, id)
  }

  ghost predicate AlwaysAnswerable(events: seq<Event>) {
    events == [] || (AlwaysAnswerable(events[..|events| - 1]) && EveryArmedAnswerable(Run(events)))
  }

  /** No thread is awaited while it is being awaited, and none without a name. */
  ghost predicate AwaitsFreely(events: seq<Event>) {
    events == []
    || (&& AwaitsFreely(events[..|events| - 1])
        && var b, e := Run(events[..|events| - 1]), events[|events| - 1];
           e.Await? && e.id !in b.thids ==> e.thid != "" && !Busy(b, e.thid))
  }

  lemma AnswerableMeansListed(b: Awaits)
    requires Accounted(b)
    ensures EveryArmedAnswerable(b) <==> EveryArmedListed(b) && forall id :: id in b.armed ==> b.thids[id] != ""
  {
    forall id | id in b.armed
      ensures Answerable(b, id) <==> b.thids[id] != "" && b.thids[id] in b.waiting && b.waiting[b.thids[id]] == id
    {
      AnswerableIffListed(b, id);
    }
    if EveryArmedAnswerable(b) {
      forall id | id in b.armed ensures id in b.thids && b.thids[id] in b.waiting && b.waiting[b.thids[id]] == id {
        assert Answerable(b, id);
      }
    }
  }

  lemma NamedThreadsStayNamed(b: Awaits, e: Event)
    requires Accounted(b) && forall id :: id in b.armed ==> b.thids[id] != ""
    ensures (forall id :: id in Next(b, e).armed ==> id in Next(b, e).thids && Next(b, e).thids[id] != "")
            <==> !(e.Await? && e.id !in b.thids && e.thid == "")
  {
    if e.Await? && e.id !in b.thids {
      assert e.id in Next(b, e).armed && Next(b, e).thids[e.id] == e.thid;
    }
  }

  /** At every moment of a run a reply would reach every unsettled await exactly if each thread
      had a name and was not being awaited when it was awaited. */
  lemma {:induction false} EveryReplyArrivesIff(events: seq<Event>)
    ensures AlwaysAnswerable(events) <==> AwaitsFreely(events)
  {
    if events == [] {
    } else {
      var front, e := events[..|events| - 1], events[|events| - 1];
      EveryReplyArrivesIff(front);
      if AlwaysAnswerable(front) {
        EveryAwaitSettlesOnce(front);
        EveryAwaitSettlesOnce(events);
        assert EveryArmedAnswerable(Run(front)) by {
          if front == [] { assert Run(front).armed == {}; }
        }
        AnswerableMeansListed(Run(front));
        AnswerableMeansListed(Run(events));
        NextListedIff(Run(front), e);
        NamedThreadsStayNamed(Run(front), e);
      }
    }
  }

  /** Threads that differ over the whole run are never awaited while busy. */
  lemma {:induction false} DistinctThreadsNeverBusy(events: seq<Event>)
    requires DistinctThreads(events)
    ensures NeverAwaitsBusy(events)
  {
    if events != [] {
      var front, last := events[..|events| - 1], events[|events| - 1];
      DistinctThreadsNeverBusy(front);
      if AwaitsBusy(Run(front), last) {
        var id :| id in Run(front).armed && id in Run(front).thids && Run(front).thids[id] == last.thid;
        OnlyAwaitedThreads(front, id);
      }
    }
  }

  lemma ListedNow(events: seq<Event>)
    requires NeverAwaitsBusy(events)
    ensures Accounted(Run(events)) && EveryArmedListed(Run(events))
  {
    AlwaysListedIff(events);
    EveryAwaitSettlesOnce(events);
  }

  /** When no busy thread was awaited, a reply resolves its await, and stopping settles everything. */
  lemma OpenAwaitsAnswered(events: seq<Event>, id: nat)
    requires NeverAwaitsBusy(events)
    requires id in Run(events).armed && id in Run(events).thids && Run(events).thids[id] != ""
    ensures Answerable(Run(events), id)
    ensures Next(Run(events), Stop).armed == {}
  {
    ListedNow(events);
    AnswerableIffListed(Run(events), id);
  }

  /** Stopping settles every await exactly if every one is listed: an unlisted one is left to its timer. */
  lemma StopSettlesAllIff(b: Awaits)
    requires Accounted(b)
    ensures Next(b, Stop).armed == {} <==> EveryArmedListed(b)
  {
    if EveryArmedListed(b) {
      forall id | id in b.armed ensures id in Listed(b.waiting, b.waiting.Keys) {
        assert b.thids[id] in b.waiting.Keys && b.waiting[b.thids[id]] == id;
      }
    } else {
      var id :| id in b.armed && !(b.thids[id] in b.waiting && b.waiting[b.thids[id]] == id);
      assert id !in Listed(b.waiting, b.waiting.Keys);
      assert id in Next(b, Stop).armed;
    }
  }

  /** With a repeated thread they fail: the reply goes to the later await, the earlier one is left
      to its timer, and that timer would have taken the later one off the list. */
  lemma RepeatedThreadLosesReply() returns (events: seq<Event>)
    ensures Run(events).settled == map[1 := TimedOut]
    ensures Run(events).armed == {2} && Run(events).waiting == map[]
    ensures Next(Run(events), Inbound(Some("t"))) == Run(events)
  {
    events := [Await(1, "t"), Await(2, "t"), Timer(1)];
    assert events[..2][..1][..0] == [];
    assert events[..2] == [Await(1, "t"), Await(2, "t")];
    assert events[..2][..1] == [Await(1, "t")];
    var b1 := Run([Await(1, "t")]);
    assert b1 == AwaitReply(NO_AWAITS, 1, "t");
    var b2 := Run(events[..2]);
    assert b2 == AwaitReply(b1, 2, "t");
    assert b2.armed == {1, 2};
    assert Run(events) == TimeOut(b2, 1);
  }

  // ---------------------------------------------------------------- network

  /** How one delivery goes: the gateway's verdict, whether the envelope decodes, and the answer
      of the adapter (none when it throws); `freshId` is the id drawn for the response. */
  datatype Delivery = Delivery(index: nat, allowed: bool, decodes: bool, answer: Option<string>, freshId: string)

  /** `handleInbound`: the bridge after it, and the response it sends, if any. */
  function HandleInbound(b: Awaits, m: Message, d: Delivery): (Awaits, Option<Message>) {
    if !d.allowed || !d.decodes then (b, None)
    else if Intercepts(b, m.thid) then (Intercept(b, m.thid.value), None)
    else if IsResponse(m.msgType) then (b, None)
    else if d.answer.None? || AllBlank(d.answer.value) then (b, None)
    else (b, Some(Message(m.to, m.from, RESPONSE_TYPE, Some(if m.thid.Some? then m.thid.value else d.freshId))))
  }

  datatype Network = Network(bridges: map<nat, Awaits>, inFlight: seq<Message>)

  function BridgeOf(n: Network, id: nat): Awaits { if id in n.bridges then n.bridges[id] else NO_AWAITS }

  function Deliver(n: Network, d: Delivery): Network
    requires d.index < |n.inFlight|
  {
    var m := n.inFlight[d.index];
    var (b, reply) := HandleInbound(BridgeOf(n, m.to), m, d);
    Network(n.bridges[m.to := b],
            n.inFlight[..d.index] + n.inFlight[d.index + 1..] + if reply.Some? then [reply.value] else [])
  }

  /** Every delivery of the schedule delivers a message that is in flight then. */
  ghost predicate Possible(n: Network, ds: seq<Delivery>)
    decreases |ds|
  {
    ds == [] || (ds[0].index < |n.inFlight| && Possible(Deliver(n, ds[0]), ds[1..]))
  }

  function DeliverAll(n: Network, ds: seq<Delivery>): Network
    requires Possible(n, ds)
    decreases |ds|
  {
    if ds == [] then n else DeliverAll(Deliver(n, ds[0]), ds[1..])
  }

  /** Twice the requests plus the responses in flight. */
  function Weight(ms: seq<Message>): nat {
    if ms == [] then 0 else Weight(ms[..|ms| - 1]) + if IsResponse(ms[|ms| - 1].msgType) then 1 else 2
  }

  function Requests(ms: seq<Message>): nat {
    if ms == [] then 0 else Requests(ms[..|ms| - 1]) + if IsResponse(ms[|ms| - 1].msgType) then 0 else 1
  }

  lemma {:induction false} WeightConcat(a: seq<Message>, b: seq<Message>)
    ensures Weight(a + b) == Weight(a) + Weight(b)
    ensures Requests(a + b) == Requests(a) + Requests(b)
  {
    if b == [] {
      assert a + b == a;
    } else {
      assert (a + b)[..|a + b| - 1] == a + b[..|b| - 1];
      WeightConcat(a, b[..|b| - 1]);
    }
  }

  lemma WeightOne(m: Message)
    ensures Weight([m]) == if IsResponse(m.msgType) then 1 else 2
    ensures Requests([m]) == if IsResponse(m.msgType) then 0 else 1
  {
    assert [m][..0] == [];
  }

  /** What a bridge sends back is a response in the eyes of every bridge. */
  lemma RepliesAreResponses()
    ensures IsResponse(RESPONSE_TYPE)
  {
    assert RESPONSE_TYPE[|RESPONSE_TYPE| - 9..] == "/response";
  }

  /** Delivering a request replaces it by at most one response; delivering a response by nothing. */
  lemma DeliveryShrinks(n: Network, d: Delivery)
    requires d.index < |n.inFlight|
    ensures var n' := Deliver(n, d);
      && Weight(n'.inFlight) < Weight(n.inFlight)
      && |n'.inFlight| + Requests(n'.inFlight) <= |n.inFlight| - 1 + Requests(n.inFlight)
  {
    var m := n.inFlight[d.index];
    var before, after := n.inFlight[..d.index], n.inFlight[d.index + 1..];
    assert n.inFlight == before + [m] + after;
    WeightConcat(before + [m], after);
    WeightConcat(before, [m]);
    WeightOne(m);
    WeightConcat(before, after);
    var (b, reply) := HandleInbound(BridgeOf(n, m.to), m, d);
    if reply.Some? {
      RepliesAreResponses();
      WeightOne(reply.value);
      WeightConcat(before + after, [reply.value]);
    } else {
      assert before + after + [] == before + after;
    }
  }

  /** A closed network always goes quiet: no schedule makes more deliveries than twice the
      requests plus the responses it started with, and as long as a message is in flight there
      is a delivery to make. Since every message but the first ones is a delivered request's
      response, `k` requests cause at most `2 * k` messages. */
  lemma {:induction false} NetworkGoesQuiet(n: Network, ds: seq<Delivery>)
    requires Possible(n, ds)
    ensures |ds| + Weight(DeliverAll(n, ds).inFlight) <= Weight(n.inFlight)
    ensures |ds| + |DeliverAll(n, ds).inFlight| <= |n.inFlight| + Requests(n.inFlight)
    decreases |ds|
  {
    if ds != [] {
      DeliveryShrinks(n, ds[0]);
      NetworkGoesQuiet(Deliver(n, ds[0]), ds[1..]);
      MoreRequestsNotFewer(n, ds);
    }
  }

  lemma MoreRequestsNotFewer(n: Network, ds: seq<Delivery>)
    requires ds != [] && Possible(n, ds)
    ensures |Deliver(n, ds[0]).inFlight| + Requests(Deliver(n, ds[0]).inFlight) < |n.inFlight| + Requests(n.inFlight)
  {
    DeliveryShrinks(n, ds[0]);
  }

  /** A network of `k` requests makes at most `2 * k` deliveries. */
  lemma RequestsCauseAtMostTwice(n: Network, ds: seq<Delivery>)
    requires Possible(n, ds)
    requires forall m :: m in n.inFlight ==> !IsResponse(m.msgType)
    ensures |ds| + |DeliverAll(n, ds).inFlight| <= 2 * |n.inFlight|
  {
    NetworkGoesQuiet(n, ds);
    AllRequests(n.inFlight);
  }

  lemma {:induction false} AllRequests(ms: seq<Message>)
    requires forall m :: m in ms ==> !IsResponse(m.msgType)
    ensures Requests(ms) == |ms|
  {
    if ms != [] { AllRequests(ms[..|ms| - 1]); }
  }

  /** The way back: the response to a request carries its thread, and resolves the await that
      the sender of the request has listed for it. */
  lemma ReplyReachesAwaiter(asker: Awaits, answerer: Awaits, m: Message, d: Delivery, back: Delivery)
    requires Accounted(asker) && Intercepts(asker, m.thid)
    requires !Intercepts(answerer, m.thid) && !IsResponse(m.msgType)
    requires d.allowed && d.decodes && d.answer.Some? && !AllBlank(d.answer.value)
    requires back.allowed && back.decodes
    ensures var (_, reply) := HandleInbound(answerer, m, d);
      && reply.Some? && reply.value.to == m.from
      && var (asker', echo) := HandleInbound(asker, reply.value, back);
         echo.None? && asker.waiting[m.thid.value] in asker'.settled
         && asker'.settled[asker.waiting[m.thid.value]] == Resolved
  {
    assert asker.waiting[m.thid.value] !in asker.settled;
  }

  /** A delivery takes its message out, changes no bridge but the addressee's, and adds the
      addressee's reply, if any, to its sender. */
  lemma DeliveryEffect(n: Network, d: Delivery)
    requires d.index < |n.inFlight|
    ensures var m, n' := n.inFlight[d.index], Deliver(n, d);
      var rest := n.inFlight[..d.index] + n.inFlight[d.index + 1..];
      && rest <= n'.inFlight && |n'.inFlight| <= |rest| + 1
      && (forall i :: |rest| <= i < |n'.inFlight| ==> n'.inFlight[i].from == m.to && n'.inFlight[i].to == m.from)
      && (forall b :: b != m.to ==> BridgeOf(n', b) == BridgeOf(n, b))
  {
  }

  /** Over the network: a request on an awaited thread, answered by its addressee, comes back to the
      bridge that sent it and resolves the await there, whatever else is in flight. */
  lemma RequestComesBack(n: Network, d: Delivery, back: Delivery)
    requires d.index < |n.inFlight|
    requires var m := n.inFlight[d.index];
      && m.from != m.to && !IsResponse(m.msgType)
      && Accounted(BridgeOf(n, m.from)) && Intercepts(BridgeOf(n, m.from), m.thid) && !Intercepts(BridgeOf(n, m.to), m.thid)
    requires d.allowed && d.decodes && d.answer.Some? && !AllBlank(d.answer.value)
    requires back.index == |n.inFlight| - 1 && back.allowed && back.decodes
    ensures var m, n' := n.inFlight[d.index], Deliver(n, d);
      && back.index < |n'.inFlight|
      && var id, after := BridgeOf(n, m.from).waiting[m.thid.value], BridgeOf(Deliver(n', back), m.from);
         && id in after.settled && after.settled[id] == Resolved && id !in after.armed
         && Deliver(n', back).inFlight == n.inFlight[..d.index] + n.inFlight[d.index + 1..]
  {
    var m := n.inFlight[d.index];
    ReplyReachesAwaiter(BridgeOf(n, m.from), BridgeOf(n, m.to), m, d, back);
    var n' := Deliver(n, d);
    var rest := n.inFlight[..d.index] + n.inFlight[d.index + 1..];
    var reply := n'.inFlight[|rest|];
    assert n'.inFlight == rest + [reply];
    assert n'.inFlight[..|rest|] == rest && n'.inFlight[|rest| + 1..] == [];
    assert BridgeOf(n', m.from) == BridgeOf(n, m.from);
    assert rest + [] + [] == rest;
  }

  // ------------------------------------------------- the bridge in its own form

  /** The message comes on a named thread that somebody awaits. */
  ghost predicate Awaited(pending: map<string, nat>, m: Message) {
    m.thid.Some? && m.thid.value != "" && m.thid.value in pending
  }

  /** The adapter answered, and not with white space alone. */
  ghost predicate Speaks(answer: Option<string>) {
    answer.Some? && exists i :: 0 <= i < |answer.value| && !IsBlank(answer.value[i])
  }

  ghost predicate IsListed(pending: map<string, nat>, id: nat) {
    exists t :: t in pending && pending[t] == id
  }

  class BridgeHandle {
    var pending: map<string, nat>
    var armed: set<nat>
    var thids: map<nat, string>
    var settled: map<nat, Outcome>

    function View(): Awaits
      reads this
    {
      Awaits(pending, armed, thids, settled)
    }

    constructor ()
      ensures View() == NO_AWAITS
    {
      pending, armed, thids, settled := map[], {}, map[], map[];
    }

    method AwaitReply(id: nat, thid: string)
      requires id !in thids
      modifies this
      ensures View() == Next(old(View()), Await(id, thid))
      ensures pending == old(pending)[thid := id] && armed == old(armed) + {id}
      ensures thids == old(thids)[id := thid] && settled == old(settled)
    {
      armed := armed + {id};
      thids := thids[id := thid];
      pending := pending[thid := id];
    }

    method OnTimeout(id: nat)
      requires Accounted(View()) && id in armed
      modifies this
      ensures View() == Next(old(View()), Timer(id))
      ensures pending == old(pending) - {old(thids)[id]} && armed == old(armed) - {id}
      ensures thids == old(thids) && settled == old(settled)[id := TimedOut]
    {
      pending := pending - {thids[id]};
      armed := armed - {id};
      settled := settled[id := TimedOut];
    }

    /** A message that the policy denied or that cannot be decoded does nothing. One that is awaited
        resolves its await, and that alone changes the bridge. Of the others a request that the
        adapter answers with more than white space is answered, and nothing else is. */
    method HandleMessage(m: Message, d: Delivery) returns (reply: Option<Message>)
      requires Accounted(View())
      modifies this
      ensures (View(), reply) == HandleInbound(old(View()), m, d)
      ensures Awaited(old(pending), m) && d.allowed && d.decodes ==>
                var id := old(pending)[m.thid.value];
                && reply.None? && thids == old(thids)
                && pending == old(pending) - {m.thid.value} && armed == old(armed) - {id} && settled == old(settled)[id := Resolved]
      ensures !(Awaited(old(pending), m) && d.allowed && d.decodes) ==> View() == old(View())
      ensures reply.Some? <==> d.allowed && d.decodes && !Awaited(old(pending), m) && !EndsInResponse(m.msgType) && Speaks(d.answer)
      ensures reply.Some? ==> reply.value.from == m.to && reply.value.to == m.from
      ensures reply.Some? ==> reply.value.msgType == "https://didcomm.org/arp/1.0/response"
      ensures reply.Some? ==> reply.value.thid == Some(if m.thid.Some? then m.thid.value else d.freshId)
    {
      if !d.allowed { return None; }
      if !d.decodes { return None; }
      if m.thid.Some? && m.thid.value != "" && m.thid.value in pending {
        var id := pending[m.thid.value];
        pending := pending - {m.thid.value};
        armed := armed - {id};
        settled := settled[id := Resolved];
        return None;
      }
      ResponseMeans(m.msgType);
      if IsResponse(m.msgType) { return None; }
      if d.answer.None? || AllBlank(d.answer.value) { return None; }
      var thid := if m.thid.Some? then m.thid.value else d.freshId;
      return Some(Message(m.to, m.from, RESPONSE_TYPE, Some(thid)));
    }

    /** Reject every listed await, then clear the list. */
    method StopBridge()
      modifies this
      ensures View() == StopAll(old(View()))
      ensures pending == map[] && thids == old(thids)
      ensures forall id :: id in armed <==> id in old(armed) && !IsListed(old(pending), id)
      ensures forall id :: id in settled <==> id in old(settled) || IsListed(old(pending), id)
      ensures forall id :: id in settled ==> settled[id] == if id in old(settled) then old(settled)[id] else BridgeStopped
    {
      ghost var before := View();
      ghost var done: set<string> := {};
      var left := pending.Keys;
      while left != {}
        invariant left !! done && left + done == before.waiting.Keys
        invariant View() == Reject(before, done)
        decreases left
      {
        var t :| t in left;
        RejectOne(before, done, t);
        var id := pending[t];
        armed := armed - {id};
        settled := Settle(settled, id, BridgeStopped);
        left, done := left - {t}, done + {t};
      }
      pending := map[];
      forall id ensures id in Listed(before.waiting, before.waiting.Keys) <==> IsListed(before.waiting, id) {
      }
    }
  }

  lemma RejectOne(b: Awaits, done: set<string>, t: string)
    requires t in b.waiting
    ensures var r := Reject(b, done);
      Reject(b, done + {t}) == r.(armed := r.armed - {b.waiting[t]}, settled := Settle(r.settled, b.waiting[t], BridgeStopped))
  {
    assert Listed(b.waiting, done + {t}) == Listed(b.waiting, done) + {b.waiting[t]};
  }
}
