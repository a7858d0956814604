/** Dispatch of one verified inbound message for one tenant: packages/cloud-runtime/src/dispatch.ts
    (`dispatchVerifiedMessage`, `resolveConnection`) with the quota of packages/cloud-db/src/types.ts.

    The policy engine is an arbitrary function; how the socket, a waiting sender and the push
    runtime react is given with the message. */
module Dispatch {
  import opened Common

  datatype Connection = Connection(
    connectionId: string,
    agentDid: string,
    peerDid: string,
    status: string,
    expiresAt: Option<int>,
    obligations: seq<string>)

  datatype Message = Message(
    id: string,
    msgType: string,
    createdTime: Option<int>, // seconds
    connectionId: Option<string>)

  /** How the rest of the world will react to the message. */
  datatype World = World(
    now: int,
    period: string,
    plan: Option<string>,
    permits: bool,            // the verdict of the policy engine
    reasons: seq<string>,     // what it gives for it
    policiesFired: seq<string>,
    obligations: seq<string>, // and what it obliges to
    sessionOpen: bool,
    sendFails: bool,
    markFails: bool,          // the socket took the message, marking the row throws
    replyAwaited: bool,
    pushRuntime: bool)

  datatype Decision = Allow | Deny

  datatype Reason =
    | MissingConnectionId | UnknownConnection | AmbiguousConnection | WrongAgent
    | NotActive(status: string) | ConnectionExpired | Revoked | StaleEnvelope | PolicyDenied | QuotaExceeded

  /** The reason of an audit line. `NothingMatched` names the action and resource refused. */
  datatype AuditReason = Refused(why: Reason) | AutoAllowResponse | FromPolicy(texts: seq<string>) | NothingMatched

  datatype Outcome =
    | Denied(ok: bool, reason: Reason)
    | Accepted(row: nat, queued: bool, pushed: bool)

  datatype Delivery = Queued | Delivered | Failed

  datatype AuditRecord = AuditRecord(
    connectionId: string,
    msgId: string,
    decision: Decision,
    obligations: seq<string>,
    policiesFired: seq<string>,
    reason: Option<AuditReason>)

  datatype Inbound = Inbound(connectionId: string, msgId: string, status: Delivery)

  // ----------------------------------------------------------------- quota

  /** `maxInboundMessagesPerMonth` of a plan; none for internal accounts and unknown plans. */
  function Cap(plan: Option<string>): Option<nat> {
    var p := if plan.Some? then plan.value else "free";
    if p == "free" || p == "pro" then Some(10000) else None
  }

  /** `checkQuota`: the next message would exceed the cap. */
  predicate OverCap(plan: Option<string>, inboundSoFar: nat) {
    Cap(plan).Some? && inboundSoFar >= Cap(plan).value
  }

  /** A standard account has had its ten thousand messages. No plan is the free plan. */
  ghost predicate QuotaFull(plan: Option<string>, inboundSoFar: nat) {
    (plan.None? || plan.value == "free" || plan.value == "pro") && inboundSoFar >= 10000
  }

  // ------------------------------------------------------------ connection

  /** The connection joins the agent and the peer, in either orientation. */
  ghost predicate Joins(c: Connection, agentDid: string, peerDid: string) {
    (c.agentDid == agentDid && c.peerDid == peerDid) || (c.peerDid == agentDid && c.agentDid == peerDid)
  }

  ghost predicate JoinsActively(c: Connection, agentDid: string, peerDid: string) {
    c.status == "active" && Joins(c, agentDid, peerDid)
  }

  predicate Candidate(c: Connection, agentDid: string, peerDid: string) {
    && c.status == "active"
    && ((c.agentDid == agentDid && c.peerDid == peerDid) || (c.peerDid == agentDid && c.agentDid == peerDid))
  }

  ghost predicate Names(conns: seq<Connection>, explicitId: Option<string>) {
    explicitId.Some? && explicitId.value != "" && exists c :: c in conns && c.connectionId == explicitId.value
  }

  /** `c` is the connection meant: the one named, or else the only active one joining the pair. */
  ghost predicate Meant(conns: seq<Connection>, explicitId: Option<string>, agentDid: string, peerDid: string, c: Connection) {
    if Names(conns, explicitId) then c in conns && c.connectionId == explicitId.value
    else
      exists i ::
        && 0 <= i < |conns| && conns[i] == c && JoinsActively(c, agentDid, peerDid)
        && forall j :: 0 <= j < |conns| && JoinsActively(conns[j], agentDid, peerDid) ==> j == i
  }

  /** Connection ids are a key of the tenant's table. */
  ghost predicate Keyed(conns: seq<Connection>) {
    forall i, j :: 0 <= i < j < |conns| ==> conns[i].connectionId != conns[j].connectionId
  }

  method GetConnection(conns: seq<Connection>, id: string) returns (r: Option<Connection>)
    ensures r.Some? ==> r.value in conns && r.value.connectionId == id
    ensures r.None? ==> forall c :: c in conns ==> c.connectionId != id
  {
    for i := 0 to |conns|
      invariant forall j :: 0 <= j < i ==> conns[j].connectionId != id
    {
      if conns[i].connectionId == id { return Some(conns[i]); }
    }
    return None;
  }

  method ResolveConnection(conns: seq<Connection>, explicitId: Option<string>, agentDid: string, peerDid: string)
      returns (r: Result<Connection, Reason>)
    requires Keyed(conns)
    ensures r.Ok? ==> Meant(conns, explicitId, agentDid, peerDid, r.value)
    ensures r.Err? ==> forall c :: !Meant(conns, explicitId, agentDid, peerDid, c)
    ensures r.Err? ==> (r.error == AmbiguousConnection <==>
              exists i, j :: 0 <= i < j < |conns| && JoinsActively(conns[i], agentDid, peerDid) && JoinsActively(conns[j], agentDid, peerDid))
    ensures r.Err? && r.error != AmbiguousConnection ==>
              r.error == if explicitId.Some? && explicitId.value != "" then UnknownConnection else MissingConnectionId
  {
    if explicitId.Some? && explicitId.value != "" {
      var named := GetConnection(conns, explicitId.value);
      if named.Some? { return Ok(named.value); }
    }
    var matches: seq<nat> := [];
    for i := 0 to |conns|
      invariant forall a :: 0 <= a < |matches| ==> matches[a] < i && Candidate(conns[matches[a]], agentDid, peerDid)
      invariant forall j :: 0 <= j < i && Candidate(conns[j], agentDid, peerDid) ==> j in matches
      invariant forall a, b :: 0 <= a < b < |matches| ==> matches[a] < matches[b]
    {
      if Candidate(conns[i], agentDid, peerDid) { matches := matches + [i]; }
    }
    if |matches| == 1 {
      return Ok(conns[matches[0]]);
    }
    if |matches| == 0 {
      return Err(if explicitId.Some? && explicitId.value != "" then UnknownConnection else MissingConnectionId);
    }
    assert matches[0] < matches[1];
    return Err(AmbiguousConnection);
  }

  lemma MeantIsUnique(conns: seq<Connection>, explicitId: Option<string>, agentDid: string, peerDid: string, c: Connection)
    requires Keyed(conns) && Meant(conns, explicitId, agentDid, peerDid, c)
    ensures forall d :: Meant(conns, explicitId, agentDid, peerDid, d) ==> d == c
  {
  }

  /** A connection found without being named joins the agent and the sender. One that is named is
      taken as it is: the sender is a party to it if and only if it joins the two. */
  lemma SenderIsPartyIff(conns: seq<Connection>, explicitId: Option<string>, agentDid: string, peerDid: string, c: Connection)
    requires Keyed(conns) && Meant(conns, explicitId, agentDid, peerDid, c)
    ensures Joins(c, agentDid, peerDid)
            <==> !Names(conns, explicitId)
                 || exists d :: d in conns && d.connectionId == explicitId.value && Joins(d, agentDid, peerDid)
  {
    if Names(conns, explicitId) {
      var i :| 0 <= i < |conns| && conns[i] == c;
      forall d | d in conns && d.connectionId == explicitId.value ensures d == c {
        var j :| 0 <= j < |conns| && conns[j] == d;
      }
    }
  }

  /** Such a case: a response of "did:c" that names the connection of "did:a" and "did:b" is let in. */
  lemma NamedConnectionOfOthers(w: World)
    ensures var c := Connection("ab", "did:a", "did:b", "active", None, []);
      var msg := Message("m", "x/response", None, Some("ab"));
      && Meant([c], msg.connectionId, "did:a", "did:c", c) && !Joins(c, "did:a", "did:c")
      && Admissible(c, "did:a", {}, msg, w, 0)
  {
    var c := Connection("ab", "did:a", "did:b", "active", None, []);
    assert Names([c], Some("ab")) by { assert c in [c]; }
    assert EndsInResponse("x/response") by { assert "x/response" == "x" + "/response"; }
    assert "did:b"[4] != "did:c"[4] && "did:a"[4] != "did:c"[4];
  }

  // -------------------------------------------------------------- dispatch

  const FRESH_MS := 5 * 60 * 1000

  /** More than five minutes off the clock, either way. */
  ghost predicate Stale(msg: Message, now: int) {
    msg.createdTime.Some? && !(now - 300000 <= msg.createdTime.value * 1000 <= now + 300000)
  }

  ghost predicate Open(c: Connection, now: int) {
    c.status == "active" && (c.expiresAt.Some? ==> c.expiresAt.value > now)
  }

  ghost predicate Involves(c: Connection, agentDid: string) { c.agentDid == agentDid || c.peerDid == agentDid }

  /** The policy engine is not asked about a response. */
  ghost predicate Passes(msg: Message, w: World) {
    EndsInResponse(msg.msgType) || w.permits
  }

  /** Everything a message needs to be let in on connection `c`. */
  ghost predicate Admissible(c: Connection, agentDid: string, revoked: set<string>, msg: Message, w: World, inboundSoFar: nat) {
    && Involves(c, agentDid)
    && Open(c, w.now)
    && c.connectionId !in revoked
    && !Stale(msg, w.now)
    && Passes(msg, w)
    && !QuotaFull(w.plan, inboundSoFar)
  }

  /** A refusal leaves an audit line once a connection of this agent is known, unless the
      envelope is merely stale. */
  ghost predicate RefusalIsLogged(c: Connection, agentDid: string, revoked: set<string>, msg: Message, w: World) {
    Involves(c, agentDid) && !(Open(c, w.now) && c.connectionId !in revoked && Stale(msg, w.now))
  }

  /** The reason says what is wrong with the connection or, if nothing is, with the envelope's age. */
  ghost predicate RefusesConnection(why: Reason, c: Connection, agentDid: string, revoked: set<string>, msg: Message, w: World) {
    match why
    case WrongAgent => !Involves(c, agentDid)
    case NotActive(status) => Involves(c, agentDid) && status == c.status != "active"
    case ConnectionExpired => Involves(c, agentDid) && c.status == "active" && !Open(c, w.now)
    case Revoked => Involves(c, agentDid) && Open(c, w.now) && c.connectionId in revoked
    case StaleEnvelope => Involves(c, agentDid) && Open(c, w.now) && c.connectionId !in revoked && Stale(msg, w.now)
    case _ => false
  }

  /** The quota is recognised by how the first reason begins, whoever gave that reason. */
  ghost predicate SoundsLikeQuota(w: World) {
    w.reasons != [] && "quota_exceeded" <= w.reasons[0]
  }

  /** The reason the policy or the quota gives on a connection with which nothing is wrong. */
  ghost predicate RefusesMessage(why: Reason, msg: Message, w: World, inboundSoFar: nat) {
    match why
    case PolicyDenied => !Passes(msg, w) && !SoundsLikeQuota(w)
    case QuotaExceeded => if Passes(msg, w) then QuotaFull(w.plan, inboundSoFar) else SoundsLikeQuota(w)
    case _ => false
  }

  /** The audit line of a decision. It carries the connection's obligations and, if the policy engine
      was asked, what that obliged to and the policies it fired; it names the quota if that refused,
      and otherwise says what the policy engine said. */
  ghost predicate DecisionLine(line: AuditRecord, c: Connection, msg: Message, w: World, accepted: bool, inboundSoFar: nat) {
    && line.connectionId == c.connectionId && line.msgId == msg.id
    && line.decision == (if accepted then Allow else Deny)
    && line.obligations == c.obligations + (if EndsInResponse(msg.msgType) then [] else w.obligations)
    && line.policiesFired == (if EndsInResponse(msg.msgType) then [] else w.policiesFired)
    && line.reason == (if Passes(msg, w) && QuotaFull(w.plan, inboundSoFar) then Some(Refused(QuotaExceeded))
                       else if EndsInResponse(msg.msgType) then Some(AutoAllowResponse)
                       else if w.reasons != [] then Some(FromPolicy(w.reasons))
                       else if w.permits then None else Some(NothingMatched))
  }

  /** An open session comes first, then a waiting sender, then the push runtime. `queued` in the
      answer does not tell that the row is still queued: a failed send, or a failed mark after a
      send that worked, has marked it failed. */
  ghost predicate DeliveredRight(status: Delivery, queued: bool, pushed: bool, msg: Message, w: World) {
    var bySession, byReply := w.sessionOpen && !w.sendFails && !w.markFails, EndsInResponse(msg.msgType) && w.replyAwaited;
    && (status.Delivered? <==> bySession || byReply)
    && (status.Failed? <==> w.sessionOpen && !bySession && !byReply)
    && (pushed <==> w.pushRuntime && !status.Delivered?)
    && (queued <==> !w.pushRuntime && !status.Delivered?)
  }

  /** The rows one agent's runtime works on. */
  class Runtime {
    const agentDid: string
    const connections: seq<Connection>
    const revoked: set<string>
    var audit: seq<AuditRecord>
    var inbox: seq<Inbound>
    var usage: map<string, nat>
    var touched: seq<string> // connections whose last message time was set

    ghost predicate Valid() {
      Keyed(connections)
    }

    function UsageOf(period: string): (n: nat)
      reads this
      ensures period in usage ==> n == usage[period]
      ensures period !in usage ==> n == 0
    {
      if period in usage then usage[period] else 0
    }

    method IncrementUsage(period: string)
      modifies this`usage
      ensures usage == old(usage)[period := old(UsageOf(period)) + 1]
    {
      usage := usage[period := UsageOf(period) + 1];
    }

    method Deliver(row: nat, msg: Message, w: World) returns (o: Outcome)
      requires row < |inbox| && inbox[row].status == Queued
      modifies this`inbox
      ensures |inbox| == |old(inbox)|
      ensures inbox == old(inbox)[row := old(inbox)[row].(status := inbox[row].status)]
      ensures o.Accepted? && o.row == row && DeliveredRight(inbox[row].status, o.queued, o.pushed, msg, w)
    {
      ResponseMeans(msg.msgType);
      if w.sessionOpen {
        if !w.sendFails && !w.markFails {
          inbox := inbox[row := inbox[row].(status := Delivered)];
          return Accepted(row, false, false);
        }
        inbox := inbox[row := inbox[row].(status := Failed)];
      }
      if IsResponse(msg.msgType) && w.replyAwaited {
        inbox := inbox[row := inbox[row].(status := Delivered)];
        return Accepted(row, false, false);
      }
      if w.pushRuntime {
        return Accepted(row, false, true);
      }
      return Accepted(row, true, false);
    }

    /** The connection is this agent's, active, unexpired and not revoked, and the envelope is fresh;
        otherwise the refusal is logged exactly when `RefusalIsLogged`. */
    method CheckConnection(conn: Connection, msg: Message, w: World) returns (refused: Option<Reason>)
      modifies this`audit
      ensures refused.None? <==> Involves(conn, agentDid) && Open(conn, w.now) && conn.connectionId !in revoked && !Stale(msg, w.now)
      ensures refused.None? ==> audit == old(audit)
      ensures refused.Some? ==> RefusesConnection(refused.value, conn, agentDid, revoked, msg, w)
      ensures refused.Some? ==>
                audit == if RefusalIsLogged(conn, agentDid, revoked, msg, w)
                         then old(audit) + [AuditRecord(conn.connectionId, msg.id, Deny, [], [], Some(Refused(refused.value)))] else old(audit)
    {
      if conn.agentDid != agentDid && conn.peerDid != agentDid {
        return Some(WrongAgent);
      }
      if conn.status != "active" {
        audit := audit + [AuditRecord(conn.connectionId, msg.id, Deny, [], [], Some(Refused(NotActive(conn.status))))];
        return Some(NotActive(conn.status));
      }
      if conn.expiresAt.Some? && conn.expiresAt.value <= w.now {
        audit := audit + [AuditRecord(conn.connectionId, msg.id, Deny, [], [], Some(Refused(ConnectionExpired)))];
        return Some(ConnectionExpired);
      }
      if conn.connectionId in revoked {
        audit := audit + [AuditRecord(conn.connectionId, msg.id, Deny, [], [], Some(Refused(Revoked)))];
        return Some(Revoked);
      }
      if msg.createdTime.Some? {
        var skew := w.now - msg.createdTime.value * 1000;
        if skew > FRESH_MS || -skew > FRESH_MS {
          return Some(StaleEnvelope);
        }
      }
      return None;
    }

    /** Policy, quota, audit line, row, usage and delivery on a connection with which nothing is
        wrong. The message is let in exactly when the policy passes it and the quota has room. */
    method Decide(conn: Connection, msg: Message, w: World) returns (o: Outcome)
      modifies this
      ensures o.Accepted? <==> Passes(msg, w) && !QuotaFull(w.plan, old(UsageOf(w.period)))
      ensures |audit| == |old(audit)| + 1 && old(audit) <= audit
      ensures DecisionLine(audit[|old(audit)|], conn, msg, w, o.Accepted?, old(UsageOf(w.period)))
      ensures touched == old(touched) + [conn.connectionId]
      ensures o.Accepted? ==>
                && o.row == |old(inbox)| && |inbox| == o.row + 1 && inbox[..o.row] == old(inbox)
                && inbox[o.row].connectionId == conn.connectionId && inbox[o.row].msgId == msg.id
                && DeliveredRight(inbox[o.row].status, o.queued, o.pushed, msg, w)
                && usage == old(usage)[w.period := old(UsageOf(w.period)) + 1]
      ensures o.Denied? ==>
                && o.ok && RefusesMessage(o.reason, msg, w, old(UsageOf(w.period)))
                && inbox == old(inbox) && usage == old(usage)
    {
      ResponseMeans(msg.msgType);
      var effective := conn.obligations;
      var verdict, fired, reason := Allow, [], Some(AutoAllowResponse);
      var answer := PolicyDenied;
      if !IsResponse(msg.msgType) {
        effective := effective + w.obligations;
        verdict := if w.permits then Allow else Deny;
        fired := w.policiesFired;
        reason := if w.reasons != [] then Some(FromPolicy(w.reasons)) else if w.permits then None else Some(NothingMatched);
        answer := if w.reasons != [] && "quota_exceeded" <= w.reasons[0] then QuotaExceeded else PolicyDenied;
      }
      if verdict == Allow && OverCap(w.plan, UsageOf(w.period)) {
        verdict, reason, answer := Deny, Some(Refused(QuotaExceeded)), QuotaExceeded;
      }
      audit := audit + [AuditRecord(conn.connectionId, msg.id, verdict, effective, fired, reason)];
      touched := touched + [conn.connectionId];
      if verdict == Deny {
        return Denied(true, answer);
      }
      inbox := inbox + [Inbound(conn.connectionId, msg.id, Queued)];
      IncrementUsage(w.period);
      o := Deliver(|inbox| - 1, msg, w);
    }

    /** A message is let in exactly when the connection meant exists and is admissible; then it
        leaves one allow line, one row and one unit of usage. A refusal leaves no row and no
        usage, one deny line exactly when `RefusalIsLogged`, and the reason that applies. */
    method DispatchVerifiedMessage(msg: Message, peerDid: string, w: World)
        returns (o: Outcome, ghost meant: Option<Connection>)
      requires Valid()
      modifies this
      ensures meant.Some? ==> Meant(connections, msg.connectionId, agentDid, peerDid, meant.value)
      ensures forall c :: Meant(connections, msg.connectionId, agentDid, peerDid, c) ==> meant == Some(c)
      ensures o.Accepted? <==> meant.Some? && Admissible(meant.value, agentDid, revoked, msg, w, old(UsageOf(w.period)))
      ensures o.Accepted? ==>
                && |audit| == |old(audit)| + 1 && old(audit) <= audit
                && DecisionLine(audit[|old(audit)|], meant.value, msg, w, true, old(UsageOf(w.period)))
                && touched == old(touched) + [meant.value.connectionId]
                && o.row == |old(inbox)| && |inbox| == o.row + 1 && inbox[..o.row] == old(inbox)
                && inbox[o.row].connectionId == meant.value.connectionId && inbox[o.row].msgId == msg.id
                && DeliveredRight(inbox[o.row].status, o.queued, o.pushed, msg, w)
                && usage == old(usage)[w.period := old(UsageOf(w.period)) + 1]
      ensures o.Denied? ==> inbox == old(inbox) && usage == old(usage)
      ensures o.Denied? && o.ok ==>
                && meant.Some? && RefusesMessage(o.reason, msg, w, old(UsageOf(w.period)))
                && |audit| == |old(audit)| + 1 && old(audit) <= audit
                && DecisionLine(audit[|old(audit)|], meant.value, msg, w, false, old(UsageOf(w.period)))
                && touched == old(touched) + [meant.value.connectionId]
      ensures o.Denied? && !o.ok ==> touched == old(touched)
      ensures o.Denied? && !o.ok ==>
                if meant.None? then audit == old(audit) && o.reason in {MissingConnectionId, UnknownConnection, AmbiguousConnection}
                else
                  && RefusesConnection(o.reason, meant.value, agentDid, revoked, msg, w)
                  && audit == if RefusalIsLogged(meant.value, agentDid, revoked, msg, w)
                              then old(audit) + [AuditRecord(meant.value.connectionId, msg.id, Deny, [], [], Some(Refused(o.reason)))]
                              else old(audit)
    {
      meant := None;
      var resolved := ResolveConnection(connections, msg.connectionId, agentDid, peerDid);
      if resolved.Err? {
        return Denied(false, resolved.error), meant;
      }
      var conn := resolved.value;
      meant := Some(conn);
      MeantIsUnique(connections, msg.connectionId, agentDid, peerDid, conn);
      var refused := CheckConnection(conn, msg, w);
      if refused.Some? {
        return Denied(false, refused.value), meant;
      }
      o := Decide(conn, msg, w);
    }

    /** The connection the message means, if it means one. */
    ghost predicate IsMeant(meant: Option<Connection>, msg: Message, peerDid: string) {
      && (meant.Some? ==> Meant(connections, msg.connectionId, agentDid, peerDid, meant.value))
      && (forall c :: Meant(connections, msg.connectionId, agentDid, peerDid, c) ==> meant == Some(c))
    }

    ghost method FindMeant(msg: Message, peerDid: string) returns (meant: Option<Connection>)
      requires Valid()
      ensures IsMeant(meant, msg, peerDid)
    {
      if c :| Meant(connections, msg.connectionId, agentDid, peerDid, c) {
        MeantIsUnique(connections, msg.connectionId, agentDid, peerDid, c);
        meant := Some(c);
      } else {
        meant := None;
      }
    }

    method DispatchAgain(msg: Message, peerDid: string, w: World, ghost meant: Option<Connection>) returns (ok: bool)
      requires Valid() && IsMeant(meant, msg, peerDid)
      modifies this
      ensures ok <==> meant.Some? && Admissible(meant.value, agentDid, revoked, msg, w, old(UsageOf(w.period)))
      ensures UsageOf(w.period) == old(UsageOf(w.period)) + if ok then 1 else 0
      ensures |inbox| == |old(inbox)| + if ok then 1 else 0
      ensures forall k :: 0 <= k < |inbox| ==> if k < |old(inbox)| then inbox[k] == old(inbox)[k] else inbox[k].msgId == msg.id
    {
      ghost var rows := inbox;
      var o, _ := DispatchVerifiedMessage(msg, peerDid, w);
      ok := o.Accepted?;
      assert ok ==> forall k :: 0 <= k < |rows| ==> inbox[k] == inbox[..o.row][k];
    }

    /** The same message dispatched at each of `times`. Each time it is let in exactly as if it had
        never come before, but for the usage, and every time it is let in leaves another row. */
    method DispatchAtTimes(msg: Message, peerDid: string, w: World, times: seq<int>)
        returns (accepted: seq<bool>, ghost meant: Option<Connection>)
      requires Valid()
      modifies this
      ensures IsMeant(meant, msg, peerDid)
      ensures AcceptedRight(accepted, meant, agentDid, revoked, msg, w, times, old(UsageOf(w.period)))
      ensures |inbox| == |old(inbox)| + CountTrue(accepted)
      ensures forall k :: |old(inbox)| <= k < |inbox| ==> inbox[k].msgId == msg.id
    {
      hide Admissible, IsMeant, Valid;
      accepted := [];
      meant := FindMeant(msg, peerDid);
      for i := 0 to |times|
        invariant Valid() && IsMeant(meant, msg, peerDid)
        invariant AcceptedRight(accepted, meant, agentDid, revoked, msg, w, times[..i], old(UsageOf(w.period)))
        invariant UsageOf(w.period) == old(UsageOf(w.period)) + CountTrue(accepted)
        invariant |inbox| == |old(inbox)| + CountTrue(accepted)
        invariant forall k :: |old(inbox)| <= k < |inbox| ==> inbox[k].msgId == msg.id
      {
        hide AcceptedRight, CountTrue;
        var ok := DispatchAgain(msg, peerDid, w.(now := times[i]), meant);
        OneMoreAnswer(accepted, ok, meant, agentDid, revoked, msg, w, times[..i], times[i], old(UsageOf(w.period)));
        assert times[..i + 1] == times[..i] + [times[i]];
        accepted := accepted + [ok];
      }
      assert times[..|times|] == times;
    }
  }

  /** Which of the dispatches of one message at `times` let it in, `used` messages into the period:
      those at which the connection it means was admissible, whether or not it had come before. */
  ghost predicate AcceptedRight(accepted: seq<bool>, meant: Option<Connection>, agentDid: string, revoked: set<string>,
                                msg: Message, w: World, times: seq<int>, used: nat)
    decreases |times|
  {
    && |accepted| == |times|
    && (times != [] ==>
          var front, n := accepted[..|accepted| - 1], |times| - 1;
          && AcceptedRight(front, meant, agentDid, revoked, msg, w, times[..n], used)
          && (accepted[n] <==>
                meant.Some? && Admissible(meant.value, agentDid, revoked, msg, w.(now := times[n]), used + CountTrue(front))))
  }

  function CountTrue(bs: seq<bool>): nat {
    if bs == [] then 0 else CountTrue(bs[..|bs| - 1]) + if bs[|bs| - 1] then 1 else 0
  }

  lemma OneMoreAnswer(accepted: seq<bool>, ok: bool, meant: Option<Connection>, agentDid: string, revoked: set<string>,
                      msg: Message, w: World, times: seq<int>, t: int, used: nat)
    requires AcceptedRight(accepted, meant, agentDid, revoked, msg, w, times, used)
    requires ok <==> meant.Some? && Admissible(meant.value, agentDid, revoked, msg, w.(now := t), used + CountTrue(accepted))
    ensures AcceptedRight(accepted + [ok], meant, agentDid, revoked, msg, w, times + [t], used)
    ensures CountTrue(accepted + [ok]) == CountTrue(accepted) + if ok then 1 else 0
  {
    assert (accepted + [ok])[..|accepted|] == accepted && (times + [t])[..|times|] == times;
  }

  lemma {:induction false} CountTrueBounded(bs: seq<bool>)
    ensures CountTrue(bs) <= |bs|
  {
    if bs != [] {
      CountTrueBounded(bs[..|bs| - 1]);
    }
  }

  /** Nothing but its age keeps a message from being let in again. On a connection still open, with
      the policy and the quota still willing, dispatch number `i` lets it in exactly if it names no
      time of its own or one within five minutes of the clock. */
  lemma {:induction false} ReplayLetInIff(accepted: seq<bool>, c: Connection, agentDid: string, revoked: set<string>,
                                          msg: Message, w: World, times: seq<int>, used: nat, i: nat)
    requires AcceptedRight(accepted, Some(c), agentDid, revoked, msg, w, times, used)
    requires i < |times|
    requires Involves(c, agentDid) && Open(c, times[i]) && c.connectionId !in revoked
    requires Passes(msg, w) && !QuotaFull(w.plan, used + i)
    ensures accepted[i] <==> msg.createdTime.None? || times[i] - 300000 <= msg.createdTime.value * 1000 <= times[i] + 300000
    decreases |times|
  {
    var n := |times| - 1;
    if i < n {
      ReplayLetInIff(accepted[..n], c, agentDid, revoked, msg, w, times[..n], used, i);
    } else {
      CountTrueBounded(accepted[..n]);
    }
  }

  /** The input for which replay protection fails: a message that names no time of its own, or a
      recent one, and comes twice at one moment leaves two rows with one `msgId`. */
  method DispatchTwice(r: Runtime, msg: Message, peerDid: string, w: World, ghost c: Connection)
    requires r.Valid() && Meant(r.connections, msg.connectionId, r.agentDid, peerDid, c)
    requires Admissible(c, r.agentDid, r.revoked, msg, w, r.UsageOf(w.period) + 1)
    modifies r
    ensures |r.inbox| == |old(r.inbox)| + 2
    ensures r.inbox[|old(r.inbox)|].msgId == r.inbox[|old(r.inbox)| + 1].msgId == msg.id
  {
    ghost var used := r.UsageOf(w.period);
    var times := [w.now, w.now];
    var accepted, meant := r.DispatchAtTimes(msg, peerDid, w, times);
    ReplayLetInIff(accepted, c, r.agentDid, r.revoked, msg, w, times, used, 0);
    ReplayLetInIff(accepted, c, r.agentDid, r.revoked, msg, w, times, used, 1);
    assert accepted == [true] + [true];
    assert accepted[..1] == [true] && accepted[..1][..0] == [];
  }
}
