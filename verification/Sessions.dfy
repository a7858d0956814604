/**
 * Live sessions and the drain of queued messages through them:
 * packages/cloud-runtime/src/sessions.ts and `drainQueue` of packages/cloud-runtime/src/dispatch.ts.
 *
 * Which sessions are open is given with each call; how the socket and the database react to each
 * queued message is given with the drain.
 */
module Sessions {
  import opened Common
  import TenantDb

  datatype Handle = Handle(sessionId: string, did: string, tenantId: TenantDb.Tenant)

  /** The two indexes. */
  datatype Indexes = Indexes(bySession: map<string, Handle>, byAgent: map<string, Handle>)

  datatype Event =
    | Added(handle: Handle)
    | Removed(sessionId: string)

  /** The session an `add` closes as superseded. */
  function Superseded(r: Indexes, handle: Handle): Option<Handle> {
    if handle.did in r.byAgent && r.byAgent[handle.did].sessionId != handle.sessionId
    then Some(r.byAgent[handle.did]) else None
  }

  function Next(r: Indexes, event: Event): Indexes {
    match event
    case Added(handle) =>
      var prev := Superseded(r, handle);
      var kept := if prev.Some? then r.bySession - {prev.value.sessionId} else r.bySession;
      Indexes(kept[handle.sessionId := handle], r.byAgent[handle.did := handle])
    case Removed(id) =>
      if id !in r.bySession then r
      else
        var did := r.bySession[id].did;
        Indexes(r.bySession - {id},
                if did in r.byAgent && r.byAgent[did].sessionId == id then r.byAgent - {did} else r.byAgent)
  }

  function Exec(events: seq<Event>): Indexes {
    if events == [] then Indexes(map[], map[])
    else Next(Exec(events[..|events| - 1]), events[|events| - 1])
  }

  // ---------------------------------------------------------------------------------------------
  // The indexes agree
  // ---------------------------------------------------------------------------------------------

  /** Both indexes hold the same sessions, each under its own id and its own agent. */
  ghost predicate Agree(r: Indexes) {
    && (forall id :: id in r.bySession ==>
          var h := r.bySession[id]; h.sessionId == id && h.did in r.byAgent && r.byAgent[h.did] == h)
    && (forall did :: did in r.byAgent ==>
          var h := r.byAgent[did]; h.did == did && h.sessionId in r.bySession && r.bySession[h.sessionId] == h)
  }

  /** The event does not add a session under an id that a session of another agent is using. */
  predicate Harmless(r: Indexes, event: Event) {
    event.Added? && event.handle.sessionId in r.bySession ==>
      r.bySession[event.handle.sessionId].did == event.handle.did
  }

  lemma NextAgreesIff(r: Indexes, event: Event)
    requires Agree(r)
    ensures Agree(Next(r, event)) <==> Harmless(r, event)
  {
    var r' := Next(r, event);
    if event.Added? && !Harmless(r, event) {
      var other := r.bySession[event.handle.sessionId];
      assert other.did in r'.byAgent && r'.byAgent[other.did] == other;
    }
  }

  /** The indexes agree after every event. */
  ghost predicate AlwaysAgree(events: seq<Event>) {
    events == [] || (AlwaysAgree(events[..|events| - 1]) && Agree(Exec(events)))
  }

  predicate AllHarmless(events: seq<Event>) {
    events == [] || (AllHarmless(events[..|events| - 1]) && Harmless(Exec(events[..|events| - 1]), events[|events| - 1]))
  }

  /** The indexes agree all along exactly if no add ever takes over another agent's session id. */
  lemma {:induction false} AgreementIff(events: seq<Event>)
    ensures AlwaysAgree(events) <==> AllHarmless(events)
  {
    if events != [] {
      var before := events[..|events| - 1];
      AgreementIff(before);
      if AlwaysAgree(before) {
        NextAgreesIff(Exec(before), events[|events| - 1]);
      }
    }
  }

  /** Session ids are globally unique: an id always comes with the same handle. */
  ghost predicate UniqueIds(events: seq<Event>) {
    forall i, j :: 0 <= i < |events| && 0 <= j < |events| && events[i].Added? && events[j].Added?
                   && events[i].handle.sessionId == events[j].handle.sessionId
      ==> events[i].handle == events[j].handle
  }

  lemma {:induction false} HeldWereAdded(events: seq<Event>, id: string)
    requires id in Exec(events).bySession
    ensures Exec(events).bySession[id].sessionId == id
    ensures exists i :: 0 <= i < |events| && events[i] == Added(Exec(events).bySession[id])
  {
    var before, last := events[..|events| - 1], events[|events| - 1];
    if last.Added? && last.handle.sessionId == id {
      assert events[|events| - 1] == Added(Exec(events).bySession[id]);
    } else {
      HeldWereAdded(before, id);
      var i :| 0 <= i < |before| && before[i] == Added(Exec(before).bySession[id]);
      assert events[i] == Added(Exec(events).bySession[id]);
    }
  }

  lemma {:induction false} UniqueIdsAreHarmless(events: seq<Event>)
    requires UniqueIds(events)
    ensures AllHarmless(events)
  {
    if events != [] {
      var before, last := events[..|events| - 1], events[|events| - 1];
      UniqueIdsAreHarmless(before);
      if last.Added? && last.handle.sessionId in Exec(before).bySession {
        HeldWereAdded(before, last.handle.sessionId);
      }
    }
  }

  // ---------------------------------------------------------------------------------------------
  // Which session an agent has
  // ---------------------------------------------------------------------------------------------

  /** The last session added for the agent, unless that one was removed since. */
  function LastAdded(events: seq<Event>, did: string): Option<Handle> {
    if events == [] then None
    else
      var before := LastAdded(events[..|events| - 1], did);
      match events[|events| - 1]
      case Added(handle) => if handle.did == did then Some(handle) else before
      case Removed(id) => if before.Some? && before.value.sessionId == id then None else before
  }

  /** The registry holds, for every agent, its last added and not yet removed session, and nothing else. */
  lemma {:induction false} RegistryHoldsLastAdded(events: seq<Event>)
    requires AllHarmless(events)
    ensures Agree(Exec(events))
    ensures forall did :: (if did in Exec(events).byAgent then Some(Exec(events).byAgent[did]) else None) == LastAdded(events, did)
    ensures forall id, h :: (id in Exec(events).bySession && Exec(events).bySession[id] == h)
                            <==> (LastAdded(events, h.did) == Some(h) && h.sessionId == id)
  {
    if events != [] {
      var before, last := events[..|events| - 1], events[|events| - 1];
      RegistryHoldsLastAdded(before);
      NextAgreesIff(Exec(before), last);
    }
  }

  lemma HeldUnderOwnId(events: seq<Event>, h: Handle)
    requires UniqueIds(events) && Added(h) in events && h.sessionId in Exec(events).bySession
    ensures Exec(events).bySession[h.sessionId] == h
  {
    HeldWereAdded(events, h.sessionId);
    var i :| 0 <= i < |events| && events[i] == Added(Exec(events).bySession[h.sessionId]);
    var j :| 0 <= j < |events| && events[j] == Added(h);
  }

  /** Removing a session that is not its agent's latest changes nothing. */
  lemma LateRemoveChangesNothing(events: seq<Event>, h: Handle)
    requires UniqueIds(events) && Added(h) in events
    requires LastAdded(events, h.did) != Some(h)
    ensures Exec(events + [Removed(h.sessionId)]) == Exec(events)
  {
    UniqueIdsAreHarmless(events);
    RegistryHoldsLastAdded(events);
    var all := events + [Removed(h.sessionId)];
    assert all[..|all| - 1] == events;
    if h.sessionId in Exec(events).bySession {
      HeldUnderOwnId(events, h);
    }
  }

  /** A session id reused for another agent: the first agent can no longer be removed. */
  lemma ReusedIdStaysBehind()
    ensures var a, b := Handle("s", "did:a", 1), Handle("s", "did:b", 1);
            var r := Exec([Added(a), Added(b), Removed("s"), Removed("s")]);
            r.bySession == map[] && r.byAgent == map["did:a" := a]
  {
    var a, b := Handle("s", "did:a", 1), Handle("s", "did:b", 1);
    var e1, e2, e3 := [Added(a)], [Added(a), Added(b)], [Added(a), Added(b), Removed("s")];
    var e4 := [Added(a), Added(b), Removed("s"), Removed("s")];
    assert e1[..0] == [] && e2[..1] == e1 && e3[..2] == e2 && e4[..3] == e3;
    assert Exec(e1) == Indexes(map["s" := a], map["did:a" := a]);
    assert Exec(e2) == Indexes(map["s" := b], map["did:a" := a, "did:b" := b]);
    assert Exec(e3).byAgent == map["did:a" := a];
  }

  // ---------------------------------------------------------------------------------------------
  // The registry in place
  // ---------------------------------------------------------------------------------------------

  class SessionRegistry {
    var bySession: map<string, Handle>
    var byAgent: map<string, Handle>

    function State(): Indexes
      reads this
    {
      Indexes(bySession, byAgent)
    }

    constructor ()
      ensures State() == Exec([])
    {
      bySession, byAgent := map[], map[];
    }

    /** The answer is the session that was closed as superseded. */
    method Add(handle: Handle) returns (closed: Option<Handle>)
      modifies this
      ensures State() == Next(old(State()), Added(handle))
      ensures closed.Some? <==> handle.did in old(byAgent) && old(byAgent)[handle.did].sessionId != handle.sessionId
      ensures closed.Some? ==> closed.value == old(byAgent)[handle.did]
      ensures byAgent == old(byAgent)[handle.did := handle]
      ensures handle.sessionId in bySession && bySession[handle.sessionId] == handle
      ensures forall id :: id != handle.sessionId ==>
                && (id in bySession <==> id in old(bySession) && !(closed.Some? && closed.value.sessionId == id))
                && (id in bySession ==> bySession[id] == old(bySession)[id])
    {
      closed := None;
      if handle.did in byAgent {
        var prev := byAgent[handle.did];
        if prev.sessionId != handle.sessionId {
          closed := Some(prev);
          bySession := bySession - {prev.sessionId};
        }
      }
      byAgent := byAgent[handle.did := handle];
      bySession := bySession[handle.sessionId := handle];
    }

    method Remove(sessionId: string)
      modifies this
      ensures State() == Next(old(State()), Removed(sessionId))
      ensures bySession == old(bySession) - {sessionId}
      ensures forall did :: did in byAgent <==>
                did in old(byAgent)
                && !(sessionId in old(bySession) && old(bySession)[sessionId].did == did && old(byAgent)[did].sessionId == sessionId)
      ensures forall did :: did in byAgent ==> byAgent[did] == old(byAgent)[did]
    {
      if sessionId !in bySession {
        return;
      }
      var handle := bySession[sessionId];
      bySession := bySession - {sessionId};
      if handle.did in byAgent && byAgent[handle.did].sessionId == sessionId {
        byAgent := byAgent - {handle.did};
      }
    }

    method GetByAgent(agentDid: string, open: set<string>) returns (h: Option<Handle>)
      ensures h.Some? <==> agentDid in byAgent && byAgent[agentDid].sessionId in open
      ensures h.Some? ==> h.value == byAgent[agentDid]
    {
      if agentDid in byAgent && byAgent[agentDid].sessionId in open {
        return Some(byAgent[agentDid]);
      }
      return None;
    }

    /** Exactly the tenant's open sessions, each once. */
    method ListByTenant(tenantId: TenantDb.Tenant, open: set<string>) returns (out: seq<Handle>)
      requires Agree(State())
      ensures Distinct(out)
      ensures forall h :: h in out <==>
                h.sessionId in bySession && bySession[h.sessionId] == h && h.tenantId == tenantId && h.sessionId in open
    {
      out := [];
      var rest := byAgent.Keys;
      while rest != {}
        invariant rest <= byAgent.Keys
        invariant Distinct(out)
        invariant forall h :: h in out <==>
                    h.did in byAgent && h.did !in rest && byAgent[h.did] == h && h.tenantId == tenantId && h.sessionId in open
        decreases |rest|
      {
        var did :| did in rest;
        var h := byAgent[did];
        rest := rest - {did};
        if h.tenantId == tenantId && h.sessionId in open {
          out := out + [h];
        }
      }
    }
  }

  // ---------------------------------------------------------------------------------------------
  // Draining the queue
  // ---------------------------------------------------------------------------------------------

  datatype Reaction = Sent | SendThrows | MarkThrows

  function MessageKeys(ids: seq<nat>): set<TenantDb.Key> {
    set id | id in ids :: TenantDb.MessageKey(id)
  }

  /** The tables with these messages of the tenant marked delivered. */
  function MarkedDelivered(db: TenantDb.Tables, t: TenantDb.Tenant, ids: seq<nat>): TenantDb.Tables {
    if ids == [] then db
    else
      TenantDb.MarkDelivered(MarkedDelivered(db, t, ids[..|ids| - 1]), t, ids[|ids| - 1])
  }

  lemma MarkedOneMore(db: TenantDb.Tables, t: TenantDb.Tenant, ids: seq<nat>, n: nat)
    requires n < |ids|
    ensures MarkedDelivered(db, t, ids[..n + 1])
            == TenantDb.MarkDelivered(MarkedDelivered(db, t, ids[..n]), t, ids[n])
  {
    assert ids[..n + 1][..n] == ids[..n];
  }

  /** Marking touches those rows and no others, and only their status. */
  lemma {:induction false} MarkedRows(db: TenantDb.Tables, t: TenantDb.Tenant, ids: seq<nat>)
    requires forall i :: 0 <= i < |ids| ==>
               TenantDb.MessageKey(ids[i]) in db && db[TenantDb.MessageKey(ids[i])].tenant == t
               && db[TenantDb.MessageKey(ids[i])].body.Message?
    ensures var db' := MarkedDelivered(db, t, ids);
            && db'.Keys == db.Keys
            && forall k :: k in db ==>
                 db'[k] == if k.MessageKey? && k.id in ids then TenantDb.Row(t, db[k].body.(status := TenantDb.Delivered)) else db[k]
  {
    if ids != [] {
      MarkedRows(db, t, ids[..|ids| - 1]);
      assert ids == ids[..|ids| - 1] + [ids[|ids| - 1]];
    }
  }

  /** How many of these messages go through: those before the first that does not. */
  function Through(react: nat -> Reaction, ids: seq<nat>): (n: nat)
    ensures n <= |ids|
    ensures forall i :: 0 <= i < n ==> react(ids[i]) == Sent
    ensures n < |ids| ==> react(ids[n]) != Sent
  {
    if ids == [] || react(ids[0]) != Sent then 0 else 1 + Through(react, ids[1..])
  }

  /** What the socket takes: those messages, and the next one if only marking it failed. */
  function Handed(react: nat -> Reaction, ids: seq<nat>): seq<nat> {
    var n := Through(react, ids);
    if n < |ids| && react(ids[n]) == MarkThrows then ids[..n + 1] else ids[..n]
  }

  lemma HandedMeans(react: nat -> Reaction, ids: seq<nat>)
    ensures var n, handed := Through(react, ids), Handed(react, ids);
      handed <= ids && |handed| == n + if n < |ids| && react(ids[n]).MarkThrows? then 1 else 0
  {
  }

  ghost predicate Reachable(registry: SessionRegistry, agentDid: string, open: set<string>)
    reads registry
  {
    agentDid in registry.byAgent && registry.byAgent[agentDid].sessionId in open
  }

  /**
   * With an open session the drained messages are those of the claimed ones before the first
   * failure, oldest first; they are marked delivered and nothing else changes. Without one
   * nothing happens.
   */
  method DrainQueue(registry: SessionRegistry, store: TenantDb.Store, agentDid: string, open: set<string>, react: nat -> Reaction)
      returns (delivered: nat, handed: seq<nat>, ghost claimed: seq<nat>)
    requires TenantDb.MessagesKeyed(store.raw.rows)
    modifies store.raw
    ensures TenantDb.Claimed(old(store.raw.rows), store.tenantId, agentDid, 500, claimed)
    ensures delivered == if Reachable(registry, agentDid, open) then Through(react, claimed) else 0
    ensures handed == if Reachable(registry, agentDid, open) then Handed(react, claimed) else []
    ensures store.raw.rows == MarkedDelivered(old(store.raw.rows), store.tenantId, claimed[..delivered])
  {
    delivered, handed := 0, [];
    var session := registry.GetByAgent(agentDid, open);
    var queued := store.ClaimQueuedMessages(agentDid, 500);
    claimed := queued;
    if session.None? {
      return;
    }
    delivered, handed := SendAll(store, queued, react);
  }

  /** Send each message and mark it, until one of the two throws. */
  method SendAll(store: TenantDb.Store, queued: seq<nat>, react: nat -> Reaction) returns (delivered: nat, handed: seq<nat>)
    modifies store.raw
    ensures delivered == Through(react, queued) && handed == Handed(react, queued)
    ensures handed <= queued
    ensures |handed| == delivered + if delivered < |queued| && react(queued[delivered]).MarkThrows? then 1 else 0
    ensures store.raw.rows == MarkedDelivered(old(store.raw.rows), store.tenantId, queued[..delivered])
  {
    HandedMeans(react, queued);
    delivered, handed := 0, [];
    while delivered < |queued|
      invariant delivered <= Through(react, queued)
      invariant handed == queued[..delivered]
      invariant store.raw.rows == MarkedDelivered(old(store.raw.rows), store.tenantId, queued[..delivered])
    {
      var id := queued[delivered];
      if react(id) == SendThrows {
        break;
      }
      handed := handed + [id];
      if react(id) == MarkThrows {
        break;
      }
      var _ := store.MarkMessageDelivered(id);
      MarkedOneMore(old(store.raw.rows), store.tenantId, queued, delivered);
      delivered := delivered + 1;
    }
  }

  /**
   * After n of the claimed messages are marked, the queue is what it was without those, and no
   * message still queued is older than one of them.
   */
  lemma QueueAfterDrain(db: TenantDb.Tables, t: TenantDb.Tenant, agentDid: string, ids: seq<nat>, n: nat)
    requires TenantDb.Claimed(db, t, agentDid, 500, ids) && n <= |ids|
    ensures var before, after := TenantDb.QueuedFor(db, t, agentDid), TenantDb.QueuedFor(MarkedDelivered(db, t, ids[..n]), t, agentDid);
            && after == before - MessageKeys(ids[..n])
            && forall i, id :: 0 <= i < n && TenantDb.MessageKey(id) in after ==>
                 TenantDb.CreatedAt(db, ids[i]) <= TenantDb.CreatedAt(db, id)
  {
    var front := ids[..n];
    MarkedLeaveQueue(db, t, agentDid, front);
    forall i, id | 0 <= i < n && TenantDb.MessageKey(id) in TenantDb.QueuedFor(db, t, agentDid) - MessageKeys(front)
      ensures TenantDb.CreatedAt(db, ids[i]) <= TenantDb.CreatedAt(db, id)
    {
      assert id !in front;
      forall j | 0 <= j < n ensures ids[j] != id {
        assert front[j] == ids[j];
      }
    }
  }

  lemma MarkedLeaveQueue(db: TenantDb.Tables, t: TenantDb.Tenant, agentDid: string, ids: seq<nat>)
    requires forall i :: 0 <= i < |ids| ==> TenantDb.Waits(db, t, agentDid, ids[i])
    ensures TenantDb.QueuedFor(MarkedDelivered(db, t, ids), t, agentDid) == TenantDb.QueuedFor(db, t, agentDid) - MessageKeys(ids)
  {
    MarkedRows(db, t, ids);
    var before, after := TenantDb.QueuedFor(db, t, agentDid), TenantDb.QueuedFor(MarkedDelivered(db, t, ids), t, agentDid);
    forall k ensures k in after <==> k in before && !(k.MessageKey? && k.id in ids) {
    }
  }
}
