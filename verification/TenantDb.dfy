/** The tenant-scoped store over shared tables: packages/cloud-db/src/tenant-db.ts.

    All tables are one map from primary or unique key to row. The keys that carry the tenant
    id and those that do not are the ones of packages/cloud-db/src/schema.ts; that a row
    needs its agent to exist, and goes when its agent goes, is the foreign key of
    packages/cloud-db/migrations/0001_init.sql. Generated ids and clock readings are arguments. */
module TenantDb {
  import opened Common

  type Tenant = nat

  datatype Kind = OfConnection | OfKey

  datatype Status = Queued | Delivered | Expired | Failed

  datatype ConnectionStatus = Active | Suspended | Revoked

  datatype Key =
    | AgentKey(did: string)
    | ConnectionKey(tenant: Tenant, connectionId: string)
    | MessageKey(id: nat)
    | AuditKey(agentDid: string, connectionId: string, index: int)
    | RevocationKey(agentDid: string, kind: Kind, subjectId: string)
    | UsageKey(tenant: Tenant, period: string)
    | LinkKey(agentDid: string, linkKind: string, value: string)
    | PlainKey(table: string, rowId: string) // tickets, credentials, registrations: generated ids and token hashes
    | OwnedKey(tenant: Tenant, table: string, rowId: string) // push registrations, and the tenant's own row
    | UniqueKey(column: string, value: string) // a unique column: checkout session, principal did

  datatype Body =
    | Agent(profile: string)
    | Connection(agentDid: string, peerDid: string, standing: ConnectionStatus, revokeReason: Option<string>, lastMessageAt: Option<int>)
    | Message(agentDid: string, envelope: string, status: Status, failureReason: Option<string>, createdAt: int, expiresAt: int)
    | Audit(entry: string)
    | Revocation(reason: Option<string>)
    | Usage(inbound: nat, outbound: nat)
    | Columns(columns: map<string, string>) // rows of the links, plain and owned tables
    | Holder(of: Key) // the row that has this value in the unique column

  datatype Row = Row(tenant: Tenant, body: Body)

  type Tables = map<Key, Row>

  /** The rows of one tenant. */
  function View(db: Tables, t: Tenant): Tables {
    map k | k in db && db[k].tenant == t :: db[k]
  }

  /** The agent a row points at. */
  function AgentOf(k: Key, r: Row): Option<string> {
    match (k, r.body)
    case (AuditKey(did, _, _), _) => Some(did)
    case (RevocationKey(did, _, _), _) => Some(did)
    case (_, Connection(did, _, _, _, _)) => Some(did)
    case (_, Message(did, _, _, _, _, _)) => Some(did)
    case _ => None
  }

  // --------------------------------------------- statements, all tenant-scoped

  datatype Failure = DuplicateKey | NoSuchAgent

  datatype Reply =
    | Rows(rows: Tables)
    | One(row: Option<Row>)
    | Flag(yes: bool)
    | Count(n: nat)
    | Done
    | Throws(why: Failure)

  function Find(db: Tables, t: Tenant, k: Key): Option<Row> {
    if k in db && db[k].tenant == t then Some(db[k]) else None
  }

  predicate AgentExists(db: Tables, did: Option<string>) {
    did.Some? ==> AgentKey(did.value) in db
  }

  function Insert(db: Tables, k: Key, r: Row): (Tables, Reply) {
    if !AgentExists(db, AgentOf(k, r)) then (db, Throws(NoSuchAgent))
    else if k in db then (db, Throws(DuplicateKey))
    else (db[k := r], Done)
  }

  function InsertOrIgnore(db: Tables, k: Key, r: Row): (Tables, Reply) {
    if !AgentExists(db, AgentOf(k, r)) then (db, Throws(NoSuchAgent))
    else if k in db then (db, Done)
    else (db[k := r], Done)
  }

  function Update(db: Tables, t: Tenant, k: Key, change: Body -> Body): (Tables, Reply) {
    if Find(db, t, k).Some? then (db[k := Row(t, change(db[k].body))], Done) else (db, Done)
  }

  /** Deleting an agent takes along every row that points at it. */
  function DeleteAgentRows(db: Tables, did: string): Tables {
    map k | k in db && k != AgentKey(did) && AgentOf(k, db[k]) != Some(did) :: db[k]
  }

  // ------------------------------------------------------------- operations

  datatype Op =
    | ListAgents
    | GetAgent(did: string)
    | CreateAgent(did: string, profile: string)
    | UpdateAgent(did: string, profile: string)
    | DeleteAgent(did: string)
    | ListConnections(status: Option<ConnectionStatus>)
    | GetConnection(connectionId: string)
    | CreateConnection(connectionId: string, agentDid: string, peerDid: string, initial: ConnectionStatus)
    | UpdateConnectionStatus(connectionId: string, to: ConnectionStatus, reason: Option<string>)
    | TouchConnection(connectionId: string, now: int)
    | EnqueueMessage(id: nat, agentDid: string, envelope: string, createdAt: int, expiresAt: int)
    | MarkMessageDelivered(id: nat)
    | MarkMessageFailed(id: nat, failure: string)
    | ClaimQueuedMessages(agentDid: string)
    | ExpireOldMessages(now: int)
    | AppendAudit(agentDid: string, connectionId: string, index: int, entry: string)
    | ListAudit(agentDid: string, connectionId: string)
    | CountAudit(agentDid: string, connectionId: string)
    | AddRevocation(agentDid: string, kind: Kind, subjectId: string, reason: Option<string>)
    | IsRevoked(agentDid: string, kind: Kind, subjectId: string)
    | IncrementUsage(period: string, inbound: nat, outbound: nat)
    | GetUsage(period: string)
    | AddRow(key: Key, row: map<string, string>)
    | AddRowWith(key: Key, row: map<string, string>, column: string, value: string)
    | PutRow(table: string, rowId: string, row: map<string, string>)
    | SetUnique(key: Key, column: string, value: string, change: Body -> Body)
    | ReadWhere(which: (Key, Body) -> bool, answer: Tables -> Reply)
    | ChangeWhere(which: (Key, Body) -> bool, change: Body -> Body, answer: Tables -> Reply)
    | RemoveWhere(which: (Key, Body) -> bool, answer: Tables -> Reply)

  function MarkDelivered(db: Tables, t: Tenant, id: nat): Tables {
    Update(db, t, MessageKey(id), (b: Body) => if b.Message? then b.(status := Delivered) else b).0
  }

  predicate IsDue(r: Row, t: Tenant, now: int) {
    r.tenant == t && r.body.Message? && r.body.status.Queued? && r.body.expiresAt < now
  }

  function ExpireDue(db: Tables, t: Tenant, now: int): Tables {
    map k | k in db :: if IsDue(db[k], t, now) then Row(t, db[k].body.(status := Expired)) else db[k]
  }

  function Due(db: Tables, t: Tenant, now: int): Tables {
    map k | k in db && IsDue(db[k], t, now) :: db[k]
  }

  function AuditOf(db: Tables, t: Tenant, did: string, connectionId: string): Tables {
    map k | k in db && db[k].tenant == t && k.AuditKey? && k.agentDid == did && k.connectionId == connectionId :: db[k]
  }

  function QueuedFor(db: Tables, t: Tenant, did: string): Tables {
    map k | k in db && db[k].tenant == t && db[k].body.Message? && db[k].body.agentDid == did && db[k].body.status.Queued? :: db[k]
  }

  function SetStatus(b: Body, to: ConnectionStatus, reason: Option<string>): Body {
    if !b.Connection? then b
    else if reason.Some? then b.(standing := to, revokeReason := reason) else b.(standing := to)
  }

  /** The tables whose rows have no dependents and no tenant in their key. */
  predicate Loose(k: Key) { k.LinkKey? || k.PlainKey? }

  /** Rows no other row depends on. */
  predicate Leaf(k: Key) { Loose(k) || k.OwnedKey? }

  /** The tenant's rows that a WHERE clause selects. */
  function Selected(db: Tables, t: Tenant, which: (Key, Body) -> bool): Tables {
    map k | k in db && db[k].tenant == t && which(k, db[k].body) :: db[k]
  }

  function Changed(db: Tables, t: Tenant, which: (Key, Body) -> bool, change: Body -> Body): Tables {
    map k | k in db :: if Leaf(k) && db[k].tenant == t && which(k, db[k].body) then Row(t, change(db[k].body)) else db[k]
  }

  function Removed(db: Tables, t: Tenant, which: (Key, Body) -> bool): Tables {
    map k | k in db && !(Leaf(k) && db[k].tenant == t && which(k, db[k].body)) :: db[k]
  }

  /** An insert that also fills a unique column. */
  function InsertWith(db: Tables, t: Tenant, k: Key, r: Row, u: Key): (Tables, Reply) {
    if k in db || u in db then (db, Throws(DuplicateKey)) else (db[k := r][u := Row(t, Holder(k))], Done)
  }

  /** Insert, or on a conflict with the tenant's own key overwrite the columns given. */
  function Upsert(db: Tables, t: Tenant, k: Key, row: map<string, string>): Tables {
    db[k := Row(t, Columns(if k in db && db[k].body.Columns? then db[k].body.columns + row else row))]
  }

  /** The row gives up its value in the unique column. */
  function Released(db: Tables, t: Tenant, column: string, holder: Key): Tables {
    map k | k in db && !(k.UniqueKey? && k.column == column && db[k] == Row(t, Holder(holder))) :: db[k]
  }

  /** An update that also fills a unique column of the tenant's row, instead of the value it had there. */
  function SetColumn(db: Tables, t: Tenant, k: Key, u: Key, change: Body -> Body): (Tables, Reply)
    requires u.UniqueKey?
  {
    if Find(db, t, k).None? then (db, Flag(false))
    else if u in db && db[u] != Row(t, Holder(k)) then (db, Throws(DuplicateKey))
    else
      (Released(db, t, u.column, k)[u := Row(t, Holder(k))][k := Row(t, change(db[k].body))], Flag(true))
  }

  /** What each method of the store of tenant `t` does to the tables, and what it answers. The last
      seven stand for every other statement: inserts into a loose table, the upsert, updates that
      fill a unique column, and reads, updates and deletes of the tenant's rows with any further
      condition; `answer` is what the method makes of the rows it touched, in whatever order and
      up to whatever limit. */
  function Apply(db: Tables, t: Tenant, op: Op): (Tables, Reply) {
    match op
    case ListAgents => (db, Rows(map k | k in db && db[k].tenant == t && k.AgentKey? :: db[k]))
    case GetAgent(did) => (db, One(Find(db, t, AgentKey(did))))
    case CreateAgent(did, profile) => Insert(db, AgentKey(did), Row(t, Agent(profile)))
    case UpdateAgent(did, profile) => Update(db, t, AgentKey(did), _ => Agent(profile))
    case DeleteAgent(did) =>
      if Find(db, t, AgentKey(did)).Some? then (DeleteAgentRows(db, did), Done) else (db, Done)
    case ListConnections(status) =>
      (db, Rows(map k | k in db && db[k].tenant == t && db[k].body.Connection?
                        && (status.Some? ==> db[k].body.standing == status.value) :: db[k]))
    case GetConnection(id) => (db, One(Find(db, t, ConnectionKey(t, id))))
    case CreateConnection(id, did, peer, initial) => Insert(db, ConnectionKey(t, id), Row(t, Connection(did, peer, initial, None, None)))
    case UpdateConnectionStatus(id, to, reason) => Update(db, t, ConnectionKey(t, id), (b: Body) => SetStatus(b, to, reason))
    case TouchConnection(id, now) =>
      Update(db, t, ConnectionKey(t, id), (b: Body) => if b.Connection? then b.(lastMessageAt := Some(now)) else b)
    case EnqueueMessage(id, did, envelope, createdAt, expiresAt) =>
      Insert(db, MessageKey(id), Row(t, Message(did, envelope, Queued, None, createdAt, expiresAt)))
    case MarkMessageDelivered(id) => (MarkDelivered(db, t, id), Done)
    case MarkMessageFailed(id, failure) =>
      Update(db, t, MessageKey(id), (b: Body) => if b.Message? then b.(status := Failed, failureReason := Some(failure)) else b)
    case ClaimQueuedMessages(did) => (db, Rows(QueuedFor(db, t, did)))
    case ExpireOldMessages(now) => (ExpireDue(db, t, now), Count(|Due(db, t, now)|))
    case AppendAudit(did, connectionId, index, entry) =>
      Insert(db, AuditKey(did, connectionId, index), Row(t, Audit(entry)))
    case ListAudit(did, connectionId) => (db, Rows(AuditOf(db, t, did, connectionId)))
    case CountAudit(did, connectionId) => (db, Count(|AuditOf(db, t, did, connectionId)|))
    case AddRevocation(did, kind, subject, reason) =>
      InsertOrIgnore(db, RevocationKey(did, kind, subject), Row(t, Revocation(reason)))
    case IsRevoked(did, kind, subject) => (db, Flag(Find(db, t, RevocationKey(did, kind, subject)).Some?))
    case IncrementUsage(period, inbound, outbound) =>
      var k := UsageKey(t, period);
      if k in db && db[k].body.Usage? then
        (db[k := Row(t, Usage(db[k].body.inbound + inbound, db[k].body.outbound + outbound))], Done)
      else (db[k := Row(t, Usage(inbound, outbound))], Done)
    case GetUsage(period) => (db, One(Find(db, t, UsageKey(t, period))))
    case AddRow(key, row) => if Loose(key) then Insert(db, key, Row(t, Columns(row))) else (db, Done)
    case AddRowWith(key, row, column, value) =>
      if Loose(key) then InsertWith(db, t, key, Row(t, Columns(row)), UniqueKey(column, value)) else (db, Done)
    case PutRow(table, rowId, row) => (Upsert(db, t, OwnedKey(t, table, rowId), row), Done)
    case SetUnique(key, column, value, change) =>
      if Leaf(key) then SetColumn(db, t, key, UniqueKey(column, value), change) else (db, Done)
    case ReadWhere(which, answer) => (db, answer(Selected(db, t, which)))
    case ChangeWhere(which, change, answer) => (Changed(db, t, which, change), answer(Selected(db, t, which)))
    case RemoveWhere(which, answer) => (Removed(db, t, which), answer(Selected(db, t, which)))
  }

  /** Rows whose key carries a tenant id belong to that tenant, and are of the right table. */
  ghost predicate Sound(db: Tables) {
    forall k :: k in db ==>
      && (k.ConnectionKey? ==> db[k].tenant == k.tenant)
      && (k.UsageKey? ==> db[k].tenant == k.tenant && db[k].body.Usage?)
      && (k.OwnedKey? ==> db[k].tenant == k.tenant)
  }

  // --------------------------------------------------------- interference

  /** The key exists and belongs to somebody else. */
  predicate Foreign(db: Tables, t: Tenant, k: Key) {
    k in db && db[k].tenant != t
  }

  /** An insert that meets somebody else's row: its agent's, or, once the agent is there, its key's. */
  predicate InsertClash(db: Tables, t: Tenant, did: string, k: Key) {
    Foreign(db, t, AgentKey(did)) || (AgentKey(did) in db && Foreign(db, t, k))
  }

  /** Of the two keys an insert needs free, none is taken by the tenant and one by somebody else. */
  predicate PairClash(db: Tables, t: Tenant, k: Key, u: Key) {
    Find(db, t, k).None? && Find(db, t, u).None? && (Foreign(db, t, k) || Foreign(db, t, u))
  }

  /** The operation meets, under a key without a tenant id, a row of somebody else. */
  predicate Clash(db: Tables, t: Tenant, op: Op) {
    match op
    case CreateAgent(did, _) => Foreign(db, t, AgentKey(did))
    case CreateConnection(id, did, _, _) => Foreign(db, t, AgentKey(did))
    case EnqueueMessage(id, did, _, _, _) => InsertClash(db, t, did, MessageKey(id))
    case AppendAudit(did, connectionId, index, _) => InsertClash(db, t, did, AuditKey(did, connectionId, index))
    case AddRevocation(did, kind, subject, _) => InsertClash(db, t, did, RevocationKey(did, kind, subject))
    case AddRow(key, _) => Loose(key) && Foreign(db, t, key)
    case AddRowWith(key, _, column, value) => Loose(key) && PairClash(db, t, key, UniqueKey(column, value))
    case SetUnique(key, column, value, _) => Leaf(key) && Find(db, t, key).Some? && Foreign(db, t, UniqueKey(column, value))
    case _ => false
  }

  lemma ApplyKeepsSound(db: Tables, t: Tenant, op: Op)
    requires Sound(db)
    ensures Sound(Apply(db, t, op).0)
  {
    hide Apply;
    if FillsColumns(op) {
      ColumnsKeepSound(db, t, op);
    } else {
      WritesKeepSound(db, t, op);
    }
  }

  lemma ColumnsKeepSound(db: Tables, t: Tenant, op: Op)
    requires Sound(db) && FillsColumns(op)
    ensures Sound(Apply(db, t, op).0)
  {
  }

  lemma WritesKeepSound(db: Tables, t: Tenant, op: Op)
    requires Sound(db) && !FillsColumns(op)
    ensures Sound(Apply(db, t, op).0)
  {
  }

  /** The deletion takes along a row of `u`. */
  ghost predicate TakesAlong(db: Tables, t: Tenant, u: Tenant, op: Op) {
    && op.DeleteAgent? && Find(db, t, AgentKey(op.did)).Some?
    && exists k :: k in View(db, u) && AgentOf(k, db[k]) == Some(op.did)
  }

  lemma DeleteTakesAlong(db: Tables, t: Tenant, u: Tenant, did: string)
    requires t != u && Find(db, t, AgentKey(did)).Some?
    ensures View(DeleteAgentRows(db, did), u) == View(db, u)
      <==> !(exists k :: k in View(db, u) && AgentOf(k, db[k]) == Some(did))
  {
    if k :| k in View(db, u) && AgentOf(k, db[k]) == Some(did) {
      assert k !in View(DeleteAgentRows(db, did), u);
    }
  }

  /** One call of tenant `t` leaves the rows of `u` as they are, except that deleting an agent
      takes along the rows of `u` that point at it. */
  lemma OthersUntouched(db: Tables, t: Tenant, u: Tenant, op: Op)
    requires Sound(db) && t != u
    ensures View(Apply(db, t, op).0, u) == View(db, u) <==> !TakesAlong(db, t, u, op)
  {
    hide Apply, View;
    if op.DeleteAgent? {
      DeletionElsewhere(db, t, u, op);
    } else if Reads(op) {
      ReadChangesNothing(db, t, op);
    } else if FillsColumns(op) {
      ColumnsElsewhere(db, t, u, op);
    } else {
      WritesElsewhere(db, t, u, op);
    }
  }

  lemma DeletionElsewhere(db: Tables, t: Tenant, u: Tenant, op: Op)
    requires t != u && op.DeleteAgent?
    ensures View(Apply(db, t, op).0, u) == View(db, u) <==> !TakesAlong(db, t, u, op)
  {
    if Find(db, t, AgentKey(op.did)).Some? {
      DeleteTakesAlong(db, t, u, op.did);
    }
  }

  /** The statements on unique columns and on keys with a tenant id of their own. */
  predicate FillsColumns(op: Op) { op.AddRowWith? || op.PutRow? || op.SetUnique? }

  lemma ColumnsElsewhere(db: Tables, t: Tenant, u: Tenant, op: Op)
    requires Sound(db) && t != u && FillsColumns(op)
    ensures View(Apply(db, t, op).0, u) == View(db, u)
  {
  }

  lemma WritesElsewhere(db: Tables, t: Tenant, u: Tenant, op: Op)
    requires Sound(db) && t != u && !Reads(op) && !op.DeleteAgent? && !FillsColumns(op)
    ensures View(Apply(db, t, op).0, u) == View(db, u)
  {
  }

  lemma InsertOwn(db: Tables, t: Tenant, k: Key, r: Row)
    requires r.tenant == t
    requires AgentOf(k, r).Some? ==> !InsertClash(db, t, AgentOf(k, r).value, k)
    requires AgentOf(k, r).None? ==> !Foreign(db, t, k)
    ensures Insert(View(db, t), k, r) == (View(Insert(db, k, r).0, t), Insert(db, k, r).1)
    ensures InsertOrIgnore(View(db, t), k, r) == (View(InsertOrIgnore(db, k, r).0, t), InsertOrIgnore(db, k, r).1)
  {
    assert View(db[k := r], t) == View(db, t)[k := r];
  }

  /** An insert that clashes answers otherwise than it would alone, or leaves other rows. */
  lemma InsertNotOwn(db: Tables, t: Tenant, k: Key, r: Row)
    requires r.tenant == t
    requires if AgentOf(k, r).Some? then InsertClash(db, t, AgentOf(k, r).value, k) else Foreign(db, t, k)
    ensures Insert(View(db, t), k, r).1 != Insert(db, k, r).1
    ensures InsertOrIgnore(View(db, t), k, r) != (View(InsertOrIgnore(db, k, r).0, t), InsertOrIgnore(db, k, r).1)
  {
    var alone, shared := InsertOrIgnore(View(db, t), k, r), InsertOrIgnore(db, k, r);
    if alone.1 == shared.1 {
      assert k in alone.0 && k !in View(shared.0, t);
    }
  }

  lemma InsertWithOwnIff(db: Tables, t: Tenant, k: Key, r: Row, u: Key)
    requires r.tenant == t
    ensures InsertWith(View(db, t), t, k, r, u) == (View(InsertWith(db, t, k, r, u).0, t), InsertWith(db, t, k, r, u).1)
      <==> !PairClash(db, t, k, u)
  {
    if k !in db && u !in db {
      assert View(db[k := r][u := Row(t, Holder(k))], t) == View(db, t)[k := r][u := Row(t, Holder(k))];
    }
  }

  lemma SetColumnOwnIff(db: Tables, t: Tenant, k: Key, u: Key, change: Body -> Body)
    requires u.UniqueKey?
    ensures SetColumn(View(db, t), t, k, u, change) == (View(SetColumn(db, t, k, u, change).0, t), SetColumn(db, t, k, u, change).1)
      <==> !(Find(db, t, k).Some? && Foreign(db, t, u))
  {
    if Find(db, t, k).Some? && (u in db ==> db[u] == Row(t, Holder(k))) {
      assert SetColumn(View(db, t), t, k, u, change).0 == View(SetColumn(db, t, k, u, change).0, t);
    }
  }

  lemma UpsertOwn(db: Tables, t: Tenant, k: Key, row: map<string, string>)
    requires k in db ==> db[k].tenant == t
    ensures Upsert(View(db, t), t, k, row) == View(Upsert(db, t, k, row), t)
  {
  }

  lemma ColumnsOwnIff(db: Tables, t: Tenant, op: Op)
    requires Sound(db) && FillsColumns(op)
    ensures Apply(View(db, t), t, op) == (View(Apply(db, t, op).0, t), Apply(db, t, op).1) <==> !Clash(db, t, op)
  {
    match op {
      case AddRowWith(key, row, column, value) => InsertWithOwnIff(db, t, key, Row(t, Columns(row)), UniqueKey(column, value));
      case PutRow(table, rowId, row) => UpsertOwn(db, t, OwnedKey(t, table, rowId), row);
      case SetUnique(key, column, value, change) => SetColumnOwnIff(db, t, key, UniqueKey(column, value), change);
    }
  }

  lemma DeleteOwn(db: Tables, t: Tenant, did: string)
    ensures DeleteAgentRows(View(db, t), did) == View(DeleteAgentRows(db, did), t)
  {
  }

  lemma ExpireOwn(db: Tables, t: Tenant, now: int)
    ensures ExpireDue(View(db, t), t, now) == View(ExpireDue(db, t, now), t)
    ensures Due(View(db, t), t, now) == Due(db, t, now)
  {
  }

  /** The operation only reads. */
  predicate Reads(op: Op) {
    op.ListAgents? || op.GetAgent? || op.ListConnections? || op.GetConnection? || op.ClaimQueuedMessages?
    || op.ListAudit? || op.CountAudit? || op.IsRevoked? || op.GetUsage? || op.ReadWhere?
  }

  lemma SelectedOwn(db: Tables, t: Tenant, which: (Key, Body) -> bool)
    ensures Selected(View(db, t), t, which) == Selected(db, t, which)
  {
  }

  lemma LooseOwn(db: Tables, t: Tenant, op: Op)
    requires op.ChangeWhere? || op.RemoveWhere?
    ensures Apply(View(db, t), t, op) == (View(Apply(db, t, op).0, t), Apply(db, t, op).1)
  {
    SelectedOwn(db, t, op.which);
    if op.ChangeWhere? {
      assert Changed(View(db, t), t, op.which, op.change) == View(Changed(db, t, op.which, op.change), t);
    } else {
      assert Removed(View(db, t), t, op.which) == View(Removed(db, t, op.which), t);
    }
  }

  predicate ListsRows(op: Op) {
    op.ListAgents? || op.ListConnections? || op.ClaimQueuedMessages? || op.ListAudit? || op.CountAudit? || op.ReadWhere?
  }

  lemma ReadChangesNothing(db: Tables, t: Tenant, op: Op)
    requires Reads(op)
    ensures Apply(db, t, op).0 == db
  {
  }

  lemma ListOwn(db: Tables, t: Tenant, op: Op)
    requires ListsRows(op)
    ensures Apply(View(db, t), t, op).1 == Apply(db, t, op).1
  {
    var own := View(db, t);
    match op {
      case ListAgents => assert Apply(own, t, op).1.rows == Apply(db, t, op).1.rows;
      case ListConnections(standing) => assert Apply(own, t, op).1.rows == Apply(db, t, op).1.rows;
      case ClaimQueuedMessages(did) => assert QueuedFor(own, t, did) == QueuedFor(db, t, did);
      case ListAudit(did, connectionId) => assert AuditOf(own, t, did, connectionId) == AuditOf(db, t, did, connectionId);
      case CountAudit(did, connectionId) => assert AuditOf(own, t, did, connectionId) == AuditOf(db, t, did, connectionId);
      case ReadWhere(which, answer) => SelectedOwn(db, t, which);
    }
  }

  lemma PointReadOwn(db: Tables, t: Tenant, op: Op)
    requires Reads(op) && !ListsRows(op)
    ensures Apply(View(db, t), t, op).1 == Apply(db, t, op).1
  {
  }

  lemma ReadOwn(db: Tables, t: Tenant, op: Op)
    requires Reads(op)
    ensures Apply(db, t, op).0 == db
    ensures Apply(View(db, t), t, op) == (View(db, t), Apply(db, t, op).1)
  {
    ReadChangesNothing(db, t, op);
    ReadChangesNothing(View(db, t), t, op);
    if ListsRows(op) {
      ListOwn(db, t, op);
    } else {
      PointReadOwn(db, t, op);
    }
  }

  lemma InsertsOwn(db: Tables, t: Tenant, op: Op)
    requires Sound(db) && !Clash(db, t, op)
    requires op.CreateAgent? || op.CreateConnection? || op.EnqueueMessage? || op.AppendAudit? || op.AddRevocation? || op.AddRow?
    ensures Apply(View(db, t), t, op) == (View(Apply(db, t, op).0, t), Apply(db, t, op).1)
  {
    match op {
      case CreateAgent(did, profile) => InsertOwn(db, t, AgentKey(did), Row(t, Agent(profile)));
      case CreateConnection(id, did, peer, initial) =>
        InsertOwn(db, t, ConnectionKey(t, id), Row(t, Connection(did, peer, initial, None, None)));
      case EnqueueMessage(id, did, envelope, createdAt, expiresAt) =>
        InsertOwn(db, t, MessageKey(id), Row(t, Message(did, envelope, Queued, None, createdAt, expiresAt)));
      case AppendAudit(did, connectionId, index, entry) =>
        InsertOwn(db, t, AuditKey(did, connectionId, index), Row(t, Audit(entry)));
      case AddRevocation(did, kind, subject, reason) =>
        InsertOwn(db, t, RevocationKey(did, kind, subject), Row(t, Revocation(reason)));
      case AddRow(key, row) => if Loose(key) { InsertOwn(db, t, key, Row(t, Columns(row))); }
    }
  }

  lemma UpdatesOwn(db: Tables, t: Tenant, op: Op)
    requires op.UpdateAgent? || op.UpdateConnectionStatus? || op.TouchConnection? || op.MarkMessageDelivered? || op.MarkMessageFailed?
    ensures Apply(View(db, t), t, op) == (View(Apply(db, t, op).0, t), Apply(db, t, op).1)
  {
    assert Apply(View(db, t), t, op).0 == View(Apply(db, t, op).0, t);
  }

  lemma UsageOwn(db: Tables, t: Tenant, op: Op)
    requires Sound(db) && op.IncrementUsage?
    ensures Apply(View(db, t), t, op) == (View(Apply(db, t, op).0, t), Apply(db, t, op).1)
  {
    assert Apply(View(db, t), t, op).0 == View(Apply(db, t, op).0, t);
  }

  /** Without a clash, a call does to the tenant's rows, and answers, exactly what it would do
      and answer on a database holding only the rows of that tenant. */
  lemma OwnViewSuffices(db: Tables, t: Tenant, op: Op)
    requires Sound(db) && !Clash(db, t, op)
    ensures Apply(View(db, t), t, op) == (View(Apply(db, t, op).0, t), Apply(db, t, op).1)
  {
    if Reads(op) {
      ReadOwn(db, t, op);
    } else if op.IncrementUsage? {
      UsageOwn(db, t, op);
    } else if op.DeleteAgent? {
      DeleteOwn(db, t, op.did);
    } else if op.ExpireOldMessages? {
      ExpireOwn(db, t, op.now);
    } else if op.UpdateAgent? || op.UpdateConnectionStatus? || op.TouchConnection? || op.MarkMessageDelivered? || op.MarkMessageFailed? {
      UpdatesOwn(db, t, op);
    } else if op.ChangeWhere? || op.RemoveWhere? {
      LooseOwn(db, t, op);
    } else if FillsColumns(op) {
      ColumnsOwnIff(db, t, op);
    } else {
      InsertsOwn(db, t, op);
    }
  }

  lemma ClashIsFelt(db: Tables, t: Tenant, op: Op)
    requires Sound(db) && Clash(db, t, op)
    ensures Apply(View(db, t), t, op) != (View(Apply(db, t, op).0, t), Apply(db, t, op).1)
  {
    match op {
      case CreateAgent(did, profile) => InsertNotOwn(db, t, AgentKey(did), Row(t, Agent(profile)));
      case CreateConnection(id, did, peer, initial) =>
        InsertNotOwn(db, t, ConnectionKey(t, id), Row(t, Connection(did, peer, initial, None, None)));
      case EnqueueMessage(id, did, envelope, createdAt, expiresAt) =>
        InsertNotOwn(db, t, MessageKey(id), Row(t, Message(did, envelope, Queued, None, createdAt, expiresAt)));
      case AppendAudit(did, connectionId, index, entry) =>
        InsertNotOwn(db, t, AuditKey(did, connectionId, index), Row(t, Audit(entry)));
      case AddRevocation(did, kind, subject, reason) =>
        InsertNotOwn(db, t, RevocationKey(did, kind, subject), Row(t, Revocation(reason)));
      case AddRow(key, row) => InsertNotOwn(db, t, key, Row(t, Columns(row)));
      case _ => ColumnsOwnIff(db, t, op);
    }
  }

  /** A call is as if alone if and only if it does not clash. */
  lemma AsIfAloneStepIff(db: Tables, t: Tenant, op: Op)
    requires Sound(db)
    ensures Apply(View(db, t), t, op) == (View(Apply(db, t, op).0, t), Apply(db, t, op).1) <==> !Clash(db, t, op)
  {
    if Clash(db, t, op) {
      ClashIsFelt(db, t, op);
    } else {
      OwnViewSuffices(db, t, op);
    }
  }

  // ------------------------------------------------- whole shared histories

  datatype Call = Call(tenant: Tenant, op: Op)

  function Exec(db: Tables, calls: seq<Call>): Tables {
    if calls == [] then db
    else Apply(Exec(db, calls[..|calls| - 1]), calls[|calls| - 1].tenant, calls[|calls| - 1].op).0
  }

  /** What tenant `t` got to see, in order. */
  function Replies(db: Tables, calls: seq<Call>, t: Tenant): seq<Reply> {
    if calls == [] then []
    else
      var front, last := calls[..|calls| - 1], calls[|calls| - 1];
      Replies(db, front, t) + if last.tenant == t then [Apply(Exec(db, front), t, last.op).1] else []
  }

  /** The calls of tenant `t` alone. */
  function Purge(calls: seq<Call>, t: Tenant): seq<Call> {
    if calls == [] then []
    else Purge(calls[..|calls| - 1], t) + if calls[|calls| - 1].tenant == t then [calls[|calls| - 1]] else []
  }

  /** A call of `t` that does not clash, or one of another tenant that takes along no row of `t`. */
  ghost predicate Harmless(before: Tables, c: Call, t: Tenant) {
    if c.tenant == t then !Clash(before, t, c.op) else !TakesAlong(before, c.tenant, t, c.op)
  }

  ghost predicate Undisturbed(db: Tables, calls: seq<Call>, t: Tenant) {
    calls == []
    || (Undisturbed(db, calls[..|calls| - 1], t) && Harmless(Exec(db, calls[..|calls| - 1]), calls[|calls| - 1], t))
  }

  /** The tenant has the rows, and saw the answers, it would have had alone on a private database. */
  ghost predicate AsAlone(db: Tables, calls: seq<Call>, t: Tenant) {
    && View(Exec(db, calls), t) == Exec(View(db, t), Purge(calls, t))
    && Replies(db, calls, t) == Replies(View(db, t), Purge(calls, t), t)
  }

  ghost predicate AlwaysAsAlone(db: Tables, calls: seq<Call>, t: Tenant) {
    AsAlone(db, calls, t) && (calls == [] || AlwaysAsAlone(db, calls[..|calls| - 1], t))
  }

  lemma {:induction false} ExecKeepsSound(db: Tables, calls: seq<Call>)
    requires Sound(db)
    ensures Sound(Exec(db, calls))
  {
    if calls != [] {
      ExecKeepsSound(db, calls[..|calls| - 1]);
      ApplyKeepsSound(Exec(db, calls[..|calls| - 1]), calls[|calls| - 1].tenant, calls[|calls| - 1].op);
    }
  }

  lemma OneMoreCall(db: Tables, front: seq<Call>, c: Call, t: Tenant)
    ensures Exec(db, front + [c]) == Apply(Exec(db, front), c.tenant, c.op).0
    ensures Purge(front + [c], t) == if c.tenant == t then Purge(front, t) + [c] else Purge(front, t)
    ensures Replies(db, front + [c], t)
            == if c.tenant == t then Replies(db, front, t) + [Apply(Exec(db, front), t, c.op).1] else Replies(db, front, t)
  {
    hide Apply;
    assert (front + [c])[..|front|] == front;
  }

  /** A tenant that was as if alone stays so over one more call if and only if that call is harmless. */
  lemma NextAsAloneIff(db: Tables, front: seq<Call>, c: Call, t: Tenant)
    requires Sound(db) && AsAlone(db, front, t)
    ensures AsAlone(db, front + [c], t) <==> Harmless(Exec(db, front), c, t)
  {
    hide Apply, Clash, View, Exec, Purge, Replies, Sound, TakesAlong;
    var before, alone := Exec(db, front), Purge(front, t);
    ExecKeepsSound(db, front);
    OneMoreCall(db, front, c, t);
    if c.tenant == t {
      OneMoreCall(View(db, t), alone, c, t);
      AsIfAloneStepIff(before, t, c.op);
      LastDecides(Replies(db, front, t), Apply(View(before, t), t, c.op).1, Apply(before, t, c.op).1);
    } else {
      OthersUntouched(before, c.tenant, t, c.op);
    }
  }

  lemma LastDecides<T>(s: seq<T>, x: T, y: T)
    ensures s + [x] == s + [y] <==> x == y
  {
    assert (s + [x])[|s|] == x && (s + [y])[|s|] == y;
  }

  /** Non-interference: over any interleaving of the calls of any number of tenants, a tenant has at
      every moment the rows and answers it would have had alone on a private database if and only
      if none of its calls clashes and no deletion by another tenant takes along a row of its own. */
  lemma {:induction false} AsIfAlone(db: Tables, calls: seq<Call>, t: Tenant)
    requires Sound(db)
    ensures AlwaysAsAlone(db, calls, t) <==> Undisturbed(db, calls, t)
  {
    if calls != [] {
      AsIfAlone(db, calls[..|calls| - 1], t);
      if AlwaysAsAlone(db, calls[..|calls| - 1], t) {
        assert calls == calls[..|calls| - 1] + [calls[|calls| - 1]];
        NextAsAloneIff(db, calls[..|calls| - 1], calls[|calls| - 1], t);
      }
    }
  }

  /** Where the condition is needed: a revocation that somebody else already holds under the
      same key is dropped without an error, and the tenant does not see it afterwards. */
  lemma RevocationSticksIffNoClash(db: Tables, t: Tenant, did: string, kind: Kind, subject: string, reason: Option<string>)
    requires Sound(db)
    ensures var (db', reply) := Apply(db, t, AddRevocation(did, kind, subject, reason));
      reply == Done ==>
        (Apply(db', t, IsRevoked(did, kind, subject)).1 == Flag(true) <==> !Foreign(db, t, RevocationKey(did, kind, subject)))
  {
  }

  /** A link that somebody else holds under the same agent, kind and value cannot be made, and the
      tenant does not see the one in its way. */
  lemma LinkMadeIffFree(db: Tables, t: Tenant, key: Key, row: map<string, string>)
    requires key.LinkKey?
    ensures var (db', reply) := Apply(db, t, AddRow(key, row));
      && (reply == Done <==> key !in db)
      && (reply == Done ==> Find(db', t, key) == Some(Row(t, Columns(row))))
      && (Foreign(db, t, key) ==> db' == db && reply == Throws(DuplicateKey) && Find(db, t, key) == None)
  {
  }

  /** Tenant 1 holds the agent and the revocation; tenant 2 revokes the same and does not see it. */
  lemma RevocationIsDropped()
    ensures var key := RevocationKey("did:a", OfConnection, "c");
      var db := map[AgentKey("did:a") := Row(1, Agent("")), key := Row(1, Revocation(None))];
      var (db', reply) := Apply(db, 2, AddRevocation("did:a", OfConnection, "c", None));
      && Sound(db) && reply == Done && db' == db
      && Apply(db', 2, IsRevoked("did:a", OfConnection, "c")).1 == Flag(false)
  {
  }

  /** Tenant 1 deletes its agent; the message tenant 2 had queued for that agent is gone. */
  lemma DeletionReachesAcross()
    ensures var message := Row(2, Message("did:a", "", Queued, None, 0, 0));
      var db := map[AgentKey("did:a") := Row(1, Agent("")), MessageKey(7) := message];
      var (db', reply) := Apply(db, 1, DeleteAgent("did:a"));
      && Sound(db) && reply == Done
      && View(db, 2) == map[MessageKey(7) := message] && View(db', 2) == map[]
  {
    var message := Row(2, Message("did:a", "", Queued, None, 0, 0));
    var db := map[AgentKey("did:a") := Row(1, Agent("")), MessageKey(7) := message];
    assert DeleteAgentRows(db, "did:a") == map[];
  }

  // -------------------------------------------- what is written is what is read

  /** Rows of the audit and revocation tables point at the agent in their key, connections and
      messages at the one in their columns. */
  ghost predicate PointsAt(k: Key, row: Row, did: string) {
    if k.AuditKey? || k.RevocationKey? then k.agentDid == did
    else (row.body.Connection? && row.body.agentDid == did) || (row.body.Message? && row.body.agentDid == did)
  }

  /** A registration made with a checkout session is read back, unless its id or its session is
      taken, whoever took it; then nothing changes. */
  lemma SessionRowIsRead(db: Tables, t: Tenant, id: string, row: map<string, string>, session: string)
    ensures var key, unique := PlainKey("domain_registrations", id), UniqueKey("checkout_session", session);
      var (db', reply) := Apply(db, t, AddRowWith(key, row, "checkout_session", session));
      if key in db || unique in db then reply == Throws(DuplicateKey) && db' == db
      else
        && reply == Done && Find(db', t, key) == Some(Row(t, Columns(row))) && Find(db', t, unique) == Some(Row(t, Holder(key)))
        && db' - {key, unique} == db
  {
    var key, unique := PlainKey("domain_registrations", id), UniqueKey("checkout_session", session);
    if key !in db && unique !in db {
      assert db[key := Row(t, Columns(row))][unique := Row(t, Holder(key))] - {key, unique} == db;
    }
  }

  /** A status that was set is read back, and the connection is listed under it. */
  lemma StatusIsRead(db: Tables, t: Tenant, id: string, to: ConnectionStatus, reason: Option<string>)
    requires ConnectionKey(t, id) in db && db[ConnectionKey(t, id)].tenant == t && db[ConnectionKey(t, id)].body.Connection?
    ensures var db' := Apply(db, t, UpdateConnectionStatus(id, to, reason)).0;
      var read := Apply(db', t, GetConnection(id)).1;
      && read.row.Some? && read.row.value.body.Connection? && read.row.value.body.standing == to
      && (reason.Some? ==> read.row.value.body.revokeReason == reason)
      && forall s :: ConnectionKey(t, id) in Apply(db', t, ListConnections(Some(s))).1.rows <==> s == to
  {
  }

  lemma TouchIsRead(db: Tables, t: Tenant, id: string, now: int)
    requires ConnectionKey(t, id) in db && db[ConnectionKey(t, id)].tenant == t && db[ConnectionKey(t, id)].body.Connection?
    ensures var row := Apply(Apply(db, t, TouchConnection(id, now)).0, t, GetConnection(id)).1.row;
      row == Some(Row(t, db[ConnectionKey(t, id)].body.(lastMessageAt := Some(now))))
  {
  }

  /** An agent that was created, and later updated, is read and listed with the profile given last. */
  lemma AgentIsRead(db: Tables, t: Tenant, did: string, profile: string, later: string)
    requires AgentKey(did) !in db
    ensures var db' := Apply(db, t, CreateAgent(did, profile)).0;
      var db'' := Apply(db', t, UpdateAgent(did, later)).0;
      && Apply(db', t, GetAgent(did)).1 == One(Some(Row(t, Agent(profile))))
      && Apply(db'', t, GetAgent(did)).1 == One(Some(Row(t, Agent(later))))
      && AgentKey(did) in Apply(db'', t, ListAgents).1.rows
      && (forall u :: u != t ==> AgentKey(did) !in Apply(db'', u, ListAgents).1.rows)
      && Apply(Apply(db'', t, DeleteAgent(did)).0, t, GetAgent(did)).1 == One(None)
  {
  }

  /** A failed message keeps why it failed, and is not claimed again. */
  lemma FailureIsRead(db: Tables, t: Tenant, id: nat, failure: string)
    requires MessageKey(id) in db && db[MessageKey(id)].tenant == t && db[MessageKey(id)].body.Message?
    ensures var db' := Apply(db, t, MarkMessageFailed(id, failure)).0;
      && MessageKey(id) in db'
      && db'[MessageKey(id)] == Row(t, db[MessageKey(id)].body.(status := Failed, failureReason := Some(failure)))
      && forall did :: MessageKey(id) !in Apply(db', t, ClaimQueuedMessages(did)).1.rows
  {
  }

  /** An appended entry is listed and counted for its agent and connection, and for no other. */
  lemma AuditIsRead(db: Tables, t: Tenant, did: string, connectionId: string, index: int, entry: string)
    requires AgentKey(did) in db && AuditKey(did, connectionId, index) !in db
    ensures var db' := Apply(db, t, AppendAudit(did, connectionId, index, entry)).0;
      && Apply(db', t, ListAudit(did, connectionId)).1.rows
         == Apply(db, t, ListAudit(did, connectionId)).1.rows[AuditKey(did, connectionId, index) := Row(t, Audit(entry))]
      && Apply(db', t, CountAudit(did, connectionId)).1.n == Apply(db, t, CountAudit(did, connectionId)).1.n + 1
      && forall d, c :: d != did || c != connectionId ==>
           Apply(db', t, ListAudit(d, c)).1.rows == Apply(db, t, ListAudit(d, c)).1.rows
  {
    forall d, c {
      AuditRowAdded(db, t, AuditKey(did, connectionId, index), Row(t, Audit(entry)), d, c);
    }
  }

  lemma AuditRowAdded(db: Tables, t: Tenant, k: Key, row: Row, d: string, c: string)
    requires k.AuditKey? && k !in db && row.tenant == t
    ensures AuditOf(db[k := row], t, d, c)
         == if k.agentDid == d && k.connectionId == c then AuditOf(db, t, d, c)[k := row] else AuditOf(db, t, d, c)
  {
  }

  /** The counter read is the sum of what was added. */
  lemma UsageIsRead(db: Tables, t: Tenant, period: string, a: nat, b: nat, c: nat, d: nat)
    requires UsageKey(t, period) !in db
    ensures var db' := Apply(db, t, IncrementUsage(period, a, b)).0;
      && Apply(db', t, GetUsage(period)).1 == One(Some(Row(t, Usage(a, b))))
      && Apply(Apply(db', t, IncrementUsage(period, c, d)).0, t, GetUsage(period)).1 == One(Some(Row(t, Usage(a + c, b + d))))
  {
  }

  // -------------------------------------------------------- the store in place

  /** The tables every tenant shares. */
  class Database {
    var rows: Tables

    constructor ()
      ensures rows == map[]
    {
      rows := map[];
    }
  }

  /** The object handed to one tenant's code. Each method is one statement on the shared tables. */
  class Store {
    const raw: Database
    const tenantId: Tenant

    constructor (raw: Database, tenantId: Tenant)
      ensures this.raw == raw && this.tenantId == tenantId
    {
      this.raw := raw;
      this.tenantId := tenantId;
    }

    method CreateAgent(did: string, profile: string) returns (r: Reply)
      modifies raw
      ensures (raw.rows, r) == Apply(old(raw.rows), tenantId, Op.CreateAgent(did, profile))
      ensures r == if AgentKey(did) in old(raw.rows) then Throws(DuplicateKey) else Done
      ensures raw.rows == if r.Done? then old(raw.rows)[AgentKey(did) := Row(tenantId, Agent(profile))] else old(raw.rows)
    {
      if AgentKey(did) in raw.rows {
        return Throws(DuplicateKey);
      }
      raw.rows := raw.rows[AgentKey(did) := Row(tenantId, Agent(profile))];
      return Done;
    }

    method GetAgent(did: string) returns (r: Reply)
      ensures (raw.rows, r) == Apply(raw.rows, tenantId, Op.GetAgent(did))
      ensures r.One? && (r.row.Some? <==> AgentKey(did) in raw.rows && raw.rows[AgentKey(did)].tenant == tenantId)
      ensures r.row.Some? ==> r.row.value == raw.rows[AgentKey(did)]
    {
      if AgentKey(did) in raw.rows && raw.rows[AgentKey(did)].tenant == tenantId {
        return One(Some(raw.rows[AgentKey(did)]));
      }
      return One(None);
    }

    /** The rows that point at the agent go with it, whoever they belong to. */
    method DeleteAgent(did: string) returns (r: Reply)
      modifies raw
      ensures (raw.rows, r) == Apply(old(raw.rows), tenantId, Op.DeleteAgent(did))
      ensures var own := AgentKey(did) in old(raw.rows) && old(raw.rows)[AgentKey(did)].tenant == tenantId;
        && r == Done
        && (forall k :: k in raw.rows <==> k in old(raw.rows) && !(own && (k == AgentKey(did) || PointsAt(k, old(raw.rows)[k], did))))
        && (forall k :: k in raw.rows ==> raw.rows[k] == old(raw.rows)[k])
    {
      var key := AgentKey(did);
      if key in raw.rows && raw.rows[key].tenant == tenantId {
        var pointing := set k | k in raw.rows && AgentOf(k, raw.rows[k]) == Some(did);
        raw.rows := raw.rows - ({key} + pointing);
        assert raw.rows == DeleteAgentRows(old(raw.rows), did);
      }
      return Done;
    }

    /** The status is the one given, or active. */
    method CreateConnection(connectionId: string, agentDid: string, peerDid: string, status: Option<ConnectionStatus>) returns (r: Reply)
      modifies raw
      ensures var initial := if status.Some? then status.value else Active;
        (raw.rows, r) == Apply(old(raw.rows), tenantId, Op.CreateConnection(connectionId, agentDid, peerDid, initial))
      ensures var key := ConnectionKey(tenantId, connectionId);
        && r == (if AgentKey(agentDid) !in old(raw.rows) then Throws(NoSuchAgent)
                 else if key in old(raw.rows) then Throws(DuplicateKey) else Done)
        && raw.rows == (if !r.Done? then old(raw.rows) else old(raw.rows)[key :=
             Row(tenantId, Connection(agentDid, peerDid, if status.Some? then status.value else Active, None, None))])
    {
      var key := ConnectionKey(tenantId, connectionId);
      if AgentKey(agentDid) !in raw.rows {
        return Throws(NoSuchAgent);
      }
      if key in raw.rows {
        return Throws(DuplicateKey);
      }
      var initial := if status.Some? then status.value else Active;
      raw.rows := raw.rows[key := Row(tenantId, Connection(agentDid, peerDid, initial, None, None))];
      return Done;
    }

    method CreateLink(agentDid: string, kind: string, value: string, row: map<string, string>) returns (r: Reply)
      modifies raw
      ensures (raw.rows, r) == Apply(old(raw.rows), tenantId, Op.AddRow(LinkKey(agentDid, kind, value), row))
      ensures var key := LinkKey(agentDid, kind, value);
        && r == (if key in old(raw.rows) then Throws(DuplicateKey) else Done)
        && raw.rows == if r.Done? then old(raw.rows)[key := Row(tenantId, Columns(row))] else old(raw.rows)
    {
      var key := LinkKey(agentDid, kind, value);
      if key in raw.rows {
        return Throws(DuplicateKey);
      }
      raw.rows := raw.rows[key := Row(tenantId, Columns(row))];
      return Done;
    }

    /** Delete the tenant's own link with this id; the answer says whether there was one. */
    method DeleteLink(id: string) returns (r: Reply)
      modifies raw
      ensures (raw.rows, r) == Apply(old(raw.rows), tenantId, Op.RemoveWhere((k, b) => IsLink(k, b, id), AnyRow))
      ensures forall k :: k in raw.rows <==> k in old(raw.rows) && !OwnLink(old(raw.rows), tenantId, id, k)
      ensures forall k :: k in raw.rows ==> raw.rows[k] == old(raw.rows)[k]
      ensures r.Flag? && (r.yes <==> exists k :: k in old(raw.rows) && OwnLink(old(raw.rows), tenantId, id, k))
    {
      var hits := set k | k in raw.rows && raw.rows[k].tenant == tenantId && IsLink(k, raw.rows[k].body, id);
      ghost var which := (k, b) => IsLink(k, b, id);
      assert hits == Selected(raw.rows, tenantId, which).Keys;
      raw.rows := raw.rows - hits;
      assert raw.rows == Removed(old(raw.rows), tenantId, which);
      return Flag(hits != {});
    }

    /** Register a device of the tenant, or overwrite the columns given. */
    method UpsertPushRegistration(deviceToken: string, row: map<string, string>) returns (r: Reply)
      modifies raw
      ensures (raw.rows, r) == Apply(old(raw.rows), tenantId, Op.PutRow("push_registrations", deviceToken, row))
      ensures var key := OwnedKey(tenantId, "push_registrations", deviceToken);
        && r == Done && key in raw.rows && raw.rows == old(raw.rows)[key := raw.rows[key]]
        && raw.rows[key].tenant == tenantId && raw.rows[key].body.Columns?
        && (forall c :: c in row ==> c in raw.rows[key].body.columns && raw.rows[key].body.columns[c] == row[c])
        && (key !in old(raw.rows) ==> raw.rows[key].body.columns == row)
    {
      var key := OwnedKey(tenantId, "push_registrations", deviceToken);
      var columns := row;
      if key in raw.rows && raw.rows[key].body.Columns? {
        columns := raw.rows[key].body.columns + row;
      }
      raw.rows := raw.rows[key := Row(tenantId, Columns(columns))];
      return Done;
    }

    /** Give a registration of the tenant a checkout session, together with other columns. It
        throws exactly if another row, whoever holds it, has that session. */
    method SetCheckoutSession(id: string, session: string, patch: map<string, string>) returns (r: Reply)
      modifies raw
      ensures var key := PlainKey("domain_registrations", id);
        (raw.rows, r) == Apply(old(raw.rows), tenantId, Op.SetUnique(key, "checkout_session", session, b => Patched(b, patch)))
      ensures var key, unique := PlainKey("domain_registrations", id), UniqueKey("checkout_session", session);
        var own := key in old(raw.rows) && old(raw.rows)[key].tenant == tenantId;
        var taken := unique in old(raw.rows) && old(raw.rows)[unique] != Row(tenantId, Holder(key));
        && r == (if !own then Flag(false) else if taken then Throws(DuplicateKey) else Flag(true))
        && (r != Flag(true) ==> raw.rows == old(raw.rows))
        && (r == Flag(true) ==>
              && unique in raw.rows && raw.rows[unique] == Row(tenantId, Holder(key)) && key in raw.rows && raw.rows[key].tenant == tenantId
              && (forall v :: v != session && UniqueKey("checkout_session", v) in raw.rows ==>
                    raw.rows[UniqueKey("checkout_session", v)] != Row(tenantId, Holder(key)))
              && (old(raw.rows)[key].body.Columns? ==> raw.rows[key].body == Columns(old(raw.rows)[key].body.columns + patch))
              && (forall k :: k in old(raw.rows) && k != key && !k.UniqueKey? ==> k in raw.rows && raw.rows[k] == old(raw.rows)[k]))
    {
      var key, unique := PlainKey("domain_registrations", id), UniqueKey("checkout_session", session);
      if key !in raw.rows || raw.rows[key].tenant != tenantId {
        return Flag(false);
      }
      var holder := Row(tenantId, Holder(key));
      if unique in raw.rows && raw.rows[unique] != holder {
        return Throws(DuplicateKey);
      }
      var before := set k | k in raw.rows && k.UniqueKey? && k.column == "checkout_session" && raw.rows[k] == holder;
      var row := Row(tenantId, Patched(raw.rows[key].body, patch));
      assert raw.rows - before == Released(raw.rows, tenantId, "checkout_session", key);
      raw.rows := (raw.rows - before)[unique := holder][key := row];
      return Flag(true);
    }

    method UpdateConnectionStatus(connectionId: string, to: ConnectionStatus, reason: Option<string>) returns (r: Reply)
      requires Sound(raw.rows)
      modifies raw
      ensures (raw.rows, r) == Apply(old(raw.rows), tenantId, Op.UpdateConnectionStatus(connectionId, to, reason))
      ensures var key := ConnectionKey(tenantId, connectionId);
        && r == Done && raw.rows.Keys == old(raw.rows).Keys
        && (forall k :: k in raw.rows && k != key ==> raw.rows[k] == old(raw.rows)[k])
        && (key in old(raw.rows) && old(raw.rows)[key].body.Connection? ==>
              var was := old(raw.rows)[key].body;
              raw.rows[key] == Row(tenantId, Connection(was.agentDid, was.peerDid, to,
                                                        if reason.Some? then reason else was.revokeReason, was.lastMessageAt)))
    {
      var key := ConnectionKey(tenantId, connectionId);
      if key in raw.rows {
        raw.rows := raw.rows[key := Row(tenantId, SetStatus(raw.rows[key].body, to, reason))];
      }
      return Done;
    }

    method EnqueueMessage(id: nat, agentDid: string, envelope: string, createdAt: int, expiresAt: int) returns (r: Reply)
      modifies raw
      ensures (raw.rows, r) == Apply(old(raw.rows), tenantId, Op.EnqueueMessage(id, agentDid, envelope, createdAt, expiresAt))
      ensures r == (if AgentKey(agentDid) !in old(raw.rows) then Throws(NoSuchAgent)
                    else if MessageKey(id) in old(raw.rows) then Throws(DuplicateKey) else Done)
      ensures raw.rows == if !r.Done? then old(raw.rows) else old(raw.rows)[MessageKey(id) :=
        Row(tenantId, Message(agentDid, envelope, Queued, None, createdAt, expiresAt))]
    {
      if AgentKey(agentDid) !in raw.rows {
        return Throws(NoSuchAgent);
      }
      if MessageKey(id) in raw.rows {
        return Throws(DuplicateKey);
      }
      raw.rows := raw.rows[MessageKey(id) := Row(tenantId, Message(agentDid, envelope, Queued, None, createdAt, expiresAt))];
      return Done;
    }

    method MarkMessageDelivered(id: nat) returns (r: Reply)
      modifies raw
      ensures (raw.rows, r) == Apply(old(raw.rows), tenantId, Op.MarkMessageDelivered(id))
      ensures r == Done && raw.rows.Keys == old(raw.rows).Keys
      ensures forall k :: k in raw.rows ==>
        var was := old(raw.rows)[k];
        raw.rows[k] == if k == MessageKey(id) && was.tenant == tenantId && was.body.Message?
                       then Row(tenantId, was.body.(status := Delivered)) else was
    {
      var key := MessageKey(id);
      if key in raw.rows && raw.rows[key].tenant == tenantId && raw.rows[key].body.Message? {
        raw.rows := raw.rows[key := Row(tenantId, raw.rows[key].body.(status := Delivered))];
      }
      assert key in old(raw.rows) && old(raw.rows[key]).tenant == tenantId && !old(raw.rows[key]).body.Message? ==>
        old(raw.rows)[key := old(raw.rows[key])] == old(raw.rows);
      return Done;
    }

    /**
     * The queued messages of an agent, oldest first and at most `limit` of them: no message left
     * out is older than one that is returned.
     */
    method ClaimQueuedMessages(agentDid: string, limit: nat) returns (ids: seq<nat>)
      requires MessagesKeyed(raw.rows)
      ensures Claimed(raw.rows, tenantId, agentDid, limit, ids)
    {
      var rest: set<nat> := set k | k in QueuedFor(raw.rows, tenantId, agentDid) :: k.id;
      ids := [];
      while |ids| < limit && rest != {}
        invariant |ids| <= limit && Sorted(raw.rows, tenantId, agentDid, ids, rest)
        decreases |rest|
      {
        EarliestExists(raw.rows, rest);
        var id :| id in rest && forall other :: other in rest ==> CreatedAt(raw.rows, id) <= CreatedAt(raw.rows, other);
        SortedStep(raw.rows, tenantId, agentDid, ids, rest, id);
        ids, rest := ids + [id], rest - {id};
      }
      SortedIsClaimed(raw.rows, tenantId, agentDid, limit, ids, rest);
    }

    /** Queued messages past their time expire; the answer is how many did. */
    method ExpireOldMessages(now: int) returns (r: Reply)
      modifies raw
      ensures (raw.rows, r) == Apply(old(raw.rows), tenantId, Op.ExpireOldMessages(now))
      ensures raw.rows.Keys == old(raw.rows).Keys
      ensures forall k :: k in raw.rows ==>
        var was := old(raw.rows)[k];
        raw.rows[k] == if was.tenant == tenantId && was.body.Message? && was.body.status.Queued? && was.body.expiresAt < now
                       then Row(tenantId, was.body.(status := Expired)) else was
      ensures r == Count(|set k | k in old(raw.rows) && raw.rows[k] != old(raw.rows)[k]|)
    {
      var due := Due(raw.rows, tenantId, now);
      ExpiringUpdates(raw.rows, tenantId, now);
      raw.rows := raw.rows + map k | k in due :: Row(tenantId, due[k].body.(status := Expired));
      assert (set k | k in old(raw.rows) && raw.rows[k] != old(raw.rows)[k]) == due.Keys;
      assert |due| == |due.Keys|;
      return Count(|due|);
    }

    method AppendAudit(agentDid: string, connectionId: string, index: int, entry: string) returns (r: Reply)
      modifies raw
      ensures (raw.rows, r) == Apply(old(raw.rows), tenantId, Op.AppendAudit(agentDid, connectionId, index, entry))
      ensures var key := AuditKey(agentDid, connectionId, index);
        && r == (if AgentKey(agentDid) !in old(raw.rows) then Throws(NoSuchAgent)
                 else if key in old(raw.rows) then Throws(DuplicateKey) else Done)
        && raw.rows == if r.Done? then old(raw.rows)[key := Row(tenantId, Audit(entry))] else old(raw.rows)
    {
      var key := AuditKey(agentDid, connectionId, index);
      if AgentKey(agentDid) !in raw.rows {
        return Throws(NoSuchAgent);
      }
      if key in raw.rows {
        return Throws(DuplicateKey);
      }
      raw.rows := raw.rows[key := Row(tenantId, Audit(entry))];
      return Done;
    }

    /** A row already there under the key, whoever holds it, is left as it is. */
    method AddRevocation(agentDid: string, kind: Kind, subjectId: string, reason: Option<string>) returns (r: Reply)
      modifies raw
      ensures (raw.rows, r) == Apply(old(raw.rows), tenantId, Op.AddRevocation(agentDid, kind, subjectId, reason))
      ensures var key := RevocationKey(agentDid, kind, subjectId);
        && r == (if AgentKey(agentDid) !in old(raw.rows) then Throws(NoSuchAgent) else Done)
        && raw.rows == if r.Done? && key !in old(raw.rows) then old(raw.rows)[key := Row(tenantId, Revocation(reason))] else old(raw.rows)
    {
      var key := RevocationKey(agentDid, kind, subjectId);
      if AgentKey(agentDid) !in raw.rows {
        return Throws(NoSuchAgent);
      }
      if key !in raw.rows {
        raw.rows := raw.rows[key := Row(tenantId, Revocation(reason))];
      }
      return Done;
    }

    method IsRevoked(agentDid: string, kind: Kind, subjectId: string) returns (r: Reply)
      ensures (raw.rows, r) == Apply(raw.rows, tenantId, Op.IsRevoked(agentDid, kind, subjectId))
      ensures r == Flag(RevocationKey(agentDid, kind, subjectId) in raw.rows
                        && raw.rows[RevocationKey(agentDid, kind, subjectId)].tenant == tenantId)
    {
      var key := RevocationKey(agentDid, kind, subjectId);
      return Flag(key in raw.rows && raw.rows[key].tenant == tenantId);
    }

    method IncrementUsage(period: string, inbound: nat, outbound: nat) returns (r: Reply)
      modifies raw
      ensures (raw.rows, r) == Apply(old(raw.rows), tenantId, Op.IncrementUsage(period, inbound, outbound))
      ensures var key := UsageKey(tenantId, period);
        && r == Done && key in raw.rows && raw.rows == old(raw.rows)[key := raw.rows[key]]
        && raw.rows[key].tenant == tenantId && raw.rows[key].body.Usage?
        && (key in old(raw.rows) && old(raw.rows)[key].body.Usage? ==>
              raw.rows[key].body == Usage(old(raw.rows)[key].body.inbound + inbound, old(raw.rows)[key].body.outbound + outbound))
        && (key !in old(raw.rows) ==> raw.rows[key].body == Usage(inbound, outbound))
    {
      var key := UsageKey(tenantId, period);
      var before := Usage(0, 0);
      if key in raw.rows && raw.rows[key].body.Usage? {
        before := raw.rows[key].body;
      }
      raw.rows := raw.rows[key := Row(tenantId, Usage(before.inbound + inbound, before.outbound + outbound))];
      return Done;
    }
  }

  lemma ExpiringUpdates(db: Tables, t: Tenant, now: int)
    ensures var due := Due(db, t, now);
      db + (map k | k in due :: Row(t, due[k].body.(status := Expired))) == ExpireDue(db, t, now)
  {
  }

  function Patched(b: Body, patch: map<string, string>): Body {
    if b.Columns? then Columns(b.columns + patch) else b
  }

  ghost predicate OwnLink(db: Tables, t: Tenant, id: string, k: Key)
    requires k in db
  {
    && k.LinkKey? && db[k].tenant == t
    && db[k].body.Columns? && "id" in db[k].body.columns && db[k].body.columns["id"] == id
  }

  predicate IsLink(k: Key, b: Body, id: string) {
    k.LinkKey? && b.Columns? && "id" in b.columns && b.columns["id"] == id
  }

  function AnyRow(rows: Tables): Reply {
    Flag(rows.Keys != {})
  }

  /** Only the messages table holds message rows. */
  ghost predicate MessagesKeyed(db: Tables) {
    forall k :: k in db ==> (k.MessageKey? <==> db[k].body.Message?)
  }

  function CreatedAt(db: Tables, id: nat): int {
    if MessageKey(id) in db && db[MessageKey(id)].body.Message? then db[MessageKey(id)].body.createdAt else 0
  }

  /** In order of age, and none of the rest is older. */
  ghost predicate OldestFirst(db: Tables, ids: seq<nat>, rest: set<nat>) {
    && (forall i, j :: 0 <= i < j < |ids| ==> CreatedAt(db, ids[i]) <= CreatedAt(db, ids[j]))
    && (forall i, id :: 0 <= i < |ids| && id in rest ==> CreatedAt(db, ids[i]) <= CreatedAt(db, id))
  }

  /** The queued messages are those in `ids`, each once and in order of age, and those in `rest`. */
  ghost predicate Sorted(db: Tables, t: Tenant, agentDid: string, ids: seq<nat>, rest: set<nat>) {
    && Distinct(ids)
    && (forall id :: id in ids || id in rest <==> MessageKey(id) in QueuedFor(db, t, agentDid))
    && (forall i :: 0 <= i < |ids| ==> ids[i] !in rest)
    && OldestFirst(db, ids, rest)
  }

  lemma OldestFirstStep(db: Tables, ids: seq<nat>, rest: set<nat>, id: nat)
    requires OldestFirst(db, ids, rest)
    requires id in rest && forall other :: other in rest ==> CreatedAt(db, id) <= CreatedAt(db, other)
    ensures OldestFirst(db, ids + [id], rest - {id})
  {
  }

  lemma SortedStep(db: Tables, t: Tenant, agentDid: string, ids: seq<nat>, rest: set<nat>, id: nat)
    requires Sorted(db, t, agentDid, ids, rest)
    requires id in rest && forall other :: other in rest ==> CreatedAt(db, id) <= CreatedAt(db, other)
    ensures Sorted(db, t, agentDid, ids + [id], rest - {id})
  {
    OldestFirstStep(db, ids, rest, id);
  }

  /** `ids` are queued messages of the agent, oldest first, and none left out is older. */
  ghost predicate Claimed(db: Tables, t: Tenant, agentDid: string, limit: nat, ids: seq<nat>) {
    && Distinct(ids) && |ids| <= limit
    && (forall i :: 0 <= i < |ids| ==> Waits(db, t, agentDid, ids[i]))
    && (forall i, j :: 0 <= i < j < |ids| ==> db[MessageKey(ids[i])].body.createdAt <= db[MessageKey(ids[j])].body.createdAt)
    && (forall i, id :: 0 <= i < |ids| && Waits(db, t, agentDid, id) && id !in ids ==>
          db[MessageKey(ids[i])].body.createdAt <= db[MessageKey(id)].body.createdAt)
    && (|ids| < limit ==> forall id :: Waits(db, t, agentDid, id) ==> id in ids)
  }

  /** The tenant's message is queued for the agent. */
  ghost predicate Waits(db: Tables, t: Tenant, agentDid: string, id: nat) {
    && MessageKey(id) in db && db[MessageKey(id)].tenant == t && db[MessageKey(id)].body.Message?
    && db[MessageKey(id)].body.agentDid == agentDid && db[MessageKey(id)].body.status.Queued?
  }

  lemma SortedIsClaimed(db: Tables, t: Tenant, agentDid: string, limit: nat, ids: seq<nat>, rest: set<nat>)
    requires MessagesKeyed(db) && Sorted(db, t, agentDid, ids, rest)
    requires |ids| <= limit && (|ids| < limit ==> rest == {})
    ensures Claimed(db, t, agentDid, limit, ids)
  {
    forall id ensures Waits(db, t, agentDid, id) <==> id in ids || id in rest {
    }
  }

  lemma {:induction false} EarliestExists(db: Tables, ids: set<nat>)
    requires ids != {}
    ensures exists id :: id in ids && forall other :: other in ids ==> CreatedAt(db, id) <= CreatedAt(db, other)
  {
    var one :| one in ids;
    if ids != {one} {
      EarliestExists(db, ids - {one});
      var best :| best in ids - {one} && forall other :: other in ids - {one} ==> CreatedAt(db, best) <= CreatedAt(db, other);
      var id := if CreatedAt(db, one) < CreatedAt(db, best) then one else best;
      assert forall other :: other in ids ==> other == one || other in ids - {one};
      assert id in ids && forall other :: other in ids ==> CreatedAt(db, id) <= CreatedAt(db, other);
    }
  }
}
