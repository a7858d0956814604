# ARP cloud: a verified model of its stateful cores

This project models the parts of the ARP cloud whose behaviour depends on who runs in between,
what crashes, and what reconnects, and proves what they keep. Every theorem is about all inputs,
all schedules or all runs of the model; nothing is bounded.

Check everything with `dafny verify dfyconfig.toml`.

## How the model is built

* A component that changes variables in place is a `class` whose methods do what the code does,
  statement by statement. Each method is proved against a specification function, or states the
  new state and the answer outright.
* Where several calls interleave, each awaited database call is one atomic step of a state
  machine and a schedule is any sequence of steps by any number of callers. The classes that
  run inside such a schedule (`AuditService`, `GiftDesk`) keep the schedule as ghost state, so
  everything proved about schedules holds for their calls, whatever the other callers do.
* Outside reactions (clocks, sockets, the policy engine, the registrar, adapters, which row a
  LIMIT 1 query returns) are parameters, so every theorem quantifies over them.
* SHA-256 over the RFC 8785 JCS form (section 3.2) is an arbitrary function of the nine hashed
  fields, injective where a lemma says so. JSON printing and parsing of an entry are arbitrary
  functions that invert each other and print no line break.

| file | component |
|---|---|
| `AuditChain.dfy` | the JSONL hash chain: append, reload, split, verify |
| `PostgresAudit.dfy` | the same chain in Postgres under racing writers with eight tries |
| `NameGifts.dfy`, `NameGiftService.dfy` | giving a name to another account, as interleaved statements and as calls |
| `TenantDb.dfy` | tenant-scoped operations on shared tables |
| `Dispatch.dfy`, `Quota.dfy` | one inbound message end to end; many at once against the quota |
| `Sessions.dfy`, `DrainRace.dfy` | the session registry; the drain of queued messages, alone and beside other drains and dispatches |
| `CloudClient.dfy` | the reconnecting client and its outbox |
| `Bridge.dfy` | awaited replies and networks of bridges |
| `Supervisor.dfy` | hot reload of the supervisor's table |
| `Fulfilment.dfy`, `FulfilmentService.dfy` | paid names behind a replaying, crashing webhook |
| `RateLimit.dfy` | the fixed-window limiter |
| `Neon.dfy` | the error-graph walk and the bounded retry |

## What the code does not keep

Where a promise fails for some inputs, the code is modelled as it is, a lemma shows an input for
which it fails, and the condition under which the promise does hold is proved beside it.

* The Postgres `verify` prints each timestamp again from the stored instant, so a chain whose
  caller gave a timestamp in another spelling is reported broken (`OtherSpellingIsRejected`): it
  accepts if and only if all timestamps are canonical (`VerifyAcceptsIffCanonical`). Rows are
  fetched newest first and at most 100000 of them, so every longer chain is reported broken at 0
  (`VerifyRejectsLongChains`, reached in `LongChainIsRejected`).
* `verifyFile` throws on a line that is the JSON text `null` (`NullLineThrows`); the answer type
  has a third case for it.
* An append that loses to eight rivals in turn gives up. What counts is the number of different calls that
  are under way or begin while it runs, itself included: with eight it never happens, whatever
  the table already holds (`EightWritersNeverExhaust`); with nine it can, even if no more than
  two of them are ever under way at one moment (`NineWritersCanExhaust`).
* The rate limiter's comment speaks of a 1.5 times burst at window boundaries; the code allows
  twice the limit, and (k + 1) times the limit over k windows is exact (`BurstBoundIsReached`). A
  request that comes to a window already swept starts its count afresh
  (`LateRequestRefillsWindow`); the counts are right if and only if none does (`AlwaysCountsIff`).
* A revocation is dropped in silence when another tenant already holds its key
  (`RevocationIsDropped`, exactly then: `RevocationSticksIffNoClash`). Deleting an agent takes
  along the rows of other tenants that point at it (`DeletionReachesAcross`, exactly then:
  `OthersUntouched`). A tenant is as if alone at every moment if and only if none of its calls
  clashes and no deletion takes along a row of its own (`AsIfAlone`).
* A throwing socket send lets a later envelope overtake (`ThrowingSendReorders`); the order of
  acceptance is kept if and only if no send goes out directly while something is pending
  (`OrderKeptIff`).
* A second `awaitReply` on a thread that is being awaited takes the reply of the first
  (`RepeatedThreadLosesReply`); replies reach their awaits if and only if no thread is awaited
  while it is being awaited, and none without a name (`EveryReplyArrivesIff`).
* Two overlapping deliveries of one event buy its registration twice
  (`OverlappingDeliveriesBuyTwice`); no registration can be bought twice if and only if no pending
  row is read between another delivery's read and claim (`BuysOnceIff`). The guard is on the
  registration row: two rows for one name make a registrar call each. A delivery that crashes after its claim leaves the row
  `registering` (`CrashAfterClaim`) for good, one that crashes before it does not
  (`CrashIsFinalIff`); a later delivery settles a row if and only if it is not `registering`
  (`DeliverySettlesIff`). A name that was bought and marked registered is refunded and marked
  failed when that update reports an error after it committed (`SoldNameIsTakenBack`); a
  registered row stays so, unrefunded, if and only if no update of it does that (`SoldForGoodIff`).
* Two overlapping `createGift` calls leave two live links (`OverlappingCreatesLeaveTwoLinks`);
  there is never more than one per giver and name if and only if no link is inserted beside a
  pending one (`OneLinkEachIff`).
* A gift cancelled or expired between a claim's lookup and its flip is answered "already
  accepted" (`CancelledGiftIsCalledAccepted`); the answer is true if and only if some claim holds
  or has moved the gift (`AlreadyClaimedIsTrueIff`).
* A drain that overlaps another, or the dispatch of a row it claims (`DrainBesideDispatch`), or that
  follows one whose marking failed, hands rows over again; none is handed over twice if and only
  if no claim takes a row handed over before or still carried by a drain or by its own dispatch
  (`HandedOnceIff`).
* A config that lists a new folder twice makes two table entries (`RepeatedFolderMakesTwo`); there is
  one entry per folder if and only if no config of the history did that (`TableFollowsConfig`).
* A session id used by two agents leaves one of them in the registry after removal
  (`ReusedIdStaysBehind`, exact condition in `AgreementIff`).
* A connection named in the message is taken as it is, whoever the sender is
  (`NamedConnectionOfOthers`); the sender is a party to the connection if and only if the one
  named joins sender and agent (`SenderIsPartyIff`).
* `isConnectFailure` answers no when a part that does fail to connect is listed twice
  (`SharedPartIsMissed`); it never answers yes wrongly.
* The comment at packages/cloud-runtime/src/dispatch.ts:167 relies on a unique `msg_id` against
  replays; the schema has a plain index only, and the model follows the schema. The same message
  dispatched twice leaves two rows (`DispatchTwice`). While its connection stays open, permitted
  and under the cap, each further dispatch lets it in again if and only if it names no creation
  time or one within five minutes of the clock (`ReplayLetInIff`).

## Model

| member | source | states |
|---|---|---|
| AuditChain.GenesisIsZeros | packages/audit/src/types.ts:8-8 | the first entry points to `sha256:` and 64 zeros |
| AuditChain.AppendKeepsChain | packages/audit/src/log.ts:68-86 | sealing the tail's number and hash into a new entry extends a well-formed chain by one and leaves the tail at the new entry |
| AuditChain.SameHashSamePrefix | packages/audit/src/log.ts:15-27 | with an injective hash, two verified logs that agree on the hash of one entry agree on the whole prefix up to it, at the same index |
| AuditChain.LastHashDeterminesLog | packages/audit/src/log.ts:120-169 | two non-empty verified logs have the same last self hash if and only if they are the same log |
| AuditChain.RightAnswerUnique | packages/audit/src/log.ts:120-169 | the answer a verifier should give (intact with the count, or the least break and the first check that fails there) is unique |
| AuditChain.NullLineThrows | packages/audit/src/log.ts:132-141 | after a sound chain a line holding the literal null makes verification throw |
| AuditChain.VerifyLines | packages/audit/src/log.ts:126-169 | the loop gives that answer on any list of lines, parsed or not |
| AuditChain.SplitFirstLine | packages/audit/src/log.ts:107-107 | splitting text at line breaks peels off its first line |
| AuditChain.LinesOfAppended | packages/audit/src/log.ts:82-82 | appending a line and a break to a file that ends a line appends that one line to its lines |
| AuditChain.LinesRecoverEntries | packages/audit/src/log.ts:124-125 | splitting and parsing the file of a log recovers exactly the appended entries |
| AuditChain.VerifyFile | packages/audit/src/log.ts:120-170 | a missing file is intact and empty; any other file gets the right answer for its lines |
| AuditChain.RenderNotBlank | packages/audit/src/log.ts:104-106 | a file with an entry in it is never taken for a blank one |
| AuditChain.TailReload | packages/audit/src/log.ts:98-118 | reloading the tail from the file gives the count and the last hash a running writer has |
| AuditChain.AuditLog.Open | packages/audit/src/log.ts:54-61 | the tail in memory is the one loaded from any file whose last line can be read; over the file of a chain the log is that chain's |
| AuditChain.LogIsLoaded | packages/audit/src/log.ts:98-118 | the file of a chain loads its tail and parses back to its entries |
| AuditChain.LogIsUnique | packages/audit/src/log.ts:107-112 | a file is the log of one chain at most |
| AuditChain.AuditLog.OpenAuditLog | packages/audit/src/log.ts:54-118 | a missing or blank file starts afresh; any other continues the entry on its last line; opening fails exactly if that line is not an entry, and says whether it was JSON |
| AuditChain.AuditLog.Append | packages/audit/src/log.ts:68-86 | the entry says what the caller asked to record, field by field, with the defaults for what was not given, and the number and hash of the tail in memory; the file gains exactly its line and the tail follows; the log of a chain stays one |
| AuditChain.AuditLog.Verify | packages/audit/src/log.ts:87-89 | the right answer for the file's lines; on the log of a chain, intact with the number of entries |
| AuditChain.RunLog | packages/audit/src/log.ts:54-118 | for any run of appends with closes and reopens in between, entry j says what append operation j asked to record and points to the entry before it, the file is their text, splitting and parsing recovers them, the reloaded tail is theirs, and verification succeeds with their number |
| PostgresAudit.TakenIffBelow | packages/cloud-runtime/src/audit.ts:74-80 | in a reachable table a sequence number is taken exactly if it is below the row count |
| PostgresAudit.ReadIsFresh | packages/cloud-runtime/src/audit.ts:84-103 | a read hands the caller the number and hash of the current tail |
| PostgresAudit.LostTryHasRival | packages/cloud-runtime/src/audit.ts:126-137 | a failed insert collided with a row another call inserted after this call's read |
| PostgresAudit.StepKeepsInv | packages/cloud-runtime/src/audit.ts:74-144 | every step of every caller, failing statements and lost replies included, keeps the chain and every call's account of itself |
| PostgresAudit.EveryScheduleKeepsChain | packages/cloud-runtime/src/audit.ts:74-144 | under every schedule the rows form one chain 0..n-1 and no row ever changes |
| PostgresAudit.OutcomeTellsWhatWasWritten | packages/cloud-runtime/src/audit.ts:125-143 | a call that returned inserted exactly its returned entry, which says what the call asked to record; a call that gave up on a race inserted nothing |
| PostgresAudit.OneRowPerCall | packages/cloud-runtime/src/audit.ts:83-143 | no call ever inserts two rows |
| PostgresAudit.EveryLossHasItsOwnWinner | packages/cloud-runtime/src/audit.ts:81-143 | a call that lost n tries was beaten by n different other calls |
| PostgresAudit.EightWritersNeverExhaust | packages/cloud-runtime/src/audit.ts:81-143 | from any reachable table on, if the calls under way and those begun later are at most eight different ones, no call begun later runs out of tries |
| PostgresAudit.EveryScheduleSince | packages/cloud-runtime/src/audit.ts:81-143 | under every schedule from any reachable table on, later rows are written by the calls then under way or begun later, and a call begun later reads and collides with later rows alone |
| PostgresAudit.NineWritersCanExhaust | packages/cloud-runtime/src/audit.ts:81-143 | with nine calls, never more than two of them under way, there is a schedule in which one gives up: eight is exact |
| PostgresAudit.AuditService.constructor | packages/cloud-runtime/src/audit.ts:49-56 | the table starts empty, at the end of the empty schedule |
| PostgresAudit.AuditService.ReadTail | packages/cloud-runtime/src/audit.ts:84-103 | reading the tail is the read step of the schedule |
| PostgresAudit.AuditService.FailStatement | packages/cloud-runtime/src/audit.ts:126-137 | a failing statement changes no row and makes the call throw |
| PostgresAudit.AuditService.TryInsert | packages/cloud-runtime/src/audit.ts:106-142 | the insert returns the sealed entry, throws (a failing statement or a lost reply included), or goes round again exactly as the step of the schedule says, and goes round only before the eighth try |
| PostgresAudit.AuditService.TryOnce | packages/cloud-runtime/src/audit.ts:83-142 | one pass is a read, whatever the others do, and a write, each of which may fail |
| PostgresAudit.AuditService.TryNext | packages/cloud-runtime/src/audit.ts:83-142 | a try ends the call or leads to the next one, and the latter only after a lost race |
| PostgresAudit.AuditService.Retry | packages/cloud-runtime/src/audit.ts:83-143 | the loop tries until one try ends the call, at most eight times |
| PostgresAudit.AuditService.Append | packages/cloud-runtime/src/audit.ts:74-144 | the retry loop refines the step machine: table and outcome are those of the schedule that interleaves its statements, failing ones included, with anything the others do; only a lost race is tried again and it gives up on one only after eight tries; the entry it returns says, field by field, what its caller asked to record |
| PostgresAudit.NewestInOrder | packages/cloud-runtime/src/audit.ts:154-155 | reading the k newest rows newest first and sorting by number gives the last k rows in order |
| PostgresAudit.VerifyRows | packages/cloud-runtime/src/audit.ts:156-175 | the loop gives the right answer, the one of the file verifier, for the rows read back |
| PostgresAudit.Verify | packages/cloud-runtime/src/audit.ts:152-176 | the Postgres verifier gives the file verifier's answer on the newest 100000 rows |
| PostgresAudit.RowsAscend | packages/cloud-runtime/src/audit.ts:152-155 | the rows of a reachable table ascend by number, which is all `Verify` asks of its table |
| PostgresAudit.RowIsLinked | packages/cloud-runtime/src/audit.ts:58-71 | a row of a reachable table never fails its number or its previous hash |
| PostgresAudit.RowChecksIffCanonical | packages/cloud-runtime/src/audit.ts:58-71 | a row of a reachable table checks exactly if its timestamp is printed back as it was hashed |
| PostgresAudit.VerifyAcceptsIffCanonical | packages/cloud-runtime/src/audit.ts:152-176 | up to the read limit, verification of any reachable table succeeds if and only if every timestamp was canonical, and otherwise names the first that was not |
| PostgresAudit.VerifyRejectsLongChains | packages/cloud-runtime/src/audit.ts:154-163 | beyond the read limit the answer is a break at 0 whatever the rows are |
| PostgresAudit.SerialRows | packages/cloud-runtime/src/audit.ts:74-144 | for every n a run of n appends, one after the other, leaves n rows |
| PostgresAudit.LongChainIsRejected | packages/cloud-runtime/src/audit.ts:154-163 | such a run of 100001 appends, which `verify` calls broken at 0 |
| PostgresAudit.OtherSpellingIsRejected | packages/cloud-runtime/src/audit.ts:58-71 | one append with a non-canonical timestamp, a sound chain as hashed, which `verify` calls broken at 0 |
| PostgresAudit.TwoSpellingsOfOneInstant | packages/cloud-runtime/src/audit.ts:58-71 | an environment in which an instant has a canonical and another spelling |
| NameGifts.StepKeepsInv | apps/cloud/lib/name-gifts.ts:81-204 | every single statement keeps owners, gifts, claims and moves consistent |
| NameGifts.EveryScheduleKeepsInv | apps/cloud/lib/name-gifts.ts:81-204 | so does every interleaving of any number of calls |
| NameGifts.MovesDiffer | apps/cloud/lib/name-gifts.ts:181-204 | no gift moves a registration twice |
| NameGifts.OwnerHistoriesArePaths | apps/cloud/lib/name-gifts.ts:81-204 | every registration's owners form a path whose every step is one gift sent by the owner just before, ending at the owner in the table; no gift makes two steps |
| NameGifts.ClaimedIffMoved | apps/cloud/lib/name-gifts.ts:181-204 | with no claim in flight, claimed gifts and moves correspond one to one |
| NameGifts.OneLinkStepIff | apps/cloud/lib/name-gifts.ts:99-114 | one statement keeps at most one pending link per giver and name if and only if it does not insert one beside a pending one |
| NameGifts.OneLinkEachIff | apps/cloud/lib/name-gifts.ts:80-129 | under a schedule there is always at most one if and only if no statement does that |
| NameGifts.NoInsertNoNewLink | apps/cloud/lib/name-gifts.ts:80-204 | without an insert for a name its pending links can only become fewer |
| NameGiftService.GiftDesk.CancelGift | apps/cloud/lib/name-gifts.ts:122-129 | the answer tells whether a link was pending; none is left; no other link is touched |
| NameGiftService.GiftDesk.PickRegistration | apps/cloud/lib/name-gifts.ts:88-97 | a registration is picked only if the giver holds it under the name and it can be given |
| NameGiftService.GiftDesk.ClearEarlierLinks | apps/cloud/lib/name-gifts.ts:99-102 | afterwards no link of the giver for the name is pending |
| NameGiftService.GiftDesk.InsertLink | apps/cloud/lib/name-gifts.ts:104-117 | exactly one new pending link appears beside those there are, unless its id or token is taken |
| NameGiftService.GiftDesk.CreateGift | apps/cloud/lib/name-gifts.ts:81-119 | a link is made only for a giftable registration the giver held, as specified; none is pending once the earlier ones are cancelled, and the new one stands beside exactly those pending after whatever ran since, alone if nobody inserted one; it is good for thirty days |
| NameGiftService.GiftDesk.FindGift | apps/cloud/lib/name-gifts.ts:171-179 | the gift found is pending, unexpired, carries the token and is somebody else's; a refusal as claimed, cancelled, expired or own is true of the row of a gift that carries it |
| NameGiftService.GiftDesk.FlipGift | apps/cloud/lib/name-gifts.ts:181-187 | the flip succeeds exactly if the gift is pending and unexpired, and is the compare-and-set step |
| NameGiftService.GiftDesk.MoveRegistration | apps/cloud/lib/name-gifts.ts:194-200 | the move happens exactly if the giver still holds the registration, and then the recipient holds it |
| NameGiftService.GiftDesk.UndoFlip | apps/cloud/lib/name-gifts.ts:200-204 | the undone gift is cancelled and nothing has moved |
| NameGiftService.GiftDesk.ClaimGift | apps/cloud/lib/name-gifts.ts:165-204 | whatever runs in between, a claim ends by what its lookup, its flip and its move found: refused at lookup for the reason that applies, refused as accepted exactly if the gift could not be flipped, refused as gone exactly if the giver no longer held the name, else with one move to the recipient; it leaves nothing in flight |
| NameGiftService.AlreadyClaimedIsTrueIff | apps/cloud/lib/name-gifts.ts:181-187 | after a failed flip some claim holds or has moved the gift if and only if it was not cancelled and has not expired |
| NameGiftService.CancelledGiftIsCalledAccepted | apps/cloud/lib/name-gifts.ts:171-187 | a gift found, then cancelled, is refused as already accepted although no claim ever flipped it |
| NameGiftService.OverlappingCreatesLeaveTwoLinks | apps/cloud/lib/name-gifts.ts:80-119 | two overlapping creates leave two pending links for one name |
| TenantDb.ApplyKeepsSound | packages/cloud-db/src/tenant-db.ts:247-804 | every operation keeps rows under tenant keys with their tenant |
| TenantDb.OthersUntouched | packages/cloud-db/src/tenant-db.ts:247-804 | a call leaves another tenant's rows unchanged if and only if it is not a deletion that takes some of them along |
| TenantDb.OwnViewSuffices | packages/cloud-db/src/tenant-db.ts:247-804 | without a clash on a key lacking a tenant id or on a unique column, a call changes and answers exactly what it would on the tenant's own rows, with any WHERE condition and any order and limit of the answer |
| TenantDb.AsIfAloneStepIff | packages/cloud-db/src/tenant-db.ts:247-804 | and only without one |
| TenantDb.NextAsAloneIff | packages/cloud-db/src/tenant-db.ts:247-804 | a tenant that was as if alone stays so over the next call of anybody if and only if that call does not clash, being its own, and takes along no row of it, being another's |
| TenantDb.AsIfAlone | packages/cloud-db/src/tenant-db.ts:247-804 | over any interleaving of any tenants' calls, a tenant has at every moment the rows and answers it would have had on a private database if and only if every call was so |
| TenantDb.RevocationSticksIffNoClash | packages/cloud-db/src/tenant-db.ts:700-726 | an added revocation is seen afterwards if and only if nobody else held its key |
| TenantDb.RevocationIsDropped | packages/cloud-db/src/tenant-db.ts:700-726 | a second tenant's revocation under a held key is accepted, changes nothing and is not seen |
| TenantDb.DeletionReachesAcross | packages/cloud-db/src/tenant-db.ts:292-294 | one tenant's deletion of its agent removes another tenant's queued message |
| TenantDb.LinkMadeIffFree | packages/cloud-db/src/tenant-db.ts:348-363 | a link is made if and only if nobody holds its agent, kind and value; somebody else's is not seen |
| TenantDb.SessionRowIsRead | packages/cloud-db/src/tenant-db.ts:397-413 | a registration made with a checkout session is read back with it, unless its id or session is taken by anybody; then it throws and nothing changes |
| TenantDb.StatusIsRead | packages/cloud-db/src/tenant-db.ts:454-486 | a status and reason that were set are read back, and the connection is listed under that status and no other |
| TenantDb.TouchIsRead | packages/cloud-db/src/tenant-db.ts:487-492 | so is the time of the last message, and nothing else about the connection has changed |
| TenantDb.AgentIsRead | packages/cloud-db/src/tenant-db.ts:265-294 | an agent created, updated and deleted is read with the profile given last, listed for its tenant alone, and then gone |
| TenantDb.FailureIsRead | packages/cloud-db/src/tenant-db.ts:510-528 | a failed message keeps why it failed and is claimed for no agent |
| TenantDb.AuditIsRead | packages/cloud-db/src/tenant-db.ts:566-631 | an appended entry is listed and counted for its agent and connection and for no other |
| TenantDb.UsageIsRead | packages/cloud-db/src/tenant-db.ts:737-769 | the counter read is the sum of what was added |
| TenantDb.Store.CreateAgent | packages/cloud-db/src/tenant-db.ts:277-285 | inserts the row or throws on a taken did, as the specification says |
| TenantDb.Store.GetAgent | packages/cloud-db/src/tenant-db.ts:269-276 | finds the agent only in its own tenant |
| TenantDb.Store.DeleteAgent | packages/cloud-db/src/tenant-db.ts:292-294 | deletes an own agent with every row that points at it, and nothing else |
| TenantDb.Store.CreateConnection | packages/cloud-db/src/tenant-db.ts:472-480 | inserts under the tenant's key with the given status or active, or throws on a missing agent or a taken id |
| TenantDb.Store.CreateLink | packages/cloud-db/src/tenant-db.ts:348-363 | inserts, or throws on a taken agent, kind and value, whoever holds it |
| TenantDb.Store.DeleteLink | packages/cloud-db/src/tenant-db.ts:388-394 | deletes the tenant's own link with the id and says whether there was one |
| TenantDb.Store.UpsertPushRegistration | packages/cloud-db/src/tenant-db.ts:772-793 | inserts under the tenant's key for the device, or overwrites the columns given |
| TenantDb.Store.SetCheckoutSession | packages/cloud-db/src/tenant-db.ts:444-451 | gives the tenant's registration a session in place of its former one, and throws exactly if another row, whoever holds it, has that session |
| TenantDb.Store.UpdateConnectionStatus | packages/cloud-db/src/tenant-db.ts:481-486 | sets the status, and the reason only if one is given, of the own connection; keeps its other columns and every other row |
| TenantDb.Store.EnqueueMessage | packages/cloud-db/src/tenant-db.ts:495-503 | inserts a queued row, or throws |
| TenantDb.Store.MarkMessageDelivered | packages/cloud-db/src/tenant-db.ts:504-509 | marks the tenant's own row, whatever its status was, and no other |
| TenantDb.Store.ClaimQueuedMessages | packages/cloud-db/src/tenant-db.ts:516-539 | returns queued messages of the agent oldest first, at most the limit, none left out being older |
| TenantDb.Store.ExpireOldMessages | packages/cloud-db/src/tenant-db.ts:540-553 | expires exactly the tenant's queued rows past their time and counts them |
| TenantDb.Store.AppendAudit | packages/cloud-db/src/tenant-db.ts:566-588 | inserts, or throws on a taken sequence number |
| TenantDb.Store.AddRevocation | packages/cloud-db/src/tenant-db.ts:700-711 | inserts unless the key is taken by anybody, and never throws on that |
| TenantDb.Store.IsRevoked | packages/cloud-db/src/tenant-db.ts:712-726 | sees only the tenant's own revocations |
| TenantDb.Store.IncrementUsage | packages/cloud-db/src/tenant-db.ts:737-761 | adds to the tenant's counter of the period, starting it if needed |
| Dispatch.GetConnection | packages/cloud-db/src/tenant-db.ts:464-471 | finds a connection by id exactly if there is one |
| Dispatch.ResolveConnection | packages/cloud-runtime/src/dispatch.ts:417-456 | finds the connection meant: the one named, else the only active one joining the pair in either orientation; otherwise says which way it failed |
| Dispatch.SenderIsPartyIff | packages/cloud-runtime/src/dispatch.ts:417-456 | the sender is a party to the connection found if and only if none was named or the one named joins agent and sender |
| Dispatch.NamedConnectionOfOthers | packages/cloud-runtime/src/dispatch.ts:127-129 | a response that names a connection of the agent with somebody else is let in |
| Dispatch.Runtime.CheckConnection | packages/cloud-runtime/src/dispatch.ts:127-176 | lets through exactly own, active, unexpired, unrevoked connections with a fresh envelope; names what is wrong otherwise and logs it exactly when it should |
| Dispatch.Runtime.Deliver | packages/cloud-runtime/src/dispatch.ts:288-349 | session, then waiting sender, then push, else queued; the row's final status and the answer for every reaction, a mark that throws after a send included |
| Dispatch.Runtime.Decide | packages/cloud-runtime/src/dispatch.ts:178-349 | on a connection with which nothing is wrong the message is let in exactly if it is a response or permitted, and under the cap; the audit line carries the verdict, the obligations, the policies fired and the reason, the answer the reason as read off its first words |
| Dispatch.Runtime.DispatchVerifiedMessage | packages/cloud-runtime/src/dispatch.ts:101-349 | a message is accepted if and only if the connection meant exists and is admissible; then one allow line with obligations, policies fired and reason, one touched connection, one row, one unit of usage and the right delivery; a refusal leaves no row and no usage, the right reason, and a deny line with it exactly when it should |
| Dispatch.Runtime.DispatchAtTimes | packages/cloud-runtime/src/dispatch.ts:163-285 | one message dispatched any number of times is let in each time exactly as if it had never come before, but for the usage, and leaves a row with its id each time |
| Dispatch.ReplayLetInIff | packages/cloud-runtime/src/dispatch.ts:163-175 | while nothing else stands against it, a dispatch of it lets it in again if and only if it names no time or one within five minutes of the clock |
| Dispatch.DispatchTwice | packages/cloud-runtime/src/dispatch.ts:163-285 | an admissible message dispatched twice at one moment leaves two rows with one message id |
| Quota.GateOpensIff | packages/cloud-runtime/src/dispatch.ts:232-267 | the gate opens exactly to what the policy permits below the cap; what it refuses leaves a deny line, no row and no usage |
| Quota.StepAtGate | packages/cloud-runtime/src/dispatch.ts:232-285 | a dispatch enters the gate only below the cap and counts only when it leaves |
| Quota.UsageBounded | packages/cloud-runtime/src/dispatch.ts:232-285 | with at most k dispatches at once, monthly usage never exceeds cap + k - 1 |
| Quota.BoundIsAttained | packages/cloud-runtime/src/dispatch.ts:232-285 | for every cap and k some schedule reaches cap + k - 1 |
| Quota.LedgerOrdered | packages/cloud-runtime/src/dispatch.ts:247-285 | at every step allow lines >= inbound rows >= counted usage, and the differences are exactly the dispatches in between, crashed ones included |
| Sessions.NextAgreesIff | packages/cloud-runtime/src/sessions.ts:26-45 | an event keeps the two indexes in agreement if and only if it does not add a session under another agent's live id |
| Sessions.AgreementIff | packages/cloud-runtime/src/sessions.ts:21-65 | the indexes agree after every event of a run if and only if no event does that |
| Sessions.UniqueIdsAreHarmless | packages/cloud-runtime/src/sessions.ts:21-65 | globally unique session ids are enough |
| Sessions.RegistryHoldsLastAdded | packages/cloud-runtime/src/sessions.ts:21-65 | then both indexes hold exactly, for every agent, its last added session unless that one was removed |
| Sessions.LateRemoveChangesNothing | packages/cloud-runtime/src/sessions.ts:36-45 | removing a session that is not its agent's latest changes nothing |
| Sessions.ReusedIdStaysBehind | packages/cloud-runtime/src/sessions.ts:36-45 | a session id reused for another agent leaves the first agent registered after every removal |
| Sessions.SessionRegistry.constructor | packages/cloud-runtime/src/sessions.ts:21-23 | the registry of the empty history |
| Sessions.SessionRegistry.Add | packages/cloud-runtime/src/sessions.ts:26-35 | the registry moves by one added event and closes the session that is superseded |
| Sessions.SessionRegistry.Remove | packages/cloud-runtime/src/sessions.ts:36-45 | the registry moves by one removed event |
| Sessions.SessionRegistry.GetByAgent | packages/cloud-runtime/src/sessions.ts:46-49 | the agent's session, exactly if it is open |
| Sessions.SessionRegistry.ListByTenant | packages/cloud-runtime/src/sessions.ts:54-60 | exactly the tenant's open sessions, each once |
| Sessions.MarkedRows | packages/cloud-db/src/tenant-db.ts:504-509 | marking a list of messages changes the status of those rows and nothing else |
| Sessions.Through | packages/cloud-runtime/src/dispatch.ts:359-380 | the messages before the first one whose send or marking throws |
| Sessions.SendAll | packages/cloud-runtime/src/dispatch.ts:359-380 | with no other drain in between, the loop hands over and marks exactly those, in order, and hands over one more only if it is the marking that threw |
| Sessions.DrainQueue | packages/cloud-runtime/src/dispatch.ts:353-382 | with no other drain in between and an open session a creation-order prefix of the claimed rows is marked delivered and nothing else changes; without one nothing happens |
| Sessions.QueueAfterDrain | packages/cloud-runtime/src/dispatch.ts:353-382 | the rest stays queued, and nothing still queued is older than anything drained |
| DrainRace.StepKeepsInv | packages/cloud-runtime/src/dispatch.ts:271-382 | every await of every dispatch and drain keeps each row handed over at most once, unless a claim takes again what was handed over or is carried |
| DrainRace.FailureEndsDrain | packages/cloud-runtime/src/dispatch.ts:372-379 | a send or mark that throws ends the drain: it hands over nothing more |
| DrainRace.MarkedIsNotClaimed | packages/cloud-runtime/src/dispatch.ts:374-374 | a row that was marked is off the queue: no claim takes it again |
| DrainRace.DrainGetsThere | packages/cloud-runtime/src/dispatch.ts:287-380 | a drain or dispatch that carries a row can go on until it hands it over |
| DrainRace.HandedOnceIff | packages/cloud-runtime/src/dispatch.ts:271-382 | in a run of dispatches and drains no row can be handed over twice if and only if no claim does that |
| DrainRace.DrainBesideDispatch | packages/cloud-runtime/src/dispatch.ts:273-304 | a row inserted by a dispatch, drained on connect and then sent by its dispatch is handed over twice |
| CloudClient.CloseSocket | packages/cloud-client/src/client.ts:322-328 | closing a socket closes no other and reports nothing yet |
| CloudClient.ReactKeeps | packages/cloud-client/src/client.ts:84-93 | whatever a callback does, until a stop it changes nothing about the connection |
| CloudClient.StepKeepsInv | packages/cloud-client/src/client.ts:120-229 | every event with re-entrant callbacks keeps sockets, activity and delays in order |
| CloudClient.EveryRunKeepsInv | packages/cloud-client/src/client.ts:120-229 | in every reachable state until a stop exactly one of signing, one live socket, armed timer is going on; after it no timer is armed; connected implies a current socket; the delays are those of the backoff |
| CloudClient.BackoffMonotone | packages/cloud-client/src/client.ts:120-124 | delays never decrease over consecutive failures and never exceed the maximum |
| CloudClient.BackoffDoubles | packages/cloud-client/src/client.ts:120-124 | the first delay is the initial one; each of the next ten doubles it, up to the maximum |
| CloudClient.StopEffect | packages/cloud-client/src/client.ts:309-329 | a stop leaves no timer and no current socket whatever the callback does, and closes the current socket alone |
| CloudClient.OpenedEffect | packages/cloud-client/src/client.ts:149-174 | an open socket resets the backoff, arms its token timer, is announced, and flushes all that is pending unless something throws |
| CloudClient.OtherEvents | packages/cloud-client/src/client.ts:126-216 | a shutdown notice resets the backoff and closes the socket, a failed signing waits the next backoff, the timer starts the next try, the token timer closes its socket |
| CloudClient.EveryRunConserves | packages/cloud-client/src/client.ts:84-118 | over every run each accepted envelope is handed to a socket once or pending, never both and never lost |
| CloudClient.SendKeepsOrderIff | packages/cloud-client/src/client.ts:330-359 | from an ordered outbox a send keeps the order if and only if it does not go out directly while something is pending; a throwing one keeps it |
| CloudClient.FlushKeepsOrder | packages/cloud-client/src/client.ts:95-118 | a flush keeps the order wherever it throws |
| CloudClient.EveryRunKeepsLined | packages/cloud-client/src/client.ts:84-118 | over every run tickets stay numbered, and after an overtaking the envelope passed stays behind the one that passed it |
| CloudClient.EveryRunNotesIff | packages/cloud-client/src/client.ts:84-118 | the first overtaking of a run is noted if and only if one of its events, or a call it provokes, sends directly while something is pending |
| CloudClient.OrderKeptIff | packages/cloud-client/src/client.ts:84-118 | over every run, throws and re-entrant callbacks included, handed over plus pending is the order of acceptance if and only if none of the events does that |
| CloudClient.OrderlyRunsKeepOrder | packages/cloud-client/src/client.ts:84-118 | in particular it is if no send throws and callbacks do not call back |
| CloudClient.ThrowingSendReorders | packages/cloud-client/src/client.ts:346-358 | with one throwing send on an open socket it need not be |
| CloudClient.CloudClientHandle.Create | packages/cloud-client/src/client.ts:303-304 | the client starts connecting |
| CloudClient.CloudClientHandle.RunCallback | packages/cloud-client/src/client.ts:84-93 | a callback's calls take effect one after the other, nested ones included |
| CloudClient.CloudClientHandle.SendOutboundEnvelope | packages/cloud-client/src/client.ts:330-359 | hands the envelope over, or keeps it |
| CloudClient.CloudClientHandle.StopClient | packages/cloud-client/src/client.ts:309-329 | stopped, no timers, no current socket |
| CloudClient.CloudClientHandle.FlushPendingOutbound | packages/cloud-client/src/client.ts:95-118 | the loop hands over all that is pending, or all before the send that throws |
| CloudClient.CloudClientHandle.ArmReconnect | packages/cloud-client/src/client.ts:283-293 | arms the timer with the next backoff unless stopped |
| CloudClient.CloudClientHandle.BeginConnect | packages/cloud-client/src/client.ts:126-131 | starts signing unless stopped |
| CloudClient.CloudClientHandle.FinishConnect | packages/cloud-client/src/client.ts:137-148 | opens a socket, or schedules the next try |
| CloudClient.CloudClientHandle.OnOpen | packages/cloud-client/src/client.ts:149-174 | announces, flushes, resets the backoff, arms the token timer |
| CloudClient.CloudClientHandle.OnClose | packages/cloud-client/src/client.ts:218-228 | drops the socket and schedules the next try |
| Bridge.StepAccounted | packages/cloud-bridge/src/bridge.ts:192-203 | every await, reply, timeout and stop keeps each await either armed or settled |
| Bridge.EveryAwaitSettlesOnce | packages/cloud-bridge/src/bridge.ts:269-277 | in every run each await is armed or settled, never both, and a settled outcome never changes |
| Bridge.NextListedIff | packages/cloud-bridge/src/bridge.ts:269-277 | one event keeps every open await the one its thread leads to if and only if it does not await a thread being awaited |
| Bridge.AlwaysListedIff | packages/cloud-bridge/src/bridge.ts:269-277 | over a run they stay so if and only if no event does that |
| Bridge.DistinctThreadsNeverBusy | packages/cloud-bridge/src/bridge.ts:269-277 | threads that differ over the whole run are enough |
| Bridge.AnswerableIffListed | packages/cloud-bridge/src/bridge.ts:343-352 | a reply on its thread resolves an open await if and only if the thread has a name and leads to that await |
| Bridge.EveryReplyArrivesIff | packages/cloud-bridge/src/bridge.ts:269-352 | at every moment of a run a reply would reach every open await if and only if each thread had a name and was not being awaited when it was awaited |
| Bridge.OpenAwaitsAnswered | packages/cloud-bridge/src/bridge.ts:343-352 | then a reply resolves its await and stopping settles all |
| Bridge.StopSettlesAllIff | packages/cloud-bridge/src/bridge.ts:192-198 | stopping settles every await if and only if every one is the one its thread leads to |
| Bridge.RepeatedThreadLosesReply | packages/cloud-bridge/src/bridge.ts:269-277 | with a repeated thread an await can time out although its reply came |
| Bridge.RepliesAreResponses | packages/cloud-bridge/src/bridge.ts:340-364 | what a bridge sends in answer is of a type no bridge answers |
| Bridge.DeliveryShrinks | packages/cloud-bridge/src/bridge.ts:312-426 | each delivery strictly lowers twice the requests plus the responses in flight |
| Bridge.NetworkGoesQuiet | packages/cloud-bridge/src/bridge.ts:354-364 | a closed network of bridges goes quiet within that many deliveries |
| Bridge.RequestsCauseAtMostTwice | packages/cloud-bridge/src/bridge.ts:354-364 | k requests cause at most 2k messages |
| Bridge.ReplyReachesAwaiter | packages/cloud-bridge/src/bridge.ts:343-425 | a request whose adapter answers produces a response that resolves the await on its thread |
| Bridge.DeliveryEffect | packages/cloud-bridge/src/bridge.ts:312-426 | a delivery changes no bridge but the addressee's and adds at most its reply, addressed to the sender |
| Bridge.RequestComesBack | packages/cloud-bridge/src/bridge.ts:343-425 | over the network a request on an awaited thread, once answered, comes back to the bridge that sent it and resolves the await there |
| Bridge.BridgeHandle.AwaitReply | packages/cloud-bridge/src/bridge.ts:269-278 | arms the await and lists it under its thread |
| Bridge.BridgeHandle.OnTimeout | packages/cloud-bridge/src/bridge.ts:271-274 | deletes the thread's entry and rejects the await |
| Bridge.BridgeHandle.HandleMessage | packages/cloud-bridge/src/bridge.ts:312-426 | a denied or undecodable message does nothing; one on an awaited thread resolves exactly that await and alone changes the bridge; of the rest a reply is sent exactly for a request the adapter answers with more than white space, from the addressee to the sender, as a response, on the same thread or on the fresh id |
| Bridge.BridgeHandle.StopBridge | packages/cloud-bridge/src/bridge.ts:192-198 | rejects exactly the listed awaits that have not settled, leaves settled ones as they were, and clears the table |
| Supervisor.AddOneChanges | packages/arp/src/supervisor.ts:315-336 | a live folder is left alone; otherwise its first stopped entry starts again with the bridge it had, or a new entry without one is added, with one attempt counted exactly if the folder cannot be loaded |
| Supervisor.QuietEvents | packages/arp/src/supervisor.ts:146-215 | a start that succeeds clears the attempts, one that fails counts one unless the entry was stopped, a finished stop drops the bridge |
| Supervisor.AddOneEffect | packages/arp/src/supervisor.ts:315-336 | adding a folder makes it live without touching live entries, and keeps roots unique exactly if it was not live |
| Supervisor.ReloadEffect | packages/arp/src/supervisor.ts:293-337 | after a reload the live roots are the config's; entries live before and after are unchanged; unlisted ones are stopped and otherwise unchanged; roots stay unique if and only if the config repeats no new root |
| Supervisor.RepeatedFolderMakesTwo | packages/arp/src/supervisor.ts:315-335 | a new folder listed twice gets two entries |
| Supervisor.TableFollowsConfig | packages/arp/src/supervisor.ts:293-337 | over every history of reloads and background events live roots equal the last config; there is one entry per root if and only if no config ever repeated a folder that was not configured just before |
| Supervisor.SupervisedAgent.Start | packages/arp/src/supervisor.ts:146-155 | a folder that cannot be loaded counts one attempt |
| Supervisor.Host.StopRemovedAgents | packages/arp/src/supervisor.ts:305-312 | the loop stops exactly the entries the config no longer lists |
| Supervisor.Host.FindStoppedAgent | packages/arp/src/supervisor.ts:317-317 | the first stopped entry of the root, or none |
| Supervisor.Host.ReEnable | packages/arp/src/supervisor.ts:318-323 | the entry is live again with a fresh attempt count; no other changes |
| Supervisor.Host.PushNew | packages/arp/src/supervisor.ts:325-334 | one live entry is added at the end |
| Supervisor.Host.CurrentRoots | packages/arp/src/supervisor.ts:302-302 | the roots of the live entries |
| Supervisor.Host.AddAgent | packages/arp/src/supervisor.ts:315-335 | one pass of the loop is one addition of the specification |
| Supervisor.Host.ReloadConfig | packages/arp/src/supervisor.ts:293-337 | the two loops do to the table what the specification says |
| Fulfilment.StepKeepsInv | apps/cloud/lib/registrar.ts:249-325 | every await, crash and replay that does not read a pending row a second time keeps every row's account, and moves each status at most from pending to registering or from registering to registered or failed |
| Fulfilment.EachNameOnce | apps/cloud/lib/registrar.ts:249-325 | for any mix of deliveries, replays and crashes, overlapping or not, without such a second read each registration causes at most one registrar call and at most one refund; unless an update of it to registered reported an error after it committed, it is never registered after a refund and its status only moves onward |
| Fulfilment.SoldForGoodIff | apps/cloud/lib/registrar.ts:294-323 | at no point of such a run could the deliveries under way refund or fail a registered row if and only if no update of it to registered reported an error after it committed |
| Fulfilment.UnheardIsTakenBack | apps/cloud/lib/registrar.ts:294-323 | the delivery that got such an error goes on to refund a payment and fail the row |
| FulfilmentService.SoldNameIsTakenBack | apps/cloud/lib/registrar.ts:294-323 | a run that ends so |
| Fulfilment.PassesThroughRegistering | apps/cloud/lib/registrar.ts:270-325 | a row that was pending and is registered or failed was registering in between |
| Fulfilment.SerialNeverReadsTwice | apps/cloud/lib/registrar.ts:258-264 | deliveries that come one after the other never read a row a second time |
| Fulfilment.TwoPendingBuyTwice | apps/cloud/lib/registrar.ts:258-285 | two deliveries that both read a row pending go on to buy it twice |
| Fulfilment.BuysOnceIff | apps/cloud/lib/registrar.ts:258-285 | at no point of a run could the deliveries under way buy a registration twice if and only if no pending row is read between another delivery's read and claim |
| Fulfilment.CrashLeavesRegistering | apps/cloud/lib/registrar.ts:258-264 | once a row says registering and no delivery owns it, it does so whatever is delivered later, in whatever order, and nothing is bought or refunded |
| Fulfilment.CrashIsFinalIff | apps/cloud/lib/registrar.ts:258-325 | a crash of the delivery that owns a row leaves it registering for good if and only if it comes after the claim and not after an update to registered that committed; before the claim the row is pending again |
| Fulfilment.CrashAfterClaim | apps/cloud/lib/registrar.ts:270-275 | a run that ends so, with nothing bought and nobody at work |
| FulfilmentService.DeliverySettlesIff | apps/cloud/lib/billing.ts:107-113 | an uninterrupted delivery of an unseen event leaves its row registered or failed if and only if it was not registering |
| Fulfilment.OverlappingDeliveriesBuyTwice | apps/cloud/lib/billing.ts:107-113 | two overlapping deliveries of one event make two registrar calls |
| FulfilmentService.Registrar.FulfilNameCheckout | apps/cloud/lib/registrar.ts:249-325 | uninterrupted, it skips, registers, or fails with a refund exactly when there was a payment, and says which |
| FulfilmentService.Registrar.HandleStripeWebhook | apps/cloud/lib/billing.ts:98-113 | uninterrupted, one delivery does exactly what the machine's steps for it do, and is processed exactly if its event was not seen |
| FulfilmentService.WholeDeliveryState | apps/cloud/lib/billing.ts:107-113 | the machine's steps of an uninterrupted delivery end finished, with the event noted and the row and calls fulfilment makes of them |
| RateLimit.AlignDownIff | apps/cloud/lib/rate-limit.ts:49-50 | a moment belongs to an aligned window exactly if it lies in it |
| RateLimit.RetryAfterReachesNextWindow | apps/cloud/lib/rate-limit.ts:71-71 | waiting the advertised seconds lands in the very next window, and one second less does not |
| RateLimit.InOrderIsTimely | apps/cloud/lib/rate-limit.ts:73-82 | with nondecreasing request times no sweep is ahead of a later request by even an hour |
| RateLimit.CountsStepIff | apps/cloud/lib/rate-limit.ts:53-67 | one request or sweep keeps every counter equal to its window's requests if and only if it is not a request to a window that had requests and was swept |
| RateLimit.AlwaysCountsIff | apps/cloud/lib/rate-limit.ts:53-82 | over a run the counters are always right if and only if there is no such request |
| RateLimit.TimelyNeverRefills | apps/cloud/lib/rate-limit.ts:73-82 | requests no more than an hour behind every earlier sweep are never such |
| RateLimit.WindowAcceptsUpToLimit | apps/cloud/lib/rate-limit.ts:45-92 | without one, and despite sweeps at any point, a window accepts exactly the first `limit` of its requests |
| RateLimit.BurstBound | apps/cloud/lib/rate-limit.ts:45-92 | any half-open interval of k window lengths accepts at most (k + 1) * limit |
| RateLimit.BurstBoundIsReached | apps/cloud/lib/rate-limit.ts:9-14 | for every plan and every k an orderly run reaches that bound |
| RateLimit.RefillCanOverfill | apps/cloud/lib/rate-limit.ts:73-92 | after one, more requests at the same moment take the window past its limit |
| RateLimit.LateRequestRefillsWindow | apps/cloud/lib/rate-limit.ts:73-82 | a request more than an hour behind a sweep can fill its window a second time |
| RateLimit.Limiter.CheckRateLimit | apps/cloud/lib/rate-limit.ts:45-92 | one counter goes up by one; the request passes exactly if the new count is within the limit, with what remains of it, and is told to wait to the end of the window |
| RateLimit.Limiter.Sweep | apps/cloud/lib/rate-limit.ts:73-82 | deletes exactly the windows that ended an hour before |
| RateLimit.Limiter.CheckDualRateLimit | apps/cloud/lib/rate-limit.ts:99-120 | both counters go up by one whichever refuses, nothing else changes, and it passes exactly if both allow it; the first refusal is the answer |
| Neon.WalkSound | packages/cloud-db/src/neon.ts:40-51 | on every finite graph, cyclic or shared, a yes means the and/or reading holds, within as many levels as there are unseen nodes |
| Neon.WalkComplete | packages/cloud-db/src/neon.ts:40-51 | where no node that holds is reached by two routes, whatever holds is found |
| Neon.ConnectFailureMeaning | packages/cloud-db/src/neon.ts:40-51 | the answer is never wrongly yes, and is exact on errors in which no part that holds is shared, links back up allowed |
| Neon.PlainErrorIff | packages/cloud-db/src/neon.ts:38-48 | an error without parts and cause counts as unsent exactly for the seven connect-phase codes |
| Neon.SharedPartIsMissed | packages/cloud-db/src/neon.ts:43-47 | the same failed part listed twice makes the answer no |
| Neon.ErrorWalk.WalkError | packages/cloud-db/src/neon.ts:42-49 | the recursive walk with its mutated seen set terminates on every graph and computes the specified walk |
| Neon.IsConnectFailure | packages/cloud-db/src/neon.ts:40-51 | its answer has the meaning above |
| Neon.TotalSleep | packages/cloud-db/src/neon.ts:72-72 | n sleeps take base * (3^n - 1) / 2 in all |
| Neon.RetryingFetch | packages/cloud-db/src/neon.ts:59-76 | at most `attempts` calls; every call but the last failed before anything was sent; the last outcome is the result, and a retryable one only after all attempts; the sleeps and their total bound |

## Left out

* Entries whose JSON lacks fields or has fields of other types: a line is an entry, the text `null`, or unparsable.
* Two processes writing one JSONL file at once: the file log promises a single writer.
* Column by column contents of links, tickets, credentials, registrations and push registrations: their statements are the general ones of `TenantDb.Apply`.
* Methods for the other operations of `TenantDb.Apply` (lists, counts, agent updates, failed marks, touched connections): they are covered by the lemmas about `Apply`.
* The later outcome of a push delivery, and a database call that throws outside the delivery try block.
- Dispatch.Runtime.Deliver: "queued" in the answer does not say that the row is queued, because a failed send marks it failed and falls through.
- Quota.UsageBounded: a dispatch of a period is counted for the period read at the gate; a month change between gate and counter is the caller's period in both.
* The retirement and minting of identities after a claimed gift: `mintIdentity` is not part of this model.
* Identity and domain rows written by status changes outside fulfilment; in the gift model any registration may change status at any time.
- Sessions.DrainQueue: claim, sends and marks run with no other call in between; overlapping drains are in `DrainRace`.
- Neon.WalkComplete: one direction only; sharing beside an alternative that already holds, or in a list that fails anyway, does no harm, and the exact set of harmless sharings has no description simpler than the walk.
* Bridge starts and stops in flight, restart timers and their backoff in the supervisor: background events may set an entry's bridge and attempts in any way.
* The order in which `listByTenant` returns sessions, and what `close` does to a superseded socket.
* Envelope signatures, HTTP, WebSocket frames, token contents, the policy engine, jitter, log lines, metrics and analytics.
* Login codes, device links, challenges and renewal reminders: single-row compare-and-set versions of the gift claim.
