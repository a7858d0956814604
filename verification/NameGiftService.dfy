/**
 * `createGift`, `cancelGift` and `claimGift` of apps/cloud/lib/name-gifts.ts in their own form:
 * statements on shared tables, with any statements of other calls in between.
 */
module NameGiftService {
  import opened Common
  import opened NameGifts

  /** No statement of this create or claim call. */
  ghost predicate OfOthers(acts: seq<Action>, call: nat) {
    forall i :: 0 <= i < |acts| ==> !OfClaim(acts[i], call) && !OfCreate(acts[i], call)
  }

  ghost predicate OfClaim(a: Action, call: nat) {
    (a.ClaimFind? || a.ClaimFlip? || a.ClaimMove? || a.ClaimUndo?) && a.call == call
  }

  ghost predicate OfCreate(a: Action, call: nat) {
    (a.CreatePick? || a.CreateClear? || a.CreateInsert?) && a.call == call
  }

  lemma ExecLast(s: State, acts: seq<Action>, a: Action)
    ensures Exec(s, acts + [a]) == Next(Exec(s, acts), a)
  {
    assert (acts + [a])[..|acts|] == acts;
  }

  lemma {:induction false} ExecConcat(s: State, a: seq<Action>, b: seq<Action>)
    ensures Exec(s, a + b) == Exec(Exec(s, a), b)
  {
    if b == [] {
      assert a + b == a;
    } else {
      assert (a + b)[..|a + b| - 1] == a + b[..|b| - 1];
      ExecConcat(s, a, b[..|b| - 1]);
    }
  }

  lemma OtherStepLeavesClaim(s: State, a: Action, call: nat)
    requires call in s.claims && !OfClaim(a, call)
    ensures call in Next(s, a).claims && Next(s, a).claims[call] == s.claims[call]
  {
    match a {
      case ClaimFind(c, tokenHash, to, hit, now) => if hit.Some? && hit.value in s.gifts { FindRowLeaves(s, c, hit.value, to, now, call); }
      case ClaimFlip(_, _) =>
      case ClaimMove(_) =>
      case ClaimUndo(_) =>
      case _ => assert Next(s, a).claims == s.claims;
    }
  }

  lemma FindRowLeaves(s: State, c: nat, hit: nat, to: Tenant, now: int, call: nat)
    requires hit in s.gifts && call in s.claims && call != c
    ensures var s' := FindRow(s, c, hit, to, now);
      call in s'.claims && s'.claims[call] == s.claims[call]
  {
  }

  lemma OtherStepLeavesCreate(s: State, a: Action, call: nat)
    requires call in s.creates && !OfCreate(a, call)
    ensures call in Next(s, a).creates && Next(s, a).creates[call] == s.creates[call]
  {
  }

  lemma StepKeepsMoves(s: State, a: Action)
    ensures s.moves <= Next(s, a).moves
  {
  }

  lemma {:induction false} OthersLeaveCall(s: State, acts: seq<Action>, call: nat)
    requires OfOthers(acts, call)
    ensures call in s.claims ==> call in Exec(s, acts).claims && Exec(s, acts).claims[call] == s.claims[call]
    ensures call in s.creates ==> call in Exec(s, acts).creates && Exec(s, acts).creates[call] == s.creates[call]
    ensures s.moves <= Exec(s, acts).moves
  {
    if acts != [] {
      var front, last := acts[..|acts| - 1], acts[|acts| - 1];
      OthersLeaveCall(s, front, call);
      if call in s.claims { OtherStepLeavesClaim(Exec(s, front), last, call); }
      if call in s.creates { OtherStepLeavesCreate(Exec(s, front), last, call); }
      StepKeepsMoves(Exec(s, front), last);
    }
  }

  lemma OnlyTheseCancelled(s: State, from: Tenant, domain: string)
    ensures var s' := s.(gifts := CancelPending(s.gifts, from, domain));
      PendingLinks(s', from, domain) == {}
      && forall t: Tenant, d: string :: t != from || d != domain ==> PendingLinks(s', t, d) == PendingLinks(s, t, d)
  {
    var s' := s.(gifts := CancelPending(s.gifts, from, domain));
    forall t: Tenant, d: string | t != from || d != domain ensures PendingLinks(s', t, d) == PendingLinks(s, t, d) {
    }
  }

  /** The giver's pending links for the name are cancelled, and nothing else about any gift changes. */
  ghost predicate LinksCancelled(s: State, s': State, from: Tenant, domain: string) {
    && s'.gifts.Keys == s.gifts.Keys
    && forall g :: g in s.gifts ==>
         if s.gifts[g].from == from && s.gifts[g].domain == domain && s.gifts[g].status.Pending?
         then s'.gifts[g] == s.gifts[g].(status := Cancelled) else s'.gifts[g] == s.gifts[g]
  }

  function Held(s: State, from: Tenant, domain: string): set<nat> {
    set r | r in s.regs && Holds(s, r, from) && s.regs[r].domain == domain
  }

  ghost predicate HeldBy(s: State, r: nat, from: Tenant, domain: string) {
    r in s.regs && s.regs[r].owner == from && s.regs[r].domain == domain
  }

  /** Registered, awaiting the owner's proof, or active. */
  ghost predicate CanBeGiven(s: State, r: nat) {
    r in s.regs && (s.regs[r].status.Active? || s.regs[r].status.Registered? || s.regs[r].status.OwnerPending?)
  }

  ghost predicate SomeNotGiftable(s: State, from: Tenant, domain: string) {
    exists r :: HeldBy(s, r, from, domain) && !CanBeGiven(s, r)
  }

  /** A pending, unexpired gift of somebody else, under this token. */
  ghost predicate Claimable(s: State, g: nat, tokenHash: string, to: Tenant, now: int) {
    && g in s.gifts && s.gifts[g].tokenHash == tokenHash
    && s.gifts[g].status.Pending? && s.gifts[g].expiresAt > now && s.gifts[g].from != to
  }

  /** A pending link from the giver to nobody yet, good for thirty days. */
  ghost predicate LinkReads(g: Gift, domain: string, from: Tenant, tokenHash: string, now: int) {
    && g.domain == domain && g.from == from && g.to == None && g.tokenHash == tokenHash
    && g.status.Pending? && g.expiresAt == now + 2592000000
  }

  lemma PicksNone(s: State, call: nat, from: Tenant, domain: string)
    requires call !in s.creates
    ensures Held(s, from, domain) == {} <==> forall r :: !HeldBy(s, r, from, domain)
    ensures Held(s, from, domain) == {} ==> Next(s, CreatePick(call, from, domain, None)) == s.(creates := s.creates[call := CreateRefused])
  {
    assert forall r :: HeldBy(s, r, from, domain) <==> r in Held(s, from, domain);
    assert forall r :: r in s.regs && Holds(s, r, from) && s.regs[r].domain == domain ==> HeldBy(s, r, from, domain);
  }

  lemma PicksRow(s: State, call: nat, from: Tenant, domain: string, r: nat)
    requires call !in s.creates && r in Held(s, from, domain)
    ensures HeldBy(s, r, from, domain) && (Giftable(s.regs[r].status) <==> CanBeGiven(s, r))
    ensures Next(s, CreatePick(call, from, domain, Some(r)))
         == s.(creates := s.creates[call := if Giftable(s.regs[r].status) then Picked(from, domain, r) else CreateRefused])
  {
    assert r in s.regs && Holds(s, r, from) && s.regs[r].domain == domain;
  }

  /** The link as it is made. */
  function NewLink(registration: nat, domain: string, from: Tenant, tokenHash: string, now: int): Gift {
    Gift(registration, domain, from, None, tokenHash, Pending, now + GIFT_TTL_MS)
  }

  lemma LinkAdded(s: State, s': State, g: nat, r: nat, domain: string, from: Tenant, tokenHash: string, now: int)
    requires g !in s.gifts && s'.gifts == s.gifts[g := NewLink(r, domain, from, tokenHash, now)]
    ensures PendingLinks(s', from, domain) == PendingLinks(s, from, domain) + {g}
  {
  }

  function WithToken(s: State, tokenHash: string): set<nat> {
    set g | g in s.gifts && s.gifts[g].tokenHash == tokenHash
  }

  datatype CreateOutcome =
    | NotOwned
    | LinkMade(gift: nat)
    | InsertThrows

  /** The shared tables, and the statements that led to them. */
  class GiftDesk {
    var db: State
    ghost var schedule: seq<Action>

    ghost predicate Valid()
      reads this
    {
      db == Exec(EMPTY, schedule)
    }

    constructor ()
      ensures Valid() && schedule == []
    {
      db, schedule := EMPTY, [];
    }

    /** Whatever the other calls do in between. */
    method LetOthersRun(others: seq<Action>, ghost call: nat)
      requires Valid() && OfOthers(others, call)
      modifies this
      ensures Valid() && schedule == old(schedule) + others && db == Exec(old(db), others)
      ensures call in old(db).claims ==> call in db.claims && db.claims[call] == old(db).claims[call]
      ensures call in old(db).creates ==> call in db.creates && db.creates[call] == old(db).creates[call]
      ensures old(db).moves <= db.moves
    {
      OthersLeaveCall(db, others, call);
      ExecConcat(EMPTY, schedule, others);
      db := Exec(db, others);
      schedule := schedule + others;
    }

    /** The answer says whether there was a link; none is left, and no other giver's or name's link is touched. */
    method CancelGift(from: Tenant, domain: string) returns (existed: bool)
      requires Valid()
      modifies this
      ensures Valid() && schedule == old(schedule) + [Action.CancelGift(from, domain)]
      ensures existed <==> PendingLinks(old(db), from, domain) != {}
      ensures LinksCancelled(old(db), db, from, domain)
      ensures PendingLinks(db, from, domain) == {}
      ensures forall t: Tenant, d: string :: t != from || d != domain ==> PendingLinks(db, t, d) == PendingLinks(old(db), t, d)
    {
      OnlyTheseCancelled(db, from, domain);
      existed := PendingLinks(db, from, domain) != {};
      ExecLast(EMPTY, schedule, Action.CancelGift(from, domain));
      schedule := schedule + [Action.CancelGift(from, domain)];
      db := db.(gifts := CancelPending(db.gifts, from, domain));
    }

    /** Some registration of the giver for the name, if it can be given. */
    method PickRegistration(call: nat, from: Tenant, domain: string) returns (picked: Option<nat>)
      requires Valid() && call !in db.creates
      modifies this
      ensures Valid() && call in db.creates && db == old(db).(creates := old(db).creates[call := db.creates[call]])
      ensures picked.None? ==> db.creates[call] == CreateRefused
      ensures picked.Some? ==> HeldBy(old(db), picked.value, from, domain) && CanBeGiven(old(db), picked.value)
                               && db.creates[call] == Picked(from, domain, picked.value)
      ensures picked.None? ==> (forall r :: !HeldBy(old(db), r, from, domain)) || SomeNotGiftable(old(db), from, domain)
      ensures exists pick :: schedule == old(schedule) + [CreatePick(call, from, domain, pick)]
    {
      hide Next, Exec, Giftable, Held, Holds;
      PicksNone(db, call, from, domain);
      var held := Held(db, from, domain);
      if held == {} {
        ExecLast(EMPTY, schedule, CreatePick(call, from, domain, None));
        schedule := schedule + [CreatePick(call, from, domain, None)];
        db := db.(creates := db.creates[call := CreateRefused]);
        return None;
      }
      var r :| r in held;
      PicksRow(db, call, from, domain, r);
      ExecLast(EMPTY, schedule, CreatePick(call, from, domain, Some(r)));
      schedule := schedule + [CreatePick(call, from, domain, Some(r))];
      if !Giftable(db.regs[r].status) {
        db := db.(creates := db.creates[call := CreateRefused]);
        return None;
      }
      db := db.(creates := db.creates[call := Picked(from, domain, r)]);
      return Some(r);
    }

    method ClearEarlierLinks(call: nat, from: Tenant, domain: string, registration: nat)
      requires Valid() && call in db.creates && db.creates[call] == Picked(from, domain, registration)
      modifies this
      ensures Valid() && schedule == old(schedule) + [CreateClear(call)]
      ensures call in db.creates && db.creates[call] == Cleared(from, domain, registration)
      ensures LinksCancelled(old(db), db, from, domain)
      ensures PendingLinks(db, from, domain) == {}
    {
      ExecLast(EMPTY, schedule, CreateClear(call));
      schedule := schedule + [CreateClear(call)];
      db := db.(gifts := CancelPending(db.gifts, from, domain),
                creates := db.creates[call := Cleared(from, domain, registration)]);
    }

    method InsertLink(call: nat, from: Tenant, domain: string, registration: nat, gift: nat, tokenHash: string, now: int)
        returns (made: bool)
      requires Valid() && call in db.creates && db.creates[call] == Cleared(from, domain, registration)
      modifies this
      ensures Valid() && schedule == old(schedule) + [CreateInsert(call, gift, tokenHash, now)]
      ensures made <==> gift !in old(db).gifts && !TokenKnown(old(db), tokenHash)
      ensures db.gifts == if made then old(db).gifts[gift := NewLink(registration, domain, from, tokenHash, now)]
                          else old(db).gifts
      ensures PendingLinks(db, from, domain) == PendingLinks(old(db), from, domain) + if made then {gift} else {}
    {
      hide PendingLinks, Exec;
      ExecLast(EMPTY, schedule, CreateInsert(call, gift, tokenHash, now));
      schedule := schedule + [CreateInsert(call, gift, tokenHash, now)];
      made := gift !in db.gifts && !(exists g :: g in db.gifts && db.gifts[g].tokenHash == tokenHash);
      if made {
        db := db.(gifts := db.gifts[gift := NewLink(registration, domain, from, tokenHash, now)],
                  creates := db.creates[call := Created(gift)]);
        LinkAdded(old(db), db, gift, registration, domain, from, tokenHash, now);
      }
    }

    /**
     * A link is made only for a giftable registration that the giver held when it was picked. When
     * the earlier links are cancelled none is pending (`cleared`); the new one stands beside exactly
     * those that are pending after whatever the other calls do next. So it is the only one unless
     * another call inserted one for the same name in between.
     */
    method CreateGift(call: nat, from: Tenant, domain: string, gift: nat, tokenHash: string, now: int,
                      afterPick: seq<Action>, afterClear: seq<Action>) returns (o: CreateOutcome, ghost cleared: State)
      requires Valid() && call !in db.creates
      requires OfOthers(afterPick, call) && OfOthers(afterClear, call)
      modifies this
      ensures Valid()
      ensures o.LinkMade? ==> o.gift == gift && gift in db.gifts
      ensures o.LinkMade? ==> LinkReads(db.gifts[gift], domain, from, tokenHash, now)
      ensures o.LinkMade? ==> HeldBy(old(db), db.gifts[gift].registration, from, domain)
      ensures o.LinkMade? ==> CanBeGiven(old(db), db.gifts[gift].registration)
      ensures PendingLinks(cleared, from, domain) == {}
      ensures o.LinkMade? ==> PendingLinks(db, from, domain) == PendingLinks(Exec(cleared, afterClear), from, domain) + {gift}
      ensures o.LinkMade? && !SomeInsertsFor(cleared, afterClear, from, domain) ==> PendingLinks(db, from, domain) == {gift}
      ensures o.InsertThrows? ==> PendingLinks(db, from, domain) == PendingLinks(Exec(cleared, afterClear), from, domain)
      ensures o.NotOwned? ==> db.gifts == old(db).gifts && db.regs == old(db).regs
      ensures o.NotOwned? ==> (forall r :: !HeldBy(old(db), r, from, domain)) || SomeNotGiftable(old(db), from, domain)
      ensures (forall r :: !HeldBy(old(db), r, from, domain)) ==> o.NotOwned?
    {
      cleared := EMPTY;
      var picked := PickRegistration(call, from, domain);
      if picked.None? {
        return NotOwned, cleared;
      }
      LetOthersRun(afterPick, call);
      ClearEarlierLinks(call, from, domain, picked.value);
      cleared := db;
      EveryScheduleKeepsInv(schedule);
      if !SomeInsertsFor(db, afterClear, from, domain) {
        NoInsertNoNewLink(db, afterClear, from, domain);
      }
      LetOthersRun(afterClear, call);
      var made := InsertLink(call, from, domain, picked.value, gift, tokenHash, now);
      o := if made then LinkMade(gift) else InsertThrows;
    }

    /** Look the token up. The answer is the row found, if its gift can still be claimed by `to`. */
    method FindGift(call: nat, tokenHash: string, to: Tenant, now: int) returns (found: Option<nat>)
      requires Valid() && call !in db.claims
      modifies this
      ensures Valid() && call in db.claims && db == old(db).(claims := old(db).claims[call := db.claims[call]])
      ensures found.Some? ==> Claimable(old(db), found.value, tokenHash, to, now)
      ensures found.Some? ==> db.claims[call] == Found(found.value, old(db).gifts[found.value], to)
      ensures found.None? ==> db.claims[call].Refused? && RightRefusal(old(db), tokenHash, to, now, db.claims[call].why)
    {
      var hits := WithToken(db, tokenHash);
      if hits == {} {
        NoToken(db, tokenHash);
        ExecLast(EMPTY, schedule, ClaimFind(call, tokenHash, to, None, now));
        schedule := schedule + [ClaimFind(call, tokenHash, to, None, now)];
        db := db.(claims := db.claims[call := Refused(Invalid)]);
        return None;
      }
      var hit :| hit in hits;
      ExecLast(EMPTY, schedule, ClaimFind(call, tokenHash, to, Some(hit), now));
      schedule := schedule + [ClaimFind(call, tokenHash, to, Some(hit), now)];
      FindRowAnswers(db, call, hit, tokenHash, to, now);
      db := FindRow(db, call, hit, to, now);
      return if db.claims[call].Found? then Some(hit) else None;
    }

    method FlipGift(call: nat, now: int) returns (flipped: bool)
      requires Valid() && call in db.claims && db.claims[call].Found?
      modifies this
      ensures Valid() && schedule == old(schedule) + [ClaimFlip(call, now)]
      ensures call in db.claims && db.moves == old(db).moves
      ensures var p := old(db).claims[call];
        && db == Flip(old(db), call, now)
        && (flipped <==> CanFlip(old(db), p.gift, now))
        && db.claims[call] == (if flipped then Flipped(p.gift, p.found, p.to) else Refused(AlreadyClaimed))
        && db.gifts == (if flipped then old(db).gifts[p.gift := old(db).gifts[p.gift].(status := Claimed, to := Some(p.to))]
                        else old(db).gifts)
        && db.regs == old(db).regs
    {
      var p := db.claims[call];
      ExecLast(EMPTY, schedule, ClaimFlip(call, now));
      schedule := schedule + [ClaimFlip(call, now)];
      flipped := p.gift in db.gifts && db.gifts[p.gift].status.Pending? && db.gifts[p.gift].expiresAt > now;
      if flipped {
        db := db.(gifts := db.gifts[p.gift := db.gifts[p.gift].(status := Claimed, to := Some(p.to))],
                  flippedBy := db.flippedBy[p.gift := call],
                  claims := db.claims[call := Flipped(p.gift, p.found, p.to)]);
      } else {
        db := db.(claims := db.claims[call := Refused(AlreadyClaimed)]);
      }
    }

    /** The move happens exactly if the giver still holds the registration. */
    method MoveRegistration(call: nat) returns (moved: bool)
      requires Valid() && call in db.claims && db.claims[call].Flipped?
      modifies this
      ensures Valid() && schedule == old(schedule) + [ClaimMove(call)] && call in db.claims
      ensures var p := old(db).claims[call];
        && (moved <==> Holds(old(db), p.found.registration, p.found.from))
        && db.moves == old(db).moves + (if moved then [Move(p.gift, p.found.registration, p.found.from, p.to)] else [])
        && db.regs == (if moved then old(db).regs[p.found.registration := old(db).regs[p.found.registration].(owner := p.to)]
                       else old(db).regs)
        && db.gifts == old(db).gifts
        && db.claims[call] == if moved then Moved(p.gift, |old(db).moves|) else NotHeld(p.gift)
    {
      var p := db.claims[call];
      var r := p.found.registration;
      ExecLast(EMPTY, schedule, ClaimMove(call));
      schedule := schedule + [ClaimMove(call)];
      moved := Holds(db, r, p.found.from);
      if moved {
        db := db.(regs := db.regs[r := db.regs[r].(owner := p.to)],
                  moves := db.moves + [Move(p.gift, r, p.found.from, p.to)],
                  claims := db.claims[call := Moved(p.gift, |db.moves|)]);
      } else {
        db := db.(claims := db.claims[call := NotHeld(p.gift)]);
      }
    }

    method UndoFlip(call: nat)
      requires Valid() && call in db.claims && db.claims[call].NotHeld?
      modifies this
      ensures Valid() && schedule == old(schedule) + [ClaimUndo(call)]
      ensures call in db.claims && db.claims[call] == Refused(Gone)
      ensures var g := old(db).claims[call].gift;
        db.gifts == if g in old(db).gifts then old(db).gifts[g := old(db).gifts[g].(status := Cancelled, to := None)] else old(db).gifts
      ensures db.moves == old(db).moves && db.regs == old(db).regs
    {
      var g := db.claims[call].gift;
      ExecLast(EMPTY, schedule, ClaimUndo(call));
      schedule := schedule + [ClaimUndo(call)];
      if g in db.gifts {
        db := db.(gifts := db.gifts[g := db.gifts[g].(status := Cancelled, to := None)]);
      }
      db := db.(claims := db.claims[call := Refused(Gone)]);
    }

    /**
     * Whatever the other calls do between its statements, a claim ends as a refusal or with exactly
     * one move to the recipient, of the registration and from the giver of a gift that carried the
     * token, was pending when it was found and was not the recipient's own; and it leaves nothing in
     * flight. `hit` is that gift, `atFlip` the state in which this call tried to flip it, `atMove`
     * the one in which it tried to move the registration: those two alone decide how it ends.
     */
    method ClaimGift(call: nat, tokenHash: string, to: Tenant, foundAt: int, flippedAt: int,
                     afterFind: seq<Action>, afterFlip: seq<Action>, afterMove: seq<Action>)
        returns (o: Claim, ghost hit: Option<nat>, ghost atFlip: State, ghost atMove: State)
      requires Valid() && call !in db.claims
      requires OfOthers(afterFind, call) && OfOthers(afterFlip, call) && OfOthers(afterMove, call)
      modifies this
      ensures Valid() && call in db.claims && db.claims[call] == o
      ensures o.Moved? || o.Refused?
      ensures hit.Some? ==> Claimable(old(db), hit.value, tokenHash, to, foundAt)
      ensures hit.None? ==> o.Refused? && RightRefusal(old(db), tokenHash, to, foundAt, o.why)
      ensures hit.Some? ==>
                var found := Found(hit.value, old(db).gifts[hit.value], to);
                atFlip == Exec(old(db).(claims := old(db).claims[call := found]), afterFind)
      ensures hit.Some? && o != Refused(AlreadyClaimed) ==>
                call in atFlip.claims && atFlip.claims[call].Found? && atMove == Exec(Flip(atFlip, call, flippedAt), afterFlip)
      ensures hit.Some? ==> (o == Refused(AlreadyClaimed) <==> !CanFlip(atFlip, hit.value, flippedAt))
      ensures hit.Some? ==> var found := old(db).gifts[hit.value];
                && (o == Refused(Gone)
                    <==> CanFlip(atFlip, hit.value, flippedAt) && !Holds(atMove, found.registration, found.from))
                && (o == Refused(Gone) ==> hit.value in db.gifts ==> db.gifts[hit.value].status == Cancelled)
                && (o.Moved? <==> CanFlip(atFlip, hit.value, flippedAt) && Holds(atMove, found.registration, found.from))
                && (o.Moved? ==> o.at < |db.moves| && db.moves[o.at] == Move(hit.value, found.registration, found.from, to))
      ensures o.Moved? ==> |old(db).moves| <= o.at
      ensures o == Refused(Invalid) <==> forall g :: g in old(db).gifts ==> old(db).gifts[g].tokenHash != tokenHash
      ensures o.Moved? && afterMove == [] ==> Holds(db, db.moves[o.at].registration, to)
    {
      hit := FindGift(call, tokenHash, to, foundAt);
      atFlip, atMove := db, db;
      if !db.claims[call].Found? {
        return db.claims[call], hit, atFlip, atMove;
      }
      LetOthersRun(afterFind, call);
      atFlip := db;
      var flipped := FlipGift(call, flippedAt);
      if !flipped {
        return Refused(AlreadyClaimed), hit, atFlip, atMove;
      }
      LetOthersRun(afterFlip, call);
      atMove := db;
      var moved := MoveRegistration(call);
      if moved {
        o := db.claims[call];
        LetOthersRun(afterMove, call);
        return;
      }
      LetOthersRun(afterMove, call);
      UndoFlip(call);
      o := Refused(Gone);
    }
  }

  /** The compare-and-set succeeds: the gift is still pending and has not expired. */
  predicate CanFlip(s: State, g: nat, now: int) {
    g in s.gifts && s.gifts[g].status.Pending? && s.gifts[g].expiresAt > now
  }

  /** A failed flip is answered "already accepted". That is true of a claimed gift only, and a gift
      is claimed exactly while some claim of it is in flight or has moved the registration; it is
      false of one cancelled or expired since it was found. */
  lemma AlreadyClaimedIsTrueIff(acts: seq<Action>, g: nat, now: int)
    requires g in Exec(EMPTY, acts).gifts && !CanFlip(Exec(EMPTY, acts), g, now)
    ensures var s := Exec(EMPTY, acts);
      (exists c :: c in s.claims && (InFlight(s.claims[c]) || s.claims[c].Moved?) && s.claims[c].gift == g)
      <==> !(s.gifts[g].status.Cancelled? || (s.gifts[g].status.Pending? && s.gifts[g].expiresAt <= now))
  {
    var s := Exec(EMPTY, acts);
    EveryScheduleKeepsInv(acts);
    assert GiftOk(s, g);
    if c :| c in s.claims && (InFlight(s.claims[c]) || s.claims[c].Moved?) && s.claims[c].gift == g {
      assert ClaimOk(s, c);
    }
    if s.gifts[g].status.Claimed? {
      var c := s.flippedBy[g];
      assert c in s.claims && (InFlight(s.claims[c]) || s.claims[c].Moved?) && s.claims[c].gift == g;
    }
  }

  /** A refusal on lookup says what is wrong with a gift that carries the token. */
  ghost predicate RightRefusal(s: State, tokenHash: string, to: Tenant, now: int, why: Refusal) {
    if why.Invalid? then forall g :: g in s.gifts ==> s.gifts[g].tokenHash != tokenHash
    else exists g :: g in s.gifts && s.gifts[g].tokenHash == tokenHash && Explains(s.gifts[g], to, now, why)
  }

  ghost predicate Explains(g: Gift, to: Tenant, now: int, why: Refusal) {
    match why
    case AlreadyClaimed => g.status.Claimed?
    case WasCancelled => g.status.Cancelled?
    case HasExpired => g.status.Pending? && g.expiresAt <= now
    case Self => g.status.Pending? && g.expiresAt > now && g.from == to
    case _ => false
  }

  lemma FindRowAnswers(s: State, c: nat, hit: nat, tokenHash: string, to: Tenant, now: int)
    requires hit in WithToken(s, tokenHash)
    ensures var claim := FindRow(s, c, hit, to, now).claims[c];
      if Claimable(s, hit, tokenHash, to, now) then claim == Found(hit, s.gifts[hit], to)
      else claim.Refused? && RightRefusal(s, tokenHash, to, now, claim.why)
  {
    if !Claimable(s, hit, tokenHash, to, now) {
      assert Explains(s.gifts[hit], to, now, FindRow(s, c, hit, to, now).claims[c].why);
    }
  }

  lemma NoToken(s: State, tokenHash: string)
    ensures TokenKnown(s, tokenHash) <==> WithToken(s, tokenHash) != {}
  {
    if TokenKnown(s, tokenHash) {
      var g :| g in s.gifts && s.gifts[g].tokenHash == tokenHash;
      assert g in WithToken(s, tokenHash);
    }
  }

  lemma ExecTwo(s: State, acts: seq<Action>, a: Action, b: Action)
    ensures Exec(s, acts + [a] + [b]) == Next(Next(Exec(s, acts), a), b)
  {
    ExecLast(s, acts, a);
    ExecLast(s, acts + [a], b);
  }

  const NAME := "example.agent"

  lemma OneName(acts: seq<Action>)
    requires acts == [] + [Register(0, 1, NAME)] + [SetStatus(0, Active)]
    ensures Exec(EMPTY, acts) == EMPTY.(regs := map[0 := Registration(1, NAME, Active)], origin := map[0 := 1])
  {
    ExecTwo(EMPTY, [], Register(0, 1, NAME), SetStatus(0, Active));
  }

  lemma BothPick(s: State)
    requires s == EMPTY.(regs := map[0 := Registration(1, NAME, Active)], origin := map[0 := 1])
    ensures Next(Next(s, CreatePick(0, 1, NAME, Some(0))), CreatePick(1, 1, NAME, Some(0)))
         == s.(creates := map[0 := Picked(1, NAME, 0), 1 := Picked(1, NAME, 0)])
  {
    assert 0 in s.regs && Holds(s, 0, 1);
    var s' := Next(s, CreatePick(0, 1, NAME, Some(0)));
    assert s' == s.(creates := map[0 := Picked(1, NAME, 0)]);
    assert 0 in s'.regs && Holds(s', 0, 1);
  }

  lemma BothClear(s: State)
    requires s.gifts == map[] && s.creates == map[0 := Picked(1, NAME, 0), 1 := Picked(1, NAME, 0)]
    ensures Next(Next(s, CreateClear(0)), CreateClear(1))
         == s.(creates := map[0 := Cleared(1, NAME, 0), 1 := Cleared(1, NAME, 0)])
  {
    var s' := Next(s, CreateClear(0));
    assert s' == s.(creates := map[0 := Cleared(1, NAME, 0), 1 := Picked(1, NAME, 0)]);
  }

  lemma InsertsNext(s: State, c: nat, tokenHash: string)
    requires c in s.creates && s.creates[c] == Cleared(1, NAME, 0)
    requires c !in s.gifts && !TokenKnown(s, tokenHash)
    ensures var s' := Next(s, CreateInsert(c, c, tokenHash, 0));
      s'.gifts == s.gifts[c := NewLink(0, NAME, 1, tokenHash, 0)] && s'.creates == s.creates[c := Created(c)]
      && s'.claims == s.claims && s'.flippedBy == s.flippedBy
  {
  }

  lemma BothInsert(s: State)
    requires s.gifts == map[] && s.creates == map[0 := Cleared(1, NAME, 0), 1 := Cleared(1, NAME, 0)]
    ensures PendingLinks(Next(Next(s, CreateInsert(0, 0, "x", 0)), CreateInsert(1, 1, "y", 0)), 1, NAME) == {0, 1}
  {
    InsertsNext(s, 0, "x");
    InsertsNext(Next(s, CreateInsert(0, 0, "x", 0)), 1, "y");
  }

  /** Two creates for one name that overlap leave two pending links for it. */
  lemma OverlappingCreatesLeaveTwoLinks() returns (acts: seq<Action>)
    ensures PendingLinks(Exec(EMPTY, acts), 1, NAME) == {0, 1}
  {
    var a1 := [] + [Register(0, 1, NAME)] + [SetStatus(0, Active)];
    OneName(a1);
    var a2 := a1 + [CreatePick(0, 1, NAME, Some(0))] + [CreatePick(1, 1, NAME, Some(0))];
    ExecTwo(EMPTY, a1, CreatePick(0, 1, NAME, Some(0)), CreatePick(1, 1, NAME, Some(0)));
    BothPick(Exec(EMPTY, a1));
    var a3 := a2 + [CreateClear(0)] + [CreateClear(1)];
    ExecTwo(EMPTY, a2, CreateClear(0), CreateClear(1));
    BothClear(Exec(EMPTY, a2));
    acts := a3 + [CreateInsert(0, 0, "x", 0)] + [CreateInsert(1, 1, "y", 0)];
    ExecTwo(EMPTY, a3, CreateInsert(0, 0, "x", 0), CreateInsert(1, 1, "y", 0));
    BothInsert(Exec(EMPTY, a3));
  }

  lemma LinkFound(s: State)
    requires s.gifts == map[0 := NewLink(0, NAME, 1, "x", 0)] && s.claims == map[]
    ensures Next(s, ClaimFind(0, "x", 2, Some(0), 0)) == s.(claims := map[0 := Found(0, s.gifts[0], 2)])
  {
    assert 0 in s.gifts && s.gifts[0].tokenHash == "x";
  }

  lemma CancelledThenFlipped(s: State)
    requires s.gifts == map[0 := NewLink(0, NAME, 1, "x", 0)] && s.claims == map[0 := Found(0, s.gifts[0], 2)]
    ensures var s' := Next(Next(s, Action.CancelGift(1, NAME)), ClaimFlip(0, 0));
      s'.claims[0] == Refused(AlreadyClaimed) && s'.gifts[0].status.Cancelled?
      && s'.flippedBy == s.flippedBy && s'.claims.Keys == {0}
  {
    var s1 := Next(s, Action.CancelGift(1, NAME));
    assert s1.gifts[0].status.Cancelled?;
  }

  lemma PicksAndClears(s: State)
    requires s == EMPTY.(regs := map[0 := Registration(1, NAME, Active)], origin := map[0 := 1])
    ensures Next(Next(s, CreatePick(0, 1, NAME, Some(0))), CreateClear(0)) == s.(creates := map[0 := Cleared(1, NAME, 0)])
  {
    assert 0 in s.regs && Holds(s, 0, 1);
    var s' := Next(s, CreatePick(0, 1, NAME, Some(0)));
    assert s' == s.(creates := map[0 := Picked(1, NAME, 0)]);
  }

  lemma OneLinkMade() returns (acts: seq<Action>)
    ensures var s := Exec(EMPTY, acts);
      s.gifts == map[0 := NewLink(0, NAME, 1, "x", 0)] && s.claims == map[] && s.flippedBy == map[]
  {
    var a1 := [] + [Register(0, 1, NAME)] + [SetStatus(0, Active)];
    OneName(a1);
    PicksAndClears(Exec(EMPTY, a1));
    ExecTwo(EMPTY, a1, CreatePick(0, 1, NAME, Some(0)), CreateClear(0));
    var a2 := a1 + [CreatePick(0, 1, NAME, Some(0))] + [CreateClear(0)];
    ExecLast(EMPTY, a2, CreateInsert(0, 0, "x", 0));
    InsertsNext(Exec(EMPTY, a2), 0, "x");
    acts := a2 + [CreateInsert(0, 0, "x", 0)];
  }

  /** The false case: found, cancelled by the giver, then refused as already accepted although no
      claim ever flipped it. */
  lemma CancelledGiftIsCalledAccepted() returns (acts: seq<Action>)
    ensures var s := Exec(EMPTY, acts);
      && 0 in s.claims && s.claims[0] == Refused(AlreadyClaimed) && s.claims.Keys == {0}
      && 0 in s.gifts && s.gifts[0].status.Cancelled? && s.flippedBy == map[]
  {
    var made := OneLinkMade();
    LinkFound(Exec(EMPTY, made));
    ExecLast(EMPTY, made, ClaimFind(0, "x", 2, Some(0), 0));
    var found := made + [ClaimFind(0, "x", 2, Some(0), 0)];
    CancelledThenFlipped(Exec(EMPTY, found));
    ExecTwo(EMPTY, found, Action.CancelGift(1, NAME), ClaimFlip(0, 0));
    acts := found + [Action.CancelGift(1, NAME)] + [ClaimFlip(0, 0)];
    assert Exec(EMPTY, acts).gifts == CancelPending(Exec(EMPTY, found).gifts, 1, NAME);
  }
}
