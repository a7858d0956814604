/** Giving a name to another account: apps/cloud/lib/name-gifts.ts.

    Every SQL statement is one atomic step, and a schedule is any interleaving of the
    statements of any number of calls. The clock is an argument of the steps that read it. */
module NameGifts {
  import opened Common

  type Tenant = nat

  datatype RegStatus = PendingPayment | Registering | Registered | OwnerPending | Active | Failed | Expired

  predicate Giftable(s: RegStatus) { s.Active? || s.Registered? || s.OwnerPending? }

  datatype Registration = Registration(owner: Tenant, domain: string, status: RegStatus)

  datatype GiftStatus = Pending | Claimed | Cancelled

  datatype Gift = Gift(
    registration: nat,
    domain: string,
    from: Tenant,
    to: Option<Tenant>,
    tokenHash: string,
    status: GiftStatus,
    expiresAt: int)

  const GIFT_TTL_MS: int := 30 * 24 * 60 * 60 * 1000

  datatype GiftState = IsPending | IsClaimed | IsCancelled | IsExpired

  function StateOf(g: Gift, now: int): GiftState {
    if g.status.Claimed? then IsClaimed
    else if g.status.Cancelled? then IsCancelled
    else if g.expiresAt <= now then IsExpired
    else IsPending
  }

  /** Between the statements of `createGift`: the row picked, then the earlier links cancelled. */
  datatype Create =
    | Picked(from: Tenant, domain: string, registration: nat)
    | Cleared(from: Tenant, domain: string, registration: nat)
    | Created(gift: nat)
    | CreateRefused

  datatype Refusal = Invalid | AlreadyClaimed | WasCancelled | HasExpired | Self | Gone

  /** Between the statements of `claimGift`. `found` is the gift row as first read. */
  datatype Claim =
    | Found(gift: nat, found: Gift, to: Tenant)
    | Flipped(gift: nat, found: Gift, to: Tenant)
    | NotHeld(gift: nat)
    | Moved(gift: nat, at: nat)
    | Refused(why: Refusal)

  /** One change of owner, and the gift that made it. */
  datatype Move = Move(gift: nat, registration: nat, from: Tenant, to: Tenant)

  /** `origin` is who first held each registration; `moves` is the history of owner changes;
      `flippedBy` is the claim that last flipped each gift. */
  datatype State = State(
    regs: map<nat, Registration>,
    gifts: map<nat, Gift>,
    creates: map<nat, Create>,
    claims: map<nat, Claim>,
    origin: map<nat, Tenant>,
    moves: seq<Move>,
    flippedBy: map<nat, nat>)

  const EMPTY := State(map[], map[], map[], map[], map[], [], map[])

  datatype Action =
    | Register(registration: nat, owner: Tenant, domain: string)
    | SetStatus(registration: nat, status: RegStatus)
    | CreatePick(call: nat, from: Tenant, domain: string, pick: Option<nat>)
    | CreateClear(call: nat)
    | CreateInsert(call: nat, gift: nat, tokenHash: string, now: int)
    | CancelGift(from: Tenant, domain: string)
    | ClaimFind(call: nat, tokenHash: string, to: Tenant, hit: Option<nat>, now: int)
    | ClaimFlip(call: nat, now: int)
    | ClaimMove(call: nat)
    | ClaimUndo(call: nat)

  /** Every pending link of this giver for this name becomes cancelled. */
  function CancelPending(gifts: map<nat, Gift>, from: Tenant, domain: string): map<nat, Gift> {
    map g | g in gifts ::
      if gifts[g].from == from && gifts[g].domain == domain && gifts[g].status.Pending?
      then gifts[g].(status := Cancelled) else gifts[g]
  }

  predicate Holds(s: State, registration: nat, tenant: Tenant) {
    registration in s.regs && s.regs[registration].owner == tenant
  }

  predicate TokenKnown(s: State, tokenHash: string) {
    exists g :: g in s.gifts && s.gifts[g].tokenHash == tokenHash
  }

  function FindRow(s: State, c: nat, hit: nat, to: Tenant, now: int): (s': State)
    requires hit in s.gifts
    ensures s' == s.(claims := s'.claims) && c in s'.claims && s'.claims == s.claims[c := s'.claims[c]]
  {
    var row := s.gifts[hit];
    s.(claims := s.claims[c :=
      match StateOf(row, now)
      case IsClaimed => Refused(AlreadyClaimed)
      case IsCancelled => Refused(WasCancelled)
      case IsExpired => Refused(HasExpired)
      case IsPending => if row.from == to then Refused(Self) else Found(hit, row, to)])
  }

  /** Of several claims on one gift, the one whose flip still finds it pending goes on. */
  function Flip(s: State, c: nat, now: int): State
    requires c in s.claims && s.claims[c].Found?
  {
    var p := s.claims[c];
    if p.gift in s.gifts && s.gifts[p.gift].status.Pending? && s.gifts[p.gift].expiresAt > now then
      s.(gifts := s.gifts[p.gift := s.gifts[p.gift].(status := Claimed, to := Some(p.to))],
         flippedBy := s.flippedBy[p.gift := c],
         claims := s.claims[c := Flipped(p.gift, p.found, p.to)])
    else s.(claims := s.claims[c := Refused(AlreadyClaimed)])
  }

  /** The conditional move of the registration from the giver to the recipient. */
  function Transfer(s: State, c: nat): State
    requires c in s.claims && s.claims[c].Flipped?
  {
    var p := s.claims[c];
    var r := p.found.registration;
    if Holds(s, r, p.found.from) then
      s.(regs := s.regs[r := s.regs[r].(owner := p.to)],
         moves := s.moves + [Move(p.gift, r, p.found.from, p.to)],
         claims := s.claims[c := Moved(p.gift, |s.moves|)])
    else s.(claims := s.claims[c := NotHeld(p.gift)])
  }

  function Undo(s: State, c: nat): State
    requires c in s.claims && s.claims[c].NotHeld?
  {
    var g := s.claims[c].gift;
    s.(gifts := if g in s.gifts then s.gifts[g := s.gifts[g].(status := Cancelled, to := None)] else s.gifts,
       claims := s.claims[c := Refused(Gone)])
  }

  function Pick(s: State, c: nat, from: Tenant, domain: string, pick: Option<nat>): (s': State)
    ensures s' == s.(creates := s'.creates)
  {
    if !(exists r :: r in s.regs && Holds(s, r, from) && s.regs[r].domain == domain) then
      s.(creates := s.creates[c := CreateRefused])
    else if pick.None? || !Holds(s, pick.value, from) || s.regs[pick.value].domain != domain then s
    else if !Giftable(s.regs[pick.value].status) then s.(creates := s.creates[c := CreateRefused])
    else s.(creates := s.creates[c := Picked(from, domain, pick.value)])
  }

  /** One statement. A statement that is not the next one of its call changes nothing;
      `pick` and `hit` name the row a LIMIT 1 query happens to return. */
  function Next(s: State, a: Action): State {
    match a
    case Register(r, owner, domain) =>
      if r in s.regs then s
      else s.(regs := s.regs[r := Registration(owner, domain, PendingPayment)], origin := s.origin[r := owner])
    case SetStatus(r, status) =>
      if r !in s.regs then s else s.(regs := s.regs[r := s.regs[r].(status := status)])
    case CreatePick(c, from, domain, pick) =>
      if c in s.creates then s else Pick(s, c, from, domain, pick)
    case CreateClear(c) =>
      if c in s.creates && s.creates[c].Picked? then
        var p := s.creates[c];
        s.(gifts := CancelPending(s.gifts, p.from, p.domain),
           creates := s.creates[c := Cleared(p.from, p.domain, p.registration)])
      else s
    case CreateInsert(c, g, tokenHash, now) =>
      if c in s.creates && s.creates[c].Cleared? && g !in s.gifts && !TokenKnown(s, tokenHash) then
        var p := s.creates[c];
        s.(gifts := s.gifts[g := Gift(p.registration, p.domain, p.from, None, tokenHash, Pending, now + GIFT_TTL_MS)],
           creates := s.creates[c := Created(g)])
      else s
    case CancelGift(from, domain) => s.(gifts := CancelPending(s.gifts, from, domain))
    case ClaimFind(c, tokenHash, to, hit, now) =>
      if c in s.claims then s
      else if !TokenKnown(s, tokenHash) then s.(claims := s.claims[c := Refused(Invalid)])
      else if hit.None? || hit.value !in s.gifts || s.gifts[hit.value].tokenHash != tokenHash then s
      else FindRow(s, c, hit.value, to, now)
    case ClaimFlip(c, now) => if c in s.claims && s.claims[c].Found? then Flip(s, c, now) else s
    case ClaimMove(c) => if c in s.claims && s.claims[c].Flipped? then Transfer(s, c) else s
    case ClaimUndo(c) => if c in s.claims && s.claims[c].NotHeld? then Undo(s, c) else s
  }

  function Exec(s: State, acts: seq<Action>): State {
    if acts == [] then s else Next(Exec(s, acts[..|acts| - 1]), acts[|acts| - 1])
  }

  // ------------------------------------------------------------- history

  /** Who holds what in the table. */
  function Owners(regs: map<nat, Registration>): map<nat, Tenant> {
    map r | r in regs :: regs[r].owner
  }

  /** Who holds what after a history of moves. */
  function OwnersAfter(origin: map<nat, Tenant>, moves: seq<Move>): map<nat, Tenant> {
    if moves == [] then origin
    else OwnersAfter(origin, moves[..|moves| - 1])[moves[|moves| - 1].registration := moves[|moves| - 1].to]
  }

  /** Every move is made by a gift that whoever held the registration just before had sent. */
  ghost predicate HistoryIsPath(origin: map<nat, Tenant>, moves: seq<Move>) {
    forall i :: 0 <= i < |moves| ==> StepFits(origin, moves, i)
  }

  ghost predicate StepFits(origin: map<nat, Tenant>, moves: seq<Move>, i: nat)
    requires i < |moves|
  {
    MoveFits(OwnersAfter(origin, moves[..i]), moves[i])
  }

  ghost predicate MoveFits(owners: map<nat, Tenant>, m: Move) {
    m.registration in owners && m.from == owners[m.registration] && m.from != m.to
  }

  /** The claim has flipped the gift and has not yet moved the registration or undone the flip. */
  predicate InFlight(c: Claim) { c.Flipped? || c.NotHeld? }

  ghost predicate Quiet(s: State) {
    forall c :: c in s.claims ==> !InFlight(s.claims[c])
  }

  ghost predicate OwnersOk(s: State) {
    && s.origin.Keys == s.regs.Keys
    && HistoryIsPath(s.origin, s.moves)
    && OwnersAfter(s.origin, s.moves) == Owners(s.regs)
  }

  ghost predicate ClaimedBy(s: State, g: nat, c: nat) {
    g in s.gifts && s.gifts[g].status.Claimed? && g in s.flippedBy && s.flippedBy[g] == c
  }

  /** Where each claim stands agrees with the gift it flipped and the move it made. */
  ghost predicate ClaimOk(s: State, c: nat)
    requires c in s.claims
  {
    match s.claims[c]
    case Found(g, found, to) =>
      && to != found.from
      && g in s.gifts && s.gifts[g].registration == found.registration && s.gifts[g].from == found.from
    case Flipped(g, found, to) =>
      && to != found.from && ClaimedBy(s, g, c) && s.gifts[g].to == Some(to)
      && s.gifts[g].registration == found.registration && s.gifts[g].from == found.from
    case NotHeld(g) => ClaimedBy(s, g, c)
    case Moved(g, at) => ClaimedBy(s, g, c) && at < |s.moves| && s.moves[at].gift == g
    case Refused(_) => true
  }

  /** A claimed gift is in the hands of the claim that flipped it, in flight or moved. */
  ghost predicate GiftOk(s: State, g: nat)
    requires g in s.gifts
  {
    s.gifts[g].status.Claimed? ==>
      && g in s.flippedBy && s.flippedBy[g] in s.claims
      && var c := s.claims[s.flippedBy[g]];
         (InFlight(c) || c.Moved?) && c.gift == g
  }

  /** Move `i` was made by the claim that flipped its gift, and says what the gift says. */
  ghost predicate MoveOk(s: State, i: nat)
    requires i < |s.moves|
  {
    var m := s.moves[i];
    && m.gift in s.gifts && s.gifts[m.gift].status.Claimed?
    && m.gift in s.flippedBy && s.flippedBy[m.gift] in s.claims
    && s.claims[s.flippedBy[m.gift]] == Moved(m.gift, i)
    && s.gifts[m.gift].registration == m.registration
    && s.gifts[m.gift].from == m.from
    && s.gifts[m.gift].to == Some(m.to)
  }

  ghost predicate Consistent(s: State) {
    && (forall c :: c in s.claims ==> ClaimOk(s, c))
    && (forall g :: g in s.gifts ==> GiftOk(s, g))
    && (forall i :: 0 <= i < |s.moves| ==> MoveOk(s, i))
  }

  ghost predicate Inv(s: State) { OwnersOk(s) && Consistent(s) }

  // -------------------------------------------------- steps keep the invariant

  /** Gift rows keep what they say, and a claimed row stays as it is. */
  ghost predicate GiftsKept(s: State, s': State) {
    && (forall g :: g in s.gifts ==>
          && g in s'.gifts
          && s'.gifts[g].registration == s.gifts[g].registration
          && s'.gifts[g].from == s.gifts[g].from
          && (s.gifts[g].status.Claimed? ==> s'.gifts[g] == s.gifts[g]))
    && (forall g :: g in s'.gifts && s'.gifts[g].status.Claimed? ==> g in s.gifts && s.gifts[g].status.Claimed?)
  }

  /** Every claim already there stands where it stood. */
  ghost predicate ClaimsKept(s: State, s': State) {
    && (forall c :: c in s.claims ==> c in s'.claims && s'.claims[c] == s.claims[c])
    && (forall c :: c in s'.claims && c !in s.claims ==> ClaimOk(s', c))
  }

  lemma BystanderKeeps(s: State, s': State)
    requires Consistent(s)
    requires s'.moves == s.moves && s'.flippedBy == s.flippedBy && GiftsKept(s, s') && ClaimsKept(s, s')
    ensures Consistent(s')
  {
    forall c | c in s'.claims ensures ClaimOk(s', c) {
      if c in s.claims { assert ClaimOk(s, c); }
    }
    forall g | g in s'.gifts ensures GiftOk(s', g) {
      if g in s.gifts { assert GiftOk(s, g); }
    }
    forall i | 0 <= i < |s'.moves| ensures MoveOk(s', i) {
      assert MoveOk(s, i);
    }
  }

  lemma {:induction false} NewNameKeepsPath(origin: map<nat, Tenant>, moves: seq<Move>, r: nat, owner: Tenant)
    requires HistoryIsPath(origin, moves)
    requires r !in origin
    ensures HistoryIsPath(origin[r := owner], moves)
    ensures OwnersAfter(origin[r := owner], moves) == OwnersAfter(origin, moves)[r := owner]
    ensures OwnersAfter(origin, moves).Keys == origin.Keys
  {
    if moves != [] {
      var front, m := moves[..|moves| - 1], moves[|moves| - 1];
      PathSplits(origin, moves);
      NewNameKeepsPath(origin, front, r, owner);
      PathJoins(origin[r := owner], front, m);
      assert front + [m] == moves;
    }
  }

  lemma PathSplits(origin: map<nat, Tenant>, moves: seq<Move>)
    requires moves != [] && HistoryIsPath(origin, moves)
    ensures HistoryIsPath(origin, moves[..|moves| - 1])
    ensures MoveFits(OwnersAfter(origin, moves[..|moves| - 1]), moves[|moves| - 1])
  {
    var front := moves[..|moves| - 1];
    assert StepFits(origin, moves, |front|);
    forall i | 0 <= i < |front| ensures StepFits(origin, front, i) {
      assert StepFits(origin, moves, i) && front[..i] == moves[..i];
    }
  }

  lemma PathJoins(origin: map<nat, Tenant>, front: seq<Move>, m: Move)
    requires HistoryIsPath(origin, front)
    requires MoveFits(OwnersAfter(origin, front), m)
    ensures HistoryIsPath(origin, front + [m])
    ensures OwnersAfter(origin, front + [m]) == OwnersAfter(origin, front)[m.registration := m.to]
  {
    var moves := front + [m];
    assert moves[..|front|] == front;
    forall i | 0 <= i < |moves| ensures StepFits(origin, moves, i) {
      if i < |front| {
        assert StepFits(origin, front, i) && moves[..i] == front[..i];
      }
    }
  }

  lemma RegisterKeepsOwners(s: State, r: nat, owner: Tenant, domain: string)
    requires OwnersOk(s) && r !in s.regs
    ensures OwnersOk(Next(s, Register(r, owner, domain)))
  {
    NewNameKeepsPath(s.origin, s.moves, r, owner);
    assert Owners(s.regs[r := Registration(owner, domain, PendingPayment)]) == Owners(s.regs)[r := owner];
  }

  lemma SameOwners(s: State, s': State)
    requires OwnersOk(s)
    requires s'.origin == s.origin && s'.moves == s.moves && s'.regs.Keys == s.regs.Keys
    requires forall r :: r in s.regs ==> s'.regs[r].owner == s.regs[r].owner
    ensures OwnersOk(s')
  {
    assert Owners(s'.regs) == Owners(s.regs);
  }

  lemma MoveKeepsOwners(s: State, c: nat)
    requires OwnersOk(s)
    requires c in s.claims && s.claims[c].Flipped? && s.claims[c].to != s.claims[c].found.from
    ensures OwnersOk(Transfer(s, c))
  {
    var p := s.claims[c];
    var r := p.found.registration;
    if Holds(s, r, p.found.from) {
      PathJoins(s.origin, s.moves, Move(p.gift, r, p.found.from, p.to));
      assert Owners(s.regs[r := s.regs[r].(owner := p.to)]) == Owners(s.regs)[r := p.to];
    }
  }

  lemma OthersKeepOwners(s: State, a: Action)
    requires !a.Register? && !a.ClaimMove?
    ensures var s' := Next(s, a);
      && s'.origin == s.origin && s'.moves == s.moves && s'.regs.Keys == s.regs.Keys
      && forall r :: r in s.regs ==> s'.regs[r].owner == s.regs[r].owner
  {
    match a {
      case SetStatus(_, _) =>
      case CreatePick(_, _, _, _) =>
      case CreateClear(_) =>
      case CreateInsert(_, _, _, _) =>
      case CancelGift(_, _) =>
      case ClaimFind(_, _, _, _, _) =>
      case ClaimFlip(_, _) =>
      case ClaimUndo(_) =>
    }
  }

  lemma StepKeepsOwners(s: State, a: Action)
    requires Inv(s)
    ensures OwnersOk(Next(s, a))
  {
    match a {
      case Register(r, owner, domain) => if r !in s.regs { RegisterKeepsOwners(s, r, owner, domain); }
      case ClaimMove(c) =>
        if c in s.claims && s.claims[c].Flipped? {
          assert ClaimOk(s, c);
          MoveKeepsOwners(s, c);
        }
      case _ =>
        OthersKeepOwners(s, a);
        SameOwners(s, Next(s, a));
    }
  }

  lemma FlipKeepsClaim(s: State, c: nat, now: int, d: nat)
    requires c in s.claims && s.claims[c].Found? && ClaimOk(s, c)
    requires d in s.claims && ClaimOk(s, d)
    ensures ClaimOk(Flip(s, c, now), d)
  {
  }

  lemma FlipKeepsGift(s: State, c: nat, now: int, g: nat)
    requires c in s.claims && s.claims[c].Found? && ClaimOk(s, c)
    requires g in s.gifts && GiftOk(s, g)
    ensures GiftOk(Flip(s, c, now), g)
  {
  }

  lemma FlipKeepsMove(s: State, c: nat, now: int, i: nat)
    requires c in s.claims && s.claims[c].Found? && ClaimOk(s, c)
    requires i < |s.moves| && MoveOk(s, i)
    ensures MoveOk(Flip(s, c, now), i)
  {
  }

  lemma FlipKeeps(s: State, c: nat, now: int)
    requires Consistent(s)
    requires c in s.claims && s.claims[c].Found?
    ensures Consistent(Flip(s, c, now))
  {
    var s' := Flip(s, c, now);
    forall d | d in s'.claims ensures ClaimOk(s', d) {
      FlipKeepsClaim(s, c, now, d);
    }
    forall g | g in s'.gifts ensures GiftOk(s', g) {
      FlipKeepsGift(s, c, now, g);
    }
    forall i | 0 <= i < |s'.moves| ensures MoveOk(s', i) {
      FlipKeepsMove(s, c, now, i);
    }
  }

  lemma MoveKeepsClaim(s: State, c: nat, d: nat)
    requires c in s.claims && s.claims[c].Flipped? && ClaimOk(s, c)
    requires d in s.claims && ClaimOk(s, d)
    ensures ClaimOk(Transfer(s, c), d)
  {
  }

  lemma MoveKeepsMove(s: State, c: nat, i: nat)
    requires c in s.claims && s.claims[c].Flipped? && ClaimOk(s, c)
    requires i < |s.moves| ==> MoveOk(s, i)
    requires i < |Transfer(s, c).moves|
    ensures MoveOk(Transfer(s, c), i)
  {
  }

  lemma MoveKeeps(s: State, c: nat)
    requires Consistent(s)
    requires c in s.claims && s.claims[c].Flipped?
    ensures Consistent(Transfer(s, c))
  {
    var s' := Transfer(s, c);
    assert ClaimOk(s, c);
    forall d | d in s'.claims ensures ClaimOk(s', d) {
      MoveKeepsClaim(s, c, d);
    }
    forall g | g in s'.gifts ensures GiftOk(s', g) {
      assert GiftOk(s, g);
    }
    forall i | 0 <= i < |s'.moves| ensures MoveOk(s', i) {
      MoveKeepsMove(s, c, i);
    }
  }

  lemma UndoKeeps(s: State, c: nat)
    requires Consistent(s)
    requires c in s.claims && s.claims[c].NotHeld?
    ensures Consistent(Undo(s, c))
  {
    var s' := Undo(s, c);
    assert ClaimOk(s, c);
    forall d | d in s'.claims ensures ClaimOk(s', d) {
      assert ClaimOk(s, d);
    }
    forall g | g in s'.gifts ensures GiftOk(s', g) {
      assert GiftOk(s, g);
    }
    forall i | 0 <= i < |s'.moves| ensures MoveOk(s', i) {
      assert MoveOk(s, i);
    }
  }

  lemma FoundIsOk(s: State, c: nat, hit: nat, to: Tenant, now: int)
    requires c !in s.claims && hit in s.gifts
    ensures ClaimOk(FindRow(s, c, hit, to, now), c)
  {
  }

  lemma CancelKeepsGifts(s: State, s': State, from: Tenant, domain: string)
    requires s'.gifts == CancelPending(s.gifts, from, domain)
    ensures GiftsKept(s, s')
  {
  }

  lemma AddKeepsGifts(s: State, s': State, g: nat)
    requires s'.gifts == s.gifts
             || (g !in s.gifts && g in s'.gifts && s'.gifts[g].status.Pending? && s'.gifts == s.gifts[g := s'.gifts[g]])
    ensures GiftsKept(s, s')
  {
  }

  lemma OthersKeepGifts(s: State, a: Action)
    requires !a.ClaimFlip? && !a.ClaimMove? && !a.ClaimUndo?
    ensures Next(s, a).moves == s.moves && Next(s, a).flippedBy == s.flippedBy
    ensures GiftsKept(s, Next(s, a))
  {
    match a {
      case CreateClear(c) =>
        if c in s.creates && s.creates[c].Picked? {
          CancelKeepsGifts(s, Next(s, a), s.creates[c].from, s.creates[c].domain);
        }
      case CancelGift(from, domain) => CancelKeepsGifts(s, Next(s, a), from, domain);
      case CreateInsert(_, g, _, _) => AddKeepsGifts(s, Next(s, a), g);
      case _ => AddsNothing(s, a);
    }
  }

  lemma OthersKeepClaims(s: State, a: Action)
    requires !a.ClaimFlip? && !a.ClaimMove? && !a.ClaimUndo?
    ensures ClaimsKept(s, Next(s, a))
  {
    match a {
      case ClaimFind(c, tokenHash, to, hit, now) =>
        if c !in s.claims && TokenKnown(s, tokenHash) && hit.Some? && hit.value in s.gifts {
          FoundIsOk(s, c, hit.value, to, now);
        }
      case _ =>
    }
  }

  lemma StepKeepsInv(s: State, a: Action)
    requires Inv(s)
    ensures Inv(Next(s, a))
  {
    StepKeepsOwners(s, a);
    match a {
      case ClaimFlip(c, now) => if c in s.claims && s.claims[c].Found? { FlipKeeps(s, c, now); }
      case ClaimMove(c) => if c in s.claims && s.claims[c].Flipped? { MoveKeeps(s, c); }
      case ClaimUndo(c) => if c in s.claims && s.claims[c].NotHeld? { UndoKeeps(s, c); }
      case _ =>
        OthersKeepGifts(s, a);
        OthersKeepClaims(s, a);
        BystanderKeeps(s, Next(s, a));
    }
  }

  lemma {:induction false} EveryScheduleKeepsInv(acts: seq<Action>)
    ensures Inv(Exec(EMPTY, acts))
  {
    if acts == [] {
      assert Inv(EMPTY);
    } else {
      EveryScheduleKeepsInv(acts[..|acts| - 1]);
      StepKeepsInv(Exec(EMPTY, acts[..|acts| - 1]), acts[|acts| - 1]);
    }
  }

  lemma MovesDiffer(s: State, i: nat, j: nat)
    requires Inv(s)
    requires i < j < |s.moves|
    ensures s.moves[i].gift != s.moves[j].gift
  {
    assert MoveOk(s, i) && MoveOk(s, j);
  }

  /** Under every interleaving: each gift moves a registration at most once, each registration's
      owners form a path whose every step is one gift sent by the owner just before, and the
      end of that path is the owner in the table. */
  lemma OwnerHistoriesArePaths(acts: seq<Action>)
    ensures var s := Exec(EMPTY, acts);
      && HistoryIsPath(s.origin, s.moves)
      && OwnersAfter(s.origin, s.moves) == Owners(s.regs)
      && (forall i, j :: 0 <= i < j < |s.moves| ==> s.moves[i].gift != s.moves[j].gift)
      && (forall i :: 0 <= i < |s.moves| ==> MoveOk(s, i))
  {
    var s := Exec(EMPTY, acts);
    EveryScheduleKeepsInv(acts);
    forall i, j | 0 <= i < j < |s.moves| ensures s.moves[i].gift != s.moves[j].gift {
      MovesDiffer(s, i, j);
    }
  }

  function ClaimedGifts(gifts: map<nat, Gift>): set<nat> {
    set g | g in gifts && gifts[g].status.Claimed?
  }

  function Movers(moves: seq<Move>): (gs: seq<nat>)
    ensures |gs| == |moves| && forall i :: 0 <= i < |moves| ==> gs[i] == moves[i].gift
  {
    seq(|moves|, i requires 0 <= i < |moves| => moves[i].gift)
  }

  lemma QuietClaimedHasMove(s: State, g: nat) returns (i: nat)
    requires Consistent(s) && Quiet(s)
    requires g in s.gifts && s.gifts[g].status.Claimed?
    ensures i < |s.moves| && s.moves[i].gift == g
  {
    assert GiftOk(s, g);
    assert ClaimOk(s, s.flippedBy[g]);
    i := s.claims[s.flippedBy[g]].at;
  }

  lemma QuietMatch(s: State)
    requires Consistent(s) && Quiet(s)
    requires Distinct(Movers(s.moves))
    ensures ClaimedGifts(s.gifts) == Elements(Movers(s.moves))
    ensures |ClaimedGifts(s.gifts)| == |s.moves|
  {
    var movers := Movers(s.moves);
    forall g | g in ClaimedGifts(s.gifts) ensures g in movers {
      var i := QuietClaimedHasMove(s, g);
      assert movers[i] == g;
    }
    forall i | 0 <= i < |movers| ensures movers[i] in ClaimedGifts(s.gifts) {
      assert MoveOk(s, i);
    }
    DistinctSetSize(movers);
    assert Elements(movers) == ClaimedGifts(s.gifts);
  }

  /** With no claim in flight, claimed gifts and moves correspond one to one. */
  lemma ClaimedIffMoved(acts: seq<Action>)
    requires Quiet(Exec(EMPTY, acts))
    ensures Distinct(Movers(Exec(EMPTY, acts).moves))
    ensures ClaimedGifts(Exec(EMPTY, acts).gifts) == Elements(Movers(Exec(EMPTY, acts).moves))
    ensures |ClaimedGifts(Exec(EMPTY, acts).gifts)| == |Exec(EMPTY, acts).moves|
  {
    var s := Exec(EMPTY, acts);
    OwnerHistoriesArePaths(acts);
    EveryScheduleKeepsInv(acts);
    assert Distinct(Movers(s.moves));
    QuietMatch(s);
  }

  // ------------------------------------------------------ one link per name

  /** The pending links of a giver for a name. */
  function PendingLinks(s: State, from: Tenant, domain: string): set<nat> {
    set g | g in s.gifts && s.gifts[g].from == from && s.gifts[g].domain == domain && s.gifts[g].status.Pending?
  }

  ghost predicate AtMostOneLink(s: State, from: Tenant, domain: string) {
    forall g, h :: g in PendingLinks(s, from, domain) && h in PendingLinks(s, from, domain) ==> g == h
  }

  /** No giver has two pending links for one name. */
  ghost predicate OneLinkEach(s: State) {
    forall from: Tenant, domain: string :: AtMostOneLink(s, from, domain)
  }

  /** The statement inserts a link of this giver for this name. */
  predicate InsertsFor(s: State, a: Action, from: Tenant, domain: string) {
    && a.CreateInsert? && a.call in s.creates && s.creates[a.call].Cleared?
    && s.creates[a.call].from == from && s.creates[a.call].domain == domain
    && a.gift !in s.gifts && !TokenKnown(s, a.tokenHash)
  }

  /** The statement inserts a link beside one that is pending. */
  predicate InsertsBeside(s: State, a: Action) {
    && a.CreateInsert? && a.call in s.creates && s.creates[a.call].Cleared?
    && InsertsFor(s, a, s.creates[a.call].from, s.creates[a.call].domain)
    && PendingLinks(s, s.creates[a.call].from, s.creates[a.call].domain) != {}
  }

  lemma InsertAddsLink(s: State, a: Action, from: Tenant, domain: string)
    requires InsertsFor(s, a, from, domain)
    ensures PendingLinks(Next(s, a), from, domain) == PendingLinks(s, from, domain) + {a.gift}
    ensures a.gift !in PendingLinks(s, from, domain)
  {
  }

  /** No other statement adds a pending link. */
  lemma OthersAddNoLink(s: State, a: Action, from: Tenant, domain: string)
    requires Consistent(s) && !InsertsFor(s, a, from, domain)
    ensures PendingLinks(Next(s, a), from, domain) <= PendingLinks(s, from, domain)
  {
    match a {
      case ClaimFlip(c, now) => assert c in s.claims ==> ClaimOk(s, c);
      case ClaimUndo(c) =>
      case ClaimMove(c) =>
      case CreateClear(c) =>
      case CancelGift(_, _) =>
      case CreateInsert(_, _, _, _) =>
      case _ => AddsNothing(s, a);
    }
  }

  lemma AddsNothing(s: State, a: Action)
    requires a.Register? || a.SetStatus? || a.CreatePick? || a.ClaimFind?
    ensures Next(s, a).gifts == s.gifts
  {
  }

  /** One statement keeps at most one pending link per giver and name if and only if it does not
      insert a link beside one that is pending. */
  lemma OneLinkStepIff(s: State, a: Action)
    requires Consistent(s) && OneLinkEach(s)
    ensures OneLinkEach(Next(s, a)) <==> !InsertsBeside(s, a)
  {
    var s' := Next(s, a);
    if InsertsBeside(s, a) {
      var from, domain := s.creates[a.call].from, s.creates[a.call].domain;
      InsertAddsLink(s, a, from, domain);
      var g :| g in PendingLinks(s, from, domain);
      assert g in PendingLinks(s', from, domain) && a.gift in PendingLinks(s', from, domain);
      assert !AtMostOneLink(s', from, domain);
    } else {
      forall from: Tenant, domain: string ensures AtMostOneLink(s', from, domain) {
        assert AtMostOneLink(s, from, domain);
        if InsertsFor(s, a, from, domain) {
          InsertAddsLink(s, a, from, domain);
        } else {
          OthersAddNoLink(s, a, from, domain);
        }
      }
    }
  }

  ghost predicate AlwaysOneLinkEach(acts: seq<Action>) {
    acts == [] || (AlwaysOneLinkEach(acts[..|acts| - 1]) && OneLinkEach(Exec(EMPTY, acts)))
  }

  predicate NeverInsertsBeside(acts: seq<Action>) {
    acts == [] || (NeverInsertsBeside(acts[..|acts| - 1]) && !InsertsBeside(Exec(EMPTY, acts[..|acts| - 1]), acts[|acts| - 1]))
  }

  /** Under a schedule no giver ever has two pending links for one name if and only if no statement
      of it inserts a link beside one that is pending. */
  lemma {:induction false} OneLinkEachIff(acts: seq<Action>)
    ensures AlwaysOneLinkEach(acts) <==> NeverInsertsBeside(acts)
  {
    if acts != [] {
      var front := acts[..|acts| - 1];
      OneLinkEachIff(front);
      if AlwaysOneLinkEach(front) {
        EveryScheduleKeepsInv(front);
        OneLinkStepIff(Exec(EMPTY, front), acts[|acts| - 1]);
      }
    }
  }

  /** Whether some statement inserts a link of this giver for this name. */
  predicate SomeInsertsFor(s: State, acts: seq<Action>, from: Tenant, domain: string) {
    acts != []
    && (SomeInsertsFor(s, acts[..|acts| - 1], from, domain)
        || InsertsFor(Exec(s, acts[..|acts| - 1]), acts[|acts| - 1], from, domain))
  }

  lemma {:induction false} StepsKeepConsistent(s: State, acts: seq<Action>)
    requires Inv(s)
    ensures Inv(Exec(s, acts))
  {
    if acts != [] {
      StepsKeepConsistent(s, acts[..|acts| - 1]);
      StepKeepsInv(Exec(s, acts[..|acts| - 1]), acts[|acts| - 1]);
    }
  }

  lemma {:induction false} NoInsertNoNewLink(s: State, acts: seq<Action>, from: Tenant, domain: string)
    requires Inv(s) && !SomeInsertsFor(s, acts, from, domain)
    ensures PendingLinks(Exec(s, acts), from, domain) <= PendingLinks(s, from, domain)
  {
    if acts != [] {
      var front := acts[..|acts| - 1];
      NoInsertNoNewLink(s, front, from, domain);
      StepsKeepConsistent(s, front);
      OthersAddNoLink(Exec(s, front), acts[|acts| - 1], from, domain);
    }
  }
}
