/** Paid-name fulfilment behind the Stripe webhook: apps/cloud/lib/registrar.ts
    (`fulfilNameCheckout`) inside apps/cloud/lib/billing.ts (`handleStripeWebhook`).

    Every await of a delivery is one atomic step with the outcome of the outside world given;
    a delivery may crash between any two steps, and Stripe may deliver any event any number of
    times. A database statement that fails changes nothing, except that the update to registered
    may also commit and then report an error. For every other statement that is the statement
    followed by a crash. */
module Fulfilment {
  import opened Common

  datatype Status = PendingPayment | Registering | Registered | Failed

  /** A checkout event: the registration its metadata names, and whether it carries a payment. */
  datatype CheckoutEvent = CheckoutEvent(id: nat, registration: nat, hasPayment: bool)

  /** Where one delivery stands. */
  datatype Stage =
    | Received
    | Fresh        // not seen before by the event table
    | Pending      // the row was read as pending_payment
    | Claimed      // the row says registering
    | Bought       // the registrar accepted the name
    | Minted       // the identity exists
    | Failing      // something threw
    | Refunded     // the refund, if any, has been tried
    | Settled      // nothing left but to note the event
    | Finished
    | Crashed

  datatype Delivery = Delivery(event: CheckoutEvent, stage: Stage)

  /** Calls to the outside world. */
  datatype Effect = RegisterCall(registration: nat) | RefundCall(registration: nat)

  datatype State = State(
    status: map<nat, Status>,
    seen: set<nat>,
    deliveries: map<nat, Delivery>,
    effects: seq<Effect>,
    unheard: set<nat>) // registrations whose update to registered committed and reported an error

  const EMPTY := State(map[], {}, map[], [], {})

  datatype Action =
    | Order(registration: nat)
    | Deliver(id: nat, event: CheckoutEvent)
    | CheckSeen(id: nat)
    | ReadRow(id: nat)
    | MarkRegistering(id: nat)
    | RegisterDomain(id: nat, ok: bool)
    | MintIdentity(id: nat, ok: bool)
    | MarkRegistered(id: nat, ok: bool)
    | LoseReply(id: nat) // the update to registered commits and reports an error
    | TryRefund(id: nat)
    | MarkFailed(id: nat)
    | NoteEvent(id: nat)
    | Crash(id: nat)

  predicate Running(st: Stage) { !st.Finished? && !st.Crashed? }

  function At(s: State, id: nat, st: Stage): State
    requires id in s.deliveries
  {
    s.(deliveries := s.deliveries[id := s.deliveries[id].(stage := st)])
  }

  function SetStatus(s: State, r: nat, to: Status): State {
    if r in s.status then s.(status := s.status[r := to]) else s
  }

  /** The step of delivery `id` that follows its stage, with the outcome the action gives. */
  function Proceed(s: State, id: nat, a: Action): State
    requires id in s.deliveries
  {
    var e := s.deliveries[id].event;
    var r := e.registration;
    match (s.deliveries[id].stage, a)
    case (Received, CheckSeen(_)) => At(s, id, if e.id in s.seen then Finished else Fresh)
    case (Fresh, ReadRow(_)) => At(s, id, if r in s.status && s.status[r].PendingPayment? then Pending else Settled)
    case (Pending, MarkRegistering(_)) => At(SetStatus(s, r, Registering), id, Claimed)
    case (Claimed, RegisterDomain(_, ok)) =>
      At(s.(effects := s.effects + [RegisterCall(r)]), id, if ok then Bought else Failing)
    case (Bought, MintIdentity(_, ok)) => At(s, id, if ok then Minted else Failing)
    case (Minted, MarkRegistered(_, ok)) =>
      if ok then At(SetStatus(s, r, Registered), id, Settled) else At(s, id, Failing)
    case (Minted, LoseReply(_)) => At(SetStatus(s, r, Registered).(unheard := s.unheard + {r}), id, Failing)
    case (Failing, TryRefund(_)) =>
      At(if e.hasPayment then s.(effects := s.effects + [RefundCall(r)]) else s, id, Refunded)
    case (Refunded, MarkFailed(_)) => At(SetStatus(s, r, Failed), id, Settled)
    case (Settled, NoteEvent(_)) => At(s.(seen := s.seen + {e.id}), id, Finished)
    case (st, Crash(_)) => if Running(st) then At(s, id, Crashed) else s
    case _ => s
  }

  function Next(s: State, a: Action): State {
    if a.Order? then
      if a.registration in s.status then s else s.(status := s.status[a.registration := PendingPayment])
    else if a.Deliver? then
      if a.id in s.deliveries then s else s.(deliveries := s.deliveries[a.id := Delivery(a.event, Received)])
    else if a.id in s.deliveries then Proceed(s, a.id, a) else s
  }

  function Exec(s: State, acts: seq<Action>): State {
    if acts == [] then s else Next(Exec(s, acts[..|acts| - 1]), acts[|acts| - 1])
  }

  /** From its read of a pending row to its last word on it a delivery owns the row. */
  predicate Owns(st: Stage) {
    st.Pending? || st.Claimed? || st.Bought? || st.Minted? || st.Failing? || st.Refunded?
  }

  /** The step reads a pending row that another delivery has read and not yet claimed. */
  ghost predicate DoubleRead(s: State, a: Action) {
    && a.ReadRow? && a.id in s.deliveries && s.deliveries[a.id].stage.Fresh?
    && exists d :: d in s.deliveries && d != a.id && s.deliveries[d].stage.Pending?
         && s.deliveries[d].event.registration == s.deliveries[a.id].event.registration
         && s.deliveries[d].event.registration in s.status && s.status[s.deliveries[d].event.registration].PendingPayment?
  }

  ghost predicate NoDoubleRead(s: State, acts: seq<Action>) {
    acts == [] || (NoDoubleRead(s, acts[..|acts| - 1]) && !DoubleRead(Exec(s, acts[..|acts| - 1]), acts[|acts| - 1]))
  }

  /** No delivery for registration `r` is under way. */
  ghost predicate Idle(s: State, r: nat) {
    forall d :: d in s.deliveries && s.deliveries[d].event.registration == r ==> !Running(s.deliveries[d].stage)
  }

  /** Deliveries for one registration come one after the other: each starts when the earlier ones
      have finished or crashed. Deliveries for different registrations may overlap. */
  ghost predicate Serial(s: State, acts: seq<Action>) {
    forall i :: 0 <= i < |acts| && acts[i].Deliver? ==> Idle(Exec(s, acts[..i]), acts[i].event.registration)
  }

  // ------------------------------------------------------------- accounting

  function Calls(effects: seq<Effect>, what: Effect): nat {
    if effects == [] then 0
    else Calls(effects[..|effects| - 1], what) + if effects[|effects| - 1] == what then 1 else 0
  }

  lemma CallsGrow(effects: seq<Effect>, e: Effect, what: Effect)
    ensures Calls(effects + [e], what) == Calls(effects, what) + if e == what then 1 else 0
  {
    assert (effects + [e])[..|effects|] == effects;
  }

  function Registrations(s: State, r: nat): nat { Calls(s.effects, RegisterCall(r)) }

  function Refunds(s: State, r: nat): nat { Calls(s.effects, RefundCall(r)) }

  /** The row of a sale that failed: still registering, or registered without the delivery knowing. */
  predicate SaleOpen(s: State, r: nat) {
    r in s.status && if r in s.unheard then s.status[r].Registered? else s.status[r].Registering?
  }

  /** What the stage of a running delivery says about its registration. */
  ghost predicate StageOk(s: State, d: nat)
    requires d in s.deliveries
  {
    var r := s.deliveries[d].event.registration;
    match s.deliveries[d].stage
    case Pending => r in s.status && s.status[r].PendingPayment?
    case Claimed => r in s.status && s.status[r].Registering? && Registrations(s, r) == 0 && Refunds(s, r) == 0
    case Bought => r in s.status && s.status[r].Registering? && Refunds(s, r) == 0
    case Minted => r in s.status && s.status[r].Registering? && Refunds(s, r) == 0
    case Failing => SaleOpen(s, r) && Refunds(s, r) == 0
    case Refunded => SaleOpen(s, r)
    case _ => true
  }

  ghost predicate RowOk(s: State, r: nat) {
    && Registrations(s, r) <= 1
    && Refunds(s, r) <= 1
    && (r !in s.status || s.status[r].PendingPayment? ==> Registrations(s, r) == 0 && Refunds(s, r) == 0)
    && (r in s.status && s.status[r].Registered? && r !in s.unheard ==> Refunds(s, r) == 0)
    && (r in s.unheard ==> r in s.status && (s.status[r].Registered? || s.status[r].Failed?))
  }

  /** At most one delivery owns each row. */
  ghost predicate OneOwner(s: State) {
    forall c, d :: c in s.deliveries && d in s.deliveries && c != d
      && Owns(s.deliveries[c].stage) && Owns(s.deliveries[d].stage)
      ==> s.deliveries[c].event.registration != s.deliveries[d].event.registration
  }

  ghost predicate Inv(s: State) {
    && OneOwner(s)
    && (forall d :: d in s.deliveries ==> StageOk(s, d))
    && (forall r :: RowOk(s, r))
  }

  /** How a status may change in one step. */
  predicate StatusStep(from: Status, to: Status) {
    from == to || (from.PendingPayment? && to.Registering?) || (from.Registering? && (to.Registered? || to.Failed?))
  }

  /** Only a delivery that did not hear of its success takes registered back. */
  ghost predicate TakenBack(s: State, s': State, r: nat)
    requires r in s.status && r in s'.status
  {
    s.status[r].Registered? && s'.status[r].Failed? && r in s.unheard
  }

  ghost predicate StatusSteps(s: State, s': State) {
    forall r :: r in s.status ==>
      r in s'.status && (StatusStep(s.status[r], s'.status[r]) || TakenBack(s, s', r))
  }

  /** How a status may change in any number of steps. */
  predicate Onward(from: Status, to: Status) {
    from == to || from.PendingPayment? || (from.Registering? && (to.Registered? || to.Failed?))
  }

  ghost predicate StatusOnward(s: State, s': State) {
    forall r :: r in s.status ==>
      r in s'.status && (Onward(s.status[r], s'.status[r]) || (r in s'.unheard && s'.status[r].Failed?))
  }

  /** A step on row `r` by its owner, or one that leaves row and calls alone, keeps the others. */
  lemma OtherDeliveriesKeep(s: State, s': State, id: nat, r: nat)
    requires Inv(s)
    requires id in s.deliveries && s.deliveries[id].event.registration == r
    requires s'.deliveries.Keys == s.deliveries.Keys
    requires forall d :: d in s.deliveries && d != id ==> s'.deliveries[d] == s.deliveries[d]
    requires forall q :: q != r ==> SameRow(s, s', q)
    requires Owns(s.deliveries[id].stage) || SameRow(s, s', r)
    ensures forall d :: d in s'.deliveries && d != id ==> StageOk(s', d)
    ensures forall q :: q != r ==> RowOk(s', q)
  {
    forall d | d in s'.deliveries && d != id ensures StageOk(s', d) {
      assert StageOk(s, d);
      var q := s.deliveries[d].event.registration;
      if !SameRow(s, s', q) {
        assert q == r && Owns(s.deliveries[id].stage);
        assert !Owns(s.deliveries[d].stage);
      }
    }
    forall q | q != r ensures RowOk(s', q) {
      assert SameRow(s, s', q) && RowOk(s, q);
    }
  }

  /** The row and the calls made for it are the same. */
  ghost predicate SameRow(s: State, s': State, q: nat) {
    && Registrations(s', q) == Registrations(s, q) && Refunds(s', q) == Refunds(s, q)
    && (q in s'.status <==> q in s.status) && (q in s.status ==> s'.status[q] == s.status[q])
    && (q in s'.unheard <==> q in s.unheard)
  }

  /** What the step calls in the outside world. */
  function EffectsOf(d: Delivery, a: Action): seq<Effect> {
    if a.RegisterDomain? && d.stage.Claimed? then [RegisterCall(d.event.registration)]
    else if a.TryRefund? && d.stage.Failing? && d.event.hasPayment then [RefundCall(d.event.registration)]
    else []
  }

  lemma EffectsAppended(s: State, id: nat, a: Action)
    requires id in s.deliveries
    ensures Proceed(s, id, a).effects == s.effects + EffectsOf(s.deliveries[id], a)
  {
  }

  /** The effects of one step are calls for its own registration. */
  lemma EffectsOfStep(s: State, id: nat, a: Action, q: nat)
    requires id in s.deliveries
    ensures var s', d := Proceed(s, id, a), s.deliveries[id];
      && Registrations(s', q) == Registrations(s, q) + (if RegisterCall(q) in EffectsOf(d, a) then 1 else 0)
      && Refunds(s', q) == Refunds(s, q) + (if RefundCall(q) in EffectsOf(d, a) then 1 else 0)
  {
    hide Proceed, Calls;
    var es := EffectsOf(s.deliveries[id], a);
    EffectsAppended(s, id, a);
    if es == [] {
      assert s.effects + es == s.effects;
    } else {
      CallsGrow(s.effects, es[0], RegisterCall(q));
      CallsGrow(s.effects, es[0], RefundCall(q));
    }
  }

  lemma RowUntouched(s: State, id: nat, a: Action, q: nat)
    requires id in s.deliveries
    requires q != s.deliveries[id].event.registration || !Owns(s.deliveries[id].stage)
    ensures var s' := Proceed(s, id, a);
      && (q in s'.status <==> q in s.status) && (q in s.status ==> s'.status[q] == s.status[q])
      && (q in s'.unheard <==> q in s.unheard)
  {
  }

  lemma StatusElsewhere(s: State, id: nat, a: Action, q: nat)
    requires id in s.deliveries
    requires q != s.deliveries[id].event.registration || !Owns(s.deliveries[id].stage)
    ensures SameRow(s, Proceed(s, id, a), q)
  {
    hide Proceed, Calls;
    RowUntouched(s, id, a, q);
    EffectsOfStep(s, id, a, q);
  }

  lemma StatusOfStep(s: State, id: nat, a: Action)
    requires id in s.deliveries && StageOk(s, id)
    ensures StatusSteps(s, Proceed(s, id, a))
  {
  }

  /** What the stage a step leads to says about the row's status and the calls the step made. */
  ghost predicate StageReached(s: State, s': State, id: nat, a: Action)
    requires id in s.deliveries && id in s'.deliveries
  {
    var d, r := s.deliveries[id], s.deliveries[id].event.registration;
    && s'.deliveries[id].event == d.event
    && match s'.deliveries[id].stage
       case Pending => r in s'.status && s'.status[r].PendingPayment?
       case Claimed =>
         r in s.status && s.status[r].PendingPayment? && r in s'.status && s'.status[r].Registering? && EffectsOf(d, a) == []
       case Bought => d.stage.Claimed? && r in s'.status && s'.status[r].Registering?
       case Minted => d.stage.Bought? && r in s'.status && s'.status[r].Registering?
       case Failing => (d.stage.Claimed? || d.stage.Bought? || d.stage.Minted?) && SaleOpen(s', r)
       case Refunded => SaleOpen(s', r)
       case _ => true
  }

  lemma StageIsReached(s: State, id: nat, a: Action)
    requires id in s.deliveries && StageOk(s, id) && RowOk(s, s.deliveries[id].event.registration)
    requires Proceed(s, id, a) != s
    ensures StageReached(s, Proceed(s, id, a), id, a)
  {
  }

  lemma OwnStageOk(s: State, s': State, id: nat, a: Action)
    requires id in s.deliveries && StageOk(s, id) && RowOk(s, s.deliveries[id].event.registration)
    requires id in s'.deliveries && StageReached(s, s', id, a)
    requires var d, r := s.deliveries[id], s.deliveries[id].event.registration;
      && Registrations(s', r) == Registrations(s, r) + (if RegisterCall(r) in EffectsOf(d, a) then 1 else 0)
      && Refunds(s', r) == Refunds(s, r) + (if RefundCall(r) in EffectsOf(d, a) then 1 else 0)
    ensures StageOk(s', id)
  {
  }

  lemma OwnRowOk(s: State, id: nat, a: Action)
    requires id in s.deliveries && StageOk(s, id) && RowOk(s, s.deliveries[id].event.registration)
    requires Proceed(s, id, a) != s
    ensures RowOk(Proceed(s, id, a), s.deliveries[id].event.registration)
  {
    EffectsOfStep(s, id, a, s.deliveries[id].event.registration);
  }

  /** A step changes one stage, and nothing that is over runs again. */
  lemma StageOfStep(s: State, id: nat, a: Action)
    requires id in s.deliveries
    ensures var s' := Proceed(s, id, a);
      && s'.deliveries == s.deliveries[id := s.deliveries[id].(stage := s'.deliveries[id].stage)]
      && (Running(s'.deliveries[id].stage) ==> Running(s.deliveries[id].stage))
  {
  }

  /** A delivery comes to own a row only by reading it pending. */
  lemma OwnerOfStep(s: State, id: nat, a: Action)
    requires id in s.deliveries
    ensures var s', r := Proceed(s, id, a), s.deliveries[id].event.registration;
      Owns(s'.deliveries[id].stage) && !Owns(s.deliveries[id].stage)
      ==> a.ReadRow? && s.deliveries[id].stage.Fresh? && r in s.status && s.status[r].PendingPayment?
  {
  }

  /** An owner of a pending row has not claimed it yet. */
  ghost predicate ClaimedWhenPast(s: State, d: nat)
    requires d in s.deliveries
  {
    var r := s.deliveries[d].event.registration;
    Owns(s.deliveries[d].stage) && r in s.status && s.status[r].PendingPayment? ==> s.deliveries[d].stage.Pending?
  }

  lemma StepKeepsOneOwner(s: State, id: nat, a: Action)
    requires OneOwner(s) && forall d :: d in s.deliveries ==> ClaimedWhenPast(s, d)
    requires id in s.deliveries && !a.Order? && a.id == id && !DoubleRead(s, a)
    ensures OneOwner(Proceed(s, id, a))
  {
    hide Proceed;
    StageOfStep(s, id, a);
    OwnerOfStep(s, id, a);
    var r := s.deliveries[id].event.registration;
    forall d | d in s.deliveries && d != id && s.deliveries[d].event.registration == r
      ensures !(Owns(Proceed(s, id, a).deliveries[id].stage) && Owns(s.deliveries[d].stage))
    {
      assert ClaimedWhenPast(s, d);
    }
  }

  lemma ProceedKeepsInv(s: State, id: nat, a: Action)
    requires Inv(s)
    requires id in s.deliveries && !a.Order? && a.id == id && Proceed(s, id, a) != s && !DoubleRead(s, a)
    ensures Inv(Proceed(s, id, a))
    ensures StatusSteps(s, Proceed(s, id, a))
  {
    var s' := Proceed(s, id, a);
    var r := s.deliveries[id].event.registration;
    assert StageOk(s, id) && RowOk(s, r);
    forall q | q != r || !Owns(s.deliveries[id].stage) ensures SameRow(s, s', q) {
      StatusElsewhere(s, id, a, q);
    }
    StatusOfStep(s, id, a);
    StageOfStep(s, id, a);
    forall d | d in s.deliveries ensures ClaimedWhenPast(s, d) {
      assert StageOk(s, d);
    }
    StepKeepsOneOwner(s, id, a);
    OtherDeliveriesKeep(s, s', id, r);
    StageIsReached(s, id, a);
    EffectsOfStep(s, id, a, r);
    OwnStageOk(s, s', id, a);
    OwnRowOk(s, id, a);
  }

  /** Every step of every delivery that does not read a row twice keeps each row's account, and
      moves each status by one legal step at most. */
  lemma StepKeepsInv(s: State, a: Action)
    requires Inv(s) && !DoubleRead(s, a)
    ensures Inv(Next(s, a))
    ensures StatusSteps(s, Next(s, a))
  {
    var s' := Next(s, a);
    if s' != s {
      if a.Order? || a.Deliver? {
        forall d | d in s'.deliveries ensures StageOk(s', d) {
          if d in s.deliveries { assert StageOk(s, d); }
        }
        forall r ensures RowOk(s', r) {
          assert RowOk(s, r);
        }
      } else {
        ProceedKeepsInv(s, a.id, a);
      }
    }
  }

  lemma {:induction false} RunKeepsInv(s: State, acts: seq<Action>)
    requires Inv(s) && NoDoubleRead(s, acts)
    ensures Inv(Exec(s, acts))
    ensures StatusOnward(s, Exec(s, acts))
  {
    if acts != [] {
      RunKeepsInv(s, acts[..|acts| - 1]);
      StepKeepsInv(Exec(s, acts[..|acts| - 1]), acts[|acts| - 1]);
    }
  }

  lemma EmptyIsOk()
    ensures Inv(EMPTY)
  {
    assert forall q :: RowOk(EMPTY, q);
  }

  /** The step updates row `r` to registered and reports an error. */
  ghost predicate Unheard(s: State, a: Action, r: nat) {
    a.LoseReply? && a.id in s.deliveries && s.deliveries[a.id].stage.Minted? && s.deliveries[a.id].event.registration == r
  }

  ghost predicate AlwaysHeard(s: State, acts: seq<Action>, r: nat) {
    acts == [] || (AlwaysHeard(s, acts[..|acts| - 1], r) && !Unheard(Exec(s, acts[..|acts| - 1]), acts[|acts| - 1], r))
  }

  lemma {:induction false} UnheardIff(s: State, acts: seq<Action>, r: nat)
    ensures r in Exec(s, acts).unheard <==> r in s.unheard || !AlwaysHeard(s, acts, r)
  {
    if acts != [] {
      UnheardIff(s, acts[..|acts| - 1], r);
      UnheardStep(Exec(s, acts[..|acts| - 1]), acts[|acts| - 1], r);
    }
  }

  lemma UnheardStep(s: State, a: Action, r: nat)
    ensures r in Next(s, a).unheard <==> r in s.unheard || Unheard(s, a, r)
  {
  }

  /** For any mix of deliveries, replays and crashes at any await, overlapping or not, in which no
      delivery reads a pending row that another has read and not yet claimed: each registration
      causes at most one call to the registrar and at most one refund; and if no update of it to
      registered committed and reported an error, it is not registered once a refund was made and
      its status only moves onward. */
  lemma EachNameOnce(before: seq<Action>, after: seq<Action>, r: nat)
    requires NoDoubleRead(EMPTY, before + after)
    ensures var s, s' := Exec(EMPTY, before), Exec(Exec(EMPTY, before), after);
      && Registrations(s', r) <= 1
      && Refunds(s', r) <= 1
      && StatusOnward(s, s')
      && (AlwaysHeard(EMPTY, before + after, r) ==>
            && (Refunds(s, r) > 0 && r in s'.status ==> !s'.status[r].Registered?)
            && (r in s.status ==> Onward(s.status[r], s'.status[r])))
  {
    EmptyIsOk();
    NoDoubleReadConcat(EMPTY, before, after);
    var s := Exec(EMPTY, before);
    RunKeepsInv(EMPTY, before);
    RunKeepsInv(s, after);
    assert RowOk(Exec(s, after), r);
    RefundsOnlyGrow(s, after, r);
    UnheardIff(EMPTY, before + after, r);
    ExecConcat(EMPTY, before, after);
  }

  /** A row that was pending and is registered or failed was registering in between. */
  lemma {:induction false} PassesThroughRegistering(s: State, acts: seq<Action>, r: nat) returns (i: nat)
    requires Inv(s) && NoDoubleRead(s, acts)
    requires r in s.status && s.status[r].PendingPayment?
    requires r in Exec(s, acts).status && (Exec(s, acts).status[r].Registered? || Exec(s, acts).status[r].Failed?)
    ensures i <= |acts| && r in Exec(s, acts[..i]).status && Exec(s, acts[..i]).status[r].Registering?
  {
    hide Next, Inv;
    var front, last := acts[..|acts| - 1], acts[|acts| - 1];
    RunKeepsInv(s, front);
    StepKeepsInv(Exec(s, front), last);
    assert r in Exec(s, front).status;
    if Exec(s, front).status[r].Registering? {
      i := |front|;
    } else {
      i := PassesThroughRegistering(s, front, r);
      assert acts[..i] == front[..i];
    }
  }

  lemma {:induction false} RefundsOnlyGrow(s: State, acts: seq<Action>, r: nat)
    ensures Refunds(Exec(s, acts), r) >= Refunds(s, r)
  {
    if acts != [] {
      var front, a := acts[..|acts| - 1], acts[|acts| - 1];
      RefundsOnlyGrow(s, front, r);
      if !a.Order? && !a.Deliver? && a.id in Exec(s, front).deliveries {
        EffectsOfStep(Exec(s, front), a.id, a, r);
      }
    }
  }

  lemma {:induction false} ExecConcat(s: State, a: seq<Action>, b: seq<Action>)
    ensures Exec(s, a + b) == Exec(Exec(s, a), b)
  {
    if b == [] {
      assert a + b == a;
    } else {
      assert (a + b)[..|a + b| - 1] == a + b[..|b| - 1];
      ExecConcat(s, a, b[..|b| - 1]);
    }
  }

  lemma {:induction false} NoDoubleReadConcat(s: State, a: seq<Action>, b: seq<Action>)
    ensures NoDoubleRead(s, a + b) <==> NoDoubleRead(s, a) && NoDoubleRead(Exec(s, a), b)
  {
    if b == [] {
      assert a + b == a;
    } else {
      assert (a + b)[..|a + b| - 1] == a + b[..|b| - 1];
      NoDoubleReadConcat(s, a, b[..|b| - 1]);
      ExecConcat(s, a, b[..|b| - 1]);
    }
  }

  // ------------------------------------------- serial deliveries are enough

  ghost predicate OneRunning(s: State) {
    forall c, d :: c in s.deliveries && d in s.deliveries && c != d
      && Running(s.deliveries[c].stage) && Running(s.deliveries[d].stage)
      ==> s.deliveries[c].event.registration != s.deliveries[d].event.registration
  }

  lemma SerialSplits(s: State, acts: seq<Action>)
    requires acts != [] && Serial(s, acts)
    ensures Serial(s, acts[..|acts| - 1])
    ensures acts[|acts| - 1].Deliver? ==> Idle(Exec(s, acts[..|acts| - 1]), acts[|acts| - 1].event.registration)
  {
    var front := acts[..|acts| - 1];
    assert forall i :: 0 <= i < |front| ==> front[..i] == acts[..i];
  }

  lemma StepKeepsOneRunning(s: State, a: Action)
    requires OneRunning(s)
    requires a.Deliver? ==> Idle(s, a.event.registration)
    ensures OneRunning(Next(s, a))
  {
    if !a.Order? && !a.Deliver? && a.id in s.deliveries {
      StageOfStep(s, a.id, a);
    }
  }

  /** When deliveries for one registration come one after the other, no row is read twice. */
  lemma {:induction false} SerialNeverReadsTwice(acts: seq<Action>)
    requires Serial(EMPTY, acts)
    ensures OneRunning(Exec(EMPTY, acts)) && NoDoubleRead(EMPTY, acts)
  {
    if acts != [] {
      SerialSplits(EMPTY, acts);
      SerialNeverReadsTwice(acts[..|acts| - 1]);
      StepKeepsOneRunning(Exec(EMPTY, acts[..|acts| - 1]), acts[|acts| - 1]);
    }
  }

  // ------------------------------------------------------ exactly when twice

  /** Two deliveries that both read the row pending go on to claim and buy it. */
  function BothGoOn(c: nat, d: nat): seq<Action> {
    [MarkRegistering(c), MarkRegistering(d)] + [RegisterDomain(c, true), RegisterDomain(d, true)]
  }

  lemma ExecTwo(s: State, a: Action, b: Action)
    ensures Exec(s, [a, b]) == Next(Next(s, a), b)
  {
    assert [a, b][..1] == [a] && [a][..0] == [];
    assert Exec(s, [a]) == Next(s, a);
  }

  lemma BothClaim(s: State, c: nat, d: nat)
    requires c in s.deliveries && d in s.deliveries && c != d
    requires s.deliveries[c].stage.Pending? && s.deliveries[d].stage.Pending?
    ensures var s' := Exec(s, [MarkRegistering(c), MarkRegistering(d)]);
      && s'.effects == s.effects && c in s'.deliveries && d in s'.deliveries
      && s'.deliveries[c] == s.deliveries[c].(stage := Claimed) && s'.deliveries[d] == s.deliveries[d].(stage := Claimed)
  {
    ExecTwo(s, MarkRegistering(c), MarkRegistering(d));
  }

  lemma BothBuy(s: State, c: nat, d: nat)
    requires c in s.deliveries && d in s.deliveries && c != d
    requires s.deliveries[c].stage.Claimed? && s.deliveries[d].stage.Claimed?
    ensures Exec(s, [RegisterDomain(c, true), RegisterDomain(d, true)]).effects
         == s.effects + [RegisterCall(s.deliveries[c].event.registration)] + [RegisterCall(s.deliveries[d].event.registration)]
  {
    ExecTwo(s, RegisterDomain(c, true), RegisterDomain(d, true));
  }

  lemma TwoPendingBuyTwice(s: State, c: nat, d: nat)
    requires c in s.deliveries && d in s.deliveries && c != d
    requires s.deliveries[c].stage.Pending? && s.deliveries[d].stage.Pending?
    requires s.deliveries[c].event.registration == s.deliveries[d].event.registration
    ensures var r := s.deliveries[c].event.registration;
      Registrations(Exec(s, BothGoOn(c, d)), r) == Registrations(s, r) + 2
  {
    var r := s.deliveries[c].event.registration;
    ExecConcat(s, [MarkRegistering(c), MarkRegistering(d)], [RegisterDomain(c, true), RegisterDomain(d, true)]);
    BothClaim(s, c, d);
    BothBuy(Exec(s, [MarkRegistering(c), MarkRegistering(d)]), c, d);
    CallsGrow(s.effects, RegisterCall(r), RegisterCall(r));
    CallsGrow(s.effects + [RegisterCall(r)], RegisterCall(r), RegisterCall(r));
  }

  predicate ReadsNothing(acts: seq<Action>) {
    forall i :: 0 <= i < |acts| ==> !acts[i].ReadRow?
  }

  /** However the deliveries now under way go on, no registration is bought twice. */
  ghost predicate BuysOnce(s: State) {
    forall more: seq<Action>, r: nat :: ReadsNothing(more) ==> Registrations(Exec(s, more), r) <= 1
  }

  ghost predicate AlwaysBuysOnce(acts: seq<Action>) {
    BuysOnce(Exec(EMPTY, acts)) && (acts == [] || AlwaysBuysOnce(acts[..|acts| - 1]))
  }

  lemma {:induction false} NoReadNoDoubleRead(s: State, more: seq<Action>)
    requires ReadsNothing(more)
    ensures NoDoubleRead(s, more)
  {
    if more != [] {
      NoReadNoDoubleRead(s, more[..|more| - 1]);
    }
  }

  lemma NoDoubleReadBuysOnce(acts: seq<Action>)
    requires NoDoubleRead(EMPTY, acts)
    ensures BuysOnce(Exec(EMPTY, acts))
  {
    forall more: seq<Action>, r: nat | ReadsNothing(more) ensures Registrations(Exec(Exec(EMPTY, acts), more), r) <= 1 {
      NoReadNoDoubleRead(Exec(EMPTY, acts), more);
      NoDoubleReadConcat(EMPTY, acts, more);
      EachNameOnce(acts, more, r);
    }
  }

  lemma DoubleReadCanBuyTwice(s: State, a: Action)
    requires DoubleRead(s, a)
    ensures !BuysOnce(Next(s, a))
  {
    var d :| d in s.deliveries && d != a.id && s.deliveries[d].stage.Pending?
        && s.deliveries[d].event.registration == s.deliveries[a.id].event.registration
        && s.deliveries[d].event.registration in s.status && s.status[s.deliveries[d].event.registration].PendingPayment?;
    var s' := Next(s, a);
    TwoPendingBuyTwice(s', a.id, d);
    var more, r := BothGoOn(a.id, d), s'.deliveries[d].event.registration;
    assert ReadsNothing(more) && Registrations(Exec(s', more), r) >= 2;
  }

  /** A mix of deliveries, at no point of which the ones under way could buy a registration twice, is
      exactly one in which no pending row is read while another delivery stands between its read
      and its claim. */
  lemma {:induction false} BuysOnceIff(acts: seq<Action>)
    ensures AlwaysBuysOnce(acts) <==> NoDoubleRead(EMPTY, acts)
  {
    if NoDoubleRead(EMPTY, acts) {
      NoDoubleReadBuysOnce(acts);
    }
    if acts != [] {
      var front := acts[..|acts| - 1];
      BuysOnceIff(front);
      if DoubleRead(Exec(EMPTY, front), acts[|acts| - 1]) {
        DoubleReadCanBuyTwice(Exec(EMPTY, front), acts[|acts| - 1]);
      }
    }
  }

  // ------------------------------------------------- a sale that is taken back

  predicate LosesNothing(acts: seq<Action>) {
    forall i :: 0 <= i < |acts| ==> !acts[i].LoseReply?
  }

  predicate Sold(s: State, r: nat) {
    r in s.status && s.status[r].Registered?
  }

  /** If the row is registered, it stays so, without a refund, however the deliveries under way go on. */
  ghost predicate SoldForGood(s: State, r: nat) {
    Sold(s, r) ==>
      forall more: seq<Action> :: ReadsNothing(more) && LosesNothing(more) ==> Sold(Exec(s, more), r) && Refunds(Exec(s, more), r) == 0
  }

  ghost predicate AlwaysSoldForGood(acts: seq<Action>, r: nat) {
    SoldForGood(Exec(EMPTY, acts), r) && (acts == [] || AlwaysSoldForGood(acts[..|acts| - 1], r))
  }

  lemma {:induction false} LosesNothingHeard(s: State, more: seq<Action>, r: nat)
    requires LosesNothing(more)
    ensures AlwaysHeard(s, more, r)
  {
    if more != [] {
      LosesNothingHeard(s, more[..|more| - 1], r);
    }
  }

  lemma HeardSoldForGood(acts: seq<Action>, r: nat)
    requires NoDoubleRead(EMPTY, acts) && AlwaysHeard(EMPTY, acts, r)
    ensures SoldForGood(Exec(EMPTY, acts), r)
  {
    var s := Exec(EMPTY, acts);
    EmptyIsOk();
    RunKeepsInv(EMPTY, acts);
    UnheardIff(EMPTY, acts, r);
    forall more: seq<Action> | Sold(s, r) && ReadsNothing(more) && LosesNothing(more)
      ensures Sold(Exec(s, more), r) && Refunds(Exec(s, more), r) == 0
    {
      NoReadNoDoubleRead(s, more);
      RunKeepsInv(s, more);
      LosesNothingHeard(s, more, r);
      UnheardIff(s, more, r);
      assert RowOk(Exec(s, more), r);
    }
  }

  /** The delivery that did not hear of its success goes on to fail the row, after a refund if there
      was a payment. */
  lemma UnheardIsTakenBack(s: State, a: Action, r: nat)
    requires Unheard(s, a, r) && r in s.status
    ensures var s', taken := Next(s, a), Exec(Next(s, a), [TryRefund(a.id), MarkFailed(a.id)]);
      && Sold(s', r) && !SoldForGood(s', r)
      && r in taken.status && taken.status[r].Failed?
      && taken.effects == s.effects + if s.deliveries[a.id].event.hasPayment then [RefundCall(r)] else []
  {
    var s', more := Next(s, a), [TryRefund(a.id), MarkFailed(a.id)];
    ExecTwo(s', TryRefund(a.id), MarkFailed(a.id));
    assert ReadsNothing(more) && LosesNothing(more) && !Sold(Exec(s', more), r);
  }

  /** A mix of deliveries, at no point of which a registered row could still be refunded or failed,
      is exactly one in which no update of it to registered committed and reported an error. */
  lemma {:induction false} SoldForGoodIff(acts: seq<Action>, r: nat)
    requires NoDoubleRead(EMPTY, acts)
    ensures AlwaysSoldForGood(acts, r) <==> AlwaysHeard(EMPTY, acts, r)
  {
    if AlwaysHeard(EMPTY, acts, r) {
      HeardSoldForGood(acts, r);
    }
    if acts != [] {
      var front, a := acts[..|acts| - 1], acts[|acts| - 1];
      SoldForGoodIff(front, r);
      if Unheard(Exec(EMPTY, front), a, r) {
        EmptyIsOk();
        RunKeepsInv(EMPTY, front);
        assert StageOk(Exec(EMPTY, front), a.id);
        UnheardIsTakenBack(Exec(EMPTY, front), a, r);
      }
    }
  }

  // ------------------------------------------------- what crashes leave behind

  /** No delivery owns the row. */
  ghost predicate NoOwner(s: State, r: nat) {
    forall d :: d in s.deliveries && s.deliveries[d].event.registration == r ==> !Owns(s.deliveries[d].stage)
  }

  /** A row that no delivery owns and that is not pending is left alone. */
  lemma UnownedStep(s: State, a: Action, r: nat)
    requires NoOwner(s, r) && r in s.status && !s.status[r].PendingPayment?
    ensures NoOwner(Next(s, a), r) && SameRow(s, Next(s, a), r)
  {
    if !a.Order? && !a.Deliver? && a.id in s.deliveries {
      StageOfStep(s, a.id, a);
      OwnerOfStep(s, a.id, a);
      StatusElsewhere(s, a.id, a, r);
    }
  }

  /** Once a row says registering and no delivery owns it, nothing repairs it: whatever is delivered
      later, in whatever order, the row stays registering and nothing more is bought or refunded. */
  lemma {:induction false} CrashLeavesRegistering(s: State, acts: seq<Action>, r: nat)
    requires NoOwner(s, r) && r in s.status && s.status[r].Registering?
    ensures NoOwner(Exec(s, acts), r) && SameRow(s, Exec(s, acts), r)
  {
    if acts != [] {
      CrashLeavesRegistering(s, acts[..|acts| - 1], r);
      UnownedStep(Exec(s, acts[..|acts| - 1]), acts[|acts| - 1], r);
    }
  }

  ghost predicate RegisteringForGood(s: State, r: nat) {
    forall more: seq<Action> :: r in Exec(s, more).status && Exec(s, more).status[r].Registering?
  }

  /** A crash of the delivery that owns a row leaves the row registering for good if and only if it
      comes after the claim and not after an update to registered; before the claim the row is
      still pending and can be delivered again. */
  lemma CrashIsFinalIff(s: State, id: nat)
    requires Inv(s) && id in s.deliveries && Owns(s.deliveries[id].stage)
    ensures var s', r := Proceed(s, id, Crash(id)), s.deliveries[id].event.registration;
      && (RegisteringForGood(s', r) <==> !s.deliveries[id].stage.Pending? && r !in s.unheard)
      && (r in s.unheard ==> r in s'.status && s'.status[r].Registered?)
      && (s.deliveries[id].stage.Pending? ==> NoOwner(s', r) && r in s'.status && s'.status[r].PendingPayment?)
  {
    var s', r := Proceed(s, id, Crash(id)), s.deliveries[id].event.registration;
    assert StageOk(s, id);
    assert s'.status == s.status;
    assert NoOwner(s', r);
    assert RowOk(s, r) && Exec(s', []) == s';
    if !s.deliveries[id].stage.Pending? && r !in s.unheard {
      forall more: seq<Action> ensures r in Exec(s', more).status && Exec(s', more).status[r].Registering? {
        CrashLeavesRegistering(s', more, r);
      }
    }
  }

  lemma ExecLast(acts: seq<Action>, a: Action)
    ensures Exec(EMPTY, acts + [a]) == Next(Exec(EMPTY, acts), a)
  {
    assert (acts + [a])[..|acts|] == acts;
  }

  /** Two deliveries of one event, in step with each other, up to the read of the row. */
  lemma BothReadPending(e: CheckoutEvent) returns (acts: seq<Action>)
    ensures var s := Exec(EMPTY, acts);
      && s.status == map[e.registration := PendingPayment] && s.effects == []
      && s.deliveries == map[0 := Delivery(e, Pending), 1 := Delivery(e, Pending)]
  {
    ExecLast([], Order(e.registration));
    ExecLast([] + [Order(e.registration)], Deliver(0, e));
    ExecLast([] + [Order(e.registration)] + [Deliver(0, e)], Deliver(1, e));
    var start := [] + [Order(e.registration)] + [Deliver(0, e)] + [Deliver(1, e)];
    assert Exec(EMPTY, start).deliveries == map[0 := Delivery(e, Received), 1 := Delivery(e, Received)];
    ExecLast(start, CheckSeen(0));
    ExecLast(start + [CheckSeen(0)], CheckSeen(1));
    var looked := start + [CheckSeen(0)] + [CheckSeen(1)];
    assert Exec(EMPTY, looked).deliveries == map[0 := Delivery(e, Fresh), 1 := Delivery(e, Fresh)];
    ExecLast(looked, ReadRow(0));
    ExecLast(looked + [ReadRow(0)], ReadRow(1));
    acts := looked + [ReadRow(0)] + [ReadRow(1)];
  }

  /** Two deliveries of one event that overlap both buy the name. */
  lemma OverlappingDeliveriesBuyTwice(e: CheckoutEvent) returns (acts: seq<Action>)
    ensures Registrations(Exec(EMPTY, acts), e.registration) == 2
  {
    var read := BothReadPending(e);
    ExecConcat(EMPTY, read, BothGoOn(0, 1));
    TwoPendingBuyTwice(Exec(EMPTY, read), 0, 1);
    acts := read + BothGoOn(0, 1);
  }

  /** A delivery that crashes right after claiming its row: no delivery is under way, nothing was
      bought, and the row says registering. */
  lemma CrashAfterClaim(e: CheckoutEvent) returns (acts: seq<Action>)
    ensures var s, r := Exec(EMPTY, acts), e.registration;
      Idle(s, r) && Registrations(s, r) == 0 && e.id !in s.seen && r in s.status && s.status[r].Registering?
  {
    var r := e.registration;
    var a1 := [] + [Order(r)] + [Deliver(0, e)] + [CheckSeen(0)];
    ExecLast([], Order(r));
    ExecLast([] + [Order(r)], Deliver(0, e));
    ExecLast([] + [Order(r)] + [Deliver(0, e)], CheckSeen(0));
    assert Exec(EMPTY, a1).deliveries == map[0 := Delivery(e, Fresh)];
    ExecLast(a1, ReadRow(0));
    ExecLast(a1 + [ReadRow(0)], MarkRegistering(0));
    ExecLast(a1 + [ReadRow(0)] + [MarkRegistering(0)], Crash(0));
    acts := a1 + [ReadRow(0)] + [MarkRegistering(0)] + [Crash(0)];
    assert Exec(EMPTY, acts).deliveries == map[0 := Delivery(e, Crashed)];
  }
}
