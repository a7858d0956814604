/** Fulfilment in its own form: `fulfilNameCheckout` of apps/cloud/lib/registrar.ts and
    `handleStripeWebhook` of apps/cloud/lib/billing.ts as calls that run to their end, and how they
    refine the steps of `Fulfilment`. */
module FulfilmentService {
  import opened Common
  import opened Fulfilment

  datatype FulfilOutcome = Skipped | Done | NotFulfilled(refunded: bool)

  /** How the outside world reacts during one fulfilment. An update to registered that commits and
      reports an error ends like one that fails: the next update writes the row again. */
  datatype World = World(registers: bool, mints: bool, savesRegistered: bool, refundWorks: bool)

  class Registrar {
    const stripeConfigured: bool
    var status: map<nat, Status>
    var seen: set<nat>
    var effects: seq<Effect>

    constructor (stripeConfigured: bool)
      ensures this.stripeConfigured == stripeConfigured && status == map[] && seen == {} && effects == []
    {
      this.stripeConfigured := stripeConfigured;
      status, seen, effects := map[], {}, [];
    }

    /** An uninterrupted fulfilment ends with the row registered and the name bought, or with the
        row failed and the payment refunded if there was one; a row that is not pending is left
        alone. */
    method FulfilNameCheckout(e: CheckoutEvent, w: World) returns (o: FulfilOutcome)
      modifies this`status, this`effects
      ensures o.Skipped? <==> !(e.registration in old(status) && old(status)[e.registration].PendingPayment?)
      ensures o.Skipped? ==> status == old(status) && effects == old(effects)
      ensures o.Done? <==> !o.Skipped? && w.registers && w.mints && w.savesRegistered
      ensures o.Done? ==> status == old(status)[e.registration := Registered]
                               && effects == old(effects) + [RegisterCall(e.registration)]
      ensures o.NotFulfilled? ==>
                && status == old(status)[e.registration := Failed]
                && effects == old(effects) + [RegisterCall(e.registration)]
                   + (if e.hasPayment && stripeConfigured then [RefundCall(e.registration)] else [])
                && (o.refunded <==> e.hasPayment && stripeConfigured && w.refundWorks)
    {
      var r := e.registration;
      if r !in status || status[r] != PendingPayment { return Skipped; }
      status := status[r := Registering];
      effects := effects + [RegisterCall(r)];
      if w.registers && w.mints && w.savesRegistered {
        status := status[r := Registered];
        return Done;
      }
      var refunded := false;
      if e.hasPayment && stripeConfigured {
        effects := effects + [RefundCall(r)];
        refunded := w.refundWorks;
      }
      status := status[r := Failed];
      return NotFulfilled(refunded);
    }

    /** One uninterrupted delivery does to the tables and the outside world exactly what the ten
        steps of the machine do, from whatever state the earlier deliveries left. */
    method HandleStripeWebhook(e: CheckoutEvent, w: World, ghost s: State, ghost id: nat) returns (processed: bool)
      requires status == s.status && seen == s.seen && effects == s.effects && id !in s.deliveries
      modifies this
      ensures stripeConfigured ==>
                var s' := Exec(s, WholeDelivery(id, e, w));
                Looks(s', id, e, Finished, status, seen, effects)
      ensures !stripeConfigured ==> status == old(status) && seen == old(seen) && effects == old(effects)
      ensures processed <==> stripeConfigured && e.id !in old(seen)
    {
      if !stripeConfigured {
        return false;
      }
      WholeDeliveryState(s, id, e, w);
      if e.id in seen {
        return false;
      }
      var _ := FulfilNameCheckout(e, w);
      seen := seen + {e.id};
      return true;
    }
  }

  /** The steps of one delivery that does not crash. Those its branch does not take change nothing. */
  function WholeDelivery(id: nat, e: CheckoutEvent, w: World): seq<Action> {
    [Deliver(id, e), CheckSeen(id), ReadRow(id)]
    + [MarkRegistering(id), RegisterDomain(id, w.registers), MintIdentity(id, w.mints)]
    + [MarkRegistered(id, w.savesRegistered), TryRefund(id), MarkFailed(id)]
    + [NoteEvent(id)]
  }

  lemma ExecThree(s: State, a: Action, b: Action, c: Action)
    ensures Exec(s, [a, b, c]) == Next(Next(Next(s, a), b), c)
  {
    assert [a, b, c][..2] == [a, b] && [a, b][..1] == [a] && [a][..0] == [];
    assert Exec(s, [a]) == Next(s, a);
    assert Exec(s, [a, b]) == Next(Next(s, a), b);
  }

  /** The delivery is at this stage, and the rest of the state is this. */
  ghost predicate Looks(s: State, id: nat, e: CheckoutEvent, stage: Stage, status: map<nat, Status>, seen: set<nat>, effects: seq<Effect>) {
    && id in s.deliveries && s.deliveries[id] == Delivery(e, stage)
    && s.status == status && s.seen == seen && s.effects == effects
  }

  lemma Overwrite(m: map<nat, Status>, r: nat, a: Status, b: Status)
    ensures m[r := a][r := b] == m[r := b]
  {
  }

  function StageAfterReads(s: State, e: CheckoutEvent): Stage {
    if e.id in s.seen then Finished
    else if e.registration in s.status && s.status[e.registration].PendingPayment? then Pending
    else Settled
  }

  lemma Reads(s: State, id: nat, e: CheckoutEvent)
    requires id !in s.deliveries
    ensures Looks(Next(Next(Next(s, Deliver(id, e)), CheckSeen(id)), ReadRow(id)), id, e,
                  StageAfterReads(s, e), s.status, s.seen, s.effects)
  {
    var s1 := Next(s, Deliver(id, e));
    assert Looks(s1, id, e, Received, s.status, s.seen, s.effects);
    var s2 := Next(s1, CheckSeen(id));
    assert Looks(s2, id, e, if e.id in s.seen then Finished else Fresh, s.status, s.seen, s.effects);
  }

  lemma Buys(s: State, id: nat, e: CheckoutEvent, w: World, status: map<nat, Status>, seen: set<nat>, effects: seq<Effect>)
    requires Looks(s, id, e, Pending, status, seen, effects) && e.registration in status
    ensures Looks(Next(Next(Next(s, MarkRegistering(id)), RegisterDomain(id, w.registers)), MintIdentity(id, w.mints)), id, e,
                  if w.registers && w.mints then Minted else Failing,
                  status[e.registration := Registering], seen, effects + [RegisterCall(e.registration)])
  {
    var s1 := Next(s, MarkRegistering(id));
    assert Looks(s1, id, e, Claimed, status[e.registration := Registering], seen, effects);
    var s2 := Next(s1, RegisterDomain(id, w.registers));
    assert Looks(s2, id, e, if w.registers then Bought else Failing,
                 status[e.registration := Registering], seen, effects + [RegisterCall(e.registration)]);
  }

  lemma Saves(s: State, id: nat, e: CheckoutEvent, status: map<nat, Status>, seen: set<nat>, effects: seq<Effect>)
    requires Looks(s, id, e, Minted, status, seen, effects) && e.registration in status
    ensures Looks(Next(Next(Next(s, MarkRegistered(id, true)), TryRefund(id)), MarkFailed(id)), id, e,
                  Settled, status[e.registration := Registered], seen, effects)
  {
    var s1 := Next(s, MarkRegistered(id, true));
    assert Looks(s1, id, e, Settled, status[e.registration := Registered], seen, effects);
  }

  lemma Compensates(s: State, id: nat, e: CheckoutEvent, stage: Stage, saves: bool,
                    status: map<nat, Status>, seen: set<nat>, effects: seq<Effect>)
    requires Looks(s, id, e, stage, status, seen, effects) && e.registration in status
    requires stage.Failing? || (stage.Minted? && !saves)
    ensures Looks(Next(Next(Next(s, MarkRegistered(id, saves)), TryRefund(id)), MarkFailed(id)), id, e,
                  Settled, status[e.registration := Failed], seen,
                  effects + if e.hasPayment then [RefundCall(e.registration)] else [])
  {
    var s1 := Next(s, MarkRegistered(id, saves));
    assert Looks(s1, id, e, Failing, status, seen, effects);
    var s2 := Next(s1, TryRefund(id));
    assert Looks(s2, id, e, Refunded, status, seen, effects + if e.hasPayment then [RefundCall(e.registration)] else []);
  }

  /** A settled or finished delivery takes none of these steps. */
  lemma Rests(s: State, id: nat, a: Action)
    requires id in s.deliveries && (s.deliveries[id].stage.Settled? || s.deliveries[id].stage.Finished?)
    requires !a.Order? && !a.Deliver? && !a.NoteEvent? && !a.Crash? && a.id == id
    ensures Next(s, a) == s
  {
  }

  lemma RestsSix(s: State, id: nat, w: World)
    requires id in s.deliveries && (s.deliveries[id].stage.Settled? || s.deliveries[id].stage.Finished?)
    ensures Next(Next(Next(s, MarkRegistering(id)), RegisterDomain(id, w.registers)), MintIdentity(id, w.mints)) == s
    ensures Next(Next(Next(s, MarkRegistered(id, w.savesRegistered)), TryRefund(id)), MarkFailed(id)) == s
  {
    Rests(s, id, MarkRegistering(id));
    Rests(s, id, RegisterDomain(id, w.registers));
    Rests(s, id, MintIdentity(id, w.mints));
    Rests(s, id, MarkRegistered(id, w.savesRegistered));
    Rests(s, id, TryRefund(id));
    Rests(s, id, MarkFailed(id));
  }

  /** The state before the event is noted. */
  function BeforeNote(s: State, id: nat, e: CheckoutEvent, w: World): State {
    var s1 := Next(Next(Next(s, Deliver(id, e)), CheckSeen(id)), ReadRow(id));
    var s2 := Next(Next(Next(s1, MarkRegistering(id)), RegisterDomain(id, w.registers)), MintIdentity(id, w.mints));
    Next(Next(Next(s2, MarkRegistered(id, w.savesRegistered)), TryRefund(id)), MarkFailed(id))
  }

  lemma WholeDeliverySteps(s: State, id: nat, e: CheckoutEvent, w: World)
    ensures Exec(s, WholeDelivery(id, e, w)) == Next(BeforeNote(s, id, e, w), NoteEvent(id))
  {
    var a, b := [Deliver(id, e), CheckSeen(id), ReadRow(id)],
                [MarkRegistering(id), RegisterDomain(id, w.registers), MintIdentity(id, w.mints)];
    var c := [MarkRegistered(id, w.savesRegistered), TryRefund(id), MarkFailed(id)];
    ExecConcat(s, a + b, c);
    ExecConcat(s, a, b);
    ExecThree(s, Deliver(id, e), CheckSeen(id), ReadRow(id));
    ExecThree(Exec(s, a), MarkRegistering(id), RegisterDomain(id, w.registers), MintIdentity(id, w.mints));
    ExecThree(Exec(s, a + b), MarkRegistered(id, w.savesRegistered), TryRefund(id), MarkFailed(id));
    assert (a + b + c + [NoteEvent(id)])[..9] == a + b + c;
  }

  /** What an uninterrupted delivery makes of the row and calls. */
  function StatusAfter(status: map<nat, Status>, r: nat, w: World): map<nat, Status> {
    status[r := if w.registers && w.mints && w.savesRegistered then Registered else Failed]
  }

  function CallsMade(e: CheckoutEvent, w: World): seq<Effect> {
    [RegisterCall(e.registration)]
    + if !(w.registers && w.mints && w.savesRegistered) && e.hasPayment then [RefundCall(e.registration)] else []
  }

  lemma PendingDelivery(s: State, id: nat, e: CheckoutEvent, w: World)
    requires id !in s.deliveries && StageAfterReads(s, e).Pending?
    ensures Looks(BeforeNote(s, id, e, w), id, e, Settled,
                  StatusAfter(s.status, e.registration, w), s.seen, s.effects + CallsMade(e, w))
  {
    var r := e.registration;
    Reads(s, id, e);
    var s1 := Next(Next(Next(s, Deliver(id, e)), CheckSeen(id)), ReadRow(id));
    Buys(s1, id, e, w, s.status, s.seen, s.effects);
    var s2 := Next(Next(Next(s1, MarkRegistering(id)), RegisterDomain(id, w.registers)), MintIdentity(id, w.mints));
    Overwrite(s.status, r, Registering, Registered);
    Overwrite(s.status, r, Registering, Failed);
    var bought := s.effects + [RegisterCall(r)];
    if w.registers && w.mints && w.savesRegistered {
      Saves(s2, id, e, s.status[r := Registering], s.seen, bought);
      assert s.effects + CallsMade(e, w) == bought;
    } else {
      Compensates(s2, id, e, s2.deliveries[id].stage, w.savesRegistered, s.status[r := Registering], s.seen, bought);
      assert s.effects + CallsMade(e, w) == bought + if e.hasPayment then [RefundCall(r)] else [];
    }
  }

  lemma RestingDelivery(s: State, id: nat, e: CheckoutEvent, w: World)
    requires id !in s.deliveries && !StageAfterReads(s, e).Pending?
    ensures Looks(BeforeNote(s, id, e, w), id, e, StageAfterReads(s, e), s.status, s.seen, s.effects)
  {
    Reads(s, id, e);
    RestsSix(Next(Next(Next(s, Deliver(id, e)), CheckSeen(id)), ReadRow(id)), id, w);
  }

  lemma Notes(s: State, id: nat, e: CheckoutEvent, stage: Stage, status: map<nat, Status>, seen: set<nat>, effects: seq<Effect>)
    requires Looks(s, id, e, stage, status, seen, effects)
    requires stage.Settled? || (stage.Finished? && e.id in seen)
    ensures Looks(Next(s, NoteEvent(id)), id, e, Finished, status, seen + {e.id}, effects)
  {
    if stage.Finished? {
      assert seen + {e.id} == seen;
    }
  }

  lemma WholeDeliveryState(s: State, id: nat, e: CheckoutEvent, w: World)
    requires id !in s.deliveries
    ensures Looks(Exec(s, WholeDelivery(id, e, w)), id, e, Finished,
                  if StageAfterReads(s, e).Pending? then StatusAfter(s.status, e.registration, w) else s.status,
                  s.seen + {e.id},
                  if StageAfterReads(s, e).Pending? then s.effects + CallsMade(e, w) else s.effects)
  {
    WholeDeliverySteps(s, id, e, w);
    var before := BeforeNote(s, id, e, w);
    if StageAfterReads(s, e).Pending? {
      PendingDelivery(s, id, e, w);
    } else {
      RestingDelivery(s, id, e, w);
    }
    Notes(before, id, e, before.deliveries[id].stage, before.status, before.seen, before.effects);
  }

  /** An uninterrupted delivery of an unseen event settles its row, as registered or failed, if and
      only if the row was not registering. */
  lemma DeliverySettlesIff(s: State, id: nat, e: CheckoutEvent, w: World)
    requires id !in s.deliveries && e.id !in s.seen && e.registration in s.status
    ensures var s', r := Exec(s, WholeDelivery(id, e, w)), e.registration;
      r in s'.status && (s'.status[r].Registered? || s'.status[r].Failed? <==> !s.status[r].Registering?)
  {
    WholeDeliveryState(s, id, e, w);
  }

  /** Such a run: the name is bought and the row says registered, but the update reports an error,
      so the row is failed, and the payment refunded if there was one. */
  lemma SoldNameIsTakenBack(e: CheckoutEvent) returns (acts: seq<Action>, sold: nat)
    ensures sold <= |acts| && Sold(Exec(EMPTY, acts[..sold]), e.registration)
    ensures var s, r := Exec(EMPTY, acts), e.registration;
      && r in s.status && s.status[r].Failed?
      && s.effects == [RegisterCall(r)] + if e.hasPayment then [RefundCall(r)] else []
  {
    var r, w := e.registration, World(true, true, false, true);
    var looks, buys := [Deliver(0, e), CheckSeen(0), ReadRow(0)], [MarkRegistering(0), RegisterDomain(0, true), MintIdentity(0, true)];
    ExecLast([], Order(r));
    var ordered := [] + [Order(r)];
    var s0 := Exec(EMPTY, ordered);
    ExecConcat(EMPTY, ordered, looks);
    ExecThree(s0, Deliver(0, e), CheckSeen(0), ReadRow(0));
    Reads(s0, 0, e);
    var s1 := Exec(EMPTY, ordered + looks);
    ExecConcat(EMPTY, ordered + looks, buys);
    ExecThree(s1, MarkRegistering(0), RegisterDomain(0, true), MintIdentity(0, true));
    Buys(s1, 0, e, w, s0.status, {}, []);
    var minted := ordered + looks + buys;
    ExecLast(minted, LoseReply(0));
    UnheardIsTakenBack(Exec(EMPTY, minted), LoseReply(0), r);
    var before, rest := minted + [LoseReply(0)], [TryRefund(0), MarkFailed(0)];
    ExecConcat(EMPTY, before, rest);
    acts, sold := before + rest, |before|;
    assert acts[..sold] == before;
  }
}
