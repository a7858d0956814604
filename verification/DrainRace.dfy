/**
 * Who hands one agent's inbound rows to its socket: `drainQueue` and the end of
 * `dispatchVerifiedMessage` of packages/cloud-runtime/src/dispatch.ts, each await a step of its own.
 *
 * A dispatch inserts its row as queued and then sends that row itself if there is a session. A
 * drain claims queued rows and sends them one by one. A claim only reads, so another drain may
 * claim the same rows again, or a row that its dispatch has not sent yet. Anything else may take
 * rows off the queue at any time.
 */
module DrainRace {
  import opened Common

  datatype Status = Queued | Delivered | Gone

  /** A drain with the rows it claimed, or a dispatch with the row it inserted. `Sending` is about
      to hand over row `pos`, `Marking` has handed it over. */
  datatype Phase = Sending | Marking | Over

  datatype Drain = Drain(ids: seq<nat>, pos: nat, phase: Phase)

  /** `handed` counts how often each row went to the socket. */
  datatype State = State(rows: map<nat, Status>, drains: map<nat, Drain>, handed: multiset<nat>)

  const EMPTY := State(map[], map[], multiset{})

  datatype Action =
    | Dispatch(d: nat, m: nat) // insert row m
    | TakeOff(m: nat)
    | Claim(d: nat, ids: seq<nat>)
    | Send(d: nat, ok: bool)   // not ok: the send throws, or a dispatch finds no session
    | Mark(d: nat, ok: bool)

  /** The rows a claim may return, in any order and up to any limit. */
  predicate Claimable(s: State, ids: seq<nat>) {
    (forall i, j :: 0 <= i < j < |ids| ==> ids[i] != ids[j])
    && forall i :: 0 <= i < |ids| ==> ids[i] in s.rows && s.rows[ids[i]].Queued?
  }

  function At(s: State, d: nat, to: Drain): State {
    s.(drains := s.drains[d := to])
  }

  function Next(s: State, a: Action): State {
    match a
    case Dispatch(d, m) =>
      if d in s.drains || m in s.rows then s else At(s, d, Drain([m], 0, Sending)).(rows := s.rows[m := Queued])
    case TakeOff(m) => if m in s.rows then s.(rows := s.rows[m := Gone]) else s
    case Claim(d, ids) => if d !in s.drains && Claimable(s, ids) then At(s, d, Drain(ids, 0, Sending)) else s
    case Send(d, ok) =>
      if d in s.drains && s.drains[d].phase.Sending? && s.drains[d].pos < |s.drains[d].ids| then
        var w := s.drains[d];
        if ok then At(s, d, w.(phase := Marking)).(handed := s.handed + multiset{w.ids[w.pos]})
        else At(s, d, w.(phase := Over))
      else s
    case Mark(d, ok) =>
      if d in s.drains && s.drains[d].phase.Marking? && s.drains[d].pos < |s.drains[d].ids| then
        var w := s.drains[d];
        if ok then At(s, d, w.(pos := w.pos + 1, phase := Sending)).(rows := s.rows[w.ids[w.pos] := Delivered])
        else At(s, d, w.(phase := Over))
      else s
  }

  function Exec(s: State, acts: seq<Action>): State {
    if acts == [] then s else Next(Exec(s, acts[..|acts| - 1]), acts[|acts| - 1])
  }

  // ---------------------------------------------------------------------------------------------
  // What keeps a row from being handed over twice
  // ---------------------------------------------------------------------------------------------

  /** The drain or dispatch is going to hand row `m` over, if nothing stops it. */
  predicate Carries(w: Drain, m: nat) {
    match w.phase
    case Sending => w.pos <= |w.ids| && m in w.ids[w.pos..]
    case Marking => w.pos < |w.ids| && m in w.ids[w.pos + 1..]
    case Over => false
  }

  /** The claim takes a row that was handed over before or that a drain or dispatch under way carries. */
  ghost predicate ClaimsAgain(s: State, a: Action) {
    && a.Claim? && a.d !in s.drains && Claimable(s, a.ids)
    && exists i :: 0 <= i < |a.ids| && (a.ids[i] in s.handed || CarriedBySome(s, a.ids[i]))
  }

  ghost predicate CarriedBySome(s: State, m: nat) {
    exists d :: d in s.drains && Carries(s.drains[d], m)
  }

  ghost predicate NeverClaimsAgain(s: State, acts: seq<Action>) {
    acts == []
    || (NeverClaimsAgain(s, acts[..|acts| - 1]) && !ClaimsAgain(Exec(s, acts[..|acts| - 1]), acts[|acts| - 1]))
  }

  ghost predicate DrainOk(s: State, d: nat)
    requires d in s.drains
  {
    var w := s.drains[d];
    && w.pos <= |w.ids|
    && (forall m :: m in w.ids ==> m in s.rows)
    && (forall i, j :: 0 <= i < j < |w.ids| ==> w.ids[i] != w.ids[j])
    && (forall m :: Carries(w, m) ==> m !in s.handed)
  }

  /** No row was handed over twice, and what is carried is carried once and not handed over yet. */
  ghost predicate Inv(s: State) {
    && (forall m :: s.handed[m] <= 1 && (m in s.handed ==> m in s.rows))
    && (forall d :: d in s.drains ==> DrainOk(s, d))
    && (forall c, d, m :: c in s.drains && d in s.drains && Carries(s.drains[c], m) && Carries(s.drains[d], m) ==> c == d)
  }

  lemma SendingCarriesMore(w: Drain, m: nat)
    requires w.phase.Sending? && w.pos < |w.ids| && forall i, j :: 0 <= i < j < |w.ids| ==> w.ids[i] != w.ids[j]
    ensures Carries(w, w.ids[w.pos])
    ensures Carries(w.(phase := Marking), m) ==> Carries(w, m) && m != w.ids[w.pos]
  {
    assert w.ids[w.pos..][0] == w.ids[w.pos];
    if m in w.ids[w.pos + 1..] {
      var i :| 0 <= i < |w.ids[w.pos + 1..]| && w.ids[w.pos + 1..][i] == m;
      assert w.ids[w.pos..][i + 1] == m && w.ids[w.pos + 1 + i] == m;
    }
  }

  lemma SendKeepsInv(s: State, d: nat)
    requires Inv(s) && d in s.drains && s.drains[d].phase.Sending? && s.drains[d].pos < |s.drains[d].ids|
    ensures Inv(Next(s, Send(d, true)))
  {
    var s', w := Next(s, Send(d, true)), s.drains[d];
    assert DrainOk(s, d);
    forall m ensures Carries(s'.drains[d], m) ==> Carries(w, m) && m != w.ids[w.pos] {
      SendingCarriesMore(w, m);
    }
    SendingCarriesMore(w, w.ids[w.pos]);
    forall c | c in s'.drains ensures DrainOk(s', c) {
      assert DrainOk(s, c);
    }
  }

  /** One drain goes on without a hand-over and carries nothing new. */
  lemma QuietDrainKeepsInv(s: State, s': State, d: nat, w: Drain)
    requires Inv(s) && d in s.drains && s.rows.Keys <= s'.rows.Keys
    requires s'.drains == s.drains[d := w] && s'.handed == s.handed
    requires w.ids == s.drains[d].ids && w.pos <= |w.ids|
    requires forall m :: Carries(w, m) ==> Carries(s.drains[d], m)
    ensures Inv(s')
  {
    forall c | c in s'.drains ensures DrainOk(s', c) {
      assert DrainOk(s, c);
    }
  }

  lemma MarkKeepsInv(s: State, d: nat)
    requires Inv(s) && d in s.drains && s.drains[d].phase.Marking? && s.drains[d].pos < |s.drains[d].ids|
    ensures Inv(Next(s, Mark(d, true)))
  {
    hide Inv;
    var w := s.drains[d];
    assert w.ids[w.pos] in s.rows by { MarkedIsRow(s, d); }
    QuietDrainKeepsInv(s, Next(s, Mark(d, true)), d, w.(pos := w.pos + 1, phase := Sending));
  }

  lemma MarkedIsRow(s: State, d: nat)
    requires Inv(s) && d in s.drains && s.drains[d].pos < |s.drains[d].ids|
    ensures s.drains[d].ids[s.drains[d].pos] in s.rows
  {
    assert DrainOk(s, d);
  }

  lemma ClaimKeepsInv(s: State, d: nat, ids: seq<nat>)
    requires Inv(s) && d !in s.drains && Claimable(s, ids) && !ClaimsAgain(s, Claim(d, ids))
    ensures Inv(Next(s, Claim(d, ids)))
  {
    var s' := Next(s, Claim(d, ids));
    forall m | Carries(s'.drains[d], m) ensures m !in s.handed && !CarriedBySome(s, m) {
      assert ids[0..] == ids;
      var i :| 0 <= i < |ids| && ids[i] == m;
    }
    forall c | c in s'.drains ensures DrainOk(s', c) {
      if c != d { assert DrainOk(s, c); }
    }
    forall c, m | c in s.drains && Carries(s.drains[c], m) ensures CarriedBySome(s, m) {
    }
  }

  lemma DispatchKeepsInv(s: State, d: nat, m: nat)
    requires Inv(s) && d !in s.drains && m !in s.rows
    ensures Inv(Next(s, Action.Dispatch(d, m)))
  {
    var s' := Next(s, Action.Dispatch(d, m));
    assert [m][0..] == [m] && [m][1..] == [];
    forall c | c in s.drains ensures DrainOk(s, c) && !Carries(s.drains[c], m) {
      assert DrainOk(s, c);
    }
    forall c | c in s'.drains ensures DrainOk(s', c) {
    }
  }

  lemma StopKeepsInv(s: State, d: nat)
    requires Inv(s) && d in s.drains
    ensures Inv(At(s, d, s.drains[d].(phase := Over)))
  {
    assert DrainOk(s, d);
    QuietDrainKeepsInv(s, At(s, d, s.drains[d].(phase := Over)), d, s.drains[d].(phase := Over));
  }

  lemma StepKeepsInv(s: State, a: Action)
    requires Inv(s) && !ClaimsAgain(s, a)
    ensures Inv(Next(s, a))
  {
    var s' := Next(s, a);
    match a {
      case Dispatch(d, m) => if d !in s.drains && m !in s.rows { DispatchKeepsInv(s, d, m); }
      case Claim(d, ids) => if d !in s.drains && Claimable(s, ids) { ClaimKeepsInv(s, d, ids); }
      case Send(d, ok) =>
        if d in s.drains && s.drains[d].phase.Sending? && s.drains[d].pos < |s.drains[d].ids| {
          if ok { SendKeepsInv(s, d); } else { StopKeepsInv(s, d); }
        }
      case Mark(d, ok) =>
        if d in s.drains && s.drains[d].phase.Marking? && s.drains[d].pos < |s.drains[d].ids| {
          if ok { MarkKeepsInv(s, d); } else { StopKeepsInv(s, d); }
        }
      case _ =>
        forall d | d in s'.drains ensures DrainOk(s', d) { assert DrainOk(s, d); }
    }
  }

  lemma {:induction false} RunKeepsInv(s: State, acts: seq<Action>)
    requires Inv(s) && NeverClaimsAgain(s, acts)
    ensures Inv(Exec(s, acts))
  {
    if acts != [] {
      RunKeepsInv(s, acts[..|acts| - 1]);
      StepKeepsInv(Exec(s, acts[..|acts| - 1]), acts[|acts| - 1]);
    }
  }

  /** A send or a mark that throws ends the drain: it hands over nothing more, and no row changes. */
  lemma FailureEndsDrain(s: State, d: nat, m: nat)
    requires d in s.drains && s.drains[d].pos < |s.drains[d].ids| && !s.drains[d].phase.Over?
    ensures var s' := Next(s, if s.drains[d].phase.Sending? then Send(d, false) else Mark(d, false));
      && d in s'.drains && !Carries(s'.drains[d], m) && s'.handed == s.handed && s'.rows == s.rows
      && (forall c :: c in s.drains && c != d ==> c in s'.drains && s'.drains[c] == s.drains[c])
  {
  }

  /** A row taken off the queue is there no more for a claim. */
  lemma TakenOffIsNotClaimed(s: State, m: nat, ids: seq<nat>)
    requires m in s.rows && m in ids
    ensures !Claimable(Next(s, TakeOff(m)), ids)
  {
  }

  /** A row that was marked is off the queue for good: no claim can take it again. */
  lemma MarkedIsNotClaimed(s: State, d: nat, ids: seq<nat>)
    requires d in s.drains && s.drains[d].phase.Marking? && s.drains[d].pos < |s.drains[d].ids|
    ensures var s', m := Next(s, Mark(d, true)), s.drains[d].ids[s.drains[d].pos];
      && m in s'.rows && s'.rows[m].Delivered?
      && (m in ids ==> !Claimable(s', ids))
      && s'.rows.Keys == s.rows.Keys + {m} && forall r :: r in s.rows && r != m ==> s'.rows[r] == s.rows[r]
  {
  }

  // ---------------------------------------------------------------------------------------------
  // A row claimed again can be handed over again
  // ---------------------------------------------------------------------------------------------

  predicate ClaimsNothing(acts: seq<Action>) {
    forall i :: 0 <= i < |acts| ==> !acts[i].Claim?
  }

  lemma {:induction false} ExecConcat(s: State, first: seq<Action>, rest: seq<Action>)
    ensures Exec(s, first + rest) == Exec(Exec(s, first), rest)
  {
    if rest == [] {
      assert first + rest == first;
    } else {
      assert (first + rest)[..|first + rest| - 1] == first + rest[..|rest| - 1];
      ExecConcat(s, first, rest[..|rest| - 1]);
    }
  }

  lemma ExecOne(s: State, a: Action)
    ensures Exec(s, [a]) == Next(s, a)
  {
    assert [a][..0] == [];
  }

  lemma CarriesPastSend(w: Drain, m: nat)
    requires w.phase.Sending? && Carries(w, m) && w.ids[w.pos] != m
    ensures Carries(w.(phase := Marking), m)
  {
    var i :| 0 <= i < |w.ids[w.pos..]| && w.ids[w.pos..][i] == m;
    assert w.ids[w.pos + 1..][i - 1] == m;
  }

  /** A drain or dispatch that carries a row can go on, with nothing else happening, until it hands it over. */
  lemma {:induction false} DrainGetsThere(s: State, d: nat, m: nat) returns (acts: seq<Action>)
    requires d in s.drains && Carries(s.drains[d], m)
    ensures ClaimsNothing(acts)
    ensures var s' := Exec(s, acts);
      && s'.handed[m] >= s.handed[m] + 1
      && (forall c :: c in s.drains && c != d ==> c in s'.drains && s'.drains[c] == s.drains[c])
    decreases |s.drains[d].ids| - s.drains[d].pos, s.drains[d].phase.Sending?
  {
    var w := s.drains[d];
    var a := if w.phase.Sending? then Send(d, true) else Mark(d, true);
    ExecOne(s, a);
    var s1 := Next(s, a);
    if w.phase.Sending? && w.ids[w.pos] == m {
      acts := [a];
    } else {
      if w.phase.Sending? {
        CarriesPastSend(w, m);
      }
      var rest := DrainGetsThere(s1, d, m);
      ExecConcat(s, [a], rest);
      acts := [a] + rest;
    }
  }

  /** However the drains and dispatches under way go on, no row is handed over twice. */
  ghost predicate HandsOverOnce(s: State) {
    forall more: seq<Action>, m: nat :: ClaimsNothing(more) ==> Exec(s, more).handed[m] <= 1
  }

  ghost predicate AlwaysHandsOverOnce(acts: seq<Action>) {
    HandsOverOnce(Exec(EMPTY, acts)) && (acts == [] || AlwaysHandsOverOnce(acts[..|acts| - 1]))
  }

  lemma ClaimedAgainHandedAgain(s: State, a: Action)
    requires ClaimsAgain(s, a)
    ensures !HandsOverOnce(Next(s, a))
  {
    var s1 := Next(s, a);
    var i :| 0 <= i < |a.ids| && (a.ids[i] in s.handed || CarriedBySome(s, a.ids[i]));
    var m := a.ids[i];
    assert a.ids[0..] == a.ids;
    assert Carries(s1.drains[a.d], m);
    if m in s.handed {
      var more := DrainGetsThere(s1, a.d, m);
      assert Exec(s1, more).handed[m] >= 2;
    } else {
      var d :| d in s.drains && Carries(s.drains[d], m);
      var first := DrainGetsThere(s1, d, m);
      var rest := DrainGetsThere(Exec(s1, first), a.d, m);
      ExecConcat(s1, first, rest);
      assert ClaimsNothing(first + rest) && Exec(s1, first + rest).handed[m] >= 2;
    }
  }

  lemma {:induction false} NoClaimNeverAgain(s: State, more: seq<Action>)
    requires ClaimsNothing(more)
    ensures NeverClaimsAgain(s, more)
  {
    if more != [] {
      NoClaimNeverAgain(s, more[..|more| - 1]);
    }
  }

  lemma NeverAgainHandsOverOnce(acts: seq<Action>)
    requires NeverClaimsAgain(EMPTY, acts)
    ensures HandsOverOnce(Exec(EMPTY, acts))
  {
    RunKeepsInv(EMPTY, acts);
    var s := Exec(EMPTY, acts);
    forall more: seq<Action>, m: nat | ClaimsNothing(more) ensures Exec(s, more).handed[m] <= 1 {
      NoClaimNeverAgain(s, more);
      RunKeepsInv(s, more);
    }
  }

  /**
   * A run of dispatches and drains, at no point of which the ones under way could hand a row over
   * twice, is exactly one in which no claim takes a row that was already handed over or that
   * another drain or its own dispatch still carries. Draining one at a time is not enough: a row
   * that was handed over and could not be marked is still queued, and the next claim takes it
   * again; and one drain alone can claim the row of a dispatch that is about to send it.
   */
  lemma {:induction false} HandedOnceIff(acts: seq<Action>)
    ensures AlwaysHandsOverOnce(acts) <==> NeverClaimsAgain(EMPTY, acts)
  {
    if NeverClaimsAgain(EMPTY, acts) {
      NeverAgainHandsOverOnce(acts);
    }
    if acts != [] {
      var front := acts[..|acts| - 1];
      HandedOnceIff(front);
      if ClaimsAgain(Exec(EMPTY, front), acts[|acts| - 1]) {
        ClaimedAgainHandedAgain(Exec(EMPTY, front), acts[|acts| - 1]);
      }
    }
  }

  /** Such a run: a dispatch inserts row `m`, a session opens and drains it, and then the dispatch
      finds that session and sends the row, too. */
  lemma DrainBesideDispatch(m: nat)
    ensures var run := [Action.Dispatch(0, m), Claim(1, [m]), Send(1, true), Send(0, true)];
      Exec(EMPTY, run).handed[m] == 2 && ClaimsAgain(Exec(EMPTY, run[..1]), run[1])
  {
    var run := [Action.Dispatch(0, m), Claim(1, [m]), Send(1, true), Send(0, true)];
    var s1 := State(map[m := Queued], map[0 := Drain([m], 0, Sending)], multiset{});
    var s2 := s1.(drains := s1.drains[1 := Drain([m], 0, Sending)]);
    ExecOne(EMPTY, run[0]);
    assert run[..1] == [run[0]] && Exec(EMPTY, run[..1]) == s1;
    assert Claimable(s1, [m]) && Next(s1, run[1]) == s2;
    assert Carries(s1.drains[0], m) && CarriedBySome(s1, [m][0]) by { assert [m][0..] == [m]; }
    BothSend(run, s2, m);
  }

  lemma BothSend(run: seq<Action>, s: State, m: nat)
    requires |run| == 4 && run[2..] == [Send(1, true), Send(0, true)]
    requires Next(Exec(EMPTY, run[..1]), run[1]) == s && s.handed == multiset{}
    requires forall d :: d in {0, 1} ==> d in s.drains && s.drains[d] == Drain([m], 0, Sending)
    ensures Exec(EMPTY, run).handed[m] == 2
  {
    assert run[2] == run[2..][0] && run[3] == run[2..][1];
    assert run[..2][..1] == run[..1] && run[..3][..2] == run[..2] && run[..|run| - 1] == run[..3];
    assert Exec(EMPTY, run[..2]) == s;
  }
}
