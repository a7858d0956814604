/** The inbound quota under concurrent dispatches: packages/cloud-runtime/src/dispatch.ts:232-285.

    Each awaited database call of a dispatch is one atomic step: reading the counter, writing
    the audit line, inserting the message row, bumping the counter. A schedule interleaves the
    steps of any number of dispatches of one tenant whose plan has the cap `cap`; any
    of them may crash at any point. */
module Quota {
  import opened Common

  /** Where a dispatch of the usage period `period` stands after the policy engine has spoken. */
  datatype Stage =
    | Arrived(period: nat, permitted: bool)
    | Passed(period: nat)  // allowed, and the counter it read was below the cap
    | Refused(period: nat)
    | Audited(period: nat) // the allow line is written
    | Stored(period: nat)  // the row is inserted
    | Counted(period: nat)
    | Denied(period: nat)  // the deny line is written
    | Crashed(at: Stage)

  datatype AuditLine = AuditLine(period: nat, allow: bool)

  /** `inbox` lists the period of every inbound row. */
  datatype State = State(stages: map<nat, Stage>, usage: map<nat, nat>, audit: seq<AuditLine>, inbox: seq<nat>)

  const EMPTY := State(map[], map[], [], [])

  datatype Action =
    | Arrive(id: nat, period: nat, permitted: bool)
    | ReadUsage(id: nat)
    | WriteAudit(id: nat)
    | Enqueue(id: nat)
    | CountUsage(id: nat)
    | Crash(id: nat)

  function UsageOf(s: State, p: nat): (n: nat)
    ensures p in s.usage ==> n == s.usage[p]
    ensures p !in s.usage ==> n == 0
  {
    if p in s.usage then s.usage[p] else 0
  }

  predicate Running(st: Stage) {
    st.Arrived? || st.Passed? || st.Refused? || st.Audited? || st.Stored?
  }

  function Advance(s: State, cap: nat, id: nat, a: Action): State
    requires id in s.stages
  {
    match (s.stages[id], a)
    case (Arrived(p, permitted), ReadUsage(_)) =>
      s.(stages := s.stages[id := if permitted && UsageOf(s, p) < cap then Passed(p) else Refused(p)])
    case (Passed(p), WriteAudit(_)) =>
      s.(stages := s.stages[id := Audited(p)], audit := s.audit + [AuditLine(p, true)])
    case (Refused(p), WriteAudit(_)) =>
      s.(stages := s.stages[id := Denied(p)], audit := s.audit + [AuditLine(p, false)])
    case (Audited(p), Enqueue(_)) =>
      s.(stages := s.stages[id := Stored(p)], inbox := s.inbox + [p])
    case (Stored(p), CountUsage(_)) =>
      s.(stages := s.stages[id := Counted(p)], usage := s.usage[p := UsageOf(s, p) + 1])
    case (st, Crash(_)) => if Running(st) then s.(stages := s.stages[id := Crashed(st)]) else s
    case _ => s
  }

  function Next(s: State, cap: nat, a: Action): State {
    if a.Arrive? then
      if a.id in s.stages then s else s.(stages := s.stages[a.id := Arrived(a.period, a.permitted)])
    else if a.id in s.stages then Advance(s, cap, a.id, a) else s
  }

  function Exec(s: State, cap: nat, acts: seq<Action>): State {
    if acts == [] then s else Next(Exec(s, cap, acts[..|acts| - 1]), cap, acts[|acts| - 1])
  }

  // -------------------------------------------------------------- the bound

  function InFlight(s: State): set<nat> {
    set id | id in s.stages && Running(s.stages[id])
  }

  predicate Gated(st: Stage, p: nat) {
    (st.Passed? || st.Audited? || st.Stored?) && st.period == p
  }

  /** Dispatches of period `p` that have passed the gate and not yet bumped the counter. */
  function PastGate(s: State, p: nat): set<nat> {
    set id | id in s.stages && Gated(s.stages[id], p)
  }

  /** At no time do more than `k` dispatches run at once. */
  ghost predicate AtMostInFlight(s: State, cap: nat, acts: seq<Action>, k: nat) {
    forall i :: 0 <= i <= |acts| ==> |InFlight(Exec(s, cap, acts[..i]))| <= k
  }

  ghost predicate WithinBound(s: State, cap: nat, k: nat) {
    forall p :: UsageOf(s, p) + |PastGate(s, p)| <= cap + k - 1
  }

  lemma PastGateInFlight(s: State, p: nat)
    ensures |PastGate(s, p)| <= |InFlight(s)|
  {
    SubsetSize(PastGate(s, p), InFlight(s));
  }

  /** The gate opens exactly to what the policy permits, below the cap; what it refuses leaves a deny
      line and nothing else. */
  lemma GateOpensIff(s: State, cap: nat, id: nat, p: nat, permitted: bool)
    requires id in s.stages && s.stages[id] == Arrived(p, permitted)
    ensures var s' := Next(s, cap, ReadUsage(id));
      var s'' := Next(s', cap, WriteAudit(id));
      && s' == s.(stages := s.stages[id := if permitted && UsageOf(s, p) < cap then Passed(p) else Refused(p)])
      && s''.audit == s.audit + [AuditLine(p, permitted && UsageOf(s, p) < cap)]
      && s''.inbox == s.inbox && s''.usage == s.usage
      && (!(permitted && UsageOf(s, p) < cap) ==> forall a: Action :: a.id == id ==> Next(s'', cap, a) == s'')
  {
  }

  /** A step changes at most the stage of its own dispatch; it enters the gate only below the
      cap, and bumps the counter only when it leaves the gate. */
  lemma StepAtGate(s: State, cap: nat, a: Action, p: nat)
    ensures var s' := Next(s, cap, a);
      || (PastGate(s', p) == PastGate(s, p) && UsageOf(s', p) == UsageOf(s, p))
      || (UsageOf(s', p) == UsageOf(s, p) < cap)
      || (a.id in PastGate(s, p) && PastGate(s', p) == PastGate(s, p) - {a.id} && UsageOf(s', p) <= UsageOf(s, p) + 1)
  {
    var s' := Next(s, cap, a);
    if a.id in s.stages {
      if a.id in s'.stages && Gated(s'.stages[a.id], p) == Gated(s.stages[a.id], p) {
        assert PastGate(s', p) == PastGate(s, p);
      } else if Gated(s.stages[a.id], p) {
        assert PastGate(s', p) == PastGate(s, p) - {a.id};
      }
    } else {
      assert PastGate(s', p) == PastGate(s, p);
    }
  }

  lemma StepKeepsBound(s: State, cap: nat, k: nat, a: Action)
    requires WithinBound(s, cap, k)
    requires |InFlight(Next(s, cap, a))| <= k
    ensures WithinBound(Next(s, cap, a), cap, k)
  {
    var s' := Next(s, cap, a);
    forall p ensures UsageOf(s', p) + |PastGate(s', p)| <= cap + k - 1 {
      assert UsageOf(s, p) + |PastGate(s, p)| <= cap + k - 1;
      PastGateInFlight(s', p);
      StepAtGate(s, cap, a, p);
    }
  }

  /** With at most `k` dispatches running at once the counter of a period never exceeds
      `cap + k - 1`: exactly the cap when they run one at a time. */
  lemma {:induction false} UsageBounded(cap: nat, k: nat, acts: seq<Action>)
    requires k >= 1
    requires AtMostInFlight(EMPTY, cap, acts, k)
    ensures WithinBound(Exec(EMPTY, cap, acts), cap, k)
    ensures forall p :: UsageOf(Exec(EMPTY, cap, acts), p) <= cap + k - 1
  {
    if acts == [] {
      assert forall p :: PastGate(EMPTY, p) == {};
    } else {
      var front := acts[..|acts| - 1];
      assert forall i :: 0 <= i <= |front| ==> front[..i] == acts[..i];
      UsageBounded(cap, k, front);
      assert acts[..|acts|] == acts;
      StepKeepsBound(Exec(EMPTY, cap, front), cap, k, acts[|acts| - 1]);
    }
    assert forall p :: UsageOf(Exec(EMPTY, cap, acts), p) + |PastGate(Exec(EMPTY, cap, acts), p)| <= cap + k - 1;
  }

  // ------------------------------------------------------------ the ledger

  function AllowLines(audit: seq<AuditLine>, p: nat): nat {
    if audit == [] then 0
    else AllowLines(audit[..|audit| - 1], p) + if audit[|audit| - 1] == AuditLine(p, true) then 1 else 0
  }

  function RowsOf(inbox: seq<nat>, p: nat): nat {
    if inbox == [] then 0 else RowsOf(inbox[..|inbox| - 1], p) + if inbox[|inbox| - 1] == p then 1 else 0
  }

  /** The last stage a dispatch reached, also if it has crashed since. */
  function Reached(st: Stage): Stage { if st.Crashed? then st.at else st }

  function At(s: State, st: Stage): set<nat> {
    set id | id in s.stages && Reached(s.stages[id]) == st
  }

  /** Allow lines, rows and counted usage differ exactly by the dispatches in between. */
  ghost predicate Balanced(s: State, p: nat) {
    && AllowLines(s.audit, p) == RowsOf(s.inbox, p) + |At(s, Audited(p))|
    && RowsOf(s.inbox, p) == UsageOf(s, p) + |At(s, Stored(p))|
  }

  lemma AtMoves(s: State, s': State, id: nat, st: Stage)
    requires s.stages.Keys <= s'.stages.Keys && id in s'.stages
    requires forall i :: i in s'.stages && i != id ==> i in s.stages && s'.stages[i] == s.stages[i]
    ensures At(s', st) == if Reached(s'.stages[id]) == st then At(s, st) + {id} else At(s, st) - {id}
  {
  }

  /** The number of dispatches at a stage changes by the one that left it or came to it. */
  lemma AtCount(s: State, s': State, id: nat, st: Stage)
    requires id in s.stages && id in s'.stages && s.stages.Keys <= s'.stages.Keys
    requires forall i :: i in s'.stages && i != id ==> i in s.stages && s'.stages[i] == s.stages[i]
    ensures |At(s', st)| == |At(s, st)| - (if Reached(s.stages[id]) == st then 1 else 0)
                                        + (if Reached(s'.stages[id]) == st then 1 else 0)
  {
    AtMoves(s, s', id, st);
  }

  lemma LinesGrow(audit: seq<AuditLine>, l: AuditLine, p: nat)
    ensures AllowLines(audit + [l], p) == AllowLines(audit, p) + if l == AuditLine(p, true) then 1 else 0
  {
    assert (audit + [l])[..|audit|] == audit;
  }

  lemma RowsGrow(inbox: seq<nat>, q: nat, p: nat)
    ensures RowsOf(inbox + [q], p) == RowsOf(inbox, p) + if q == p then 1 else 0
  {
    assert (inbox + [q])[..|inbox|] == inbox;
  }

  /** A step moves one dispatch between stages and grows each ledger by what it writes. */
  lemma LedgersOfStep(s: State, cap: nat, id: nat, a: Action, p: nat)
    requires id in s.stages
    ensures var s', st := Advance(s, cap, id, a), s.stages[id];
      && AllowLines(s'.audit, p) == AllowLines(s.audit, p) + (if a.WriteAudit? && st == Passed(p) then 1 else 0)
      && RowsOf(s'.inbox, p) == RowsOf(s.inbox, p) + (if a.Enqueue? && st == Audited(p) then 1 else 0)
      && UsageOf(s', p) == UsageOf(s, p) + (if a.CountUsage? && st == Stored(p) then 1 else 0)
  {
    var st := s.stages[id];
    if a.WriteAudit? && (st.Passed? || st.Refused?) {
      LinesGrow(s.audit, AuditLine(st.period, st.Passed?), p);
    } else if a.Enqueue? && st.Audited? {
      RowsGrow(s.inbox, st.period, p);
    }
  }

  lemma StageOfStep(s: State, cap: nat, id: nat, a: Action)
    requires id in s.stages
    ensures var s', st := Advance(s, cap, id, a), s.stages[id];
      && id in s'.stages && s'.stages == s.stages[id := s'.stages[id]]
      && (forall q :: Reached(s'.stages[id]) == Audited(q)
            <==> (if a.WriteAudit? && st == Passed(q) then true else Reached(st) == Audited(q) && !(a.Enqueue? && st.Audited?)))
      && (forall q :: Reached(s'.stages[id]) == Stored(q)
            <==> (if a.Enqueue? && st == Audited(q) then true else Reached(st) == Stored(q) && !(a.CountUsage? && st.Stored?)))
  {
  }

  lemma StageStepKeepsBalance(s: State, cap: nat, a: Action, p: nat)
    requires Balanced(s, p)
    requires !a.Arrive? && a.id in s.stages
    ensures Balanced(Advance(s, cap, a.id, a), p)
  {
    var s' := Advance(s, cap, a.id, a);
    StageOfStep(s, cap, a.id, a);
    AtCount(s, s', a.id, Audited(p));
    AtCount(s, s', a.id, Stored(p));
    LedgersOfStep(s, cap, a.id, a, p);
  }

  lemma ArrivalElsewhere(s: State, id: nat, st: Stage, other: Stage)
    requires id !in s.stages && st.Arrived? && other != st
    ensures At(s.(stages := s.stages[id := st]), other) == At(s, other)
  {
  }

  lemma ArrivalKeepsBalance(s: State, id: nat, st: Stage, p: nat)
    requires Balanced(s, p) && id !in s.stages && st.Arrived?
    ensures Balanced(s.(stages := s.stages[id := st]), p)
  {
    ArrivalElsewhere(s, id, st, Audited(p));
    ArrivalElsewhere(s, id, st, Stored(p));
  }

  lemma StepKeepsBalance(s: State, cap: nat, a: Action, p: nat)
    requires Balanced(s, p)
    ensures Balanced(Next(s, cap, a), p)
  {
    if !a.Arrive? && a.id in s.stages {
      StageStepKeepsBalance(s, cap, a, p);
    } else if a.Arrive? && a.id !in s.stages {
      ArrivalKeepsBalance(s, a.id, Arrived(a.period, a.permitted), p);
    }
  }

  /** At every step of every schedule, crashes included: allow lines >= inbound rows >= counted
      usage, and the differences are the dispatches stopped in between. */
  lemma {:induction false} LedgerOrdered(cap: nat, acts: seq<Action>, p: nat)
    ensures Balanced(Exec(EMPTY, cap, acts), p)
    ensures var s := Exec(EMPTY, cap, acts); AllowLines(s.audit, p) >= RowsOf(s.inbox, p) >= UsageOf(s, p)
  {
    if acts == [] {
      assert At(EMPTY, Audited(p)) == {} && At(EMPTY, Stored(p)) == {};
    } else {
      LedgerOrdered(cap, acts[..|acts| - 1], p);
      StepKeepsBalance(Exec(EMPTY, cap, acts[..|acts| - 1]), cap, acts[|acts| - 1], p);
    }
  }

  // ------------------------------------------------- the bound is attained

  lemma Snoc(cap: nat, k: nat, acts: seq<Action>, a: Action)
    ensures Exec(EMPTY, cap, acts + [a]) == Next(Exec(EMPTY, cap, acts), cap, a)
    ensures (AtMostInFlight(EMPTY, cap, acts, k) && |InFlight(Exec(EMPTY, cap, acts + [a]))| <= k)
      ==> AtMostInFlight(EMPTY, cap, acts + [a], k)
  {
    assert (acts + [a])[..|acts|] == acts;
    assert (acts + [a])[..|acts| + 1] == acts + [a];
    assert forall i :: 0 <= i <= |acts| ==> (acts + [a])[..i] == acts[..i];
  }

  lemma InFlightMoves(s: State, s': State, id: nat)
    requires s'.stages.Keys == s.stages.Keys + {id}
    requires forall i :: i in s.stages && i != id ==> s'.stages[i] == s.stages[i]
    ensures InFlight(s') == if Running(s'.stages[id]) then InFlight(s) + {id} else InFlight(s) - {id}
  {
  }

  lemma Advances(cap: nat, k: nat, acts: seq<Action>, id: nat, a: Action, st: Stage)
    requires AtMostInFlight(EMPTY, cap, acts, k)
    requires id == a.id && !a.Arrive? && id in Exec(EMPTY, cap, acts).stages && Running(Exec(EMPTY, cap, acts).stages[id])
    requires Advance(Exec(EMPTY, cap, acts), cap, id, a).stages == Exec(EMPTY, cap, acts).stages[id := st]
    ensures AtMostInFlight(EMPTY, cap, acts + [a], k)
    ensures Exec(EMPTY, cap, acts + [a]) == Advance(Exec(EMPTY, cap, acts), cap, id, a)
    ensures InFlight(Exec(EMPTY, cap, acts + [a])) == if Running(st) then InFlight(Exec(EMPTY, cap, acts)) else InFlight(Exec(EMPTY, cap, acts)) - {id}
  {
    assert acts[..|acts|] == acts;
    var s, s' := Exec(EMPTY, cap, acts), Advance(Exec(EMPTY, cap, acts), cap, id, a);
    InFlightMoves(s, s', id);
    assert id in InFlight(s);
    Snoc(cap, k, acts, a);
  }

  lemma Arrives(cap: nat, k: nat, acts: seq<Action>, id: nat)
    requires AtMostInFlight(EMPTY, cap, acts, k)
    requires id !in Exec(EMPTY, cap, acts).stages && |InFlight(Exec(EMPTY, cap, acts))| < k
    ensures AtMostInFlight(EMPTY, cap, acts + [Arrive(id, 0, true)], k)
    ensures var s, s' := Exec(EMPTY, cap, acts), Exec(EMPTY, cap, acts + [Arrive(id, 0, true)]);
      && s' == s.(stages := s.stages[id := Arrived(0, true)])
      && |InFlight(s')| == |InFlight(s)| + 1
  {
    var s := Exec(EMPTY, cap, acts);
    InFlightMoves(s, s.(stages := s.stages[id := Arrived(0, true)]), id);
    assert id !in InFlight(s);
    Snoc(cap, k, acts, Arrive(id, 0, true));
  }

  /** Dispatch `id` arrives and reads the counter. */
  lemma Enter(cap: nat, k: nat, acts: seq<Action>, id: nat) returns (acts': seq<Action>)
    requires AtMostInFlight(EMPTY, cap, acts, k)
    requires var s := Exec(EMPTY, cap, acts); id !in s.stages && UsageOf(s, 0) < cap && |InFlight(s)| < k
    ensures AtMostInFlight(EMPTY, cap, acts', k)
    ensures var s, s' := Exec(EMPTY, cap, acts), Exec(EMPTY, cap, acts');
      && UsageOf(s', 0) == UsageOf(s, 0)
      && s'.stages == s.stages[id := Passed(0)]
      && |InFlight(s')| == |InFlight(s)| + 1
  {
    var s := Exec(EMPTY, cap, acts);
    Arrives(cap, k, acts, id);
    var acts1 := acts + [Arrive(id, 0, true)];
    Advances(cap, k, acts1, id, ReadUsage(id), Passed(0));
    acts' := acts1 + [ReadUsage(id)];
    assert s.stages[id := Arrived(0, true)][id := Passed(0)] == s.stages[id := Passed(0)];
  }

  /** It writes its line and its row. */
  lemma Log(cap: nat, k: nat, acts: seq<Action>, id: nat) returns (acts': seq<Action>)
    requires AtMostInFlight(EMPTY, cap, acts, k)
    requires var s := Exec(EMPTY, cap, acts); id in s.stages && s.stages[id] == Passed(0)
    ensures AtMostInFlight(EMPTY, cap, acts', k)
    ensures var s, s' := Exec(EMPTY, cap, acts), Exec(EMPTY, cap, acts');
      s'.usage == s.usage && s'.stages == s.stages[id := Stored(0)] && InFlight(s') == InFlight(s)
  {
    var s := Exec(EMPTY, cap, acts);
    Advances(cap, k, acts, id, WriteAudit(id), Audited(0));
    var acts1 := acts + [WriteAudit(id)];
    Advances(cap, k, acts1, id, Enqueue(id), Stored(0));
    acts' := acts1 + [Enqueue(id)];
    assert s.stages[id := Audited(0)][id := Stored(0)] == s.stages[id := Stored(0)];
  }

  /** It goes on to the end. */
  lemma Leave(cap: nat, k: nat, acts: seq<Action>, id: nat) returns (acts': seq<Action>)
    requires AtMostInFlight(EMPTY, cap, acts, k)
    requires var s := Exec(EMPTY, cap, acts); id in s.stages && s.stages[id] == Passed(0)
    ensures AtMostInFlight(EMPTY, cap, acts', k)
    ensures var s, s' := Exec(EMPTY, cap, acts), Exec(EMPTY, cap, acts');
      && UsageOf(s', 0) == UsageOf(s, 0) + 1
      && s'.stages == s.stages[id := Counted(0)]
      && |InFlight(s')| == |InFlight(s)| - 1
  {
    var s := Exec(EMPTY, cap, acts);
    var acts1 := Log(cap, k, acts, id);
    Advances(cap, k, acts1, id, CountUsage(id), Counted(0));
    acts' := acts1 + [CountUsage(id)];
    assert s.stages[id := Stored(0)][id := Counted(0)] == s.stages[id := Counted(0)];
    assert id in InFlight(s);
  }

  ghost predicate FreshFrom(s: State, from: nat) {
    forall id: nat :: id >= from ==> id !in s.stages
  }

  /** `n` dispatches one after the other. */
  lemma {:induction false} Fill(cap: nat, n: nat) returns (acts: seq<Action>)
    requires n <= cap
    ensures AtMostInFlight(EMPTY, cap, acts, 1)
    ensures var s := Exec(EMPTY, cap, acts); UsageOf(s, 0) == n && FreshFrom(s, n) && |InFlight(s)| == 0
  {
    if n == 0 {
      acts := [];
      assert InFlight(EMPTY) == {};
    } else {
      acts := Fill(cap, n - 1);
      acts := Enter(cap, 1, acts, n - 1);
      acts := Leave(cap, 1, acts, n - 1);
    }
  }

  ghost predicate Waiting(s: State, from: nat, to: nat) {
    forall id: nat :: from <= id < to ==> id in s.stages && s.stages[id] == Passed(0)
  }

  /** `n` dispatches enter before any of them leaves. */
  lemma {:induction false} EnterAll(cap: nat, k: nat, acts: seq<Action>, from: nat, n: nat) returns (acts': seq<Action>)
    requires n <= k && AtMostInFlight(EMPTY, cap, acts, k)
    requires var s := Exec(EMPTY, cap, acts); FreshFrom(s, from) && UsageOf(s, 0) < cap && |InFlight(s)| == 0
    ensures AtMostInFlight(EMPTY, cap, acts', k)
    ensures var s, s' := Exec(EMPTY, cap, acts), Exec(EMPTY, cap, acts');
      UsageOf(s', 0) == UsageOf(s, 0) && FreshFrom(s', from + n) && |InFlight(s')| == n && Waiting(s', from, from + n)
  {
    acts' := acts;
    if n > 0 {
      acts' := EnterAll(cap, k, acts, from, n - 1);
      acts' := Enter(cap, k, acts', from + n - 1);
    }
  }

  lemma {:induction false} LeaveAll(cap: nat, k: nat, acts: seq<Action>, from: nat, n: nat) returns (acts': seq<Action>)
    decreases n
    requires AtMostInFlight(EMPTY, cap, acts, k)
    requires Waiting(Exec(EMPTY, cap, acts), from, from + n)
    ensures AtMostInFlight(EMPTY, cap, acts', k)
    ensures UsageOf(Exec(EMPTY, cap, acts'), 0) == UsageOf(Exec(EMPTY, cap, acts), 0) + n
  {
    acts' := acts;
    if n > 0 {
      acts' := Leave(cap, k, acts, from + n - 1);
      acts' := LeaveAll(cap, k, acts', from, n - 1);
    }
  }

  lemma AtMostWeakens(cap: nat, acts: seq<Action>, j: nat, k: nat)
    requires AtMostInFlight(EMPTY, cap, acts, j) && j <= k
    ensures AtMostInFlight(EMPTY, cap, acts, k)
  {
  }

  /** The bound is exact: `k` dispatches that all read the counter one below the cap push it
      to `cap + k - 1`. */
  lemma BoundIsAttained(cap: nat, k: nat) returns (acts: seq<Action>)
    requires cap >= 1 && k >= 1
    ensures AtMostInFlight(EMPTY, cap, acts, k)
    ensures UsageOf(Exec(EMPTY, cap, acts), 0) == cap + k - 1
  {
    acts := Fill(cap, cap - 1);
    AtMostWeakens(cap, acts, 1, k);
    acts := EnterAll(cap, k, acts, cap - 1, k);
    acts := LeaveAll(cap, k, acts, cap - 1, k);
  }
}
