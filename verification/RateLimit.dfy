/**
 * The fixed-window rate limiter of apps/cloud/lib/rate-limit.ts.
 *
 * One table row per bucket and window start holds a hit counter; a request increments it and is
 * refused once the counter is over the limit. Any request may start a sweep, which runs whenever
 * it runs and deletes the rows whose window ended an hour before that request. A row's key is the
 * text bucket@start, which is the pair: the start is what follows the last '@'.
 */
module RateLimit {
  import opened Common

  const HOUR_MS: nat := 60 * 60 * 1000

  type Positive = n: nat | 0 < n witness 1

  /** m is a multiple of w. */
  predicate Aligned(m: nat, w: Positive) {
    m == 0 || (m >= w && Aligned(m - w, w))
  }

  /** The largest multiple of w that is at most x. */
  function AlignDown(x: nat, w: Positive): (r: nat)
    ensures r <= x < r + w
    ensures Aligned(r, w)
  {
    DivMod(x, w);
    MultipleAligned(x / w, w);
    x / w * w
  }

  lemma DivMod(x: nat, w: Positive)
    ensures x == x / w * w + x % w && 0 <= x % w < w && 0 <= x / w * w
  {
  }

  lemma {:induction false} MultipleAligned(q: nat, w: Positive)
    ensures 0 <= q * w && Aligned(q * w, w)
  {
    if q > 0 {
      MultipleAligned(q - 1, w);
      assert q * w == (q - 1) * w + w;
    }
  }

  /** Between two neighbouring multiples there is no other. */
  lemma {:induction false} AlignedGap(m: nat, n: nat, w: Positive)
    requires Aligned(m, w) && Aligned(n, w) && m < n + w && n < m + w
    ensures m == n
    decreases m
  {
    if m >= w && n >= w {
      AlignedGap(m - w, n - w, w);
    }
  }

  /** x aligns down to a multiple exactly if it lies between that multiple and the next. */
  lemma AlignDownIff(x: nat, w: Positive, m: nat)
    requires Aligned(m, w)
    ensures AlignDown(x, w) == m <==> m <= x < m + w
  {
    if m <= x < m + w {
      AlignedGap(m, AlignDown(x, w), w);
    }
  }

  /** What a bucket is limited to: so many requests in each window of so many seconds. */
  datatype Plan = Plan(windowSeconds: Positive, limit: nat) {
    function WindowMs(): (w: Positive)
      ensures w >= 1000
    {
      windowSeconds * 1000
    }

    function WindowStart(now: nat): nat {
      AlignDown(now, WindowMs())
    }

    function WindowEnd(now: nat): nat {
      WindowStart(now) + WindowMs()
    }
  }

  datatype Key = Key(bucket: string, start: nat)
  datatype Row = Row(hits: nat, windowEnd: nat)
  type Table = map<Key, Row>

  datatype Verdict =
    | Pass(remaining: nat, retryAfter: nat)
    | Refuse(retryAfter: nat)

  // ---------------------------------------------------------------------------------------------
  // One request, one sweep
  // ---------------------------------------------------------------------------------------------

  /** insert ... on conflict do update set hits = hits + 1: an existing row keeps its window end. */
  function Upsert(rows: Table, key: Key, windowEnd: nat): Table {
    if key in rows then rows[key := rows[key].(hits := rows[key].hits + 1)]
    else rows[key := Row(1, windowEnd)]
  }

  function Hit(rows: Table, plan: Plan, bucket: string, now: nat): Table {
    Upsert(rows, Key(bucket, plan.WindowStart(now)), plan.WindowEnd(now))
  }

  /** Whole seconds, rounded up, to the end of the window. */
  function RetryAfter(plan: Plan, now: nat): nat {
    Max(1, (plan.WindowEnd(now) - now + 999) / 1000)
  }

  /** The answer to a request that finds the table in this state. */
  function Judge(rows: Table, plan: Plan, bucket: string, now: nat): Verdict {
    var hits := Hit(rows, plan, bucket, now)[Key(bucket, plan.WindowStart(now))].hits;
    if hits > plan.limit then Refuse(RetryAfter(plan, now))
    else Pass(plan.limit - hits, RetryAfter(plan, now))
  }

  function Swept(rows: Table, asOf: nat): Table {
    map key | key in rows && rows[key].windowEnd + HOUR_MS >= asOf :: rows[key]
  }

  /** Waiting the advertised time lands in the very next window, and one second less does not. */
  lemma RetryAfterReachesNextWindow(plan: Plan, now: nat)
    ensures 1 <= RetryAfter(plan, now) <= plan.windowSeconds
    ensures plan.WindowStart(now + 1000 * RetryAfter(plan, now)) == plan.WindowEnd(now)
    ensures RetryAfter(plan, now) > 1
            ==> plan.WindowStart(now + 1000 * (RetryAfter(plan, now) - 1)) == plan.WindowStart(now)
  {
    var start, end, w := plan.WindowStart(now), plan.WindowEnd(now), plan.WindowMs();
    var later := now + 1000 * RetryAfter(plan, now);
    AlignDownIff(later, w, end);
    if RetryAfter(plan, now) > 1 {
      AlignDownIff(later - 1000, w, start);
    }
  }

  // ---------------------------------------------------------------------------------------------
  // Runs of requests and sweeps over many buckets
  // ---------------------------------------------------------------------------------------------

  datatype Act =
    | Check(bucket: string, now: nat)
    | Sweep(asOf: nat)

  function Exec(plans: string -> Plan, acts: seq<Act>): Table {
    if acts == [] then map[]
    else
      var rows := Exec(plans, acts[..|acts| - 1]);
      match acts[|acts| - 1]
      case Check(bucket, now) => Hit(rows, plans(bucket), bucket, now)
      case Sweep(asOf) => Swept(rows, asOf)
  }

  predicate Within(act: Act, bucket: string, from: nat, to: nat) {
    act.Check? && act.bucket == bucket && from <= act.now < to
  }

  /** Whether the request after these acts passes. */
  predicate Passes(plans: string -> Plan, before: seq<Act>, act: Act) {
    act.Check? && Judge(Exec(plans, before), plans(act.bucket), act.bucket, act.now).Pass?
  }

  function Requests(acts: seq<Act>, bucket: string, from: nat, to: nat): nat {
    if acts == [] then 0
    else
      Requests(acts[..|acts| - 1], bucket, from, to)
      + if Within(acts[|acts| - 1], bucket, from, to) then 1 else 0
  }

  function Accepted(plans: string -> Plan, acts: seq<Act>, bucket: string, from: nat, to: nat): nat {
    if acts == [] then 0
    else
      var before, last := acts[..|acts| - 1], acts[|acts| - 1];
      Accepted(plans, before, bucket, from, to)
      + if Within(last, bucket, from, to) && Passes(plans, before, last) then 1 else 0
  }

  /** The latest moment any sweep so far was started for. */
  function Horizon(acts: seq<Act>): nat {
    if acts == [] then 0
    else
      var before := Horizon(acts[..|acts| - 1]);
      match acts[|acts| - 1]
      case Check(_, _) => before
      case Sweep(asOf) => Max(before, asOf)
  }

  /** No request's clock is more than an hour behind a sweep that ran before it. */
  predicate Timely(acts: seq<Act>) {
    acts == []
    || (&& Timely(acts[..|acts| - 1])
        && (acts[|acts| - 1].Check? ==> acts[|acts| - 1].now + HOUR_MS >= Horizon(acts[..|acts| - 1])))
  }

  /** The latest request so far. */
  function Clock(acts: seq<Act>): nat {
    if acts == [] then 0
    else
      var before := Clock(acts[..|acts| - 1]);
      match acts[|acts| - 1]
      case Check(_, now) => Max(before, now)
      case Sweep(_) => before
  }

  /** Request times never go back, and a sweep is started by an earlier request. */
  predicate InOrder(acts: seq<Act>) {
    acts == []
    || (&& InOrder(acts[..|acts| - 1])
        && match acts[|acts| - 1]
           case Check(_, now) => Clock(acts[..|acts| - 1]) <= now
           case Sweep(asOf) => asOf <= Clock(acts[..|acts| - 1]))
  }

  lemma {:induction false} InOrderIsTimely(acts: seq<Act>)
    requires InOrder(acts)
    ensures Timely(acts) && Horizon(acts) <= Clock(acts)
  {
    if acts != [] {
      InOrderIsTimely(acts[..|acts| - 1]);
    }
  }

  /** The request finds its window's row swept although there were requests in that window. */
  predicate Refills(plans: string -> Plan, before: seq<Act>, act: Act) {
    && act.Check?
    && var plan := plans(act.bucket);
       Key(act.bucket, plan.WindowStart(act.now)) !in Exec(plans, before)
       && Requests(before, act.bucket, plan.WindowStart(act.now), plan.WindowEnd(act.now)) > 0
  }

  predicate NeverRefills(plans: string -> Plan, acts: seq<Act>) {
    acts == [] || (NeverRefills(plans, acts[..|acts| - 1]) && !Refills(plans, acts[..|acts| - 1], acts[|acts| - 1]))
  }

  /** Every row in the table counts all the requests made in its window. */
  ghost predicate Counts(plans: string -> Plan, acts: seq<Act>) {
    forall key :: key in Exec(plans, acts) ==> RowCounts(plans, acts, key)
  }

  ghost predicate RowCounts(plans: string -> Plan, acts: seq<Act>, key: Key)
    requires key in Exec(plans, acts)
  {
    var end := key.start + plans(key.bucket).WindowMs();
    Aligned(key.start, plans(key.bucket).WindowMs()) && Exec(plans, acts)[key] == Row(Requests(acts, key.bucket, key.start, end), end)
  }

  lemma RowStillCounts(plans: string -> Plan, before: seq<Act>, act: Act, key: Key)
    requires key in Exec(plans, before) && RowCounts(plans, before, key)
    ensures key in Exec(plans, before + [act]) ==> RowCounts(plans, before + [act], key)
  {
    assert (before + [act])[..|before|] == before;
    if act.Check? && act.bucket == key.bucket {
      AlignDownIff(act.now, plans(key.bucket).WindowMs(), key.start);
    }
  }

  lemma NewRowCountsIff(plans: string -> Plan, before: seq<Act>, act: Act)
    requires act.Check?
    ensures var plan := plans(act.bucket);
            var key := Key(act.bucket, plan.WindowStart(act.now));
            key !in Exec(plans, before) ==>
              key in Exec(plans, before + [act]) && (RowCounts(plans, before + [act], key) <==> !Refills(plans, before, act))
  {
    var plan := plans(act.bucket);
    assert (before + [act])[..|before|] == before;
    AlignDownIff(act.now, plan.WindowMs(), plan.WindowStart(act.now));
  }

  /** One act keeps every row's count right if and only if it is not such a request. */
  lemma CountsStepIff(plans: string -> Plan, before: seq<Act>, act: Act)
    requires Counts(plans, before)
    ensures Counts(plans, before + [act]) <==> !Refills(plans, before, act)
  {
    var acts := before + [act];
    assert acts[..|before|] == before;
    forall key | key in Exec(plans, acts) && key in Exec(plans, before) ensures RowCounts(plans, acts, key) {
      RowStillCounts(plans, before, act, key);
    }
    if act.Check? {
      NewRowCountsIff(plans, before, act);
    }
  }

  ghost predicate AlwaysCounts(plans: string -> Plan, acts: seq<Act>) {
    acts == [] || (AlwaysCounts(plans, acts[..|acts| - 1]) && Counts(plans, acts))
  }

  /** Over a run with sweeps at any point the counters are always right if and only if no request
      comes to a window that had requests and was swept. */
  lemma {:induction false} AlwaysCountsIff(plans: string -> Plan, acts: seq<Act>)
    ensures AlwaysCounts(plans, acts) <==> NeverRefills(plans, acts)
  {
    if acts != [] {
      var before := acts[..|acts| - 1];
      AlwaysCountsIff(plans, before);
      assert acts == before + [acts[|acts| - 1]];
      if AlwaysCounts(plans, before) {
        CountsStepIff(plans, before, acts[|acts| - 1]);
      }
    }
  }

  /** What the table knows about one aligned window. */
  ghost predicate WindowTracked(plans: string -> Plan, acts: seq<Act>, bucket: string, start: nat) {
    var plan := plans(bucket);
    var end := start + plan.WindowMs();
    var asked := Requests(acts, bucket, start, end);
    var rows := Exec(plans, acts);
    var key := Key(bucket, start);
    && Accepted(plans, acts, bucket, start, end) == Min(plan.limit, asked)
    && (key in rows ==> rows[key] == Row(asked, end))
  }

  lemma {:induction false} WindowIsTracked(plans: string -> Plan, acts: seq<Act>, bucket: string, start: nat)
    requires NeverRefills(plans, acts)
    requires Aligned(start, plans(bucket).WindowMs())
    ensures WindowTracked(plans, acts, bucket, start)
  {
    if acts != [] {
      var before, last := acts[..|acts| - 1], acts[|acts| - 1];
      WindowIsTracked(plans, before, bucket, start);
      if last.Check? {
        AlignDownIff(last.now, plans(bucket).WindowMs(), start);
      }
    }
  }

  /** A window lets through exactly the first `limit` of the requests made in it. */
  lemma WindowAcceptsUpToLimit(plans: string -> Plan, acts: seq<Act>, bucket: string, start: nat)
    requires NeverRefills(plans, acts)
    requires Aligned(start, plans(bucket).WindowMs())
    ensures var end := start + plans(bucket).WindowMs();
            Accepted(plans, acts, bucket, start, end)
            == Min(plans(bucket).limit, Requests(acts, bucket, start, end))
  {
    WindowIsTracked(plans, acts, bucket, start);
  }

  /** A row goes only an hour after its window has ended. */
  lemma {:induction false} SweptLate(plans: string -> Plan, acts: seq<Act>, bucket: string, start: nat)
    requires Aligned(start, plans(bucket).WindowMs())
    ensures var key, end := Key(bucket, start), start + plans(bucket).WindowMs();
            && (key in Exec(plans, acts) ==> Exec(plans, acts)[key].windowEnd == end)
            && (key !in Exec(plans, acts) && Requests(acts, bucket, start, end) > 0 ==> end + HOUR_MS < Horizon(acts))
  {
    if acts != [] {
      SweptLate(plans, acts[..|acts| - 1], bucket, start);
      if acts[|acts| - 1].Check? {
        AlignDownIff(acts[|acts| - 1].now, plans(bucket).WindowMs(), start);
      }
    }
  }

  /** A request no more than an hour behind every earlier sweep never finds its window forgotten. */
  lemma {:induction false} TimelyNeverRefills(plans: string -> Plan, acts: seq<Act>)
    requires Timely(acts)
    ensures NeverRefills(plans, acts)
  {
    if acts != [] {
      var before, last := acts[..|acts| - 1], acts[|acts| - 1];
      TimelyNeverRefills(plans, before);
      if last.Check? {
        SweptLate(plans, before, last.bucket, plans(last.bucket).WindowStart(last.now));
      }
    }
  }

  lemma InOrderNeverRefills(plans: string -> Plan, acts: seq<Act>)
    requires InOrder(acts)
    ensures NeverRefills(plans, acts)
  {
    InOrderIsTimely(acts);
    TimelyNeverRefills(plans, acts);
  }

  // ---------------------------------------------------------------------------------------------
  // Bursts across window boundaries
  // ---------------------------------------------------------------------------------------------

  lemma {:induction false} AcceptedSplits(plans: string -> Plan, acts: seq<Act>, bucket: string,
                                          from: nat, mid: nat, to: nat)
    requires from <= mid <= to
    ensures Accepted(plans, acts, bucket, from, to)
            == Accepted(plans, acts, bucket, from, mid) + Accepted(plans, acts, bucket, mid, to)
  {
    if acts != [] {
      AcceptedSplits(plans, acts[..|acts| - 1], bucket, from, mid, to);
    }
  }

  lemma {:induction false} AlignedWindowsBound(plans: string -> Plan, acts: seq<Act>, bucket: string,
                                               start: nat, n: nat)
    requires NeverRefills(plans, acts)
    requires Aligned(start, plans(bucket).WindowMs())
    ensures Accepted(plans, acts, bucket, start, start + n * plans(bucket).WindowMs())
            <= n * plans(bucket).limit
    decreases n
  {
    var w, limit := plans(bucket).WindowMs(), plans(bucket).limit;
    if n == 0 {
      NothingInEmptyInterval(plans, acts, bucket, start);
    } else {
      AlignedWindowsBound(plans, acts, bucket, start + w, n - 1);
      assert start + n * w == start + w + (n - 1) * w;
      assert n * limit == limit + (n - 1) * limit;
      AcceptedSplits(plans, acts, bucket, start, start + w, start + n * w);
      WindowAcceptsUpToLimit(plans, acts, bucket, start);
    }
  }

  lemma {:induction false} NothingInEmptyInterval(plans: string -> Plan, acts: seq<Act>, bucket: string, at: nat)
    ensures Accepted(plans, acts, bucket, at, at) == 0
  {
    if acts != [] {
      NothingInEmptyInterval(plans, acts[..|acts| - 1], bucket, at);
    }
  }

  /** Any interval of k window lengths, aligned or not, lets through at most (k + 1) * limit. */
  lemma BurstBound(plans: string -> Plan, acts: seq<Act>, bucket: string, from: nat, k: nat)
    requires NeverRefills(plans, acts)
    ensures Accepted(plans, acts, bucket, from, from + k * plans(bucket).WindowMs())
            <= (k + 1) * plans(bucket).limit
  {
    var plan := plans(bucket);
    var w, start := plan.WindowMs(), plan.WindowStart(from);
    AlignedWindowsBound(plans, acts, bucket, start, k + 1);
    assert (k + 1) * w == k * w + w;
    var to, end := from + k * w, start + (k + 1) * w;
    AcceptedSplits(plans, acts, bucket, start, from, end);
    AcceptedSplits(plans, acts, bucket, from, to, end);
  }

  /** `limit` requests just before the first boundary and `limit` more at each of k boundaries. */
  function Salvo(bucket: string, w: Positive, limit: nat, k: nat): seq<Act> {
    if k == 0 then Repeat(bucket, w - 1, limit)
    else Salvo(bucket, w, limit, k - 1) + Repeat(bucket, Boundary(k, w), limit)
  }

  function Boundary(k: nat, w: Positive): (at: nat)
    ensures Aligned(at, w)
  {
    if k == 0 then 0 else Boundary(k - 1, w) + w
  }

  function Rounds(k: nat, limit: nat): nat {
    if k == 0 then limit else Rounds(k - 1, limit) + limit
  }

  lemma {:induction false} ClosedForms(k: nat, w: Positive, limit: nat)
    ensures Boundary(k, w) == k * w
    ensures Rounds(k, limit) == (k + 1) * limit
  {
    if k > 0 {
      ClosedForms(k - 1, w, limit);
    }
  }

  function Repeat(bucket: string, now: nat, n: nat): (acts: seq<Act>)
    ensures |acts| == n && forall i :: 0 <= i < n ==> acts[i] == Check(bucket, now)
  {
    seq(n, i => Check(bucket, now))
  }

  lemma {:induction false} OrderAfterRepeat(acts: seq<Act>, bucket: string, now: nat, n: nat)
    requires InOrder(acts) && Clock(acts) <= now
    ensures InOrder(acts + Repeat(bucket, now, n)) && Clock(acts + Repeat(bucket, now, n)) <= now
  {
    var all := acts + Repeat(bucket, now, n);
    if n == 0 {
      assert all == acts;
    } else {
      OrderAfterRepeat(acts, bucket, now, n - 1);
      assert all[..|all| - 1] == acts + Repeat(bucket, now, n - 1);
    }
  }

  lemma RepeatOneMore(acts: seq<Act>, bucket: string, now: nat, n: nat)
    requires n > 0
    ensures acts + Repeat(bucket, now, n) == acts + Repeat(bucket, now, n - 1) + [Check(bucket, now)]
  {
  }

  lemma RequestsOneMore(acts: seq<Act>, act: Act, bucket: string, from: nat, to: nat)
    ensures Requests(acts + [act], bucket, from, to) == Requests(acts, bucket, from, to) + if Within(act, bucket, from, to) then 1 else 0
  {
    assert (acts + [act])[..|acts|] == acts;
  }

  lemma {:induction false} RequestsAfterRepeat(acts: seq<Act>, bucket: string, now: nat, n: nat, from: nat, to: nat)
    ensures Requests(acts + Repeat(bucket, now, n), bucket, from, to)
         == Requests(acts, bucket, from, to) + if from <= now < to then n else 0
  {
    if n == 0 {
      assert acts + Repeat(bucket, now, 0) == acts;
    } else {
      hide Requests;
      RequestsAfterRepeat(acts, bucket, now, n - 1, from, to);
      RepeatOneMore(acts, bucket, now, n);
      RequestsOneMore(acts + Repeat(bucket, now, n - 1), Check(bucket, now), bucket, from, to);
    }
  }

  lemma {:induction false} CountsAfterRepeat(plans: string -> Plan, acts: seq<Act>, bucket: string, now: nat, n: nat,
                                             from: nat, to: nat)
    ensures var all := acts + Repeat(bucket, now, n);
            && Requests(all, bucket, from, to)
               == Requests(acts, bucket, from, to) + (if from <= now < to then n else 0)
            && (!(from <= now < to) ==> Accepted(plans, all, bucket, from, to) == Accepted(plans, acts, bucket, from, to))
  {
    hide Requests;
    RequestsAfterRepeat(acts, bucket, now, n, from, to);
    if !(from <= now < to) {
      AcceptedAfterRepeat(plans, acts, bucket, now, n, from, to);
    }
  }

  lemma AcceptedOneMore(plans: string -> Plan, acts: seq<Act>, act: Act, bucket: string, from: nat, to: nat)
    requires !Within(act, bucket, from, to)
    ensures Accepted(plans, acts + [act], bucket, from, to) == Accepted(plans, acts, bucket, from, to)
  {
    assert (acts + [act])[..|acts|] == acts;
  }

  lemma {:induction false} AcceptedAfterRepeat(plans: string -> Plan, acts: seq<Act>, bucket: string, now: nat, n: nat,
                                               from: nat, to: nat)
    requires !(from <= now < to)
    ensures Accepted(plans, acts + Repeat(bucket, now, n), bucket, from, to) == Accepted(plans, acts, bucket, from, to)
  {
    if n == 0 {
      assert acts + Repeat(bucket, now, 0) == acts;
    } else {
      hide Accepted;
      AcceptedAfterRepeat(plans, acts, bucket, now, n - 1, from, to);
      RepeatOneMore(acts, bucket, now, n);
      AcceptedOneMore(plans, acts + Repeat(bucket, now, n - 1), Check(bucket, now), bucket, from, to);
    }
  }

  lemma {:induction false} NothingLater(acts: seq<Act>, bucket: string, from: nat, to: nat)
    requires Clock(acts) < from
    ensures Requests(acts, bucket, from, to) == 0
  {
    if acts != [] {
      NothingLater(acts[..|acts| - 1], bucket, from, to);
    }
  }

  /** A round of requests at a window's start, all of it new to that window, gets through. */
  lemma FreshRound(plans: string -> Plan, before: seq<Act>, bucket: string, from: nat, at: nat)
    requires InOrder(before) && Clock(before) < at && from <= at
    requires Aligned(at, plans(bucket).WindowMs())
    ensures var acts := before + Repeat(bucket, at, plans(bucket).limit);
            && InOrder(acts) && Clock(acts) <= at
            && Accepted(plans, acts, bucket, from, at + plans(bucket).WindowMs())
               == Accepted(plans, before, bucket, from, at) + plans(bucket).limit
  {
    var w, limit := plans(bucket).WindowMs(), plans(bucket).limit;
    var acts := before + Repeat(bucket, at, limit);
    OrderAfterRepeat(before, bucket, at, limit);
    CountsAfterRepeat(plans, before, bucket, at, limit, at, at + w);
    CountsAfterRepeat(plans, before, bucket, at, limit, from, at);
    NothingLater(before, bucket, at, at + w);
    InOrderNeverRefills(plans, acts);
    WindowAcceptsUpToLimit(plans, acts, bucket, at);
    AcceptedSplits(plans, acts, bucket, from, at, at + w);
  }

  lemma RoundAlone(plans: string -> Plan, bucket: string, at: nat, n: nat, from: nat, to: nat)
    ensures var acts := Repeat(bucket, at, n);
            && InOrder(acts) && Clock(acts) <= at
            && Requests(acts, bucket, from, to) == (if from <= at < to then n else 0)
            && (!(from <= at < to) ==> Accepted(plans, acts, bucket, from, to) == 0)
  {
    assert [] + Repeat(bucket, at, n) == Repeat(bucket, at, n);
    OrderAfterRepeat([], bucket, at, n);
    CountsAfterRepeat(plans, [], bucket, at, n, from, to);
  }

  lemma FirstRoundAccepted(plans: string -> Plan, bucket: string)
    ensures var w, limit := plans(bucket).WindowMs(), plans(bucket).limit;
            Accepted(plans, Repeat(bucket, w - 1, limit), bucket, w - 1, w) == limit
  {
    hide Accepted, Requests, Exec;
    var w, limit := plans(bucket).WindowMs(), plans(bucket).limit;
    FirstWindowAccepted(plans, bucket);
    RoundAlone(plans, bucket, w - 1, limit, 0, w - 1);
    AcceptedSplits(plans, Repeat(bucket, w - 1, limit), bucket, 0, w - 1, w);
  }

  lemma FirstWindowAccepted(plans: string -> Plan, bucket: string)
    ensures var w, limit := plans(bucket).WindowMs(), plans(bucket).limit;
            Accepted(plans, Repeat(bucket, w - 1, limit), bucket, 0, w) == limit
  {
    hide Accepted, Requests, Exec;
    var w, limit := plans(bucket).WindowMs(), plans(bucket).limit;
    RoundAlone(plans, bucket, w - 1, limit, 0, w);
    InOrderNeverRefills(plans, Repeat(bucket, w - 1, limit));
    WindowAcceptsUpToLimit(plans, Repeat(bucket, w - 1, limit), bucket, 0);
  }

  lemma FirstRound(plans: string -> Plan, bucket: string)
    ensures SalvoGot(plans, bucket, 0)
  {
    var w, limit := plans(bucket).WindowMs(), plans(bucket).limit;
    RoundAlone(plans, bucket, w - 1, limit, 0, w);
    FirstRoundAccepted(plans, bucket);
  }

  lemma NextRound(plans: string -> Plan, bucket: string, k: nat)
    requires k > 0 && SalvoGot(plans, bucket, k - 1)
    ensures SalvoGot(plans, bucket, k)
  {
    var w, limit := plans(bucket).WindowMs(), plans(bucket).limit;
    FreshRound(plans, Salvo(bucket, w, limit, k - 1), bucket, w - 1, Boundary(k, w));
  }

  /** The salvo is in order, is over by the last boundary, and all of it gets through. */
  ghost predicate SalvoGot(plans: string -> Plan, bucket: string, k: nat) {
    var w, limit := plans(bucket).WindowMs(), plans(bucket).limit;
    var acts := Salvo(bucket, w, limit, k);
    && InOrder(acts) && Clock(acts) <= Max(w - 1, Boundary(k, w))
    && Accepted(plans, acts, bucket, w - 1, Boundary(k, w) + w) == Rounds(k, limit)
  }

  /**
   * The bound is reached for every plan and every k: an orderly run gets (k + 1) * limit requests
   * through between one millisecond before the first boundary and the last one, k window lengths.
   * For k = 1 that is a burst of twice the limit.
   */
  lemma BurstBoundIsReached(plans: string -> Plan, bucket: string, k: nat)
    requires k > 0
    ensures var w := plans(bucket).WindowMs();
            var acts := Salvo(bucket, w, plans(bucket).limit, k);
            && InOrder(acts)
            && Accepted(plans, acts, bucket, w - 1, w - 1 + k * w) == (k + 1) * plans(bucket).limit
  {
    var w := plans(bucket).WindowMs();
    var acts := Salvo(bucket, w, plans(bucket).limit, k);
    SalvoGetsThrough(plans, bucket, k);
    ClosedForms(k, w, plans(bucket).limit);
    var at := Boundary(k, w);
    NothingAccepted(plans, acts, bucket, w - 1 + at, at + w);
    AcceptedSplits(plans, acts, bucket, w - 1, w - 1 + at, at + w);
  }

  lemma {:induction false} SalvoGetsThrough(plans: string -> Plan, bucket: string, k: nat)
    ensures SalvoGot(plans, bucket, k)
  {
    if k == 0 {
      FirstRound(plans, bucket);
    } else {
      SalvoGetsThrough(plans, bucket, k - 1);
      NextRound(plans, bucket, k);
    }
  }

  lemma {:induction false} NothingAccepted(plans: string -> Plan, acts: seq<Act>, bucket: string, from: nat, to: nat)
    requires Clock(acts) < from
    ensures Accepted(plans, acts, bucket, from, to) == 0
  {
    if acts != [] {
      NothingAccepted(plans, acts[..|acts| - 1], bucket, from, to);
    }
  }

  /** While the counter stays within the limit every further request passes. */
  lemma {:induction false} WithinLimitPasses(plans: string -> Plan, acts: seq<Act>, bucket: string, now: nat, n: nat)
    requires var key := Key(bucket, plans(bucket).WindowStart(now));
             key in Exec(plans, acts) && Exec(plans, acts)[key].hits + n <= plans(bucket).limit
    ensures var all, key := acts + Repeat(bucket, now, n), Key(bucket, plans(bucket).WindowStart(now));
            && key in Exec(plans, all) && Exec(plans, all)[key].hits == Exec(plans, acts)[key].hits + n
            && Accepted(plans, all, bucket, plans(bucket).WindowStart(now), plans(bucket).WindowEnd(now))
               == Accepted(plans, acts, bucket, plans(bucket).WindowStart(now), plans(bucket).WindowEnd(now)) + n
  {
    var all := acts + Repeat(bucket, now, n);
    if n == 0 {
      assert all == acts;
    } else {
      WithinLimitPasses(plans, acts, bucket, now, n - 1);
      assert all[..|all| - 1] == acts + Repeat(bucket, now, n - 1);
    }
  }

  lemma RefillPasses(plans: string -> Plan, before: seq<Act>, act: Act)
    requires Refills(plans, before, act) && plans(act.bucket).limit > 0
    ensures var plan := plans(act.bucket);
            var key := Key(act.bucket, plan.WindowStart(act.now));
            && key in Exec(plans, before + [act]) && Exec(plans, before + [act])[key].hits == 1
            && Accepted(plans, before + [act], act.bucket, plan.WindowStart(act.now), plan.WindowEnd(act.now))
               == Accepted(plans, before, act.bucket, plan.WindowStart(act.now), plan.WindowEnd(act.now)) + 1
  {
    assert (before + [act])[..|before|] == before;
  }

  /** After a request that refills a swept window, more of them at the same moment take that window
      past its limit: the condition cannot be weakened. */
  lemma RefillCanOverfill(plans: string -> Plan, before: seq<Act>, act: Act)
    requires NeverRefills(plans, before) && Refills(plans, before, act) && plans(act.bucket).limit > 0
    ensures var plan := plans(act.bucket);
            var acts := before + [act] + Repeat(act.bucket, act.now, plan.limit - 1);
            Accepted(plans, acts, act.bucket, plan.WindowStart(act.now), plan.WindowEnd(act.now)) > plan.limit
  {
    var plan := plans(act.bucket);
    WindowAcceptsUpToLimit(plans, before, act.bucket, plan.WindowStart(act.now));
    RefillPasses(plans, before, act);
    WithinLimitPasses(plans, before + [act], act.bucket, act.now, plan.limit - 1);
  }

  function OnePerSecond(bucket: string): Plan { Plan(1, 1) }

  /** Without the hour's grace a window can be forgotten and filled a second time. */
  lemma LateRequestRefillsWindow()
    ensures var acts := [Check("ip", 500), Sweep(HOUR_MS + 1001), Check("ip", 500)];
            !Timely(acts) && !NeverRefills(OnePerSecond, acts) && Accepted(OnePerSecond, acts, "ip", 0, 1000) == 2
  {
    var key := Key("ip", 0);
    var first, second := [Check("ip", 500)], [Check("ip", 500), Sweep(HOUR_MS + 1001)];
    var acts := [Check("ip", 500), Sweep(HOUR_MS + 1001), Check("ip", 500)];
    assert first[..0] == [] && second[..1] == first && acts[..2] == second;
    assert Exec(OnePerSecond, first) == map[key := Row(1, 1000)];
    assert Exec(OnePerSecond, second) == map[];
    assert Passes(OnePerSecond, [], first[0]) && Passes(OnePerSecond, second, acts[2]);
    assert Accepted(OnePerSecond, first, "ip", 0, 1000) == 1;
    assert Accepted(OnePerSecond, second, "ip", 0, 1000) == 1;
    assert Horizon(first) == 0 && Horizon(second) == HOUR_MS + 1001;
    assert Requests(first, "ip", 0, 1000) == 1 && Requests(second, "ip", 0, 1000) == 1;
    assert Refills(OnePerSecond, second, acts[2]);
  }

  // ---------------------------------------------------------------------------------------------
  // The limiter over its table
  // ---------------------------------------------------------------------------------------------

  class Limiter {
    var rows: Table

    constructor ()
      ensures rows == map[]
    {
      rows := map[];
    }

    /** One request: the counter of its window, and of no other row, goes up by one. */
    method CheckRateLimit(bucket: string, plan: Plan, nowMs: nat) returns (verdict: Verdict)
      modifies this
      ensures rows == Hit(old(rows), plan, bucket, nowMs)
      ensures verdict == Judge(old(rows), plan, bucket, nowMs)
      ensures var key := Key(bucket, plan.WindowStart(nowMs));
        && key in rows && rows == old(rows)[key := rows[key]]
        && (key in old(rows) ==> rows[key] == Row(old(rows)[key].hits + 1, old(rows)[key].windowEnd))
        && (key !in old(rows) ==> rows[key] == Row(1, key.start + plan.windowSeconds * 1000))
        && (verdict.Pass? <==> rows[key].hits <= plan.limit)
        && (verdict.Pass? ==> verdict.remaining == plan.limit - rows[key].hits)
        && verdict.retryAfter == RetryAfter(plan, nowMs)
    {
      var windowMs := plan.windowSeconds * 1000;
      var windowStartMs := AlignDown(nowMs, windowMs);
      var windowEndMs := windowStartMs + windowMs;
      var key := Key(bucket, windowStartMs);
      var hits := 1;
      if key in rows {
        hits := rows[key].hits + 1;
        rows := rows[key := rows[key].(hits := hits)];
      } else {
        rows := rows[key := Row(1, windowEndMs)];
      }
      var retryAfterSec := Max(1, (windowEndMs - nowMs + 999) / 1000);
      if hits > plan.limit {
        return Refuse(retryAfterSec);
      }
      return Pass(Max(0, plan.limit - hits), retryAfterSec);
    }

    /** The cleanup a request at `asOf` started; it may run at any later time, or never. */
    method Sweep(asOf: nat)
      modifies this
      ensures rows == Swept(old(rows), asOf)
      ensures forall key :: key in rows <==> key in old(rows) && old(rows)[key].windowEnd + 3600000 >= asOf
      ensures forall key :: key in rows ==> rows[key] == old(rows)[key]
    {
      rows := map key | key in rows && !(rows[key].windowEnd + HOUR_MS < asOf) :: rows[key];
    }

    /**
     * Two limits at once: both counters go up by one whichever of them refuses, the two never
     * share a row, and the request passes exactly when both allow it.
     */
    method CheckDualRateLimit(root: string, burst: Plan, sustained: Plan, nowMs: nat) returns (verdict: Verdict)
      modifies this
      ensures var burstKey := Key(root + ":burst", burst.WindowStart(nowMs));
              var sustainedKey := Key(root + ":sustained", sustained.WindowStart(nowMs));
              && rows.Keys == old(rows.Keys) + {burstKey, sustainedKey}
              && rows[burstKey].hits == HitsOf(old(rows), burstKey) + 1
              && rows[sustainedKey].hits == HitsOf(old(rows), sustainedKey) + 1
              && (forall key | key in old(rows) && key != burstKey && key != sustainedKey ::
                    rows[key] == old(rows)[key])
              && (verdict.Pass?
                  <==> HitsOf(old(rows), burstKey) < burst.limit && HitsOf(old(rows), sustainedKey) < sustained.limit)
              && (verdict.Pass? ==> verdict == Pass(burst.limit - HitsOf(old(rows), burstKey) - 1, RetryAfter(burst, nowMs)))
              && (HitsOf(old(rows), burstKey) >= burst.limit ==> verdict == Refuse(RetryAfter(burst, nowMs)))
              && (verdict.Refuse? && HitsOf(old(rows), burstKey) < burst.limit
                  ==> verdict == Refuse(RetryAfter(sustained, nowMs)))
    {
      DistinctSuffixes(root);
      var burstVerdict := CheckRateLimit(root + ":burst", burst, nowMs);
      var sustainedVerdict := CheckRateLimit(root + ":sustained", sustained, nowMs);
      if burstVerdict.Refuse? {
        return burstVerdict;
      }
      if sustainedVerdict.Refuse? {
        return sustainedVerdict;
      }
      return burstVerdict;
    }
  }

  function HitsOf(rows: Table, key: Key): (hits: nat)
    ensures key in rows ==> hits == rows[key].hits
    ensures key !in rows ==> hits == 0
  {
    if key in rows then rows[key].hits else 0
  }

  lemma DistinctSuffixes(root: string)
    ensures root + ":burst" != root + ":sustained"
  {
    assert |root + ":burst"| != |root + ":sustained"|;
  }
}
