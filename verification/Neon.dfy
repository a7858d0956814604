/**
 * Retrying a database request whose connection was never made: packages/cloud-db/src/neon.ts.
 *
 * An error is a node of a finite graph that may be shared and cyclic. A number outside the graph
 * stands for any value that is not an object. `every` and `||` stop early, and one `seen` set is
 * carried through the whole walk; both decide what the walk answers on shared nodes.
 */
module Neon {
  import opened Common

  datatype Node = Node(code: Option<string>, errors: Option<seq<nat>>, cause: nat)
  type Graph = map<nat, Node>

  const CONNECT_FAILURE_CODES: set<string> :=
    {"ETIMEDOUT", "ECONNREFUSED", "ENOTFOUND", "EAI_AGAIN", "EHOSTUNREACH", "ENETUNREACH", "UND_ERR_CONNECT_TIMEOUT"}

  /** Timed out, refused, not found, name service busy, host or network unreachable, or the client's
      own connect timeout. */
  ghost predicate MeansUnsent(code: string) {
    || code == "ETIMEDOUT" || code == "ECONNREFUSED" || code == "ENOTFOUND" || code == "EAI_AGAIN"
    || code == "EHOSTUNREACH" || code == "ENETUNREACH" || code == "UND_ERR_CONNECT_TIMEOUT"
  }

  predicate HasConnectCode(node: Node) {
    node.code.Some? && node.code.value in CONNECT_FAILURE_CODES
  }

  function Parts(node: Node): seq<nat> {
    if node.errors.Some? then node.errors.value else []
  }

  // ---------------------------------------------------------------------------------------------
  // The walk
  // ---------------------------------------------------------------------------------------------

  lemma FewerLeft(g: Graph, seen: set<nat>, more: set<nat>, v: nat)
    requires v in g && v !in seen && seen + {v} <= more
    ensures |g.Keys - more| < |g.Keys - seen|
  {
    SubsetSize(g.Keys - more, g.Keys - seen - {v});
    assert |g.Keys - seen - {v}| == |g.Keys - seen| - 1;
  }

  /** The answer and the seen set after walking one value. */
  function Walk(g: Graph, v: nat, seen: set<nat>): (r: (bool, set<nat>))
    ensures seen <= r.1
    decreases |g.Keys - seen|, 0
  {
    if v !in g || v in seen then (false, seen)
    else
      var node, seen1 := g[v], seen + {v};
      FewerLeft(g, seen, seen1, v);
      if HasConnectCode(node) then (true, seen1)
      else
        var parts := if Parts(node) == [] then (false, seen1) else WalkEvery(g, Parts(node), seen1);
        FewerLeft(g, seen, parts.1, v);
        if parts.0 then parts else Walk(g, node.cause, parts.1)
  }

  function WalkEvery(g: Graph, vs: seq<nat>, seen: set<nat>): (r: (bool, set<nat>))
    ensures seen <= r.1
    decreases |g.Keys - seen|, 1 + |vs|
  {
    if vs == [] then (true, seen)
    else
      var first := Walk(g, vs[0], seen);
      SubsetSize(g.Keys - first.1, g.Keys - seen);
      if first.0 then WalkEvery(g, vs[1..], first.1) else first
  }

  // ---------------------------------------------------------------------------------------------
  // What the answer should mean
  // ---------------------------------------------------------------------------------------------

  /** A connect code, or a non-empty list of parts that all hold, or a cause that holds, n deep. */
  predicate Holds(g: Graph, v: nat, n: nat)
    decreases n, 0
  {
    && n > 0
    && v in g
    && (|| HasConnectCode(g[v])
        || (Parts(g[v]) != [] && AllHold(g, Parts(g[v]), n - 1))
        || Holds(g, g[v].cause, n - 1))
  }

  predicate AllHold(g: Graph, vs: seq<nat>, n: nat)
    decreases n, 1
  {
    forall i :: 0 <= i < |vs| ==> Holds(g, vs[i], n)
  }

  /** The least meaning of the and/or tree: no connection was ever made. */
  ghost predicate NeverConnected(g: Graph, v: nat) {
    exists n: nat :: Holds(g, v, n)
  }

  lemma {:induction false} HoldsDeeper(g: Graph, v: nat, n: nat, m: nat)
    requires Holds(g, v, n) && n <= m
    ensures Holds(g, v, m)
    decreases n
  {
    if HasConnectCode(g[v]) {
    } else if Parts(g[v]) != [] && AllHold(g, Parts(g[v]), n - 1) {
      var parts := Parts(g[v]);
      forall i | 0 <= i < |parts| ensures Holds(g, parts[i], m - 1) {
        HoldsDeeper(g, parts[i], n - 1, m - 1);
      }
    } else {
      HoldsDeeper(g, g[v].cause, n - 1, m - 1);
    }
  }

  // ---------------------------------------------------------------------------------------------
  // Soundness on every graph
  // ---------------------------------------------------------------------------------------------

  lemma {:induction false} WalkSound(g: Graph, v: nat, seen: set<nat>)
    requires Walk(g, v, seen).0
    ensures Holds(g, v, |g.Keys - seen|)
    decreases |g.Keys - seen|, 0
  {
    var node, seen1, n := g[v], seen + {v}, |g.Keys - seen|;
    FewerLeft(g, seen, seen1, v);
    if !HasConnectCode(node) {
      var parts := if Parts(node) == [] then (false, seen1) else WalkEvery(g, Parts(node), seen1);
      FewerLeft(g, seen, parts.1, v);
      if parts.0 {
        WalkEverySound(g, Parts(node), seen1, n - 1);
      } else {
        WalkSound(g, node.cause, parts.1);
        HoldsDeeper(g, node.cause, |g.Keys - parts.1|, n - 1);
      }
    }
  }

  lemma {:induction false} WalkEverySound(g: Graph, vs: seq<nat>, seen: set<nat>, n: nat)
    requires WalkEvery(g, vs, seen).0 && |g.Keys - seen| <= n
    ensures AllHold(g, vs, n)
    decreases |g.Keys - seen|, 1 + |vs|
  {
    if vs != [] {
      var first := Walk(g, vs[0], seen);
      SubsetSize(g.Keys - first.1, g.Keys - seen);
      WalkSound(g, vs[0], seen);
      HoldsDeeper(g, vs[0], |g.Keys - seen|, n);
      WalkEverySound(g, vs[1..], first.1, n);
      assert forall i :: 0 < i < |vs| ==> vs[i] == vs[1..][i - 1];
    }
  }

  // ---------------------------------------------------------------------------------------------
  // Completeness where no node that holds is shared
  // ---------------------------------------------------------------------------------------------

  /** How often each node is met by following every route from v that repeats no node and ends at
      the first connect code. */
  function Routes(g: Graph, v: nat, path: set<nat>): (r: multiset<nat>)
    ensures v in g && v !in path ==> v in r
    decreases |g.Keys - path|, 0
  {
    if v !in g || v in path then multiset{}
    else
      FewerLeft(g, path, path + {v}, v);
      if HasConnectCode(g[v]) then multiset{v}
      else multiset{v} + RoutesOfAll(g, Parts(g[v]), path + {v}) + Routes(g, g[v].cause, path + {v})
  }

  function RoutesOfAll(g: Graph, vs: seq<nat>, path: set<nat>): multiset<nat>
    decreases |g.Keys - path|, 1 + |vs|
  {
    if vs == [] then multiset{}
    else Routes(g, vs[0], path) + RoutesOfAll(g, vs[1..], path)
  }

  /** At most one such route leads to each node that holds. Links back up a route and sharing
      among the nodes that do not hold are allowed. */
  ghost predicate Unshared(g: Graph, routes: multiset<nat>) {
    forall x: nat :: NeverConnected(g, x) ==> routes[x] <= 1
  }

  ghost predicate Avoids(g: Graph, routes: multiset<nat>, seen: set<nat>) {
    forall x: nat :: NeverConnected(g, x) && x in routes ==> x !in seen
  }

  lemma {:induction false} HoldsInMore(g: Graph, path: set<nat>, v: nat, n: nat)
    requires Holds(g - path, v, n)
    ensures Holds(g, v, n)
    decreases n
  {
    var parts := Parts(g[v]);
    if HasConnectCode(g[v]) {
    } else if parts != [] && AllHold(g - path, parts, n - 1) {
      forall i | 0 <= i < |parts| ensures Holds(g, parts[i], n - 1) {
        HoldsInMore(g, path, parts[i], n - 1);
      }
    } else {
      HoldsInMore(g, path, g[v].cause, n - 1);
    }
  }

  /** The walk sees nothing off the routes. */
  lemma {:induction false} WalkStaysOnRoutes(g: Graph, v: nat, path: set<nat>, seen: set<nat>)
    requires path <= seen
    ensures forall x :: x in Walk(g, v, seen).1 ==> x in seen || x in Routes(g, v, path)
    decreases |g.Keys - seen|, 0
  {
    if v in g && v !in seen {
      var node, path1, seen1 := g[v], path + {v}, seen + {v};
      FewerLeft(g, seen, seen1, v);
      if !HasConnectCode(node) {
        var parts := if Parts(node) == [] then (false, seen1) else WalkEvery(g, Parts(node), seen1);
        FewerLeft(g, seen, parts.1, v);
        WalkEveryStaysOnRoutes(g, Parts(node), path1, seen1);
        WalkStaysOnRoutes(g, node.cause, path1, parts.1);
      }
    }
  }

  lemma {:induction false} WalkEveryStaysOnRoutes(g: Graph, vs: seq<nat>, path: set<nat>, seen: set<nat>)
    requires path <= seen
    ensures forall x :: x in WalkEvery(g, vs, seen).1 ==> x in seen || x in RoutesOfAll(g, vs, path)
    decreases |g.Keys - seen|, 1 + |vs|
  {
    if vs != [] {
      var first := Walk(g, vs[0], seen);
      SubsetSize(g.Keys - first.1, g.Keys - seen);
      WalkStaysOnRoutes(g, vs[0], path, seen);
      WalkEveryStaysOnRoutes(g, vs[1..], path, first.1);
    }
  }

  /** A value that holds before `cut` does, holds without it. */
  lemma {:induction false} HoldsWithout(g: Graph, v: nat, n: nat, cut: nat)
    requires Holds(g, v, n) && !Holds(g, cut, n)
    ensures Holds(g - {cut}, v, n)
    decreases n
  {
    if Holds(g, cut, n - 1) {
      HoldsDeeper(g, cut, n - 1, n);
    } else if HasConnectCode(g[v]) {
    } else if Parts(g[v]) != [] && AllHold(g, Parts(g[v]), n - 1) {
      var parts := Parts(g[v]);
      forall i | 0 <= i < |parts| ensures Holds(g - {cut}, parts[i], n - 1) {
        HoldsWithout(g, parts[i], n - 1, cut);
      }
    } else {
      HoldsWithout(g, g[v].cause, n - 1, cut);
    }
  }

  lemma {:induction false} WalkComplete(g: Graph, v: nat, path: set<nat>, seen: set<nat>, n: nat)
    requires path <= seen
    requires Unshared(g, Routes(g, v, path)) && Avoids(g, Routes(g, v, path), seen)
    requires Holds(g - path, v, n)
    ensures Walk(g, v, seen).0
    decreases n, 0
  {
    var rest, node, path1, seen1 := g - path, g[v], path + {v}, seen + {v};
    HoldsInMore(g, path, v, n);
    assert NeverConnected(g, v);
    if Holds(rest, v, n - 1) {
      WalkComplete(g, v, path, seen, n - 1);
    } else if !HasConnectCode(node) {
      assert rest - {v} == g - path1;
      var ofParts, ofCause := RoutesOfAll(g, Parts(node), path1), Routes(g, node.cause, path1);
      assert Routes(g, v, path) == multiset{v} + ofParts + ofCause;
      SplitRoutes(g, v, ofParts, ofCause, seen);
      var parts := if Parts(node) == [] then (false, seen1) else WalkEvery(g, Parts(node), seen1);
      if Parts(node) != [] && AllHold(rest, Parts(node), n - 1) {
        forall i | 0 <= i < |Parts(node)| ensures Holds(g - path1, Parts(node)[i], n - 1) {
          HoldsWithout(rest, Parts(node)[i], n - 1, v);
        }
        WalkEveryComplete(g, Parts(node), path1, seen1, n - 1);
      } else if !parts.0 {
        HoldsWithout(rest, node.cause, n - 1, v);
        WalkEveryStaysOnRoutes(g, Parts(node), path1, seen1);
        WalkComplete(g, node.cause, path1, parts.1, n - 1);
      }
    }
  }

  /** Routes that share nothing that holds can be walked one after the other. */
  lemma SplitRoutes(g: Graph, v: nat, a: multiset<nat>, b: multiset<nat>, seen: set<nat>)
    requires Unshared(g, multiset{v} + a + b) && Avoids(g, multiset{v} + a + b, seen)
    ensures Unshared(g, a) && Unshared(g, b)
    ensures Avoids(g, a, seen + {v}) && Avoids(g, b, seen + {v})
    ensures forall x: nat :: NeverConnected(g, x) && x in b ==> x !in a
  {
    forall x: nat | NeverConnected(g, x) ensures a[x] + b[x] + (if x == v then 1 else 0) <= 1 {
      assert (multiset{v} + a + b)[x] <= 1;
    }
    forall x: nat | NeverConnected(g, x) && (x in a || x in b) ensures x !in seen {
      assert x in multiset{v} + a + b;
    }
  }

  lemma {:induction false} WalkEveryComplete(g: Graph, vs: seq<nat>, path: set<nat>, seen: set<nat>, n: nat)
    requires path <= seen
    requires Unshared(g, RoutesOfAll(g, vs, path)) && Avoids(g, RoutesOfAll(g, vs, path), seen)
    requires AllHold(g - path, vs, n)
    ensures WalkEvery(g, vs, seen).0
    decreases n, 1 + |vs|
  {
    if vs != [] {
      var ofFirst, ofRest := Routes(g, vs[0], path), RoutesOfAll(g, vs[1..], path);
      assert RoutesOfAll(g, vs, path) == ofFirst + ofRest;
      SplitTwo(g, ofFirst, ofRest, seen);
      WalkComplete(g, vs[0], path, seen, n);
      WalkStaysOnRoutes(g, vs[0], path, seen);
      assert forall i :: 0 <= i < |vs[1..]| ==> vs[1..][i] == vs[i + 1];
      WalkEveryComplete(g, vs[1..], path, Walk(g, vs[0], seen).1, n);
    }
  }

  lemma SplitTwo(g: Graph, a: multiset<nat>, b: multiset<nat>, seen: set<nat>)
    requires Unshared(g, a + b) && Avoids(g, a + b, seen)
    ensures Unshared(g, a) && Unshared(g, b) && Avoids(g, a, seen) && Avoids(g, b, seen)
    ensures forall x: nat :: NeverConnected(g, x) && x in b ==> x !in a
  {
    forall x: nat | NeverConnected(g, x) ensures a[x] + b[x] <= 1 {
      assert (a + b)[x] <= 1;
    }
    forall x: nat | NeverConnected(g, x) && (x in a || x in b) ensures x !in seen {
      assert x in a + b;
    }
  }

  /** `isConnectFailure` never calls a made connection unmade, and is exact on unshared errors. */
  lemma ConnectFailureMeaning(g: Graph, err: nat)
    ensures Walk(g, err, {}).0 ==> NeverConnected(g, err)
    ensures Unshared(g, Routes(g, err, {})) ==> (Walk(g, err, {}).0 <==> NeverConnected(g, err))
  {
    if Walk(g, err, {}).0 {
      WalkSound(g, err, {});
    }
    if NeverConnected(g, err) && Unshared(g, Routes(g, err, {})) {
      var n: nat :| Holds(g, err, n);
      assert g - {} == g;
      WalkComplete(g, err, {}, {}, n);
    }
  }

  /** A plain error, without parts and without a cause, counts as unsent by its code alone; an error
      after the request went out, such as a reset, does not. */
  lemma PlainErrorIff(g: Graph, err: nat)
    requires err in g && g[err].errors.None? && g[err].cause !in g
    ensures Walk(g, err, {}).0 <==> g[err].code.Some? && MeansUnsent(g[err].code.value)
  {
    assert {} + {err} == {err};
  }

  /** The same timeout listed twice: every part failed to connect, yet the answer is no. */
  lemma SharedPartIsMissed()
    ensures var g := map[0 := Node(None, Some([1, 1]), 9), 1 := Node(Some("ETIMEDOUT"), None, 9)];
            NeverConnected(g, 0) && !Walk(g, 0, {}).0
  {
    var g := map[0 := Node(None, Some([1, 1]), 9), 1 := Node(Some("ETIMEDOUT"), None, 9)];
    assert "ETIMEDOUT" in CONNECT_FAILURE_CODES && HasConnectCode(g[1]);
    assert Holds(g, 1, 1);
    assert {0} + {1} == {0, 1};
    assert Holds(g, 0, 2);
    assert Walk(g, 1, {0}) == (true, {0, 1});
    assert Walk(g, 1, {0, 1}) == (false, {0, 1});
    assert [1, 1][1..] == [1];
    assert WalkEvery(g, [1], {0, 1}) == (false, {0, 1});
    assert WalkEvery(g, [1, 1], {0}) == (false, {0, 1});
    assert {} + {0} == {0} && !HasConnectCode(g[0]);
    assert Walk(g, 9, {0, 1}) == (false, {0, 1});
  }

  // ---------------------------------------------------------------------------------------------
  // The walk in place
  // ---------------------------------------------------------------------------------------------

  class ErrorWalk {
    const g: Graph
    var seen: set<nat>

    constructor (g: Graph)
      ensures this.g == g && seen == {}
    {
      this.g := g;
      seen := {};
    }

    method WalkError(v: nat) returns (found: bool)
      modifies this
      ensures (found, seen) == Walk(g, v, old(seen))
      decreases |g.Keys - seen|
    {
      if v !in g || v in seen {
        return false;
      }
      ghost var before := seen;
      seen := seen + {v};
      var node := g[v];
      if node.code.Some? && node.code.value in CONNECT_FAILURE_CODES {
        return true;
      }
      if node.errors.Some? && |node.errors.value| > 0 {
        var parts := node.errors.value;
        var i, all := 0, true;
        while i < |parts| && all
          invariant 0 <= i <= |parts|
          invariant before + {v} <= seen
          invariant WalkEvery(g, parts, before + {v})
                    == if all then WalkEvery(g, parts[i..], seen) else (false, seen)
        {
          FewerLeft(g, before, seen, v);
          all := WalkError(parts[i]);
          i := i + 1;
        }
        if all {
          return true;
        }
      }
      FewerLeft(g, before, seen, v);
      found := WalkError(node.cause);
    }
  }

  method IsConnectFailure(g: Graph, err: nat) returns (found: bool)
    ensures found == Walk(g, err, {}).0
    ensures found ==> NeverConnected(g, err)
    ensures Unshared(g, Routes(g, err, {})) ==> (found <==> NeverConnected(g, err))
  {
    ConnectFailureMeaning(g, err);
    var walk := new ErrorWalk(g);
    found := walk.WalkError(err);
  }

  // ---------------------------------------------------------------------------------------------
  // Bounded retry
  // ---------------------------------------------------------------------------------------------

  /** What the wrapped fetch does on one call. */
  datatype Outcome =
    | Response(id: nat)
    | Threw(graph: Graph, err: nat)

  predicate Retryable(outcome: Outcome) {
    outcome.Threw? && Walk(outcome.graph, outcome.err, {}).0
  }

  function Power3(n: nat): nat {
    if n == 0 then 1 else 3 * Power3(n - 1)
  }

  function Sum(s: seq<nat>): nat {
    if s == [] then 0 else Sum(s[..|s| - 1]) + s[|s| - 1]
  }

  /** The k-th sleep is base * 3^k. */
  function Pause(base: nat, k: nat): nat {
    base * Power3(k)
  }

  ghost predicate Pauses(sleeps: seq<nat>, base: nat) {
    forall k :: 0 <= k < |sleeps| ==> sleeps[k] == Pause(base, k)
  }

  /** Twice the total of the first n sleeps. */
  function TwiceTotal(base: nat, n: nat): nat {
    Power3Grows(0, n);
    base * (Power3(n) - 1)
  }

  lemma OneMorePause(base: nat, n: nat)
    ensures TwiceTotal(base, n + 1) == TwiceTotal(base, n) + 2 * Pause(base, n)
  {
    assert base * (3 * Power3(n) - 1) == base * (Power3(n) - 1) + 2 * (base * Power3(n));
  }

  lemma {:induction false} TotalSleep(sleeps: seq<nat>, base: nat)
    requires Pauses(sleeps, base)
    ensures 2 * Sum(sleeps) == TwiceTotal(base, |sleeps|)
  {
    if sleeps != [] {
      var n := |sleeps| - 1;
      TotalSleep(sleeps[..n], base);
      OneMorePause(base, n);
    }
  }

  lemma {:induction false} Power3Grows(m: nat, n: nat)
    requires m <= n
    ensures 1 <= Power3(m) <= Power3(n)
    decreases n
  {
    if n > 0 {
      Power3Grows(if m < n then m else m - 1, n - 1);
    }
  }

  /** The call failed, can be retried, and never had a connection to send anything on. */
  ghost predicate NotSent(outcome: Outcome) {
    Retryable(outcome) && NeverConnected(outcome.graph, outcome.err)
  }

  /**
   * The calls made are the first ones whose failures can be retried, up to `attempts`, and one
   * more: the last call's outcome is the result. Every call before it never connected, so the
   * request is sent at most once.
   */
  method RetryingFetch(fetch: nat -> Outcome, attempts: int, base: nat)
      returns (outcome: Outcome, calls: nat, sleeps: seq<nat>)
    ensures 1 <= calls <= Max(1, attempts)
    ensures outcome == fetch(calls)
    ensures forall i: nat :: 1 <= i < calls ==> NotSent(fetch(i))
    ensures Retryable(outcome) ==> calls == Max(1, attempts)
    ensures |sleeps| == calls - 1 && Pauses(sleeps, base)
    ensures 2 * Sum(sleeps) == TwiceTotal(base, calls - 1) <= TwiceTotal(base, Max(1, attempts) - 1)
  {
    sleeps := [];
    var attempt := 1;
    while true
      invariant 1 <= attempt <= Max(1, attempts)
      invariant forall i: nat :: 1 <= i < attempt ==> NotSent(fetch(i))
      invariant |sleeps| == attempt - 1 && Pauses(sleeps, base)
      decreases attempts - attempt
    {
      outcome, calls := fetch(attempt), attempt;
      var retry := false;
      if outcome.Threw? && attempt < attempts {
        retry := IsConnectFailure(outcome.graph, outcome.err);
      }
      if !retry {
        TotalSleep(sleeps, base);
        SleepBound(base, calls - 1, Max(1, attempts) - 1);
        return;
      }
      sleeps := sleeps + [Pause(base, attempt - 1)];
      attempt := attempt + 1;
    }
  }

  lemma SleepBound(base: nat, m: nat, n: nat)
    requires m <= n
    ensures TwiceTotal(base, m) <= TwiceTotal(base, n)
  {
    Power3Grows(m, n);
  }
}
