/** Hot reload of the supervisor's table of agents: packages/arp/src/supervisor.ts.

    `reload` runs to its end without awaiting: starts and stops it begins go on in the
    background, and their later effects on an entry are events of their own. Which agent folders
    cannot be loaded is given with each reload. */
module Supervisor {
  import opened Common

  /** One entry of the table. */
  datatype Entry = Entry(root: string, bridge: Option<nat>, attempts: nat, stopRequested: bool)

  // ------------------------------------------------------------ specification

  /** What `startOne` does at once: a folder that cannot be loaded schedules a retry. */
  function BeginStart(e: Entry, broken: set<string>): Entry {
    if e.stopRequested || e.root !in broken then e else e.(attempts := e.attempts + 1)
  }

  function LiveRoots(t: seq<Entry>): set<string> {
    set i | 0 <= i < |t| && !t[i].stopRequested :: t[i].root
  }

  function StopIfRemoved(e: Entry, keep: set<string>): Entry {
    if e.root in keep then e else e.(stopRequested := true)
  }

  function StopRemoved(t: seq<Entry>, keep: set<string>): (r: seq<Entry>)
    ensures |r| == |t| && forall i :: 0 <= i < |t| ==> r[i] == StopIfRemoved(t[i], keep)
  {
    seq(|t|, i requires 0 <= i < |t| => StopIfRemoved(t[i], keep))
  }

  /** The first stopped entry of this root, or the length. */
  function FindStopped(t: seq<Entry>, root: string): (i: nat)
    ensures i <= |t|
    ensures i < |t| ==> t[i].root == root && t[i].stopRequested
    ensures forall j :: 0 <= j < i ==> !(t[j].root == root && t[j].stopRequested)
  {
    if t == [] || (t[0].root == root && t[0].stopRequested) then 0 else 1 + FindStopped(t[1..], root)
  }

  function AddOne(t: seq<Entry>, current: set<string>, root: string, broken: set<string>): seq<Entry> {
    if root in current then t
    else
      var i := FindStopped(t, root);
      if i < |t| then t[i := BeginStart(t[i].(stopRequested := false, attempts := 0), broken)]
      else t + [BeginStart(Entry(root, None, 0, false), broken)]
  }

  function AddAll(t: seq<Entry>, current: set<string>, next: seq<string>, broken: set<string>): seq<Entry> {
    if next == [] then t
    else AddOne(AddAll(t, current, next[..|next| - 1], broken), current, next[|next| - 1], broken)
  }

  function Reload(t: seq<Entry>, next: seq<string>, broken: set<string>): seq<Entry> {
    AddAll(StopRemoved(t, Elements(next)), LiveRoots(t), next, broken)
  }

  /** There is never more than one entry per root. */
  ghost predicate UniqueRoots(t: seq<Entry>) {
    forall i, j :: 0 <= i < j < |t| ==> t[i].root != t[j].root
  }

  /** Entries keep their place and their root. */
  ghost predicate SamePlaces(t: seq<Entry>, t': seq<Entry>) {
    |t| <= |t'| && forall i :: 0 <= i < |t| ==> t'[i].root == t[i].root
  }

  /** A folder that is being started: it has its bridge, if any, and one attempt if it cannot be loaded. */
  function Starting(root: string, bridge: Option<nat>, broken: set<string>): Entry {
    Entry(root, bridge, if root in broken then 1 else 0, false)
  }

  /** What adding a folder does to the table: nothing if it was live, else its first stopped entry
      starts again with the bridge it had, or a new entry starts at the end without one. */
  lemma AddOneChanges(t: seq<Entry>, current: set<string>, root: string, broken: set<string>)
    ensures var t', i := AddOne(t, current, root, broken), FindStopped(t, root);
      && (root in current ==> t' == t)
      && (root !in current && i < |t| ==> t' == t[i := Starting(root, t[i].bridge, broken)])
      && (root !in current && i == |t| ==> t' == t + [Starting(root, None, broken)])
  {
  }

  /** Between reloads: a bridge that started clears the attempts, a start that failed counts one
      unless the entry was stopped, and a finished stop drops the bridge. */
  lemma QuietEvents(t: seq<Entry>, i: nat, b: nat)
    requires i < |t|
    ensures Step(t, BridgeStarted(i, b)) == t[i := Entry(t[i].root, Some(b), 0, t[i].stopRequested)]
    ensures Step(t, StartFailed(i))
         == t[i := Entry(t[i].root, None, if t[i].stopRequested then t[i].attempts else t[i].attempts + 1, t[i].stopRequested)]
    ensures Step(t, StopFinished(i)) == t[i := Entry(t[i].root, None, t[i].attempts, t[i].stopRequested)]
  {
  }

  lemma AddOneEffect(t: seq<Entry>, current: set<string>, root: string, broken: set<string>)
    ensures var t' := AddOne(t, current, root, broken);
      && SamePlaces(t, t')
      && LiveRoots(t') == (if root in current then LiveRoots(t) else LiveRoots(t) + {root})
      && (forall i :: 0 <= i < |t| && !t[i].stopRequested ==> t'[i] == t[i])
      && (UniqueRoots(t) ==> (UniqueRoots(t') <==> root in current || root !in LiveRoots(t)))
  {
    var t' := AddOne(t, current, root, broken);
    if root !in current {
      var i := FindStopped(t, root);
      if i < |t| {
        forall r | r in LiveRoots(t') ensures r in LiveRoots(t) + {root} {
          var j :| 0 <= j < |t'| && !t'[j].stopRequested && t'[j].root == r;
          assert j == i || t'[j] == t[j];
        }
        assert t'[i].root == root && !t'[i].stopRequested;
        forall r | r in LiveRoots(t) ensures r in LiveRoots(t') {
          var j :| 0 <= j < |t| && !t[j].stopRequested && t[j].root == r;
          assert t'[j] == t[j];
        }
      } else {
        assert t'[|t|].root == root;
        forall r | r in LiveRoots(t) ensures r in LiveRoots(t') {
          var j :| 0 <= j < |t| && !t[j].stopRequested && t[j].root == r;
          assert t'[j] == t[j];
        }
        if UniqueRoots(t) && root in LiveRoots(t) {
          var j :| 0 <= j < |t| && !t[j].stopRequested && t[j].root == root;
          assert t'[j].root == t'[|t|].root;
        }
      }
    }
  }

  lemma {:induction false} AddAllEffect(t: seq<Entry>, current: set<string>, next: seq<string>, broken: set<string>)
    ensures var t' := AddAll(t, current, next, broken);
      && SamePlaces(t, t')
      && LiveRoots(t') == LiveRoots(t) + (Elements(next) - current)
      && (forall i :: 0 <= i < |t| && !t[i].stopRequested ==> t'[i] == t[i])
  {
    if next != [] {
      var front, last := next[..|next| - 1], next[|next| - 1];
      AddAllEffect(t, current, front, broken);
      AddOneEffect(AddAll(t, current, front, broken), current, last, broken);
      assert Elements(next) == Elements(front) + {last};
    }
  }

  /** No root outside `current` is listed twice. */
  ghost predicate NoNewRepeats(current: set<string>, next: seq<string>) {
    forall i, j :: 0 <= i < j < |next| && next[i] == next[j] ==> next[i] in current
  }

  lemma RepeatsSplit(current: set<string>, front: seq<string>, last: string)
    ensures NoNewRepeats(current, front + [last]) <==>
              NoNewRepeats(current, front) && (last in current || last !in front)
  {
    var next := front + [last];
    assert next[|front|] == last;
    assert forall i :: 0 <= i < |front| ==> next[i] == front[i];
  }

  lemma {:induction false} AddAllUnique(t: seq<Entry>, current: set<string>, next: seq<string>, broken: set<string>)
    requires UniqueRoots(t)
    requires (Elements(next) - current) !! LiveRoots(t)
    ensures UniqueRoots(AddAll(t, current, next, broken)) <==> NoNewRepeats(current, next)
  {
    if next != [] {
      var front, last := next[..|next| - 1], next[|next| - 1];
      assert next == front + [last];
      assert Elements(front) <= Elements(next) && last in Elements(next);
      AddAllUnique(t, current, front, broken);
      AddAllEffect(t, current, front, broken);
      AddOneEffect(AddAll(t, current, front, broken), current, last, broken);
      RepeatsSplit(current, front, last);
    }
  }

  /** An entry of no listed root is left alone. */
  lemma {:induction false} UnlistedStays(t: seq<Entry>, current: set<string>, next: seq<string>, broken: set<string>, i: nat)
    requires i < |t| && t[i].root !in next
    ensures i < |AddAll(t, current, next, broken)| && AddAll(t, current, next, broken)[i] == t[i]
  {
    if next != [] {
      UnlistedStays(t, current, next[..|next| - 1], broken, i);
    }
  }

  lemma StopRemovedLive(t: seq<Entry>, keep: set<string>)
    ensures LiveRoots(StopRemoved(t, keep)) == LiveRoots(t) * keep
  {
    var t' := StopRemoved(t, keep);
    forall r | r in LiveRoots(t) * keep ensures r in LiveRoots(t') {
      var i :| 0 <= i < |t| && !t[i].stopRequested && t[i].root == r;
      assert t'[i] == t[i];
    }
  }

  /** After a reload the roots that are not stopped are exactly the configured ones; entries keep
      their place; an agent configured before and after keeps its bridge and its attempt count;
      and there is still one entry per root exactly when the file lists no new root twice. */
  lemma ReloadEffect(t: seq<Entry>, next: seq<string>, broken: set<string>)
    ensures var t' := Reload(t, next, broken);
      && LiveRoots(t') == Elements(next)
      && SamePlaces(t, t')
      && (forall i :: 0 <= i < |t| && !t[i].stopRequested && t[i].root in next ==> t'[i] == t[i])
      && (forall i :: 0 <= i < |t| && t[i].root !in next ==> t'[i] == t[i].(stopRequested := true))
      && (UniqueRoots(t) ==> (UniqueRoots(t') <==> NoNewRepeats(LiveRoots(t), next)))
  {
    var keep := Elements(next);
    var kept := StopRemoved(t, keep);
    StopRemovedLive(t, keep);
    AddAllEffect(kept, LiveRoots(t), next, broken);
    var t' := Reload(t, next, broken);
    forall i | 0 <= i < |t| && t[i].root !in next ensures t'[i] == t[i].(stopRequested := true) {
      UnlistedStays(kept, LiveRoots(t), next, broken, i);
    }
    if UniqueRoots(t) {
      AddAllUnique(kept, LiveRoots(t), next, broken);
    }
  }

  /** A folder that is not live, listed twice, gets two entries. */
  lemma RepeatedFolderMakesTwo()
    ensures Reload([], ["f", "f"], {}) == [Entry("f", None, 0, false), Entry("f", None, 0, false)]
  {
    var t1 := AddOne([], {}, "f", {});
    assert t1 == [Entry("f", None, 0, false)];
    assert FindStopped(t1, "f") == 1;
    assert ["f", "f"][..1] == ["f"] && ["f"][..0] == [];
    assert LiveRoots([]) == {};
    assert AddAll([], {}, ["f"], {}) == t1;
    assert StopRemoved([], Elements(["f", "f"])) == [];
  }

  // -------------------------------------------------------------- histories

  /** Between reloads starts and stops finish, fail or are retried, one entry at a time. */
  datatype Event =
    | ConfigChanged(next: seq<string>, broken: set<string>)
    | BridgeStarted(at: nat, bridge: nat)
    | StartFailed(at: nat)
    | StopFinished(at: nat)

  function Step(t: seq<Entry>, e: Event): seq<Entry> {
    match e
    case ConfigChanged(next, broken) => Reload(t, next, broken)
    case BridgeStarted(i, b) => if i < |t| then t[i := t[i].(bridge := Some(b), attempts := 0)] else t
    case StartFailed(i) =>
      if i < |t| then t[i := t[i].(bridge := None, attempts := if t[i].stopRequested then t[i].attempts else t[i].attempts + 1)] else t
    case StopFinished(i) => if i < |t| then t[i := t[i].(bridge := None)] else t
  }

  function Run(agents: seq<string>, events: seq<Event>): seq<Entry> {
    if events == [] then seq(|agents|, i requires 0 <= i < |agents| => Entry(agents[i], None, 0, false))
    else Step(Run(agents, events[..|events| - 1]), events[|events| - 1])
  }

  /** The agents configured last. */
  function Configured(agents: seq<string>, events: seq<Event>): seq<string> {
    if events == [] then agents
    else if events[|events| - 1].ConfigChanged? then events[|events| - 1].next
    else Configured(agents, events[..|events| - 1])
  }

  lemma QuietStepKeepsRoots(t: seq<Entry>, e: Event)
    requires !e.ConfigChanged?
    ensures |Step(t, e)| == |t|
    ensures forall i :: 0 <= i < |t| ==> Step(t, e)[i].root == t[i].root && Step(t, e)[i].stopRequested == t[i].stopRequested
    ensures LiveRoots(Step(t, e)) == LiveRoots(t)
    ensures UniqueRoots(t) <==> UniqueRoots(Step(t, e))
  {
    var t' := Step(t, e);
    forall r | r in LiveRoots(t) ensures r in LiveRoots(t') {
      var i :| 0 <= i < |t| && !t[i].stopRequested && t[i].root == r;
      assert t'[i].root == r;
    }
    forall r | r in LiveRoots(t') ensures r in LiveRoots(t) {
      var i :| 0 <= i < |t'| && !t'[i].stopRequested && t'[i].root == r;
      assert t[i].root == r;
    }
  }

  /** No config lists a folder twice that the one before it did not list. */
  ghost predicate NeverRepeatsNew(agents: seq<string>, events: seq<Event>) {
    if events == [] then NoNewRepeats({}, agents)
    else
      var front, last := events[..|events| - 1], events[|events| - 1];
      && NeverRepeatsNew(agents, front)
      && (last.ConfigChanged? ==> NoNewRepeats(Elements(Configured(agents, front)), last.next))
  }

  lemma StartingTable(agents: seq<string>)
    ensures |Run(agents, [])| == |agents|
    ensures forall i :: 0 <= i < |agents| ==> Run(agents, [])[i] == Entry(agents[i], None, 0, false)
    ensures LiveRoots(Run(agents, [])) == Elements(agents)
    ensures UniqueRoots(Run(agents, [])) <==> NoNewRepeats({}, agents)
  {
    var t := Run(agents, []);
    forall r | r in Elements(agents) ensures r in LiveRoots(t) {
      var i :| 0 <= i < |agents| && agents[i] == r;
      assert t[i].root == r;
    }
    if UniqueRoots(t) {
      forall i, j | 0 <= i < j < |agents| ensures agents[i] != agents[j] {
        assert t[i].root != t[j].root;
      }
    }
  }

  /** Over every history of configurations, with starts and stops finishing at any time: the roots
      not stopped are the configured ones; and no root has two entries if and only if no config
      ever listed a folder twice that was not configured just before. */
  lemma {:induction false} TableFollowsConfig(agents: seq<string>, events: seq<Event>)
    ensures LiveRoots(Run(agents, events)) == Elements(Configured(agents, events))
    ensures UniqueRoots(Run(agents, events)) <==> NeverRepeatsNew(agents, events)
  {
    if events == [] {
      StartingTable(agents);
    } else {
      var front, last := events[..|events| - 1], events[|events| - 1];
      var before := Run(agents, front);
      TableFollowsConfig(agents, front);
      if last.ConfigChanged? {
        ReloadEffect(before, last.next, last.broken);
        assert SamePlaces(before, Run(agents, events));
        assert UniqueRoots(Run(agents, events)) ==> UniqueRoots(before);
      } else {
        QuietStepKeepsRoots(before, last);
      }
    }
  }

  // ------------------------------------------------- the table in its own form

  class SupervisedAgent {
    const root: string
    var bridge: Option<nat>
    var attempts: nat
    var stopRequested: bool

    constructor (root: string)
      ensures this.root == root && bridge == None && attempts == 0 && !stopRequested
    {
      this.root, bridge, attempts, stopRequested := root, None, 0, false;
    }

    function View(): Entry
      reads this
    {
      Entry(root, bridge, attempts, stopRequested)
    }

    method Start(broken: set<string>)
      modifies this
      ensures View() == BeginStart(old(View()), broken)
      ensures bridge == old(bridge) && stopRequested == old(stopRequested)
      ensures attempts == old(attempts) + if !stopRequested && root in broken then 1 else 0
    {
      if stopRequested { return; }
      if root in broken { attempts := attempts + 1; }
    }
  }

  ghost function ViewAll(supervised: seq<SupervisedAgent>): (t: seq<Entry>)
    reads supervised
    ensures |t| == |supervised| && forall i :: 0 <= i < |t| ==> t[i] == supervised[i].View()
  {
    seq(|supervised|, i requires 0 <= i < |supervised| reads supervised => supervised[i].View())
  }

  class Host {
    var supervised: seq<SupervisedAgent>

    ghost predicate Valid()
      reads this
    {
      Distinct(supervised)
    }

    constructor ()
      ensures Valid() && supervised == []
    {
      supervised := [];
    }

    method StopRemovedAgents(nextRoots: set<string>)
      requires Valid()
      modifies supervised
      ensures ViewAll(supervised) == StopRemoved(old(ViewAll(supervised)), nextRoots)
      ensures forall i :: 0 <= i < |supervised| ==>
        && supervised[i].bridge == old(supervised[i].bridge) && supervised[i].attempts == old(supervised[i].attempts)
        && supervised[i].stopRequested == (old(supervised[i].stopRequested) || supervised[i].root !in nextRoots)
    {
      ghost var before := ViewAll(supervised);
      for i := 0 to |supervised|
        invariant forall j :: 0 <= j < i ==> supervised[j].View() == StopIfRemoved(before[j], nextRoots)
        invariant forall j :: i <= j < |supervised| ==> supervised[j].View() == before[j]
      {
        var s := supervised[i];
        if !s.stopRequested && s.root !in nextRoots {
          s.stopRequested := true;
        }
      }
    }

    method FindStoppedAgent(root: string) returns (i: nat)
      ensures i == FindStopped(ViewAll(supervised), root)
    {
      i := 0;
      while i < |supervised|
        invariant i <= |supervised|
        invariant forall j :: 0 <= j < i ==> !(supervised[j].root == root && supervised[j].stopRequested)
      {
        if supervised[i].root == root && supervised[i].stopRequested {
          FirstStopped(ViewAll(supervised), root, i);
          return;
        }
        i := i + 1;
      }
      FirstStopped(ViewAll(supervised), root, i);
    }

    method ReEnable(i: nat, broken: set<string>)
      requires Valid() && i < |supervised|
      modifies supervised[i]
      ensures ViewAll(supervised) == old(ViewAll(supervised))[i := BeginStart(old(supervised[i].View()).(stopRequested := false, attempts := 0), broken)]
      ensures !supervised[i].stopRequested && supervised[i].bridge == old(supervised[i].bridge)
      ensures supervised[i].attempts == if supervised[i].root in broken then 1 else 0
    {
      var s := supervised[i];
      s.stopRequested := false;
      s.attempts := 0;
      s.Start(broken);
      assert forall j :: 0 <= j < |supervised| && j != i ==> supervised[j] != s;
    }

    method PushNew(root: string, broken: set<string>)
      requires Valid()
      modifies this
      ensures Valid() && |supervised| == |old(supervised)| + 1 && old(supervised) <= supervised
      ensures fresh(supervised[|old(supervised)|])
      ensures var s := supervised[|old(supervised)|];
        s.root == root && s.bridge.None? && !s.stopRequested && s.attempts == if root in broken then 1 else 0
      ensures ViewAll(supervised) == old(ViewAll(supervised)) + [BeginStart(Entry(root, None, 0, false), broken)]
    {
      var s := new SupervisedAgent(root);
      s.Start(broken);
      assert forall j :: 0 <= j < |supervised| ==> supervised[j] != s;
      supervised := supervised + [s];
    }

    method AddAgent(current: set<string>, root: string, broken: set<string>)
      requires Valid()
      modifies this, supervised
      ensures Valid() && old(supervised) <= supervised
      ensures forall j :: |old(supervised)| <= j < |supervised| ==> fresh(supervised[j])
      ensures ViewAll(supervised) == AddOne(old(ViewAll(supervised)), current, root, broken)
    {
      if root in current { return; }
      var i := FindStoppedAgent(root);
      if i < |supervised| {
        ReEnable(i, broken);
      } else {
        PushNew(root, broken);
      }
    }

    method CurrentRoots() returns (current: set<string>)
      requires Valid()
      ensures current == LiveRoots(ViewAll(supervised))
    {
      ghost var before := ViewAll(supervised);
      current := set s | s in supervised && !s.stopRequested :: s.root;
      forall r | r in current ensures r in LiveRoots(before) {
        var s :| s in supervised && !s.stopRequested && s.root == r;
        var i :| 0 <= i < |supervised| && supervised[i] == s;
        assert before[i].root == r;
      }
      forall r | r in LiveRoots(before) ensures r in current {
        var i :| 0 <= i < |before| && !before[i].stopRequested && before[i].root == r;
        assert supervised[i] in supervised;
      }
    }

    /** `reload`: stop what was removed, then add or re-enable what is new. */
    method ReloadConfig(next: seq<string>, broken: set<string>)
      requires Valid()
      modifies this, supervised
      ensures Valid() && old(supervised) <= supervised
      ensures ViewAll(supervised) == Reload(old(ViewAll(supervised)), next, broken)
    {
      var current := CurrentRoots();
      StopRemovedAgents(Elements(next));
      ghost var kept := ViewAll(supervised);
      for i := 0 to |next|
        invariant Valid() && old(supervised) <= supervised
        invariant forall j :: |old(supervised)| <= j < |supervised| ==> fresh(supervised[j])
        invariant ViewAll(supervised) == AddAll(kept, current, next[..i], broken)
      {
        assert next[..i + 1][..i] == next[..i];
        forall j | 0 <= j < |supervised| ensures supervised[j] in old(supervised) || fresh(supervised[j]) {
          assert j < |old(supervised)| ==> supervised[j] == old(supervised)[j];
        }
        AddAgent(current, next[i], broken);
      }
      assert next[..|next|] == next;
    }
  }

  lemma {:induction false} FirstStopped(t: seq<Entry>, root: string, i: nat)
    requires i <= |t|
    requires forall j :: 0 <= j < i ==> !(t[j].root == root && t[j].stopRequested)
    requires i < |t| ==> t[i].root == root && t[i].stopRequested
    ensures FindStopped(t, root) == i
  {
  }
}
