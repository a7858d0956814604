/** The same hash chain kept in Postgres by racing writers: packages/cloud-runtime/src/audit.ts.

    One (agent, connection) pair is modelled. Its rows, which the unique constraint on
    `seq` keeps distinct, are listed in ascending `seq`. Each awaited database call is one
    atomic step, and a schedule is any sequence of such steps by any number of callers. */
module PostgresAudit {
  import opened Common
  import opened AuditChain

  /** Tries `append` makes before it gives up. */
  const MAX_RETRIES := 8

  /** Rows `verify` reads at most. */
  const READ_LIMIT := 100000

  /** `timestamp` columns hold an instant; `iso` prints one, `instant` parses text into one. */
  datatype Env = Env(hash: Fields -> Hash, instant: string -> Option<int>, iso: int -> string)

  ghost predicate IsoPrints(env: Env) {
    forall t :: env.instant(env.iso(t)) == Some(t)
  }

  /** The text is the one its own instant is printed as. */
  predicate Canonical(env: Env, text: string) {
    env.instant(text).Some? && env.iso(env.instant(text).value) == text
  }

  /** A row of `audit_entries`: the entry with its timestamp stored as an instant. */
  datatype Row = Row(fields: Fields, stamp: int, selfHash: Hash)

  function ToRow(env: Env, f: Fields): Row
    requires env.instant(f.timestamp).Some?
  {
    Row(f.(timestamp := []), env.instant(f.timestamp).value, env.hash(f))
  }

  /** `rowToEntry`: the timestamp is printed again from the stored instant. */
  function RowToEntry(env: Env, r: Row): Entry {
    Entry(r.fields.(timestamp := env.iso(r.stamp)), r.selfHash)
  }

  function RowsToLines(env: Env, rows: seq<Row>): (ls: seq<Line>)
    ensures |ls| == |rows| && forall i :: 0 <= i < |rows| ==> ls[i] == Parsed(RowToEntry(env, rows[i]))
  {
    seq(|rows|, i requires 0 <= i < |rows| => Parsed(RowToEntry(env, rows[i])))
  }

  ghost predicate Ascending(rows: seq<Row>) {
    forall i, j :: 0 <= i < j < |rows| ==> rows[i].fields.index < rows[j].fields.index
  }

  predicate Taken(rows: seq<Row>, index: int) {
    exists i :: 0 <= i < |rows| && rows[i].fields.index == index
  }

  /** The row put in its place by `seq`. */
  function Insert(rows: seq<Row>, row: Row): seq<Row> {
    if rows == [] || rows[|rows| - 1].fields.index < row.fields.index then rows + [row]
    else Insert(rows[..|rows| - 1], row) + [rows[|rows| - 1]]
  }

  // ---------------------------------------------------------------- steps

  /** Where one call of `append` stands. `seen` is the number of rows it read. */
  datatype Call =
    | Ready(input: Input, attempt: nat)
    | Holding(input: Input, attempt: nat, base: Fields, seen: nat)
    | Returned(input: Input, entry: Entry)
    | ThrewRace
    | ThrewOther

  datatype Stored = Stored(writer: nat, fields: Fields)

  /** `history` remembers for every row who inserted it and the fields that were hashed;
      `beatenBy` lists for every call the rows its failed tries collided with. */
  datatype State = State(
    rows: seq<Row>,
    calls: map<nat, Call>,
    history: seq<Stored>,
    beatenBy: map<nat, seq<nat>>)

  const EMPTY := State([], map[], [], map[])

  datatype Action =
    | Begin(id: nat, input: Input)
    | Read(id: nat, clock: int)
    | Write(id: nat)
    | DbError(id: nat)   // the statement fails and changes nothing
    | LostReply(id: nat) // the insert runs but its caller sees an error, not the one of the unique constraint

  function BaseFrom(env: Env, rows: seq<Row>, input: Input, clock: int): Fields {
    if rows == [] then BaseEntry(input, env.iso(clock), 0, GENESIS_PREV_HASH)
    else
      var latest := rows[|rows| - 1];
      BaseEntry(input, env.iso(clock), latest.fields.index + 1, latest.selfHash)
  }

  function Commit(env: Env, s: State, id: nat, f: Fields, after: Call): State
    requires env.instant(f.timestamp).Some?
  {
    s.(rows := Insert(s.rows, ToRow(env, f)), history := s.history + [Stored(id, f)], calls := s.calls[id := after])
  }

  /** The unique constraint refuses the row: try again, or give up after the last try. */
  function Collide(s: State, id: nat, input: Input, n: nat, f: Fields): State {
    var beaten := (if id in s.beatenBy then s.beatenBy[id] else []) + [if f.index < 0 then 0 else f.index];
    s.(calls := s.calls[id := if n == MAX_RETRIES - 1 then ThrewRace else Ready(input, n + 1)],
       beatenBy := s.beatenBy[id := beaten])
  }

  /** One step. An action that is not enabled leaves the state as it is. */
  function Next(env: Env, s: State, a: Action): State {
    if a.Begin? then
      if a.id in s.calls then s
      else s.(calls := s.calls[a.id := Ready(a.input, 0)], beatenBy := s.beatenBy[a.id := []])
    else if a.id !in s.calls then s
    else match (s.calls[a.id], a)
      case (Ready(input, n), Read(id, clock)) =>
        s.(calls := s.calls[id := Holding(input, n, BaseFrom(env, s.rows, input, clock), |s.rows|)])
      case (Holding(input, n, f, _), Write(id)) =>
        if env.instant(f.timestamp).None? then s.(calls := s.calls[id := ThrewOther])
        else if !Taken(s.rows, f.index) then Commit(env, s, id, f, Returned(input, Seal(env.hash, f)))
        else Collide(s, id, input, n, f)
      case (Ready(_, _), DbError(id)) => s.(calls := s.calls[id := ThrewOther])
      case (Holding(_, _, _, _), DbError(id)) => s.(calls := s.calls[id := ThrewOther])
      case (Holding(_, _, f, _), LostReply(id)) =>
        if env.instant(f.timestamp).None? || Taken(s.rows, f.index) then s.(calls := s.calls[id := ThrewOther])
        else Commit(env, s, id, f, ThrewOther)
      case _ => s
  }

  /** The state a schedule leads to. */
  function Exec(env: Env, s: State, acts: seq<Action>): State {
    if acts == [] then s
    else Next(env, Exec(env, s, acts[..|acts| - 1]), acts[|acts| - 1])
  }

  // ------------------------------------------------------------ invariant

  function Sealed(env: Env, history: seq<Stored>): (es: seq<Entry>)
    ensures |es| == |history| && forall i :: 0 <= i < |history| ==> es[i] == Seal(env.hash, history[i].fields)
  {
    seq(|history|, i requires 0 <= i < |history| => Seal(env.hash, history[i].fields))
  }

  ghost predicate Mirrors(env: Env, rows: seq<Row>, history: seq<Stored>) {
    && |rows| == |history|
    && forall i :: 0 <= i < |rows| ==>
         env.instant(history[i].fields.timestamp).Some? && rows[i] == ToRow(env, history[i].fields)
  }

  ghost predicate WroteNothing(s: State, id: nat) {
    forall i :: 0 <= i < |s.history| ==> s.history[i].writer != id
  }

  /** Call `id` inserted exactly one row, the one sealed as `e`. */
  ghost predicate WroteExactly(env: Env, s: State, id: nat, e: Entry) {
    exists i ::
      && 0 <= i < |s.history| && s.history[i].writer == id && e == Seal(env.hash, s.history[i].fields)
      && forall j :: 0 <= j < |s.history| && s.history[j].writer == id ==> j == i
  }

  /** Every failed try of `id` collided with a row of somebody else, each with another one. */
  ghost predicate Beaten(s: State, id: nat, tries: nat) {
    && id in s.beatenBy
    && |s.beatenBy[id]| == tries
    && (forall k :: 0 <= k < tries ==> s.beatenBy[id][k] < |s.history| && s.history[s.beatenBy[id][k]].writer != id)
    && (forall k, l :: 0 <= k < l < tries ==> s.beatenBy[id][k] < s.beatenBy[id][l])
  }

  ghost predicate CallOk(env: Env, s: State, id: nat)
    requires id in s.calls
  {
    match s.calls[id]
    case Ready(_, n) => n < MAX_RETRIES && WroteNothing(s, id) && Beaten(s, id, n)
    case Holding(input, n, f, seen) =>
      && n < MAX_RETRIES && WroteNothing(s, id) && Beaten(s, id, n)
      && seen <= |s.history| && f.index == seen
      && f.prevHash == TailHash(Sealed(env, s.history)[..seen])
      && f == BaseEntry(input, f.timestamp, f.index, f.prevHash)
      && (forall k :: 0 <= k < n ==> s.beatenBy[id][k] < seen)
    case Returned(input, e) =>
      WroteExactly(env, s, id, e) && e.fields == BaseEntry(input, e.fields.timestamp, e.fields.index, e.fields.prevHash)
    case ThrewRace => WroteNothing(s, id) && Beaten(s, id, MAX_RETRIES)
    case ThrewOther =>
      forall i, j :: 0 <= i < j < |s.history| ==> !(s.history[i].writer == id == s.history[j].writer)
  }

  ghost predicate Inv(env: Env, s: State) {
    && Mirrors(env, s.rows, s.history)
    && WellFormed(env.hash, Sealed(env, s.history))
    && (forall i :: 0 <= i < |s.history| ==> s.history[i].writer in s.calls)
    && (forall id :: id in s.calls ==> CallOk(env, s, id))
  }

  lemma IndexIsPosition(env: Env, s: State, i: nat)
    requires Mirrors(env, s.rows, s.history) && WellFormed(env.hash, Sealed(env, s.history))
    requires i < |s.rows|
    ensures s.rows[i].fields.index == i
    ensures s.rows[i].selfHash == Sealed(env, s.history)[i].selfHash
  {
    assert Linked(env.hash, Wrap(Sealed(env, s.history)), i);
  }

  /** Under the invariant a `seq` is taken exactly when it is below the row count. */
  lemma TakenIffBelow(env: Env, s: State, index: int)
    requires Mirrors(env, s.rows, s.history) && WellFormed(env.hash, Sealed(env, s.history))
    requires 0 <= index
    ensures Taken(s.rows, index) <==> index < |s.rows|
  {
    forall i | 0 <= i < |s.rows| ensures s.rows[i].fields.index == i { IndexIsPosition(env, s, i); }
    if index < |s.rows| {
      assert s.rows[index].fields.index == index;
    }
  }

  /** What a call has to say for itself survives the steps of the others. */
  lemma OthersUndisturbed(env: Env, s: State, s': State, id: nat)
    requires id in s.calls && CallOk(env, s, id)
    requires id in s'.calls && s'.calls[id] == s.calls[id]
    requires id in s.beatenBy ==> id in s'.beatenBy && s'.beatenBy[id] == s.beatenBy[id]
    requires s.history <= s'.history
    requires forall i :: |s.history| <= i < |s'.history| ==> s'.history[i].writer != id
    ensures CallOk(env, s', id)
  {
    match s.calls[id] {
      case Returned(_, e) =>
        var i :| 0 <= i < |s.history| && s.history[i].writer == id && e == Seal(env.hash, s.history[i].fields);
        assert s'.history[i] == s.history[i];
      case Holding(_, _, _, seen) =>
        assert Sealed(env, s'.history)[..seen] == Sealed(env, s.history)[..seen];
      case _ =>
    }
  }

  lemma CommitAppends(env: Env, s: State, id: nat, after: Call)
    requires Inv(env, s)
    requires id in s.calls && s.calls[id].Holding?
    requires env.instant(s.calls[id].base.timestamp).Some? && !Taken(s.rows, s.calls[id].base.index)
    ensures s.calls[id].base.index == |s.rows|
    ensures Commit(env, s, id, s.calls[id].base, after).rows == s.rows + [ToRow(env, s.calls[id].base)]
  {
    assert CallOk(env, s, id);
    TakenIffBelow(env, s, s.calls[id].base.index);
    if s.rows != [] { IndexIsPosition(env, s, |s.rows| - 1); }
  }

  lemma CommitKeepsChain(env: Env, s: State, id: nat, after: Call)
    requires Inv(env, s)
    requires id in s.calls && s.calls[id].Holding?
    requires env.instant(s.calls[id].base.timestamp).Some? && !Taken(s.rows, s.calls[id].base.index)
    ensures var s' := Commit(env, s, id, s.calls[id].base, after);
      Mirrors(env, s'.rows, s'.history) && WellFormed(env.hash, Sealed(env, s'.history))
  {
    var f := s.calls[id].base;
    CommitAppends(env, s, id, after);
    assert CallOk(env, s, id);
    var es := Sealed(env, s.history);
    assert es[..|es|] == es;
    assert Sealed(env, s.history + [Stored(id, f)]) == es + [Seal(env.hash, f)];
    AppendKeepsChain(env.hash, es, f);
  }

  lemma CommitSettlesCall(env: Env, s: State, id: nat, after: Call)
    requires id in s.calls && s.calls[id].Holding? && CallOk(env, s, id)
    requires env.instant(s.calls[id].base.timestamp).Some?
    requires after == ThrewOther || after == Returned(s.calls[id].input, Seal(env.hash, s.calls[id].base))
    ensures CallOk(env, Commit(env, s, id, s.calls[id].base, after), id)
  {
    var s' := Commit(env, s, id, s.calls[id].base, after);
    assert s'.history[|s.history|] == Stored(id, s.calls[id].base);
    if after.Returned? {
      assert WroteExactly(env, s', id, after.entry);
    }
  }

  lemma CommitKeepsInv(env: Env, s: State, id: nat, after: Call)
    requires Inv(env, s)
    requires id in s.calls && s.calls[id].Holding?
    requires env.instant(s.calls[id].base.timestamp).Some? && !Taken(s.rows, s.calls[id].base.index)
    requires after == ThrewOther || after == Returned(s.calls[id].input, Seal(env.hash, s.calls[id].base))
    ensures Inv(env, Commit(env, s, id, s.calls[id].base, after))
  {
    var s' := Commit(env, s, id, s.calls[id].base, after);
    CommitKeepsChain(env, s, id, after);
    forall other | other in s'.calls ensures CallOk(env, s', other) {
      if other == id {
        CommitSettlesCall(env, s, id, after);
      } else {
        OthersUndisturbed(env, s, s', other);
      }
    }
  }

  /** Reading hands the caller the number and hash of the current tail. */
  lemma ReadIsFresh(env: Env, s: State, input: Input, clock: int)
    requires Inv(env, s)
    ensures BaseFrom(env, s.rows, input, clock)
         == BaseEntry(input, env.iso(clock), |s.rows|, TailHash(Sealed(env, s.history)))
  {
    if s.rows != [] { IndexIsPosition(env, s, |s.rows| - 1); }
  }

  /** A failed try collided with a row that another call inserted after this call's read. */
  lemma LostTryHasRival(env: Env, s: State, id: nat)
    requires Inv(env, s)
    requires id in s.calls && s.calls[id].Holding? && Taken(s.rows, s.calls[id].base.index)
    ensures s.calls[id].seen <= s.calls[id].base.index < |s.history|
    ensures s.history[s.calls[id].base.index].writer != id
  {
    assert CallOk(env, s, id);
    TakenIffBelow(env, s, s.calls[id].base.index);
  }

  predicate Commits(env: Env, s: State, a: Action) {
    && (a.Write? || a.LostReply?)
    && a.id in s.calls && s.calls[a.id].Holding?
    && env.instant(s.calls[a.id].base.timestamp).Some?
    && !Taken(s.rows, s.calls[a.id].base.index)
  }

  lemma ReadKeepsCall(env: Env, s: State, id: nat, clock: int)
    requires Inv(env, s)
    requires id in s.calls && s.calls[id].Ready?
    ensures CallOk(env, Next(env, s, Read(id, clock)), id)
  {
    assert CallOk(env, s, id);
    ReadIsFresh(env, s, s.calls[id].input, clock);
    assert Sealed(env, s.history)[..|s.history|] == Sealed(env, s.history);
  }

  lemma CollideKeepsCall(env: Env, s: State, id: nat)
    requires id in s.calls && s.calls[id].Holding? && CallOk(env, s, id)
    requires s.calls[id].seen <= s.calls[id].base.index < |s.history|
    requires s.history[s.calls[id].base.index].writer != id
    ensures CallOk(env, Collide(s, id, s.calls[id].input, s.calls[id].attempt, s.calls[id].base), id)
  {
    var n, index := s.calls[id].attempt, s.calls[id].base.index;
    var s' := Collide(s, id, s.calls[id].input, n, s.calls[id].base);
    assert s'.beatenBy[id] == s.beatenBy[id] + [index];
    assert Beaten(s', id, n + 1);
  }

  lemma LostTryKeepsCall(env: Env, s: State, id: nat)
    requires Inv(env, s)
    requires id in s.calls && s.calls[id].Holding? && !Commits(env, s, Write(id))
    ensures CallOk(env, Next(env, s, Write(id)), id)
  {
    var c := s.calls[id];
    if env.instant(c.base.timestamp).Some? {
      LostTryHasRival(env, s, id);
      CollideKeepsCall(env, s, id);
      assert Next(env, s, Write(id)) == Collide(s, id, c.input, c.attempt, c.base);
    } else {
      assert CallOk(env, s, id);
    }
  }

  lemma QuietStepKeepsCall(env: Env, s: State, a: Action)
    requires Inv(env, s) && !Commits(env, s, a)
    requires a.id in Next(env, s, a).calls
    ensures CallOk(env, Next(env, s, a), a.id)
  {
    if a.id in s.calls {
      assert CallOk(env, s, a.id);
      if a.Read? && s.calls[a.id].Ready? {
        ReadKeepsCall(env, s, a.id, a.clock);
      } else if a.Write? && s.calls[a.id].Holding? {
        LostTryKeepsCall(env, s, a.id);
      }
    }
  }

  /** Every step keeps the invariant and only appends rows. */
  lemma StepKeepsInv(env: Env, s: State, a: Action)
    requires Inv(env, s)
    ensures Inv(env, Next(env, s, a))
    ensures s.rows <= Next(env, s, a).rows
  {
    if Commits(env, s, a) {
      var c := s.calls[a.id];
      var after := if a.Write? then Returned(c.input, Seal(env.hash, c.base)) else ThrewOther;
      CommitKeepsInv(env, s, a.id, after);
      CommitAppends(env, s, a.id, after);
    } else {
      var s' := Next(env, s, a);
      assert s'.rows == s.rows && s'.history == s.history;
      forall id | id in s'.calls ensures CallOk(env, s', id) {
        if id == a.id {
          QuietStepKeepsCall(env, s, a);
        } else {
          OthersUndisturbed(env, s, s', id);
        }
      }
    }
  }

  /** Under every schedule of any number of appends the rows form one chain `0..n-1`, no row
      is ever changed, a call that returned inserted exactly the entry it returned, and a call
      that gave up on a race inserted nothing. */
  lemma {:induction false} EveryScheduleKeepsChain(env: Env, s: State, acts: seq<Action>)
    requires Inv(env, s)
    ensures Inv(env, Exec(env, s, acts))
    ensures s.rows <= Exec(env, s, acts).rows
  {
    if acts != [] {
      EveryScheduleKeepsChain(env, s, acts[..|acts| - 1]);
      StepKeepsInv(env, Exec(env, s, acts[..|acts| - 1]), acts[|acts| - 1]);
    }
  }

  lemma EmptyIsValid(env: Env)
    ensures Inv(env, EMPTY)
  {
  }

  /** What a caller can conclude from how its `append` ended, whatever the others did. */
  lemma OutcomeTellsWhatWasWritten(env: Env, acts: seq<Action>, id: nat)
    requires id in Exec(env, EMPTY, acts).calls
    ensures var s := Exec(env, EMPTY, acts);
      && WellFormed(env.hash, Sealed(env, s.history)) && Mirrors(env, s.rows, s.history)
      && (s.calls[id].Returned? ==>
            && WroteExactly(env, s, id, s.calls[id].entry)
            && Records(s.calls[id].entry.fields, s.calls[id].input, s.calls[id].entry.fields.timestamp))
      && (s.calls[id].ThrewRace? ==> WroteNothing(s, id))
  {
    EmptyIsValid(env);
    EveryScheduleKeepsChain(env, EMPTY, acts);
    assert CallOk(env, Exec(env, EMPTY, acts), id);
  }

  // ----------------------------------------------------------- starvation

  /** No call ever inserts two rows. */
  lemma OneRowPerCall(env: Env, s: State, i: nat, j: nat)
    requires Inv(env, s)
    requires i < j < |s.history|
    ensures s.history[i].writer != s.history[j].writer
  {
    assert CallOk(env, s, s.history[i].writer);
  }

  lemma WinnersDiffer(env: Env, s: State, id: nat, tries: nat)
    requires Inv(env, s)
    requires Beaten(s, id, tries)
    ensures forall k, l :: 0 <= k < l < tries ==> s.history[s.beatenBy[id][k]].writer != s.history[s.beatenBy[id][l]].writer
  {
    forall k, l | 0 <= k < l < tries
      ensures s.history[s.beatenBy[id][k]].writer != s.history[s.beatenBy[id][l]].writer
    {
      OneRowPerCall(env, s, s.beatenBy[id][k], s.beatenBy[id][l]);
    }
  }

  function Winners(s: State, beaten: seq<nat>): (ws: seq<nat>)
    requires forall k :: 0 <= k < |beaten| ==> beaten[k] < |s.history|
    ensures |ws| == |beaten| && forall k :: 0 <= k < |ws| ==> ws[k] == s.history[beaten[k]].writer
  {
    seq(|beaten|, k requires 0 <= k < |beaten| => s.history[beaten[k]].writer)
  }

  /** A call that has lost `tries` tries was beaten by that many different other calls. */
  lemma EveryLossHasItsOwnWinner(env: Env, s: State, id: nat, tries: nat)
    requires Inv(env, s)
    requires id in s.calls && Beaten(s, id, tries)
    ensures Distinct(Winners(s, s.beatenBy[id]))
    ensures forall k :: 0 <= k < tries ==> Winners(s, s.beatenBy[id])[k] in s.calls.Keys - {id}
    ensures tries < |s.calls|
  {
    var writers := Winners(s, s.beatenBy[id]);
    WinnersDiffer(env, s, id, tries);
    DistinctSetSize(writers);
    var winners := Elements(writers);
    assert winners <= s.calls.Keys - {id};
    SubsetSize(winners, s.calls.Keys - {id});
  }

  predicate UnderWay(s: State, id: nat) {
    id in s.calls && (s.calls[id].Ready? || s.calls[id].Holding?)
  }

  ghost predicate OnlyUnderWay(s: State, ids: set<nat>) {
    forall id :: UnderWay(s, id) ==> id in ids
  }

  function Collisions(s: State, id: nat): seq<nat> {
    if id in s.beatenBy then s.beatenBy[id] else []
  }

  /** Call `id` has read and collided with no row below `from`. */
  ghost predicate SinceRow(s: State, id: nat, from: nat)
    requires id in s.calls
  {
    && (s.calls[id].Holding? ==> from <= s.calls[id].seen)
    && (forall k :: 0 <= k < |Collisions(s, id)| ==> from <= Collisions(s, id)[k])
  }

  /** What has happened since `s`, if `ids` were the only calls under way then or begun later:
      they wrote all later rows, and calls begun later saw and met later rows alone. */
  ghost predicate Since(s: State, s': State, ids: set<nat>) {
    && |s.history| <= |s'.history|
    && s.calls.Keys <= s'.calls.Keys
    && OnlyUnderWay(s', ids)
    && (forall i :: |s.history| <= i < |s'.history| ==> s'.history[i].writer in ids)
    && (forall id :: id in s'.calls.Keys - s.calls.Keys ==> id in ids && SinceRow(s', id, |s.history|))
  }

  /** One step concerns one call, and writes a row only for a call under way. */
  lemma StepTouchesOneCall(env: Env, s: State, a: Action)
    ensures var s' := Next(env, s, a);
      && s'.calls.Keys == (if a.Begin? then s.calls.Keys + {a.id} else s.calls.Keys)
      && (s'.history == s.history || (UnderWay(s, a.id) && exists f :: s'.history == s.history + [Stored(a.id, f)]))
      && (forall id :: id != a.id && id in s.calls ==> s'.calls[id] == s.calls[id])
      && (UnderWay(s', a.id) ==> a.Begin? || UnderWay(s, a.id))
  {
  }

  lemma ReadsTheTail(env: Env, s: State, a: Action, id: nat)
    requires id in Next(env, s, a).calls && Next(env, s, a).calls[id].Holding?
    ensures Next(env, s, a).calls[id].seen == |s.rows| || (id in s.calls && Next(env, s, a).calls[id] == s.calls[id])
  {
  }

  lemma RowsAreHistory(env: Env, s: State)
    requires Inv(env, s)
    ensures |s.rows| == |s.history|
  {
  }

  lemma CollidesWithIndex(env: Env, s: State, a: Action, id: nat)
    requires id in Next(env, s, a).calls
    ensures var beaten := Collisions(Next(env, s, a), id);
      || (id in s.calls && beaten == Collisions(s, id))
      || beaten == []
      || (id in s.calls && s.calls[id].Holding?
          && beaten == Collisions(s, id) + [if s.calls[id].base.index < 0 then 0 else s.calls[id].base.index])
  {
  }

  lemma CollidesWithSeen(env: Env, s: State, a: Action, id: nat)
    requires Inv(env, s) && id in Next(env, s, a).calls
    ensures var beaten := Collisions(Next(env, s, a), id);
      || (id in s.calls && beaten == Collisions(s, id))
      || beaten == []
      || (id in s.calls && s.calls[id].Holding? && beaten == Collisions(s, id) + [s.calls[id].seen])
  {
    hide Next;
    CollidesWithIndex(env, s, a, id);
    if id in s.calls {
      assert CallOk(env, s, id);
    }
  }

  lemma SinceRowStep(env: Env, s: State, a: Action, id: nat, from: nat)
    requires Inv(env, s) && from <= |s.history|
    requires id in Next(env, s, a).calls
    requires id in s.calls ==> SinceRow(s, id, from)
    ensures SinceRow(Next(env, s, a), id, from)
  {
    hide Next, Inv;
    var s' := Next(env, s, a);
    if s'.calls[id].Holding? {
      ReadsTheTail(env, s, a, id);
      RowsAreHistory(env, s);
    }
    CollidesWithSeen(env, s, a, id);
  }

  lemma SinceStep(env: Env, s: State, s1: State, a: Action, ids: set<nat>)
    requires Inv(env, s1) && Since(s, s1, ids)
    requires a.Begin? ==> a.id in ids
    ensures Since(s, Next(env, s1, a), ids)
  {
    hide Next, Inv;
    var s' := Next(env, s1, a);
    StepTouchesOneCall(env, s1, a);
    forall id | id in s'.calls.Keys - s.calls.Keys ensures id in ids && SinceRow(s', id, |s.history|) {
      SinceRowStep(env, s1, a, id, |s.history|);
    }
    forall id | UnderWay(s', id) ensures id in ids {
      assert UnderWay(s1, id) || id == a.id;
    }
  }

  lemma {:induction false} EveryScheduleSince(env: Env, s: State, acts: seq<Action>, ids: set<nat>)
    requires Inv(env, s) && OnlyUnderWay(s, ids)
    requires forall a :: a in acts && a.Begin? ==> a.id in ids
    ensures Since(s, Exec(env, s, acts), ids)
  {
    if acts != [] {
      var front := acts[..|acts| - 1];
      EveryScheduleSince(env, s, front, ids);
      EveryScheduleKeepsChain(env, s, front);
      assert acts[|acts| - 1] in acts;
      SinceStep(env, s, Exec(env, s, front), acts[|acts| - 1], ids);
    }
  }

  /** From any reachable table on: if the calls under way now and those begun later are at most
      eight different ones, then no call begun later runs out of tries. */
  lemma EightWritersNeverExhaust(env: Env, s: State, acts: seq<Action>, ids: set<nat>, id: nat)
    requires Inv(env, s) && OnlyUnderWay(s, ids) && |ids| <= 8
    requires forall a :: a in acts && a.Begin? ==> a.id in ids
    requires id !in s.calls && id in Exec(env, s, acts).calls
    ensures !Exec(env, s, acts).calls[id].ThrewRace?
  {
    var s' := Exec(env, s, acts);
    EveryScheduleKeepsChain(env, s, acts);
    EveryScheduleSince(env, s, acts, ids);
    assert CallOk(env, s', id);
    if s'.calls[id].ThrewRace? {
      RivalsAreAmong(env, s', id, ids, |s.history|);
    }
  }

  /** Eight lost tries need eight rivals. */
  lemma RivalsAreAmong(env: Env, s: State, id: nat, ids: set<nat>, from: nat)
    requires Inv(env, s) && id in s.calls && id in ids
    requires Beaten(s, id, MAX_RETRIES) && SinceRow(s, id, from)
    requires forall i :: from <= i < |s.history| ==> s.history[i].writer in ids
    ensures |ids| > MAX_RETRIES
  {
    var writers := Winners(s, s.beatenBy[id]);
    WinnersDiffer(env, s, id, MAX_RETRIES);
    DistinctSetSize(writers);
    assert Collisions(s, id) == s.beatenBy[id];
    assert forall k :: 0 <= k < |writers| ==> writers[k] in ids - {id};
    SubsetSize(Elements(writers), ids - {id});
  }

  /** Call 0 begins; in each of `rounds` rounds it reads, call k begins and reads, call k inserts
      and call 0 collides. */
  function LosingRounds(input: Input, rounds: nat): seq<Action> {
    if rounds == 0 then [Begin(0, input)]
    else LosingRounds(input, rounds - 1)
         + [Begin(rounds, input)] + [Action.Read(0, 0)] + [Action.Read(rounds, 0)] + [Action.Write(rounds)] + [Action.Write(0)]
  }

  lemma ExecLast(env: Env, s: State, acts: seq<Action>, a: Action)
    ensures Exec(env, s, acts + [a]) == Next(env, Exec(env, s, acts), a)
  {
    assert (acts + [a])[..|acts|] == acts;
  }

  /** None but call 0 and call `rival` is under way. */
  ghost predicate TwoUnderWay(s: State, rival: nat) {
    OnlyUnderWay(s, {0, rival})
  }

  /** At every moment of the run there are two calls under way at most. */
  ghost predicate TwoAtATime(env: Env, acts: seq<Action>) {
    && (acts == [] || TwoAtATime(env, acts[..|acts| - 1]))
    && exists rival: nat :: TwoUnderWay(Exec(env, EMPTY, acts), rival)
  }

  lemma StillTwo(env: Env, acts: seq<Action>, a: Action, rival: nat)
    requires TwoAtATime(env, acts) && TwoUnderWay(Exec(env, EMPTY, acts + [a]), rival)
    ensures TwoAtATime(env, acts + [a])
  {
    assert (acts + [a])[..|acts + [a]| - 1] == acts;
  }

  /** One call changes: those under way afterwards were so before, or are that call. */
  lemma TwoAfterUpdate(s: State, s': State, id: nat, rival: nat, rival': nat)
    requires TwoUnderWay(s, rival)
    requires id in s'.calls && s'.calls == s.calls[id := s'.calls[id]]
    requires id in {0, rival'} || !UnderWay(s', id)
    requires rival in {0, id, rival'}
    ensures TwoUnderWay(s', rival')
  {
    forall other | UnderWay(s', other) ensures other in {0, rival'} {
      assert other == id || UnderWay(s, other);
    }
  }

  lemma BeginStep(env: Env, acts: seq<Action>, id: nat, input: Input)
    requires id !in Exec(env, EMPTY, acts).calls
    ensures Exec(env, EMPTY, acts + [Begin(id, input)]).rows == Exec(env, EMPTY, acts).rows
    ensures Exec(env, EMPTY, acts + [Begin(id, input)]).calls == Exec(env, EMPTY, acts).calls[id := Ready(input, 0)]
  {
    ExecLast(env, EMPTY, acts, Begin(id, input));
  }

  lemma Reachable(env: Env, acts: seq<Action>)
    ensures Inv(env, Exec(env, EMPTY, acts))
  {
    EmptyIsValid(env);
    EveryScheduleKeepsChain(env, EMPTY, acts);
  }

  lemma ReadStep(env: Env, acts: seq<Action>, id: nat, input: Input, n: nat)
    requires id in Exec(env, EMPTY, acts).calls && Exec(env, EMPTY, acts).calls[id] == Ready(input, n)
    ensures var s, s' := Exec(env, EMPTY, acts), Exec(env, EMPTY, acts + [Action.Read(id, 0)]);
      && s'.rows == s.rows && id in s'.calls && s'.calls[id].Holding?
      && s'.calls == s.calls[id := Holding(input, n, s'.calls[id].base, |s.rows|)]
      && (input.timestamp.None? ==> s'.calls[id].base.timestamp == env.iso(0))
  {
    ExecLast(env, EMPTY, acts, Action.Read(id, 0));
  }

  lemma WinStep(env: Env, acts: seq<Action>, id: nat)
    requires IsoPrints(env)
    requires var s := Exec(env, EMPTY, acts);
      id in s.calls && s.calls[id].Holding? && s.calls[id].base.timestamp == env.iso(0) && s.calls[id].seen == |s.rows|
    ensures var s, s' := Exec(env, EMPTY, acts), Exec(env, EMPTY, acts + [Action.Write(id)]);
      |s'.rows| == |s.rows| + 1 && id in s'.calls && s'.calls == s.calls[id := s'.calls[id]] && s'.calls[id].Returned?
  {
    var s := Exec(env, EMPTY, acts);
    Reachable(env, acts);
    ExecLast(env, EMPTY, acts, Action.Write(id));
    assert CallOk(env, s, id);
    assert env.instant(env.iso(0)) == Some(0);
    TakenIffBelow(env, s, |s.rows|);
    CommitAppends(env, s, id, Returned(s.calls[id].input, Seal(env.hash, s.calls[id].base)));
  }

  lemma SeenIsTaken(env: Env, s: State, id: nat)
    requires Inv(env, s)
    requires id in s.calls && s.calls[id].Holding? && s.calls[id].seen < |s.rows|
    ensures s.calls[id].base.index == s.calls[id].seen && Taken(s.rows, s.calls[id].seen)
  {
    assert CallOk(env, s, id);
    TakenIffBelow(env, s, s.calls[id].seen);
  }

  lemma LoseStep(env: Env, acts: seq<Action>, id: nat)
    requires IsoPrints(env)
    requires var s := Exec(env, EMPTY, acts);
      id in s.calls && s.calls[id].Holding? && s.calls[id].base.timestamp == env.iso(0) && s.calls[id].seen < |s.rows|
    ensures var s, s' := Exec(env, EMPTY, acts), Exec(env, EMPTY, acts + [Action.Write(id)]);
      && s'.rows == s.rows
      && s'.calls == s.calls[id := if s.calls[id].attempt == MAX_RETRIES - 1 then ThrewRace
                                   else Ready(s.calls[id].input, s.calls[id].attempt + 1)]
  {
    hide Inv, Exec;
    Reachable(env, acts);
    ExecLast(env, EMPTY, acts, Action.Write(id));
    SeenIsTaken(env, Exec(env, EMPTY, acts), id);
    assert env.instant(env.iso(0)) == Some(0);
  }

  /** `rounds` rivals have each inserted a row and call 0 has collided with all of them. */
  ghost predicate AfterRounds(env: Env, acts: seq<Action>, input: Input, rounds: nat) {
    var s := Exec(env, EMPTY, acts);
    && |s.rows| == rounds && |s.calls| == rounds + 1 && (forall id :: id in s.calls ==> id <= rounds)
    && 0 in s.calls && s.calls[0] == (if rounds == MAX_RETRIES then ThrewRace else Ready(input, rounds))
    && TwoUnderWay(s, 0) && TwoAtATime(env, acts)
  }

  predicate HoldsTail(env: Env, s: State, id: nat, input: Input, seen: nat) {
    && id in s.calls && s.calls[id].Holding? && s.calls[id].input == input
    && s.calls[id].seen == seen && s.calls[id].base.timestamp == env.iso(0)
  }

  /** Call 0 and call `rounds` have both read the same tail and not yet written. */
  ghost predicate BothHold(env: Env, acts: seq<Action>, input: Input, rounds: nat) {
    var s := Exec(env, EMPTY, acts);
    && rounds > 0 && |s.rows| == rounds - 1 && |s.calls| == rounds + 1 && (forall id :: id in s.calls ==> id <= rounds)
    && HoldsTail(env, s, 0, input, rounds - 1) && HoldsTail(env, s, rounds, input, rounds - 1)
    && s.calls[0].attempt == rounds - 1
    && TwoUnderWay(s, rounds) && TwoAtATime(env, acts)
  }

  lemma ReadsOfRound(env: Env, acts: seq<Action>, input: Input, rounds: nat)
    requires input.timestamp.None?
    requires 0 < rounds <= MAX_RETRIES && AfterRounds(env, acts, input, rounds - 1)
    ensures BothHold(env, acts + [Begin(rounds, input)] + [Action.Read(0, 0)] + [Action.Read(rounds, 0)], input, rounds)
  {
    var begun := acts + [Begin(rounds, input)];
    BeginStep(env, acts, rounds, input);
    TwoAfterUpdate(Exec(env, EMPTY, acts), Exec(env, EMPTY, begun), rounds, 0, rounds);
    StillTwo(env, acts, Begin(rounds, input), rounds);
    ReadStep(env, begun, 0, input, rounds - 1);
    StillTwo(env, begun, Action.Read(0, 0), rounds);
    ReadStep(env, begun + [Action.Read(0, 0)], rounds, input, 0);
    StillTwo(env, begun + [Action.Read(0, 0)], Action.Read(rounds, 0), rounds);
  }

  lemma WritesOfRound(env: Env, acts: seq<Action>, input: Input, rounds: nat)
    requires IsoPrints(env)
    requires rounds <= MAX_RETRIES && BothHold(env, acts, input, rounds)
    ensures AfterRounds(env, acts + [Action.Write(rounds)] + [Action.Write(0)], input, rounds)
  {
    WinStep(env, acts, rounds);
    TwoAfterUpdate(Exec(env, EMPTY, acts), Exec(env, EMPTY, acts + [Action.Write(rounds)]), rounds, rounds, 0);
    StillTwo(env, acts, Action.Write(rounds), 0);
    LoseStep(env, acts + [Action.Write(rounds)], 0);
    StillTwo(env, acts + [Action.Write(rounds)], Action.Write(0), 0);
  }

  lemma {:induction false} LosingRoundsState(env: Env, input: Input, rounds: nat)
    requires IsoPrints(env) && input.timestamp.None?
    requires rounds <= MAX_RETRIES
    ensures AfterRounds(env, LosingRounds(input, rounds), input, rounds)
  {
    if rounds == 0 {
      BeginStep(env, [], 0, input);
      assert [] + [Begin(0, input)] == [Begin(0, input)];
      assert TwoUnderWay(EMPTY, 0) && TwoAtATime(env, []);
      StillTwo(env, [], Begin(0, input), 0);
    } else {
      LosingRoundsState(env, input, rounds - 1);
      var acts := LosingRounds(input, rounds - 1);
      ReadsOfRound(env, acts, input, rounds);
      WritesOfRound(env, acts + [Begin(rounds, input)] + [Action.Read(0, 0)] + [Action.Read(rounds, 0)], input, rounds);
    }
  }

  /** Eight is the exact bound: nine callers have a schedule in which one gives up, although no
      more than two of them are ever under way. */
  lemma NineWritersCanExhaust(env: Env, input: Input) returns (acts: seq<Action>)
    requires IsoPrints(env) && input.timestamp.None?
    ensures |Exec(env, EMPTY, acts).calls| == 9 && TwoAtATime(env, acts)
    ensures 0 in Exec(env, EMPTY, acts).calls && Exec(env, EMPTY, acts).calls[0] == ThrewRace
  {
    acts := LosingRounds(input, MAX_RETRIES);
    LosingRoundsState(env, input, MAX_RETRIES);
  }

  // -------------------------------------------------------- the retry loop

  /** What goes wrong with one try, besides losing the race. */
  datatype Fault = NoFault | ReadFails | InsertFails | ReplyLost

  ghost predicate FaultFree(faults: nat -> Fault, n: nat) {
    n == 0 || (faults(n - 1) == NoFault && FaultFree(faults, n - 1))
  }

  /** How the try ends. */
  function LastStep(id: nat, fault: Fault): Action {
    if fault.NoFault? then Action.Write(id) else if fault.ReplyLost? then LostReply(id) else DbError(id)
  }

  /** The steps of one try while `others` run between its read and its insert. */
  function OneTry(id: nat, clock: int, others: seq<Action>, fault: Fault): seq<Action> {
    if fault.ReadFails? then [LastStep(id, fault)] else [Action.Read(id, clock)] + others + [LastStep(id, fault)]
  }

  lemma TrySteps(before: seq<Action>, id: nat, clock: int, others: seq<Action>, fault: Fault)
    ensures fault.ReadFails? ==> before + [DbError(id)] == before + OneTry(id, clock, others, fault)
    ensures !fault.ReadFails? ==>
              before + [Action.Read(id, clock)] + others + [LastStep(id, fault)] == before + OneTry(id, clock, others, fault)
  {
  }

  /** The steps of each try, when `others(k)` runs between the k-th read and the k-th insert and
      `faults(k)` befalls the k-th try. */
  function Tries(id: nat, clock: nat -> int, others: nat -> seq<Action>, faults: nat -> Fault): nat -> seq<Action> {
    (k: nat) => OneTry(id, clock(k), others(k), faults(k))
  }

  /** The schedule `before`, the beginning of a call, then its first n tries. */
  function RetrySchedule(before: seq<Action>, id: nat, input: Input, tries: nat -> seq<Action>, n: nat): seq<Action> {
    if n == 0 then before + [Begin(id, input)] else RetrySchedule(before, id, input, tries, n - 1) + tries(n - 1)
  }

  lemma {:induction false} ExecConcat(env: Env, s: State, a: seq<Action>, b: seq<Action>)
    ensures Exec(env, s, a + b) == Exec(env, Exec(env, s, a), b)
  {
    if b == [] {
      assert a + b == a;
    } else {
      var front := b[..|b| - 1];
      assert (a + b)[..|a + b| - 1] == a + front;
      ExecConcat(env, s, a, front);
    }
  }

  /** No step of this call. */
  predicate NotOf(acts: seq<Action>, id: nat) {
    forall i :: 0 <= i < |acts| ==> acts[i].id != id
  }

  ghost predicate Strangers(others: nat -> seq<Action>, id: nat) {
    forall k: nat :: NotOf(others(k), id)
  }

  lemma {:induction false} OthersLeaveCall(env: Env, s: State, id: nat, acts: seq<Action>)
    requires id in s.calls
    requires NotOf(acts, id)
    ensures id in Exec(env, s, acts).calls && Exec(env, s, acts).calls[id] == s.calls[id]
  {
    if acts != [] {
      OthersLeaveCall(env, s, id, acts[..|acts| - 1]);
    }
  }

  /** The table, and the schedule that led to it. */
  class AuditService {
    const env: Env
    var db: State
    ghost var schedule: seq<Action>

    ghost predicate Valid()
      reads this
    {
      db == Exec(env, EMPTY, schedule)
    }

    constructor (env: Env)
      ensures this.env == env && schedule == [] && Valid()
    {
      this.env, db, schedule := env, EMPTY, [];
    }

    /** Read the tail. */
    method ReadTail(id: nat, input: Input, attempt: nat, clock: int) returns (base: Fields)
      requires Valid() && id in db.calls && db.calls[id] == Ready(input, attempt)
      modifies this
      ensures Valid() && schedule == old(schedule) + [Action.Read(id, clock)]
      ensures id in db.calls && db.calls[id] == Holding(input, attempt, base, |db.rows|)
      ensures Records(base, input, env.iso(clock))
    {
      base := BaseFrom(env, db.rows, input, clock);
      ExecLast(env, EMPTY, schedule, Action.Read(id, clock));
      db := db.(calls := db.calls[id := Holding(input, attempt, base, |db.rows|)]);
      schedule := schedule + [Action.Read(id, clock)];
    }

    /** Whatever other callers do in between. */
    method LetOthersRun(id: nat, others: seq<Action>)
      requires Valid() && id in db.calls
      requires NotOf(others, id)
      modifies this
      ensures Valid() && schedule == old(schedule) + others
      ensures id in db.calls && db.calls[id] == old(db.calls[id])
    {
      OthersLeaveCall(env, db, id, others);
      ExecConcat(env, EMPTY, schedule, others);
      db := Exec(env, db, others);
      schedule := schedule + others;
    }

    /** Try to insert; no outcome means that the loop goes round again. */
    method TryInsert(id: nat, input: Input, attempt: nat, base: Fields, fault: Fault) returns (outcome: Option<Call>)
      requires Valid() && id in db.calls && db.calls[id].Holding? && fault != ReadFails
      requires db.calls[id].input == input && db.calls[id].attempt == attempt && db.calls[id].base == base
      modifies this
      ensures Valid() && schedule == old(schedule) + [LastStep(id, fault)]
      ensures id in db.calls
      ensures outcome.None? ==> attempt != MAX_RETRIES - 1 && db.calls[id] == Ready(input, attempt + 1)
      ensures outcome.Some? ==> db.calls[id] == outcome.value
      ensures outcome.Some? ==> outcome.value == Returned(input, Seal(env.hash, base)) || outcome.value == ThrewOther
                                || (outcome.value == ThrewRace && attempt == MAX_RETRIES - 1)
      ensures fault != NoFault ==> outcome == Some(ThrewOther)
      ensures env.instant(base.timestamp).None? ==> outcome == Some(ThrewOther) && db.rows == old(db).rows
      ensures outcome.Some? && outcome.value.Returned? ==>
                outcome.value.entry.fields == base && outcome.value.entry.selfHash == env.hash(base)
    {
      if fault.InsertFails? {
        FailStatement(id);
        return Some(ThrewOther);
      }
      if fault.ReplyLost? {
        ExecLast(env, EMPTY, schedule, LostReply(id));
        schedule := schedule + [LostReply(id)];
        if env.instant(base.timestamp).None? || Taken(db.rows, base.index) {
          db := db.(calls := db.calls[id := ThrewOther]);
        } else {
          db := Commit(env, db, id, base, ThrewOther);
        }
        return Some(ThrewOther);
      }
      ExecLast(env, EMPTY, schedule, Action.Write(id));
      schedule := schedule + [Action.Write(id)];
      if env.instant(base.timestamp).None? {
        db := db.(calls := db.calls[id := ThrewOther]);
        return Some(ThrewOther);
      } else if !Taken(db.rows, base.index) {
        var entry := Entry(base, env.hash(base));
        db := Commit(env, db, id, base, Returned(input, entry));
        return Some(Returned(input, entry));
      } else {
        db := Collide(db, id, input, attempt, base);
        return if attempt == MAX_RETRIES - 1 then Some(ThrewRace) else None;
      }
    }

    /** A statement of this call fails and changes nothing: the call throws. */
    method FailStatement(id: nat)
      requires Valid() && id in db.calls && (db.calls[id].Ready? || db.calls[id].Holding?)
      modifies this
      ensures Valid() && schedule == old(schedule) + [DbError(id)]
      ensures db == old(db).(calls := old(db).calls[id := ThrewOther])
    {
      ExecLast(env, EMPTY, schedule, DbError(id));
      schedule := schedule + [DbError(id)];
      db := db.(calls := db.calls[id := ThrewOther]);
    }

    /** The entry says what the caller asked to record, at this time, and is hashed as it is. */
    ghost predicate Recorded(e: Entry, input: Input, clock: string) {
      Records(e.fields, input, clock) && e.selfHash == env.hash(e.fields)
    }

    /** One pass through the loop: read the tail, let the others run, try to insert. */
    method TryOnce(id: nat, input: Input, attempt: nat, clock: int, others: seq<Action>, fault: Fault) returns (outcome: Option<Call>)
      requires Valid() && id in db.calls && db.calls[id] == Ready(input, attempt)
      requires NotOf(others, id)
      modifies this
      ensures Valid() && id in db.calls
      ensures schedule == old(schedule) + OneTry(id, clock, others, fault)
      ensures outcome.None? ==> attempt != MAX_RETRIES - 1 && db.calls[id] == Ready(input, attempt + 1)
      ensures outcome.Some? ==> db.calls[id] == outcome.value
      ensures outcome.Some? ==> outcome.value.Returned? || outcome.value == ThrewOther
                                || (outcome.value == ThrewRace && attempt == MAX_RETRIES - 1)
      ensures fault != NoFault ==> outcome == Some(ThrewOther)
      ensures outcome.Some? && outcome.value.Returned? ==> Recorded(outcome.value.entry, input, env.iso(clock))
    {
      TrySteps(schedule, id, clock, others, fault);
      if fault.ReadFails? {
        FailStatement(id);
        return Some(ThrewOther);
      }
      var base := ReadTail(id, input, attempt, clock);
      LetOthersRun(id, others);
      outcome := TryInsert(id, input, attempt, base, fault);
    }

    method Start(id: nat, input: Input)
      requires Valid() && id !in db.calls
      modifies this
      ensures Valid() && schedule == old(schedule) + [Begin(id, input)]
      ensures id in db.calls && db.calls[id] == Ready(input, 0)
    {
      ExecLast(env, EMPTY, schedule, Begin(id, input));
      db := db.(calls := db.calls[id := Ready(input, 0)], beatenBy := db.beatenBy[id := []]);
      schedule := schedule + [Begin(id, input)];
    }

    /** The call is about to make try number `n`, counted from 0, after `n` lost races. */
    ghost predicate AtTry(before: seq<Action>, id: nat, input: Input, tries: nat -> seq<Action>, n: nat)
      reads this
    {
      Valid() && schedule == RetrySchedule(before, id, input, tries, n) && id in db.calls && db.calls[id] == Ready(input, n)
    }

    /** The call has ended with try number `n` and this outcome. */
    ghost predicate EndedAt(before: seq<Action>, id: nat, input: Input, tries: nat -> seq<Action>, n: nat, outcome: Call)
      reads this
    {
      && Valid() && schedule == RetrySchedule(before, id, input, tries, n + 1) && id in db.calls && db.calls[id] == outcome
      && (outcome.Returned? || outcome.ThrewOther? || (outcome.ThrewRace? && n == MAX_RETRIES - 1))
    }

    method TryNext(id: nat, input: Input, clock: nat -> int, others: nat -> seq<Action>, faults: nat -> Fault,
                   attempt: nat, ghost before: seq<Action>) returns (outcome: Option<Call>)
      requires AtTry(before, id, input, Tries(id, clock, others, faults), attempt) && Strangers(others, id)
      modifies this
      ensures outcome.None? ==> attempt != MAX_RETRIES - 1 && faults(attempt) == NoFault
                                && AtTry(before, id, input, Tries(id, clock, others, faults), attempt + 1)
      ensures outcome.Some? ==> EndedAt(before, id, input, Tries(id, clock, others, faults), attempt, outcome.value)
      ensures faults(attempt) != NoFault ==> outcome == Some(ThrewOther)
      ensures outcome.Some? && outcome.value.Returned? ==> Recorded(outcome.value.entry, input, env.iso(clock(attempt)))
    {
      outcome := TryOnce(id, input, attempt, clock(attempt), others(attempt), faults(attempt));
    }

    /** The retry loop of `append`. `others(k)` is whatever other callers do between the k-th
        read and the k-th insert, and `faults(k)` what goes wrong with the k-th try itself. The
        table is the one the step machine reaches on the schedule that interleaves this call's
        statements with theirs, and so is the outcome. Only a lost race is tried again. */
    method Append(id: nat, input: Input, clock: nat -> int, others: nat -> seq<Action>, faults: nat -> Fault)
        returns (outcome: Call, ghost last: nat)
      requires Valid() && id !in db.calls
      requires Strangers(others, id)
      modifies this
      ensures last < MAX_RETRIES && FaultFree(faults, last)
      ensures EndedAt(old(schedule), id, input, Tries(id, clock, others, faults), last, outcome)
      ensures faults(last) != NoFault ==> outcome == ThrewOther
      ensures outcome.Returned? ==> Recorded(outcome.entry, input, env.iso(clock(last)))
    {
      Start(id, input);
      outcome, last := Retry(id, input, clock, others, faults, old(schedule));
    }

    method Retry(id: nat, input: Input, clock: nat -> int, others: nat -> seq<Action>, faults: nat -> Fault, ghost before: seq<Action>)
        returns (outcome: Call, ghost last: nat)
      requires AtTry(before, id, input, Tries(id, clock, others, faults), 0)
      requires Strangers(others, id)
      modifies this
      ensures last < MAX_RETRIES && FaultFree(faults, last)
      ensures EndedAt(before, id, input, Tries(id, clock, others, faults), last, outcome)
      ensures faults(last) != NoFault ==> outcome == ThrewOther
      ensures outcome.Returned? ==> Recorded(outcome.entry, input, env.iso(clock(last)))
    {
      hide Exec, RetrySchedule, AtTry, EndedAt, Valid;
      ghost var tries := Tries(id, clock, others, faults);
      var attempt := 0;
      while true
        invariant 0 <= attempt < MAX_RETRIES && FaultFree(faults, attempt)
        invariant AtTry(before, id, input, tries, attempt)
        decreases MAX_RETRIES - attempt
      {
        var result := TryNext(id, input, clock, others, faults, attempt, before);
        if result.Some? {
          return result.value, attempt;
        }
        attempt := attempt + 1;
      }
    }
  }

  // ------------------------------------------------------------ verifying

  function Reverse(rows: seq<Row>): (r: seq<Row>)
    ensures |r| == |rows|
  {
    if rows == [] then [] else [rows[|rows| - 1]] + Reverse(rows[..|rows| - 1])
  }

  /** `listAudit`: newest first, at most `limit` rows. */
  function ListAudit(rows: seq<Row>, limit: nat): seq<Row> {
    Reverse(rows)[..Min(limit, |rows|)]
  }

  /** `rows.sort((a, b) => a.seq - b.seq)` */
  function SortBySeq(rows: seq<Row>): seq<Row> {
    if rows == [] then [] else Insert(SortBySeq(rows[1..]), rows[0])
  }

  lemma ReverseFront(rows: seq<Row>, k: nat)
    requires 0 < k <= |rows|
    ensures var taken := Reverse(rows)[..k];
      taken[0] == rows[|rows| - 1] && taken[1..] == Reverse(rows[..|rows| - 1])[..k - 1]
  {
    TakeAfterFirst(rows[|rows| - 1], Reverse(rows[..|rows| - 1]), k);
  }

  lemma TakeAfterFirst(row: Row, rest: seq<Row>, k: nat)
    requires 0 < k <= |rest| + 1
    ensures ([row] + rest)[..k][0] == row && ([row] + rest)[..k][1..] == rest[..k - 1]
  {
  }

  lemma NewestWithLast(rows: seq<Row>, k: nat)
    requires Ascending(rows)
    requires 0 < k <= |rows|
    ensures var older := rows[..|rows| - 1][|rows| - k..];
      rows[|rows| - k..] == older + [rows[|rows| - 1]] == Insert(older, rows[|rows| - 1])
  {
    assert rows == rows[..|rows| - 1] + [rows[|rows| - 1]];
  }

  /** Reading newest first and sorting gives the newest rows in order. */
  lemma {:induction false} NewestInOrder(rows: seq<Row>, k: nat)
    requires Ascending(rows)
    requires k <= |rows|
    ensures SortBySeq(Reverse(rows)[..k]) == rows[|rows| - k..]
  {
    if k > 0 {
      NewestInOrder(rows[..|rows| - 1], k - 1);
      ReverseFront(rows, k);
      NewestWithLast(rows, k);
    }
  }

  method VerifyRows(env: Env, rows: seq<Row>) returns (r: VerifyResult)
    ensures RightAnswer(env.hash, RowsToLines(env, rows), r)
  {
    ghost var ls := RowsToLines(env, rows);
    var expectedPrev := GENESIS_PREV_HASH;
    for i := 0 to |rows|
      invariant Chained(env.hash, ls, i)
      invariant expectedPrev == ExpectedPrev(ls, i)
    {
      var entry := RowToEntry(env, rows[i]);
      assert ls[i] == Parsed(entry);
      if entry.fields.index != i {
        return Broken(i, BadSeq);
      }
      if entry.fields.prevHash != expectedPrev {
        return Broken(i, BadPrevHash);
      }
      if env.hash(entry.fields) != entry.selfHash {
        return Broken(i, BadSelfHash);
      }
      expectedPrev := entry.selfHash;
    }
    return Intact(|rows|);
  }

  /** `verify` gives the answer of the file verifier on the newest `READ_LIMIT` rows. */
  method Verify(env: Env, table: seq<Row>) returns (r: VerifyResult)
    requires Ascending(table)
    ensures RightAnswer(env.hash, RowsToLines(env, table[|table| - Min(100000, |table|)..]), r)
  {
    NewestInOrder(table, Min(READ_LIMIT, |table|));
    var rows := SortBySeq(ListAudit(table, READ_LIMIT));
    r := VerifyRows(env, rows);
  }

  lemma RowsAscend(env: Env, s: State)
    requires Inv(env, s)
    ensures Ascending(s.rows)
  {
    forall i, j | 0 <= i < j < |s.rows| ensures s.rows[i].fields.index < s.rows[j].fields.index {
      IndexIsPosition(env, s, i);
      IndexIsPosition(env, s, j);
    }
  }

  /** Row `i` of a reachable table checks exactly when its timestamp survives being stored. */
  lemma RowChecksIffCanonical(env: Env, s: State, i: nat)
    requires Injective(env.hash) && Inv(env, s)
    requires i < |s.rows|
    ensures Linked(env.hash, RowsToLines(env, s.rows), i) <==> Canonical(env, s.history[i].fields.timestamp)
  {
    var f := s.history[i].fields;
    var e := RowToEntry(env, s.rows[i]);
    assert Linked(env.hash, Wrap(Sealed(env, s.history)), i);
    assert e.fields == f <==> Canonical(env, f.timestamp);
    if i > 0 {
      assert Linked(env.hash, Wrap(Sealed(env, s.history)), i - 1);
      assert RowsToLines(env, s.rows)[i - 1].entry.selfHash == Sealed(env, s.history)[i - 1].selfHash;
    }
  }

  /** Only the self-hash of a reachable row can fail to check. */
  lemma RowIsLinked(env: Env, s: State, i: nat)
    requires Inv(env, s)
    requires i < |s.rows|
    ensures var ls := RowsToLines(env, s.rows);
      ls[i].Parsed? && ls[i].entry.fields.index == i && ls[i].entry.fields.prevHash == ExpectedPrev(ls, i)
  {
    assert Linked(env.hash, Wrap(Sealed(env, s.history)), i);
    if i > 0 {
      assert Linked(env.hash, Wrap(Sealed(env, s.history)), i - 1);
      assert RowsToLines(env, s.rows)[i - 1].entry.selfHash == Sealed(env, s.history)[i - 1].selfHash;
    }
  }

  ghost predicate CanonicalBefore(env: Env, s: State, n: nat)
    requires n <= |s.history|
  {
    forall i :: 0 <= i < n ==> Canonical(env, s.history[i].fields.timestamp)
  }

  /** Up to the read limit, `verify` accepts the table of any run exactly when every timestamp
      was given in canonical form, and otherwise points at the first one that was not. */
  lemma VerifyAcceptsIffCanonical(env: Env, s: State, r: VerifyResult)
    requires Injective(env.hash) && Inv(env, s)
    requires RightAnswer(env.hash, RowsToLines(env, s.rows), r)
    ensures r == Intact(|s.rows|) <==> CanonicalBefore(env, s, |s.rows|)
    ensures r != Intact(|s.rows|) ==>
      && r.Broken? && r.why == BadSelfHash && r.firstBreakAt < |s.rows|
      && CanonicalBefore(env, s, r.firstBreakAt)
      && !Canonical(env, s.history[r.firstBreakAt].fields.timestamp)
  {
    var ls := RowsToLines(env, s.rows);
    forall i | 0 <= i < |s.rows|
      ensures Linked(env.hash, ls, i) <==> Canonical(env, s.history[i].fields.timestamp)
    {
      RowChecksIffCanonical(env, s, i);
    }
    if r.Broken? {
      RowIsLinked(env, s, r.firstBreakAt);
    }
  }

  /** Beyond the read limit it reports a break at 0 whatever the rows are: the newest rows come
      first, so the oldest are never fetched. */
  lemma VerifyRejectsLongChains(env: Env, s: State, r: VerifyResult)
    requires Inv(env, s)
    requires |s.rows| > 100000
    requires RightAnswer(env.hash, RowsToLines(env, s.rows[|s.rows| - 100000..]), r)
    ensures r == Broken(0, BadSeq)
  {
    var newest := s.rows[|s.rows| - READ_LIMIT..];
    IndexIsPosition(env, s, |s.rows| - READ_LIMIT);
    assert newest[0].fields.index == |s.rows| - READ_LIMIT;
    var ls := RowsToLines(env, newest);
    assert !Linked(env.hash, ls, 0);
    RightAnswerUnique(env.hash, ls, r, Broken(0, BadSeq));
  }

  // ------------------------------------------- reachable tables it rejects

  function StampOf(env: Env, input: Input): string {
    if input.timestamp.Some? then input.timestamp.value else env.iso(0)
  }

  lemma BeginAndRead(env: Env, acts: seq<Action>, id: nat, input: Input)
    requires id !in Exec(env, EMPTY, acts).calls
    ensures var s, s' := Exec(env, EMPTY, acts), Exec(env, EMPTY, acts + [Begin(id, input)] + [Action.Read(id, 0)]);
      && s'.rows == s.rows && s'.history == s.history && s'.calls.Keys == s.calls.Keys + {id}
      && s'.calls[id].Holding? && s'.calls[id].base.timestamp == StampOf(env, input) && s'.calls[id].input == input
      && s'.calls[id].seen == |s.rows|
  {
    ExecLast(env, EMPTY, acts, Begin(id, input));
    ExecLast(env, EMPTY, acts + [Begin(id, input)], Action.Read(id, 0));
  }

  lemma WriteAlone(env: Env, acts: seq<Action>, id: nat)
    requires var s := Exec(env, EMPTY, acts);
      && id in s.calls && s.calls[id].Holding? && s.calls[id].seen == |s.rows|
      && env.instant(s.calls[id].base.timestamp).Some?
    ensures var s, s' := Exec(env, EMPTY, acts), Exec(env, EMPTY, acts + [Action.Write(id)]);
      |s'.rows| == |s.rows| + 1 && s'.history == s.history + [Stored(id, s.calls[id].base)] && s'.calls.Keys == s.calls.Keys
  {
    var s := Exec(env, EMPTY, acts);
    Reachable(env, acts);
    ExecLast(env, EMPTY, acts, Action.Write(id));
    assert CallOk(env, s, id);
    TakenIffBelow(env, s, |s.rows|);
    CommitAppends(env, s, id, Returned(s.calls[id].input, Seal(env.hash, s.calls[id].base)));
  }

  /** A call that runs with nobody else adds its row. */
  lemma OneMoreRow(env: Env, acts: seq<Action>, id: nat, input: Input) returns (acts': seq<Action>)
    requires id !in Exec(env, EMPTY, acts).calls && env.instant(StampOf(env, input)).Some?
    ensures var s, s' := Exec(env, EMPTY, acts), Exec(env, EMPTY, acts');
      && |s'.rows| == |s.rows| + 1 && s'.calls.Keys == s.calls.Keys + {id}
      && |s'.history| == |s.history| + 1 && s'.history[|s.history|].fields.timestamp == StampOf(env, input)
  {
    BeginAndRead(env, acts, id, input);
    WriteAlone(env, acts + [Begin(id, input)] + [Action.Read(id, 0)], id);
    acts' := acts + [Begin(id, input)] + [Action.Read(id, 0)] + [Action.Write(id)];
  }

  lemma {:induction false} SerialRows(env: Env, input: Input, n: nat) returns (acts: seq<Action>)
    requires env.instant(StampOf(env, input)).Some?
    ensures |Exec(env, EMPTY, acts).rows| == n
    ensures forall id: nat :: n <= id ==> id !in Exec(env, EMPTY, acts).calls
  {
    if n == 0 {
      acts := [];
    } else {
      acts := SerialRows(env, input, n - 1);
      acts := OneMoreRow(env, acts, n - 1, input);
    }
  }

  /** A run of 100001 appends, one after the other, whose chain `verify` calls broken at 0. */
  lemma LongChainIsRejected(env: Env, input: Input, r: VerifyResult) returns (acts: seq<Action>)
    requires env.instant(StampOf(env, input)).Some?
    ensures var rows := Exec(env, EMPTY, acts).rows;
      |rows| == 100001
      && (RightAnswer(env.hash, RowsToLines(env, rows[|rows| - 100000..]), r) ==> r == Broken(0, BadSeq))
  {
    acts := SerialRows(env, input, READ_LIMIT + 1);
    Reachable(env, acts);
    var s := Exec(env, EMPTY, acts);
    if RightAnswer(env.hash, RowsToLines(env, s.rows[|s.rows| - READ_LIMIT..]), r) {
      VerifyRejectsLongChains(env, s, r);
    }
  }

  /** One append with a timestamp in another spelling than the printed one: the chain is sound as
      hashed, and `verify` calls it broken at 0. */
  lemma OtherSpellingIsRejected(env: Env, input: Input, r: VerifyResult) returns (acts: seq<Action>)
    requires Injective(env.hash)
    requires env.instant(StampOf(env, input)).Some? && !Canonical(env, StampOf(env, input))
    ensures var s := Exec(env, EMPTY, acts);
      && |s.rows| == 1 && WellFormed(env.hash, Sealed(env, s.history))
      && (RightAnswer(env.hash, RowsToLines(env, s.rows), r) ==> r == Broken(0, BadSelfHash))
  {
    acts := OneMoreRow(env, [], 0, input);
    Reachable(env, acts);
    var s := Exec(env, EMPTY, acts);
    assert Exec(env, EMPTY, []) == EMPTY;
    if RightAnswer(env.hash, RowsToLines(env, s.rows), r) {
      VerifyAcceptsIffCanonical(env, s, r);
      assert !CanonicalBefore(env, s, 1);
    }
  }

  /** An environment with one instant and two spellings of it, of which the first is printed. */
  function SpellingEnv(hash: Fields -> Hash): Env {
    Env(hash, text => if text == "0Z" || text == "0+00:00" then Some(0) else None, t => "0Z")
  }

  lemma TwoSpellingsOfOneInstant(hash: Fields -> Hash)
    ensures var env := SpellingEnv(hash); Canonical(env, "0Z") && env.instant("0+00:00").Some? && !Canonical(env, "0+00:00")
  {
    assert |"0Z"| != |"0+00:00"|;
  }
}
