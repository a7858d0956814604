/** The single-writer hash-chained audit log: packages/audit/src/log.ts.

    SHA-256 over the canonical JSON form (RFC 8785, section 3.2) is a function
    `hash` of the nine hashed fields; JSON printing and parsing are functions
    `show` and `parse`. Theorems that need it assume the hash injective and
    the printer a one-line inverse of the parser. */
module AuditChain {
  import opened Common

  type Hash = string

  /** `sha256:` followed by 32 zero bytes in hex. */
  const GENESIS_PREV_HASH: Hash := "sha256:" + ZEROS + ZEROS + ZEROS + ZEROS

  const ZEROS := "0000000000000000"

  datatype Decision = Allow | Deny

  /** The nine hashed fields of an entry. */
  datatype Fields = Fields(
    index: int,
    timestamp: string,
    msgId: string,
    decision: Decision,
    policiesFired: seq<string>,
    obligations: seq<string>,
    spendDeltaCents: int,
    reason: Option<string>,
    prevHash: Hash)

  datatype Entry = Entry(fields: Fields, selfHash: Hash)

  datatype Input = Input(
    msgId: string,
    decision: Decision,
    policiesFired: seq<string>,
    obligations: Option<seq<string>>,
    spendDeltaCents: Option<int>,
    reason: Option<string>,
    timestamp: Option<string>)

  /** What one line of the file parses to. `NotAnEntry` is any other JSON value:
      its `seq` is not the line number. */
  datatype Line = SyntaxError | NullLiteral | NotAnEntry | Parsed(entry: Entry)

  datatype Primitives = Primitives(
    hash: Fields -> Hash,
    show: Entry -> string,
    parse: string -> Line)

  ghost predicate Injective(hash: Fields -> Hash) {
    forall f, g :: hash(f) == hash(g) ==> f == g
  }

  /** Printing an entry gives one object literal on one line, and parsing it gives it back. */
  ghost predicate PrintsOneLine(p: Primitives) {
    forall e :: p.parse(p.show(e)) == Parsed(e) && '\n' !in p.show(e) && "{" <= p.show(e)
  }

  function BaseEntry(input: Input, clock: string, index: int, prevHash: Hash): Fields {
    Fields(
      index,
      if input.timestamp.Some? then input.timestamp.value else clock,
      input.msgId,
      input.decision,
      input.policiesFired,
      if input.obligations.Some? then input.obligations.value else [],
      if input.spendDeltaCents.Some? then input.spendDeltaCents.value else 0,
      input.reason,
      prevHash)
  }

  /** The entry says what its caller asked to record, and nothing where the caller gave nothing. */
  ghost predicate Records(f: Fields, input: Input, clock: string) {
    && f.msgId == input.msgId && f.decision == input.decision
    && f.policiesFired == input.policiesFired && f.reason == input.reason
    && (input.obligations.Some? ==> f.obligations == input.obligations.value)
    && (input.obligations.None? ==> f.obligations == [])
    && (input.spendDeltaCents.Some? ==> f.spendDeltaCents == input.spendDeltaCents.value)
    && (input.spendDeltaCents.None? ==> f.spendDeltaCents == 0)
    && (input.timestamp.Some? ==> f.timestamp == input.timestamp.value)
    && (input.timestamp.None? ==> f.timestamp == clock)
  }

  lemma SixteenZeros(i: nat)
    requires i < 16
    ensures |ZEROS| == 16 && ZEROS[i] == '0'
  {
    assert ZEROS == ['0', '0', '0', '0'] + ['0', '0', '0', '0'] + ['0', '0', '0', '0'] + ['0', '0', '0', '0'];
  }

  /** The first entry of a chain points to `sha256:` and 64 zeros. */
  lemma GenesisIsZeros(i: nat)
    requires 7 <= i < 71
    ensures |GENESIS_PREV_HASH| == 71 && "sha256:" <= GENESIS_PREV_HASH && GENESIS_PREV_HASH[i] == '0'
  {
    SixteenZeros((i - 7) % 16);
    var tail := ZEROS + ZEROS + ZEROS + ZEROS;
    assert GENESIS_PREV_HASH == "sha256:" + tail;
    assert tail[i - 7] == ZEROS[(i - 7) % 16];
  }

  function Seal(hash: Fields -> Hash, f: Fields): Entry { Entry(f, hash(f)) }

  // ------------------------------------------------------------ the chain

  /** The hash that line `i` must point back to. */
  function ExpectedPrev(ls: seq<Line>, i: nat): Hash
    requires i <= |ls|
  {
    if i == 0 then GENESIS_PREV_HASH
    else if ls[i - 1].Parsed? then ls[i - 1].entry.selfHash
    else []
  }

  /** Line `i` is an entry numbered `i`, linked to the line before and hashed correctly. */
  predicate Linked(hash: Fields -> Hash, ls: seq<Line>, i: nat)
    requires i < |ls|
  {
    && ls[i].Parsed?
    && ls[i].entry.fields.index == i
    && ls[i].entry.fields.prevHash == ExpectedPrev(ls, i)
    && ls[i].entry.selfHash == hash(ls[i].entry.fields)
  }

  /** Lines `0..k` form a chain. */
  ghost predicate Chained(hash: Fields -> Hash, ls: seq<Line>, k: nat)
    requires k <= |ls|
  {
    forall i :: 0 <= i < k ==> Linked(hash, ls, i)
  }

  function Wrap(es: seq<Entry>): (ls: seq<Line>)
    ensures |ls| == |es| && forall i :: 0 <= i < |es| ==> ls[i] == Parsed(es[i])
  {
    seq(|es|, i requires 0 <= i < |es| => Parsed(es[i]))
  }

  ghost predicate WellFormed(hash: Fields -> Hash, es: seq<Entry>) {
    Chained(hash, Wrap(es), |es|)
  }

  /** Sealing a base entry with the tail's number and hash extends a chain. */
  lemma AppendKeepsChain(hash: Fields -> Hash, es: seq<Entry>, f: Fields)
    requires WellFormed(hash, es)
    requires f.index == |es|
    requires f.prevHash == TailHash(es)
    ensures WellFormed(hash, es + [Seal(hash, f)])
  {
    var grown := es + [Seal(hash, f)];
    forall i | 0 <= i < |grown|
      ensures Linked(hash, Wrap(grown), i)
    {
      if i < |es| {
        assert Linked(hash, Wrap(es), i);
      }
    }
  }

  function TailHash(es: seq<Entry>): Hash {
    if es == [] then GENESIS_PREV_HASH else es[|es| - 1].selfHash
  }

  // ------------------------------------------------- tamper evidence

  /** Two chains whose entries carry the same `self_hash` somewhere carry it at the
      same place and agree on everything up to there. */
  lemma {:induction false} SameHashSamePrefix(hash: Fields -> Hash, a: seq<Entry>, b: seq<Entry>, i: nat, j: nat)
    requires Injective(hash)
    requires WellFormed(hash, a) && WellFormed(hash, b)
    requires i < |a| && j < |b|
    requires a[i].selfHash == b[j].selfHash
    ensures i == j
    ensures a[..i + 1] == b[..i + 1]
  {
    assert Linked(hash, Wrap(a), i) && Linked(hash, Wrap(b), j);
    assert a[i].fields == b[j].fields;
    if i > 0 {
      SameHashSamePrefix(hash, a, b, i - 1, j - 1);
      assert a[..i + 1] == a[..i] + [a[i]];
      assert b[..i + 1] == b[..i] + [b[i]];
    }
  }

  /** The last `self_hash` of a log that verifies determines the whole log. */
  lemma LastHashDeterminesLog(hash: Fields -> Hash, a: seq<Entry>, b: seq<Entry>)
    requires Injective(hash)
    requires WellFormed(hash, a) && WellFormed(hash, b)
    requires a != [] && b != []
    ensures TailHash(a) == TailHash(b) <==> a == b
  {
    if TailHash(a) == TailHash(b) {
      SameHashSamePrefix(hash, a, b, |a| - 1, |b| - 1);
      assert a == a[..|a|] && b == b[..|b|];
    }
  }

  // ------------------------------------------------------------ verifying

  datatype Why = BadJson | BadSeq | BadPrevHash | BadSelfHash

  /** `Throws` is the TypeError of reading `seq` off a line that is the literal `null`:
      the try block of `verifyFile` covers only the parsing. */
  datatype VerifyResult = Intact(entriesSeen: nat) | Broken(firstBreakAt: nat, why: Why) | Throws(line: nat)

  /** `r` is the right answer for these lines: valid exactly for a chain, otherwise the
      least index at which the prefix stops being one, with the first check that failed. */
  ghost predicate RightAnswer(hash: Fields -> Hash, ls: seq<Line>, r: VerifyResult) {
    match r
    case Intact(n) => n == |ls| && Chained(hash, ls, n)
    case Throws(at) => at < |ls| && Chained(hash, ls, at) && ls[at].NullLiteral?
    case Broken(at, why) =>
      && at < |ls| && Chained(hash, ls, at) && !Linked(hash, ls, at)
      && (why.BadJson? <==> ls[at].SyntaxError?)
      && !ls[at].NullLiteral?
      && (why.BadSeq? <==> ls[at].NotAnEntry? || (ls[at].Parsed? && ls[at].entry.fields.index != at))
      && (why.BadPrevHash? <==> ls[at].Parsed? && ls[at].entry.fields.index == at
                                && ls[at].entry.fields.prevHash != ExpectedPrev(ls, at))
  }

  /** A line that is the literal `null` after a sound chain makes verification throw. */
  lemma NullLineThrows(hash: Fields -> Hash, es: seq<Entry>)
    requires WellFormed(hash, es)
    ensures RightAnswer(hash, Wrap(es) + [NullLiteral], Throws(|es|))
  {
    var ls := Wrap(es) + [NullLiteral];
    forall i | 0 <= i < |es| ensures Linked(hash, ls, i) {
      assert Linked(hash, Wrap(es), i);
    }
  }

  /** There is exactly one right answer. */
  lemma RightAnswerUnique(hash: Fields -> Hash, ls: seq<Line>, r: VerifyResult, r': VerifyResult)
    requires RightAnswer(hash, ls, r) && RightAnswer(hash, ls, r')
    ensures r == r'
  {
    var at := match r case Intact(n) => n case Broken(n, _) => n case Throws(n) => n;
    var at' := match r' case Intact(n) => n case Broken(n, _) => n case Throws(n) => n;
    assert at < at' ==> Linked(hash, ls, at);
    assert at' < at ==> Linked(hash, ls, at');
  }

  /** The loop of `verifyFile` over the parsed lines. */
  method VerifyLines(hash: Fields -> Hash, ls: seq<Line>) returns (r: VerifyResult)
    ensures RightAnswer(hash, ls, r)
  {
    var expectedPrev := GENESIS_PREV_HASH;
    for i := 0 to |ls|
      invariant Chained(hash, ls, i)
      invariant expectedPrev == ExpectedPrev(ls, i)
    {
      match ls[i] {
        case SyntaxError => return Broken(i, BadJson);
        case NullLiteral => return Throws(i);
        case NotAnEntry => return Broken(i, BadSeq);
        case Parsed(entry) =>
          if entry.fields.index != i {
            return Broken(i, BadSeq);
          }
          if entry.fields.prevHash != expectedPrev {
            return Broken(i, BadPrevHash);
          }
          if hash(entry.fields) != entry.selfHash {
            return Broken(i, BadSelfHash);
          }
          expectedPrev := entry.selfHash;
      }
    }
    return Intact(|ls|);
  }

  // --------------------------------------------------- the file as text

  /** The position of the first newline, or the length. */
  function FirstNewline(s: string): (i: nat)
    ensures i <= |s| && '\n' !in s[..i]
    ensures i < |s| ==> s[i] == '\n'
  {
    if s == [] || s[0] == '\n' then 0 else 1 + FirstNewline(s[1..])
  }

  function SplitLines(s: string): seq<string>
    decreases |s|
  {
    var i := FirstNewline(s);
    if i == |s| then [s] else [s[..i]] + SplitLines(s[i + 1..])
  }

  function NonEmpty(ls: seq<string>): seq<string> {
    if ls == [] then [] else (if ls[0] == [] then [] else [ls[0]]) + NonEmpty(ls[1..])
  }

  /** `contents.split('\n').filter((l) => l.length > 0)` */
  function Lines(contents: string): seq<string> { NonEmpty(SplitLines(contents)) }

  function ParseAll(p: Primitives, ls: seq<string>): (r: seq<Line>)
    ensures |r| == |ls| && forall i :: 0 <= i < |ls| ==> r[i] == p.parse(ls[i])
  {
    seq(|ls|, i requires 0 <= i < |ls| => p.parse(ls[i]))
  }

  /** The text that appending the entries one by one leaves in the file. */
  function Render(p: Primitives, es: seq<Entry>): string {
    if es == [] then [] else Render(p, es[..|es| - 1]) + p.show(es[|es| - 1]) + "\n"
  }

  lemma SplitFirstLine(line: string, rest: string)
    requires '\n' !in line
    ensures SplitLines(line + "\n" + rest) == [line] + SplitLines(rest)
  {
    var s := line + "\n" + rest;
    var i := FirstNewline(s);
    assert s[|line|] == '\n' && s[..|line|] == line;
    assert s[i + 1..] == rest;
  }

  lemma LinesOfFirst(line: string, rest: string)
    requires '\n' !in line
    ensures Lines(line + "\n" + rest) == (if line == [] then [] else [line]) + Lines(rest)
  {
    SplitFirstLine(line, rest);
  }

  lemma LastIsNewline(contents: string)
    requires contents != [] && contents[|contents| - 1] == '\n'
    ensures FirstNewline(contents) < |contents|
  {
    assert '\n' in contents;
  }

  lemma {:induction false} LinesOfAppended(contents: string, line: string)
    requires contents == [] || contents[|contents| - 1] == '\n'
    requires '\n' !in line && line != []
    ensures Lines(contents + line + "\n") == Lines(contents) + [line]
    decreases |contents|
  {
    if contents == [] {
      assert contents + line + "\n" == line + "\n" + "";
      LinesOfFirst(line, "");
    } else {
      var i := FirstNewline(contents);
      LastIsNewline(contents);
      var head, rest := contents[..i], contents[i + 1..];
      SplitAround(contents, i);
      Regroup(head, "\n", rest, line, "\n");
      LinesOfAppended(rest, line);
      LinesOfFirst(head, rest);
      LinesOfFirst(head, rest + line + "\n");
    }
  }

  /** Splitting the file into lines recovers exactly the appended entries. */
  lemma {:induction false} LinesRecoverEntries(p: Primitives, es: seq<Entry>)
    requires PrintsOneLine(p)
    ensures Render(p, es) == [] || Render(p, es)[|Render(p, es)| - 1] == '\n'
    ensures ParseAll(p, Lines(Render(p, es))) == Wrap(es)
    ensures es != [] ==> Lines(Render(p, es))[|es| - 1] == p.show(es[|es| - 1])
  {
    if es == [] {
      assert SplitLines([]) == [[]];
      assert Lines(Render(p, es)) == [];
    } else {
      var front, last := es[..|es| - 1], es[|es| - 1];
      LinesRecoverEntries(p, front);
      assert p.show(last) != [] && '\n' !in p.show(last) by { assert "{" <= p.show(last); }
      LinesOfAppended(Render(p, front), p.show(last));
      assert |Lines(Render(p, front))| == |Wrap(front)|;
    }
  }

  method VerifyFile(p: Primitives, file: Option<string>) returns (r: VerifyResult)
    ensures file.None? ==> r == Intact(0)
    ensures file.Some? ==> RightAnswer(p.hash, ParseAll(p, Lines(file.value)), r)
  {
    if file.None? {
      return Intact(0);
    }
    r := VerifyLines(p.hash, ParseAll(p, Lines(file.value)));
  }

  datatype Tail = Tail(nextIndex: int, prevHash: Hash)

  /** `Unusable` is a last line that is JSON but no entry: the state becomes NaN and undefined. */
  datatype TailOutcome = Loaded(tail: Tail) | ParseFailure | Unusable

  function LoadTailState(p: Primitives, file: Option<string>): TailOutcome {
    if file.None? || AllBlank(file.value) then
      Loaded(Tail(0, GENESIS_PREV_HASH))
    else
      var ls := Lines(file.value);
      if ls == [] then Loaded(Tail(0, GENESIS_PREV_HASH))
      else match p.parse(ls[|ls| - 1])
        case SyntaxError => ParseFailure
        case NullLiteral => ParseFailure
        case NotAnEntry => Unusable
        case Parsed(e) => Loaded(Tail(e.fields.index + 1, e.selfHash))
  }

  /** The tail continues the entry on the last line; what is not JSON, or `null`, cannot be read. */
  ghost predicate LoadedFrom(p: Primitives, ls: seq<string>, outcome: TailOutcome) {
    if ls == [] then outcome == Loaded(Tail(0, GENESIS_PREV_HASH))
    else
      var last := p.parse(ls[|ls| - 1]);
      && (outcome.Loaded? <==> last.Parsed?)
      && (last.Parsed? ==> outcome.tail.nextIndex == last.entry.fields.index + 1 && outcome.tail.prevHash == last.entry.selfHash)
      && (outcome.ParseFailure? <==> last.SyntaxError? || last.NullLiteral?)
  }

  /** A file with an entry in it is not blank: every line starts with a brace. */
  lemma RenderNotBlank(p: Primitives, es: seq<Entry>)
    requires PrintsOneLine(p)
    requires es != []
    ensures !AllBlank(Render(p, es))
  {
    var front, line := Render(p, es[..|es| - 1]), p.show(es[|es| - 1]);
    assert "{" <= line;
    assert (front + line + "\n")[|front|] == line[0] == '{';
  }

  /** Reloading the tail from the text of a chain gives the state a writer would have kept in memory. */
  lemma TailReload(p: Primitives, es: seq<Entry>)
    requires PrintsOneLine(p)
    requires WellFormed(p.hash, es)
    ensures LoadTailState(p, Some(Render(p, es))) == Loaded(Tail(|es|, TailHash(es)))
  {
    LinesRecoverEntries(p, es);
    if es != [] {
      RenderNotBlank(p, es);
      var text := Render(p, es);
      assert |Lines(text)| == |ParseAll(p, Lines(text))| == |es|;
      assert p.parse(p.show(es[|es| - 1])) == Parsed(es[|es| - 1]);
      assert Linked(p.hash, Wrap(es), |es| - 1);
    }
  }

  /** The file of one connection, shared by whoever opens it. */
  class Disk {
    var file: Option<string>

    constructor Empty()
      ensures file == None
    {
      file := None;
    }
  }

  /** The file holds exactly the lines of the chain `es`. */
  ghost predicate IsLogOf(p: Primitives, file: Option<string>, es: seq<Entry>) {
    && PrintsOneLine(p) && WellFormed(p.hash, es)
    && (file == Some(Render(p, es)) || (es == [] && file.None?))
  }

  lemma LogIsLoaded(p: Primitives, file: Option<string>, es: seq<Entry>)
    requires IsLogOf(p, file, es)
    ensures LoadTailState(p, file) == Loaded(Tail(|es|, TailHash(es)))
    ensures file.Some? ==> ParseAll(p, Lines(file.value)) == Wrap(es)
  {
    TailReload(p, es);
    LinesRecoverEntries(p, es);
  }

  /** A file is the log of one chain at most. */
  lemma LogIsUnique(p: Primitives, file: Option<string>, es: seq<Entry>, es': seq<Entry>)
    requires IsLogOf(p, file, es) && IsLogOf(p, file, es')
    ensures es == es'
  {
    LogIsLoaded(p, file, es);
    LogIsLoaded(p, file, es');
    assert |es| == |es'|;
    forall i | 0 <= i < |es| ensures es[i] == es'[i] {
      assert file.Some? && Wrap(es)[i] == Wrap(es')[i];
    }
  }

  /** `openAuditLog`: the running tail plus the file it appends to. */
  class AuditLog {
    const p: Primitives
    const disk: Disk
    var nextIndex: int
    var prevHash: Hash
    ghost var entries: seq<Entry>

    /** The file holds exactly the chain of appended entries, and the tail in memory is
        the one a fresh reader would load from it. */
    ghost predicate Valid()
      reads this, disk
    {
      && IsLogOf(p, disk.file, entries)
      && nextIndex == |entries|
      && prevHash == TailHash(entries)
    }

    /** Open, or reopen, any file whose last line can be read. If it holds a chain, the log is that chain's. */
    constructor Open(p: Primitives, disk: Disk)
      requires LoadTailState(p, disk.file).Loaded?
      ensures this.p == p && this.disk == disk
      ensures Loaded(Tail(nextIndex, prevHash)) == LoadTailState(p, disk.file)
      ensures forall es :: IsLogOf(p, disk.file, es) ==> Valid() && entries == es
    {
      var state := LoadTailState(p, disk.file);
      this.p, this.disk := p, disk;
      nextIndex, prevHash := state.tail.nextIndex, state.tail.prevHash;
      if es :| IsLogOf(p, disk.file, es) {
        entries := es;
        LogIsLoaded(p, disk.file, es);
        forall es' | IsLogOf(p, disk.file, es') ensures es' == es {
          LogIsUnique(p, disk.file, es, es');
        }
      } else {
        entries := [];
      }
    }

    /** Opening fails exactly if the last line cannot be read; the file is not touched. */
    static method OpenAuditLog(p: Primitives, disk: Disk) returns (log: Option<AuditLog>, outcome: TailOutcome)
      ensures outcome == LoadTailState(p, disk.file)
      ensures disk.file.None? || AllBlank(disk.file.value) ==> outcome == Loaded(Tail(0, GENESIS_PREV_HASH))
      ensures disk.file.Some? && !AllBlank(disk.file.value) ==> LoadedFrom(p, Lines(disk.file.value), outcome)
      ensures log.Some? <==> outcome.Loaded?
      ensures log.Some? ==> fresh(log.value) && log.value.p == p && log.value.disk == disk
                            && outcome == Loaded(Tail(log.value.nextIndex, log.value.prevHash))
      ensures forall es :: IsLogOf(p, disk.file, es) ==> log.Some? && log.value.Valid() && log.value.entries == es
    {
      outcome := LoadTailState(p, disk.file);
      forall es | IsLogOf(p, disk.file, es) ensures outcome.Loaded? {
        LogIsLoaded(p, disk.file, es);
      }
      if outcome.Loaded? {
        var newLog := new AuditLog.Open(p, disk);
        log := Some(newLog);
      } else {
        log := None;
      }
    }

    /** The file gains exactly the line of the entry, which continues the tail in memory; and a log
        of a chain stays one. */
    method Append(input: Input, clock: string) returns (entry: Entry)
      modifies this, disk
      ensures Records(entry.fields, input, clock)
      ensures entry.fields.index == old(nextIndex) && entry.fields.prevHash == old(prevHash)
      ensures entry.selfHash == p.hash(entry.fields)
      ensures disk.file == Some((if old(disk.file).Some? then old(disk.file).value else []) + p.show(entry) + "\n")
      ensures nextIndex == old(nextIndex) + 1 && prevHash == entry.selfHash
      ensures old(Valid()) ==> Valid() && entries == old(entries) + [entry]
    {
      var base := BaseEntry(input, clock, nextIndex, prevHash);
      var selfHash := p.hash(base);
      entry := Entry(base, selfHash);
      var before := if disk.file.Some? then disk.file.value else [];
      disk.file := Some(before + p.show(entry) + "\n");
      if old(Valid()) {
        AppendKeepsChain(p.hash, entries, base);
      }
      nextIndex := nextIndex + 1;
      prevHash := selfHash;
      assert (entries + [entry])[..|entries|] == entries;
      entries := entries + [entry];
    }

    /** Re-read the whole file: on the log of a chain, verification succeeds with its size. */
    method Verify() returns (r: VerifyResult)
      ensures disk.file.None? ==> r == Intact(0)
      ensures disk.file.Some? ==> RightAnswer(p.hash, ParseAll(p, Lines(disk.file.value)), r)
      ensures Valid() ==> r == Intact(|entries|)
    {
      r := VerifyFile(p, disk.file);
      if Valid() && disk.file.Some? {
        LogIsLoaded(p, disk.file, entries);
        RightAnswerUnique(p.hash, Wrap(entries), r, Intact(|entries|));
      }
    }
  }

  datatype LogOp = Log(input: Input, clock: string) | Reopen

  function Logged(ops: seq<LogOp>): seq<LogOp> {
    if ops == [] then []
    else Logged(ops[..|ops| - 1]) + (if ops[|ops| - 1].Log? then [ops[|ops| - 1]] else [])
  }

  /** The entries are those of these operations, one each and in their order, chained. */
  ghost predicate WrittenBy(hash: Fields -> Hash, es: seq<Entry>, logged: seq<LogOp>) {
    && |es| == |logged|
    && forall j :: 0 <= j < |es| ==>
         && logged[j].Log? && Records(es[j].fields, logged[j].input, logged[j].clock)
         && es[j].fields.index == j && es[j].fields.prevHash == TailHash(es[..j]) && es[j].selfHash == hash(es[j].fields)
  }

  lemma WrittenOneMore(hash: Fields -> Hash, es: seq<Entry>, logged: seq<LogOp>, op: LogOp, e: Entry)
    requires WrittenBy(hash, es, logged) && op.Log? && Records(e.fields, op.input, op.clock)
    requires e.fields.index == |es| && e.fields.prevHash == TailHash(es) && e.selfHash == hash(e.fields)
    ensures WrittenBy(hash, es + [e], logged + [op])
  {
    var more := es + [e];
    assert more[..|es|] == es;
    forall j | 0 <= j < |es| ensures more[..j] == es[..j] {
    }
  }

  /** Any run of appends with the log closed and reopened at arbitrary points: the file holds
      exactly the entries of the run's append operations, splitting and parsing it recovers them,
      the tail reloaded from it is theirs, and it verifies with their number. */
  method RunLog(p: Primitives, ops: seq<LogOp>) returns (written: seq<Entry>, file: Option<string>, r: VerifyResult)
    requires PrintsOneLine(p)
    ensures WrittenBy(p.hash, written, Logged(ops)) && WellFormed(p.hash, written)
    ensures file == Some(Render(p, written)) || (file.None? && written == [])
    ensures file.Some? ==> ParseAll(p, Lines(file.value)) == Wrap(written)
    ensures LoadTailState(p, file) == Loaded(Tail(|written|, TailHash(written)))
    ensures r == Intact(|written|)
  {
    var disk := new Disk.Empty();
    var answer, outcome := AuditLog.OpenAuditLog(p, disk);
    assert IsLogOf(p, disk.file, []);
    var log := answer.value;
    written := [];
    for i := 0 to |ops|
      invariant log.Valid() && log.disk == disk && log.p == p && fresh(log) && fresh(disk)
      invariant log.entries == written
      invariant WrittenBy(p.hash, written, Logged(ops[..i]))
    {
      assert ops[..i + 1][..i] == ops[..i];
      if ops[i].Log? {
        var e := log.Append(ops[i].input, ops[i].clock);
        WrittenOneMore(p.hash, written, Logged(ops[..i]), ops[i], e);
        written := written + [e];
      } else {
        assert IsLogOf(p, disk.file, written);
        answer, outcome := AuditLog.OpenAuditLog(p, disk);
        log := answer.value;
      }
    }
    assert ops[..|ops|] == ops;
    file := disk.file;
    LogIsLoaded(p, file, written);
    r := log.Verify();
  }
}
