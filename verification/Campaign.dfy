/** The resumable campaign: an append-only ledger written by crashed, failed and resumed runs of one plan. */
module Campaign {
  import opened Wrappers

  /** What a cell retains, each part only if it was recorded: its fingerprint and the list of its raw samples. */
  datatype Evidence = Evidence(fingerprint: Option<map<string, string>>, rawNs: Option<seq<int>>)

  /** A measured cell, as its name spells it: a surface and a depth. */
  datatype Surface = Prefill | Decode | Ttft | OtherSurface(name: string)

  datatype Cell = Cell(surface: Surface, depth: nat)

  datatype Engine = Muser | Llama | TtftMuser | TtftLlama | OtherEngine(name: string)

  /** One planned command: its cell, its engine and its plan digest. */
  datatype Entry = Entry(cell: Cell, engine: Engine, digest: string)

  datatype Record = Record(entry: Entry, identity: string, passed: bool, evidence: Evidence)

  // ---- The ledger file ----

  /** A newline-terminated line either parses as one record or not at all. */
  datatype Line = Parsed(record: Record) | Corrupt

  /** The bytes after the last newline: none, a complete record whose newline was never written, or anything that does
      not parse. */
  datatype Tail = Clean | Unterminated(record: Record) | Torn

  datatype File = File(lines: seq<Line>, tail: Tail)

  const EMPTY_FILE := File([], Clean)

  /** `read_records`: one record for each non-blank line, or an exception. */
  function Read(f: File): Option<seq<Record>> {
    if f.tail.Torn? || Corrupt in f.lines then None
    else Some(Records(f.lines) + if f.tail.Unterminated? then [f.tail.record] else [])
  }

  function Records(lines: seq<Line>): seq<Record>
    requires Corrupt !in lines
  {
    if |lines| == 0 then [] else Records(lines[..|lines| - 1]) + [lines[|lines| - 1].record]
  }

  /** How far `append_record` got before the process died. */
  datatype Written = Nothing | Part | AllButNewline | Everything

  /** Appending at the end of the file: bytes that follow an unterminated record share its line. */
  function Append(f: File, r: Record, w: Written): File {
    match w
    case Nothing => f
    case Part => f.(tail := Torn)
    case AllButNewline => f.(tail := if f.tail.Clean? then Unterminated(r) else Torn)
    case Everything => File(f.lines + [if f.tail.Clean? then Parsed(r) else Corrupt], Clean)
  }

  // ---- One invocation ----

  /** The child run and its receipt check, as an oracle; a crash may strike before or during the append. */
  datatype Outcome =
    | Pass(evidence: Evidence)
    | Fail
    | Crash
    | CrashAppending(passed: bool, evidence: Evidence, written: Written)

  datatype Exit = Done | Failed | Crashed | Unreadable

  const NO_EVIDENCE := Evidence(None, None)

  function Completed(records: seq<Record>, identity: string): set<string> {
    set r | r in records && r.passed && r.identity == identity :: r.entry.digest
  }

  /** One turn of the command loop: the ledger after it, and the exit if the invocation ends there. */
  function Turn(f: File, e: Entry, identity: string, completed: set<string>, outcome: Outcome): (File, Option<Exit>) {
    if e.digest in completed then (f, None)
    else
      match outcome
      case Pass(evidence) => (Append(f, Record(e, identity, true, evidence), Everything), None)
      case Fail => (Append(f, Record(e, identity, false, NO_EVIDENCE), Everything), Some(Failed))
      case Crash => (f, Some(Crashed))
      case CrashAppending(passed, evidence, w) => (Append(f, Record(e, identity, passed, evidence), w), Some(Crashed))
  }

  /** The command loop from plan position `i`, with the completed digests read at the start. */
  function RunFrom(f: File, plan: seq<Entry>, identity: string, completed: set<string>, oracle: nat -> Outcome,
                   i: nat): (File, Exit)
    requires i <= |plan|
    decreases |plan| - i
  {
    if i == |plan| then (f, Done)
    else
      var (g, stop) := Turn(f, plan[i], identity, completed, oracle(i));
      if stop.Some? then (g, stop.value) else RunFrom(g, plan, identity, completed, oracle, i + 1)
  }

  function Invoke(f: File, plan: seq<Entry>, identity: string, oracle: nat -> Outcome): (File, Exit) {
    var existing := Read(f);
    if existing.None? then (f, Unreadable)
    else RunFrom(f, plan, identity, Completed(existing.value, identity), oracle, 0)
  }

  /** `execute_plan` over the ledger it holds open. */
  class Ledger {
    var file: File

    constructor ()
      ensures file == EMPTY_FILE
    {
      file := EMPTY_FILE;
    }

    method ExecutePlan(plan: seq<Entry>, identity: string, oracle: nat -> Outcome) returns (exit: Exit)
      modifies this
      ensures (file, exit) == Invoke(old(file), plan, identity, oracle)
    {
      var existing := Read(file);
      if existing.None? {
        return Unreadable;
      }
      var completed := Completed(existing.value, identity);
      for i := 0 to |plan|
        invariant RunFrom(file, plan, identity, completed, oracle, i) == Invoke(old(file), plan, identity, oracle)
      {
        if plan[i].digest !in completed {
          match oracle(i) {
            case Pass(e) =>
              file := Append(file, Record(plan[i], identity, true, e), Everything);
            case Fail =>
              file := Append(file, Record(plan[i], identity, false, NO_EVIDENCE), Everything);
              return Failed;
            case Crash =>
              return Crashed;
            case CrashAppending(passed, e, w) =>
              file := Append(file, Record(plan[i], identity, passed, e), w);
              return Crashed;
          }
        }
      }
      return Done;
    }
  }

  /** The ledger after a history of invocations. */
  function History(plan: seq<Entry>, identity: string, oracles: seq<nat -> Outcome>): File {
    if |oracles| == 0 then EMPTY_FILE
    else Invoke(History(plan, identity, oracles[..|oracles| - 1]), plan, identity, oracles[|oracles| - 1]).0
  }

  // ---- The passed records are a prefix of the plan ----

  predicate DistinctDigests(plan: seq<Entry>) {
    forall i, j :: 0 <= i < j < |plan| ==> plan[i].digest != plan[j].digest
  }

  /** The plan entries of the passed records, in ledger order. */
  function Passed(records: seq<Record>): seq<Entry> {
    if |records| == 0 then []
    else Passed(records[..|records| - 1]) + if records[|records| - 1].passed then [records[|records| - 1].entry] else []
  }

  lemma {:induction false} PassedAppend(records: seq<Record>, r: Record)
    ensures Passed(records + [r]) == Passed(records) + if r.passed then [r.entry] else []
  {
  }

  /** All records carry the identity of the plan, and the passed ones are its first `k` entries. */
  ghost predicate PrefixRecords(records: seq<Record>, plan: seq<Entry>, identity: string, k: nat) {
    && k <= |plan| && Passed(records) == plan[..k]
    && forall i :: 0 <= i < |records| ==> records[i].identity == identity
  }

  ghost predicate PrefixAt(f: File, plan: seq<Entry>, identity: string, k: nat) {
    Read(f).Some? ==> PrefixRecords(Read(f).value, plan, identity, k)
  }

  lemma PrefixRecordsAppend(records: seq<Record>, plan: seq<Entry>, identity: string, i: nat, r: Record)
    requires i < |plan| && PrefixRecords(records, plan, identity, i) && r.entry == plan[i] && r.identity == identity
    ensures PrefixRecords(records + [r], plan, identity, if r.passed then i + 1 else i)
  {
  }

  lemma {:induction false} RecordsAppend(lines: seq<Line>, r: Record)
    requires Corrupt !in lines
    ensures Corrupt !in lines + [Parsed(r)] && Records(lines + [Parsed(r)]) == Records(lines) + [r]
  {
  }

  /** What an append does to the readable records. */
  lemma ReadAppend(f: File, r: Record, w: Written)
    requires Read(f).Some?
    ensures var g := Append(f, r, w);
            Read(g).Some? ==> Read(g).value == if w.Nothing? then Read(f).value else Read(f).value + [r]
    ensures f.tail.Clean? ==> (Read(Append(f, r, w)).Some? <==> !w.Part?)
  {
  }

  lemma {:induction false} RunKeepsUnreadable(f: File, plan: seq<Entry>, identity: string, completed: set<string>,
                                              oracle: nat -> Outcome, i: nat)
    requires i <= |plan| && Read(f).None?
    ensures Read(RunFrom(f, plan, identity, completed, oracle, i).0).None?
    decreases |plan| - i
  {
    if i < |plan| {
      TurnKeepsUnreadable(f, plan[i], identity, completed, oracle(i));
      var (g, stop) := Turn(f, plan[i], identity, completed, oracle(i));
      if stop.None? {
        RunKeepsUnreadable(g, plan, identity, completed, oracle, i + 1);
      }
    }
  }

  lemma TurnKeepsUnreadable(f: File, e: Entry, identity: string, completed: set<string>, outcome: Outcome)
    requires Read(f).None?
    ensures Read(Turn(f, e, identity, completed, outcome).0).None?
  {
  }

  function Digests(entries: seq<Entry>): set<string> {
    set e | e in entries :: e.digest
  }

  lemma CompletedAppend(records: seq<Record>, r: Record, identity: string)
    requires r.identity == identity
    ensures Completed(records + [r], identity)
            == Completed(records, identity) + if r.passed then {r.entry.digest} else {}
  {
  }

  lemma DigestsAppend(entries: seq<Entry>, e: Entry)
    ensures Digests(entries + [e]) == Digests(entries) + {e.digest}
  {
  }

  lemma {:induction false} CompletedIsPassed(records: seq<Record>, identity: string)
    requires forall i :: 0 <= i < |records| ==> records[i].identity == identity
    ensures Completed(records, identity) == Digests(Passed(records))
  {
    if |records| > 0 {
      var front, last := records[..|records| - 1], records[|records| - 1];
      CompletedIsPassed(front, identity);
      assert records == front + [last];
      CompletedAppend(front, last, identity);
      PassedAppend(front, last);
      DigestsAppend(Passed(front), last.entry);
    }
  }

  /** In a plan with distinct digests, the completed entries are exactly those before position `k`. */
  lemma CompletedIffBefore(plan: seq<Entry>, k: nat, i: nat)
    requires DistinctDigests(plan) && k <= |plan| && i < |plan|
    ensures plan[i].digest in Digests(plan[..k]) <==> i < k
  {
  }

  function Max(a: nat, b: nat): nat {
    if a < b then b else a
  }

  /** One turn at or past the resumption point extends the prefix by at most its own entry, and by exactly that if the
      loop goes on. */
  lemma TurnKeepsPrefix(f: File, plan: seq<Entry>, identity: string, outcome: Outcome, i: nat, start: nat)
    returns (k: nat)
    requires DistinctDigests(plan) && i < |plan| && start <= |plan|
    requires Read(f).Some? && PrefixAt(f, plan, identity, Max(i, start))
    ensures var (g, stop) := Turn(f, plan[i], identity, Digests(plan[..start]), outcome);
            PrefixAt(g, plan, identity, k) && (stop.None? ==> k == Max(i + 1, start)) && stop != Some(Done)
  {
    CompletedIffBefore(plan, start, i);
    k := Max(i, start);
    if i >= start {
      match outcome
      case Pass(e) =>
        AppendKeepsPrefix(f, plan, identity, i, Record(plan[i], identity, true, e), Everything);
        k := i + 1;
      case Fail =>
        AppendKeepsPrefix(f, plan, identity, i, Record(plan[i], identity, false, NO_EVIDENCE), Everything);
      case Crash =>
      case CrashAppending(passed, e, w) =>
        AppendKeepsPrefix(f, plan, identity, i, Record(plan[i], identity, passed, e), w);
        k := if passed && !w.Nothing? then i + 1 else i;
    }
  }

  /** The command loop keeps the passed records a prefix of the plan, one that is complete when it finishes. */
  lemma {:induction false} RunKeepsPrefix(f: File, plan: seq<Entry>, identity: string, oracle: nat -> Outcome, i: nat,
                                          start: nat)
    returns (k: nat)
    requires DistinctDigests(plan) && i <= |plan| && start <= |plan|
    requires PrefixAt(f, plan, identity, Max(i, start))
    ensures var (g, exit) := RunFrom(f, plan, identity, Digests(plan[..start]), oracle, i);
            PrefixAt(g, plan, identity, k) && (exit == Done ==> k == |plan|)
    decreases |plan| - i
  {
    if Read(f).None? {
      RunKeepsUnreadable(f, plan, identity, Digests(plan[..start]), oracle, i);
      k := |plan|;
    } else if i == |plan| {
      k := |plan|;
    } else {
      k := TurnKeepsPrefix(f, plan, identity, oracle(i), i, start);
      var (g, stop) := Turn(f, plan[i], identity, Digests(plan[..start]), oracle(i));
      if stop.None? {
        k := RunKeepsPrefix(g, plan, identity, oracle, i + 1, start);
      }
    }
  }

  lemma AppendKeepsPrefix(f: File, plan: seq<Entry>, identity: string, i: nat, r: Record, w: Written)
    requires i < |plan| && Read(f).Some? && PrefixAt(f, plan, identity, i)
    requires r.entry == plan[i] && r.identity == identity
    ensures PrefixAt(Append(f, r, w), plan, identity, if r.passed && !w.Nothing? then i + 1 else i)
  {
    ReadAppend(f, r, w);
    PrefixRecordsAppend(Read(f).value, plan, identity, i, r);
  }

  lemma InvokeKeepsPrefix(f: File, plan: seq<Entry>, identity: string, oracle: nat -> Outcome, start: nat)
    returns (k: nat)
    requires DistinctDigests(plan) && PrefixAt(f, plan, identity, start)
    ensures var (g, exit) := Invoke(f, plan, identity, oracle);
            PrefixAt(g, plan, identity, k) && (exit == Done ==> k == |plan|)
  {
    k := start;
    if Read(f).Some? {
      CompletedIsPassed(Read(f).value, identity);
      k := RunKeepsPrefix(f, plan, identity, oracle, 0, start);
    }
  }

  /** After every history of crashed, failed and resumed invocations, the passed records of a readable ledger are, in
      order and without duplicates, a prefix of the plan; after an invocation that reports success they are all of
      it. */
  lemma {:induction false} PassedIsPrefix(plan: seq<Entry>, identity: string, oracles: seq<nat -> Outcome>)
    returns (k: nat)
    requires DistinctDigests(plan)
    ensures PrefixAt(History(plan, identity, oracles), plan, identity, k)
    ensures |oracles| > 0 ==>
              var last := |oracles| - 1;
              Invoke(History(plan, identity, oracles[..last]), plan, identity, oracles[last]).1 == Done ==> k == |plan|
  {
    if |oracles| == 0 {
      k := 0;
    } else {
      var start := PassedIsPrefix(plan, identity, oracles[..|oracles| - 1]);
      k := InvokeKeepsPrefix(History(plan, identity, oracles[..|oracles| - 1]), plan, identity,
                             oracles[|oracles| - 1], start);
    }
  }

  // ---- When distinct digests are needed ----

  function AlwaysPass(i: nat): Outcome {
    Pass(NO_EVIDENCE)
  }

  lemma AllPassTurn(f: File, plan: seq<Entry>, identity: string, i: nat)
    requires i < |plan| && f.tail.Clean? && Read(f).Some? && Passed(Read(f).value) == plan[..i]
    ensures var (g, stop) := Turn(f, plan[i], identity, {}, AlwaysPass(i));
            stop.None? && g.tail.Clean? && Read(g).Some? && Passed(Read(g).value) == plan[..i + 1]
  {
    var r := Record(plan[i], identity, true, NO_EVIDENCE);
    CleanAppend(f, r);
    PassedAppend(Read(f).value, r);
    assert plan[..i] + [plan[i]] == plan[..i + 1];
  }

  lemma CleanAppend(f: File, r: Record)
    requires f.tail.Clean? && Read(f).Some?
    ensures Read(Append(f, r, Everything)) == Some(Read(f).value + [r])
  {
    RecordsAppend(f.lines, r);
    assert Read(f).value == Records(f.lines);
    assert Records(f.lines + [Parsed(r)]) + [] == Records(f.lines) + [r];
  }

  lemma {:induction false} AllPassRun(f: File, plan: seq<Entry>, identity: string, i: nat)
    requires i <= |plan| && f.tail.Clean? && Read(f).Some? && Passed(Read(f).value) == plan[..i]
    ensures var (g, exit) := RunFrom(f, plan, identity, {}, AlwaysPass, i);
            exit == Done && Read(g).Some? && Passed(Read(g).value) == plan
    decreases |plan| - i
  {
    if i == |plan| {
      assert plan[..i] == plan;
    } else {
      AllPassTurn(f, plan, identity, i);
      AllPassRun(Turn(f, plan[i], identity, {}, AlwaysPass(i)).0, plan, identity, i + 1);
    }
  }

  /** No history duplicates a passed digest exactly when the plan's digests are distinct: the completed set is read only
      once, so an uninterrupted invocation runs a repeated digest again. */
  lemma NoDuplicatesIffDistinct(plan: seq<Entry>, identity: string)
    ensures DistinctDigests(plan) <==>
            forall oracles: seq<nat -> Outcome> :: var ledger := Read(History(plan, identity, oracles));
              ledger.Some? ==> DistinctDigests(Passed(ledger.value))
  {
    if DistinctDigests(plan) {
      forall oracles: seq<nat -> Outcome> | Read(History(plan, identity, oracles)).Some?
        ensures DistinctDigests(Passed(Read(History(plan, identity, oracles)).value))
      {
        var k := PassedIsPrefix(plan, identity, oracles);
      }
    } else {
      var once: seq<nat -> Outcome> := [AlwaysPass];
      assert once[..0] == [];
      assert History(plan, identity, []) == EMPTY_FILE;
      AllPassRun(EMPTY_FILE, plan, identity, 0);
      assert History(plan, identity, once) == Invoke(EMPTY_FILE, plan, identity, AlwaysPass).0;
      assert Completed([], identity) == {};
    }
  }

  // ---- The ledger is append-only ----

  lemma TurnExtends(f: File, e: Entry, identity: string, completed: set<string>, outcome: Outcome)
    ensures var g := Turn(f, e, identity, completed, outcome).0;
            Read(g).Some? ==> Read(f).Some? && Read(f).value <= Read(g).value
  {
    if Read(f).None? {
      TurnKeepsUnreadable(f, e, identity, completed, outcome);
    } else {
      match outcome
      case Pass(evidence) => ReadAppend(f, Record(e, identity, true, evidence), Everything);
      case Fail => ReadAppend(f, Record(e, identity, false, NO_EVIDENCE), Everything);
      case Crash =>
      case CrashAppending(passed, evidence, w) => ReadAppend(f, Record(e, identity, passed, evidence), w);
    }
  }

  lemma {:induction false} RunExtends(f: File, plan: seq<Entry>, identity: string, completed: set<string>,
                                      oracle: nat -> Outcome, i: nat)
    requires i <= |plan|
    ensures var g := RunFrom(f, plan, identity, completed, oracle, i).0;
            Read(g).Some? ==> Read(f).Some? && Read(f).value <= Read(g).value
    decreases |plan| - i
  {
    if i < |plan| {
      TurnExtends(f, plan[i], identity, completed, oracle(i));
      var (g, stop) := Turn(f, plan[i], identity, completed, oracle(i));
      if stop.None? {
        RunExtends(g, plan, identity, completed, oracle, i + 1);
      }
    }
  }

  /** An invocation of any plan on any ledger keeps every readable record, in place, or leaves nothing readable. */
  lemma InvokeExtends(f: File, plan: seq<Entry>, identity: string, oracle: nat -> Outcome)
    ensures var g := Invoke(f, plan, identity, oracle).0;
            Read(g).Some? ==> Read(f).Some? && Read(f).value <= Read(g).value
  {
    if Read(f).Some? {
      RunExtends(f, plan, identity, Completed(Read(f).value, identity), oracle, 0);
    }
  }

  /** One invocation on a shared ledger: several stages, each with its own plan and identity, may append to it. */
  datatype Invocation = Invocation(plan: seq<Entry>, identity: string, oracle: nat -> Outcome)

  /** The ledger after any sequence of invocations. */
  function Sessions(calls: seq<Invocation>): File {
    if |calls| == 0 then EMPTY_FILE
    else
      var last := calls[|calls| - 1];
      Invoke(Sessions(calls[..|calls| - 1]), last.plan, last.identity, last.oracle).0
  }

  /** A history of one plan is the special case of equal plans and identities. */
  lemma {:induction false} HistoryIsSessions(plan: seq<Entry>, identity: string, oracles: seq<nat -> Outcome>)
    ensures History(plan, identity, oracles)
            == Sessions(seq(|oracles|, i requires 0 <= i < |oracles| => Invocation(plan, identity, oracles[i])))
  {
    if |oracles| > 0 {
      var front := oracles[..|oracles| - 1];
      HistoryIsSessions(plan, identity, front);
      var calls := seq(|oracles|, i requires 0 <= i < |oracles| => Invocation(plan, identity, oracles[i]));
      assert calls[..|calls| - 1] == seq(|front|, i requires 0 <= i < |front| => Invocation(plan, identity, front[i]));
    }
  }

  /** The records of a readable ledger begin with the records it had after every earlier invocation. */
  lemma {:induction false} SessionsExtend(calls: seq<Invocation>, n: nat)
    requires n <= |calls|
    ensures var before, after := Read(Sessions(calls[..n])), Read(Sessions(calls));
            after.Some? ==> before.Some? && before.value <= after.value
  {
    if n == |calls| {
      assert calls[..n] == calls;
    } else {
      var front, last := calls[..|calls| - 1], calls[|calls| - 1];
      assert front[..n] == calls[..n];
      SessionsExtend(front, n);
      InvokeExtends(Sessions(front), last.plan, last.identity, last.oracle);
    }
  }

  ghost predicate HasFailure(records: seq<Record>) {
    exists i :: 0 <= i < |records| && !records[i].passed
  }

  lemma {:induction false} RunFailureIsRecorded(f: File, plan: seq<Entry>, identity: string, completed: set<string>,
                                                oracle: nat -> Outcome, i: nat)
    requires i <= |plan|
    ensures var (g, exit) := RunFrom(f, plan, identity, completed, oracle, i);
            exit == Failed && Read(g).Some? ==> HasFailure(Read(g).value)
    decreases |plan| - i
  {
    if i < |plan| {
      var (g, stop) := Turn(f, plan[i], identity, completed, oracle(i));
      if stop.None? {
        RunFailureIsRecorded(g, plan, identity, completed, oracle, i + 1);
      } else if stop == Some(Failed) && Read(g).Some? {
        var r := Record(plan[i], identity, false, NO_EVIDENCE);
        TurnExtends(f, plan[i], identity, completed, oracle(i));
        ReadAppend(f, r, Everything);
        assert Read(g).value[|Read(f).value|] == r;
      }
    }
  }

  /** Invocation `n` of a sequence exits as failed. */
  predicate FailsAt(calls: seq<Invocation>, n: nat)
    requires n < |calls|
  {
    Invoke(Sessions(calls[..n]), calls[n].plan, calls[n].identity, calls[n].oracle).1 == Failed
  }

  lemma InvokeFailureIsRecorded(f: File, plan: seq<Entry>, identity: string, oracle: nat -> Outcome)
    ensures var (g, exit) := Invoke(f, plan, identity, oracle);
            exit == Failed && Read(g).Some? ==> HasFailure(Read(g).value)
  {
    if Read(f).Some? {
      RunFailureIsRecorded(f, plan, identity, Completed(Read(f).value, identity), oracle, 0);
    }
  }

  lemma FailureInPrefix(before: seq<Record>, after: seq<Record>)
    requires HasFailure(before) && before <= after
    ensures HasFailure(after)
  {
    var i :| 0 <= i < |before| && !before[i].passed;
    assert after[i] == before[i];
  }

  lemma SessionsAt(calls: seq<Invocation>, n: nat)
    requires n < |calls|
    ensures Sessions(calls[..n + 1])
            == Invoke(Sessions(calls[..n]), calls[n].plan, calls[n].identity, calls[n].oracle).0
  {
    assert calls[..n + 1][..n] == calls[..n];
  }

  /** Once an invocation has exited as failed, every later readable ledger still holds a failed record. */
  lemma {:induction false} FailureStays(calls: seq<Invocation>, n: nat)
    requires n < |calls| && FailsAt(calls, n) && Read(Sessions(calls)).Some?
    ensures HasFailure(Read(Sessions(calls)).value)
  {
    SessionsAt(calls, n);
    SessionsExtend(calls, n + 1);
    InvokeFailureIsRecorded(Sessions(calls[..n]), calls[n].plan, calls[n].identity, calls[n].oracle);
    FailureInPrefix(Read(Sessions(calls[..n + 1])).value, Read(Sessions(calls)).value);
  }

  // ---- What the records say ----

  /** The record of position `i` of an invocation: its own entry and identity, and a verdict with the evidence its run
      delivered, or was being appended when the process died. */
  ghost predicate Justified(r: Record, plan: seq<Entry>, identity: string, oracle: nat -> Outcome, i: nat) {
    && i < |plan| && r.entry == plan[i] && r.identity == identity
    && match oracle(i)
       case Pass(evidence) => r.passed && r.evidence == evidence
       case Fail => !r.passed && r.evidence == NO_EVIDENCE
       case Crash => false
       case CrashAppending(passed, evidence, _) => r.passed == passed && r.evidence == evidence
  }

  /** Some record has passed this entry under this identity. */
  ghost predicate HasPassed(records: seq<Record>, identity: string, e: Entry) {
    exists k :: 0 <= k < |records| && records[k].passed && records[k].identity == identity
                && records[k].entry.digest == e.digest
  }

  lemma CompletedMeans(records: seq<Record>, identity: string, e: Entry)
    ensures e.digest in Completed(records, identity) <==> HasPassed(records, identity, e)
  {
    if HasPassed(records, identity, e) {
      var k :| 0 <= k < |records| && records[k].passed && records[k].identity == identity
               && records[k].entry.digest == e.digest;
      assert records[k] in records;
    }
  }

  /** One turn appends nothing for a completed entry, and otherwise at most its own justified record. */
  lemma TurnRecords(f: File, plan: seq<Entry>, identity: string, completed: set<string>, oracle: nat -> Outcome, i: nat)
    returns (r: Record)
    requires i < |plan| && Read(f).Some?
    ensures var (g, stop) := Turn(f, plan[i], identity, completed, oracle(i));
            && (plan[i].digest in completed ==> g == f && stop.None?)
            && (Read(g).Some? && plan[i].digest !in completed ==>
                  || (Read(g).value == Read(f).value && stop.Some?)
                  || (Read(g).value == Read(f).value + [r] && Justified(r, plan, identity, oracle, i)))
  {
    match oracle(i)
    case Pass(evidence) =>
      r := Record(plan[i], identity, true, evidence);
      ReadAppend(f, r, Everything);
    case Fail =>
      r := Record(plan[i], identity, false, NO_EVIDENCE);
      ReadAppend(f, r, Everything);
    case Crash =>
      r := Record(plan[i], identity, false, NO_EVIDENCE);
    case CrashAppending(passed, evidence, w) =>
      r := Record(plan[i], identity, passed, evidence);
      ReadAppend(f, r, w);
  }

  /** The records `added` come from the plan positions `at`: in order, each once, none of them completed before. */
  ghost predicate Accounts(added: seq<Record>, at: seq<nat>, plan: seq<Entry>, identity: string,
                           completed: set<string>, oracle: nat -> Outcome, from: nat)
  {
    && |at| == |added|
    && (forall k :: 0 <= k < |at| ==>
          && from <= at[k] < |plan| && plan[at[k]].digest !in completed
          && Justified(added[k], plan, identity, oracle, at[k]))
    && forall j, k :: 0 <= j < k < |at| ==> at[j] < at[k]
  }

  lemma AccountsCons(r: Record, added: seq<Record>, at: seq<nat>, plan: seq<Entry>, identity: string,
                     completed: set<string>, oracle: nat -> Outcome, i: nat)
    requires i < |plan| && plan[i].digest !in completed && Justified(r, plan, identity, oracle, i)
    requires Accounts(added, at, plan, identity, completed, oracle, i + 1)
    ensures Accounts([r] + added, [i] + at, plan, identity, completed, oracle, i)
  {
  }

  /** Every position from `i` on is completed or among `at`. */
  ghost predicate AllRun(at: seq<nat>, plan: seq<Entry>, completed: set<string>, i: nat) {
    forall j :: i <= j < |plan| && plan[j].digest !in completed ==> j in at
  }

  ghost predicate AllPassed(records: seq<Record>) {
    forall k :: 0 <= k < |records| ==> records[k].passed
  }

  lemma Prepend(before: seq<Record>, r: Record, added: seq<Record>)
    ensures before + [r] + added == before + ([r] + added)
    ensures r.passed && AllPassed(added) ==> AllPassed([r] + added)
  {
  }

  lemma {:induction false} RunRecords(f: File, plan: seq<Entry>, identity: string, completed: set<string>,
                                      oracle: nat -> Outcome, i: nat)
    returns (added: seq<Record>, at: seq<nat>)
    requires i <= |plan| && Read(RunFrom(f, plan, identity, completed, oracle, i).0).Some?
    ensures var (g, exit) := RunFrom(f, plan, identity, completed, oracle, i);
            && Read(f).Some? && Read(g).value == Read(f).value + added
            && Accounts(added, at, plan, identity, completed, oracle, i)
            && (exit == Done ==> AllRun(at, plan, completed, i) && AllPassed(added))
    decreases |plan| - i
  {
    RunExtends(f, plan, identity, completed, oracle, i);
    added, at := [], [];
    assert Read(f).value + [] == Read(f).value;
    if i < |plan| {
      var (g, stop) := Turn(f, plan[i], identity, completed, oracle(i));
      var r := TurnRecords(f, plan, identity, completed, oracle, i);
      if stop.None? {
        added, at := RunRecords(g, plan, identity, completed, oracle, i + 1);
        if plan[i].digest !in completed {
          AccountsCons(r, added, at, plan, identity, completed, oracle, i);
          Prepend(Read(f).value, r, added);
          added, at := [r] + added, [i] + at;
        }
      } else if Read(g).value != Read(f).value {
        AccountsCons(r, [], [], plan, identity, completed, oracle, i);
        assert [r] + [] == [r] && [i] + [] == [i];
        added, at := [r], [i];
      }
    }
  }

  /** What one invocation adds to a readable ledger: the justified records of positions no earlier record had passed
      under this identity, in plan order, each once; all such positions, and only passes, if it reports success. */
  lemma InvocationRecords(f: File, plan: seq<Entry>, identity: string, oracle: nat -> Outcome)
    returns (added: seq<Record>, at: seq<nat>)
    requires Read(Invoke(f, plan, identity, oracle).0).Some?
    ensures var (g, exit) := Invoke(f, plan, identity, oracle);
            && Read(f).Some? && Read(g).value == Read(f).value + added && |at| == |added|
            && (forall k :: 0 <= k < |at| ==> Justified(added[k], plan, identity, oracle, at[k]))
            && (forall k :: 0 <= k < |at| ==> !HasPassed(Read(f).value, identity, plan[at[k]]))
            && (forall j, k :: 0 <= j < k < |at| ==> at[j] < at[k])
            && (exit == Done ==> AllPassed(added))
            && (exit == Done ==>
                  forall j :: 0 <= j < |plan| && !HasPassed(Read(f).value, identity, plan[j]) ==> j in at)
  {
    var completed := Completed(Read(f).value, identity);
    added, at := RunRecords(f, plan, identity, completed, oracle, 0);
    forall j | 0 <= j < |plan|
      ensures plan[j].digest in completed <==> HasPassed(Read(f).value, identity, plan[j])
    {
      CompletedMeans(Read(f).value, identity, plan[j]);
    }
  }

  /** Position `i` is the first uncompleted one whose run does not pass. */
  ghost predicate StopsAt(plan: seq<Entry>, completed: set<string>, oracle: nat -> Outcome, from: nat, i: nat) {
    && from <= i < |plan| && plan[i].digest !in completed && !oracle(i).Pass?
    && forall j :: from <= j < i && plan[j].digest !in completed ==> oracle(j).Pass?
  }

  lemma {:induction false} RunExits(f: File, plan: seq<Entry>, identity: string, completed: set<string>,
                                    oracle: nat -> Outcome, i: nat)
    requires i <= |plan|
    ensures var exit := RunFrom(f, plan, identity, completed, oracle, i).1;
            && exit != Unreadable
            && (exit == Done <==> forall j :: i <= j < |plan| && plan[j].digest !in completed ==> oracle(j).Pass?)
            && (exit == Failed <==> exists j :: StopsAt(plan, completed, oracle, i, j) && oracle(j).Fail?)
    decreases |plan| - i
  {
    if i < |plan| {
      var (g, stop) := Turn(f, plan[i], identity, completed, oracle(i));
      if stop.None? {
        RunExits(g, plan, identity, completed, oracle, i + 1);
        forall j
          ensures StopsAt(plan, completed, oracle, i, j) <==> StopsAt(plan, completed, oracle, i + 1, j)
        {
        }
      } else {
        assert StopsAt(plan, completed, oracle, i, i);
      }
    }
  }

  /** An invocation exits as unreadable exactly on a ledger that does not read; as done exactly when every uncompleted
      entry passes; as failed exactly when the first one that does not pass fails. */
  lemma InvokeExits(f: File, plan: seq<Entry>, identity: string, oracle: nat -> Outcome)
    ensures var exit := Invoke(f, plan, identity, oracle).1;
            && (exit == Unreadable <==> Read(f).None?)
            && (Read(f).Some? ==>
                  var completed := Completed(Read(f).value, identity);
                  && (exit == Done <==>
                        forall j :: 0 <= j < |plan| && plan[j].digest !in completed ==> oracle(j).Pass?)
                  && (exit == Failed <==> exists j :: StopsAt(plan, completed, oracle, 0, j) && oracle(j).Fail?))
  {
    if Read(f).Some? {
      RunExits(f, plan, identity, Completed(Read(f).value, identity), oracle, 0);
    }
  }

  /** Every record of a shared ledger is justified by some position of some invocation. */
  lemma {:induction false} SessionsJustified(calls: seq<Invocation>, k: nat) returns (n: nat, i: nat)
    requires Read(Sessions(calls)).Some? && k < |Read(Sessions(calls)).value|
    ensures n < |calls|
            && Justified(Read(Sessions(calls)).value[k], calls[n].plan, calls[n].identity, calls[n].oracle, i)
  {
    var last := |calls| - 1;
    var front, call := Sessions(calls[..last]), calls[last];
    var added, at := InvocationRecords(front, call.plan, call.identity, call.oracle);
    if k < |Read(front).value| {
      n, i := SessionsJustified(calls[..last], k);
    } else {
      n, i := last, at[k - |Read(front).value|];
    }
  }

  // ---- When a successful resume leaves a readable ledger ----

  /** Some entry still has to run. */
  predicate Pending(plan: seq<Entry>, completed: set<string>, i: nat) {
    exists j :: i <= j < |plan| && plan[j].digest !in completed
  }

  lemma {:induction false} DoneReadable(f: File, plan: seq<Entry>, identity: string, completed: set<string>,
                                        oracle: nat -> Outcome, i: nat)
    requires i <= |plan| && Read(f).Some?
    requires RunFrom(f, plan, identity, completed, oracle, i).1 == Done
    ensures Read(RunFrom(f, plan, identity, completed, oracle, i).0).Some?
            <==> f.tail.Clean? || !Pending(plan, completed, i)
    decreases |plan| - i
  {
    if i < |plan| {
      if plan[i].digest in completed {
        DoneReadable(f, plan, identity, completed, oracle, i + 1);
        assert Pending(plan, completed, i) <==> Pending(plan, completed, i + 1);
      } else {
        assert Pending(plan, completed, i);
        var r := Record(plan[i], identity, true, oracle(i).evidence);
        var g := Append(f, r, Everything);
        ReadAppend(f, r, Everything);
        if f.tail.Clean? {
          DoneReadable(g, plan, identity, completed, oracle, i + 1);
        } else {
          assert Corrupt in f.lines + [Corrupt];
          RunKeepsUnreadable(g, plan, identity, completed, oracle, i + 1);
        }
      }
    }
  }

  /** An invocation that reports success leaves a readable ledger unless it found a complete record without its newline
      and still had an entry to run: the next record then lands on the same line. */
  lemma SuccessReadable(f: File, plan: seq<Entry>, identity: string, oracle: nat -> Outcome)
    requires Read(f).Some? && Invoke(f, plan, identity, oracle).1 == Done
    ensures Read(Invoke(f, plan, identity, oracle).0).Some?
            <==> f.tail.Clean? || !Pending(plan, Completed(Read(f).value, identity), 0)
  {
    DoneReadable(f, plan, identity, Completed(Read(f).value, identity), oracle, 0);
  }

  function CrashBeforeNewline(i: nat): Outcome {
    CrashAppending(true, NO_EVIDENCE, AllButNewline)
  }

  /** Such a ledger is reachable: a crash just before the newline of the first record leaves it readable, and the
      resumed invocation reports success with nothing readable any more. */
  lemma {:induction false} SuccessCanBeUnreadable(a: Entry, b: Entry, identity: string)
    requires a.digest != b.digest
    ensures var plan, crashed, resumed := [a, b], [CrashBeforeNewline], [CrashBeforeNewline, AlwaysPass];
            && Read(History(plan, identity, crashed)).Some?
            && Invoke(History(plan, identity, crashed), plan, identity, AlwaysPass).1 == Done
            && Read(History(plan, identity, resumed)).None?
  {
    var plan, crashed, resumed := [a, b], [CrashBeforeNewline], [CrashBeforeNewline, AlwaysPass];
    var r := Record(a, identity, true, NO_EVIDENCE);
    assert crashed[..0] == [] && resumed[..1] == crashed;
    assert History(plan, identity, []) == EMPTY_FILE;
    var f := History(plan, identity, crashed);
    assert f == File([], Unterminated(r));
    assert Read(f).value == [r];
    assert Completed(Read(f).value, identity) == {a.digest};
    SecondEntryRuns(f, plan, identity);
    assert History(plan, identity, resumed) == Invoke(f, plan, identity, AlwaysPass).0;
    assert Pending(plan, {a.digest}, 0) by {
      assert plan[1].digest !in {a.digest};
    }
    SuccessReadable(f, plan, identity, AlwaysPass);
  }

  lemma {:induction false} SecondEntryRuns(f: File, plan: seq<Entry>, identity: string)
    requires |plan| == 2
    ensures RunFrom(f, plan, identity, {plan[0].digest}, AlwaysPass, 0).1 == Done
  {
    var done := {plan[0].digest};
    var (g, stop) := Turn(f, plan[1], identity, done, AlwaysPass(1));
    assert RunFrom(g, plan, identity, done, AlwaysPass, 2).1 == Done;
    assert RunFrom(f, plan, identity, done, AlwaysPass, 1).1 == Done;
  }
}
