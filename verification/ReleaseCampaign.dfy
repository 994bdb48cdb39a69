/** A release campaign seen by its evaluator: what interruptions and failures do to the verdict. */
module ReleaseCampaign {
  import opened Wrappers
  import opened Campaign
  import opened Baseline

  /** A failed exit is final: whatever plans are invoked afterwards, under whatever identities, no later readable
      ledger is acceptable, whichever identity is asked for. */
  lemma {:induction false} FailureIsPermanent(pairs: seq<Pair>, routed: nat, calls: seq<Invocation>, n: nat,
                                              records: seq<Record>, identity: string, c: Checks)
    requires routed <= |pairs| && n < |calls| && FailsAt(calls, n)
    requires Read(Sessions(calls)) == Some(records)
    ensures !Acceptable(pairs, routed, records, identity, c)
  {
    FailureStays(calls, n);
    var i :| 0 <= i < |records| && !records[i].passed;
    TaintIsPermanent(pairs, routed, records, [], identity, c, i);
    assert records + [] == records;
  }

  // ---- An interrupted campaign still delivers the frozen order ----

  /** A plan that lists the pairs in matrix order, each in its ABBA order. */
  ghost predicate AbbaPlan(pairs: seq<Pair>, plan: seq<Entry>) {
    |plan| == 2 * |pairs| && forall i :: 0 <= i < |pairs| ==> AbbaAt(pairs[i], plan, 2 * i)
  }

  /** The two commands of a pair, from plan position `at`. */
  ghost predicate AbbaAt(p: Pair, plan: seq<Entry>, at: nat) {
    && at + 1 < |plan| && plan[at].cell == p.cell && plan[at + 1].cell == p.cell
    && [plan[at].engine, plan[at + 1].engine] == ExpectedOrder(p)
  }

  /** No two pairs share a cell, and the two engines of a pair differ. */
  ghost predicate DistinctPairs(pairs: seq<Pair>) {
    && (forall i, j :: 0 <= i < j < |pairs| ==> pairs[i].cell != pairs[j].cell)
    && (forall i :: 0 <= i < |pairs| ==> pairs[i].muser != pairs[i].llama)
  }

  /** The engines of a cell's entries among the first `n`, in order. */
  function EntryOrder(entries: seq<Entry>, n: nat, cell: Cell): seq<Engine>
    requires n <= |entries|
  {
    if n == 0 then []
    else EntryOrder(entries, n - 1, cell) + if entries[n - 1].cell == cell then [entries[n - 1].engine] else []
  }

  /** Only the first `n` entries matter. */
  lemma {:induction false} EntryOrderOfPrefix(a: seq<Entry>, b: seq<Entry>, n: nat, cell: Cell)
    requires n <= |a| && a <= b
    ensures EntryOrder(a, n, cell) == EntryOrder(b, n, cell)
  {
    if n > 0 {
      EntryOrderOfPrefix(a, b, n - 1, cell);
    }
  }

  lemma {:induction false} ObservedIsPassedOrder(records: seq<Record>, cell: Cell)
    ensures ObservedOrder(records, cell) == EntryOrder(Passed(records), |Passed(records)|, cell)
  {
    if |records| > 0 {
      var front, last := records[..|records| - 1], records[|records| - 1];
      ObservedIsPassedOrder(front, cell);
      EntryOrderOfPrefix(Passed(front), Passed(records), |Passed(front)|, cell);
      assert Passed(front) + [] == Passed(front) && ObservedOrder(front, cell) + [] == ObservedOrder(front, cell);
    }
  }

  /** The two commands of pair `p` add its expected order to its own cell and nothing to any other. */
  lemma PairAdds(p: Pair, plan: seq<Entry>, at: nat, cell: Cell, order: seq<Engine>)
    requires AbbaAt(p, plan, at) && order == EntryOrder(plan, at, cell)
    ensures p.cell != cell ==> EntryOrder(plan, at + 1, cell) == EntryOrder(plan, at + 2, cell) == order
    ensures p.cell == cell ==> EntryOrder(plan, at + 1, cell) == order + ExpectedOrder(p)[..1]
    ensures p.cell == cell ==> EntryOrder(plan, at + 2, cell) == order + ExpectedOrder(p)
  {
    var a, b := plan[at].engine, plan[at + 1].engine;
    assert [a, b] == ExpectedOrder(p) && [a, b][..1] == [a];
    assert order + [] == order;
    assert (order + [a]) + [b] == order + [a, b];
  }

  lemma SameCell(pairs: seq<Pair>, n: nat, i: nat)
    requires DistinctPairs(pairs) && n < |pairs| && i < |pairs|
    ensures pairs[n].cell == pairs[i].cell <==> n == i
  {
  }

  lemma {:induction false} WholePairs(pairs: seq<Pair>, plan: seq<Entry>, n: nat, i: nat)
    requires AbbaPlan(pairs, plan) && DistinctPairs(pairs) && n <= |pairs| && i < |pairs|
    ensures EntryOrder(plan, 2 * n, pairs[i].cell) == if n <= i then [] else ExpectedOrder(pairs[i])
  {
    if n > 0 {
      WholePairs(pairs, plan, n - 1, i);
      SameCell(pairs, n - 1, i);
      OnePair(pairs[n - 1], plan, 2 * (n - 1), pairs[i], EntryOrder(plan, 2 * (n - 1), pairs[i].cell));
    }
  }

  /** The step of `WholePairs`: a pair adds its order to its own cell only. */
  lemma OnePair(p: Pair, plan: seq<Entry>, at: nat, other: Pair, order: seq<Engine>)
    requires AbbaAt(p, plan, at) && order == EntryOrder(plan, at, other.cell)
    ensures p.cell != other.cell ==> EntryOrder(plan, at + 2, other.cell) == order
    ensures p.cell == other.cell && order == [] ==> EntryOrder(plan, at + 2, other.cell) == ExpectedOrder(p)
  {
    PairAdds(p, plan, at, other.cell, order);
    assert [] + ExpectedOrder(p) == ExpectedOrder(p);
  }

  lemma HalfPair(pairs: seq<Pair>, plan: seq<Entry>, n: nat, i: nat)
    requires AbbaPlan(pairs, plan) && DistinctPairs(pairs) && n < |pairs| && i < |pairs|
    ensures EntryOrder(plan, 2 * n + 1, pairs[i].cell)
            == if n < i then [] else if n == i then ExpectedOrder(pairs[i])[..1] else ExpectedOrder(pairs[i])
  {
    WholePairs(pairs, plan, n, i);
    SameCell(pairs, n, i);
    PairAdds(pairs[n], plan, 2 * n, pairs[i].cell, EntryOrder(plan, 2 * n, pairs[i].cell));
  }

  /** How many of the two entries of pair `i` lie before plan position `m`. */
  function Reached(m: nat, i: nat): (k: nat)
    ensures k <= 2
  {
    if m <= 2 * i then 0 else if m == 2 * i + 1 then 1 else 2
  }

  /** Among the first `m` entries of an ABBA plan, those of a cell are as much of its expected order as `m` reaches. */
  lemma {:induction false} PlanOrder(pairs: seq<Pair>, plan: seq<Entry>, m: nat, i: nat)
    requires AbbaPlan(pairs, plan) && DistinctPairs(pairs) && m <= |plan| && i < |pairs|
    ensures EntryOrder(plan, m, pairs[i].cell) == ExpectedOrder(pairs[i])[..Reached(m, i)]
  {
    var order := ExpectedOrder(pairs[i]);
    assert order[..0] == [] && order[..2] == order;
    if m % 2 == 0 {
      WholePairs(pairs, plan, m / 2, i);
    } else {
      HalfPair(pairs, plan, m / 2, i);
    }
  }

  /** However a campaign was interrupted, each cell of a readable ledger has been observed in a prefix of its order. */
  lemma {:induction false} InterruptedOrder(pairs: seq<Pair>, plan: seq<Entry>, identity: string,
                                            oracles: seq<nat -> Outcome>, records: seq<Record>, i: nat)
    requires AbbaPlan(pairs, plan) && DistinctPairs(pairs) && DistinctDigests(plan) && i < |pairs|
    requires Read(History(plan, identity, oracles)) == Some(records)
    ensures ObservedOrder(records, pairs[i].cell) <= ExpectedOrder(pairs[i])
  {
    var k := PassedIsPrefix(plan, identity, oracles);
    ObservedIsPassedOrder(records, pairs[i].cell);
    EntryOrderOfPrefix(plan[..k], plan, k, pairs[i].cell);
    PlanOrder(pairs, plan, k, i);
  }

  function Occurrences(engines: seq<Engine>, e: Engine): nat {
    if |engines| == 0 then 0
    else Occurrences(engines[..|engines| - 1], e) + if engines[|engines| - 1] == e then 1 else 0
  }

  lemma {:induction false} OccurrencesAppend(engines: seq<Engine>, x: Engine, e: Engine)
    ensures Occurrences(engines + [x], e) == Occurrences(engines, e) + if x == e then 1 else 0
  {
  }

  lemma {:induction false} PassedAtCounts(records: seq<Record>, k: Key)
    ensures |PassedAt(records, k)| == Occurrences(ObservedOrder(records, k.0), k.1)
  {
    if |records| > 0 {
      var front, last := records[..|records| - 1], records[|records| - 1];
      PassedAtCounts(front, k);
      OccurrencesAppend(ObservedOrder(front, k.0), last.entry.engine, k.1);
      assert ObservedOrder(front, k.0) + [] == ObservedOrder(front, k.0);
    }
  }

  lemma {:induction false} TwoEngines(a: Engine, b: Engine)
    requires a != b
    ensures Occurrences([a, b], a) == 1 && Occurrences([a, b], b) == 1
  {
    assert [a, b][..1] == [a] && [a][..0] == [];
    assert Occurrences([a], a) == 1 && Occurrences([a], b) == 0;
  }

  /** However often a campaign was interrupted, once an invocation reports success on a readable ledger, every pair was
      observed in its frozen ABBA order and every expected key passed exactly once. */
  lemma {:induction false} CampaignDeliversOrder(pairs: seq<Pair>, plan: seq<Entry>, identity: string,
                                                 oracles: seq<nat -> Outcome>, records: seq<Record>)
    requires AbbaPlan(pairs, plan) && DistinctPairs(pairs) && DistinctDigests(plan) && |oracles| > 0
    requires Invoke(History(plan, identity, oracles[..|oracles| - 1]), plan, identity, oracles[|oracles| - 1]).1 == Done
    requires Read(History(plan, identity, oracles)) == Some(records)
    ensures forall i :: 0 <= i < |pairs| ==> ObservedOrder(records, pairs[i].cell) == ExpectedOrder(pairs[i])
    ensures Complete(pairs, records)
  {
    var k := PassedIsPrefix(plan, identity, oracles);
    assert plan[..k] == plan;
    PlanDelivers(pairs, plan, records);
  }

  lemma {:induction false} PlanDelivers(pairs: seq<Pair>, plan: seq<Entry>, records: seq<Record>)
    requires AbbaPlan(pairs, plan) && DistinctPairs(pairs) && Passed(records) == plan
    ensures forall i :: 0 <= i < |pairs| ==> ObservedOrder(records, pairs[i].cell) == ExpectedOrder(pairs[i])
    ensures Complete(pairs, records)
  {
    forall i | 0 <= i < |pairs|
      ensures ObservedOrder(records, pairs[i].cell) == ExpectedOrder(pairs[i])
    {
      ObservedIsPassedOrder(records, pairs[i].cell);
      WholePairs(pairs, plan, |pairs|, i);
    }
    forall key | Expected(pairs, key)
      ensures |PassedAt(records, key)| == 1
    {
      var i :| 0 <= i < |pairs| && key.0 == pairs[i].cell && (key.1 == pairs[i].muser || key.1 == pairs[i].llama);
      OrderedPassesOnce(pairs[i], records, key);
    }
  }

  lemma {:induction false} OrderedPassesOnce(p: Pair, records: seq<Record>, key: Key)
    requires p.muser != p.llama && ObservedOrder(records, p.cell) == ExpectedOrder(p)
    requires key.0 == p.cell && (key.1 == p.muser || key.1 == p.llama)
    ensures |PassedAt(records, key)| == 1
  {
    PassedAtCounts(records, key);
    TwoEngines(p.muser, p.llama);
    TwoEngines(p.llama, p.muser);
  }

  lemma {:induction false} PassedHas(records: seq<Record>, i: nat)
    requires i < |records| && records[i].passed
    ensures records[i].entry in Passed(records)
  {
    var n := |records| - 1;
    if i < n {
      PassedHas(records[..n], i);
    }
  }

  lemma PlannedIsExpected(pairs: seq<Pair>, plan: seq<Entry>, e: Entry)
    requires AbbaPlan(pairs, plan) && e in plan
    ensures Expected(pairs, (e.cell, e.engine))
  {
    var k :| 0 <= k < |plan| && plan[k] == e;
    var p := pairs[k / 2];
    assert AbbaAt(p, plan, 2 * (k / 2));
    assert k == 2 * (k / 2) || k == 2 * (k / 2) + 1;
    assert p in pairs;
    assert e.engine in ExpectedOrder(p);
  }

  lemma FrozenPairsDistinct()
    ensures DistinctPairs(FrozenMatrix().pairs)
  {
    DepthsDistinct();
  }

  /** The ledger of a successful release campaign is complete for the frozen matrix, it is clean exactly when it holds
      no failed record, and then the verdict rests on the rows alone. */
  lemma {:induction false} CampaignDecidedByRows(plan: seq<Entry>, identity: string, oracles: seq<nat -> Outcome>,
                                                 records: seq<Record>, c: Checks)
    requires AbbaPlan(FrozenMatrix().pairs, plan) && DistinctDigests(plan) && |oracles| > 0
    requires Invoke(History(plan, identity, oracles[..|oracles| - 1]), plan, identity, oracles[|oracles| - 1]).1 == Done
    requires Read(History(plan, identity, oracles)) == Some(records)
    ensures Complete(FrozenMatrix().pairs, records) && HasPairs(FrozenMatrix().pairs, records)
    ensures RecordsClean(FrozenMatrix().pairs, records, identity) <==> !HasFailure(records)
    ensures Acceptable(FrozenMatrix().pairs, FrozenMatrix().routed, records, identity, c) <==>
              !HasFailure(records) && RowsAcceptable(Rows(FrozenMatrix().pairs, records), FrozenMatrix().routed, c)
  {
    FrozenPairsDistinct();
    DecidedByRows(FrozenMatrix().pairs, FrozenMatrix().routed, plan, identity, oracles, records, c);
  }

  lemma {:induction false} DecidedByRows(pairs: seq<Pair>, routed: nat, plan: seq<Entry>, identity: string,
                                         oracles: seq<nat -> Outcome>, records: seq<Record>, c: Checks)
    requires routed <= |pairs| && DistinctPairs(pairs)
    requires AbbaPlan(pairs, plan) && DistinctDigests(plan) && |oracles| > 0
    requires Invoke(History(plan, identity, oracles[..|oracles| - 1]), plan, identity, oracles[|oracles| - 1]).1 == Done
    requires Read(History(plan, identity, oracles)) == Some(records)
    ensures Complete(pairs, records) && HasPairs(pairs, records)
    ensures RecordsClean(pairs, records, identity) <==> !HasFailure(records)
    ensures Acceptable(pairs, routed, records, identity, c) <==>
              !HasFailure(records) && RowsAcceptable(Rows(pairs, records), routed, c)
  {
    CampaignDeliversOrder(pairs, plan, identity, oracles, records);
    CompleteHasPairs(pairs, records);
    var k := PassedIsPrefix(plan, identity, oracles);
    forall i | 0 <= i < |records| && records[i].passed
      ensures Expected(pairs, KeyOf(records[i])) && records[i].identity == identity
    {
      PassedHas(records, i);
      PlannedIsExpected(pairs, plan, records[i].entry);
    }
  }

  // ---- The release plan ----

  /** The commands of the pairs in matrix order, each pair in its ABBA order. A command names its cell and its engine,
      so its digest is a function of the two. */
  function PlanOf(pairs: seq<Pair>, digest: Key -> string): (plan: seq<Entry>)
    ensures |plan| == 2 * |pairs|
  {
    seq(2 * |pairs|, k requires 0 <= k < 2 * |pairs| =>
      var cell, engine := pairs[k / 2].cell, ExpectedOrder(pairs[k / 2])[k % 2];
      Entry(cell, engine, digest((cell, engine))))
  }

  lemma PlanOfIsAbba(pairs: seq<Pair>, digest: Key -> string)
    ensures AbbaPlan(pairs, PlanOf(pairs, digest))
  {
    forall i | 0 <= i < |pairs|
      ensures AbbaAt(pairs[i], PlanOf(pairs, digest), 2 * i)
    {
      assert (2 * i + 1) / 2 == i && (2 * i) / 2 == i;
    }
  }

  ghost predicate Injective(digest: Key -> string) {
    forall a, b :: digest(a) == digest(b) ==> a == b
  }

  lemma PlanOfDistinct(pairs: seq<Pair>, digest: Key -> string)
    requires DistinctPairs(pairs) && Injective(digest)
    ensures DistinctDigests(PlanOf(pairs, digest))
  {
    var plan := PlanOf(pairs, digest);
    forall i, j | 0 <= i < j < |plan|
      ensures plan[i].digest != plan[j].digest
    {
      KeysDiffer(pairs, i, j);
      assert plan[i].digest == digest((plan[i].cell, plan[i].engine));
      assert plan[j].digest == digest((plan[j].cell, plan[j].engine));
    }
  }

  lemma KeysDiffer(pairs: seq<Pair>, i: nat, j: nat)
    requires DistinctPairs(pairs) && i < j < 2 * |pairs|
    ensures pairs[i / 2].cell != pairs[j / 2].cell
            || ExpectedOrder(pairs[i / 2])[i % 2] != ExpectedOrder(pairs[j / 2])[j % 2]
  {
    if i / 2 == j / 2 {
      assert i % 2 == 0 && j % 2 == 1;
    }
  }

  /** The release plan, under any digest that tells its commands apart, meets the premises of the campaign theorems. */
  lemma ReleasePlanFits(digest: Key -> string)
    requires Injective(digest)
    ensures var plan := PlanOf(FrozenMatrix().pairs, digest);
            AbbaPlan(FrozenMatrix().pairs, plan) && DistinctPairs(FrozenMatrix().pairs) && DistinctDigests(plan)
  {
    FrozenPairsDistinct();
    PlanOfIsAbba(FrozenMatrix().pairs, digest);
    PlanOfDistinct(FrozenMatrix().pairs, digest);
  }

  /** In each block of four consecutive pairs the first and the last start with muser, the two between with llama. */
  lemma AbbaBlocks(p: Pair, block: nat)
    ensures p.index == 4 * block || p.index == 4 * block + 3 ==> ExpectedOrder(p) == [p.muser, p.llama]
    ensures p.index == 4 * block + 1 || p.index == 4 * block + 2 ==> ExpectedOrder(p) == [p.llama, p.muser]
  {
  }

  /** Which cells of a lane sequence start with muser, listed. */
  const MUSER_FIRST := [true, false, false, true, true, false, false, true, true,
                        false, false, true, true, false, false, true, true, false]

  lemma ListedOrder(p: Pair)
    requires p.index < 18
    ensures ExpectedOrder(p) == if MUSER_FIRST[p.index] then [p.muser, p.llama] else [p.llama, p.muser]
  {
    AbbaBlocks(p, p.index / 4);
  }

  /** The pairs of the release matrix, listed: nine prefill cells, nine decode cells that go on with their alternation,
      and nine TTFT cells that start it again. */
  function ListedPair(k: nat): (p: Pair)
    requires k < 27
    ensures p.index < 18
  {
    if k < 9 then Pair(Cell(Prefill, PREFILL[k]), k, Muser, Llama)
    else if k < 18 then Pair(Cell(Decode, DECODE[k - 9]), k, Muser, Llama)
    else Pair(Cell(Ttft, TTFT[k - 18]), k - 18, TtftMuser, TtftLlama)
  }

  lemma FrozenIsListed(k: nat)
    requires k < 27
    ensures |FrozenMatrix().pairs| == 27 && FrozenMatrix().pairs[k] == ListedPair(k)
    ensures k < FrozenMatrix().routed <==> !FrozenMatrix().pairs[k].cell.surface.Ttft?
  {
  }

  /** Two consecutive entries of a plan are the commands of `p` in the listed order. */
  ghost predicate IsListed(plan: seq<Entry>, at: nat, p: Pair)
    requires p.index < 18
  {
    && at + 1 < |plan| && plan[at].cell == plan[at + 1].cell == p.cell
    && plan[at].engine == (if MUSER_FIRST[p.index] then p.muser else p.llama)
    && plan[at + 1].engine == (if MUSER_FIRST[p.index] then p.llama else p.muser)
  }

  lemma PlanOfListed(pairs: seq<Pair>, digest: Key -> string, i: nat)
    requires i < |pairs| && pairs[i].index < 18
    ensures IsListed(PlanOf(pairs, digest), 2 * i, pairs[i])
  {
    assert (2 * i) / 2 == i && (2 * i + 1) / 2 == i;
    ListedOrder(pairs[i]);
  }

  /** The release plan has 54 commands: the listed pairs in order, each in its listed order. */
  lemma FrozenOrder(digest: Key -> string, k: nat)
    requires k < 27
    ensures |PlanOf(FrozenMatrix().pairs, digest)| == 54
    ensures IsListed(PlanOf(FrozenMatrix().pairs, digest), 2 * k, ListedPair(k))
  {
    FrozenIsListed(k);
    PlanOfListed(FrozenMatrix().pairs, digest, k);
  }

  /** The depths of the three lanes, listed. */
  lemma FrozenDepths()
    ensures PREFILL == [128, 512, 2048, 4096, 8192, 16384, 32768, 65536, 131072]
    ensures DECODE == [0, 512, 2048, 4096, 8192, 16384, 32768, 65536, 131008]
    ensures TTFT == [128, 512, 2048, 4096, 8192, 16384, 32768, 65536, 131008]
  {
  }

  // ---- Packets that raise, and one that passes ----

  /** The evaluator never looks at digests. */
  function NoDigest(k: Key): string {
    ""
  }

  /** A packet in which every planned command passed with the same evidence. */
  function PacketOf(pairs: seq<Pair>, identity: string, evidence: Evidence): (records: seq<Record>)
    ensures |records| == 2 * |pairs|
  {
    seq(2 * |pairs|, k requires 0 <= k < 2 * |pairs| => Record(PlanOf(pairs, NoDigest)[k], identity, true, evidence))
  }

  lemma {:induction false} PassedOfAll(records: seq<Record>, n: nat)
    requires n <= |records| && forall i :: 0 <= i < |records| ==> records[i].passed
    ensures |Passed(records[..n])| == n && forall i :: 0 <= i < n ==> Passed(records[..n])[i] == records[i].entry
  {
    if n > 0 {
      PassedOfAll(records, n - 1);
      assert records[..n][..n - 1] == records[..n - 1];
    }
  }

  lemma {:induction false} PassedAtMember(records: seq<Record>, k: Key, r: Record)
    requires r in PassedAt(records, k)
    ensures r in records
  {
    var last := records[|records| - 1];
    if r != last {
      PassedAtMember(records[..|records| - 1], k, r);
    }
  }

  lemma PacketDelivers(pairs: seq<Pair>, identity: string, evidence: Evidence)
    requires DistinctPairs(pairs)
    ensures var records := PacketOf(pairs, identity, evidence);
            && RecordsClean(pairs, records, identity) && Complete(pairs, records) && HasPairs(pairs, records)
            && forall i :: 0 <= i < |pairs| ==> ObservedOrder(records, pairs[i].cell) == ExpectedOrder(pairs[i])
  {
    var records := PacketOf(pairs, identity, evidence);
    PlanOfIsAbba(pairs, NoDigest);
    PacketPassed(pairs, identity, evidence);
    PlanDelivers(pairs, PlanOf(pairs, NoDigest), records);
    CompleteHasPairs(pairs, records);
    PacketClean(pairs, identity, evidence);
  }

  lemma PacketPassed(pairs: seq<Pair>, identity: string, evidence: Evidence)
    ensures Passed(PacketOf(pairs, identity, evidence)) == PlanOf(pairs, NoDigest)
  {
    var records := PacketOf(pairs, identity, evidence);
    PassedOfAll(records, |records|);
    assert records[..|records|] == records;
  }

  lemma PacketClean(pairs: seq<Pair>, identity: string, evidence: Evidence)
    requires AbbaPlan(pairs, PlanOf(pairs, NoDigest))
    ensures RecordsClean(pairs, PacketOf(pairs, identity, evidence), identity)
  {
    var records := PacketOf(pairs, identity, evidence);
    forall i | 0 <= i < |records|
      ensures Expected(pairs, KeyOf(records[i]))
    {
      PlannedIsExpected(pairs, PlanOf(pairs, NoDigest), PlanOf(pairs, NoDigest)[i]);
    }
  }

  ghost predicate RowHolds(r: Row, evidence: Evidence) {
    r.muser.evidence == r.llama.evidence == evidence && r.observed == ExpectedOrder(r.pair)
  }

  ghost predicate AllHold(rows: seq<Row>, evidence: Evidence) {
    forall i :: 0 <= i < |rows| ==> RowHolds(rows[i], evidence)
  }

  /** Each row of a uniform packet is in order and holds that evidence twice. */
  lemma PacketRows(pairs: seq<Pair>, identity: string, evidence: Evidence)
    requires HasPairs(pairs, PacketOf(pairs, identity, evidence))
    requires forall i :: 0 <= i < |pairs| ==>
               ObservedOrder(PacketOf(pairs, identity, evidence), pairs[i].cell) == ExpectedOrder(pairs[i])
    ensures AllHold(Rows(pairs, PacketOf(pairs, identity, evidence)), evidence)
  {
    var records := PacketOf(pairs, identity, evidence);
    forall i | 0 <= i < |pairs|
      ensures RowHolds(RowOf(records, pairs[i]), evidence)
    {
      var p, row := pairs[i], RowOf(records, pairs[i]);
      PassedAtMember(records, (p.cell, p.muser), row.muser);
      PassedAtMember(records, (p.cell, p.llama), row.llama);
    }
  }

  lemma {:induction false} ConstantSamples(s: seq<int>, x: int)
    requires forall i :: 0 <= i < |s| ==> s[i] == x
    ensures Sum(s) == |s| * x && SquaredDeviation(s, x as real) == 0.0
  {
    if |s| > 0 {
      ConstantSamples(s[1..], x);
      assert |s| * x == x + (|s| - 1) * x;
    }
  }

  const ZEROS: seq<int> := [0, 0, 0, 0, 0]
  const ONES: seq<int> := [1, 1, 1, 1, 1]

  lemma ListedSamples()
    ensures Mean(ZEROS) == 0.0 && Mean(ONES) == 1.0 && Variance(ONES) == 0.0
  {
    ConstantSamples(ZEROS, 0);
    ConstantSamples(ONES, 1);
  }

  /** Without fingerprints a complete packet raises as soon as one cell is routed, whatever its timings. */
  lemma RaisesWithoutFingerprints(matrix: Matrix, identity: string, samples: Option<seq<int>>, c: Checks)
    requires DistinctPairs(matrix.pairs) && 0 < matrix.routed <= |matrix.pairs|
    ensures Raises(matrix, PacketOf(matrix.pairs, identity, Evidence(None, samples)), c)
  {
    var records := PacketOf(matrix.pairs, identity, Evidence(None, samples));
    PacketDelivers(matrix.pairs, identity, Evidence(None, samples));
    PacketRows(matrix.pairs, identity, Evidence(None, samples));
    assert RowHolds(Rows(matrix.pairs, records)[0], Evidence(None, samples));
    assert RowRaises(Rows(matrix.pairs, records)[0], true, c);
  }

  /** With zero samples a complete packet raises, whatever its fingerprints. */
  lemma RaisesOnZeroMean(matrix: Matrix, identity: string, fingerprint: Option<map<string, string>>,
                         workload: (Record, Record, Cell) -> bool, route: Record -> string)
    requires DistinctPairs(matrix.pairs) && |matrix.pairs| > 0
    ensures Raises(matrix, PacketOf(matrix.pairs, identity, Evidence(fingerprint, Some(ZEROS))),
                   ReleaseChecks(workload, route))
  {
    var evidence, c := Evidence(fingerprint, Some(ZEROS)), ReleaseChecks(workload, route);
    var records := PacketOf(matrix.pairs, identity, evidence);
    PacketDelivers(matrix.pairs, identity, evidence);
    PacketRows(matrix.pairs, identity, evidence);
    ListedSamples();
    var row := Rows(matrix.pairs, records)[0];
    assert RowHolds(row, evidence);
    assert !Measurable(row.muser, row.llama);
    assert RowRaises(row, 0 < matrix.routed, c);
  }

  /** The evaluator is not vacuous: with steady samples, present fingerprints and one route, a packet passes. */
  lemma PassingPacket(matrix: Matrix, identity: string)
    requires DistinctPairs(matrix.pairs) && matrix.routed <= |matrix.pairs|
    ensures Acceptable(matrix.pairs, matrix.routed,
                       PacketOf(matrix.pairs, identity, Evidence(Some(map[]), Some(ONES))), identity,
                       ReleaseChecks((_, _, _) => true, _ => ""))
  {
    var evidence, c := Evidence(Some(map[]), Some(ONES)), ReleaseChecks((_, _, _) => true, _ => "");
    PacketDelivers(matrix.pairs, identity, evidence);
    PacketRows(matrix.pairs, identity, evidence);
    var rows := Rows(matrix.pairs, PacketOf(matrix.pairs, identity, evidence));
    forall i | 0 <= i < |rows|
      ensures RowPasses(rows[i], i < matrix.routed, c)
    {
      assert RowHolds(rows[i], evidence);
      SteadyRowPasses(rows[i], i < matrix.routed);
    }
    OneRoute(MuserRoutes(rows[..matrix.routed], c));
    OneRoute(LlamaRoutes(rows[..matrix.routed], c));
  }

  lemma SteadyRowPasses(r: Row, routed: bool)
    requires RowHolds(r, Evidence(Some(map[]), Some(ONES)))
    ensures RowPasses(r, routed, ReleaseChecks((_, _, _) => true, _ => ""))
  {
    ListedSamples();
  }

  lemma OneRoute(routes: set<string>)
    requires routes <= {""}
    ensures |routes| <= 1
  {
    assert routes == {} || routes == {""};
  }

  /** All three kinds of packet exist for the frozen matrix. */
  lemma FrozenPackets(identity: string, workload: (Record, Record, Cell) -> bool, route: Record -> string)
    ensures Raises(FrozenMatrix(), PacketOf(FrozenMatrix().pairs, identity, Evidence(None, Some(ONES))),
                   ReleaseChecks(workload, route))
    ensures Raises(FrozenMatrix(), PacketOf(FrozenMatrix().pairs, identity, Evidence(Some(map[]), Some(ZEROS))),
                   ReleaseChecks(workload, route))
    ensures Acceptable(FrozenMatrix().pairs, FrozenMatrix().routed,
                       PacketOf(FrozenMatrix().pairs, identity, Evidence(Some(map[]), Some(ONES))), identity,
                       ReleaseChecks((_, _, _) => true, _ => ""))
  {
    FrozenPairsDistinct();
    RaisesWithoutFingerprints(FrozenMatrix(), identity, Some(ONES), ReleaseChecks(workload, route));
    RaisesOnZeroMean(FrozenMatrix(), identity, Some(map[]), workload, route);
    PassingPacket(FrozenMatrix(), identity);
  }
}
