/** The fail-closed evaluator of one complete baseline campaign packet. */
module Baseline {
  import opened Arithmetic
  import opened Campaign

  const PREFILL: seq<nat> := [128, 512, 2048, 4096, 8192, 16384, 32768, 65536, 131072]
  const DECODE: seq<nat> := [0, 512, 2048, 4096, 8192, 16384, 32768, 65536, 131008]
  const TTFT: seq<nat> := [128, 512, 2048, 4096, 8192, 16384, 32768, 65536, 131008]

  /** A muser/llama pair of one cell; `index` is its position in the ABBA sequence of its lane. */
  datatype Pair = Pair(cell: Cell, index: nat, muser: Engine, llama: Engine)

  function LanePairs(surface: Surface, depths: seq<nat>, first: nat, muser: Engine, llama: Engine): (r: seq<Pair>)
    ensures |r| == |depths|
  {
    seq(|depths|, i requires 0 <= i < |depths| => Pair(Cell(surface, depths[i]), first + i, muser, llama))
  }

  /** A measurement matrix: its pairs, how many of them (from the front) are checked for one route per engine, the
      number of stable pairs each lane needs, and the cells that must be among them. */
  datatype Matrix = Matrix(pairs: seq<Pair>, routed: nat, laneSize: nat, required: set<Cell>)
  {
    /** Every lane has as many cells as it needs stable ones, and the required cells are in the matrix. */
    ghost predicate Consistent() {
      && routed <= |pairs| && required <= PairCells(pairs)
      && forall s :: s in LANES ==> |LaneCells(PairCells(pairs), s)| == laneSize
    }
  }

  const LANES := {Prefill, Decode, Ttft}

  function PairCells(pairs: seq<Pair>): set<Cell> {
    set p | p in pairs :: p.cell
  }

  function LaneCells(cells: set<Cell>, s: Surface): set<Cell> {
    set c | c in cells && c.surface == s
  }

  /** The frozen release matrix: prefill and decode share one ABBA sequence, TTFT has its own. */
  function FrozenMatrix(): Matrix {
    Matrix(
      LanePairs(Prefill, PREFILL, 0, Muser, Llama) + LanePairs(Decode, DECODE, 9, Muser, Llama)
      + LanePairs(Ttft, TTFT, 0, TtftMuser, TtftLlama),
      18, 9,
      {Cell(Prefill, 128), Cell(Prefill, 8192), Cell(Prefill, 32768), Cell(Prefill, 131072),
       Cell(Decode, 0), Cell(Decode, 8192), Cell(Decode, 32768), Cell(Decode, 131008),
       Cell(Ttft, 128), Cell(Ttft, 8192), Cell(Ttft, 32768), Cell(Ttft, 131008)})
  }

  function ExpectedOrder(p: Pair): seq<Engine> {
    if p.index % 4 == 1 || p.index % 4 == 2 then [p.llama, p.muser] else [p.muser, p.llama]
  }

  // ---- Statistics ----

  function Sum(values: seq<int>): int {
    if |values| == 0 then 0 else values[0] + Sum(values[1..])
  }

  function Mean(values: seq<int>): real
    requires |values| > 0
  {
    Sum(values) as real / |values| as real
  }

  function SquaredDeviation(values: seq<int>, average: real): real {
    if |values| == 0 then 0.0
    else (values[0] as real - average) * (values[0] as real - average) + SquaredDeviation(values[1..], average)
  }

  /** The squared numerator of the coefficient of variation. */
  function Variance(values: seq<int>): real
    requires |values| > 0
  {
    SquaredDeviation(values, Mean(values)) / |values| as real
  }

  /** `cv(values) <= 0.03` without the square root; `CvCriterion` states that it is the same test. */
  predicate Stable(values: seq<int>)
    requires |values| > 0 && Mean(values) != 0.0
  {
    Mean(values) < 0.0 || Variance(values) <= (0.03 * Mean(values)) * (0.03 * Mean(values))
  }

  lemma {:induction false} SumLaw(a: seq<int>, b: seq<int>)
    ensures Sum(a + b) == Sum(a) + Sum(b)
    ensures |a| == 1 ==> Sum(a) == a[0]
  {
    if |a| > 0 {
      assert (a + b)[1..] == a[1..] + b;
      SumLaw(a[1..], b);
    } else {
      assert a + b == b;
    }
  }

  function SumOfSquares(values: seq<int>): real {
    if |values| == 0 then 0.0 else values[0] as real * values[0] as real + SumOfSquares(values[1..])
  }

  /** `squares - 2 m sum + n m^2`. */
  function Expanded(m: real, squares: real, sum: real, n: real): real {
    squares - 2.0 * (m * sum) + n * (m * m)
  }

  lemma ExpandedStep(v: real, m: real, squares: real, sum: real, n: real)
    ensures (v - m) * (v - m) + Expanded(m, squares, sum, n) == Expanded(m, v * v + squares, v + sum, n + 1.0)
  {
    assert (v - m) * (v - m) == v * v - 2.0 * (m * v) + m * m;
    assert m * (v + sum) == m * v + m * sum;
    assert (n + 1.0) * (m * m) == n * (m * m) + m * m;
  }

  lemma {:induction false} DeviationExpands(values: seq<int>, m: real)
    ensures SquaredDeviation(values, m) == Expanded(m, SumOfSquares(values), Sum(values) as real, |values| as real)
  {
    if |values| > 0 {
      var rest := values[1..];
      DeviationExpands(rest, m);
      assert Sum(values) as real == values[0] as real + Sum(rest) as real;
      ExpandedStep(values[0] as real, m, SumOfSquares(rest), Sum(rest) as real, |rest| as real);
    }
  }

  lemma DividedBack(x: real, n: real)
    requires n != 0.0
    ensures x / n * n == x
  {
  }

  lemma ExpandedAtMean(m: real, squares: real, sum: real, n: real)
    requires m * n == sum
    ensures Expanded(m, squares, sum, n) == squares - n * (m * m)
  {
    assert m * sum == n * (m * m);
  }

  /** The mean divides the sum by the count. */
  lemma {:induction false} MeanLaw(values: seq<int>)
    requires |values| > 0
    ensures Mean(values) * |values| as real == Sum(values) as real
  {
    DividedBack(Sum(values) as real, |values| as real);
  }

  /** The variance divides the squared deviations from the mean by the count. */
  lemma {:induction false} VarianceLaw(values: seq<int>, deviation: real)
    requires |values| > 0 && deviation == SquaredDeviation(values, Mean(values))
    ensures Variance(values) * |values| as real == deviation
  {
    DividedBack(deviation, |values| as real);
    assert Variance(values) == deviation / |values| as real;
  }

  /** The squared deviations from the mean are the squares less the count times the squared mean. */
  lemma {:induction false} DeviationLaw(values: seq<int>, m: real)
    requires m * |values| as real == Sum(values) as real
    ensures SquaredDeviation(values, m) == SumOfSquares(values) - |values| as real * (m * m)
  {
    DeviationExpands(values, m);
    ExpandedAtMean(m, SumOfSquares(values), Sum(values) as real, |values| as real);
  }

  lemma CvCriterion(values: seq<int>, root: real)
    requires |values| > 0 && Mean(values) != 0.0 && root >= 0.0 && root * root == Variance(values)
    ensures root / Mean(values) <= 0.03 <==> Stable(values)
  {
    RootCriterion(root, Mean(values));
  }

  lemma RootCriterion(root: real, average: real)
    requires average != 0.0 && root >= 0.0
    ensures root / average <= 0.03 <==> average < 0.0 || root * root <= (0.03 * average) * (0.03 * average)
  {
    var q := root / average;
    assert q * average == root;
    if average > 0.0 {
      SquareOrder(root, 0.03 * average);
      ScaleOrder(q, 0.03, average);
    } else {
      ScaleOrder(0.0, q, -average);
    }
  }

  lemma ScaleOrder(a: real, b: real, w: real)
    requires w > 0.0
    ensures a <= b <==> a * w <= b * w
  {
  }

  // ---- What a packet must be ----

  type Key = (Cell, Engine)

  function KeyOf(r: Record): Key {
    (r.entry.cell, r.entry.engine)
  }

  predicate Expected(pairs: seq<Pair>, k: Key) {
    exists p :: p in pairs && k.0 == p.cell && (k.1 == p.muser || k.1 == p.llama)
  }

  /** The passed records of one key, in ledger order. */
  function PassedAt(records: seq<Record>, k: Key): seq<Record> {
    if |records| == 0 then []
    else
      var last := records[|records| - 1];
      PassedAt(records[..|records| - 1], k) + if last.passed && KeyOf(last) == k then [last] else []
  }

  /** The engines of a cell's passed records, in ledger order. */
  function ObservedOrder(records: seq<Record>, cell: Cell): seq<Engine> {
    if |records| == 0 then []
    else
      var last := records[|records| - 1];
      ObservedOrder(records[..|records| - 1], cell)
      + if last.passed && last.entry.cell == cell then [last.entry.engine] else []
  }

  /** The tests of a pair of records: whether they measured the same bound workload, the route a fingerprint projects
      to, and the timing tests. */
  datatype Checks = Checks(
    workload: (Record, Record, Cell) -> bool, route: Record -> string,
    measurable: (Record, Record) -> bool, stable: (Record, Record) -> bool, notSlower: (Record, Record) -> bool)

  /** The release tests, for any workload and route projections of the evidence. */
  function ReleaseChecks(workload: (Record, Record, Cell) -> bool, route: Record -> string): Checks {
    Checks(workload, route,
           (m, l) => Measurable(m, l),
           (m, l) => Measurable(m, l) && PairStable(m, l),
           (m, l) => Measurable(m, l) && NotSlower(m, l))
  }

  predicate FiveSamples(r: Record) {
    r.evidence.rawNs.Some? && |r.evidence.rawNs.value| == 5
  }

  /** Both lists have five samples and a mean to divide by. */
  predicate Measurable(m: Record, l: Record) {
    FiveSamples(m) && FiveSamples(l) && Mean(m.evidence.rawNs.value) != 0.0 && Mean(l.evidence.rawNs.value) != 0.0
  }

  predicate PairStable(m: Record, l: Record)
    requires Measurable(m, l)
  {
    Stable(m.evidence.rawNs.value) && Stable(l.evidence.rawNs.value)
  }

  predicate NotSlower(m: Record, l: Record)
    requires Measurable(m, l)
  {
    Mean(l.evidence.rawNs.value) / Mean(m.evidence.rawNs.value) >= 1.0
  }

  /** Every expected key has exactly one passed record. */
  ghost predicate Complete(pairs: seq<Pair>, records: seq<Record>) {
    forall k :: Expected(pairs, k) ==> |PassedAt(records, k)| == 1
  }

  predicate HasPair(records: seq<Record>, p: Pair) {
    |PassedAt(records, (p.cell, p.muser))| == 1 && |PassedAt(records, (p.cell, p.llama))| == 1
  }

  ghost predicate HasPairs(pairs: seq<Pair>, records: seq<Record>) {
    forall i :: 0 <= i < |pairs| ==> HasPair(records, pairs[i])
  }

  lemma CompleteHasPairs(pairs: seq<Pair>, records: seq<Record>)
    requires Complete(pairs, records)
    ensures HasPairs(pairs, records)
  {
  }

  /** What the packet holds for one pair: its two passed records and the order they were observed in. */
  datatype Row = Row(pair: Pair, muser: Record, llama: Record, observed: seq<Engine>)

  function RowOf(records: seq<Record>, p: Pair): Row
    requires HasPair(records, p)
  {
    Row(p, PassedAt(records, (p.cell, p.muser))[0], PassedAt(records, (p.cell, p.llama))[0],
        ObservedOrder(records, p.cell))
  }

  function Rows(pairs: seq<Pair>, records: seq<Record>): (rows: seq<Row>)
    requires HasPairs(pairs, records)
    ensures |rows| == |pairs|
  {
    seq(|pairs|, i requires 0 <= i < |pairs| => RowOf(records, pairs[i]))
  }

  predicate Fingerprinted(r: Row) {
    r.muser.evidence.fingerprint.Some? && r.llama.evidence.fingerprint.Some?
  }

  /** One cell passes: ABBA order, one bound workload, five stable samples each, muser no slower than llama, and both
      fingerprints present where the routes are compared. */
  ghost predicate RowPasses(r: Row, routed: bool, c: Checks) {
    && (routed ==> Fingerprinted(r))
    && r.observed == ExpectedOrder(r.pair)
    && c.workload(r.muser, r.llama, r.pair.cell)
    && FiveSamples(r.muser) && FiveSamples(r.llama)
    && c.measurable(r.muser, r.llama) && c.stable(r.muser, r.llama) && c.notSlower(r.muser, r.llama)
  }

  /** Evaluating this cell reads an absent fingerprint, which only the routed cells need, or divides by a zero mean. */
  ghost predicate RowRaises(r: Row, routed: bool, c: Checks) {
    || (routed && !Fingerprinted(r))
    || (FiveSamples(r.muser) && FiveSamples(r.llama) && !c.measurable(r.muser, r.llama))
  }

  ghost predicate NoneRaises(rows: seq<Row>, routed: nat, c: Checks) {
    forall i :: 0 <= i < |rows| ==> !RowRaises(rows[i], i < routed, c)
  }

  ghost predicate AllPass(rows: seq<Row>, routed: nat, c: Checks) {
    forall i :: 0 <= i < |rows| ==> RowPasses(rows[i], i < routed, c)
  }

  function MuserRoutes(rows: seq<Row>, c: Checks): set<string> {
    set r | r in rows :: c.route(r.muser)
  }

  function LlamaRoutes(rows: seq<Row>, c: Checks): set<string> {
    set r | r in rows :: c.route(r.llama)
  }

  function Cells(rows: seq<Row>): set<Cell> {
    set r | r in rows :: r.pair.cell
  }

  ghost predicate RecordsClean(pairs: seq<Pair>, records: seq<Record>, identity: string) {
    forall i :: 0 <= i < |records| ==>
      records[i].passed && Expected(pairs, KeyOf(records[i])) && records[i].identity == identity
  }

  /** A packet the evaluator may pass, for a matrix whose first `routed` pairs are also checked for one route per
      engine. */
  ghost predicate Acceptable(pairs: seq<Pair>, routed: nat, records: seq<Record>, identity: string, c: Checks)
    requires routed <= |pairs|
  {
    && RecordsClean(pairs, records, identity)
    && Complete(pairs, records) && HasPairs(pairs, records)
    && RowsAcceptable(Rows(pairs, records), routed, c)
  }

  ghost predicate RowsAcceptable(rows: seq<Row>, routed: nat, c: Checks)
    requires routed <= |rows|
  {
    AllPass(rows, routed, c) && |MuserRoutes(rows[..routed], c)| <= 1 && |LlamaRoutes(rows[..routed], c)| <= 1
  }

  // ---- The evaluator ----

  datatype Failure =
    | Tainted
    | IdentityMismatch(key: Key)
    | UnexpectedRecords
    | MissingRecords
    | DuplicateRecords
    | OutOfOrder(cell: Cell)
    | MixedWorkload(cell: Cell)
    | LacksSamples(cell: Cell)
    | Unstable(cell: Cell)
    | Regression(cell: Cell)
    | MixedRoutes
    | TooFewStable(surface: Surface)
    | LacksRequiredDepth

  /** The evaluation either raises an exception or lists its failures; the packet passes when there are none. */
  datatype Evaluation = Raised | Evaluated(failures: seq<Failure>)

  function ExpectedKeys(pairs: seq<Pair>): (keys: set<Key>)
    ensures forall k :: k in keys <==> Expected(pairs, k)
  {
    (set p | p in pairs :: (p.cell, p.muser)) + (set p | p in pairs :: (p.cell, p.llama))
  }

  ghost predicate GroupedBy(grouped: map<Key, seq<Record>>, expected: set<Key>, records: seq<Record>) {
    && (forall k :: k in grouped <==> k in expected && |PassedAt(records, k)| > 0)
    && (forall k :: k in grouped ==> grouped[k] == PassedAt(records, k))
  }

  lemma GroupedStep(grouped: map<Key, seq<Record>>, expected: set<Key>, records: seq<Record>, i: nat)
    requires i < |records| && GroupedBy(grouped, expected, records[..i])
    ensures var r, key := records[i], KeyOf(records[i]);
            var group := (if key in grouped then grouped[key] else []) + [r];
            GroupedBy(if key in expected && r.passed then grouped[key := group] else grouped,
                      expected, records[..i + 1])
  {
    assert records[..i + 1][..i] == records[..i];
  }

  /** What each kind of failure of the record checks reports. */
  ghost predicate RecordFails(kind: Failure, pairs: seq<Pair>, records: seq<Record>, identity: string) {
    match kind
    case Tainted => exists i :: 0 <= i < |records| && !records[i].passed
    case IdentityMismatch(k) => Mismatched(ExpectedKeys(pairs), records, identity, k)
    case UnexpectedRecords => exists i :: 0 <= i < |records| && !Expected(pairs, KeyOf(records[i]))
    case MissingRecords => exists k :: Expected(pairs, k) && |PassedAt(records, k)| == 0
    case DuplicateRecords => exists k :: Expected(pairs, k) && |PassedAt(records, k)| > 1
    case _ => false
  }

  /** Some record of an expected key carries another identity. */
  ghost predicate Mismatched(expected: set<Key>, records: seq<Record>, identity: string, k: Key) {
    k in expected && exists i :: 0 <= i < |records| && KeyOf(records[i]) == k && records[i].identity != identity
  }

  /** The list names exactly the mismatched keys. */
  ghost predicate ReportsMismatches(failures: seq<Failure>, expected: set<Key>, records: seq<Record>, identity: string)
  {
    forall kind :: kind in failures <==>
      kind.IdentityMismatch? && Mismatched(expected, records, identity, kind.key)
  }

  lemma ReportsStep(failures: seq<Failure>, expected: set<Key>, records: seq<Record>, identity: string, i: nat)
    requires i < |records| && ReportsMismatches(failures, expected, records[..i], identity)
    ensures var r, key := records[i], KeyOf(records[i]);
            var found := key in expected && r.identity != identity;
            ReportsMismatches(if found then failures + [IdentityMismatch(key)] else failures,
                              expected, records[..i + 1], identity)
  {
    var before, after := records[..i], records[..i + 1];
    assert after[i] == records[i] && forall j :: 0 <= j < i ==> after[j] == before[j];
  }

  /** The record loop: passed records grouped by key, with unexpected keys and identity mismatches reported. */
  method GroupRecords(expected: set<Key>, records: seq<Record>, identity: string)
    returns (grouped: map<Key, seq<Record>>, unexpected: seq<Key>, failures: seq<Failure>)
    ensures GroupedBy(grouped, expected, records)
    ensures |unexpected| == 0 <==> forall i :: 0 <= i < |records| ==> KeyOf(records[i]) in expected
    ensures ReportsMismatches(failures, expected, records, identity)
  {
    grouped, unexpected, failures := map[], [], [];
    for i := 0 to |records|
      invariant GroupedBy(grouped, expected, records[..i])
      invariant |unexpected| == 0 <==> forall j :: 0 <= j < i ==> KeyOf(records[j]) in expected
      invariant ReportsMismatches(failures, expected, records[..i], identity)
    {
      var r, key := records[i], KeyOf(records[i]);
      GroupedStep(grouped, expected, records, i);
      ReportsStep(failures, expected, records, identity, i);
      if key !in expected {
        unexpected := unexpected + [key];
      } else {
        if r.passed {
          grouped := grouped[key := (if key in grouped then grouped[key] else []) + [r]];
        }
        if r.identity != identity {
          failures := failures + [IdentityMismatch(key)];
        }
      }
    }
    assert records[..|records|] == records;
  }

  /** What each kind of failure of a cell reports. */
  ghost predicate RowFails(kind: Failure, r: Row, c: Checks) {
    var five := FiveSamples(r.muser) && FiveSamples(r.llama);
    match kind
    case OutOfOrder(cell) => cell == r.pair.cell && r.observed != ExpectedOrder(r.pair)
    case MixedWorkload(cell) => cell == r.pair.cell && !c.workload(r.muser, r.llama, cell)
    case LacksSamples(cell) => cell == r.pair.cell && !five
    case Unstable(cell) => cell == r.pair.cell && five && !c.stable(r.muser, r.llama)
    case Regression(cell) => cell == r.pair.cell && five && !c.notSlower(r.muser, r.llama)
    case _ => false
  }

  /** The checks of one cell. A cell without five samples on both sides skips the timing checks. */
  method CheckRow(r: Row, routed: bool, c: Checks) returns (raised: bool, failures: seq<Failure>, stable: bool)
    ensures raised <==> RowRaises(r, routed, c)
    ensures !raised ==> (|failures| == 0 <==> RowPasses(r, routed, c))
    ensures !raised && |failures| == 0 ==> stable
    ensures !raised ==> (stable <==> FiveSamples(r.muser) && FiveSamples(r.llama) && c.stable(r.muser, r.llama))
    ensures !raised ==> forall kind :: kind in failures <==> RowFails(kind, r, c)
  {
    raised, failures, stable := false, [], false;
    if r.observed != ExpectedOrder(r.pair) {
      failures := failures + [OutOfOrder(r.pair.cell)];
    }
    if routed && !Fingerprinted(r) {
      raised := true;
      return;
    }
    if !c.workload(r.muser, r.llama, r.pair.cell) {
      failures := failures + [MixedWorkload(r.pair.cell)];
    }
    if !FiveSamples(r.muser) || !FiveSamples(r.llama) {
      failures := failures + [LacksSamples(r.pair.cell)];
      return;
    }
    if !c.measurable(r.muser, r.llama) {
      raised := true;
      return;
    }
    stable := c.stable(r.muser, r.llama);
    if !stable {
      failures := failures + [Unstable(r.pair.cell)];
    }
    if !c.notSlower(r.muser, r.llama) {
      failures := failures + [Regression(r.pair.cell)];
    }
  }

  /** What the pair loop has collected after `i` rows. */
  ghost predicate Scanned(rows: seq<Row>, routed: nat, c: Checks, i: nat, failures: seq<Failure>, stable: set<Cell>)
    requires i <= |rows|
  {
    && NoneRaises(rows[..i], routed, c)
    && (|failures| == 0 <==> AllPass(rows[..i], routed, c))
    && (|failures| == 0 ==> stable == Cells(rows[..i]))
  }

  lemma ScannedStep(rows: seq<Row>, routed: nat, c: Checks, i: nat, failures: seq<Failure>, stable: set<Cell>,
                    more: seq<Failure>, ok: bool)
    requires i < |rows| && Scanned(rows, routed, c, i, failures, stable)
    requires !RowRaises(rows[i], i < routed, c) && (|more| == 0 <==> RowPasses(rows[i], i < routed, c))
    requires |more| == 0 ==> ok
    ensures Scanned(rows, routed, c, i + 1, failures + more, if ok then stable + {rows[i].pair.cell} else stable)
  {
    var before, after, r := rows[..i], rows[..i + 1], rows[i];
    assert after == before + [r];
    assert AllPass(after, routed, c) <==> AllPass(before, routed, c) && RowPasses(r, i < routed, c) by {
      assert forall j :: 0 <= j < i ==> after[j] == before[j];
      assert after[i] == r;
    }
    assert Cells(after) == Cells(before) + {r.pair.cell};
  }

  /** The routes collected after `i` rows, of which only the first `routed` count. */
  ghost predicate Routes(rows: seq<Row>, routed: nat, c: Checks, i: nat, muser: set<string>, llama: set<string>)
    requires i <= |rows| && routed <= |rows|
  {
    var counted := rows[..if i < routed then i else routed];
    muser == MuserRoutes(counted, c) && llama == LlamaRoutes(counted, c)
  }

  lemma RoutesStep(rows: seq<Row>, routed: nat, c: Checks, i: nat, muser: set<string>, llama: set<string>)
    requires i < |rows| && routed <= |rows| && Routes(rows, routed, c, i, muser, llama)
    ensures if i < routed
            then Routes(rows, routed, c, i + 1, muser + {c.route(rows[i].muser)}, llama + {c.route(rows[i].llama)})
            else Routes(rows, routed, c, i + 1, muser, llama)
  {
    assert rows[..i + 1] == rows[..i] + [rows[i]];
  }

  /** The pair loop over a complete packet, collecting failures, stable cells and the routes of each engine. */
  method CheckRows(rows: seq<Row>, routed: nat, c: Checks)
    returns (raised: bool, failures: seq<Failure>, stable: set<Cell>, routesM: set<string>, routesL: set<string>)
    requires routed <= |rows|
    ensures raised <==> !NoneRaises(rows, routed, c)
    ensures !raised ==> (|failures| == 0 <==> AllPass(rows, routed, c))
    ensures !raised && |failures| == 0 ==> stable == Cells(rows)
    ensures !raised ==> routesM == MuserRoutes(rows[..routed], c) && routesL == LlamaRoutes(rows[..routed], c)
  {
    raised, failures, stable, routesM, routesL := false, [], {}, {}, {};
    for i := 0 to |rows|
      invariant !raised && Scanned(rows, routed, c, i, failures, stable)
      invariant Routes(rows, routed, c, i, routesM, routesL)
    {
      var r := rows[i];
      var more, ok;
      raised, more, ok := CheckRow(r, i < routed, c);
      if raised {
        return;
      }
      ScannedStep(rows, routed, c, i, failures, stable, more, ok);
      RoutesStep(rows, routed, c, i, routesM, routesL);
      if i < routed {
        routesM, routesL := routesM + {c.route(r.muser)}, routesL + {c.route(r.llama)};
      }
      failures := failures + more;
      stable := if ok then stable + {r.pair.cell} else stable;
    }
    assert rows[..|rows|] == rows;
  }

  lemma RowCells(pairs: seq<Pair>, records: seq<Record>)
    requires HasPairs(pairs, records)
    ensures Cells(Rows(pairs, records)) == PairCells(pairs)
  {
    var rows := Rows(pairs, records);
    forall cell | cell in PairCells(pairs)
      ensures cell in Cells(rows)
    {
      var i :| 0 <= i < |pairs| && pairs[i].cell == cell;
      assert rows[i] in rows;
    }
    forall cell | cell in Cells(rows)
      ensures cell in PairCells(pairs)
    {
      var i :| 0 <= i < |rows| && rows[i].pair.cell == cell;
      assert pairs[i] in pairs;
    }
  }

  /** The closing checks: one route per engine and enough stable cells in every lane. */
  method Closing(matrix: Matrix, stable: set<Cell>, routesM: set<string>, routesL: set<string>)
    returns (failures: seq<Failure>)
    ensures |failures| == 0 <==>
            && |routesM| <= 1 && |routesL| <= 1 && matrix.required <= stable
            && forall s :: s in LANES ==> |LaneCells(stable, s)| == matrix.laneSize
  {
    failures := [];
    if |routesM| > 1 || |routesL| > 1 {
      failures := failures + [MixedRoutes];
    }
    if |LaneCells(stable, Prefill)| != matrix.laneSize {
      failures := failures + [TooFewStable(Prefill)];
    }
    if |LaneCells(stable, Decode)| != matrix.laneSize {
      failures := failures + [TooFewStable(Decode)];
    }
    if |LaneCells(stable, Ttft)| != matrix.laneSize {
      failures := failures + [TooFewStable(Ttft)];
    }
    if !(matrix.required <= stable) {
      failures := failures + [LacksRequiredDepth];
    }
  }

  /** Without a failure the records are clean and complete, and conversely. */
  lemma NoRecordFails(pairs: seq<Pair>, records: seq<Record>, identity: string)
    ensures (forall kind :: !RecordFails(kind, pairs, records, identity)) <==>
              Complete(pairs, records) && RecordsClean(pairs, records, identity)
  {
    if forall kind :: !RecordFails(kind, pairs, records, identity) {
      assert !RecordFails(Tainted, pairs, records, identity);
      assert !RecordFails(UnexpectedRecords, pairs, records, identity);
      assert !RecordFails(MissingRecords, pairs, records, identity);
      assert !RecordFails(DuplicateRecords, pairs, records, identity);
      forall i | 0 <= i < |records|
        ensures records[i].identity == identity
      {
        assert !RecordFails(IdentityMismatch(KeyOf(records[i])), pairs, records, identity);
      }
    }
  }

  /** The record checks: no taint, nothing unexpected, one identity, and exactly one passed record for each key. */
  method CheckRecords(pairs: seq<Pair>, records: seq<Record>, identity: string)
    returns (failures: seq<Failure>, complete: bool)
    ensures complete <==> Complete(pairs, records)
    ensures forall kind :: kind in failures <==> RecordFails(kind, pairs, records, identity)
    ensures |failures| == 0 <==> complete && RecordsClean(pairs, records, identity)
  {
    var tainted := exists i :: 0 <= i < |records| && !records[i].passed;
    var grouped, unexpected, mismatches := GroupRecords(ExpectedKeys(pairs), records, identity);
    var coverage;
    coverage, complete := CheckCoverage(pairs, records, identity, grouped);
    failures := Assembled(tainted, mismatches, |unexpected| > 0, coverage);
    AssembledReports(tainted, mismatches, |unexpected| > 0, coverage, pairs, records, identity);
    NoRecordFails(pairs, records, identity);
    EmptyIffNoMember(failures);
  }

  function Assembled(tainted: bool, mismatches: seq<Failure>, unexpected: bool, coverage: seq<Failure>): seq<Failure> {
    (if tainted then [Tainted] else []) + mismatches + (if unexpected then [UnexpectedRecords] else []) + coverage
  }

  lemma AssembledReports(tainted: bool, mismatches: seq<Failure>, unexpected: bool, coverage: seq<Failure>,
                         pairs: seq<Pair>, records: seq<Record>, identity: string)
    requires tainted <==> RecordFails(Tainted, pairs, records, identity)
    requires ReportsMismatches(mismatches, ExpectedKeys(pairs), records, identity)
    requires unexpected <==> RecordFails(UnexpectedRecords, pairs, records, identity)
    requires ReportsCoverage(coverage, pairs, records, identity)
    ensures forall kind :: kind in Assembled(tainted, mismatches, unexpected, coverage) <==>
              RecordFails(kind, pairs, records, identity)
  {
    forall kind
      ensures kind in Assembled(tainted, mismatches, unexpected, coverage) <==>
                RecordFails(kind, pairs, records, identity)
    {
      assert kind in mismatches <==>
        kind.IdentityMismatch? && Mismatched(ExpectedKeys(pairs), records, identity, kind.key);
    }
  }

  ghost predicate ReportsCoverage(failures: seq<Failure>, pairs: seq<Pair>, records: seq<Record>, identity: string) {
    forall kind :: kind in failures <==>
      (kind == MissingRecords || kind == DuplicateRecords) && RecordFails(kind, pairs, records, identity)
  }

  lemma EmptyIffNoMember(failures: seq<Failure>)
    ensures |failures| == 0 <==> forall kind :: kind !in failures
  {
    if |failures| > 0 {
      assert failures[0] in failures;
    }
  }

  /** Which expected keys have no passed record, and which have several. */
  method CheckCoverage(pairs: seq<Pair>, records: seq<Record>, ghost identity: string, grouped: map<Key, seq<Record>>)
    returns (failures: seq<Failure>, complete: bool)
    requires GroupedBy(grouped, ExpectedKeys(pairs), records)
    ensures complete <==> Complete(pairs, records)
    ensures ReportsCoverage(failures, pairs, records, identity)
  {
    var expected := ExpectedKeys(pairs);
    var missing := set k | k in expected && k !in grouped;
    var duplicate := set k | k in grouped && |grouped[k]| != 1;
    CoverageMeans(pairs, records, identity, grouped, missing, duplicate);
    complete := missing == {} && duplicate == {};
    failures := (if missing != {} then [MissingRecords] else []) + if duplicate != {} then [DuplicateRecords] else [];
  }

  lemma CoverageMeans(pairs: seq<Pair>, records: seq<Record>, identity: string, grouped: map<Key, seq<Record>>,
                      missing: set<Key>, duplicate: set<Key>)
    requires GroupedBy(grouped, ExpectedKeys(pairs), records)
    requires missing == set k | k in ExpectedKeys(pairs) && k !in grouped
    requires duplicate == set k | k in grouped && |grouped[k]| != 1
    ensures missing == {} && duplicate == {} <==> Complete(pairs, records)
    ensures missing != {} <==> RecordFails(MissingRecords, pairs, records, identity)
    ensures duplicate != {} <==> RecordFails(DuplicateRecords, pairs, records, identity)
  {
    forall k | Expected(pairs, k)
      ensures k in missing <==> |PassedAt(records, k)| == 0
      ensures k in duplicate <==> |PassedAt(records, k)| > 1
    {
      assert k in ExpectedKeys(pairs);
    }
    if missing != {} {
      var k :| k in missing;
      assert Expected(pairs, k) && |PassedAt(records, k)| == 0;
    }
    if duplicate != {} {
      var k :| k in duplicate;
      assert Expected(pairs, k) && |PassedAt(records, k)| > 1;
    }
  }

  /** The pair loop and the closing checks of a complete packet. */
  method CheckPacket(matrix: Matrix, rows: seq<Row>, c: Checks) returns (raised: bool, failures: seq<Failure>)
    requires matrix.Consistent() && |rows| == |matrix.pairs| && Cells(rows) == PairCells(matrix.pairs)
    ensures raised <==> !NoneRaises(rows, matrix.routed, c)
    ensures !raised ==> (|failures| == 0 <==> RowsAcceptable(rows, matrix.routed, c))
  {
    var stable, routesM, routesL;
    raised, failures, stable, routesM, routesL := CheckRows(rows, matrix.routed, c);
    if raised {
      return;
    }
    var closing := Closing(matrix, stable, routesM, routesL);
    failures := failures + closing;
  }

  ghost predicate Raises(matrix: Matrix, records: seq<Record>, c: Checks) {
    && Complete(matrix.pairs, records) && HasPairs(matrix.pairs, records)
    && !NoneRaises(Rows(matrix.pairs, records), matrix.routed, c)
  }

  /** No acceptable packet raises. */
  lemma PassingNeverRaises(rows: seq<Row>, routed: nat, c: Checks)
    requires AllPass(rows, routed, c)
    ensures NoneRaises(rows, routed, c)
  {
    forall i | 0 <= i < |rows|
      ensures !RowRaises(rows[i], i < routed, c)
    {
      assert RowPasses(rows[i], i < routed, c);
    }
  }

  /** The evaluator passes exactly the acceptable packets. It raises exactly when a complete packet has a routed cell
      without a fingerprint, or a cell with five samples on both sides and a zero mean. */
  method Evaluate(matrix: Matrix, records: seq<Record>, identity: string, c: Checks) returns (r: Evaluation)
    requires matrix.Consistent()
    ensures r.Raised? <==> Raises(matrix, records, c)
    ensures r == Evaluated([]) <==> Acceptable(matrix.pairs, matrix.routed, records, identity, c)
  {
    var failures, complete := CheckRecords(matrix.pairs, records, identity);
    if complete {
      CompleteHasPairs(matrix.pairs, records);
      RowCells(matrix.pairs, records);
      var raised, more := CheckPacket(matrix, Rows(matrix.pairs, records), c);
      if raised {
        assert !Acceptable(matrix.pairs, matrix.routed, records, identity, c) by {
          if Acceptable(matrix.pairs, matrix.routed, records, identity, c) {
            PassingNeverRaises(Rows(matrix.pairs, records), matrix.routed, c);
          }
        }
        return Raised;
      }
      r := Evaluated(failures + more);
    } else {
      var closing := Closing(matrix, {}, {}, {});
      r := Evaluated(failures + closing);
    }
  }

  /** The release matrix meets the evaluator's own counts. */
  lemma FrozenMatrixConsistent()
    ensures FrozenMatrix().Consistent()
  {
    DepthsDistinct();
    RequiredListed();
    ThreeLanesConsistent(PREFILL, DECODE, TTFT, 9, FrozenMatrix().required);
  }

  lemma ThreeLanesConsistent(p: seq<nat>, d: seq<nat>, t: seq<nat>, n: nat, required: set<Cell>)
    requires |p| == |d| == |t| == n
    requires forall i, j :: 0 <= i < j < n ==> p[i] != p[j]
    requires forall i, j :: 0 <= i < j < n ==> d[i] != d[j]
    requires forall i, j :: 0 <= i < j < n ==> t[i] != t[j]
    requires forall c :: c in required ==> c in LaneSet(Prefill, p) || c in LaneSet(Decode, d) || c in LaneSet(Ttft, t)
    ensures Matrix(LanePairs(Prefill, p, 0, Muser, Llama) + LanePairs(Decode, d, n, Muser, Llama)
                   + LanePairs(Ttft, t, 0, TtftMuser, TtftLlama), n + n, n, required).Consistent()
  {
    var a, b, c := LanePairs(Prefill, p, 0, Muser, Llama), LanePairs(Decode, d, n, Muser, Llama),
                   LanePairs(Ttft, t, 0, TtftMuser, TtftLlama);
    var pairs := a + b + c;
    FirstLane(pairs, a, b, c, p);
    LaneOf(pairs, a, b, c, Decode, d);
    LastLane(pairs, a, b, c, t);
  }

  lemma FirstLane(pairs: seq<Pair>, a: seq<Pair>, b: seq<Pair>, c: seq<Pair>, p: seq<nat>)
    requires pairs == a + b + c && |a| == |p| && forall i :: 0 <= i < |a| ==> a[i].cell == Cell(Prefill, p[i])
    requires forall i :: 0 <= i < |b| ==> !b[i].cell.surface.Prefill?
    requires forall i :: 0 <= i < |c| ==> !c[i].cell.surface.Prefill?
    requires forall i, j :: 0 <= i < j < |p| ==> p[i] != p[j]
    ensures LaneCells(PairCells(pairs), Prefill) == LaneSet(Prefill, p) && |LaneSet(Prefill, p)| == |p|
    ensures LaneSet(Prefill, p) <= PairCells(pairs)
  {
    assert pairs == [] + a + (b + c);
    LaneOf(pairs, [], a, b + c, Prefill, p);
  }

  lemma LastLane(pairs: seq<Pair>, a: seq<Pair>, b: seq<Pair>, c: seq<Pair>, t: seq<nat>)
    requires pairs == a + b + c && |c| == |t| && forall i :: 0 <= i < |c| ==> c[i].cell == Cell(Ttft, t[i])
    requires forall i :: 0 <= i < |a| ==> !a[i].cell.surface.Ttft?
    requires forall i :: 0 <= i < |b| ==> !b[i].cell.surface.Ttft?
    requires forall i, j :: 0 <= i < j < |t| ==> t[i] != t[j]
    ensures LaneCells(PairCells(pairs), Ttft) == LaneSet(Ttft, t) && |LaneSet(Ttft, t)| == |t|
    ensures LaneSet(Ttft, t) <= PairCells(pairs)
  {
    assert pairs == (a + b) + c + [];
    LaneOf(pairs, a + b, c, [], Ttft, t);
  }

  lemma DepthsDistinct()
    ensures forall i, j :: 0 <= i < j < |PREFILL| ==> PREFILL[i] != PREFILL[j]
    ensures forall i, j :: 0 <= i < j < |DECODE| ==> DECODE[i] != DECODE[j]
    ensures forall i, j :: 0 <= i < j < |TTFT| ==> TTFT[i] != TTFT[j]
  {
  }

  lemma RequiredListed()
    ensures forall c :: c in FrozenMatrix().required ==>
              c in LaneSet(Prefill, PREFILL) || c in LaneSet(Decode, DECODE) || c in LaneSet(Ttft, TTFT)
  {
  }

  function LaneSet(s: Surface, depths: seq<nat>): (cells: set<Cell>)
    ensures forall c :: c in cells <==> c.surface == s && c.depth in depths
  {
    set d | d in depths :: Cell(s, d)
  }

  /** The cells of a lane listed as a block of the matrix. */
  lemma LaneOf(pairs: seq<Pair>, front: seq<Pair>, lane: seq<Pair>, back: seq<Pair>, s: Surface, depths: seq<nat>)
    requires pairs == front + lane + back && |lane| == |depths|
    requires forall i :: 0 <= i < |lane| ==> lane[i].cell == Cell(s, depths[i])
    requires forall i :: 0 <= i < |front| ==> front[i].cell.surface != s
    requires forall i :: 0 <= i < |back| ==> back[i].cell.surface != s
    requires forall i, j :: 0 <= i < j < |depths| ==> depths[i] != depths[j]
    ensures LaneCells(PairCells(pairs), s) == LaneSet(s, depths) && |LaneSet(s, depths)| == |depths|
    ensures LaneSet(s, depths) <= PairCells(pairs)
  {
    forall c | c in LaneSet(s, depths)
      ensures c in PairCells(pairs)
    {
      var i :| 0 <= i < |depths| && depths[i] == c.depth;
      assert lane[i] in pairs;
    }
    forall c | c in LaneCells(PairCells(pairs), s)
      ensures c in LaneSet(s, depths)
    {
      var p :| p in pairs && p.cell == c;
      assert p in front || p in lane || p in back;
    }
    LaneCardinality(s, depths);
  }

  lemma {:induction false} LaneCardinality(s: Surface, depths: seq<nat>)
    requires forall i, j :: 0 <= i < j < |depths| ==> depths[i] != depths[j]
    ensures |LaneSet(s, depths)| == |depths|
  {
    if |depths| > 0 {
      var n := |depths| - 1;
      LaneCardinality(s, depths[..n]);
      assert depths == depths[..n] + [depths[n]];
      assert LaneSet(s, depths) == LaneSet(s, depths[..n]) + {Cell(s, depths[n])};
    }
  }

  // ---- What acceptance implies ----

  /** A failed record taints the run for good: no extension of the ledger is ever acceptable. */
  lemma TaintIsPermanent(pairs: seq<Pair>, routed: nat, records: seq<Record>, more: seq<Record>, identity: string,
                         c: Checks, i: nat)
    requires routed <= |pairs| && i < |records| && !records[i].passed
    ensures !Acceptable(pairs, routed, records + more, identity, c)
  {
    assert (records + more)[i] == records[i];
  }

  lemma {:induction false} PassedAtFinds(records: seq<Record>, k: Key, i: nat)
    requires i < |records| && records[i].passed && KeyOf(records[i]) == k
    ensures |PassedAt(records, k)| >= 1
    ensures forall j :: i < j < |records| && records[j].passed && KeyOf(records[j]) == k ==> |PassedAt(records, k)| >= 2
  {
    var n := |records| - 1;
    if i < n {
      PassedAtFinds(records[..n], k, i);
    }
  }

  lemma {:induction false} PassedAtSource(records: seq<Record>, k: Key) returns (i: nat)
    requires |PassedAt(records, k)| >= 1
    ensures i < |records| && records[i].passed && KeyOf(records[i]) == k
  {
    i := |records| - 1;
    if !(records[i].passed && KeyOf(records[i]) == k) {
      i := PassedAtSource(records[..i], k);
    }
  }

  /** In an acceptable packet the records are in bijection with the expected keys, all under one identity. */
  lemma AcceptableBijection(pairs: seq<Pair>, routed: nat, records: seq<Record>, identity: string, c: Checks)
    requires routed <= |pairs| && Acceptable(pairs, routed, records, identity, c)
    ensures forall i :: 0 <= i < |records| ==> Expected(pairs, KeyOf(records[i])) && records[i].identity == identity
    ensures forall i, j :: 0 <= i < j < |records| ==> KeyOf(records[i]) != KeyOf(records[j])
    ensures forall k :: Expected(pairs, k) ==> exists i :: 0 <= i < |records| && KeyOf(records[i]) == k
  {
    forall i, j | 0 <= i < j < |records|
      ensures KeyOf(records[i]) != KeyOf(records[j])
    {
      PassedAtFinds(records, KeyOf(records[i]), i);
    }
    forall k | Expected(pairs, k)
      ensures exists i :: 0 <= i < |records| && KeyOf(records[i]) == k
    {
      var i := PassedAtSource(records, k);
    }
  }

  lemma {:induction false} PassedAtHolds(records: seq<Record>, k: Key, i: nat)
    requires i < |records| && records[i].passed && KeyOf(records[i]) == k
    ensures records[i] in PassedAt(records, k)
  {
    var n := |records| - 1;
    if i < n {
      PassedAtHolds(records[..n], k, i);
    }
  }

  /** The row of a pair holds the two records with its keys. */
  lemma RowHasRecords(records: seq<Record>, p: Pair, m: nat, l: nat)
    requires HasPair(records, p) && m < |records| && l < |records| && records[m].passed && records[l].passed
    requires KeyOf(records[m]) == (p.cell, p.muser) && KeyOf(records[l]) == (p.cell, p.llama)
    ensures RowOf(records, p).muser == records[m] && RowOf(records, p).llama == records[l]
  {
    PassedAtHolds(records, (p.cell, p.muser), m);
    PassedAtHolds(records, (p.cell, p.llama), l);
  }

  lemma AtMostOne(routes: set<string>, a: string, b: string)
    requires |routes| <= 1 && a in routes && b in routes
    ensures a == b
  {
    assert |routes - {a}| == |routes| - 1;
    assert routes - {a} == {};
  }

  /** In an acceptable packet any two routed cells have the same muser route and the same llama route. */
  lemma AcceptableRoutes(pairs: seq<Pair>, routed: nat, records: seq<Record>, identity: string, c: Checks, i: nat,
                         j: nat)
    requires routed <= |pairs| && Acceptable(pairs, routed, records, identity, c) && i < routed && j < routed
    ensures HasPair(records, pairs[i]) && HasPair(records, pairs[j])
    ensures c.route(RowOf(records, pairs[i]).muser) == c.route(RowOf(records, pairs[j]).muser)
    ensures c.route(RowOf(records, pairs[i]).llama) == c.route(RowOf(records, pairs[j]).llama)
  {
    var rows := Rows(pairs, records)[..routed];
    var a, b := rows[i], rows[j];
    assert a in rows && b in rows;
    AtMostOne(MuserRoutes(rows, c), c.route(a.muser), c.route(b.muser));
    AtMostOne(LlamaRoutes(rows, c), c.route(a.llama), c.route(b.llama));
  }

  /** Under the release tests, the muser and llama records of every cell of an acceptable packet have five samples each,
      coefficients of variation of at most 3% for the exact square roots of their variances, and a throughput ratio of
      at least one. */
  lemma AcceptableTimings(pairs: seq<Pair>, routed: nat, records: seq<Record>, identity: string,
                          workload: (Record, Record, Cell) -> bool, route: Record -> string, i: nat, m: nat, l: nat,
                          rootM: real, rootL: real)
    requires routed <= |pairs| && Acceptable(pairs, routed, records, identity, ReleaseChecks(workload, route))
    requires i < |pairs| && m < |records| && l < |records|
    requires KeyOf(records[m]) == (pairs[i].cell, pairs[i].muser)
    requires KeyOf(records[l]) == (pairs[i].cell, pairs[i].llama)
    ensures Measurable(records[m], records[l])
    ensures var a, b := records[m].evidence.rawNs.value, records[l].evidence.rawNs.value;
            && |a| == |b| == 5
            && (rootM >= 0.0 && rootM * rootM == Variance(a) ==> rootM / Mean(a) <= 0.03)
            && (rootL >= 0.0 && rootL * rootL == Variance(b) ==> rootL / Mean(b) <= 0.03)
            && Mean(b) / Mean(a) >= 1.0
  {
    var c, rows := ReleaseChecks(workload, route), Rows(pairs, records);
    assert HasPair(records, pairs[i]);
    RowHasRecords(records, pairs[i], m, l);
    assert RowPasses(rows[i], i < routed, c);
    TimingsOf(records[m], records[l], rootM, rootL);
  }

  lemma TimingsOf(m: Record, l: Record, rootM: real, rootL: real)
    requires Measurable(m, l) && PairStable(m, l) && NotSlower(m, l)
    ensures var a, b := m.evidence.rawNs.value, l.evidence.rawNs.value;
            && (rootM >= 0.0 && rootM * rootM == Variance(a) ==> rootM / Mean(a) <= 0.03)
            && (rootL >= 0.0 && rootL * rootL == Variance(b) ==> rootL / Mean(b) <= 0.03)
            && Mean(b) / Mean(a) >= 1.0
  {
    var a, b := m.evidence.rawNs.value, l.evidence.rawNs.value;
    if rootM >= 0.0 && rootM * rootM == Variance(a) {
      CvCriterion(a, rootM);
    }
    if rootL >= 0.0 && rootL * rootL == Variance(b) {
      CvCriterion(b, rootL);
    }
  }
}
