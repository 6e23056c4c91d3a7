/** `request_metrics`: request accounting, time bins and the final healthy tail.
    Times are integer microseconds, the resolution of the recorded timestamps. */
module RequestMetrics {
  import opened Options
  import opened Quantile

  datatype Request = Request(
    id: Option<string>, index: Option<int>, scheduled: int, begin: Option<int>, finish: Option<int>,
    ok: bool, correct: bool, rejected: bool)

  datatype Config = Config(
    rate: real, deadline: int, slo: int, binWidth: int, minSamples: int, maxBadFraction: real, stable: int)

  datatype Bin = Bin(start: int, end: int, samples: nat, complete: bool, healthy: bool, bad: nat, p95: Option<real>)

  datatype Error = RequestId | ArrivalIndex | ArrivalsIncomplete | TimeReversed

  datatype Metrics = Metrics(
    expected: int, observed: nat, failures: int, missing: int, incomplete: nat, rejections: nat,
    latencyP95: Option<real>, bins: seq<Bin>, violation: int, unobserved: int,
    recoveryStart: Option<int>, stableConfirmed: Option<int>, errors: set<Error>)

  datatype Result<T> = Ok(value: T) | DivisionByZero

  /** Python's round: to the nearest integer, ties to even. */
  function Round(x: real): int {
    var f := x.Floor;
    var rest := x - f as real;
    if rest < 0.5 || (rest == 0.5 && f % 2 == 0) then f else f + 1
  }

  /** int(round(seconds * rate)) for a span in microseconds. */
  function Quota(span: int, rate: real): int {
    Round(span as real / 1000000.0 * rate)
  }

  function CeilDiv(a: int, b: int): int
    requires b > 0
  {
    (a + b - 1) / b
  }

  function Max(a: int, b: int): int {
    if a < b then b else a
  }

  function Min(a: int, b: int): int {
    if a < b then a else b
  }

  // ---- one request ----

  function Latency(r: Request): int {
    if r.finish.Some? then r.finish.value - r.scheduled else 0
  }

  /** Answered correctly, in order, and before its deadline. */
  predicate Good(r: Request, cfg: Config) {
    && r.begin.Some? && r.finish.Some?
    && r.scheduled - 1000 <= r.begin.value <= r.finish.value
    && r.ok && r.correct && !r.rejected && Latency(r) <= cfg.deadline
  }

  predicate Reversed(r: Request) {
    || (r.begin.Some? && r.begin.value < r.scheduled - 1000)
    || (r.finish.Some? && (r.begin.None? || r.finish.value < r.begin.value))
  }

  predicate Violates(r: Request, cfg: Config) {
    !Good(r, cfg) || Latency(r) > cfg.slo
  }

  function Within(rows: seq<Request>, a: int, b: int): seq<Request> {
    if rows == [] then []
    else (if a <= rows[0].scheduled < b then [rows[0]] else []) + Within(rows[1..], a, b)
  }

  function CountGood(rows: seq<Request>, cfg: Config): nat {
    if rows == [] then 0 else (if Good(rows[0], cfg) then 1 else 0) + CountGood(rows[1..], cfg)
  }

  function CountViolations(rows: seq<Request>, cfg: Config): nat {
    if rows == [] then 0 else (if Violates(rows[0], cfg) then 1 else 0) + CountViolations(rows[1..], cfg)
  }

  /** Requests the generator turned away, and requests sent but never answered. */
  function CountWhere(rows: seq<Request>, p: Request -> bool): nat {
    if rows == [] then 0 else (if p(rows[0]) then 1 else 0) + CountWhere(rows[1..], p)
  }

  predicate TurnedAway(r: Request) {
    r.rejected
  }

  predicate Unanswered(r: Request) {
    !r.rejected && r.finish.None?
  }

  function GoodLatencies(rows: seq<Request>, cfg: Config): seq<real> {
    if rows == [] then []
    else (if Good(rows[0], cfg) then [Latency(rows[0]) as real] else []) + GoodLatencies(rows[1..], cfg)
  }

  // ---- bins ----

  function BinStart(start: int, i: int, cfg: Config): int {
    start + i * cfg.binWidth
  }

  function BinEnd(start: int, end: int, i: int, cfg: Config): int {
    Min(end, start + (i + 1) * cfg.binWidth)
  }

  function BinCount(start: int, end: int, cfg: Config): int
    requires cfg.binWidth > 0
  {
    CeilDiv(end - start, cfg.binWidth)
  }

  predicate Complete(count: nat, span: int, cfg: Config) {
    count >= Max(cfg.minSamples, Quota(span, cfg.rate))
  }

  predicate Healthy(rows: seq<Request>, span: int, cfg: Config)
    requires Complete(|rows|, span, cfg) ==> rows != []
  {
    && Complete(|rows|, span, cfg)
    && CountViolations(rows, cfg) as real / |rows| as real <= cfg.maxBadFraction
    && QuantileOf(GoodLatencies(rows, cfg), 0.95).Some?
    && QuantileOf(GoodLatencies(rows, cfg), 0.95).value <= cfg.slo as real
  }

  /** The bin over [a, b), unless it is complete without samples, which divides by zero. */
  function BinOver(arrivals: seq<Request>, a: int, b: int, cfg: Config): Result<Bin> {
    var rows := Within(arrivals, a, b);
    if Complete(|rows|, b - a, cfg) && rows == [] then DivisionByZero
    else Ok(Bin(a, b, |rows|, Complete(|rows|, b - a, cfg), Healthy(rows, b - a, cfg),
                CountViolations(rows, cfg), QuantileOf(GoodLatencies(rows, cfg), 0.95)))
  }

  function BinAt(arrivals: seq<Request>, start: int, end: int, i: int, cfg: Config): Result<Bin> {
    BinOver(arrivals, BinStart(start, i, cfg), BinEnd(start, end, i, cfg), cfg)
  }

  /** The bins are the ones the configuration prescribes, in order. */
  ghost predicate BinsOf(bins: seq<Bin>, arrivals: seq<Request>, start: int, end: int, cfg: Config) {
    forall i :: 0 <= i < |bins| ==> BinAt(arrivals, start, end, i, cfg) == Ok(bins[i])
  }

  function Span(b: Bin): int {
    b.end - b.start
  }

  predicate Violating(b: Bin) {
    b.complete && !b.healthy
  }

  predicate Unobserved(b: Bin) {
    !b.complete
  }

  predicate Sound(b: Bin) {
    b.healthy
  }

  function TotalWhere(bins: seq<Bin>, p: Bin -> bool): int {
    if bins == [] then 0 else (if p(bins[0]) then Span(bins[0]) else 0) + TotalWhere(bins[1..], p)
  }

  function SampleTotal(bins: seq<Bin>): int {
    if bins == [] then 0 else bins[0].samples + SampleTotal(bins[1..])
  }

  // ---- the final healthy tail ----

  /** bins[k..] is the longest suffix of healthy bins. */
  ghost predicate MaximalTail(bins: seq<Bin>, k: nat) {
    && k <= |bins|
    && (forall i :: k <= i < |bins| ==> bins[i].healthy)
    && (k > 0 ==> !bins[k - 1].healthy)
  }

  /** That suffix is nonempty and lasts at least the stability period. */
  ghost predicate LongTail(bins: seq<Bin>, k: nat, stable: int) {
    MaximalTail(bins, k) && k < |bins| && bins[|bins| - 1].end - bins[k].start >= stable
  }

  /** Recovery as reported: the start of the long tail, and the first bin end far enough into it. */
  ghost predicate RecoveryOf(bins: seq<Bin>, stable: int, recovery: Option<int>, confirmed: Option<int>) {
    && (forall k: nat :: LongTail(bins, k, stable) ==>
          && recovery == Some(bins[k].start)
          && exists j :: k <= j < |bins| && confirmed == Some(bins[j].end) && FirstFar(bins, k, j, stable))
    && ((forall k: nat :: !LongTail(bins, k, stable)) ==> recovery == None && confirmed == None)
  }

  ghost predicate FirstFar(bins: seq<Bin>, k: nat, j: int, stable: int) {
    && k <= j < |bins| && bins[j].end - bins[k].start >= stable
    && forall i :: k <= i < j ==> bins[i].end - bins[k].start < stable
  }

  // ---- duplicate checks ----

  ghost predicate DuplicateIds(rows: seq<Request>) {
    || (exists i :: 0 <= i < |rows| && rows[i].id == None)
    || (exists i, j :: 0 <= i < j < |rows| && rows[i].id == rows[j].id)
  }

  ghost predicate DuplicateIndexes(rows: seq<Request>) {
    exists i, j :: 0 <= i < j < |rows| && rows[i].index.Some? && rows[i].index == rows[j].index
  }

  method CheckIdentities(rows: seq<Request>) returns (errors: set<Error>)
    ensures RequestId in errors <==> DuplicateIds(rows)
    ensures ArrivalIndex in errors <==> DuplicateIndexes(rows)
    ensures errors <= {RequestId, ArrivalIndex}
  {
    hide DuplicateIds, DuplicateIndexes;
    NoIdentities();
    errors := {};
    var ids: set<Option<string>>, indexes: set<Option<int>> := {}, {};
    for i := 0 to |rows|
      invariant forall x :: x in ids <==> exists k :: 0 <= k < i && rows[k].id == x
      invariant forall x :: x in indexes <==> exists k :: 0 <= k < i && rows[k].index == x
      invariant RequestId in errors <==> DuplicateIds(rows[..i])
      invariant ArrivalIndex in errors <==> DuplicateIndexes(rows[..i])
      invariant errors <= {RequestId, ArrivalIndex}
    {
      IdentityStep(rows, i);
      if rows[i].id == None || rows[i].id in ids { errors := errors + {RequestId}; }
      if rows[i].index.Some? && rows[i].index in indexes { errors := errors + {ArrivalIndex}; }
      ids := ids + {rows[i].id};
      indexes := indexes + {rows[i].index};
    }
    assert rows[..|rows|] == rows;
  }

  lemma NoIdentities()
    ensures !DuplicateIds([]) && !DuplicateIndexes([])
  {}

  lemma IdentityStep(rows: seq<Request>, i: nat)
    requires i < |rows|
    ensures DuplicateIds(rows[..i + 1]) <==>
            DuplicateIds(rows[..i]) || rows[i].id == None || exists k :: 0 <= k < i && rows[k].id == rows[i].id
    ensures DuplicateIndexes(rows[..i + 1]) <==>
            || DuplicateIndexes(rows[..i])
            || (rows[i].index.Some? && exists k :: 0 <= k < i && rows[k].index == rows[i].index)
  {
    var p, q := rows[..i], rows[..i + 1];
    assert forall k :: 0 <= k < i ==> p[k] == q[k] == rows[k];
    assert q[i] == rows[i];
  }

  // ---- the three loops ----

  /** The division by zero, in terms of what a caller can check: no sample is demanded of a bin, and
      some bin expects none and has none. */
  predicate EmptyBinComplete(arrivals: seq<Request>, cfg: Config, start: int, end: int)
    requires cfg.binWidth > 0
  {
    && cfg.minSamples <= 0
    && exists i :: 0 <= i < BinCount(start, end, cfg) && EmptyAt(arrivals, cfg, start, end, i)
  }

  predicate EmptyAt(arrivals: seq<Request>, cfg: Config, start: int, end: int, i: int) {
    var a, b := BinStart(start, i, cfg), BinEnd(start, end, i, cfg);
    Quota(b - a, cfg.rate) <= 0 && Within(arrivals, a, b) == []
  }

  lemma EmptyDivides(arrivals: seq<Request>, cfg: Config, start: int, end: int, i: int)
    ensures BinAt(arrivals, start, end, i, cfg).DivisionByZero? <==>
            cfg.minSamples <= 0 && EmptyAt(arrivals, cfg, start, end, i)
  {
    hide Healthy, Quota, Within;
  }

  /** The analysis divides by zero exactly then. */
  lemma DividesExactly(arrivals: seq<Request>, cfg: Config, start: int, end: int)
    requires cfg.binWidth > 0
    ensures Undefined(arrivals, cfg, start, end) <==> EmptyBinComplete(arrivals, cfg, start, end)
  {
    hide BinAt, EmptyAt;
    forall i
      ensures BinAt(arrivals, start, end, i, cfg).DivisionByZero? <==>
              cfg.minSamples <= 0 && EmptyAt(arrivals, cfg, start, end, i)
    {
      EmptyDivides(arrivals, cfg, start, end, i);
    }
  }

  /** A failing input: one bin of a second at one request in ten seconds, no sample demanded, none there. */
  lemma DividesByZeroExample(cfg: Config)
    requires cfg.rate == 0.1 && cfg.binWidth == 1000000 && cfg.minSamples == 0
    ensures Undefined([], cfg, 0, 1000000)
  {
    assert Quota(1000000, 0.1) == 0;
    assert EmptyAt([], cfg, 0, 1000000, 0);
    DividesExactly([], cfg, 0, 1000000);
  }

  /** A profile whose check has passed demands at least one sample in every bin, so it never divides
      by zero. */
  lemma MinSamplesSuffice(arrivals: seq<Request>, cfg: Config, start: int, end: int)
    requires cfg.binWidth > 0 && cfg.minSamples >= 1
    ensures !EmptyBinComplete(arrivals, cfg, start, end) && !Undefined(arrivals, cfg, start, end)
  {
    DividesExactly(arrivals, cfg, start, end);
  }

  /** Was the request answered well, and do its times run backwards? */
  method Assess(row: Request, cfg: Config) returns (good: bool, backwards: bool)
    ensures good <==> Good(row, cfg)
    ensures good ==> row.finish.Some? && row.finish.value - row.scheduled == Latency(row)
    ensures backwards <==> Reversed(row)
  {
    good, backwards := false, false;
    if row.begin.Some? && row.begin.value < row.scheduled - 1000 { backwards := true; }
    if row.finish.Some? && (row.begin.None? || row.finish.value < row.begin.value) { backwards := true; }
    if row.begin.Some? && row.finish.Some? {
      var ordered := row.scheduled - 1000 <= row.begin.value && row.begin.value <= row.finish.value;
      var inTime := row.finish.value - row.scheduled <= cfg.deadline;
      good := ordered && row.ok && row.correct && !row.rejected && inTime;
    }
  }

  /** The per-request loop. */
  method Tally(arrivals: seq<Request>, cfg: Config)
    returns (bad: nat, incomplete: nat, rejections: nat, latencies: seq<real>, reversed: bool)
    ensures bad + CountGood(arrivals, cfg) == |arrivals|
    ensures latencies == GoodLatencies(arrivals, cfg)
    ensures reversed <==> exists i :: 0 <= i < |arrivals| && Reversed(arrivals[i])
    ensures rejections == CountWhere(arrivals, TurnedAway) && incomplete == CountWhere(arrivals, Unanswered)
  {
    hide Good, Reversed;
    bad, incomplete, rejections, latencies, reversed := 0, 0, 0, [], false;
    for i := 0 to |arrivals|
      invariant bad + CountGood(arrivals[..i], cfg) == i
      invariant latencies == GoodLatencies(arrivals[..i], cfg)
      invariant reversed <==> exists k :: 0 <= k < i && Reversed(arrivals[k])
      invariant rejections == CountWhere(arrivals[..i], TurnedAway)
          && incomplete == CountWhere(arrivals[..i], Unanswered)
    {
      TallyStep(arrivals, i, cfg);
      CountStep(arrivals, i, TurnedAway);
      CountStep(arrivals, i, Unanswered);
      var row := arrivals[i];
      var good, backwards := Assess(row, cfg);
      if backwards { reversed := true; }
      if row.rejected {
        rejections := rejections + 1;
      } else if row.finish.None? {
        incomplete := incomplete + 1;
      }
      if good {
        latencies := latencies + [(row.finish.value - row.scheduled) as real];
      } else {
        bad := bad + 1;
      }
    }
    assert arrivals[..|arrivals|] == arrivals;
  }

  lemma CountStep(rows: seq<Request>, i: nat, p: Request -> bool)
    requires i < |rows|
    ensures CountWhere(rows[..i + 1], p) == CountWhere(rows[..i], p) + (if p(rows[i]) then 1 else 0)
  {
    assert rows[..i + 1] == rows[..i] + [rows[i]];
    CountAppend(rows[..i], rows[i], p);
  }

  lemma {:induction false} CountAppend(rows: seq<Request>, r: Request, p: Request -> bool)
    ensures CountWhere(rows + [r], p) == CountWhere(rows, p) + (if p(r) then 1 else 0)
  {
    if rows == [] {
      assert rows + [r] == [r] && [r][1..] == [];
    } else {
      assert (rows + [r])[1..] == rows[1..] + [r];
      CountAppend(rows[1..], r, p);
    }
  }

  lemma TallyStep(rows: seq<Request>, i: nat, cfg: Config)
    requires i < |rows|
    ensures CountGood(rows[..i + 1], cfg) == CountGood(rows[..i], cfg) + (if Good(rows[i], cfg) then 1 else 0)
    ensures GoodLatencies(rows[..i + 1], cfg) ==
            GoodLatencies(rows[..i], cfg) + (if Good(rows[i], cfg) then [Latency(rows[i]) as real] else [])
  {
    assert rows[..i + 1] == rows[..i] + [rows[i]];
    TallyAppend(rows[..i], rows[i], cfg);
  }

  lemma {:induction false} TallyAppend(rows: seq<Request>, r: Request, cfg: Config)
    ensures CountGood(rows + [r], cfg) == CountGood(rows, cfg) + (if Good(r, cfg) then 1 else 0)
    ensures GoodLatencies(rows + [r], cfg) ==
            GoodLatencies(rows, cfg) + (if Good(r, cfg) then [Latency(r) as real] else [])
  {
    hide Good, Latency;
    if rows == [] {
      assert rows + [r] == [r] && [r][1..] == [];
    } else {
      assert (rows + [r])[1..] == rows[1..] + [r];
      TallyAppend(rows[1..], r, cfg);
    }
  }

  /** Some bin is complete without a sample, so its bad fraction divides by zero. */
  ghost predicate Undefined(arrivals: seq<Request>, cfg: Config, start: int, end: int)
    requires cfg.binWidth > 0
  {
    exists i :: 0 <= i < BinCount(start, end, cfg) && BinAt(arrivals, start, end, i, cfg).DivisionByZero?
  }

  /** The samples of an interval, how many violate the objective, and the latencies of the good ones. */
  method SampleInterval(arrivals: seq<Request>, a: int, b: int, cfg: Config)
    returns (samples: nat, bad: nat, latencies: seq<real>)
    ensures var rows := Within(arrivals, a, b);
      samples == |rows| && bad == CountViolations(rows, cfg) && latencies == GoodLatencies(rows, cfg)
  {
    hide Good, Reversed, Latency, Violates, Within, CountViolations, GoodLatencies;
    samples, bad, latencies := 0, 0, [];
    NothingSampled(a, b, cfg);
    for i := 0 to |arrivals|
      invariant var rows := Within(arrivals[..i], a, b);
        samples == |rows| && bad == CountViolations(rows, cfg) && latencies == GoodLatencies(rows, cfg)
    {
      var row := arrivals[i];
      assert arrivals[..i + 1] == arrivals[..i] + [row];
      WithinAppend(arrivals[..i], row, a, b);
      if a <= row.scheduled && row.scheduled < b {
        var good, backwards := Assess(row, cfg);
        TallyAppend(Within(arrivals[..i], a, b), row, cfg);
        ViolationsAppend(Within(arrivals[..i], a, b), row, cfg);
        ViolatesExactly(row, cfg);
        samples := samples + 1;
        if !good || row.finish.value - row.scheduled > cfg.slo { bad := bad + 1; }
        if good { latencies := latencies + [(row.finish.value - row.scheduled) as real]; }
      } else {
        assert Within(arrivals[..i], a, b) + [] == Within(arrivals[..i], a, b);
      }
    }
    assert arrivals[..|arrivals|] == arrivals;
  }

  lemma NothingSampled(a: int, b: int, cfg: Config)
    ensures Within([], a, b) == [] && CountViolations([], cfg) == 0 && GoodLatencies([], cfg) == []
  {}

  /** int(round(seconds * rate)). */
  method Due(span: int, rate: real) returns (due: int)
    ensures due == Quota(span, rate)
  {
    due := Round(span as real / 1000000.0 * rate);
  }

  /** One bin. */
  method MakeBin(arrivals: seq<Request>, a: int, b: int, cfg: Config) returns (r: Result<Bin>)
    ensures r == BinOver(arrivals, a, b, cfg)
  {
    hide Within, CountViolations, GoodLatencies, QuantileOf, Quota, Round;
    var samples, bad, latencies := SampleInterval(arrivals, a, b, cfg);
    var due := Due(b - a, cfg.rate);
    var complete := samples >= cfg.minSamples && samples >= due;
    if complete && samples == 0 { return DivisionByZero; }
    var p95 := QuantileOf(latencies, 0.95);
    var healthy := complete && bad as real / samples as real <= cfg.maxBadFraction
                   && p95.Some? && p95.value <= cfg.slo as real;
    r := Ok(Bin(a, b, samples, complete, healthy, bad, p95));
  }

  lemma {:induction false} WithinAppend(rows: seq<Request>, r: Request, a: int, b: int)
    ensures Within(rows + [r], a, b) == Within(rows, a, b) + if a <= r.scheduled < b then [r] else []
  {
    if rows == [] {
      assert rows + [r] == [r] && [r][1..] == [];
    } else {
      assert (rows + [r])[1..] == rows[1..] + [r];
      WithinAppend(rows[1..], r, a, b);
      var head := if a <= rows[0].scheduled < b then [rows[0]] else [];
      var last := if a <= r.scheduled < b then [r] else [];
      assert head + (Within(rows[1..], a, b) + last) == head + Within(rows[1..], a, b) + last;
    }
  }

  lemma {:induction false} ViolationsAppend(rows: seq<Request>, r: Request, cfg: Config)
    ensures CountViolations(rows + [r], cfg) == CountViolations(rows, cfg) + if Violates(r, cfg) then 1 else 0
  {
    hide Violates;
    if rows == [] {
      assert rows + [r] == [r] && [r][1..] == [];
    } else {
      assert (rows + [r])[1..] == rows[1..] + [r];
      ViolationsAppend(rows[1..], r, cfg);
    }
  }

  lemma ViolatesExactly(r: Request, cfg: Config)
    ensures Violates(r, cfg) <==> !Good(r, cfg) || Latency(r) > cfg.slo
  {}

  /** The arrivals scheduled in the interval. */
  method Select(requests: seq<Request>, start: int, end: int) returns (arrivals: seq<Request>)
    ensures arrivals == Within(requests, start, end)
  {
    arrivals := [];
    for i := 0 to |requests|
      invariant arrivals == Within(requests[..i], start, end)
    {
      assert requests[..i + 1] == requests[..i] + [requests[i]];
      WithinAppend(requests[..i], requests[i], start, end);
      if start <= requests[i].scheduled && requests[i].scheduled < end { arrivals := arrivals + [requests[i]]; }
    }
    assert requests[..|requests|] == requests;
  }

  /** Seconds of complete but unhealthy bins, and of incomplete ones. */
  method Totals(bins: seq<Bin>) returns (violation: int, unobserved: int)
    ensures violation == TotalWhere(bins, Violating) && unobserved == TotalWhere(bins, Unobserved)
  {
    violation, unobserved := 0, 0;
    for i := 0 to |bins|
      invariant violation == TotalWhere(bins[..i], Violating) && unobserved == TotalWhere(bins[..i], Unobserved)
    {
      assert bins[..i + 1] == bins[..i] + [bins[i]];
      TotalAppend(bins[..i], bins[i], Violating);
      TotalAppend(bins[..i], bins[i], Unobserved);
      if !bins[i].complete {
        unobserved := unobserved + (bins[i].end - bins[i].start);
      } else if !bins[i].healthy {
        violation := violation + (bins[i].end - bins[i].start);
      }
    }
    assert bins[..|bins|] == bins;
  }

  /** Rounding goes to the nearest integer, and from halfway to the even one. */
  lemma RoundNearest(x: real)
    ensures -0.5 <= x - Round(x) as real <= 0.5
    ensures x - Round(x) as real == 0.5 || x - Round(x) as real == -0.5 ==> Round(x) % 2 == 0
  {}

  /** The bin loop. */
  method MakeBins(arrivals: seq<Request>, cfg: Config, start: int, end: int) returns (r: Result<seq<Bin>>)
    requires cfg.binWidth > 0
    ensures r.Ok? ==> |r.value| == Max(0, BinCount(start, end, cfg)) && BinsOf(r.value, arrivals, start, end, cfg)
    ensures r.DivisionByZero? <==> EmptyBinComplete(arrivals, cfg, start, end)
  {
    hide BinAt, BinOver, EmptyBinComplete;
    DividesExactly(arrivals, cfg, start, end);
    var bins: seq<Bin> := [];
    var i := 0;
    while i < BinCount(start, end, cfg)
      invariant 0 <= i == |bins| <= Max(0, BinCount(start, end, cfg))
      invariant BinsOf(bins, arrivals, start, end, cfg)
    {
      var a := start + i * cfg.binWidth;
      var next := start + (i + 1) * cfg.binWidth;
      BinAtIs(arrivals, start, end, i, cfg);
      var b := MakeBin(arrivals, a, if next < end then next else end, cfg);
      if b.DivisionByZero? { return DivisionByZero; }
      bins := bins + [b.value];
      i := i + 1;
    }
    return Ok(bins);
  }

  lemma BinAtIs(arrivals: seq<Request>, start: int, end: int, i: int, cfg: Config)
    ensures var a, next := start + i * cfg.binWidth, start + (i + 1) * cfg.binWidth;
      BinAt(arrivals, start, end, i, cfg) == BinOver(arrivals, a, if next < end then next else end, cfg)
  {
    hide BinOver;
  }

  /** The tail loop. */
  method HealthyTail(bins: seq<Bin>) returns (tail: seq<Bin>)
    ensures |tail| <= |bins| && tail == bins[|bins| - |tail|..]
    ensures MaximalTail(bins, |bins| - |tail|)
  {
    tail := [];
    for i := 0 to |bins|
      invariant |tail| <= i && tail == bins[i - |tail|..i]
      invariant forall k :: i - |tail| <= k < i ==> bins[k].healthy
      invariant i > |tail| ==> !bins[i - |tail| - 1].healthy
    {
      tail := if bins[i].healthy then tail + [bins[i]] else [];
    }
  }

  /** The tail and the two expressions that read it. */
  method FinalTail(bins: seq<Bin>, stable: int) returns (recovery: Option<int>, confirmed: Option<int>)
    ensures RecoveryOf(bins, stable, recovery, confirmed)
  {
    hide RecoveryOf;
    var tail := HealthyTail(bins);
    ghost var k := |bins| - |tail|;
    if tail == [] || tail[|tail| - 1].end - tail[0].start < stable {
      NoRecovery(bins, k, stable);
      return None, None;
    }
    recovery := Some(tail[0].start);
    var j := 0;
    while tail[j].end - tail[0].start < stable
      invariant 0 <= j < |tail|
      invariant forall i :: k <= i < k + j ==> bins[i].end - bins[k].start < stable
      decreases |tail| - j
    {
      j := j + 1;
    }
    confirmed := Some(tail[j].end);
    Recovered(bins, k, k + j, stable);
  }

  lemma NoRecovery(bins: seq<Bin>, k: nat, stable: int)
    requires MaximalTail(bins, k) && !LongTail(bins, k, stable)
    ensures RecoveryOf(bins, stable, None, None)
  {
    TailUnique(bins, k);
  }

  lemma Recovered(bins: seq<Bin>, k: nat, j: nat, stable: int)
    requires LongTail(bins, k, stable) && FirstFar(bins, k, j, stable)
    ensures RecoveryOf(bins, stable, Some(bins[k].start), Some(bins[j].end))
  {
    TailUnique(bins, k);
  }

  /** There is one maximal tail. */
  lemma TailUnique(bins: seq<Bin>, k: nat)
    requires MaximalTail(bins, k)
    ensures forall l: nat :: MaximalTail(bins, l) ==> l == k
  {}

  /** The whole analysis of one interval; `expected` overrides the arrivals the rate implies. */
  method Analyse(requests: seq<Request>, cfg: Config, start: int, end: int, expected: Option<int>)
    returns (r: Result<Metrics>)
    requires cfg.binWidth > 0
    ensures r.DivisionByZero? <==> EmptyBinComplete(Within(requests, start, end), cfg, start, end)
    ensures r.Ok? ==> MetricsOf(r.value, requests, cfg, start, end, expected)
  {
    hide Quota, Round, QuantileOf, GoodLatencies, CountGood, CountWhere;
    hide EmptyBinComplete, BinAt, BinsOf, RecoveryOf, TotalWhere, Reversed, DuplicateIds, DuplicateIndexes, Within;
    var errors := CheckIdentities(requests);
    var due := Due(end - start, cfg.rate);
    var wanted := if expected.Some? then expected.value else due;
    var arrivals := Select(requests, start, end);
    var missing := Max(0, wanted - |arrivals|);
    if |arrivals| != wanted { errors := errors + {ArrivalsIncomplete}; }
    var bad, incomplete, rejections, latencies, reversed := Tally(arrivals, cfg);
    if reversed { errors := errors + {TimeReversed}; }
    var made := MakeBins(arrivals, cfg, start, end);
    if made.DivisionByZero? { return DivisionByZero; }
    var bins := made.value;
    var recovery, confirmed := FinalTail(bins, cfg.stable);
    var violation, unobserved := Totals(bins);
    r := Ok(Metrics(wanted, |arrivals|, missing + bad, missing, incomplete, rejections,
                    QuantileOf(latencies, 0.95), bins,
                    violation, unobserved,
                    recovery, confirmed, errors));
  }

  /** What the reported metrics are, in terms of the requests. */
  ghost predicate MetricsOf(m: Metrics, requests: seq<Request>, cfg: Config, start: int, end: int,
    expected: Option<int>)
    requires cfg.binWidth > 0
  {
    var arrivals := Within(requests, start, end);
    && m.expected == (if expected.Some? then expected.value else Quota(end - start, cfg.rate))
    && m.observed == |arrivals|
    && m.missing == Max(0, m.expected - m.observed)
    && m.failures == m.missing + (m.observed - CountGood(arrivals, cfg))
    && m.rejections == CountWhere(arrivals, TurnedAway) && m.incomplete == CountWhere(arrivals, Unanswered)
    && m.latencyP95 == QuantileOf(GoodLatencies(arrivals, cfg), 0.95)
    && |m.bins| == Max(0, BinCount(start, end, cfg)) && BinsOf(m.bins, arrivals, start, end, cfg)
    && m.violation == TotalWhere(m.bins, Violating)
    && m.unobserved == TotalWhere(m.bins, Unobserved)
    && RecoveryOf(m.bins, cfg.stable, m.recoveryStart, m.stableConfirmed)
    && (RequestId in m.errors <==> DuplicateIds(requests))
    && (ArrivalIndex in m.errors <==> DuplicateIndexes(requests))
    && (ArrivalsIncomplete in m.errors <==> m.observed != m.expected)
    && (TimeReversed in m.errors <==> exists i :: 0 <= i < |arrivals| && Reversed(arrivals[i]))
  }

  // ---- conservation ----

  /** No request is lost between the outcomes: good and failed together are the larger of
      what was expected and what arrived. */
  lemma Conservation(m: Metrics, requests: seq<Request>, cfg: Config, start: int, end: int, expected: Option<int>)
    requires cfg.binWidth > 0 && MetricsOf(m, requests, cfg, start, end, expected)
    ensures CountGood(Within(requests, start, end), cfg) + m.failures == Max(m.expected, m.observed)
  {}

  /** The bins tile the interval: each instant lies in exactly one of them. */
  lemma BinsTile(start: int, end: int, cfg: Config, t: int) returns (i: int)
    requires cfg.binWidth > 0 && start <= t < end
    ensures 0 <= i < BinCount(start, end, cfg)
    ensures BinStart(start, i, cfg) <= t < BinEnd(start, end, i, cfg)
    ensures forall j :: 0 <= j < BinCount(start, end, cfg) && j != i ==>
              !(BinStart(start, j, cfg) <= t < BinEnd(start, end, j, cfg))
  {
    var w := cfg.binWidth;
    i := (t - start) / w;
    DivBounds(t - start, w);
    CeilBounds(end - start, w);
    if i >= BinCount(start, end, cfg) { Scale(BinCount(start, end, cfg), i, w); }
    forall j | 0 <= j < BinCount(start, end, cfg) && j != i
      ensures !(BinStart(start, j, cfg) <= t < BinEnd(start, end, j, cfg))
    {
      if j < i { Scale(j + 1, i, w); } else { Scale(i + 1, j, w); }
    }
  }

  lemma DivBounds(a: int, w: int)
    requires w > 0 && a >= 0
    ensures 0 <= a / w && a / w * w <= a < (a / w + 1) * w
  {}

  lemma CeilBounds(a: int, w: int)
    requires w > 0
    ensures (CeilDiv(a, w) - 1) * w < a <= CeilDiv(a, w) * w
  {
    var b := a + w - 1;
    assert b == b / w * w + b % w;
  }

  lemma Scale(a: int, b: int, w: int)
    requires a <= b && w > 0
    ensures a * w <= b * w
  {}

  /** Bin ends and starts meet, and the last bin ends at the end. */
  lemma BinsMeet(start: int, end: int, cfg: Config, i: int)
    requires cfg.binWidth > 0 && 0 <= i < BinCount(start, end, cfg)
    ensures BinStart(start, i, cfg) < BinEnd(start, end, i, cfg)
    ensures i + 1 < BinCount(start, end, cfg) ==> BinEnd(start, end, i, cfg) == BinStart(start, i + 1, cfg) < end
    ensures i + 1 == BinCount(start, end, cfg) ==> BinEnd(start, end, i, cfg) == end
  {
    var w, n := cfg.binWidth, BinCount(start, end, cfg);
    CeilBounds(end - start, w);
    Scale(i, n - 1, w);
    Scale(i + 1, n, w);
    if i + 1 < n { Scale(i + 1, n - 1, w); }
  }

  lemma BinFields(arrivals: seq<Request>, start: int, end: int, i: int, cfg: Config, b: Bin)
    requires BinAt(arrivals, start, end, i, cfg) == Ok(b)
    ensures b.start == BinStart(start, i, cfg) && b.end == BinEnd(start, end, i, cfg)
    ensures b.samples == |Within(arrivals, b.start, b.end)|
    ensures b.healthy ==> b.complete
    ensures b.p95 == QuantileOf(GoodLatencies(Within(arrivals, b.start, b.end), cfg), 0.95)
  {}

  lemma {:induction false} WithinJoin(rows: seq<Request>, a: int, b: int, c: int)
    requires a <= b <= c
    ensures |Within(rows, a, b)| + |Within(rows, b, c)| == |Within(rows, a, c)|
  {
    if rows != [] { WithinJoin(rows[1..], a, b, c); }
  }

  lemma {:induction false} WithinIdempotent(rows: seq<Request>, a: int, b: int)
    ensures Within(Within(rows, a, b), a, b) == Within(rows, a, b)
  {
    if rows != [] {
      var rest := Within(rows[1..], a, b);
      WithinIdempotent(rows[1..], a, b);
      if a <= rows[0].scheduled < b {
        assert ([rows[0]] + rest)[1..] == rest;
        assert Within([rows[0]] + rest, a, b) == [rows[0]] + Within(rest, a, b);
      } else {
        assert [] + rest == rest;
      }
    }
  }

  lemma {:induction false} WithinNone(rows: seq<Request>, a: int)
    ensures Within(rows, a, a) == []
  {
    if rows != [] { WithinNone(rows[1..], a); }
  }

  lemma {:induction false} TotalAppend(bins: seq<Bin>, b: Bin, p: Bin -> bool)
    ensures TotalWhere(bins + [b], p) == TotalWhere(bins, p) + (if p(b) then Span(b) else 0)
    ensures SampleTotal(bins + [b]) == SampleTotal(bins) + b.samples
  {
    if bins == [] {
      assert bins + [b] == [b] && [b][1..] == [];
    } else {
      assert (bins + [b])[1..] == bins[1..] + [b];
      TotalAppend(bins[1..], b, p);
    }
  }

  /** Up to any bin, its samples and its time are exactly those of the interval so far. */
  lemma {:induction false} PrefixTotals(bins: seq<Bin>, n: nat, arrivals: seq<Request>, start: int, end: int,
      cfg: Config)
    requires cfg.binWidth > 0 && n <= |bins| == BinCount(start, end, cfg)
    requires BinsOf(bins, arrivals, start, end, cfg)
    ensures var reached := if n == 0 then start else bins[n - 1].end;
            && start <= reached
            && SampleTotal(bins[..n]) == |Within(arrivals, start, reached)|
            && TotalWhere(bins[..n], Sound) + TotalWhere(bins[..n], Violating) + TotalWhere(bins[..n], Unobserved)
               == reached - start
  {
    if n == 0 {
      WithinNone(arrivals, start);
    } else {
      hide TotalWhere, SampleTotal, Within, BinAt;
      PrefixTotals(bins, n - 1, arrivals, start, end, cfg);
      PrefixStep(bins, n, arrivals, start, end, cfg);
    }
  }

  lemma PrefixStep(bins: seq<Bin>, n: nat, arrivals: seq<Request>, start: int, end: int, cfg: Config)
    requires cfg.binWidth > 0 && 0 < n <= |bins| == BinCount(start, end, cfg)
    requires BinsOf(bins, arrivals, start, end, cfg)
    ensures var b := bins[n - 1];
            var before := if n == 1 then start else bins[n - 2].end;
            && b.start == before <= b.end
            && (start <= before ==>
                 |Within(arrivals, start, before)| + b.samples == |Within(arrivals, start, b.end)|)
            && SampleTotal(bins[..n]) == SampleTotal(bins[..n - 1]) + b.samples
            && TotalWhere(bins[..n], Sound) + TotalWhere(bins[..n], Violating) + TotalWhere(bins[..n], Unobserved)
               == TotalWhere(bins[..n - 1], Sound) + TotalWhere(bins[..n - 1], Violating)
                  + TotalWhere(bins[..n - 1], Unobserved) + Span(b)
  {
    hide TotalWhere, SampleTotal, Within, BinAt, BinCount;
    var b := bins[n - 1];
    BinFields(arrivals, start, end, n - 1, cfg, b);
    BinsMeet(start, end, cfg, n - 1);
    if n > 1 {
      BinFields(arrivals, start, end, n - 2, cfg, bins[n - 2]);
      BinsMeet(start, end, cfg, n - 2);
    }
    if start <= b.start { WithinJoin(arrivals, start, b.start, b.end); }
    assert bins[..n] == bins[..n - 1] + [b];
    TotalAppend(bins[..n - 1], b, Sound);
    TotalAppend(bins[..n - 1], b, Violating);
    TotalAppend(bins[..n - 1], b, Unobserved);
  }

  /** Every arrival is sampled by exactly one bin, and the healthy, violating and unobserved
      seconds add up to the interval. */
  lemma BinsConserve(m: Metrics, requests: seq<Request>, cfg: Config, start: int, end: int, expected: Option<int>)
    requires cfg.binWidth > 0 && start <= end && MetricsOf(m, requests, cfg, start, end, expected)
    ensures SampleTotal(m.bins) == m.observed
    ensures TotalWhere(m.bins, Sound) + m.violation + m.unobserved == end - start
  {
    hide TotalWhere, SampleTotal, Within, BinAt;
    var arrivals, n := Within(requests, start, end), |m.bins|;
    CeilBounds(end - start, cfg.binWidth);
    if BinCount(start, end, cfg) < 0 { Scale(BinCount(start, end, cfg), -1, cfg.binWidth); }
    PrefixTotals(m.bins, n, arrivals, start, end, cfg);
    assert m.bins[..n] == m.bins;
    if n > 0 {
      BinFields(arrivals, start, end, n - 1, cfg, m.bins[n - 1]);
      BinsMeet(start, end, cfg, n - 1);
    }
    WithinIdempotent(requests, start, end);
  }

  // ---- recovery ----

  /** A recovery start is reported exactly when a healthy suffix of the bins that cannot be
      extended backwards lasts the stability period, and it is that suffix's start. */
  lemma RecoveryExact(bins: seq<Bin>, stable: int, recovery: Option<int>, confirmed: Option<int>, t: int)
    requires RecoveryOf(bins, stable, recovery, confirmed)
    ensures recovery == Some(t) <==> exists k: nat :: LongTail(bins, k, stable) && bins[k].start == t
    ensures recovery == None <==> confirmed == None
    ensures recovery.Some? ==> confirmed.Some? && confirmed.value - recovery.value >= stable
  {
    hide MaximalTail;
    if k: nat :| LongTail(bins, k, stable) {
      forall l: nat | LongTail(bins, l, stable)
        ensures l == k
      {
        TailUnique(bins, k);
      }
    }
  }

  // ---- latencies ----

  lemma {:induction false} GoodWithinDeadline(rows: seq<Request>, cfg: Config)
    ensures forall i :: 0 <= i < |GoodLatencies(rows, cfg)| ==>
              -1000.0 <= GoodLatencies(rows, cfg)[i] <= cfg.deadline as real
  {
    if rows != [] { GoodWithinDeadline(rows[1..], cfg); }
  }

  lemma GoodQuantile(rows: seq<Request>, cfg: Config)
    ensures var q := QuantileOf(GoodLatencies(rows, cfg), 0.95);
            q.Some? ==> -1000.0 <= q.value <= cfg.deadline as real
  {
    hide QuantileOf;
    var latencies := GoodLatencies(rows, cfg);
    GoodWithinDeadline(rows, cfg);
    if latencies == [] {
      NoQuantile();
    } else {
      QuantileBounds(latencies, 0.95, -1000.0, cfg.deadline as real);
    }
  }

  lemma NoQuantile()
    ensures QuantileOf([], 0.95) == None
  {}

  /** Every reported successful p95, of the interval and of each bin, is at most the deadline. */
  lemma ReportedP95WithinDeadline(m: Metrics, requests: seq<Request>, cfg: Config, start: int, end: int,
                                  expected: Option<int>)
    requires cfg.binWidth > 0 && MetricsOf(m, requests, cfg, start, end, expected)
    ensures m.latencyP95.Some? ==> m.latencyP95.value <= cfg.deadline as real
    ensures forall i :: 0 <= i < |m.bins| && m.bins[i].p95.Some? ==> m.bins[i].p95.value <= cfg.deadline as real
  {
    hide QuantileOf, GoodLatencies, Within, BinAt;
    var arrivals := Within(requests, start, end);
    GoodQuantile(arrivals, cfg);
    forall i | 0 <= i < |m.bins| && m.bins[i].p95.Some?
      ensures m.bins[i].p95.value <= cfg.deadline as real
    {
      var b := m.bins[i];
      BinFields(arrivals, start, end, i, cfg, b);
      GoodQuantile(Within(arrivals, b.start, b.end), cfg);
    }
  }
}
