/** `OpenLoopProbe.loop`: one row per scheduled arrival, whatever the order in which the
    worker threads finish, and whenever another thread sets the horizon. */
module OpenLoop {
  import opened Options
  import opened RequestMetrics

  /** str(n). */
  function Decimal(n: nat): string {
    var digit := "0123456789"[n % 10];
    if n < 10 then [digit] else Decimal(n / 10) + [digit]
  }

  function Range(n: nat): seq<nat> {
    seq(n, i => i)
  }

  /** The arrival index each row carries. */
  function Indexes(rows: seq<Request>): (s: seq<Option<int>>)
    ensures |s| == |rows|
  {
    seq(|rows|, i requires 0 <= i < |rows| => rows[i].index)
  }

  /** What a probe returns; it may also claim an identity of its own. */
  datatype Answer =
    | Failed
    | Answered(ok: bool, correct: Option<bool>, claimedId: Option<string>, claimedIndex: Option<int>,
               claimedFinish: Option<int>, claimedRejection: Option<bool>)

  /** A row before its probe answers. */
  function Started(index: nat, scheduled: int, begin: Option<int>): Request {
    Request(Some(Decimal(index)), Some(index), scheduled, begin, None, false, false, false)
  }

  /** row.update over the unprotected keys: claims to an identity or a time are dropped. */
  function Merge(row: Request, answer: Answer, finish: int): Request {
    match answer
    case Failed => row.(finish := Some(finish))
    case Answered(ok, correct, _, _, _, _) =>
      row.(ok := ok, correct := if correct.Some? then correct.value else ok, finish := Some(finish))
  }

  /** The three ways an arrival can end. */
  predicate RowFor(row: Request, index: nat, scheduled: int) {
    && row.id == Some(Decimal(index)) && row.index == Some(index) && row.scheduled == scheduled
    && (row.rejected ==> row.begin == None && row.finish == None && !row.ok && !row.correct)
    && (row.finish == None ==> !row.ok && !row.correct)
  }

  /** What one look at the horizon sees: other threads may set or clear either bound at any time. */
  datatype Bounds = Bounds(until: Option<real>, untilUtc: Option<real>)

  /** outside_horizon, for the bounds it sees. */
  predicate Outside(b: Bounds, wall: real, monotonic: real) {
    b.until.Some? && monotonic >= b.until.value && (b.untilUtc.None? || wall >= b.untilUtc.value)
  }

  /** Do both looks at the horizon before arrival i, one on each side of the wait, admit it? */
  predicate Admitted(horizon: nat -> Bounds, i: nat, wall: real, anchor: real, rate: real)
    requires rate > 0.0
  {
    && !Past(horizon(2 * i), At(wall, i, rate), At(anchor, i, rate))
    && !Past(horizon(2 * i + 1), At(wall, i, rate), At(anchor, i, rate))
  }

  /** Is an arrival at or after every bound, the monotonic one being set? */
  predicate Past(b: Bounds, wall: real, monotonic: real) {
    && b.until.Some? && b.until.value <= monotonic
    && (b.untilUtc.Some? ==> b.untilUtc.value <= wall)
  }

  lemma OutsideIsPast(b: Bounds, wall: real, monotonic: real)
    ensures Outside(b, wall, monotonic) <==> Past(b, wall, monotonic)
  {}

  /** Arrivals start at the origin and are 1/rate apart; a timestamp is within a microsecond of its time. */
  lemma ArrivalTimes(origin: real, i: int, rate: real)
    requires rate > 0.0
    ensures At(origin, 0, rate) == origin && At(origin, i + 1, rate) - At(origin, i, rate) == 1.0 / rate
    ensures Micros(origin) as real <= origin * 1000000.0 < Micros(origin) as real + 1.0
  {
    var a, b := i as real / rate, (i + 1) as real / rate;
    assert a * rate == i as real && b * rate == (i + 1) as real;
    assert (b - a) * rate == 1.0;
  }

  /** Is some bound that the loop has looked at by arrival `stop` behind all arrivals from there on? */
  predicate HorizonPassed(horizon: nat -> Bounds, stop: nat, planned: int, wall: real, anchor: real, rate: real)
    requires rate > 0.0
  {
    exists k :: 2 * stop <= k <= 2 * stop + 1 &&
      forall j :: stop <= j < planned ==> Past(horizon(k), At(wall, j, rate), At(anchor, j, rate))
  }

  /** An arrival is turned away exactly when maxInflight others are scheduled and not yet emitted: `emitted[j]`
      is the number of rows when arrival j was decided on, and a rejection is the next row. */
  ghost predicate Rejections(rows: seq<Request>, emitted: seq<nat>, n: nat, maxInflight: nat) {
    && |emitted| == n
    && (forall j :: 0 <= j < n ==> emitted[j] <= |rows| && emitted[j] <= j)
    && (forall j :: 0 <= j < n && j - emitted[j] >= maxInflight ==>
          emitted[j] < |rows| && rows[emitted[j]].rejected && rows[emitted[j]].index == Some(j))
    && (forall k :: 0 <= k < |rows| && rows[k].rejected ==>
          exists j :: 0 <= j < n && emitted[j] == k && j - emitted[j] >= maxInflight)
  }

  lemma EmitKeepsRejections(rows: seq<Request>, row: Request, emitted: seq<nat>, n: nat, maxInflight: nat)
    requires Rejections(rows, emitted, n, maxInflight) && !row.rejected
    ensures Rejections(rows + [row], emitted, n, maxInflight)
  {
    var more := rows + [row];
    assert forall k :: 0 <= k < |rows| ==> more[k] == rows[k];
  }

  /** Arrival n is decided on: turned away when enough others are pending, else taken in. */
  lemma DecisionKeepsRejections(rows: seq<Request>, row: Request, emitted: seq<nat>, n: nat, maxInflight: nat)
    requires Rejections(rows, emitted, n, maxInflight) && |rows| <= n
    ensures n - |rows| < maxInflight ==> Rejections(rows, emitted + [|rows|], n + 1, maxInflight)
    ensures n - |rows| >= maxInflight && row.rejected && row.index == Some(n) ==>
              Rejections(rows + [row], emitted + [|rows|], n + 1, maxInflight)
  {
    var decided, more := emitted + [|rows|], rows + [row];
    assert forall j :: 0 <= j < n ==> decided[j] == emitted[j];
    assert forall k :: 0 <= k < |rows| ==> more[k] == rows[k];
    assert decided[n] == |rows|;
  }

  /** The time of arrival i on a clock that read `origin` at the start. */
  function At(origin: real, i: int, rate: real): real
    requires rate > 0.0
  {
    origin + i as real / rate
  }

  /** The row's timestamp, in microseconds. */
  function Micros(t: real): int {
    (t * 1000000.0).Floor
  }

  class OpenLoopProbe {
    var rows: seq<Request>
    ghost var peak: nat
    ghost var emitted: seq<nat>

    constructor ()
      ensures rows == [] && peak == 0 && emitted == []
    {
      rows, peak, emitted := [], 0, [];
    }

    /** The whole loop, to a normal exit: `horizon(k)` is what its k-th look at the horizon sees, and `stop`
        the number of arrivals it scheduled. It schedules every planned arrival up to the first that a look
        finds outside, so none that is before either bound is skipped. */
    method Loop(wall: real, anchor: real, rate: real, seconds: real, maxInflight: nat, horizon: nat -> Bounds)
      returns (stop: nat)
      requires rate > 0.0 && maxInflight > 0 && rows == [] && peak == 0 && emitted == []
      modifies this
      ensures multiset(Indexes(rows)) == Expected(stop)
      ensures Identified(rows, stop, wall, rate)
      ensures peak <= maxInflight && Rejections(rows, emitted, stop, maxInflight)
      ensures var planned := (seconds * rate).Floor;
              && stop <= Max(0, planned)
              && (forall i :: 0 <= i < stop ==> Admitted(horizon, i, wall, anchor, rate))
              && (stop < planned ==> !Admitted(horizon, stop, wall, anchor, rate)
                                     && HorizonPassed(horizon, stop, planned, wall, anchor, rate))
      ensures (forall k :: horizon(k).until.None?) ==> stop == Max(0, (seconds * rate).Floor)
    {
      hide Decimal, RowFor, At, Micros, Indexes, Past, Expected, Identified, Admitted, HorizonPassed, Rejections;
      var planned := (seconds * rate).Floor;
      var pending: seq<nat>;
      AccountedNone(wall, rate);
      NothingRejected(maxInflight);
      stop, pending := Schedule(wall, anchor, rate, planned, maxInflight, horizon);
      if stop < planned { SkippedOutside(horizon, wall, anchor, rate, stop, planned); }
      if forall k :: horizon(k).until.None? { NoHorizonAdmits(horizon, stop, wall, anchor, rate); }
      Finish(pending, stop, wall, rate, maxInflight);
      NothingPending();
    }

    /** The arrivals, until the last planned one or the horizon. */
    method Schedule(wall: real, anchor: real, rate: real, planned: int, maxInflight: nat, horizon: nat -> Bounds)
      returns (i: nat, pending: seq<nat>)
      requires rate > 0.0 && maxInflight > 0 && peak == 0 && rows == [] && Accounted(rows, [], 0, wall, rate)
      requires Rejections(rows, emitted, 0, maxInflight)
      modifies this
      ensures Accounted(rows, pending, i, wall, rate) && peak <= maxInflight
      ensures Rejections(rows, emitted, i, maxInflight)
      ensures i <= Max(0, planned) && forall j :: 0 <= j < i ==> Admitted(horizon, j, wall, anchor, rate)
      ensures i < planned ==> !Admitted(horizon, i, wall, anchor, rate)
    {
      hide Decimal, RowFor, At, Micros, Accounted, Outside, Past, Rejections;
      i, pending := 0, [];
      while i < planned
        invariant i <= Max(0, planned)
        invariant forall j :: 0 <= j < i ==> Admitted(horizon, j, wall, anchor, rate)
        invariant Accounted(rows, pending, i, wall, rate)
        invariant |pending| <= maxInflight && peak <= maxInflight && |rows| + |pending| == i
        invariant Rejections(rows, emitted, i, maxInflight)
      {
        OutsideIsPast(horizon(2 * i), At(wall, i, rate), At(anchor, i, rate));
        OutsideIsPast(horizon(2 * i + 1), At(wall, i, rate), At(anchor, i, rate));
        if Outside(horizon(2 * i), At(wall, i, rate), At(anchor, i, rate)) { break; }
        // wait_for_arrival sleeps here; both bounds may have moved when it returns
        if Outside(horizon(2 * i + 1), At(wall, i, rate), At(anchor, i, rate)) { break; }
        pending := Harvest(pending, i, wall, rate, maxInflight);
        var turned := Started(i, Micros(At(wall, i, rate)), None).(rejected := true);
        DecisionKeepsRejections(rows, turned, emitted, i, maxInflight);
        emitted := emitted + [|rows|];
        if |pending| >= maxInflight {
          RejectedRow(i, Micros(At(wall, i, rate)));
          AccountedRow(rows, pending, i, wall, rate, turned);
          rows := rows + [turned];
        } else {
          AccountedPending(rows, pending, i, wall, rate);
          pending := pending + [i];
          peak := if |pending| > peak then |pending| else peak;
        }
        i := i + 1;
      }
    }

    /** The final wait: completed arrivals first, then the unfinished ones. */
    method Finish(waiting: seq<nat>, ghost i: nat, wall: real, rate: real, ghost maxInflight: nat)
      requires rate > 0.0 && Accounted(rows, waiting, i, wall, rate) && Rejections(rows, emitted, i, maxInflight)
      modifies this`rows
      ensures Accounted(rows, [], i, wall, rate) && Rejections(rows, emitted, i, maxInflight)
      ensures |rows| == |old(rows)| + |waiting| && old(rows) <= rows
    {
      hide Decimal, RowFor, At, Micros, Accounted, Rejections;
      var pending := Harvest(waiting, i, wall, rate, maxInflight);
      while pending != []
        invariant Accounted(rows, pending, i, wall, rate) && Rejections(rows, emitted, i, maxInflight)
        invariant |rows| + |pending| == |old(rows)| + |waiting| && old(rows) <= rows
        decreases |pending|
      {
        var begin: Option<int> := *;
        var row := Started(pending[0], Micros(At(wall, pending[0], rate)), begin);
        UnfinishedRow(pending[0], Micros(At(wall, pending[0], rate)), begin);
        AccountedEmit(rows, pending, 0, i, wall, rate, row);
        EmitKeepsRejections(rows, row, emitted, i, maxInflight);
        rows := rows + [row];
        assert pending[1..] == pending[..0] + pending[1..];
        pending := pending[1..];
      }
    }

    /** Emit any of the pending arrivals that have completed, in any order. */
    method Harvest(waiting: seq<nat>, ghost i: nat, wall: real, rate: real, ghost maxInflight: nat)
      returns (pending: seq<nat>)
      requires rate > 0.0 && Accounted(rows, waiting, i, wall, rate) && Rejections(rows, emitted, i, maxInflight)
      modifies this`rows
      ensures Accounted(rows, pending, i, wall, rate) && Rejections(rows, emitted, i, maxInflight)
      ensures |rows| + |pending| == |old(rows)| + |waiting| && old(rows) <= rows
    {
      hide Decimal, RowFor, At, Micros, Accounted, Merge, Rejections;
      pending := waiting;
      var done: bool := *;
      while done && pending != []
        invariant Accounted(rows, pending, i, wall, rate) && Rejections(rows, emitted, i, maxInflight)
        invariant |rows| + |pending| == |old(rows)| + |waiting| && old(rows) <= rows
        decreases |pending|
      {
        var p: nat :| p < |pending|;
        var begin: int, finish: int, answer: Answer := *, *, *;
        var row := Merge(Started(pending[p], Micros(At(wall, pending[p], rate)), Some(begin)), answer, finish);
        MergedRow(pending[p], Micros(At(wall, pending[p], rate)), begin, answer, finish);
        AccountedEmit(rows, pending, p, i, wall, rate, row);
        EmitKeepsRejections(rows, row, emitted, i, maxInflight);
        rows := rows + [row];
        pending := pending[..p] + pending[p + 1..];
        done := *;
      }
    }
  }

  /** Each index below n once. */
  ghost function Expected(n: nat): multiset<Option<int>> {
    multiset(Wrapped(Range(n)))
  }

  function Wrapped(s: seq<nat>): (w: seq<Option<int>>)
    ensures |w| == |s|
  {
    seq(|s|, i requires 0 <= i < |s| => Some(s[i]))
  }

  /** Every arrival before i is either pending or emitted, once, under its own identity. */
  ghost predicate Accounted(rows: seq<Request>, pending: seq<nat>, i: nat, wall: real, rate: real)
    requires rate > 0.0
  {
    && multiset(Indexes(rows)) + multiset(Wrapped(pending)) == Expected(i)
    && (forall p :: 0 <= p < |pending| ==> pending[p] < i)
    && Identified(rows, i, wall, rate)
  }

  /** Every row is the row of some arrival before i, at that arrival's scheduled time. */
  ghost predicate Identified(rows: seq<Request>, i: nat, wall: real, rate: real)
    requires rate > 0.0
  {
    forall k :: 0 <= k < |rows| ==> exists j: nat :: j < i && RowFor(rows[k], j, Micros(At(wall, j, rate)))
  }

  lemma IdentifiedMore(rows: seq<Request>, row: Request, i: nat, j: nat, n: nat, wall: real, rate: real)
    requires rate > 0.0 && Identified(rows, i, wall, rate) && i <= n && j < n
    requires RowFor(row, j, Micros(At(wall, j, rate)))
    ensures Identified(rows, n, wall, rate) && Identified(rows + [row], n, wall, rate)
  {
    hide RowFor, At, Micros;
    forall k | 0 <= k < |rows|
      ensures exists j: nat :: j < n && RowFor(rows[k], j, Micros(At(wall, j, rate)))
    {
      var j: nat :| j < i && RowFor(rows[k], j, Micros(At(wall, j, rate)));
      assert j < n;
    }
  }

  lemma AccountedNone(wall: real, rate: real)
    requires rate > 0.0
    ensures Accounted([], [], 0, wall, rate)
  {
    assert Indexes([]) == [] && Wrapped(Range(0)) == Wrapped([]) == [];
  }

  lemma NothingPending()
    ensures multiset(Wrapped([])) == multiset{}
  {
    assert Wrapped([]) == [];
  }

  lemma RejectedRow(i: nat, scheduled: int)
    ensures RowFor(Started(i, scheduled, None).(rejected := true), i, scheduled)
  {}

  lemma UnfinishedRow(i: nat, scheduled: int, begin: Option<int>)
    ensures RowFor(Started(i, scheduled, begin), i, scheduled)
  {}

  lemma NothingRejected(maxInflight: nat)
    ensures Rejections([], [], 0, maxInflight)
  {}

  /** Whatever a probe claims, its row keeps the identity and schedule of the arrival; it takes over whether
      the probe was answered, and correctly if the probe says so. */
  lemma MergedRow(i: nat, scheduled: int, begin: int, answer: Answer, finish: int)
    ensures RowFor(Merge(Started(i, scheduled, Some(begin)), answer, finish), i, scheduled)
    ensures var row := Merge(Started(i, scheduled, Some(begin)), answer, finish);
      && row.begin == Some(begin) && row.finish == Some(finish) && !row.rejected
      && (row.ok <==> answer.Answered? && answer.ok)
      && (row.correct <==>
            answer.Answered? && (answer.correct == Some(true) || (answer.correct == None && answer.ok)))
  {}

  lemma IndexesAppend(rows: seq<Request>, row: Request)
    ensures multiset(Indexes(rows + [row])) == multiset(Indexes(rows)) + multiset{row.index}
  {
    assert Indexes(rows + [row]) == Indexes(rows) + [row.index];
  }

  lemma WrappedAppend(s: seq<nat>, x: nat)
    ensures multiset(Wrapped(s + [x])) == multiset(Wrapped(s)) + multiset{Some(x as int)}
  {
    assert Wrapped(s + [x]) == Wrapped(s) + [Some(x as int)];
  }

  lemma WrappedRemove(s: seq<nat>, p: nat)
    requires p < |s|
    ensures multiset(Wrapped(s)) == multiset(Wrapped(s[..p] + s[p + 1..])) + multiset{Some(s[p] as int)}
  {
    assert Wrapped(s) == Wrapped(s[..p]) + [Some(s[p] as int)] + Wrapped(s[p + 1..]);
    assert Wrapped(s[..p] + s[p + 1..]) == Wrapped(s[..p]) + Wrapped(s[p + 1..]);
  }

  lemma ExpectedStep(n: nat)
    ensures Expected(n + 1) == Expected(n) + multiset{Some(n as int)}
  {
    assert Range(n + 1) == Range(n) + [n];
    WrappedAppend(Range(n), n);
  }

  lemma AccountedRow(rows: seq<Request>, pending: seq<nat>, i: nat, wall: real, rate: real, row: Request)
    requires rate > 0.0 && Accounted(rows, pending, i, wall, rate)
    requires RowFor(row, i, Micros(At(wall, i, rate)))
    ensures Accounted(rows + [row], pending, i + 1, wall, rate)
  {
    hide Expected, RowFor, At, Micros, Indexes, Wrapped, Identified;
    IndexesAppend(rows, row);
    ExpectedStep(i);
    RowIndex(row, i, Micros(At(wall, i, rate)));
    IdentifiedMore(rows, row, i, i, i + 1, wall, rate);
  }

  lemma RowIndex(row: Request, i: nat, scheduled: int)
    requires RowFor(row, i, scheduled)
    ensures row.index == Some(i)
  {}

  lemma AccountedPending(rows: seq<Request>, pending: seq<nat>, i: nat, wall: real, rate: real)
    requires rate > 0.0 && Accounted(rows, pending, i, wall, rate)
    ensures Accounted(rows, pending + [i], i + 1, wall, rate)
  {
    hide Expected, RowFor, At, Micros, Indexes, Wrapped, Identified;
    WrappedAppend(pending, i);
    ExpectedStep(i);
    var row := Started(i, Micros(At(wall, i, rate)), None);
    UnfinishedRow(i, Micros(At(wall, i, rate)), None);
    IdentifiedMore(rows, row, i, i, i + 1, wall, rate);
  }

  lemma AccountedEmit(rows: seq<Request>, pending: seq<nat>, p: nat, i: nat, wall: real, rate: real, row: Request)
    requires rate > 0.0 && Accounted(rows, pending, i, wall, rate) && p < |pending|
    requires RowFor(row, pending[p], Micros(At(wall, pending[p], rate)))
    ensures Accounted(rows + [row], pending[..p] + pending[p + 1..], i, wall, rate)
  {
    hide Expected, RowFor, At, Micros, Indexes, Wrapped, Identified;
    IndexesAppend(rows, row);
    WrappedRemove(pending, p);
    RowIndex(row, pending[p], Micros(At(wall, pending[p], rate)));
    IdentifiedMore(rows, row, i, pending[p], i, wall, rate);
  }

  /** Arrivals come in time order, so all that follow an arrival outside the horizon are outside. */
  lemma SkippedOutside(horizon: nat -> Bounds, wall: real, anchor: real, rate: real, stop: nat, planned: int)
    requires rate > 0.0 && !Admitted(horizon, stop, wall, anchor, rate)
    ensures HorizonPassed(horizon, stop, planned, wall, anchor, rate)
  {
    forall j | stop <= j < planned
      ensures At(wall, stop, rate) <= At(wall, j, rate) && At(anchor, stop, rate) <= At(anchor, j, rate)
    {
      Ordered(stop as real, j as real, rate);
    }
    hide At;
    var k := if Past(horizon(2 * stop), At(wall, stop, rate), At(anchor, stop,
      rate)) then 2 * stop else 2 * stop + 1;
    assert forall j :: stop <= j < planned ==> Past(horizon(k), At(wall, j, rate), At(anchor, j, rate));
  }

  /** A horizon that is never set admits every arrival. */
  lemma NoHorizonAdmits(horizon: nat -> Bounds, i: nat, wall: real, anchor: real, rate: real)
    requires rate > 0.0 && forall k :: horizon(k).until.None?
    ensures Admitted(horizon, i, wall, anchor, rate)
  {}

  lemma Ordered(a: real, b: real, rate: real)
    requires rate > 0.0 && a <= b
    ensures a / rate <= b / rate
  {
    var x, y := a / rate, b / rate;
    assert x * rate == a && y * rate == b;
    assert (y - x) * rate >= 0.0;
    if y < x { Negative(y - x, rate); }
  }

  lemma Negative(d: real, rate: real)
    requires d < 0.0 && rate > 0.0
    ensures d * rate < 0.0
  {}

  // ---- what the analysis sees ----

  lemma {:induction false} DecimalInjective(m: nat, n: nat)
    requires Decimal(m) == Decimal(n)
    ensures m == n
  {
    var a, b := Decimal(m), Decimal(n);
    DecimalLast(m);
    DecimalLast(n);
    assert m % 10 == n % 10;
    if m >= 10 && n >= 10 {
      assert a[..|a| - 1] == Decimal(m / 10) && b[..|b| - 1] == Decimal(n / 10);
      DecimalInjective(m / 10, n / 10);
    }
  }

  lemma DecimalLast(n: nat)
    ensures |Decimal(n)| >= 1 && Decimal(n)[|Decimal(n)| - 1] == "0123456789"[n % 10]
    ensures |Decimal(n)| == 1 <==> n < 10
  {
    if n >= 10 { DecimalLast(n / 10); }
  }

  lemma {:induction false} ExpectedOnce(n: nat, x: Option<int>)
    ensures Expected(n)[x] <= 1
    ensures x.Some? && x.value >= n ==> Expected(n)[x] == 0
  {
    hide Expected;
    if n > 0 {
      ExpectedStep(n - 1);
      ExpectedOnce(n - 1, x);
    } else {
      NoneExpected();
    }
  }

  lemma NoneExpected()
    ensures Expected(0) == multiset{}
  {
    assert Wrapped(Range(0)) == [];
  }

  lemma {:induction false} OnceDistinct<T>(s: seq<T>, i: nat, j: nat)
    requires i < j < |s| && s[i] == s[j]
    ensures multiset(s)[s[i]] >= 2
  {
    assert s == s[..i] + [s[i]] + s[i + 1..j] + [s[j]] + s[j + 1..];
  }

  /** Rows accounted once per index can never raise the duplicate errors of the analysis. */
  lemma EmittedRowsPassIdentityChecks(rows: seq<Request>, n: nat, wall: real, rate: real)
    requires rate > 0.0 && multiset(Indexes(rows)) == Expected(n)
    requires Identified(rows, n, wall, rate)
    ensures !DuplicateIds(rows) && !DuplicateIndexes(rows)
  {
    hide Expected, At, Micros, Decimal;
    forall k, l | 0 <= k < l < |rows|
      ensures rows[k].id != rows[l].id && rows[k].index != rows[l].index
    {
      var i: nat :| i < n && RowFor(rows[k], i, Micros(At(wall, i, rate)));
      var j: nat :| j < n && RowFor(rows[l], j, Micros(At(wall, j, rate)));
      if Decimal(i) == Decimal(j) { DecimalInjective(i, j); }
      if i == j { OnceDistinct(Indexes(rows), k, l); }
      ExpectedOnce(n, Some(i as int));
    }
  }

  // ---- the horizon race ----

  /** `until` is stored before `until_utc`. A loop that reads between the two stores may stop at
      an arrival that the wall bound, once stored, would still have admitted: this happens exactly
      when the arrival is past the monotonic bound and before the wall bound. */
  lemma BoundsReadApart(until: real, utc: real, wall: real, monotonic: real)
    ensures Past(Bounds(Some(until), None), wall, monotonic)
            && !Past(Bounds(Some(until), Some(utc)), wall, monotonic)
            <==> monotonic >= until && wall < utc
  {}

  /** A concrete schedule that loses an arrival this way: the wall clock lags by a second. */
  lemma BoundsReadApartExample()
    ensures Past(Bounds(Some(10.0), None), 109.0, 10.0)
            && !Past(Bounds(Some(10.0), Some(110.0)), 109.0, 10.0)
  {}
}
