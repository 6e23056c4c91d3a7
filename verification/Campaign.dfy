/** The campaign runner. Every save may be lost or be the last thing the process does; what the next
    process finds is the disk. `executed` is the history of fault injections. */
module Campaign {
  import opened Options
  import opened CampaignData

  datatype Outcome = Fine | Raised | Died

  /** How the backend's execution and the sealing of its measurement end. */
  datatype Measurement = Sealed | Raises(interrupt: bool) | Killed

  /** What the backend's cleanup returns: the checks it read back, unless it raises or is killed. */
  datatype Readback = Readback(checks: map<string, bool>) | CleanupRaises | CleanupKilled

  predicate Passed(r: Readback) {
    r.Readback? && r.checks != map[] && forall name :: name in r.checks ==> r.checks[name]
  }

  /** An execution of attempt `number` of case `index`, with the record on disk and the attempts
      whose latest cleanup had passed at that moment. */
  datatype Execution = Execution(index: nat, number: nat, at: Data, cleaned: AttemptIds)

  datatype Call = RunCall(limit: Option<int>, retry: Option<string>) | ResumeCall(id: string)

  /** An attempt is executed only when it is the one open attempt on disk, just prepared. */
  predicate Alone(e: Execution) {
    && Inv(e.at) && e.index < |e.at.cases|
    && AllCleaned(e.at, e.cleaned)
    && e.number == |e.at.cases[e.index].attempts| && e.number > 0
    && e.at.cases[e.index].attempts[e.number - 1].state == Prepared
  }

  predicate Once(executed: seq<Execution>) {
    forall a, b :: 0 <= a < b < |executed| && executed[a].index == executed[b].index ==>
      executed[a].number < executed[b].number
  }

  ghost predicate History(executed: seq<Execution>, disk: Data) {
    && Once(executed)
    && forall a :: 0 <= a < |executed| ==> Alone(executed[a]) && Grows(executed[a].at, disk)
  }

  /** Nothing is injected twice: of two executions of one case the later has the higher number, so
      they are different attempts, and the earlier was not valid. */
  lemma ExecutedOnce(executed: seq<Execution>, disk: Data, a: nat, b: nat)
    requires History(executed, disk) && Inv(disk) && a < b < |executed|
    requires executed[a].index < |disk.cases| && executed[b].index < |disk.cases|
    requires disk.cases[executed[a].index].id == disk.cases[executed[b].index].id
    ensures executed[a].number < executed[b].number <= |disk.cases[executed[b].index].attempts|
    ensures var first := disk.cases[executed[a].index].attempts[executed[a].number - 1];
      first.verdict.Some? && !first.verdict.value.valid
  {
    hide OneOpen, DependenciesMet, CaseGrows;
    if executed[a].index < executed[b].index || executed[b].index < executed[a].index {
      assert false;
    }
    AttemptsRemain(executed[b].at, disk, executed[b].index);
    CaseFacts(disk.cases[executed[a].index]);
  }

  /** At the moment of an execution every other attempt of the campaign is verified, and its latest
      cleanup has passed. */
  lemma ExecutedAfterCleanups(e: Execution, j: nat, l: nat)
    requires Alone(e) && j < |e.at.cases| && l < |e.at.cases[j].attempts| && (j, l) != (e.index, e.number - 1)
    ensures e.at.cases[j].attempts[l].state == Verified
    ensures (e.at.cases[j].id, l + 1) in e.cleaned
  {
    hide Inv;
    OpenAttemptIsLast(e.at, e.index, e.number - 1, j, l);
  }

  /** A case of that name is finished, and its judgement is valid and safe. */
  predicate FinishedSafely(d: Data, id: string) {
    exists j :: 0 <= j < |d.cases| && d.cases[j].id == id && d.cases[j].status == Finished
                && d.cases[j].judgement.Some? && d.cases[j].judgement.value.valid && d.cases[j].judgement.value.safety
  }

  lemma SatisfiedMeans(d: Data, id: string)
    ensures Satisfied(d, id) <==> FinishedSafely(d, id)
  {}

  lemma ExecutedAfterDependencies(e: Execution, disk: Data, k: nat)
    requires Alone(e) && Grows(e.at, disk) && k < |e.at.cases[e.index].dependencies|
    ensures FinishedSafely(e.at, e.at.cases[e.index].dependencies[k])
    ensures FinishedSafely(disk, e.at.cases[e.index].dependencies[k])
  {
    hide Inv, Grows, Satisfied, FinishedSafely;
    DependenciesHoldForever(e.at, disk, e.index, k);
    SatisfiedMeans(e.at, e.at.cases[e.index].dependencies[k]);
    SatisfiedMeans(disk, e.at.cases[e.index].dependencies[k]);
  }

  lemma HistoryGrows(executed: seq<Execution>, d: Data, e: Data)
    requires History(executed, d) && Grows(d, e)
    ensures History(executed, e)
  {
    hide Alone, Grows, Once;
    forall a | 0 <= a < |executed| ensures Grows(executed[a].at, e) { GrowsTransitive(executed[a].at, d, e); }
  }

  /** A newly opened attempt has a number that no execution of its case has had. */
  lemma HistoryAdd(executed: seq<Execution>, before: Data, i: nat, at: Data, cleaned: AttemptIds)
    requires History(executed, before) && Grows(before, at) && i < |before.cases|
    requires Alone(Execution(i, |before.cases[i].attempts| + 1, at, cleaned))
    ensures History(executed + [Execution(i, |before.cases[i].attempts| + 1, at, cleaned)], at)
  {
    hide Inv, CaseGrows, AllCleaned;
    HistoryGrows(executed, before, at);
    GrowsReflexive(at);
    forall a | 0 <= a < |executed| && executed[a].index == i ensures executed[a].number <= |before.cases[i].attempts| {
      AttemptsRemain(executed[a].at, before, i);
    }
  }

  lemma AttemptsRemain(d: Data, e: Data, i: nat)
    requires Grows(d, e) && i < |d.cases|
    ensures i < |e.cases| && |d.cases[i].attempts| <= |e.cases[i].attempts| && e.cases[i].id == d.cases[i].id
    ensures d.cases[i].attempts != [] ==> e.cases[i].attempts != []
  {}

  lemma PendingFacts(d: Data, i: nat)
    requires Inv(d) && i < |d.cases|
    ensures d.cases[i].status == Pending ==> !Valid(d.cases[i])
    ensures Closed(d.cases[i]) && d.cases[i].status != Pending ==> d.cases[i].status == Finished
    ensures !Closed(d.cases[i]) ==> d.cases[i].attempts != []
  {
    hide OneOpen, DependenciesMet, Distinct;
  }

  lemma OpenedAlone(d: Data, i: nat, cleaned: AttemptIds)
    requires i < |d.cases| && Inv(Open(d, i)) && AllCleaned(Open(d, i), cleaned)
    ensures Alone(Execution(i, |d.cases[i].attempts| + 1, Open(d, i), cleaned))
  {
    hide Inv, AllCleaned;
  }

  /** The cases that a run is to take, in listing order: the one named, or all pending ones. */
  function Order(d: Data, retry: Option<string>, n: nat): seq<nat>
    requires n <= |d.cases|
  {
    if n == 0 then []
    else
      var c := d.cases[n - 1];
      Order(d, retry, n - 1) +
      if (retry.Some? && c.id == retry.value) || (retry.None? && c.status == Pending) then [n - 1] else []
  }

  lemma {:induction false} OrderMembers(d: Data, retry: Option<string>, n: nat)
    requires n <= |d.cases|
    ensures forall i: nat :: i in Order(d, retry, n) <==>
              i < n && if retry.Some? then d.cases[i].id == retry.value else d.cases[i].status == Pending
    ensures forall a, b :: 0 <= a < b < |Order(d, retry, n)| ==> Order(d, retry, n)[a] < Order(d, retry, n)[b]
  {
    if n > 0 {
      OrderMembers(d, retry, n - 1);
      var before := Order(d, retry, n - 1);
      assert Order(d, retry, n) == before || Order(d, retry, n) == before + [n - 1];
      assert forall a :: 0 <= a < |before| ==> before[a] in before;
    }
  }

  lemma {:induction false} OrderPrefix(d: Data, retry: Option<string>, m: nat, n: nat)
    requires m <= n <= |d.cases|
    ensures Order(d, retry, m) <= Order(d, retry, n)
  {
    if m < n { OrderPrefix(d, retry, m, n - 1); }
  }

  /** A retry takes exactly the case of that name. */
  lemma {:induction false} OrderOfRetry(d: Data, id: string, i: nat, n: nat)
    requires Distinct(d) && i < |d.cases| && d.cases[i].id == id && n <= |d.cases|
    ensures Order(d, Some(id), n) == if i < n then [i] else []
  {
    hide Order, Distinct;
    OnlyOneNamed(d, i);
    if n == 0 {
      OrderNone(d, Some(id));
    } else {
      OrderOfRetry(d, id, i, n - 1);
      OrderStep(d, Some(id), n - 1);
    }
  }

  function Indexes(executed: seq<Execution>): (s: seq<nat>)
    ensures |s| == |executed|
  {
    seq(|executed|, a requires 0 <= a < |executed| => executed[a].index)
  }

  /** The calls that a run refuses before it changes anything. */
  predicate Refused(d: Data, limit: Option<int>, retry: Option<string>) {
    || (exists i :: 0 <= i < |d.cases| && d.cases[i].attempts != []
                    && d.cases[i].attempts[|d.cases[i].attempts| - 1].state != Verified)
    || (limit.Some? && limit.value < 1)
    || (retry.Some? && forall i :: 0 <= i < |d.cases| && d.cases[i].id == retry.value ==>
          d.cases[i].judgement.Some? && d.cases[i].judgement.value.valid)
  }

  predicate Resumed(c: Case, id: string) {
    && c.id == id && c.status == Finished && !Valid(c)
    && c.attempts != [] && c.attempts[|c.attempts| - 1].resumed && c.attempts[|c.attempts| - 1].state == Verified
  }

  /** Only case i differs. */
  predicate SameButFor(d: Data, e: Data, i: nat) {
    |e.cases| == |d.cases| && forall j :: 0 <= j < |d.cases| && j != i ==> e.cases[j] == d.cases[j]
  }

  lemma TruthfulFacts(d: Data, flaws: AttemptIds, raised: AttemptIds, cleaned: AttemptIds)
    requires Truthful(d, flaws, raised, cleaned)
    ensures Judged(d, flaws) && AllCleaned(d, cleaned)
  {}

  /** The attempt of an execution is on record as verified. */
  predicate NowVerified(d: Data, e: Execution) {
    && e.index < |d.cases| && 0 < e.number <= |d.cases[e.index].attempts|
    && d.cases[e.index].attempts[e.number - 1].state == Verified
  }

  /** With no attempt open, every execution's attempt is verified. */
  lemma AllVerified(d: Data, executed: seq<Execution>)
    requires Inv(d) && AllClosed(d) && History(executed, d)
    ensures forall a :: 0 <= a < |executed| ==> NowVerified(d, executed[a])
  {
    hide OneOpen, DependenciesMet, Distinct, Grows;
    forall a | 0 <= a < |executed| ensures NowVerified(d, executed[a]) {
      AttemptsRemain(executed[a].at, d, executed[a].index);
    }
  }

  lemma OrderNone(d: Data, retry: Option<string>)
    ensures Order(d, retry, 0) == [] && Indexes([]) == []
  {}

  lemma OrderStep(d: Data, retry: Option<string>, i: nat)
    requires i < |d.cases|
    ensures Order(d, retry, i + 1) ==
            Order(d, retry, i) +
            if (retry.Some? && d.cases[i].id == retry.value) || (retry.None? && d.cases[i].status == Pending)
            then [i] else []
  {}

  lemma IndexesMore(before: seq<Execution>, after: seq<Execution>, n: nat)
    requires n <= |before|
    requires after == before || (|after| == |before| + 1 && before <= after)
    ensures Indexes(after[n..]) ==
            Indexes(before[n..]) + if after == before then [] else [after[|before|].index]
  {
    if after != before { assert after == before + [after[|before|]]; }
  }

  lemma OnlyOneNamed(d: Data, i: nat)
    requires Distinct(d) && i < |d.cases|
    ensures forall j :: 0 <= j < |d.cases| && d.cases[j].id == d.cases[i].id ==> j == i
  {}

  lemma SameNames(d: Data, e: Data)
    requires Grows(d, e)
    ensures |e.cases| == |d.cases| && forall i :: 0 <= i < |d.cases| ==> e.cases[i].id == d.cases[i].id
  {}

  lemma MarkFacts(d: Data, i: nat, state: AttemptState)
    requires i < |d.cases| && d.cases[i].attempts != []
    ensures |Mark(d, i, state).cases| == |d.cases| && Mark(d, i, state).cases[i].id == d.cases[i].id
    ensures |Mark(d, i, state).cases[i].attempts| == |d.cases[i].attempts|
  {}

  lemma ResumedFacts(d: Data, i: nat, verdict: Judgement, flaws: AttemptIds)
    requires i < |d.cases| && d.cases[i].attempts != []
    requires Judged(Close(d, i, verdict, true), flaws) && (d.cases[i].id, |d.cases[i].attempts|) in flaws
    ensures Resumed(Close(d, i, verdict, true).cases[i], d.cases[i].id)
  {
    var c := Close(d, i, verdict, true).cases[i];
    assert Sound(c.attempts[|c.attempts| - 1]) <==> verdict.valid;
  }

  lemma AllFinished(d: Data)
    requires Inv(d) && AllClosed(d) && forall j :: 0 <= j < |d.cases| ==> d.cases[j].status != Pending
    ensures forall j :: 0 <= j < |d.cases| ==> d.cases[j].status == Finished
  {
    hide Inv, Closed;
    forall j | 0 <= j < |d.cases| ensures d.cases[j].status == Finished { PendingFacts(d, j); }
  }

  lemma InvFacts(d: Data)
    requires Inv(d)
    ensures Distinct(d)
  {
    hide CasesOk, OneOpen, DependenciesMet;
  }

  lemma OpenHasAttempts(d: Data, i: nat)
    requires i < |d.cases| && !Closed(d.cases[i])
    ensures d.cases[i].attempts != []
  {}

  class FreshCampaign {
    var data: Data
    var disk: Data
    /** The attempts whose evidence, which is durable too, holds an execution error. */
    var flaws: AttemptIds
    /** What happened: the executions, the attempts whose measurement raised, and the attempts
        whose latest cleanup passed its readback since they were executed. */
    ghost var executed: seq<Execution>
    ghost var raised: AttemptIds
    ghost var cleaned: AttemptIds

    /** What every process finds. */
    ghost predicate Durable() reads this {
      Inv(disk) && Truthful(disk, flaws, raised, cleaned) && History(executed, disk)
    }

    /** What memory holds while a process is at work. */
    ghost predicate Working() reads this {
      Durable() && Inv(data) && Truthful(data, flaws, raised, cleaned) && Grows(disk, data)
    }

    /** Case i has the open attempt, in memory and on disk. */
    ghost predicate AtWork(i: nat) reads this {
      && Working() && i < |data.cases| && i < |disk.cases|
      && !Closed(data.cases[i]) && !Closed(disk.cases[i]) && |disk.cases[i].attempts| == |data.cases[i].attempts|
    }

    function Id(i: nat): (string, nat)
      requires i < |data.cases|
      reads this
    {
      (data.cases[i].id, |data.cases[i].attempts|)
    }

    constructor (d: Data)
      requires Inv(d) && forall i :: 0 <= i < |d.cases| ==> d.cases[i].attempts == []
      ensures Durable() && disk == d && executed == []
    {
      data, disk, flaws, executed, raised, cleaned := d, d, {}, [], {}, {};
    }

    // ---- what the runner relies on ----

    method Save() returns (o: Outcome)
      requires Working()
      modifies this`disk
      ensures Working() && Grows(old(disk), disk)
      ensures disk == data || (disk == old(disk) && !o.Fine?)
    {
      hide Inv, Truthful, History, Grows;
      var written, answered, survives := *, *, *;
      GrowsReflexive(disk);
      GrowsReflexive(data);
      HistoryGrows(executed, disk, data);
      if written { disk := data; }
      o := if !survives then Died else if written && answered then Fine else Raised;
    }

    /** A read, an admission check or a ledger line: it may fail, and it changes nothing here. */
    method Check() returns (o: Outcome)
    {
      var passes, survives := *, *;
      o := if !survives then Died else if passes then Fine else Raised;
    }

    /** The backend executes the attempt, and the measurement is sealed. */
    method RunBackend(i: nat, ghost before: Data) returns (m: Measurement)
      requires AtWork(i) && disk == data && i < |before.cases| && data == Open(before, i)
      requires History(executed, before) && Grows(before, disk)
      modifies this`executed, this`raised, this`cleaned
      ensures AtWork(i)
      ensures executed == old(executed) + [Execution(i, |before.cases[i].attempts| + 1, disk, old(cleaned))]
      ensures raised == old(raised) + if m.Raises? then {Id(i)} else {}
      ensures cleaned == old(cleaned) - {Id(i)}
    {
      hide Inv, Truthful, History, Grows, Closed;
      m := *;
      TruthfulFacts(disk, flaws, raised, cleaned);
      OpenedAlone(before, i, cleaned);
      HistoryAdd(executed, before, i, disk, cleaned);
      executed := executed + [Execution(i, |before.cases[i].attempts| + 1, disk, cleaned)];
      HappeningKeepsTruthful(data, i, flaws, raised, cleaned);
      cleaned := cleaned - {Id(i)};
      HappeningKeepsTruthful(data, i, flaws, raised, cleaned);
      if m.Raises? { raised := raised + {Id(i)}; }
    }

    /** finish_measurement: the clock lease is given back, or that raises. */
    method FinishMeasurement(i: nat) returns (raises: bool)
      requires AtWork(i)
      modifies this`raised
      ensures AtWork(i) && raised == old(raised) + if raises then {Id(i)} else {}
    {
      hide Inv, Truthful, History, Grows, Closed;
      raises := *;
      AttemptsRemain(disk, data, i);
      HappeningKeepsTruthful(data, i, flaws, raised, cleaned);
      HappeningKeepsTruthful(disk, i, flaws, raised, cleaned);
      if raises { raised := raised + {Id(i)}; }
    }

    /** The backend cleans up and reads back; only a readback that passes makes the attempt clean. */
    method RunCleanup(i: nat) returns (r: Readback)
      requires AtWork(i)
      modifies this`cleaned
      ensures AtWork(i)
      ensures cleaned ==
              if r.Readback? && |r.checks| > 0 && forall name :: name in r.checks ==> r.checks[name]
              then old(cleaned) + {Id(i)} else old(cleaned) - {Id(i)}
    {
      hide Inv, Truthful, History, Grows, Closed;
      r := *;
      AttemptsRemain(disk, data, i);
      HappeningKeepsTruthful(data, i, flaws, raised, cleaned);
      HappeningKeepsTruthful(disk, i, flaws, raised, cleaned);
      cleaned := if r.Readback? && |r.checks| > 0 && forall name :: name in r.checks ==> r.checks[name]
                 then cleaned + {Id(i)} else cleaned - {Id(i)};
    }

    /** Add an execution error to the evidence of the open attempt. */
    method RecordError(i: nat)
      requires AtWork(i)
      modifies this`flaws
      ensures AtWork(i) && flaws == old(flaws) + {Id(i)}
    {
      hide Inv, Truthful, History, Grows, Closed;
      AttemptsRemain(disk, data, i);
      FlawKeepsTruthful(data, i, flaws, raised, cleaned);
      FlawKeepsTruthful(disk, i, flaws, raised, cleaned);
      flaws := flaws + {Id(i)};
    }

    /** Execute and seal, then give the lease back; whatever raises is recorded as an execution error,
        and an interruption is remembered. */
    method Execute(i: nat, ghost before: Data) returns (o: Outcome, interrupted: bool)
      requires AtWork(i) && disk == data && i < |before.cases| && data == Open(before, i)
      requires History(executed, before) && Grows(before, disk) && raised <= flaws
      modifies this`flaws, this`executed, this`raised, this`cleaned
      ensures AtWork(i) && old(flaws) <= flaws && old(raised) <= raised
      ensures executed == old(executed) + [Execution(i, |before.cases[i].attempts| + 1, disk, old(cleaned))]
      ensures Id(i) !in cleaned
      ensures o.Fine? ==> raised <= flaws
      ensures interrupted ==> Id(i) in raised
    {
      hide Inv, Truthful, History, Grows, Closed;
      interrupted := false;
      var m := RunBackend(i, before);
      if m.Killed? { return Died, false; }
      if m.Raises? {
        RecordError(i);
        interrupted := m.interrupt;
      }
      var raises := FinishMeasurement(i);
      if raises { RecordError(i); }
      o := Fine;
    }

    /** Independent judgement of the evidence: an execution error makes it invalid. */
    method Judge(i: nat) returns (verdict: Judgement)
      requires i < |data.cases| && data.cases[i].attempts != []
      ensures Id(i) in flaws ==> !verdict.valid
    {
      var valid, safety := *, *;
      verdict := Judgement(valid && Id(i) !in flaws, safety);
    }

    method FindCase(id: string) returns (found: Option<nat>)
      ensures found == None ==> forall j :: 0 <= j < |data.cases| ==> data.cases[j].id != id
      ensures found.Some? ==> found.value < |data.cases| && data.cases[found.value].id == id
    {
      for j := 0 to |data.cases|
        invariant forall l :: 0 <= l < j ==> data.cases[l].id != id
      {
        if data.cases[j].id == id { return Some(j); }
      }
      found := None;
    }

    /** Are the case's dependencies finished, valid and safe? */
    method DependenciesVerified(i: nat) returns (met: bool)
      requires i < |data.cases| && Distinct(data)
      ensures met <==> forall k :: 0 <= k < |data.cases[i].dependencies| ==>
          Satisfied(data, data.cases[i].dependencies[k])
    {
      var ids := data.cases[i].dependencies;
      for k := 0 to |ids|
        invariant forall l :: 0 <= l < k ==> Satisfied(data, ids[l])
      {
        var prior := FindCase(ids[k]);
        if prior == None { return false; }
        var c := data.cases[prior.value];
        if c.status != Finished || c.judgement.None? || !c.judgement.value.valid || !c.judgement.value.safety {
          assert !Satisfied(data, ids[k]);
          return false;
        }
      }
      met := true;
    }

    // ---- one attempt ----

    /** Cleanup and its readback; the state is saved before it starts and after it fails. It returns
        only when the readback has passed; otherwise it raises, or dies, with the attempt still open
        on disk, which blocks every later run. */
    method CleanUp(i: nat) returns (o: Outcome, ghost ran: bool)
      requires AtWork(i)
      modifies this`data, this`disk, this`flaws, this`cleaned
      ensures AtWork(i) && Grows(old(disk), disk) && old(flaws) <= flaws
      ensures SameButFor(old(data), data, i) && Id(i) == old(Id(i))
      ensures disk == data || disk == old(disk) || SameButFor(old(data), disk, i)
      ensures o.Fine? ==> ran && Id(i) in cleaned && disk == data
      ensures o.Fine? ==> flaws == old(flaws) && data == Mark(old(data), i, Cleanup)
      ensures ran && Id(i) !in cleaned ==> !o.Fine? && (o.Raised? ==> Id(i) in flaws)
      ensures !o.Fine? ==> !AllClosed(disk)
    {
      hide Inv, Truthful, History, Grows;
      ran := false;
      Advance(i, Cleanup);
      o := Save();
      if !o.Fine? { return; }
      ran := true;
      var r := RunCleanup(i);
      if r.CleanupKilled? { return Died, ran; }
      o := Check();
      if o.Died? { return; }
      if o.Raised? || !Passed(r) {
        RecordError(i);
        ghost var saved := disk;
        Advance(i, CleanupFailed);
        o := Save();
        GrowsTransitive(old(disk), saved, disk);
        if o.Fine? { o := Raised; }
      }
    }

    method Advance(i: nat, state: AttemptState)
      requires AtWork(i) && state != Verified
      modifies this`data
      ensures AtWork(i) && data == Mark(old(data), i, state) && Id(i) == old(Id(i)) && SameButFor(old(data), data, i)
    {
      hide Inv, Truthful, History, Grows;
      MarkKeeps(data, i, state);
      MarkKeepsTruthful(data, i, state, flaws, raised, cleaned);
      GrowsTransitive(disk, data, Mark(data, i, state));
      data := Mark(data, i, state);
    }

    /** Verify, judge, finish and save: only after a cleanup that passed. */
    method Finish(i: nat, resumed: bool) returns (o: Outcome)
      requires AtWork(i) && data.cases[i].attempts != []
      requires Id(i) in cleaned && (Id(i) in raised ==> Id(i) in flaws)
      requires resumed ==> Id(i) in flaws
      modifies this`data, this`disk
      ensures Working() && Grows(old(disk), disk)
      ensures exists verdict :: data == Close(old(data), i, verdict, resumed)
      ensures AllClosed(data) && SameButFor(old(data), data, i) && data.cases[i].status == Finished
      ensures old(Id(i)) in flaws ==> !Valid(data.cases[i])
      ensures disk == data || (disk == old(disk) && !o.Fine?)
    {
      hide Inv, Truthful, History, Grows, Closed;
      var verdict := Judge(i);
      CloseKeeps(data, i, verdict, resumed);
      CloseKeepsTruthful(data, i, verdict, resumed, flaws, raised, cleaned);
      GrowsTransitive(disk, data, Close(data, i, verdict, resumed));
      data := Close(data, i, verdict, resumed);
      o := Save();
    }

    /** One attempt of a case from admission to judgement. */
    method Attempt(i: nat) returns (o: Outcome, interrupted: bool)
      requires Working() && disk == data && AllClosed(data) && i < |data.cases| && !Valid(data.cases[i])
      modifies this
      ensures Durable() && Grows(old(disk), disk) && SameButFor(old(disk), disk, i)
      ensures executed == old(executed) || (|executed| == |old(executed)| + 1 && old(executed) <= executed
          && executed[|old(executed)|].index == i)
      ensures o.Fine? ==> Working() && disk == data && AllClosed(data) && |executed| == |old(executed)| + 1
      ensures o.Fine? ==> i < |data.cases| && data.cases[i].status == Finished && Id(i) in cleaned
      ensures o.Fine? ==> (Id(i) in raised ==> !Valid(data.cases[i]))
      // an interruption is passed on, after the attempt has been closed
      ensures interrupted ==> !o.Fine?
    {
      hide Inv, Truthful, History, Grows, AllClosed, Closed, Satisfied;
      interrupted := false;
      ghost var before := disk;
      GrowsReflexive(disk);
      InvFacts(data);
      o := Check();
      if !o.Fine? { return; }
      var met := DependenciesVerified(i);
      var cap := if data.stage == "supplemental" || data.stage == "extension" then 1 else data.maxAttempts;
      if !met || |data.cases[i].attempts| >= cap { return Raised, false; }
      OpenKeeps(data, i);
      OpenKeepsTruthful(data, i, flaws, raised, cleaned);
      data := Open(data, i);
      o := Save();
      if !o.Fine? { return; }
      o := Check();
      if !o.Fine? { return; }
      o, interrupted := Execute(i, before);
      if !o.Fine? { return; }
      o := Conclude(i, before);
      if o.Fine? && interrupted { o := Raised; }
    }

    /** The `finally` of an attempt and what follows it. */
    method Conclude(i: nat, ghost before: Data) returns (o: Outcome)
      requires AtWork(i) && disk == data && raised <= flaws && Grows(before, disk) && SameButFor(before, disk, i)
      modifies this`data, this`disk, this`flaws, this`cleaned
      ensures Durable() && Grows(before, disk) && SameButFor(before, disk, i)
      ensures o.Fine? ==> Working() && disk == data && AllClosed(data)
      ensures o.Fine? ==> i < |data.cases| && data.cases[i].status == Finished && Id(i) in cleaned
      ensures o.Fine? ==> (Id(i) in raised ==> !Valid(data.cases[i]))
    {
      hide Inv, Truthful, History, Grows, AllClosed, Closed;
      ghost var prepared := disk;
      ghost var ran;
      o, ran := CleanUp(i);
      GrowsTransitive(before, prepared, disk);
      if !o.Fine? { return; }
      ghost var emptied := disk;
      OpenHasAttempts(data, i);
      o := Finish(i, false);
      GrowsTransitive(before, emptied, disk);
      if !o.Fine? { return; }
      o := Check();
    }

    // ---- the two commands ----

    /** Run pending cases in order, or retry one case that is not judged valid. When the record reads as
        frozen, the call is refused exactly for an open attempt, a limit below one, or a retry of an
        unknown or valid case. What executes is a prefix of the cases to take, and on return all of them
        up to the limit, each now verified. */
    method Run(limit: Option<int>, retry: Option<string>) returns (o: Outcome, frozen: bool, refused: bool)
      requires Durable()
      modifies this
      ensures Durable() && Grows(old(disk), disk) && old(executed) <= executed
      ensures frozen ==> (refused <==> Refused(old(disk), limit, retry))
      ensures refused || !frozen ==> !o.Fine? && disk == old(disk) && executed == old(executed)
      ensures var order := Order(old(disk), retry, |old(disk).cases|);
              var most := if limit.Some? && 0 <= limit.value < |order| then limit.value else |order|;
              && Indexes(executed[|old(executed)|..]) <= order
              && |executed| - |old(executed)| <= most
              && (o.Fine? ==> |executed| - |old(executed)| == most)
      ensures o.Fine? ==> forall a :: |old(executed)| <= a < |executed| ==> NowVerified(disk, executed[a])
      ensures o.Fine? && retry.Some? ==>
                && |executed| == |old(executed)| + 1
                && var i := executed[|old(executed)|].index; i < |disk.cases| && disk.cases[i].id == retry.value
      ensures o.Fine? && limit == None && retry == None ==>
                forall i :: 0 <= i < |disk.cases| ==> disk.cases[i].status == Finished
    {
      hide Inv, Truthful, History, Grows, Satisfied, CaseGrows, NowVerified, Order;
      GrowsReflexive(disk);
      frozen, refused := false, false;
      ghost var target: nat := 0;
      o := Check();
      if !o.Fine? { return; }
      frozen := true;
      data := disk;
      for i := 0 to |data.cases|
        invariant forall j :: 0 <= j < i ==> Closed(data.cases[j])
      {
        if !Closed(data.cases[i]) { return Raised, frozen, true; }
      }
      if limit.Some? && limit.value < 1 { return Raised, frozen, true; }
      if retry.Some? {
        var found := FindCase(retry.value);
        if found == None { return Raised, frozen, true; }
        InvFacts(data);
        if Valid(data.cases[found.value]) {
          OnlyOneNamed(data, found.value);
          return Raised, frozen, true;
        }
        OrderOfRetry(data, retry.value, found.value, |data.cases|);
        OnlyOneNamed(data, found.value);
        target := found.value;
      }
      ghost var start := disk;
      o := RunCases(limit, retry);
      if o.Fine? && retry.Some? {
        SameNames(start, disk);
        assert Indexes(executed[|old(executed)|..])[0] == target;
      }
    }

    method RunCases(limit: Option<int>, retry: Option<string>) returns (o: Outcome)
      requires Working() && disk == data && AllClosed(data) && (limit.Some? ==> limit.value >= 1)
      requires retry.Some? ==> forall i :: 0 <= i < |data.cases| && data.cases[i].id == retry.value ==>
          !Valid(data.cases[i])
      modifies this
      ensures Durable() && Grows(old(disk), disk) && old(executed) <= executed
      ensures var order := Order(old(disk), retry, |old(disk).cases|);
              var most := if limit.Some? && limit.value < |order| then limit.value else |order|;
              && Indexes(executed[|old(executed)|..]) <= order
              && |executed| - |old(executed)| <= most
              && (o.Fine? ==> |executed| - |old(executed)| == most)
      ensures o.Fine? ==> forall a :: |old(executed)| <= a < |executed| ==> NowVerified(disk, executed[a])
      ensures o.Fine? && limit == None && retry == None ==>
                forall i :: 0 <= i < |disk.cases| ==> disk.cases[i].status == Finished
    {
      hide Inv, Truthful, History, Grows, Closed, Satisfied, CaseGrows, AllClosed, NowVerified, Order;
      GrowsReflexive(disk);
      ghost var start := disk;
      ghost var taken: seq<nat> := [];
      OrderNone(start, retry);
      var count, i := 0, 0;
      while i < |data.cases|
        invariant 0 <= i <= |data.cases| == |start.cases|
        invariant Working() && disk == data && AllClosed(data) && Grows(start, disk) && old(executed) <= executed
        invariant forall j :: i <= j < |data.cases| ==> data.cases[j] == start.cases[j]
        invariant count == |executed| - |old(executed)| && (limit.Some? ==> count < limit.value)
        invariant taken == Order(start, retry, i) == Indexes(executed[|old(executed)|..])
        invariant retry == None ==> forall j :: 0 <= j < i ==> data.cases[j].status != Pending
        decreases |data.cases| - i
      {
        OrderStep(start, retry, i);
        if (retry.Some? && data.cases[i].id != retry.value) || (retry.None? && data.cases[i].status != Pending) {
          i := i + 1;
          continue;
        }
        PendingFacts(data, i);
        OrderPrefix(start, retry, i + 1, |start.cases|);
        ghost var before, earlier := disk, executed;
        var interrupted;
        o, interrupted := Attempt(i);
        GrowsTransitive(start, before, disk);
        IndexesMore(earlier, executed, |old(executed)|);
        if !o.Fine? { return; }
        taken := taken + [i];
        count, i := count + 1, i + 1;
        if limit.Some? && count >= limit.value { break; }
      }
      OrderPrefix(start, retry, i, |start.cases|);
      if limit == None && retry == None { AllFinished(disk); }
      AllVerified(disk, executed);
      o := Save();
      GrowsTransitive(start, data, disk);
    }

    /** Cleanup and closure only: nothing is executed, and the attempt never becomes valid. */
    method ResumeCleanup(id: string) returns (o: Outcome)
      requires Durable()
      modifies this
      ensures Durable() && Grows(old(disk), disk) && executed == old(executed)
      ensures (forall i :: 0 <= i < |old(disk).cases| && old(disk).cases[i].id == id ==> Closed(old(disk).cases[i])) ==>
        !o.Fine? && disk == old(disk)
      ensures o.Fine? ==> AllClosed(disk) && exists i :: 0 <= i < |disk.cases| && Resumed(disk.cases[i], id)
    {
      hide Inv, Truthful, History, Grows, Closed, Satisfied, AllClosed, CaseGrows, CasesOk;
      GrowsReflexive(disk);
      o := Check();
      if !o.Fine? { return; }
      data := disk;
      var found := FindCase(id);
      if found == None { return Raised; }
      var i := found.value;
      if Closed(data.cases[i]) { return Raised; }
      o := Check();
      if !o.Fine? { return; }
      RecordError(i);
      ghost var was := data;
      OpenHasAttempts(data, i);
      ghost var ran;
      o, ran := CleanUp(i);
      if !o.Fine? { return; }
      ghost var emptied := disk;
      OpenHasAttempts(data, i);
      MarkFacts(was, i, Cleanup);
      o := Finish(i, true);
      GrowsTransitive(old(disk), emptied, disk);
      if o.Fine? {
        ghost var verdict :| data == Close(emptied, i, verdict, true);
        TruthfulFacts(data, flaws, raised, cleaned);
        ResumedFacts(emptied, i, verdict, flaws);
      }
    }

    /** Any sequence of commands and crashes keeps what every process relies on. */
    method Operate(calls: seq<Call>)
      requires Durable()
      modifies this
      ensures Durable() && Grows(old(disk), disk) && old(executed) <= executed
    {
      hide Inv, Truthful, History, Grows;
      GrowsReflexive(disk);
      for k := 0 to |calls|
        invariant Durable() && Grows(old(disk), disk) && old(executed) <= executed
      {
        ghost var before := disk;
        var o;
        match calls[k] {
          case RunCall(limit, retry) => var frozen, refused; o, frozen, refused := Run(limit, retry);
          case ResumeCall(id) => o := ResumeCleanup(id);
        }
        GrowsTransitive(old(disk), before, disk);
      }
    }
  }
}
