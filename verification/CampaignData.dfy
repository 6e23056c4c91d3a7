/** The durable record of a campaign, the three ways in which an attempt changes it, and what every
    record reached by them satisfies. */
module CampaignData {
  import opened Options

  datatype AttemptState = Prepared | Cleanup | CleanupFailed | Verified

  datatype Judgement = Judgement(valid: bool, safety: bool)

  datatype Attempt = Attempt(number: nat, previous: Option<nat>, state: AttemptState, resumed: bool,
      verdict: Option<Judgement>)

  datatype Status = Pending | Running | Finished

  datatype Case = Case(id: string, dependencies: seq<string>, status: Status, attempts: seq<Attempt>,
      judgement: Option<Judgement>)

  datatype Data = Data(stage: string, maxAttempts: nat, cases: seq<Case>)

  /** Attempts, by case identifier and number. */
  type AttemptIds = set<(string, nat)>

  function Cap(d: Data): nat {
    if d.stage == "supplemental" || d.stage == "extension" then 1 else d.maxAttempts
  }

  predicate Closed(c: Case) {
    c.attempts == [] || c.attempts[|c.attempts| - 1].state == Verified
  }

  predicate Valid(c: Case) {
    c.judgement.Some? && c.judgement.value.valid
  }

  predicate Safe(c: Case) {
    c.status == Finished && c.judgement.Some? && c.judgement.value.valid && c.judgement.value.safety
  }

  // ---- what every record satisfies ----

  /** The attempts of a case are numbered and linked in order, all but the last are verified and none
      of those was valid; the status and the judgement are those of the last. */
  predicate CaseOk(c: Case) {
    var n := |c.attempts|;
    && (forall k :: 0 <= k < n ==> c.attempts[k].number == k + 1)
    && (forall k :: 0 <= k < n ==> c.attempts[k].previous == if k == 0 then None else Some(k))
    && (forall k :: 0 <= k < n - 1 ==> c.attempts[k].state == Verified)
    && (forall k :: 0 <= k < n ==> (c.attempts[k].state == Verified <==> c.attempts[k].verdict.Some?))
    && (forall k :: 0 <= k < n - 1 ==> c.attempts[k].verdict.Some? && !c.attempts[k].verdict.value.valid)
    && (forall k :: 0 <= k < n && c.attempts[k].resumed && c.attempts[k].verdict.Some? ==>
      !c.attempts[k].verdict.value.valid)
    && (c.status == Pending <==> n == 0)
    && (c.status == Finished <==> n > 0 && c.attempts[n - 1].state == Verified)
    && (n == 0 ==> c.judgement == None)
    && (c.status == Finished ==> c.judgement == c.attempts[n - 1].verdict)
    && (c.status == Running ==> !Valid(c))
  }

  predicate CasesOk(d: Data) {
    forall i :: 0 <= i < |d.cases| ==> CaseOk(d.cases[i]) && |d.cases[i].attempts| <= Cap(d)
  }

  predicate Distinct(d: Data) {
    forall i, j :: 0 <= i < j < |d.cases| ==> d.cases[i].id != d.cases[j].id
  }

  /** At most one attempt in the whole campaign is not verified; by CaseOk it is its case's last. */
  predicate OneOpen(d: Data) {
    forall i, j :: 0 <= i < j < |d.cases| ==> Closed(d.cases[i]) || Closed(d.cases[j])
  }

  predicate Satisfied(d: Data, id: string) {
    exists j :: 0 <= j < |d.cases| && d.cases[j].id == id && Safe(d.cases[j])
  }

  /** Every case that has an attempt has only valid and safe dependencies. */
  predicate DependenciesMet(d: Data) {
    forall i, k :: 0 <= i < |d.cases| && 0 <= k < |d.cases[i].dependencies| && d.cases[i].attempts != [] ==>
      Satisfied(d, d.cases[i].dependencies[k])
  }

  predicate Inv(d: Data) {
    CasesOk(d) && Distinct(d) && OneOpen(d) && DependenciesMet(d)
  }

  predicate Sound(a: Attempt) {
    a.verdict.Some? && a.verdict.value.valid
  }

  /** No valid verdict rests on evidence with an execution error. */
  predicate Judged(d: Data, flaws: AttemptIds) {
    forall i, k :: 0 <= i < |d.cases| && 0 <= k < |d.cases[i].attempts| && Sound(d.cases[i].attempts[k]) ==>
      (d.cases[i].id, k + 1) !in flaws
  }

  /** Every verified attempt has had a cleanup that passed its readback. */
  predicate AllCleaned(d: Data, cleaned: AttemptIds) {
    forall i, k :: 0 <= i < |d.cases| && 0 <= k < |d.cases[i].attempts| && d.cases[i].attempts[k].state == Verified ==>
      (d.cases[i].id, k + 1) in cleaned
  }

  predicate IsOpen(d: Data, id: (string, nat)) {
    exists i :: 0 <= i < |d.cases| && !Closed(d.cases[i]) && (d.cases[i].id, |d.cases[i].attempts|) == id
  }

  /** What was raised while an attempt was measured is in its evidence, or the attempt is still open. */
  predicate Reported(d: Data, flaws: AttemptIds, raised: AttemptIds) {
    forall id :: id in raised ==> id in flaws || IsOpen(d, id)
  }

  /** How a record stands to what happened: `flaws` is what the evidence says, `raised` the attempts
      whose measurement raised, `cleaned` those whose latest cleanup passed. */
  predicate Truthful(d: Data, flaws: AttemptIds, raised: AttemptIds, cleaned: AttemptIds) {
    Judged(d, flaws) && Reported(d, flaws, raised) && AllCleaned(d, cleaned)
  }

  // ---- how an attempt changes the record ----

  /** Append the next attempt. */
  function Open(d: Data, i: nat): Data
    requires i < |d.cases|
  {
    var c := d.cases[i];
    var n := |c.attempts|;
    var a := Attempt(n + 1, if n == 0 then None else Some(c.attempts[n - 1].number), Prepared, false, None);
    d.(cases := d.cases[i := c.(attempts := c.attempts + [a], status := Running)])
  }

  /** Move the open attempt to another state that is not verified. */
  function Mark(d: Data, i: nat, state: AttemptState): Data
    requires i < |d.cases| && d.cases[i].attempts != []
  {
    var c := d.cases[i];
    var n := |c.attempts|;
    d.(cases := d.cases[i := c.(attempts := c.attempts[n - 1 := c.attempts[n - 1].(state := state)])])
  }

  /** Verify and judge the open attempt, and finish its case. */
  function Close(d: Data, i: nat, verdict: Judgement, resumed: bool): Data
    requires i < |d.cases| && d.cases[i].attempts != []
  {
    var c := d.cases[i];
    var n := |c.attempts|;
    var a := c.attempts[n - 1].(state := Verified, resumed := resumed, verdict := Some(verdict));
    d.(cases := d.cases[i := c.(attempts := c.attempts[n - 1 := a], status := Finished, judgement := Some(verdict))])
  }

  // ---- records grow ----

  /** Verified attempts are never altered, attempts never disappear, and a case judged valid is final. */
  predicate Grows(d: Data, e: Data) {
    && e.stage == d.stage && e.maxAttempts == d.maxAttempts && |e.cases| == |d.cases|
    && forall i :: 0 <= i < |d.cases| ==> CaseGrows(d.cases[i], e.cases[i])
  }

  predicate CaseGrows(c: Case, e: Case) {
    && e.id == c.id && e.dependencies == c.dependencies && |c.attempts| <= |e.attempts|
    && (forall k :: 0 <= k < |c.attempts| && c.attempts[k].state == Verified ==> e.attempts[k] == c.attempts[k])
    && (c.status == Finished && Valid(c) ==> e == c)
  }

  lemma GrowsReflexive(d: Data)
    ensures Grows(d, d)
  {}

  lemma CaseGrowsTransitive(c: Case, d: Case, e: Case)
    requires CaseGrows(c, d) && CaseGrows(d, e)
    ensures CaseGrows(c, e)
  {}

  /** What holds of a growth step holds of any sequence of runs and resumptions. */
  lemma GrowsTransitive(d: Data, e: Data, f: Data)
    requires Grows(d, e) && Grows(e, f)
    ensures Grows(d, f)
  {
    hide CaseGrows;
    forall i | 0 <= i < |d.cases| ensures CaseGrows(d.cases[i], f.cases[i]) {
      CaseGrowsTransitive(d.cases[i], e.cases[i], f.cases[i]);
    }
  }

  /** A dependency once satisfied stays satisfied. */
  lemma SatisfiedForever(d: Data, e: Data, id: string)
    requires Grows(d, e) && Satisfied(d, id)
    ensures Satisfied(e, id)
  {
    var j :| 0 <= j < |d.cases| && d.cases[j].id == id && Safe(d.cases[j]);
    assert CaseGrows(d.cases[j], e.cases[j]);
  }

  /** One case changes, the others stay: what is left to show for the invariant. */
  lemma OneCaseChanges(d: Data, i: nat, c: Case)
    requires Inv(d) && i < |d.cases| && CaseGrows(d.cases[i], c) && CaseOk(c) && |c.attempts| <= Cap(d)
    requires forall j :: 0 <= j < |d.cases| && j != i ==> Closed(d.cases[j]) || Closed(c)
    requires d.cases[i].attempts == [] ==> forall k :: 0 <= k < |c.dependencies| ==> Satisfied(d, c.dependencies[k])
    ensures Inv(d.(cases := d.cases[i := c])) && Grows(d, d.(cases := d.cases[i := c]))
  {
    hide CaseOk, Closed, Satisfied, CaseGrows;
    var e := d.(cases := d.cases[i := c]);
    SameIdentity(d.cases[i], c);
    forall j | 0 <= j < |d.cases| ensures CaseGrows(d.cases[j], e.cases[j]) {
      if j != i { CaseGrowsReflexive(d.cases[j]); }
    }
    forall j, k | 0 <= j < |e.cases| && 0 <= k < |e.cases[j].dependencies| && e.cases[j].attempts != []
      ensures Satisfied(e, e.cases[j].dependencies[k])
    {
      if j != i { assert e.cases[j] == d.cases[j]; }
      assert Satisfied(d, e.cases[j].dependencies[k]);
      SatisfiedForever(d, e, e.cases[j].dependencies[k]);
    }
    assert Distinct(e);
    assert OneOpen(e);
  }

  lemma CaseGrowsReflexive(c: Case)
    ensures CaseGrows(c, c)
  {}

  lemma SameIdentity(c: Case, e: Case)
    requires CaseGrows(c, e)
    ensures e.id == c.id && e.dependencies == c.dependencies
  {}

  predicate AllClosed(d: Data) {
    forall j :: 0 <= j < |d.cases| ==> Closed(d.cases[j])
  }

  /** Opening an attempt is safe when every attempt is verified, the case is not judged valid, the cap
      is not reached, and the dependencies are valid and safe. */
  lemma OpenKeeps(d: Data, i: nat)
    requires Inv(d) && AllClosed(d) && i < |d.cases| && !Valid(d.cases[i])
    requires |d.cases[i].attempts| < Cap(d)
    requires forall k :: 0 <= k < |d.cases[i].dependencies| ==> Satisfied(d, d.cases[i].dependencies[k])
    ensures Inv(Open(d, i)) && Grows(d, Open(d, i))
    ensures !Closed(Open(d, i).cases[i])
  {
    hide Satisfied, Grows;
    OneCaseChanges(d, i, Open(d, i).cases[i]);
  }

  lemma MarkKeeps(d: Data, i: nat, state: AttemptState)
    requires Inv(d) && i < |d.cases| && !Closed(d.cases[i]) && state != Verified
    ensures Inv(Mark(d, i, state)) && Grows(d, Mark(d, i, state))
    ensures !Closed(Mark(d, i, state).cases[i])
  {
    hide Satisfied, Grows;
    OneCaseChanges(d, i, Mark(d, i, state).cases[i]);
  }

  lemma CloseKeeps(d: Data, i: nat, verdict: Judgement, resumed: bool)
    requires Inv(d) && i < |d.cases| && !Closed(d.cases[i]) && (resumed ==> !verdict.valid)
    ensures Inv(Close(d, i, verdict, resumed)) && Grows(d, Close(d, i, verdict, resumed))
    ensures AllClosed(Close(d, i, verdict, resumed))
  {
    hide Satisfied, Grows;
    OneCaseChanges(d, i, Close(d, i, verdict, resumed).cases[i]);
  }

  // ---- the record and what happened ----

  /** An error can be added to the evidence of an open attempt: it has no verdict yet. */
  lemma FlawKeepsTruthful(d: Data, i: nat, flaws: AttemptIds, raised: AttemptIds, cleaned: AttemptIds)
    requires Inv(d) && Truthful(d, flaws, raised, cleaned) && i < |d.cases| && !Closed(d.cases[i])
    ensures Truthful(d, flaws + {(d.cases[i].id, |d.cases[i].attempts|)}, raised, cleaned)
  {
    hide DependenciesMet, OneOpen, IsOpen;
  }

  /** Measuring or cleaning an open attempt changes what happened to it, and to it alone. */
  lemma HappeningKeepsTruthful(d: Data, i: nat, flaws: AttemptIds, raised: AttemptIds, cleaned: AttemptIds)
    requires Inv(d) && Truthful(d, flaws, raised, cleaned) && i < |d.cases| && !Closed(d.cases[i])
    ensures var id := (d.cases[i].id, |d.cases[i].attempts|);
      && Truthful(d, flaws, raised + {id}, cleaned)
      && Truthful(d, flaws, raised, cleaned + {id})
      && Truthful(d, flaws, raised, cleaned - {id})
  {
    hide DependenciesMet, OneOpen, Judged;
    var id := (d.cases[i].id, |d.cases[i].attempts|);
    assert IsOpen(d, id);
  }

  lemma OpenKeepsTruthful(d: Data, i: nat, flaws: AttemptIds, raised: AttemptIds, cleaned: AttemptIds)
    requires Truthful(d, flaws, raised, cleaned) && AllClosed(d) && i < |d.cases|
    ensures Truthful(Open(d, i), flaws, raised, cleaned) && raised <= flaws
  {}

  lemma MarkKeepsTruthful(d: Data, i: nat, state: AttemptState, flaws: AttemptIds, raised: AttemptIds,
      cleaned: AttemptIds)
    requires Truthful(d, flaws, raised, cleaned) && i < |d.cases| && !Closed(d.cases[i]) && state != Verified
    ensures Truthful(Mark(d, i, state), flaws, raised, cleaned)
  {
    hide IsOpen;
    var e := Mark(d, i, state);
    forall id | id in raised && id !in flaws ensures IsOpen(e, id) {
      MarkKeepsOpen(d, i, state, id);
    }
  }

  lemma MarkKeepsOpen(d: Data, i: nat, state: AttemptState, id: (string, nat))
    requires IsOpen(d, id) && i < |d.cases| && !Closed(d.cases[i]) && state != Verified
    ensures IsOpen(Mark(d, i, state), id)
  {
    var j :| 0 <= j < |d.cases| && !Closed(d.cases[j]) && (d.cases[j].id, |d.cases[j].attempts|) == id;
    assert !Closed(Mark(d, i, state).cases[j]);
  }

  /** Closing needs a cleanup that passed, and a verdict that the evidence allows. */
  lemma CloseKeepsTruthful(d: Data, i: nat, verdict: Judgement, resumed: bool, flaws: AttemptIds,
      raised: AttemptIds, cleaned: AttemptIds)
    requires Inv(d) && Truthful(d, flaws, raised, cleaned) && i < |d.cases| && !Closed(d.cases[i])
    requires var id := (d.cases[i].id, |d.cases[i].attempts|);
      id in cleaned && (id in flaws ==> !verdict.valid) && (id in raised ==> id in flaws)
    ensures Truthful(Close(d, i, verdict, resumed), flaws, raised, cleaned)
  {
    hide DependenciesMet, CasesOk, Distinct, IsOpen;
    forall id | id in raised ensures id in flaws {
      if IsOpen(d, id) { OnlyOpen(d, i, id); }
    }
  }

  lemma OnlyOpen(d: Data, i: nat, id: (string, nat))
    requires OneOpen(d) && i < |d.cases| && !Closed(d.cases[i]) && IsOpen(d, id)
    ensures id == (d.cases[i].id, |d.cases[i].attempts|)
  {}

  /** An attempt whose measurement raised is never judged valid. */
  lemma RaisedIsNeverValid(d: Data, flaws: AttemptIds, raised: AttemptIds, cleaned: AttemptIds, i: nat, k: nat)
    requires Inv(d) && Truthful(d, flaws, raised, cleaned) && i < |d.cases| && k < |d.cases[i].attempts|
    requires (d.cases[i].id, k + 1) in raised
    ensures d.cases[i].attempts[k].verdict.Some? ==> !d.cases[i].attempts[k].verdict.value.valid
  {
    hide DependenciesMet, OneOpen;
  }

  // ---- what the invariant says about a campaign ----

  /** The one attempt that may be open is the last of its case, and all others are verified. */
  lemma OpenAttemptIsLast(d: Data, i: nat, k: nat, j: nat, l: nat)
    requires Inv(d) && i < |d.cases| && k < |d.cases[i].attempts| && d.cases[i].attempts[k].state != Verified
    requires j < |d.cases| && l < |d.cases[j].attempts| && (j, l) != (i, k)
    ensures k == |d.cases[i].attempts| - 1 && d.cases[j].attempts[l].state == Verified
  {
    hide DependenciesMet, Distinct, CaseOk;
    CaseFacts(d.cases[i]);
    CaseFacts(d.cases[j]);
  }

  /** The registered caps: one attempt a case in the supplemental and extension stages, else the profile's. */
  lemma AttemptsWithinCap(d: Data, i: nat)
    requires Inv(d) && i < |d.cases|
    ensures |d.cases[i].attempts| <=
            if d.stage == "supplemental" || d.stage == "extension" then 1 else d.maxAttempts
  {
    hide Distinct, OneOpen, DependenciesMet, CaseOk;
  }

  lemma CaseFacts(c: Case)
    requires CaseOk(c)
    ensures forall k :: 0 <= k < |c.attempts| - 1 ==>
        c.attempts[k].state == Verified && c.attempts[k].verdict.Some? && !c.attempts[k].verdict.value.valid
    ensures Valid(c) ==>
        c.status == Finished && c.attempts != []
        && c.judgement == c.attempts[|c.attempts| - 1].verdict && !c.attempts[|c.attempts| - 1].resumed
  {}

  /** A valid verdict is the last word of its case, now and in every later record. */
  lemma ValidIsFinal(d: Data, e: Data, i: nat, k: nat)
    requires Inv(d) && Inv(e) && Grows(d, e) && i < |d.cases| && k < |d.cases[i].attempts|
    requires d.cases[i].attempts[k].verdict.Some? && d.cases[i].attempts[k].verdict.value.valid
    ensures k == |d.cases[i].attempts| - 1 && !d.cases[i].attempts[k].resumed && e.cases[i] == d.cases[i]
  {
    hide DependenciesMet, Distinct, OneOpen;
    assert CaseGrows(d.cases[i], e.cases[i]);
  }

  /** A case with attempts depends on cases that were, are and stay finished, valid and safe. */
  lemma DependenciesHoldForever(d: Data, e: Data, i: nat, k: nat)
    requires Inv(d) && Grows(d, e) && i < |d.cases| && d.cases[i].attempts != [] && k < |d.cases[i].dependencies|
    ensures Satisfied(d, d.cases[i].dependencies[k]) && Satisfied(e, d.cases[i].dependencies[k])
  {
    hide CasesOk, Distinct, OneOpen, Satisfied, Grows;
    SatisfiedForever(d, e, d.cases[i].dependencies[k]);
  }
}
