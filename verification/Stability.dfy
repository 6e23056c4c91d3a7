/** The two HTTP stability scanners: `first_stable`, which reports the first confirmation and
    the interruptions after it, and `raw_http_stable`, which judges the final streak only. */
module Stability {
  import opened Options

  datatype Sample = Sample(time: real, ok: bool)

  const SECONDS := 30.0
  const MIN_SAMPLES: nat := 20
  const MAX_GAP := 2.5

  // ---- the two streak rules, as written in the two files ----

  /** first_stable's rule: is the streak broken by x? */
  predicate Breaks(streak: seq<Sample>, x: Sample, maxGap: real) {
    !x.ok || (streak != [] && !(0.0 < x.time - streak[|streak| - 1].time <= maxGap))
  }

  /** first_stable's loop body, as far as the streak goes. */
  function FirstStep(streak: seq<Sample>, x: Sample, maxGap: real): seq<Sample> {
    if Breaks(streak, x, maxGap) then (if x.ok then [x] else []) else streak + [x]
  }

  /** raw_http_stable's loop body. */
  function RawStep(streak: seq<Sample>, x: Sample): seq<Sample> {
    if !x.ok then []
    else if streak != [] && !(0.0 < x.time - streak[|streak| - 1].time <= 2.5) then [x]
    else streak + [x]
  }

  function FirstStreak(s: seq<Sample>, maxGap: real): seq<Sample> {
    if s == [] then [] else FirstStep(FirstStreak(s[..|s| - 1], maxGap), s[|s| - 1], maxGap)
  }

  function RawStreak(s: seq<Sample>): seq<Sample> {
    if s == [] then [] else RawStep(RawStreak(s[..|s| - 1]), s[|s| - 1])
  }

  /** The two scanners hold the same streak after every prefix of the stream. */
  lemma {:induction false} StreaksAgree(s: seq<Sample>)
    ensures FirstStreak(s, MAX_GAP) == RawStreak(s)
  {
    if s != [] { StreaksAgree(s[..|s| - 1]); }
  }

  /** Are these samples all healthy, each later than the one before by at most the gap? */
  predicate Steady(s: seq<Sample>, maxGap: real) {
    && (forall i :: 0 <= i < |s| ==> s[i].ok)
    && (forall i :: 0 < i < |s| ==> 0.0 < s[i].time - s[i - 1].time <= maxGap)
  }

  /** Does the longest steady suffix start at k? */
  ghost predicate LongestFrom(s: seq<Sample>, k: nat, maxGap: real) {
    k <= |s| && Steady(s[k..], maxGap) && forall j: nat :: j < k ==> !Steady(s[j..], maxGap)
  }

  lemma SuffixMore(p: seq<Sample>, x: Sample, j: nat, maxGap: real)
    requires j <= |p|
    ensures Steady((p + [x])[j..], maxGap) <==>
            Steady(p[j..], maxGap) && x.ok && (j < |p| ==> 0.0 < x.time - p[|p| - 1].time <= maxGap)
  {
    hide Steady;
    assert (p + [x])[j..] == p[j..] + [x];
    SteadyMore(p[j..], x, maxGap);
  }

  lemma LongestMore(p: seq<Sample>, x: Sample, k: nat, maxGap: real)
    requires LongestFrom(p, k, maxGap)
    ensures LongestFrom(p + [x],
                        if !x.ok then |p| + 1
                        else if k < |p| && !(0.0 < x.time - p[|p| - 1].time <= maxGap) then |p| else k, maxGap)
  {
    hide Steady;
    var s := p + [x];
    NothingSteady(maxGap);
    assert p[|p|..] == [] && s[|p| + 1..] == [];
    forall j: nat | j <= |p|
      ensures Steady(s[j..], maxGap) <==>
              Steady(p[j..], maxGap) && x.ok && (j < |p| ==> 0.0 < x.time - p[|p| - 1].time <= maxGap)
    {
      SuffixMore(p, x, j, maxGap);
    }
  }

  /** The streak is the longest steady suffix of what has been read. */
  lemma {:induction false} StreakIsLongestSteadySuffix(s: seq<Sample>, maxGap: real)
    ensures |FirstStreak(s, maxGap)| <= |s|
    ensures var k := |s| - |FirstStreak(s, maxGap)|;
      FirstStreak(s, maxGap) == s[k..] && LongestFrom(s, k, maxGap)
  {
    hide LongestFrom;
    if s == [] {
      LongestOfNothing(maxGap);
    } else {
      var n := |s| - 1;
      var p, x := s[..n], s[n];
      StreakIsLongestSteadySuffix(p, maxGap);
      var before := n - |FirstStreak(p, maxGap)|;
      assert s == p + [x] && p[before..] + [x] == s[before..];
      LongestMore(p, x, before, maxGap);
    }
  }

  lemma LongestOfNothing(maxGap: real)
    ensures LongestFrom([], 0, maxGap)
  {}

  lemma NothingSteady(maxGap: real)
    ensures Steady([], maxGap)
  {}

  /** One more sample keeps a run steady exactly if it is healthy and not too late. */
  lemma SteadyMore(s: seq<Sample>, x: Sample, maxGap: real)
    ensures Steady(s + [x], maxGap) <==>
            Steady(s, maxGap) && x.ok && (s != [] ==> 0.0 < x.time - s[|s| - 1].time <= maxGap)
  {
    var t := s + [x];
    assert forall i :: 0 <= i < |s| ==> t[i] == s[i];
    assert t[|s|] == x;
  }

  // ---- confirmation ----

  /** A streak meets the rule at its last sample. */
  predicate Meets(streak: seq<Sample>, seconds: real, minSamples: nat) {
    && streak != [] && |streak| >= minSamples
    && streak[|streak| - 1].time - streak[0].time >= seconds
  }

  /** How many samples first_stable has read when it confirms, 0 if it has not. */
  function Confirmed(s: seq<Sample>, seconds: real, minSamples: nat, maxGap: real): (c: nat)
    ensures c <= |s|
  {
    if s == [] then 0
    else
      var before := Confirmed(s[..|s| - 1], seconds, minSamples, maxGap);
      if before > 0 then before
      else if Meets(FirstStreak(s, maxGap), seconds, minSamples) then |s| else 0
  }

  /** How many samples broke a streak after the confirmation. */
  function Interruptions(s: seq<Sample>, seconds: real, minSamples: nat, maxGap: real): nat {
    if s == [] then 0
    else
      var p := s[..|s| - 1];
      Interruptions(p, seconds, minSamples, maxGap) +
      if Breaks(FirstStreak(p, maxGap), s[|s| - 1], maxGap) && Confirmed(p, seconds, minSamples, maxGap) > 0
      then 1 else 0
  }

  function After(samples: seq<Sample>, start: real): seq<Sample> {
    if samples == [] then []
    else (if samples[0].time >= start then [samples[0]] else []) + After(samples[1..], start)
  }

  method FirstStable(samples: seq<Sample>, start: real, seconds: real, minSamples: nat, maxGap: real)
    returns (confirmed: Option<real>, interruptions: nat)
    ensures var s := After(samples, start);
            var c := Confirmed(s, seconds, minSamples, maxGap);
            && confirmed == (if c == 0 then None else Some(s[c - 1].time))
            && interruptions == Interruptions(s, seconds, minSamples, maxGap)
  {
    hide Confirmed, Interruptions, FirstStreak, After;
    var streak: seq<Sample> := [];
    confirmed, interruptions := None, 0;
    ghost var read: seq<Sample> := [];
    AfterNone(start);
    ReadNone(seconds, minSamples, maxGap);
    for i := 0 to |samples|
      invariant read == After(samples[..i], start)
      invariant streak == FirstStreak(read, maxGap)
      invariant var c := Confirmed(read, seconds, minSamples, maxGap);
                confirmed == if c == 0 then None else Some(read[c - 1].time)
      invariant interruptions == Interruptions(read, seconds, minSamples, maxGap)
    {
      var sample := samples[i];
      assert samples[..i + 1] == samples[..i] + [sample];
      AfterMore(samples[..i], sample, start);
      if sample.time < start { continue; }
      ghost var more := read + [sample];
      ReadOne(more, |read|, seconds, minSamples, maxGap);
      assert more[..|read|] == read && more[..|more|] == more;
      read := more;
      if !sample.ok || (streak != [] && !(0.0 < sample.time - streak[|streak| - 1].time <= maxGap)) {
        interruptions := interruptions + if confirmed != None then 1 else 0;
        streak := [];
        if !sample.ok { continue; }
      }
      streak := streak + [sample];
      if confirmed == None && |streak| >= minSamples && sample.time - streak[0].time >= seconds {
        confirmed := Some(sample.time);
      }
    }
    assert samples[..|samples|] == samples;
  }

  lemma AfterNone(start: real)
    ensures After([], start) == []
  {}

  lemma {:induction false} AfterMore(samples: seq<Sample>, x: Sample, start: real)
    ensures After(samples + [x], start) == After(samples, start) + if x.time >= start then [x] else []
  {
    if samples == [] {
      assert samples + [x] == [x] && [x][1..] == [];
    } else {
      assert (samples + [x])[1..] == samples[1..] + [x];
      AfterMore(samples[1..], x, start);
      var head := if samples[0].time >= start then [samples[0]] else [];
      var last := if x.time >= start then [x] else [];
      assert head + (After(samples[1..], start) + last) == head + After(samples[1..], start) + last;
    }
  }

  lemma ReadNone(seconds: real, minSamples: nat, maxGap: real)
    ensures FirstStreak([], maxGap) == []
    ensures Confirmed([], seconds, minSamples, maxGap) == 0
    ensures Interruptions([], seconds, minSamples, maxGap) == 0
  {}

  /** What one more sample does to the three running values. */
  lemma ReadOne(s: seq<Sample>, i: nat, seconds: real, minSamples: nat, maxGap: real)
    requires i < |s|
    ensures var p, q := s[..i], s[..i + 1];
            var before := Confirmed(p, seconds, minSamples, maxGap);
            var broken := Breaks(FirstStreak(p, maxGap), s[i], maxGap);
            && FirstStreak(q, maxGap) == FirstStep(FirstStreak(p, maxGap), s[i], maxGap)
            && Confirmed(q, seconds, minSamples, maxGap) ==
               (if before > 0 then before
                else if Meets(FirstStreak(q, maxGap), seconds, minSamples) then i + 1 else 0)
            && Interruptions(q, seconds, minSamples, maxGap) ==
               Interruptions(p, seconds, minSamples, maxGap) + (if broken && before > 0 then 1 else 0)
  {
    assert s[..i + 1][..i] == s[..i];
  }

  /** The 1-based place in the streak at which the rule is first met, 0 if it never is. */
  function FirstMet(streak: seq<Sample>): (i: nat)
    ensures i <= |streak|
    ensures i > 0 ==> Meets(streak[..i], SECONDS, MIN_SAMPLES)
  {
    if streak == [] then 0
    else
      var before := FirstMet(streak[..|streak| - 1]);
      if before > 0 then (assert streak[..|streak| - 1][..before] == streak[..before]; before)
      else if Meets(streak, SECONDS, MIN_SAMPLES) then (assert streak[..|streak|] == streak; |streak|) else 0
  }

  method RawHttpStable(samples: seq<Sample>) returns (confirmed: Option<real>)
    ensures var streak := RawStreak(samples);
            confirmed == if FirstMet(streak) == 0 then None else Some(streak[FirstMet(streak) - 1].time)
  {
    var streak: seq<Sample> := [];
    for i := 0 to |samples|
      invariant streak == RawStreak(samples[..i])
    {
      assert samples[..i + 1][..i] == samples[..i];
      var row := samples[i];
      if !row.ok {
        streak := [];
        continue;
      }
      if streak != [] && !(0.0 < row.time - streak[|streak| - 1].time <= 2.5) { streak := []; }
      streak := streak + [row];
    }
    assert samples[..|samples|] == samples;
    confirmed := FirstMeeting(streak);
  }

  /** The first sample at which the streak meets the rule. */
  method FirstMeeting(streak: seq<Sample>) returns (confirmed: Option<real>)
    ensures confirmed == if FirstMet(streak) == 0 then None else Some(streak[FirstMet(streak) - 1].time)
  {
    assert streak[..0] == [];
    for i := 1 to |streak| + 1
      invariant FirstMet(streak[..i - 1]) == 0
    {
      assert streak[..i][..i - 1] == streak[..i - 1];
      if i >= 20 && streak[i - 1].time - streak[0].time >= 30.0 {
        MetHereIsFirst(streak, i);
        return Some(streak[i - 1].time);
      }
    }
    assert streak[..|streak|] == streak;
    return None;
  }

  lemma {:induction false} MetHereIsFirst(streak: seq<Sample>, i: nat)
    requires 0 < i <= |streak| && FirstMet(streak[..i - 1]) == 0
    requires Meets(streak[..i], SECONDS, MIN_SAMPLES)
    ensures FirstMet(streak) == i
    decreases |streak|
  {
    if i < |streak| {
      assert streak[..|streak| - 1][..i - 1] == streak[..i - 1];
      assert streak[..|streak| - 1][..i] == streak[..i];
      MetHereIsFirst(streak[..|streak| - 1], i);
    } else {
      assert streak[..i] == streak;
    }
  }

  // ---- how the two verdicts relate ----

  /** The streak is a suffix of the stream, and while it grew it was the streak. */
  lemma {:induction false} StreakGrew(s: seq<Sample>, i: nat)
    requires 0 < i <= |RawStreak(s)|
    ensures |RawStreak(s)| <= |s|
    ensures var j := |s| - |RawStreak(s)| + i;
            RawStreak(s[..j]) == RawStreak(s)[..i]
  {
    var streak := RawStreak(s);
    var p := s[..|s| - 1];
    StreakLength(s);
    if i == |streak| {
      assert s[..|s|] == s && streak[..i] == streak;
    } else {
      assert streak == RawStreak(p) + [s[|s| - 1]];
      StreakGrew(p, i);
      var j := |s| - |streak| + i;
      assert p[..j] == s[..j];
      assert streak[..i] == RawStreak(p)[..i];
    }
  }

  lemma {:induction false} StreakLength(s: seq<Sample>)
    ensures |RawStreak(s)| <= |s|
  {
    if s != [] { StreakLength(s[..|s| - 1]); }
  }

  /** first_stable has confirmed no later than any prefix whose streak meets the rule. */
  lemma {:induction false} ConfirmedBy(s: seq<Sample>, j: nat)
    requires j <= |s| && Meets(RawStreak(s[..j]), SECONDS, MIN_SAMPLES)
    ensures 0 < Confirmed(s, SECONDS, MIN_SAMPLES, MAX_GAP) <= j
    ensures Confirmed(s, SECONDS, MIN_SAMPLES, MAX_GAP) == Confirmed(s[..j], SECONDS, MIN_SAMPLES, MAX_GAP)
  {
    if j == |s| {
      assert s[..j] == s;
      StreaksAgree(s);
    } else {
      assert s[..|s| - 1][..j] == s[..j];
      ConfirmedBy(s[..|s| - 1], j);
    }
  }

  /** Where in the stream the raw verdict's confirming sample stands, 0 if there is none. */
  function RawConfirmed(s: seq<Sample>): nat {
    var streak := RawStreak(s);
    if FirstMet(streak) == 0 || |streak| > |s| then 0 else |s| - |streak| + FirstMet(streak)
  }

  lemma RawConfirmedSample(s: seq<Sample>)
    requires FirstMet(RawStreak(s)) > 0
    ensures 0 < RawConfirmed(s) <= |s|
    ensures Meets(RawStreak(s[..RawConfirmed(s)]), SECONDS, MIN_SAMPLES)
    ensures s[RawConfirmed(s) - 1] == RawStreak(s)[FirstMet(RawStreak(s)) - 1]
  {
    hide FirstMet, Meets, RawStreak;
    var i := FirstMet(RawStreak(s));
    StreakLength(s);
    StreakGrew(s, i);
    var j := |s| - |RawStreak(s)| + i;
    assert RawConfirmed(s) == j;
    StreakEnds(s[..j]);
    assert s[..j][j - 1] == s[j - 1];
  }

  lemma StreakEnds(s: seq<Sample>)
    requires RawStreak(s) != []
    ensures s != [] && RawStreak(s)[|RawStreak(s)| - 1] == s[|s| - 1]
  {}

  /** If the raw verdict confirms, first_stable confirms at the same sample or before it. */
  lemma RawImpliesFirst(s: seq<Sample>)
    requires RawConfirmed(s) > 0
    ensures 0 < Confirmed(s, SECONDS, MIN_SAMPLES, MAX_GAP) <= RawConfirmed(s)
  {
    hide Confirmed, Meets;
    RawConfirmedSample(s);
    ConfirmedBy(s, RawConfirmed(s));
  }

  /** With no interruption since the confirmation, the streak still holds the confirming one. */
  lemma {:induction false} Uninterrupted(s: seq<Sample>)
    requires Confirmed(s, SECONDS, MIN_SAMPLES, MAX_GAP) > 0
    requires Interruptions(s, SECONDS, MIN_SAMPLES, MAX_GAP) == 0
    ensures var c := Confirmed(s, SECONDS, MIN_SAMPLES, MAX_GAP);
            && |RawStreak(s)| <= |s|
            && |RawStreak(s[..c])| + (|s| - c) == |RawStreak(s)|
            && Meets(RawStreak(s[..c]), SECONDS, MIN_SAMPLES)
  {
    var c := Confirmed(s, SECONDS, MIN_SAMPLES, MAX_GAP);
    var p := s[..|s| - 1];
    StreakLength(s);
    StreaksAgree(s);
    if c == |s| {
      assert s[..c] == s;
      ConfirmedHere(s);
    } else {
      StreaksAgree(p);
      Uninterrupted(p);
      assert p[..c] == s[..c];
    }
  }

  lemma ConfirmedHere(s: seq<Sample>)
    requires s != [] && Confirmed(s, SECONDS, MIN_SAMPLES, MAX_GAP) == |s|
    ensures Meets(FirstStreak(s, MAX_GAP), SECONDS, MIN_SAMPLES)
  {}

  lemma {:induction false} FirstMetOfPrefix(streak: seq<Sample>, i: nat)
    requires 0 < i <= |streak| && Meets(streak[..i], SECONDS, MIN_SAMPLES)
    ensures 0 < FirstMet(streak) <= i
  {
    if i < |streak| {
      assert streak[..|streak| - 1][..i] == streak[..i];
      FirstMetOfPrefix(streak[..|streak| - 1], i);
    } else {
      assert streak[..i] == streak;
    }
  }

  /** An uninterrupted confirmation is the raw verdict's own. */
  lemma UninterruptedAgrees(s: seq<Sample>)
    requires Confirmed(s, SECONDS, MIN_SAMPLES, MAX_GAP) > 0
    requires Interruptions(s, SECONDS, MIN_SAMPLES, MAX_GAP) == 0
    ensures RawConfirmed(s) == Confirmed(s, SECONDS, MIN_SAMPLES, MAX_GAP)
  {
    hide Confirmed, Interruptions, Meets;
    var c := Confirmed(s, SECONDS, MIN_SAMPLES, MAX_GAP);
    Uninterrupted(s);
    NonEmptyMeets(RawStreak(s[..c]));
    var i := |RawStreak(s[..c])|;
    StreakGrew(s, i);
    FirstMetOfPrefix(RawStreak(s), i);
    RawImpliesFirst(s);
  }

  lemma NonEmptyMeets(streak: seq<Sample>)
    requires Meets(streak, SECONDS, MIN_SAMPLES)
    ensures streak != []
  {}

  /** Any interruption after the confirmation discards it for the raw verdict. */
  lemma {:induction false} InterruptedMovesOn(s: seq<Sample>)
    requires Interruptions(s, SECONDS, MIN_SAMPLES, MAX_GAP) > 0
    ensures Confirmed(s, SECONDS, MIN_SAMPLES, MAX_GAP) > 0
    ensures |RawStreak(s)| <= |s| - Confirmed(s, SECONDS, MIN_SAMPLES, MAX_GAP)
  {
    var p := s[..|s| - 1];
    StreaksAgree(p);
    if Interruptions(p, SECONDS, MIN_SAMPLES, MAX_GAP) > 0 { InterruptedMovesOn(p); }
  }

  /** The scanners name the same sample exactly when first_stable has confirmed and counted no
      interruption; otherwise the raw verdict is later or missing. */
  lemma VerdictsAgreeExactly(s: seq<Sample>)
    ensures var c := Confirmed(s, SECONDS, MIN_SAMPLES, MAX_GAP);
            var clean := c > 0 && Interruptions(s, SECONDS, MIN_SAMPLES, MAX_GAP) == 0;
            && (clean <==> RawConfirmed(s) == c > 0)
            && (!clean ==> RawConfirmed(s) == 0 || RawConfirmed(s) > c > 0)
  {
    hide Confirmed, Interruptions;
    var c := Confirmed(s, SECONDS, MIN_SAMPLES, MAX_GAP);
    if RawConfirmed(s) > 0 { RawImpliesFirst(s); }
    if Interruptions(s, SECONDS, MIN_SAMPLES, MAX_GAP) > 0 {
      InterruptedMovesOn(s);
    } else if c > 0 {
      UninterruptedAgrees(s);
    }
  }
}
