/** One cumulative deadline for an operational read (`read_with_budget`) and the convergence
    loop around it (`retry_read`). Times are integer milliseconds. */
module ReadBudget {
  import opened Options

  const COMMAND_CAP := 20000
  const OPERATION_CAP := 90000

  function Backoff(attempt: nat): int {
    if attempt == 1 then 10000 else 25000
  }

  /** What transient_error looks at: markers of a permanent refusal, of a connection fault, the
      exception's own type, and whether a wait merely timed out. */
  datatype Error = Error(permanent: bool, connectionText: bool, connectionType: bool, pending: bool)

  const EXHAUSTED := Error(false, false, false, false)

  predicate Transient(e: Error) {
    !e.permanent && (e.connectionText || e.connectionType)
  }

  datatype Outcome = Value(v: int) | Raised(error: Error) | Rejected

  /** What a callback is: the registered command, a command nested in another read, a reconnection, or
      an identity read. */
  datatype Kind = Registered | Nested | Reconnecting | Identifying

  /** What happens in a read: callbacks that start and answer, attempts recorded as failed, deadline
      checks that pass and that do not, and pauses with the time that was left. Whatever runs logs
      its own start and answer. */
  datatype Event =
    | Started(kind: Kind, at: int) | Answered(kind: Kind, outcome: Outcome)
    | Failed(error: Error) | Checked(at: int) | Expired(at: int) | Slept(duration: int, left: int)

  // ---- what a log says ----

  function Invocations(l: seq<Event>): nat {
    if l == [] then 0 else Invocations(l[..|l| - 1]) + if StartsCommand(l[|l| - 1]) then 1 else 0
  }

  predicate StartsCommand(e: Event) {
    e.Started? && e.kind == Registered
  }

  /** What the last registered command answered. */
  function LastAnswer(l: seq<Event>): Option<Outcome> {
    if l == [] then None
    else
      var e := l[|l| - 1];
      if e.Answered? && e.kind == Registered then Some(e.outcome) else LastAnswer(l[..|l| - 1])
  }

  predicate Identified(e: Event) {
    e.Answered? && e.kind == Identifying && e.outcome.Value?
  }

  /** The identity has been proved since the last invocation. */
  predicate ProvedSince(l: seq<Event>) {
    l != [] && !StartsCommand(l[|l| - 1]) && (Identified(l[|l| - 1]) || ProvedSince(l[..|l| - 1]))
  }

  /** Did this event raise the error? */
  predicate RaisedBy(e: Event, error: Error) {
    || (e.Answered? && e.kind != Nested && e.outcome == Raised(error))
    || (e.Expired? && error == EXHAUSTED)
  }

  /** The pause after the given failed attempt: 10 s after the first, 25 s after the second, and never
      past the deadline. */
  function PauseOf(attempt: nat, left: int): int {
    if left <= 0 then 0
    else if attempt == 1 then (if left < 10000 then left else 10000)
    else (if left < 25000 then left else 25000)
  }

  /** How far the way to a retry has come: 0 after an invocation, 1 once its attempt has failed with a
      transient error, 2 after a reconnection if one is configured, 3 once the identity is proved
      again, 4 after the pause. */
  function Stage(l: seq<Event>, reconnect: bool): nat {
    if l == [] then 0
    else
      var p, e := l[..|l| - 1], l[|l| - 1];
      NextStage(Stage(p, reconnect), Invocations(p), if p == [] then None else Some(p[|p| - 1]), e, reconnect)
  }

  function NextStage(stage: nat, invocations: nat, last: Option<Event>, e: Event, reconnect: bool): nat {
    match e
    case Started(kind, _) => if kind == Registered then 0 else stage
    case Failed(error) =>
      if last.Some? && RaisedBy(last.value, error) && !error.permanent && (error.connectionText || error.connectionType)
      then 1 else 0
    case Answered(kind, outcome) =>
      if kind == Reconnecting && outcome.Value? && stage == 1 && reconnect then 2
      else if kind == Identifying && outcome.Value? && stage == (if reconnect then 2 else 1) then 3
      else stage
    case Slept(duration, left) => if stage == 3 && duration == PauseOf(invocations, left) then 4 else stage
    case _ => stage
  }

  /** Every invocation but the first has the whole way to a retry behind it, and starts before the bound. */
  predicate Disciplined(l: seq<Event>, reconnect: bool, bound: Option<int>) {
    l != [] ==>
      var p, e := l[..|l| - 1], l[|l| - 1];
      && Disciplined(p, reconnect, bound)
      && (StartsCommand(e) && Invocations(p) > 0 ==> Stage(p, reconnect) == 4 && (bound.Some? ==> e.at < bound.value))
  }

  /** A read's result is what its log ends with: the last command's answer, or the error that the last
      callback or check raised, recorded as a failed attempt or not. */
  predicate Answers(r: Outcome, l: seq<Event>) {
    && (r.Value? ==> LastAnswer(l) == Some(r))
    && (r.Raised? ==>
          && l != []
          && (RaisedBy(l[|l| - 1], r.error)
              || (l[|l| - 1] == Failed(r.error) && |l| > 1 && RaisedBy(l[|l| - 2], r.error))))
  }

  /** Only nested activity: no callback, failure or pause of the read's own. */
  predicate Inner(l: seq<Event>) {
    forall i :: 0 <= i < |l| ==>
      || (l[i].Started? && l[i].kind == Nested) || (l[i].Answered? && l[i].kind == Nested)
      || l[i].Checked? || l[i].Expired?
  }

  lemma LogStep(l: seq<Event>, e: Event, reconnect: bool, bound: Option<int>)
    ensures Invocations(l + [e]) == Invocations(l) + (if StartsCommand(e) then 1 else 0)
    ensures ProvedSince(l + [e]) <==> !StartsCommand(e) && (Identified(e) || ProvedSince(l))
    ensures LastAnswer(l + [e]) == if e.Answered? && e.kind == Registered then Some(e.outcome) else LastAnswer(l)
    ensures Stage(l + [e], reconnect) ==
            NextStage(Stage(l, reconnect), Invocations(l), if l == [] then None else Some(l[|l| - 1]), e, reconnect)
    ensures Disciplined(l + [e], reconnect, bound) <==>
            && Disciplined(l, reconnect, bound)
            && (StartsCommand(e) && Invocations(l) > 0 ==>
                  Stage(l, reconnect) == 4 && (bound.Some? ==> e.at < bound.value))
  {
    assert (l + [e])[..|l|] == l;
  }

  /** Nested activity changes none of the counts of the read around it. */
  lemma {:induction false} LogInner(l: seq<Event>, inner: seq<Event>, reconnect: bool, bound: Option<int>)
    requires Inner(inner)
    ensures Invocations(l + inner) == Invocations(l)
    ensures ProvedSince(l + inner) <==> ProvedSince(l)
    ensures LastAnswer(l + inner) == LastAnswer(l)
    ensures Stage(l + inner, reconnect) == Stage(l, reconnect)
    ensures Disciplined(l + inner, reconnect, bound) <==> Disciplined(l, reconnect, bound)
    decreases |inner|
  {
    hide Invocations, ProvedSince, LastAnswer, Stage, Disciplined;
    if inner == [] {
      assert l + inner == l;
    } else {
      var most, e := inner[..|inner| - 1], inner[|inner| - 1];
      LogInner(l, most, reconnect, bound);
      LogStep(l + most, e, reconnect, bound);
      assert l + inner == l + most + [e];
    }
  }

  /** A callback in the log: its start, what is nested in it, its answer. */
  lemma LogCallback(l: seq<Event>, kind: Kind, at: int, inner: seq<Event>, r: Outcome, reconnect: bool,
                    bound: Option<int>)
    requires Inner(inner) && kind != Nested
    ensures var m := l + ([Started(kind, at)] + inner + [Answered(kind, r)]);
      && Invocations(m) == Invocations(l) + (if kind == Registered then 1 else 0)
      && (ProvedSince(m) <==> kind != Registered && ((kind == Identifying && r.Value?) || ProvedSince(l)))
      && LastAnswer(m) == (if kind == Registered then Some(r) else LastAnswer(l))
      && Stage(m, reconnect) ==
           (if kind == Registered then 0
            else if kind == Reconnecting && r.Value? && Stage(l, reconnect) == 1 && reconnect then 2
            else if kind == Identifying && r.Value? && Stage(l, reconnect) == (if reconnect then 2 else 1) then 3
            else Stage(l, reconnect))
      && (Disciplined(m, reconnect, bound) <==>
            && Disciplined(l, reconnect, bound)
            && (kind == Registered && Invocations(l) > 0 ==>
                  Stage(l, reconnect) == 4 && (bound.Some? ==> at < bound.value)))
      && m[|m| - 1] == Answered(kind, r)
  {
    hide Invocations, ProvedSince, LastAnswer, Stage, Disciplined, Inner;
    var a := l + [Started(kind, at)];
    LogStep(l, Started(kind, at), reconnect, bound);
    LogInner(a, inner, reconnect, bound);
    LogStep(a + inner, Answered(kind, r), reconnect, bound);
    assert l + ([Started(kind, at)] + inner + [Answered(kind, r)]) == a + inner + [Answered(kind, r)];
  }

  /** What discipline says of positions: between any two invocations lie a transient failure and, after
      it, an identity proof and a pause, and the later invocation is inside the bound. */
  lemma {:induction false} BetweenInvocations(l: seq<Event>, reconnect: bool, bound: Option<int>, i: nat, j: nat)
    requires Disciplined(l, reconnect, bound) && i < j < |l| && StartsCommand(l[i]) && StartsCommand(l[j])
    ensures exists f, k, p ::
              i < f < k < p < j && l[f].Failed? && Transient(l[f].error) && Identified(l[k]) && l[p].Slept?
    ensures bound.Some? ==> l[j].at < bound.value
    decreases |l|
  {
    hide Stage;
    var p := l[..|l| - 1];
    if j == |l| - 1 {
      InvocationCounted(p, i);
      var f, k, q := StageReached(p, reconnect, i);
    } else {
      BetweenInvocations(p, reconnect, bound, i, j);
      var f, k, q :|
        i < f < k < q < j && p[f].Failed? && Transient(p[f].error) && Identified(p[k]) && p[q].Slept?;
      assert l[f] == p[f] && l[k] == p[k] && l[q] == p[q];
    }
  }

  lemma {:induction false} InvocationCounted(l: seq<Event>, i: nat)
    requires i < |l| && StartsCommand(l[i])
    ensures Invocations(l) > 0
  {
    if i < |l| - 1 { InvocationCounted(l[..|l| - 1], i); }
  }

  /** A stage is reached only by the events that lead to it, all after the last invocation. */
  lemma {:induction false} StageReached(l: seq<Event>, reconnect: bool, i: nat) returns (f: nat, k: nat, p: nat)
    requires i < |l| && StartsCommand(l[i])
    ensures Stage(l, reconnect) >= 1 ==> i < f < |l| && l[f].Failed? && Transient(l[f].error)
    ensures Stage(l, reconnect) >= 3 ==> f < k < |l| && Identified(l[k])
    ensures Stage(l, reconnect) >= 4 ==> k < p < |l| && l[p].Slept?
    ensures Stage(l, reconnect) <= 4
  {
    var e, n := l[|l| - 1], |l| - 1;
    if i == n {
      f, k, p := 0, 0, 0;
    } else {
      var before := l[..n];
      f, k, p := StageReached(before, reconnect, i);
      if e.Failed? {
        f, k, p := n, 0, 0;
      } else if Stage(l, reconnect) != Stage(before, reconnect) {
        if Stage(l, reconnect) == 3 { k := n; }
        if Stage(l, reconnect) == 4 { p := n; }
      }
    }
  }

  /** The log of a read that has made `number` invocations and stands at the given stage. */
  ghost predicate Sound(l: seq<Event>, number: nat, reconnect: bool, bound: Option<int>, stage: nat) {
    Disciplined(l, reconnect, bound) && Invocations(l) == number && Stage(l, reconnect) == stage
  }

  lemma SoundFacts(l: seq<Event>, number: nat, reconnect: bool, bound: Option<int>, stage: nat)
    ensures Sound(l, number, reconnect, bound, stage) <==>
            Disciplined(l, reconnect, bound) && Invocations(l) == number && Stage(l, reconnect) == stage
  {}

  /** A deadline check leaves the way to a retry where it is. */
  lemma SoundCheck(l: seq<Event>, e: Event, number: nat, reconnect: bool, bound: Option<int>, stage: nat)
    requires Sound(l, number, reconnect, bound, stage) && (e.Checked? || e.Expired?)
    ensures Sound(l + [e], number, reconnect, bound, stage)
  {
    hide Invocations, Stage, Disciplined;
    LogStep(l, e, reconnect, bound);
  }

  lemma SoundPause(l: seq<Event>, left: int, number: nat, reconnect: bool, bound: Option<int>)
    requires Sound(l, number, reconnect, bound, 3)
    ensures Sound(l + [Slept(PauseOf(number, left), left)], number, reconnect, bound, 4)
  {
    hide Invocations, Stage, Disciplined, PauseOf;
    LogStep(l, Slept(PauseOf(number, left), left), reconnect, bound);
  }

  /** A reconnection or an identity proof on the way to a retry. */
  lemma SoundAssist(l: seq<Event>, kind: Kind, at: int, inner: seq<Event>, r: Outcome, number: nat, reconnect: bool,
                    bound: Option<int>, stage: nat)
    requires Sound(l, number, reconnect, bound, stage) && Inner(inner)
    requires (kind == Reconnecting && reconnect && stage == 1)
             || (kind == Identifying && stage == if reconnect then 2 else 1)
    ensures Sound(l + ([Started(kind, at)] + inner + [Answered(kind, r)]), number, reconnect, bound,
                  if !r.Value? then stage else if kind == Reconnecting then 2 else 3)
  {
    hide Invocations, Stage, Disciplined, Inner;
    LogCallback(l, kind, at, inner, r, reconnect, bound);
  }

  /** A failed attempt, as the retry loop records it. */
  lemma SoundFailure(l: seq<Event>, error: Error, number: nat, reconnect: bool, bound: Option<int>)
    requires Disciplined(l, reconnect, bound) && Invocations(l) == number
    requires l != [] && RaisedBy(l[|l| - 1], error)
    ensures Disciplined(l + [Failed(error)], reconnect, bound) && Invocations(l + [Failed(error)]) == number
    ensures Transient(error) ==> Sound(l + [Failed(error)], number, reconnect, bound, 1)
  {
    hide Invocations, Stage, Disciplined;
    LogStep(l, Failed(error), reconnect, bound);
  }

  function MinOf(a: int, b: Option<int>): int {
    if b.Some? && b.value < a then b.value else a
  }

  lemma MinBound(a: int, b: Option<int>)
    ensures MinOf(a, b) <= a && MinOf(MinOf(a, b), b) == MinOf(a, b)
  {}

  function Later(a: int, b: int): int {
    if a < b then b else a
  }

  class Transport {
    var clock: int
    /** The deadline of the read in progress (the context variable), None outside a read. */
    var active: Option<int>
    var phaseEnd: Option<int>
    var horizonEnd: Option<int>
    /** Whether every callback, sleep included, keeps within the limit it is given. */
    const honest: bool
    ghost var log: seq<Event>

    constructor (start: int, honest: bool)
      ensures clock == start && active == None && phaseEnd == None && horizonEnd == None && log == []
      ensures this.honest == honest
    {
      clock, active, phaseEnd, horizonEnd, log := start, None, None, None, [];
      this.honest := honest;
    }

    /** remaining(): at most 20 s, and it raises once the deadline has passed. */
    method Remaining() returns (left: Option<int>)
      requires active.Some?
      modifies this`log
      ensures left == if active.value <= clock then None
                      else if active.value - clock < 20000 then Some(active.value - clock) else Some(20000)
      ensures log == old(log) + [if active.value <= clock then Expired(clock) else Checked(clock)]
    {
      var rest := active.value - clock;
      if rest <= 0 {
        log := log + [Expired(clock)];
        return None;
      }
      log := log + [Checked(clock)];
      left := Some(if rest < COMMAND_CAP then rest else COMMAND_CAP);
    }

    /** Any callback: it asks for its limit, may run nested reads to any depth, takes time, and
        returns or raises. An honest one is over within the deadline. */
    method Callback(kind: Kind, depth: nat) returns (r: Outcome, ghost inner: seq<Event>)
      requires active.Some?
      modifies this`clock, this`log
      ensures clock >= old(clock) && (honest ==> clock <= Later(old(clock), active.value))
      ensures log == old(log) + ([Started(kind, old(clock))] + inner + [Answered(kind, r)]) && Inner(inner)
      ensures !r.Rejected?
      decreases depth, 1
    {
      ghost var before := log;
      log := log + [Started(kind, clock)];
      var left := Remaining();
      inner := [if active.value <= clock then Expired(clock) else Checked(clock)];
      var failed: bool, v: int, error: Error := *, *, *;
      r := if failed then Raised(error) else Value(v);
      if left.None? {
        r := Raised(EXHAUSTED);
      } else {
        var nested: nat :| true;
        while nested > 0 && depth > 0
          invariant clock >= old(clock) && (honest ==> clock <= Later(old(clock), active.value))
          invariant log == before + ([Started(kind, old(clock))] + inner) && Inner(inner)
          decreases nested
        {
          ghost var more, answer;
          var compound: bool := *;
          answer, more := NestedRead(compound, depth - 1);
          inner := inner + more;
          nested := nested - 1;
        }
        var room: nat := Later(0, active.value - clock);
        var spent: nat :| honest ==> spent <= room;
        clock := clock + spent;
      }
      log := log + [Answered(kind, r)];
      assert log == before + ([Started(kind, old(clock))] + inner + [Answered(kind, r)]);
    }

    /** read_with_budget inside another read: one invocation under the enclosing deadline, whose answer is
        returned after one more check. */
    method NestedRead(compound: bool, depth: nat) returns (r: Outcome, ghost inner: seq<Event>)
      requires active.Some?
      modifies this`clock, this`log
      ensures clock >= old(clock) && (honest ==> clock <= Later(old(clock), active.value))
      ensures log == old(log) + inner && Inner(inner)
      ensures compound ==> r == Rejected && inner == [] && clock == old(clock)
      ensures !compound ==> |inner| >= 2 && inner[0] == Started(Nested, old(clock)) && !r.Rejected?
      ensures r.Value? ==>
                && inner[|inner| - 2] == Answered(Nested, r) && inner[|inner| - 1] == Checked(clock)
                && clock < active.value
      ensures r.Raised? ==>
                inner[|inner| - 1] == Answered(Nested, r) || (inner[|inner| - 1].Expired? && r == Raised(EXHAUSTED))
      decreases depth, 2
    {
      if compound { return Rejected, []; }
      ghost var more;
      r, more := Callback(Nested, depth);
      inner := [Started(Nested, old(clock))] + more + [Answered(Nested, r)];
      if r.Value? {
        var left := Remaining();
        inner := inner + [if active.value <= clock then Expired(clock) else Checked(clock)];
        if left.None? { r := Raised(EXHAUSTED); }
      }
    }

    method Sleep(duration: nat, ghost left: int)
      modifies this`clock, this`log
      ensures clock >= old(clock) + duration && (honest ==> clock == old(clock) + duration)
      ensures log == old(log) + [Slept(duration, left)]
    {
      var over: nat :| honest ==> over == 0;
      clock := clock + duration + over;
      log := log + [Slept(duration, left)];
    }

    /** A deadline check, kept in the log. */
    method Check(ghost l: seq<Event>) returns (ok: bool, ghost m: seq<Event>)
      requires active.Some?
      modifies this`log
      ensures ok <==> clock < active.value
      ensures m == l + [if ok then Checked(clock) else Expired(clock)]
      ensures log == old(log) + [if ok then Checked(clock) else Expired(clock)]
    {
      var left := Remaining();
      ok := left.Some?;
      m := l + [if ok then Checked(clock) else Expired(clock)];
    }

    /** One attempt: invoke, check, on a retry prove the identity again, check. Its value is the command's. */
    method Attempt(number: nat, depth: nat, ghost before: seq<Event>, ghost reconnect: bool, ghost bound: Option<int>)
      returns (r: Outcome, ghost l: seq<Event>)
      requires active.Some? && before <= log && number > 0
      requires var l := log[|before|..];
               && Disciplined(l, reconnect, bound) && Invocations(l) == number - 1
               && (number > 1 ==> Stage(l, reconnect) == 4 && (bound.Some? ==> clock < bound.value))
      modifies this`clock, this`log
      ensures clock >= old(clock) && (honest ==> clock <= Later(old(clock), active.value))
      ensures log == before + l && Disciplined(l, reconnect, bound) && Invocations(l) == number && l != []
      ensures r.Value? ==>
                && LastAnswer(l) == Some(r) && l[|l| - 1] == Checked(clock) && clock < active.value
                && (number > 1 ==> ProvedSince(l))
      ensures r.Raised? ==> RaisedBy(l[|l| - 1], r.error)
      ensures l[|l| - 1].Expired? ==> active.value <= clock
      ensures !r.Rejected?
    {
      hide Inner, Disciplined, ProvedSince, Invocations, Stage, LastAnswer;
      l := log[|before|..];
      ghost var inner;
      ghost var at := clock;
      r, inner := Callback(Registered, depth);
      LogCallback(l, Registered, at, inner, r, reconnect, bound);
      Join(before, l, [Started(Registered, at)] + inner + [Answered(Registered, r)]);
      l := l + ([Started(Registered, at)] + inner + [Answered(Registered, r)]);
      if !r.Value? { return; }
      ghost var value, m := r, l;
      var ok;
      ok, l := Check(m);
      LogStep(m, l[|m|], reconnect, bound);
      Join(before, m, [l[|m|]]);
      if !ok { return Raised(EXHAUSTED), l; }
      if number > 1 {
        var proof;
        at, m := clock, l;
        proof, inner := Callback(Identifying, depth);
        LogCallback(m, Identifying, at, inner, proof, reconnect, bound);
        Join(before, m, [Started(Identifying, at)] + inner + [Answered(Identifying, proof)]);
        l := m + ([Started(Identifying, at)] + inner + [Answered(Identifying, proof)]);
        if !proof.Value? { return proof, l; }
      }
      m := l;
      ok, l := Check(m);
      LogStep(m, l[|m|], reconnect, bound);
      Join(before, m, [l[|m|]]);
      if !ok { r := Raised(EXHAUSTED); }
    }

    /** A reconnection or an identity proof on the way to a retry. */
    method Assist(kind: Kind, depth: nat, ghost before: seq<Event>, ghost l: seq<Event>, number: nat,
                  ghost reconnect: bool, ghost bound: Option<int>, ghost stage: nat)
      returns (failure: Option<Error>, ghost m: seq<Event>)
      requires active.Some? && log == before + l && Sound(l, number, reconnect, bound, stage)
      requires (kind == Reconnecting && reconnect && stage == 1)
               || (kind == Identifying && stage == if reconnect then 2 else 1)
      modifies this`clock, this`log
      ensures clock >= old(clock) && (honest ==> clock <= Later(old(clock), active.value))
      ensures log == before + m && m != []
      ensures failure.None? ==> Sound(m, number, reconnect, bound, if kind == Reconnecting then 2 else 3)
      ensures failure.Some? ==>
                && Sound(m, number, reconnect, bound, stage)
                && m[|m| - 1] == Answered(kind, Raised(failure.value)) && RaisedBy(m[|m| - 1], failure.value)
    {
      hide Inner, Sound;
      ghost var at, inner := clock, [];
      var r;
      r, inner := Callback(kind, depth);
      SoundAssist(l, kind, at, inner, r, number, reconnect, bound, stage);
      Join(before, l, [Started(kind, at)] + inner + [Answered(kind, r)]);
      m := l + ([Started(kind, at)] + inner + [Answered(kind, r)]);
      failure := if r.Raised? then Some(r.error) else None;
    }

    /** Before a retry: shrink the deadline to the horizon, reconnect, prove the identity. */
    method Reprove(number: nat, reconnect: bool, depth: nat, ghost before: seq<Event>, ghost bound: Option<int>)
      returns (failure: Option<Error>, ghost l: seq<Event>)
      requires active.Some? && before <= log && Sound(log[|before|..], number, reconnect, bound, 1)
      requires bound == Some(MinOf(active.value, horizonEnd))
      modifies this`clock, this`log, this`active
      ensures active == bound
      ensures clock >= old(clock) && (honest ==> clock <= Later(old(clock), old(active).value))
      ensures log == before + l && l != []
      ensures failure.None? ==> Sound(l, number, reconnect, bound, 3) && clock < active.value
      ensures failure.Some? ==>
                && RaisedBy(l[|l| - 1], failure.value)
                && (l[|l| - 1].Expired? ==> active.value <= clock)
                && exists stage :: Sound(l, number, reconnect, bound, stage)
    {
      hide Sound, MinOf;
      MinBound(active.value, horizonEnd);
      active := Some(MinOf(active.value, horizonEnd));
      ghost var m := log[|before|..];
      var ok;
      ok, l := Check(m);
      SoundCheck(m, l[|m|], number, reconnect, bound, 1);
      Join(before, m, [l[|m|]]);
      if !ok { return Some(EXHAUSTED), l; }
      if reconnect {
        failure, l := Assist(Reconnecting, depth, before, l, number, reconnect, bound, 1);
        if failure.Some? { return; }
      }
      failure, l := Assist(Identifying, depth, before, l, number, reconnect, bound, if reconnect then 2 else 1);
      if failure.Some? { return; }
      m := l;
      ok, l := Check(m);
      SoundCheck(m, l[|m|], number, reconnect, bound, 3);
      Join(before, m, [l[|m|]]);
      if !ok { failure := Some(EXHAUSTED); }
    }

    /** Back off within the deadline, and check it once more. */
    method Pause(number: nat, ghost reconnect: bool, ghost before: seq<Event>, ghost bound: Option<int>)
      returns (ok: bool, ghost l: seq<Event>)
      requires active.Some? && before <= log && Sound(log[|before|..], number, reconnect, bound, 3)
      modifies this`clock, this`log
      ensures clock >= old(clock) && (honest ==> clock <= Later(old(clock), active.value))
      ensures log == before + l && Sound(l, number, reconnect, bound, 4) && l != []
      ensures ok ==> clock < active.value
      ensures !ok ==> l[|l| - 1].Expired? && active.value <= clock
    {
      hide Sound;
      ghost var m := log[|before|..];
      var left := active.value - clock;
      var duration := Later(0, MinOf(Backoff(number), Some(left)));
      Sleep(duration, left);
      SoundPause(m, left, number, reconnect, bound);
      m := m + [Slept(duration, left)];
      ok, l := Check(m);
      SoundCheck(m, l[|m|], number, reconnect, bound, 4);
    }

    /** After a transient failure: prove the identity again, then back off. */
    method PrepareRetry(number: nat, reconnect: bool, depth: nat, ghost before: seq<Event>, ghost bound: Option<int>)
      returns (failure: Option<Error>, ghost l: seq<Event>)
      requires active.Some? && before <= log && Sound(log[|before|..], number, reconnect, bound, 1)
      requires bound == Some(MinOf(active.value, horizonEnd))
      modifies this`clock, this`log, this`active
      ensures active == bound
      ensures clock >= old(clock) && (honest ==> clock <= Later(old(clock), old(active).value))
      ensures log == before + l && l != []
      ensures failure.None? ==> Sound(l, number, reconnect, bound, 4) && clock < active.value
      ensures failure.Some? ==>
                && RaisedBy(l[|l| - 1], failure.value)
                && (l[|l| - 1].Expired? ==> active.value <= clock)
                && exists stage :: Sound(l, number, reconnect, bound, stage)
    {
      hide Sound, MinOf;
      MinBound(active.value, horizonEnd);
      failure, l := Reprove(number, reconnect, depth, before, bound);
      if failure.Some? { return; }
      Suffix(before, l);
      var ok;
      ok, l := Pause(number, reconnect, before, bound);
      failure := if ok then None else Some(EXHAUSTED);
    }

    /** The deadline an outermost read starts under. */
    function ReadEnd(timeout: int): int
      reads this
    {
      MinOf(clock + MinOf(timeout, Some(OPERATION_CAP)), phaseEnd)
    }

    /** read_with_budget at the outermost level. */
    method ReadWithBudget(timeout: int, attempts: nat, reconnect: bool, depth: nat)
      returns (r: Outcome, ghost l: seq<Event>)
      requires active == None
      modifies this`clock, this`log, this`active
      ensures active == None && clock >= old(clock) && log == old(log) + l
      ensures r.Rejected? <==> timeout <= 0 || attempts < 1 || attempts > 3
      ensures r.Rejected? ==> l == [] && clock == old(clock)
      ensures Invocations(l) <= attempts && Invocations(l) <= 3 && (!r.Rejected? ==> Invocations(l) >= 1)
      // what it returns or raises is what its log ends with
      ensures Answers(r, l)
      // every retry is earned, and starts before every end
      ensures Disciplined(l, reconnect, Some(MinOf(old(ReadEnd(timeout)), horizonEnd)))
      ensures r.Value? ==> l[|l| - 1] == Checked(clock) && (Invocations(l) > 1 ==> ProvedSince(l))
      // a value comes in time, and honest callbacks keep the whole read in time
      ensures r.Value? || (honest && timeout > 0) ==>
                && clock <= old(clock) + Later(timeout, 0) && clock <= old(clock) + 90000
                && (phaseEnd.Some? ==> clock <= Later(old(clock), phaseEnd.value))
      // it gives up only on the last attempt, on a permanent error, or past the earliest end
      ensures r.Raised? && l[|l| - 1].Failed? ==> Invocations(l) == attempts || !Transient(r.error)
      ensures r.Raised? && l[|l| - 1].Expired? ==>
                || old(clock) + timeout <= clock || old(clock) + 90000 <= clock
                || (phaseEnd.Some? && phaseEnd.value <= clock) || (horizonEnd.Some? && horizonEnd.value <= clock)
    {
      l := [];
      LogNothing(reconnect, Some(MinOf(ReadEnd(timeout), horizonEnd)));
      if timeout <= 0 || attempts !in {1, 2, 3} { return Rejected, l; }
      hide Disciplined, ProvedSince, Invocations, Stage, LastAnswer, Answers, RaisedBy, Transient;
      ghost var end := ReadEnd(timeout);
      ghost var bound := Some(MinOf(end, horizonEnd));
      ghost var before := log;
      active := Some(ReadEnd(timeout));
      var number: nat := 1;
      assert log == before + l;
      while true
        invariant 1 <= number <= attempts && active.Some? && active.value <= end
        invariant bound == Some(MinOf(active.value, horizonEnd))
        invariant clock >= old(clock) && (honest ==> clock <= Later(old(clock), end))
        invariant log == before + l && Disciplined(l, reconnect, bound) && Invocations(l) == number - 1
        invariant number > 1 ==> Stage(l, reconnect) == 4 && clock < bound.value
        decreases attempts - number
      {
        Suffix(before, l);
        var done;
        done, r, l := TryOnce(number, attempts, reconnect, depth, before, bound);
        if done { break; }
        number := number + 1;
      }
      active := None;
    }

    /** One round of the retry loop: an attempt, and when it fails and may be repeated, the way to the next. */
    method TryOnce(number: nat, attempts: nat, reconnect: bool, depth: nat, ghost before: seq<Event>,
                   ghost bound: Option<int>)
      returns (done: bool, r: Outcome, ghost l: seq<Event>)
      requires active.Some? && 1 <= number <= attempts && before <= log
      requires bound == Some(MinOf(active.value, horizonEnd))
      requires var l := log[|before|..];
               && Disciplined(l, reconnect, bound) && Invocations(l) == number - 1
               && (number > 1 ==> Stage(l, reconnect) == 4 && clock < bound.value)
      modifies this`clock, this`log, this`active
      ensures active.Some? && active.value <= old(active).value && bound == Some(MinOf(active.value, horizonEnd))
      ensures clock >= old(clock) && (honest ==> clock <= Later(old(clock), old(active).value))
      ensures log == before + l && Disciplined(l, reconnect, bound) && Invocations(l) == number && l != []
      ensures !done ==> number < attempts && Stage(l, reconnect) == 4 && clock < bound.value
      ensures done ==> !r.Rejected? && Answers(r, l)
      ensures done && r.Value? ==>
                l[|l| - 1] == Checked(clock) && clock < active.value && (number > 1 ==> ProvedSince(l))
      ensures done && r.Raised? && l[|l| - 1].Failed? ==> number == attempts || !Transient(r.error)
      ensures done && r.Raised? && l[|l| - 1].Expired? ==> bound.value <= clock
    {
      hide Disciplined, ProvedSince, Invocations, Stage, LastAnswer, RaisedBy, Transient, Sound;
      done := true;
      r, l := Attempt(number, depth, before, reconnect, bound);
      if r.Value? { return; }
      ghost var m := l;
      SoundFailure(m, r.error, number, reconnect, bound);
      Join(before, m, [Failed(r.error)]);
      log := log + [Failed(r.error)];
      l := m + [Failed(r.error)];
      if number == attempts || !Transient(r.error) { return; }
      Suffix(before, l);
      MinBound(active.value, horizonEnd);
      var failure;
      failure, l := PrepareRetry(number, reconnect, depth, before, bound);
      if failure.Some? {
        ghost var stage :| Sound(l, number, reconnect, bound, stage);
        SoundFacts(l, number, reconnect, bound, stage);
        NotFailed(l[|l| - 1], failure.value);
        r := Raised(failure.value);
      } else {
        SoundFacts(l, number, reconnect, bound, 4);
        done := false;
      }
    }

    /** One command with its own timeout and no shared deadline. */
    method Command(timeout: int) returns (r: Outcome)
      modifies this`clock, this`log
      ensures clock >= old(clock) && (honest ==> clock <= Later(old(clock), old(clock) + timeout))
      ensures log == old(log) + [Started(Registered, old(clock)), Answered(Registered, r)] && !r.Rejected?
    {
      log := log + [Started(Registered, clock)];
      var room: nat := Later(0, timeout);
      var spent: nat :| honest ==> spent <= room;
      clock := clock + spent;
      var failed: bool, v: int, error: Error := *, *, *;
      r := if failed then Raised(error) else Value(v);
      log := log + [Answered(Registered, r)];
    }

    /** retry_read: a mutation runs once; a read inside another read runs once under its deadline;
        otherwise one total deadline covers every convergence round, a further round follows only a
        wait that merely timed out, and the loop ends. What it returns or raises is what the command, or
        the last round, did. */
    method RetryRead(isRead: bool, convergence: bool, timeout: int, reconnect: bool, depth: nat)
      returns (r: Outcome, ghost rounds: seq<Round>)
      modifies this`clock, this`log, this`active
      ensures active == old(active) && clock >= old(clock)
      ensures !isRead ==> log == old(log) + [Started(Registered, old(clock)), Answered(Registered, r)]
      ensures isRead && active.Some? && active.value <= old(clock) ==>
                r == Raised(EXHAUSTED) && log == old(log) + [Expired(old(clock))]
      ensures isRead && active.Some? && active.value > old(clock) ==>
                exists more :: Inner(more) &&
                  log == old(log) + ([Checked(old(clock)), Started(Nested, old(clock))] + more + [Answered(Nested, r)])
      ensures isRead && active.Some? && honest ==> clock <= Later(old(clock), active.value)
      ensures isRead && active.None? ==>
                && log == old(log) + Joined(rounds)
                && Rounds(rounds, convergence, reconnect, Ends(old(clock) + timeout, phaseEnd, horizonEnd))
                && rounds != [] && rounds[0].at == old(clock) && r == rounds[|rounds| - 1].result
                && (r.Raised? && convergence && r.error.pending ==> clock >= old(clock) + timeout)
      ensures honest && (!isRead || active.None?) ==> clock <= Later(old(clock), old(clock) + timeout) + 1
    {
      hide Disciplined, ProvedSince, Invocations, Stage, LastAnswer, Answers, Inner, Transient, Rounds, Joined, Pending;
      rounds := [];
      if !isRead {
        r := Command(timeout);
      } else if active.Some? {
        r := NestedCommand(depth);
      } else {
        r, rounds := Converge(convergence, timeout, reconnect, depth);
      }
    }

    /** A command inside another read, under the deadline of that read. */
    method NestedCommand(depth: nat) returns (r: Outcome)
      requires active.Some?
      modifies this`clock, this`log
      ensures clock >= old(clock) && (honest ==> clock <= Later(old(clock), active.value))
      ensures active.value <= old(clock) ==> r == Raised(EXHAUSTED) && log == old(log) + [Expired(old(clock))]
      ensures active.value > old(clock) ==>
                exists more :: Inner(more) &&
                  log == old(log) + ([Checked(old(clock)), Started(Nested, old(clock))] + more + [Answered(Nested, r)])
    {
      hide Inner;
      ghost var before := log;
      var left := Remaining();
      if left.None? { return Raised(EXHAUSTED); }
      ghost var more;
      r, more := Callback(Nested, depth);
      assert log == before + ([Checked(old(clock)), Started(Nested, old(clock))] + more + [Answered(Nested, r)]);
    }

    /** The convergence loop. */
    method Converge(convergence: bool, timeout: int, reconnect: bool, depth: nat)
      returns (r: Outcome, ghost rounds: seq<Round>)
      requires active == None
      modifies this`clock, this`log, this`active
      ensures active == None && clock >= old(clock)
      ensures log == old(log) + Joined(rounds)
      ensures Rounds(rounds, convergence, reconnect, Ends(old(clock) + timeout, phaseEnd, horizonEnd))
      ensures rounds != [] && rounds[0].at == old(clock) && r == rounds[|rounds| - 1].result
      ensures r.Raised? && convergence && r.error.pending ==> clock >= old(clock) + timeout
      ensures honest ==> clock <= Later(old(clock), old(clock) + timeout) + 1
    {
      hide Disciplined, ProvedSince, Invocations, Stage, LastAnswer, Answers, Inner, Transient, Rounds, Joined;
      rounds := [];
      var end := clock + timeout;
      ghost var ends := Ends(end, phaseEnd, horizonEnd);
      RoundsNone(convergence, reconnect, ends);
      while true
        invariant active == None
        invariant clock >= old(clock) && (honest ==> clock <= Later(old(clock), end))
        invariant log == old(log) + Joined(rounds) && Rounds(rounds, convergence, reconnect, ends)
        invariant rounds != [] ==>
                    var last := rounds[|rounds| - 1]; convergence && Pending(last.result) && last.at <= clock
        invariant if rounds == [] then clock == old(clock) else rounds[0].at == old(clock)
        decreases end - clock
      {
        ghost var l, was := [], rounds;
        ghost var at := clock;
        r, l := ReadWithBudget(Later(1, end - clock), 3, reconnect, depth);
        var again := r.Raised? && convergence && r.error.pending && clock < end;
        ghost var pause := if again then [Slept(MinOf(100, Some(end - clock)), end - clock)] else [];
        rounds := was + [Round(at, r, l, pause)];
        RoundsMore(was, Round(at, r, l, pause), convergence, reconnect, ends);
        JoinAssociates(old(log), Joined(was), l, pause);
        if !again { return; }
        Sleep(MinOf(100, Some(end - clock)), end - clock);
      }
    }
  }

  // ---- convergence rounds ----

  /** One read of the convergence loop: when it starts, what it yields and logs, and the pause after it. */
  datatype Round = Round(at: int, result: Outcome, log: seq<Event>, pause: seq<Event>)

  /** The ends that bound every round: the loop's own, the phase's and the horizon's. */
  datatype Ends = Ends(total: int, phase: Option<int>, horizon: Option<int>)

  /** The bound of the retries of a round that starts at `at`. */
  function RoundBound(at: int, ends: Ends): int {
    MinOf(MinOf(at + MinOf(Later(1, ends.total - at), Some(OPERATION_CAP)), ends.phase), ends.horizon)
  }

  /** No round outlasts the total deadline by more than the floor, or any other end at all; and it is cut
      short by nothing else. */
  lemma RoundBounded(at: int, ends: Ends)
    ensures RoundBound(at, ends) <= Later(at + 1, ends.total) && RoundBound(at, ends) <= at + 90000
    ensures ends.phase.Some? ==> RoundBound(at, ends) <= ends.phase.value
    ensures ends.horizon.Some? ==> RoundBound(at, ends) <= ends.horizon.value
    ensures || RoundBound(at, ends) == Later(at + 1, ends.total) || RoundBound(at, ends) == at + 90000
            || ends.phase == Some(RoundBound(at, ends)) || ends.horizon == Some(RoundBound(at, ends))
  {}

  function Joined(rounds: seq<Round>): seq<Event> {
    if rounds == [] then []
    else Joined(rounds[..|rounds| - 1]) + rounds[|rounds| - 1].log + rounds[|rounds| - 1].pause
  }

  predicate Pending(r: Outcome) {
    r.Raised? && r.error.pending
  }

  /** Every round is a disciplined read whose result is what its log ends with, and every round but the last
      is a wait that timed out, followed by a pause of at most 100 ms. */
  ghost predicate Rounds(rounds: seq<Round>, convergence: bool, reconnect: bool, ends: Ends) {
    && (forall k :: 0 <= k < |rounds| ==>
          && Invocations(rounds[k].log) <= 3 && Answers(rounds[k].result, rounds[k].log)
          && Disciplined(rounds[k].log, reconnect, Some(RoundBound(rounds[k].at, ends))))
    && (forall k :: 0 < k < |rounds| ==> rounds[k - 1].at <= rounds[k].at)
    && (forall k :: 0 <= k < |rounds| - 1 ==> convergence && Pending(rounds[k].result))
  }

  lemma RoundsNone(convergence: bool, reconnect: bool, ends: Ends)
    ensures Rounds([], convergence, reconnect, ends) && Joined([]) == []
  {}

  lemma RoundsMore(rounds: seq<Round>, more: Round, convergence: bool, reconnect: bool, ends: Ends)
    requires Rounds(rounds, convergence, reconnect, ends)
    requires rounds != [] ==>
               var last := rounds[|rounds| - 1]; convergence && Pending(last.result) && last.at <= more.at
    requires Invocations(more.log) <= 3 && Answers(more.result, more.log)
    requires Disciplined(more.log, reconnect, Some(RoundBound(more.at, ends)))
    ensures Rounds(rounds + [more], convergence, reconnect, ends)
    ensures Joined(rounds + [more]) == Joined(rounds) + more.log + more.pause
  {
    hide Invocations, Disciplined, Answers, RoundBound, Pending, Joined;
    JoinedMore(rounds, more);
  }

  lemma JoinedMore(rounds: seq<Round>, more: Round)
    ensures Joined(rounds + [more]) == Joined(rounds) + more.log + more.pause
  {
    assert (rounds + [more])[..|rounds|] == rounds;
  }

  lemma JoinAssociates(before: seq<Event>, joined: seq<Event>, l: seq<Event>, pause: seq<Event>)
    ensures before + joined + l + pause == before + (joined + l + pause)
    ensures pause == [] ==> before + joined + l == before + (joined + l + pause)
  {}

  lemma Join(a: seq<Event>, b: seq<Event>, c: seq<Event>)
    ensures a + b + c == a + (b + c)
  {}

  lemma Suffix(before: seq<Event>, l: seq<Event>)
    ensures (before + l)[|before|..] == l
  {}

  lemma NotFailed(e: Event, error: Error)
    requires RaisedBy(e, error)
    ensures !e.Failed?
  {}

  lemma LogNothing(reconnect: bool, bound: Option<int>)
    ensures Invocations([]) == 0 && Disciplined([], reconnect, bound) && Stage([], reconnect) == 0
    ensures Answers(Rejected, [])
  {}

  // ---- nested phase deadlines ----

  /** The earliest of the active phases' ends. */
  function EarliestEnd(ends: seq<int>): Option<int> {
    if ends == [] then None else Some(MinOf(ends[|ends| - 1], EarliestEnd(ends[..|ends| - 1])))
  }

  class PhaseDeadline {
    var phaseEnd: Option<int>
    /** What each open `with phase_deadline` saved. */
    var priors: seq<Option<int>>
    ghost var ends: seq<int>

    ghost predicate Valid()
      reads this
    {
      && |priors| == |ends| && phaseEnd == EarliestEnd(ends)
      && forall k :: 0 <= k < |priors| ==> priors[k] == EarliestEnd(ends[..k])
    }

    constructor ()
      ensures Valid() && ends == [] && phaseEnd == None
    {
      phaseEnd, priors, ends := None, [], [];
    }

    method Open(end: int)
      requires Valid()
      modifies this
      ensures Valid() && ends == old(ends) + [end]
      ensures phaseEnd == Some(MinOf(end, old(phaseEnd)))
    {
      priors := priors + [phaseEnd];
      phaseEnd := Some(MinOf(end, phaseEnd));
      ghost var was := ends;
      ends := ends + [end];
      assert ends[..|was|] == was;
      assert forall k :: 0 <= k < |was| ==> ends[..k] == was[..k];
    }

    method Close()
      requires Valid() && ends != []
      modifies this
      ensures Valid() && ends == old(ends)[..|old(ends)| - 1]
    {
      ghost var was := ends;
      phaseEnd := priors[|priors| - 1];
      priors := priors[..|priors| - 1];
      ends := ends[..|ends| - 1];
      assert forall k :: 0 <= k < |ends| ==> ends[..k] == was[..k];
    }
  }

  /** The effective phase deadline is no later than any enclosing phase's end, and is one of them. */
  lemma {:induction false} EarliestEndBounds(ends: seq<int>)
    ensures EarliestEnd(ends).Some? <==> ends != []
    ensures forall k :: 0 <= k < |ends| ==> EarliestEnd(ends).value <= ends[k]
    ensures ends != [] ==> EarliestEnd(ends).value in ends
  {
    if ends != [] {
      var rest := ends[..|ends| - 1];
      EarliestEndBounds(rest);
      assert ends == rest + [ends[|ends| - 1]];
    }
  }
}
