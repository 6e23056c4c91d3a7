/** Whole-phase deadlines on the single process timer (`phase` in fresh_operations.py).
    Times are seconds on the monotonic clock; the timer is held as its absolute expiry. */
module PhaseAlarm {
  import opened Options

  const FLOOR := 0.000001

  function Max(a: real, b: real): real {
    if a < b then b else a
  }

  function Min(a: real, b: real): real {
    if a < b then a else b
  }

  /** What an active phase remembers: when it started, its limit, and the timer it found. */
  datatype Frame = Frame(started: real, limit: real, previous: Option<real>)

  function Deadline(f: Frame): real {
    f.started + f.limit
  }

  /** The earliest deadline of the active phases. */
  function Earliest(frames: seq<Frame>): real
    requires frames != []
  {
    if |frames| == 1 then Deadline(frames[0])
    else Min(Earliest(frames[..|frames| - 1]), Deadline(frames[|frames| - 1]))
  }

  /** The limit that `seconds` and an optional wall-clock bound leave. */
  function Limit(seconds: real, until: Option<real>, wall: real): real {
    if until.Some? then Min(seconds, Max(0.0, until.value - wall)) else seconds
  }

  /** The timer after entering: min(limit, remaining) when one was running, else limit. */
  function Entered(alarm: Option<real>, now: real, limit: real): real {
    if alarm.Some? then now + Min(limit, alarm.value - now) else now + limit
  }

  /** The timer after leaving: the remembered remainder less the time spent inside,
      but never below the floor; off if none was running. */
  function Left(f: Frame, now: real): Option<real> {
    if f.previous.None? then None
    else
      var remaining := f.previous.value - f.started;
      Some(now + Max(FLOOR, remaining - (now - f.started)))
  }

  /** The alarm stands at the earliest deadline, or at most the floor away when that has passed. */
  ghost predicate Guards(alarm: real, frames: seq<Frame>, now: real)
    requires frames != []
  {
    Earliest(frames) <= alarm <= Max(Earliest(frames), now + FLOOR)
  }

  /** Each phase but the outermost found a timer that guarded the phases around it. */
  ghost predicate Nested(frames: seq<Frame>, now: real) {
    forall k :: 0 <= k < |frames| ==>
      && frames[k].started <= now
      && (k == 0 ==> frames[k].previous.None?)
      && (k > 0 ==> frames[k].previous.Some? && Guards(frames[k].previous.value, frames[..k], frames[k].started))
  }

  class Process {
    var now: real
    var alarm: Option<real>
    var frames: seq<Frame>
    /** The alarm has fired and its TimeoutError is propagating. */
    var raised: bool

    ghost predicate Valid()
      reads this
    {
      && Nested(frames, now)
      && (frames == [] ==> alarm.None? && !raised)
      && (frames != [] && !raised ==> alarm.Some? && Guards(alarm.value, frames, now))
      && (raised ==> alarm.None? && Earliest(frames) <= now)
    }

    constructor (start: real)
      ensures Valid() && frames == [] && now == start
    {
      now, alarm, frames, raised := start, None, [], false;
    }

    /** Time passes; an expired timer fires once and is then off. */
    method Elapse(seconds: real)
      requires Nested(frames, now) && (raised ==> alarm == None) && seconds >= 0.0
      modifies this`now, this`alarm, this`raised
      ensures Nested(frames, now) && (old(Valid()) ==> Valid()) && now == old(now) + seconds
      ensures raised <==> old(raised) || (old(alarm).Some? && old(alarm).value <= now)
      ensures alarm == if raised then None else old(alarm)
    {
      now := now + seconds;
      if alarm.Some? && alarm.value <= now { alarm, raised := None, true; }
    }

    /** `with phase(...)`, on the way in. */
    method Enter(seconds: real, until: Option<real>, wall: real) returns (ok: bool)
      requires Valid() && !raised
      modifies this`alarm, this`frames
      ensures ok <==> Limit(seconds, until, wall) > 0.0
      ensures !ok ==> unchanged(this)
      ensures ok ==> Valid() && frames == old(frames) + [Frame(now, Limit(seconds, until, wall), old(alarm))]
      ensures ok ==> alarm == Some(if old(alarm).Some? then Min(now + Limit(seconds, until, wall), old(alarm).value)
                                   else now + Limit(seconds, until, wall))
    {
      hide Limit;
      var limit := LimitOf(seconds, until, wall);
      if limit <= 0.0 { return false; }
      var frame := Frame(now, limit, alarm);
      EnterNested(frames, now, alarm, frame);
      alarm := Some(Entered(alarm, now, limit));
      frames := frames + [frame];
      ok := true;
    }

    /** The `finally` of the innermost phase, on return or while an exception passes; it needs no guard to
        be in place. */
    method Leave()
      requires Nested(frames, now) && frames != []
      modifies this`alarm, this`frames, this`raised
      ensures Valid() && frames == old(frames)[..|old(frames)| - 1]
      ensures raised == false
      ensures frames == [] ==> alarm == None
      ensures frames != [] ==>
                alarm == Some(Max(old(frames)[|old(frames)| - 1].previous.value, now + FLOOR))
    {
      var frame := frames[|frames| - 1];
      ghost var outer := frames[..|frames| - 1];
      LeaveNested(frames, now);
      alarm := Left(frame, now);
      frames := frames[..|frames| - 1];
      raised := false;
    }

    /** Code inside a phase that catches the TimeoutError: nothing guards the phase any more. */
    method Swallow()
      requires Valid() && raised
      modifies this`raised
      ensures !raised && alarm == None && Nested(frames, now) && frames != [] && !Valid()
    {
      raised := false;
    }

    /** From there the phase, and every phase around it, runs on for any time without being stopped; only its
        end puts the guard back. */
    method SwallowAndRunOn(seconds: real)
      requires Valid() && raised && seconds >= 0.0
      modifies this
      ensures now == old(now) + seconds && frames == old(frames) && alarm == None && !raised
      ensures Nested(frames, now) && !Valid()
    {
      Swallow();
      Elapse(seconds);
    }

    /** Any program of nested phases: each step enters a phase, leaves one, or spends time, and a
        raised timeout unwinds at least the phase it interrupts. */
    method Run(steps: seq<Step>)
      requires Valid()
      modifies this
      ensures Valid()
    {
      for i := 0 to |steps|
        invariant Valid()
      {
        if raised {
          Leave();
        } else {
          match steps[i] {
            case Spend(seconds) => if seconds >= 0.0 { Elapse(seconds); }
            case Open(seconds, until, wall) => var _ := Enter(seconds, until, wall);
            case Close => if frames != [] { Leave(); }
          }
        }
      }
    }
  }

  /** A phase of ten seconds that catches its own timeout and is still running after a thousand more. */
  method SwallowExample() returns (p: Process)
    ensures p.frames == [Frame(0.0, 10.0, None)] && p.now == 1010.0 && !p.raised && p.alarm == None
  {
    p := new Process(0.0);
    var ok := p.Enter(10.0, None, 0.0);
    p.Elapse(10.0);
    p.SwallowAndRunOn(1000.0);
  }

  /** min(seconds, max(0, until - wall)), or the seconds alone. */
  method LimitOf(seconds: real, until: Option<real>, wall: real) returns (limit: real)
    ensures limit == Limit(seconds, until, wall)
  {
    limit := seconds;
    if until.Some? {
      var room := until.value - wall;
      if room < 0.0 { room := 0.0; }
      if room < limit { limit := room; }
    }
  }

  datatype Step = Spend(seconds: real) | Open(limit: real, until: Option<real>, wall: real) | Close

  lemma EnterNested(frames: seq<Frame>, now: real, alarm: Option<real>, f: Frame)
    requires Nested(frames, now) && f.started == now && f.limit > 0.0 && f.previous == alarm
    requires frames == [] ==> alarm.None?
    requires frames != [] ==> alarm.Some? && Guards(alarm.value, frames, now)
    ensures Nested(frames + [f], now)
    ensures Guards(Entered(alarm, now, f.limit), frames + [f], now)
  {
    var all := frames + [f];
    assert all[..|frames|] == frames;
    forall k | 0 <= k < |frames|
      ensures all[..k] == frames[..k]
    {}
  }

  lemma LeaveNested(frames: seq<Frame>, now: real)
    requires frames != [] && Nested(frames, now)
    ensures var outer := frames[..|frames| - 1];
            var left := Left(frames[|frames| - 1], now);
            && Nested(outer, now)
            && (outer == [] ==> left.None?)
            && (outer != [] ==> left == Some(Max(frames[|frames| - 1].previous.value, now + FLOOR))
                                && Guards(left.value, outer, now))
  {
    var outer := frames[..|frames| - 1];
    forall k | 0 <= k < |outer|
      ensures outer[..k] == frames[..k]
    {}
  }

  /** The timer never outlasts any phase that is active: an inner phase cannot extend an outer
      one by more than the one-microsecond floor. */
  lemma {:induction false} NoPhaseExtended(alarm: real, frames: seq<Frame>, now: real, k: nat)
    requires k < |frames| && Guards(alarm, frames, now)
    ensures alarm <= Max(frames[k].started + frames[k].limit, now + 0.000001)
    decreases |frames|
  {
    EarliestBound(frames, k);
  }

  lemma {:induction false} EarliestBound(frames: seq<Frame>, k: nat)
    requires k < |frames|
    ensures Earliest(frames) <= Deadline(frames[k])
  {
    if k < |frames| - 1 { EarliestBound(frames[..|frames| - 1], k); }
  }

  /** The earliest deadline is one of the active ones. */
  lemma {:induction false} EarliestActive(frames: seq<Frame>) returns (k: nat)
    requires frames != []
    ensures k < |frames| && Earliest(frames) == Deadline(frames[k])
  {
    if |frames| == 1 || Deadline(frames[|frames| - 1]) <= Earliest(frames[..|frames| - 1]) {
      k := |frames| - 1;
    } else {
      k := EarliestActive(frames[..|frames| - 1]);
    }
  }

  /** Leaving before the outer deadline restores the outer phase's own timer exactly. */
  lemma OuterTimerRestored(f: Frame, now: real)
    requires f.previous.Some? && now + FLOOR <= f.previous.value
    ensures Left(f, now) == f.previous
  {}

  /** The guarantee rests on the timeout not being swallowed inside the phase: a phase entered
      after the outer timer was spent keeps the bound only if its limit is within the floor. */
  lemma SpentTimerExtends(frames: seq<Frame>, now: real, f: Frame)
    requires frames != [] && Earliest(frames) <= now && f.started == now && f.limit > 0.0
    ensures Guards(Entered(None, now, f.limit), frames + [f], now) <==> f.limit <= FLOOR
  {
    assert (frames + [f])[..|frames|] == frames;
  }
}
