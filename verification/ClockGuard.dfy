/** The network-time lease and its restore service (fresh_clock_guard.py): what is on disk, what
    the service remembers and what the machine is set to, with a crash possible at every step. */
module ClockGuard {
  import opened Options

  type Token = nat

  const MAX_PROTECTED := 5400.0
  const WATCHDOG := 5700.0

  datatype Status = Idle | Arming | Protected | Restoring | Restored

  datatype Reason =
    | ServiceRestart | BootRecovery | NormalRelease | OwnerExit | LeaseExpired | WatchdogExpired
    | ClockStep | RequestError | ServiceStop

  datatype Lease = Lease(token: Token, pid: int, process: string, boot: string, original: bool,
                         expires: real, watchdog: real)

  /** The content of state.json; a lease is present once one has been armed. */
  datatype Record = Record(status: Status, lease: Option<Lease>, reason: Option<Reason>)

  datatype Request =
    | Malformed
    | Release(token: Option<Token>)
    | Arm(token: Option<Token>, pid: int, process: Option<string>, boot: string, seconds: Option<real>, created: real)

  /** How an operation ends: normally, with an exception, or with the process dying under it. */
  datatype Ending = Fine | Threw | Died

  predicate Active(s: Status) {
    s == Arming || s == Protected || s == Restoring
  }

  // ---- what every instant keeps ----

  /** What survives a crash: the durable record and the machine's setting. */
  datatype Snapshot = Snapshot(disk: Record, setting: bool)

  /** If the setting differs from the user's own, the durable record says a lease is under way
      and holds that own setting. A protected record means network time is off. */
  ghost predicate Safe(s: Snapshot, own: bool) {
    && (s.disk.lease.Some? <==> s.disk.status != Idle)
    && (s.disk.lease.Some? ==> s.disk.lease.value.original == own)
    && (s.setting != own ==> Active(s.disk.status))
    && (s.disk.status == Protected ==> !s.setting)
  }

  predicate Protects(s: Snapshot, t: Token) {
    s.disk.status == Protected && s.disk.lease.Some? && s.disk.lease.value.token == t
  }

  ghost predicate AllSafe(h: seq<Snapshot>, own: bool) {
    forall i :: 0 <= i < |h| ==> Safe(h[i], own)
  }

  /** Every token seen on disk is that of a lease that was begun. */
  ghost predicate Known(h: seq<Snapshot>, armed: seq<Token>) {
    forall i :: 0 <= i < |h| && h[i].disk.lease.Some? ==> h[i].disk.lease.value.token in armed
  }

  predicate Distinct(ts: seq<Token>) {
    forall i, j :: 0 <= i < j < |ts| ==> ts[i] != ts[j]
  }

  lemma DistinctMore(ts: seq<Token>, t: Token)
    ensures Distinct(ts + [t]) <==> Distinct(ts) && t !in ts
  {
    var more := ts + [t];
    assert forall i :: 0 <= i < |ts| ==> more[i] == ts[i];
    forall i | 0 <= i < |ts| && Distinct(more) ensures ts[i] != t {
      assert more[i] != more[|ts|];
    }
  }

  /** A token's protected period has no holes. */
  ghost predicate Unbroken(h: seq<Snapshot>) {
    forall i, k, j, t {:trigger Protects(h[i], t), h[k], Protects(h[j], t)} ::
      0 <= i <= k <= j < |h| && Protects(h[i], t) && Protects(h[j], t) ==> Protects(h[k], t)
  }

  ghost predicate NeverProtected(h: seq<Snapshot>, t: Token) {
    forall i :: 0 <= i < |h| ==> !Protects(h[i], t)
  }

  lemma AppendSnapshot(h: seq<Snapshot>, s: Snapshot, own: bool, armed: seq<Token>)
    requires AllSafe(h, own) && Known(h, armed) && Safe(s, own)
    requires s.disk.lease.Some? ==> s.disk.lease.value.token in armed
    ensures AllSafe(h + [s], own) && Known(h + [s], armed)
  {}

  lemma AppendUnbroken(h: seq<Snapshot>, s: Snapshot)
    requires h != [] && Unbroken(h)
    requires s.disk.status == Protected && s.disk.lease.Some? ==>
               var t := s.disk.lease.value.token; Protects(h[|h| - 1], t) || NeverProtected(h, t)
    ensures Unbroken(h + [s])
  {
    var g := h + [s];
    forall i, k, j, t | 0 <= i <= k <= j < |g| && Protects(g[i], t) && Protects(g[j], t)
      ensures Protects(g[k], t)
    {
      if j == |h| && k < |h| {
        assert Protects(h[i], t);
        assert Protects(h[|h| - 1], t);
      }
    }
  }

  /** Two observations of `protected` under one token mean network time was off throughout. */
  ghost predicate Continuous(h: seq<Snapshot>) {
    forall i, k, j, t {:trigger Protects(h[i], t), h[k], Protects(h[j], t)} ::
      0 <= i <= k <= j < |h| && Protects(h[i], t) && Protects(h[j], t) ==> !h[k].setting
  }

  lemma ProtectionIsContinuous(h: seq<Snapshot>, own: bool, i: nat, k: nat, j: nat, t: Token)
    requires AllSafe(h, own) && Unbroken(h)
    requires i <= k <= j < |h| && Protects(h[i], t) && Protects(h[j], t)
    ensures !h[k].setting
  {
    assert Protects(h[k], t);
  }

  lemma UnbrokenIsContinuous(h: seq<Snapshot>, own: bool)
    requires AllSafe(h, own) && Unbroken(h)
    ensures Continuous(h)
  {
    hide AllSafe, Unbroken, Protects;
    forall i, k, j, t | 0 <= i <= k <= j < |h| && Protects(h[i], t) && Protects(h[j], t)
      ensures !h[k].setting
    {
      ProtectionIsContinuous(h, own, i, k, j, t);
    }
  }

  // ---- what an undisturbed arm and an undisturbed restore write ----

  function ArmWrites(lease: Lease, setting: bool): seq<Snapshot> {
    var arming := Record(Arming, Some(lease), None);
    [Snapshot(arming, setting)] + (if setting then [Snapshot(arming, false)] else [])
      + [Snapshot(arming.(status := Protected), false)]
  }

  function RestoreWrites(lease: Lease, reason: Reason, setting: bool): seq<Snapshot> {
    var restoring := Record(Restoring, Some(lease), Some(reason));
    [Snapshot(restoring, setting)] + (if setting != lease.original then [Snapshot(restoring, lease.original)] else [])
      + [Snapshot(restoring.(status := Restored), lease.original)]
  }

  lemma Join3(h: seq<Snapshot>, a: seq<Snapshot>, b: seq<Snapshot>, c: seq<Snapshot>)
    ensures h + a + b + c == h + (a + b + c)
    ensures b == [] ==> h + a + c == h + (a + b + c)
  {}

  lemma ArmWritesJoin(h: seq<Snapshot>, lease: Lease, setting: bool)
    ensures var arming := Record(Arming, Some(lease), None);
            h + [Snapshot(arming, setting)] + (if setting then [Snapshot(arming, false)] else [])
              + [Snapshot(arming.(status := Protected), false)] == h + ArmWrites(lease, setting)
  {}

  // ---- the decision of one tick ----

  /** The reason tick finds. The clock is read once for the expiry and again for the watchdog;
      delta is the disagreement of the wall and monotonic clocks since the last tick. */
  function TickReason(l: Lease, boot: string, process: Option<string>, first: real, second: real, delta: Option<real>)
    : Option<Reason>
  {
    if delta.Some? && (delta.value > 0.1 || delta.value < -0.1) then Some(ClockStep)
    else if l.boot != boot then Some(BootRecovery)
    else if process != Some(l.process) then Some(OwnerExit)
    else if first >= l.expires then Some(LeaseExpired)
    else if second >= l.watchdog then Some(WatchdogExpired)
    else None
  }

  /** Leases as arm builds them leave the watchdog at least five minutes behind the expiry. */
  ghost predicate Spaced(l: Lease) {
    l.expires + (WATCHDOG - MAX_PROTECTED) <= l.watchdog
  }

  /** The watchdog never decides a tick unless five minutes pass between the tick's own two
      clock readings; it then decides exactly when the lease was not yet expired at the first. */
  lemma WatchdogNeverFirst(l: Lease, boot: string, process: Option<string>, first: real, second: real,
      delta: Option<real>)
    requires Spaced(l)
    ensures TickReason(l, boot, process, first, second, delta) == Some(WatchdogExpired) ==> second - first > 300.0
    ensures TickReason(l, boot, process, first, second, delta) == Some(WatchdogExpired) <==>
            && (delta.Some? ==> -0.1 <= delta.value <= 0.1)
            && l.boot == boot && process == Some(l.process) && first < l.expires && second >= l.watchdog
  {}

  /** A tick that finds no reason was read before the expiry. */
  lemma NoReasonBeforeExpiry(l: Lease, boot: string, process: Option<string>, first: real, second: real,
      delta: Option<real>)
    requires TickReason(l, boot, process, first, second, delta) == None
    ensures first < l.expires
  {}

  /** The reason is the first of the five that applies. */
  lemma TickReasonCases(l: Lease, boot: string, process: Option<string>, first: real, second: real, delta: Option<real>)
    ensures var steady := delta.None? || -0.1 <= delta.value <= 0.1;
      TickReason(l, boot, process, first, second, delta) ==
      if !steady then Some(ClockStep)
      else if l.boot != boot then Some(BootRecovery)
      else if process != Some(l.process) then Some(OwnerExit)
      else if first >= l.expires then Some(LeaseExpired)
      else if second >= l.watchdog then Some(WatchdogExpired)
      else None
  {}

  /** A tick read at or after the expiry always finds a reason. */
  lemma ExpiryHasReason(l: Lease, boot: string, process: Option<string>, first: real, second: real, delta: Option<real>)
    ensures first >= l.expires ==> TickReason(l, boot, process, first, second, delta).Some?
  {}

  // ---- the service ----

  class RestoreService {
    /** The service's memory, lost when its process dies. */
    var state: Record
    var last: Option<real>
    /** state.json, network time on or off, and the monotonic clock. */
    var disk: Record
    var setting: bool
    var clock: real
    /** The processes that the service has told to stop. */
    var signalled: seq<int>
    /** The user's own setting, the tokens of the leases begun, in order, and everything a crash could
        have left. */
    ghost const own: bool
    ghost var armed: seq<Token>
    ghost var history: seq<Snapshot>
    /** When the current lease's period was started and when its expiry was last checked. */
    ghost var armedAt: real
    ghost var checked: Option<real>

    ghost predicate Durable()
      reads this
    {
      && history != [] && history[|history| - 1] == Snapshot(disk, setting)
      && AllSafe(history, own) && Known(history, armed) && (Distinct(armed) ==> Unbroken(history))
    }

    ghost predicate Remembered()
      reads this
    {
      && (state.lease.Some? <==> state.status != Idle)
      && (state.lease.Some? ==> state.lease.value.original == own && state.lease.value.token in armed)
      && (!Active(state.status) ==> setting == own)
    }

    /** The lease in memory runs at most 5400 s, and every check of it so far came before its end. */
    ghost predicate Bounded()
      reads this
    {
      state.status == Protected && state.lease.Some? ==>
        && armedAt <= clock && state.lease.value.expires <= armedAt + MAX_PROTECTED
        && Spaced(state.lease.value)
        && (checked.Some? ==> checked.value < state.lease.value.expires)
    }

    ghost predicate Valid()
      reads this
    {
      Durable() && Remembered() && Bounded()
    }

    /** The lease names its owner and boot, holds the setting it found, and its watchdog is 5700 s off. */
    ghost predicate Describes(l: Lease, pid: int, process: string, boot: string, found: bool)
      reads this
    {
      && l.pid == pid && l.process == process && l.boot == boot && l.original == found
      && armedAt + 5700.0 <= l.watchdog <= clock + 5700.0
    }

    /** Nothing has changed, neither in memory nor in what a crash would leave. */
    ghost predicate Quiet(state0: Record, disk0: Record, setting0: bool, history0: seq<Snapshot>)
      reads this
    {
      state == state0 && disk == disk0 && setting == setting0 && history == history0
    }

    /** A first installation: no file, and the user's own setting in force. */
    constructor (setting: bool, clock: real)
      ensures Valid() && own == setting && armed == [] && history == [Snapshot(Record(Idle, None, None), setting)]
    {
      this.state, this.disk := Record(Idle, None, None), Record(Idle, None, None);
      this.setting, this.own := setting, setting;
      this.clock, this.last, this.signalled := clock, None, [];
      armed, armedAt, checked := [], clock, None;
      history := [Snapshot(Record(Idle, None, None), setting)];
    }

    method Now() returns (now: real)
      modifies this`clock
      ensures clock >= old(clock) && now == clock
    {
      var passed: real := *;
      if passed > 0.0 { clock := clock + passed; }
      now := clock;
    }

    /** Any command or file operation that changes neither the record nor the setting. */
    method Flaky() returns (e: Ending)
    {
      e := *;
    }

    /** mac.stop(pid). */
    method StopProcess(pid: int) returns (e: Ending)
      modifies this`signalled
      ensures e.Fine? ==> signalled == old(signalled) + [pid]
      ensures signalled == old(signalled) || signalled == old(signalled) + [pid]
    {
      e := *;
      var arrives: bool := *;
      if e.Fine? || arrives { signalled := signalled + [pid]; }
    }

    /** save(): the file is replaced in one rename, or not at all. */
    method Save() returns (e: Ending)
      requires Durable() && Safe(Snapshot(state, setting), own)
      requires state.lease.Some? ==> state.lease.value.token in armed
      requires state.status == Protected && state.lease.Some? && Distinct(armed) ==>
                 Protects(history[|history| - 1], state.lease.value.token) ||
                 NeverProtected(history, state.lease.value.token)
      modifies this`disk, this`history
      ensures Durable() && old(history) <= history
      ensures e.Fine? ==> disk == state && history == old(history) + [Snapshot(state, setting)]
      ensures disk == old(disk) || disk == state
    {
      hide AllSafe, Known, Unbroken, Safe, Distinct;
      e := *;
      var replaced: bool := *;
      if e.Fine? || replaced {
        AppendSnapshot(history, Snapshot(state, setting), own, armed);
        if Distinct(armed) { AppendUnbroken(history, Snapshot(state, setting)); }
        disk := state;
        history := history + [Snapshot(disk, setting)];
      }
    }

    /** mac.set(value): it may fail before or after taking effect. */
    method Set(value: bool) returns (e: Ending)
      requires Durable() && Active(disk.status) && (disk.status == Protected ==> !value)
      modifies this`setting, this`history
      ensures Durable() && old(history) <= history
      ensures e.Fine? ==> setting == value
      ensures setting == old(setting) || setting == value
      ensures setting != old(setting) ==> history == old(history) + [Snapshot(disk, setting)]
      ensures setting == old(setting) ==> history == old(history)
    {
      hide AllSafe, Known, Unbroken, Distinct;
      e := *;
      var took: bool := *;
      if (e.Fine? || took) && setting != value {
        LastSafe(history, own, armed);
        AppendSnapshot(history, Snapshot(disk, value), own, armed);
        if Distinct(armed) { AppendUnbroken(history, Snapshot(disk, value)); }
        setting := value;
        history := history + [Snapshot(disk, setting)];
      }
    }

    method Restore(reason: Reason) returns (e: Ending)
      requires Durable() && Remembered()
      modifies this`state, this`disk, this`setting, this`history
      ensures Durable() && old(history) <= history && (!e.Died? ==> Valid())
      ensures state.lease == old(state).lease
      ensures old(state).lease.None? ==> e.Fine? && unchanged(this)
      ensures e.Fine? && old(state).lease.Some? ==>
                && state == Record(Restored, old(state).lease, Some(reason)) && disk == state && setting == own
                && history == old(history) + RestoreWrites(old(state).lease.value, reason, old(setting))
    {
      hide AllSafe, Known, Unbroken, Distinct, Protects, NeverProtected, Spaced;
      if state.lease.None? { return Fine; }
      ghost var restoring := Record(Restoring, state.lease, Some(reason));
      Join3(history, [Snapshot(restoring, setting)],
            if setting != state.lease.value.original then [Snapshot(restoring, state.lease.value.original)] else [],
            [Snapshot(restoring.(status := Restored), state.lease.value.original)]);
      e := MarkRestoring(reason);
      if !e.Fine? { return; }
      e := PutBack();
    }

    method MarkRestoring(reason: Reason) returns (e: Ending)
      requires Durable() && Remembered() && state.lease.Some?
      modifies this`state, this`disk, this`history
      ensures Durable() && Remembered() && old(history) <= history
      ensures state == Record(Restoring, old(state).lease, Some(reason))
      ensures e.Fine? ==> disk == state && history == old(history) + [Snapshot(state, setting)]
    {
      hide AllSafe, Known, Unbroken, Distinct, Protects, NeverProtected, Spaced;
      LastSafe(history, own, armed);
      state := Record(Restoring, state.lease, Some(reason));
      e := Save();
    }

    /** The setting goes back first, then the record says so. */
    method PutBack() returns (e: Ending)
      requires Durable() && Remembered() && state.status == Restoring && disk == state
      modifies this`state, this`disk, this`setting, this`history
      ensures Durable() && Remembered() && old(history) <= history
      ensures state == old(state) || state == old(state).(status := Restored)
      ensures e.Fine? ==>
                var original := old(state).lease.value.original;
                && state == old(state).(status := Restored) && disk == state && setting == own == original
                && history == old(history)
                     + (if old(setting) != original then [Snapshot(old(state), original)] else [])
                     + [Snapshot(state, original)]
    {
      hide AllSafe, Known, Unbroken, Distinct, Protects, NeverProtected, Spaced;
      e := Set(state.lease.value.original);
      if !e.Fine? { return; }
      e := Flaky();
      if !e.Fine? { return; }
      state := state.(status := Restored);
      LastSafe(history, own, armed);
      e := Save();
    }

    /** Launch after a crash or reboot: read the file, then startup(). */
    method Startup(boot: string, process: Option<string>) returns (e: Ending)
      requires Durable()
      modifies this`state, this`last, this`disk, this`setting, this`history, this`signalled
      ensures Durable() && old(history) <= history && (e.Fine? ==> Valid())
      ensures e.Fine? ==> last == None && setting == own && disk == state
      ensures e.Fine? && (old(disk).status == Idle || old(disk).status == Restored) ==>
                setting == old(setting) && state == old(disk) && signalled == old(signalled)
      // an interrupted lease is ended, and its owner stopped when it still runs
      ensures e.Fine? && !(old(disk).status == Idle || old(disk).status == Restored) ==>
                && old(disk).lease.Some?
                && var lease := old(disk).lease.value;
                   var reason := if lease.boot == boot then ServiceRestart else BootRecovery;
                   && state == Record(Restored, Some(lease), Some(reason))
                   && history == old(history) + RestoreWrites(lease, reason, old(setting))
                   && signalled == old(signalled) +
                        if lease.boot == boot && process == Some(lease.process) then [lease.pid] else []
    {
      hide AllSafe, Known, Unbroken, Distinct, Protects, NeverProtected, Spaced;
      LastSafe(history, own, armed);
      state, last := disk, None;
      if Active(state.status) {
        var lease := state.lease.value;
        if lease.boot == boot && process == Some(lease.process) {
          e := StopProcess(lease.pid);
          if !e.Fine? { return; }
        }
        e := Restore(if lease.boot == boot then ServiceRestart else BootRecovery);
      } else {
        e := Save();
      }
    }

    /** request(): arm or release, or an exception for anything else. `boot`, `process`, `owned` and
        `wall` are what the machine reports about itself and the request's process. */
    method Handle(r: Request, boot: string, process: Option<string>, owned: bool, wall: real)
      returns (e: Ending, refused: bool)
      requires Valid()
      modifies this`state, this`last, this`disk, this`setting, this`history, this`clock
      modifies this`armed, this`armedAt, this`checked
      ensures Durable() && old(history) <= history && (!e.Died? ==> Valid())
      ensures e.Fine? && r.Release? ==>
                && Releases(old(state), r) && setting == own
                && state == Released(old(state)) && disk == state
                && history == old(history) + RestoreWrites(old(state).lease.value, NormalRelease, old(setting))
      ensures e.Fine? && r.Arm? ==>
                state.lease.Some? && history == old(history) + ArmWrites(state.lease.value, old(setting))
      ensures e.Fine? && r.Arm? ==>
                && Admits(old(state), r, boot, process, owned, wall)
                && state.status == Protected && disk == state && !setting
                && state.lease.Some? && state.lease.value.token == r.token.value
                && state.lease.value.expires == armedAt + r.seconds.value && old(clock) <= armedAt <= clock
                && process.Some? && Describes(state.lease.value, r.pid, process.value, boot, old(setting)) && last.Some?
      ensures refused <==> Refused(old(state), r, boot, process, owned, wall)
      ensures refused ==>
                e.Threw? && state == old(state) && disk == old(disk) && setting == old(setting)
                  && history == old(history)
      // a lease is begun only for an admitted request, under its token
      ensures clock >= old(clock)
      ensures armed == old(armed) ==> armedAt == old(armedAt) && checked == old(checked)
      ensures armed != old(armed) || (e.Fine? && r.Arm?) ==>
                r.Arm? && Admits(old(state), r, boot, process, owned, wall) && armed == old(armed) + [r.token.value] &&
                old(clock) <= armedAt <= clock
    {
      hide AllSafe, Known, Unbroken, Distinct, Protects, NeverProtected, Spaced;
      refused := false;
      if r.Malformed? || r.token.None? { return Threw, true; }
      var token := r.token.value;
      if r.Release? {
        if state.lease.None? || state.lease.value.token != token { return Threw, true; }
        e := Restore(NormalRelease);
        return;
      }
      if state.status != Idle && state.status != Restored { return Threw, true; }
      if state.lease.Some? && state.lease.value.token == token { return Threw, true; }
      if r.seconds.None? || r.seconds.value < 1.0 || r.seconds.value > MAX_PROTECTED { return Threw, true; }
      if r.pid <= 1 { return Threw, true; }
      if process.None? || process != r.process || !owned { return Threw, true; }
      if r.boot != boot || wall - r.created > 60.0 || r.created - wall > 60.0 { return Threw, true; }
      e := Flaky();
      if !e.Fine? { return; }
      e := ArmLease(token, r.pid, process.value, boot, r.seconds.value);
    }

    /** The mutating half of arm. */
    method ArmLease(token: Token, pid: int, process: string, boot: string, seconds: real) returns (e: Ending)
      requires Valid() && !Active(state.status) && 1.0 <= seconds <= MAX_PROTECTED
      modifies this`state, this`last, this`disk, this`setting, this`history, this`clock
      modifies this`armed, this`armedAt, this`checked
      ensures Durable() && old(history) <= history && (!e.Died? ==> Valid())
      ensures e.Fine? ==>
                && state.status == Protected && disk == state && !setting
                && state.lease.Some? && state.lease.value.token == token
                && state.lease.value.expires == armedAt + seconds
                && Describes(state.lease.value, pid, process, boot, old(setting)) && last.Some?
      ensures old(clock) <= armedAt <= clock && armed == old(armed) + [token]
      ensures e.Fine? ==> state.lease.Some? && history == old(history) + ArmWrites(state.lease.value, old(setting))
    {
      hide AllSafe, Known, Unbroken, Distinct, Protects, NeverProtected;
      var _ := Now();
      var started := Now();
      var guarded := Now();
      armedAt, checked := started, None;
      var lease := Lease(token, pid, process, boot, setting, started + seconds, guarded + WATCHDOG);
      ArmWritesJoin(history, lease, setting);
      e := BeginLease(lease);
      if !e.Fine? { return; }
      e := TurnOff();
      if !e.Fine? { return; }
      var now := Now();
      last := Some(now);
    }

    /** Record the lease before anything changes: recovery is possible from here on. */
    method BeginLease(lease: Lease) returns (e: Ending)
      requires Valid() && !Active(state.status) && lease.original == setting
      requires lease.expires <= armedAt + MAX_PROTECTED && Spaced(lease) && checked.None?
      requires armedAt <= clock
      modifies this`state, this`disk, this`history, this`armed
      ensures Durable() && Remembered() && old(history) <= history
      ensures state == Record(Arming, Some(lease), None) && armed == old(armed) + [lease.token]
      ensures e.Fine? ==> disk == state && (Distinct(armed) ==> NeverProtected(history, lease.token))
      ensures e.Fine? ==> history == old(history) + [Snapshot(state, setting)]
    {
      hide AllSafe, Known, Unbroken, Distinct, Protects, NeverProtected, Spaced;
      ghost var before := history;
      LastSafe(history, own, armed);
      UnusedNeverProtected(history, armed, lease.token);
      KnownMore(history, armed, lease.token);
      DistinctMore(armed, lease.token);
      armed := armed + [lease.token];
      state := Record(Arming, Some(lease), None);
      e := Save();
      if e.Fine? && Distinct(armed) { StillNeverProtected(before, Snapshot(disk, setting), lease.token); }
    }

    /** Turn network time off under a recorded lease, then record it as protected. */
    method TurnOff() returns (e: Ending)
      requires Durable() && Remembered() && state.status == Arming && disk == state
      requires Distinct(armed) ==> NeverProtected(history, state.lease.value.token)
      modifies this`state, this`disk, this`setting, this`history
      ensures Durable() && old(history) <= history && Remembered()
      ensures state.lease == old(state).lease
      ensures e.Fine? ==> state == old(state).(status := Protected) && disk == state && !setting
      ensures e.Fine? ==> history == old(history) + (if old(setting) then [Snapshot(old(state),
          false)] else []) + [Snapshot(state, false)]
    {
      hide AllSafe, Known, Unbroken, Distinct, Protects, NeverProtected, Spaced;
      ghost var before := history;
      ghost var was := setting;
      e := Set(false);
      if !e.Fine? { return; }
      if Distinct(armed) && setting != was {
        StillNeverProtected(before, Snapshot(disk, setting), state.lease.value.token);
      }
      LastSafe(history, own, armed);
      state := state.(status := Protected);
      SetOffSafe(disk, setting, own);
      e := Save();
    }

    /** tick(): `drift` is how far the wall and monotonic clocks moved apart since the last one; the clock
        is read `first` for the expiry and `second` for the watchdog. */
    method Tick(boot: string, process: Option<string>, drift: real)
      returns (e: Ending, first: real, second: real)
      requires Valid()
      modifies this`state, this`last, this`disk, this`setting, this`history, this`clock, this`checked, this`signalled
      ensures Durable() && old(history) <= history && clock >= old(clock) && (!e.Died? ==> Valid())
      ensures !Active(old(state).status) ==>
                e.Fine? && Quiet(old(state), old(disk), old(setting), old(history)) && signalled == old(signalled)
      ensures Active(old(state).status) ==> old(clock) <= first <= second <= clock && last == Some(second)
      // exactly these five observations together leave the lease and everything else alone
      ensures e.Fine? && Active(old(state).status) ==>
                var lease := old(state).lease.value;
                if (old(last).None? || -0.1 <= drift <= 0.1) && lease.boot == boot && process == Some(lease.process)
                   && first < lease.expires && second < lease.watchdog
                then
                  && Quiet(old(state), old(disk), old(setting), old(history)) && signalled == old(signalled)
                  && checked == Some(first)
                else
                  && state.status == Restored && state.lease == Some(lease) && disk == state && setting == own
                  && state.reason.Some?
                  && history == old(history) + RestoreWrites(lease, state.reason.value, old(setting))
                  && signalled == old(signalled) + if process == Some(lease.process) then [lease.pid] else []
      // and the reason is the first of clock step, boot, owner, expiry and watchdog that applies
      ensures e.Fine? && Active(old(state).status) && state.status == Restored ==>
                var lease := old(state).lease.value;
                var steady := old(last).None? || -0.1 <= drift <= 0.1;
                && (state.reason == Some(ClockStep) <==> !steady)
                && (state.reason == Some(BootRecovery) <==> steady && lease.boot != boot)
                && (state.reason == Some(OwnerExit) <==>
                      steady && lease.boot == boot && process != Some(lease.process))
                && (state.reason == Some(LeaseExpired) <==>
                      steady && lease.boot == boot && process == Some(lease.process) && first >= lease.expires)
                && (state.reason == Some(WatchdogExpired) <==>
                      steady && lease.boot == boot && process == Some(lease.process) && first < lease.expires)
    {
      hide AllSafe, Known, Unbroken, Distinct, Protects, NeverProtected, Spaced, RestoreWrites;
      first, second := 0.0, 0.0;
      if !Active(state.status) { return Fine, first, second; }
      var reason;
      reason, first, second := Observe(boot, process, drift);
      e := Flaky();
      if !e.Fine? { return; }
      if reason.None? {
        checked := Some(first);
        return;
      }
      e := EndLease(reason.value, process);
    }

    /** What a tick finds: nothing, or the first reason that applies. */
    method Observe(boot: string, process: Option<string>, drift: real)
      returns (reason: Option<Reason>, first: real, second: real)
      requires Valid() && state.lease.Some?
      modifies this`clock, this`last
      ensures Valid() && old(clock) <= first <= second <= clock && last == Some(second)
      ensures var lease, steady := state.lease.value, old(last).None? || -0.1 <= drift <= 0.1;
              reason ==
              if !steady then Some(ClockStep)
              else if lease.boot != boot then Some(BootRecovery)
              else if process != Some(lease.process) then Some(OwnerExit)
              else if first >= lease.expires then Some(LeaseExpired)
              else if second >= lease.watchdog then Some(WatchdogExpired)
              else None
    {
      hide AllSafe, Known, Unbroken, Distinct, Protects, NeverProtected, Spaced, TickReason;
      var a := Now();
      var b := Now();
      first, second := a, b;
      var delta := if last.Some? then Some(drift) else None;
      reason := TickReason(state.lease.value, boot, process, a, b, delta);
      TickReasonCases(state.lease.value, boot, process, a, b, delta);
      last := Some(b);
    }

    /** Stop the owner when it still runs, then restore. */
    method EndLease(reason: Reason, process: Option<string>) returns (e: Ending)
      requires Valid() && state.lease.Some?
      modifies this`state, this`disk, this`setting, this`history, this`signalled
      ensures Durable() && old(history) <= history && (!e.Died? ==> Valid())
      ensures state.lease == old(state).lease
      ensures e.Fine? ==>
                var lease := old(state).lease.value;
                && state == Record(Restored, Some(lease), Some(reason)) && disk == state && setting == own
                && history == old(history) + RestoreWrites(lease, reason, old(setting))
                && signalled == old(signalled) + if process == Some(lease.process) then [lease.pid] else []
    {
      hide AllSafe, Known, Unbroken, Distinct, Protects, NeverProtected, Spaced, RestoreWrites;
      if process == Some(state.lease.value.process) {
        e := StopProcess(state.lease.value.pid);
        if !e.Fine? { return; }
      }
      e := Restore(reason);
    }

    /** One round of serve: a request, with the error path that ends any lease when it is refused. */
    method ServeRequest(r: Request, boot: string, process: Option<string>, owned: bool, wall: real) returns (e: Ending)
      requires Valid()
      modifies this`state, this`last, this`disk, this`setting, this`history, this`clock
      modifies this`armed, this`armedAt, this`checked
      ensures Durable() && old(history) <= history && clock >= old(clock) && (e.Fine? ==> Valid())
      ensures e.Fine? && Refused(old(state), r, boot, process, owned, wall) ==>
                setting == own && state == (if Active(old(state).status)
                                            then Record(Restored, old(state).lease, Some(RequestError)) else old(state))
      ensures armed == old(armed) ==> armedAt == old(armedAt) && checked == old(checked)
      ensures armed != old(armed) ==>
                && r.Arm? && Admits(old(state), r, boot, process, owned, wall) && armed == old(armed) + [r.token.value]
                && (e.Fine? ==> old(clock) <= armedAt <= clock)
    {
      hide AllSafe, Known, Unbroken, Distinct, Protects, NeverProtected, Spaced, Refused, Admits;
      var refused;
      e, refused := Handle(r, boot, process, owned, wall);
      if e.Threw? {
        e := Flaky();
        if e.Fine? && Active(state.status) { e := Restore(RequestError); }
      }
    }

    /** One round: a start when the service is down, else a request, a tick and perhaps a stop. */
    method ServeRound(up: bool, round: Round) returns (e: Ending)
      requires Durable() && (up ==> Valid())
      modifies this
      ensures Durable() && old(history) <= history && clock >= old(clock) && (e.Fine? ==> Valid())
      ensures armed == old(armed) || (exists t :: Asked(round) == [t] && armed == old(armed) + [t])
      ensures e.Fine? && state.status == Protected ==> checked.Some? && checked.value >= old(clock)
    {
      hide AllSafe, Known, Unbroken, Distinct, Protects, NeverProtected, Spaced, Admits, Refused, TickReason;
      if !up {
        e := Startup(round.boot, round.process);
        return;
      }
      e := Fine;
      if round.request.Some? {
        e := ServeRequest(round.request.value, round.boot, round.process, round.owned, round.wall);
        AdmitsToken(round);
        assert armed == old(armed) || (Asked(round) == [round.request.value.token.value]
          && armed == old(armed) + Asked(round));
        if !e.Fine? { return; }
      }
      var first, second;
      e, first, second := Tick(round.boot, round.process, round.drift);
      if e.Fine? && round.stops {
        e := Restore(ServiceStop);
        e := Died;
      }
    }

    /** Any rounds of any requests and ticks, with crashes, reboots and restarts anywhere. When no token is
        asked for twice, two observations of `protected` under one token mean network time was off all the
        time between. A lease that is protected after a round was armed less than 5400 s before that round. */
    method Live(rounds: seq<Round>) returns (up: bool, ghost roundStart: real)
      requires Durable()
      modifies this
      ensures Durable() && old(history) <= history && clock >= old(clock) && (up ==> Valid())
      ensures old(armed) <= armed
      ensures Distinct(old(armed) + AllAsked(rounds)) ==> Distinct(armed) && Continuous(history)
      ensures rounds != [] && up && state.status == Protected ==>
                roundStart < state.lease.value.expires <= armedAt + MAX_PROTECTED && armedAt <= clock
    {
      hide AllSafe, Known, Unbroken, Distinct, Protects, NeverProtected, Spaced, Asked, Continuous, AllAsked;
      up, roundStart := false, clock;
      AllAskedNone(rounds);
      FreshNone(old(armed));
      for i := 0 to |rounds|
        invariant Durable() && old(history) <= history && clock >= old(clock) && (up ==> Valid())
        invariant old(armed) <= armed && Fresh(old(armed), AllAsked(rounds[..i]), armed)
        invariant i > 0 && up && state.status == Protected ==> checked.Some? && checked.value >= roundStart
      {
        roundStart := clock;
        ghost var before := armed;
        var e := ServeRound(up, rounds[i]);
        FreshMore(old(armed), AllAsked(rounds[..i]), before, Asked(rounds[i]), armed);
        AllAskedMore(rounds, i);
        up := e.Fine?;
      }
      assert rounds[..|rounds|] == rounds;
      FreshDistinct(old(armed), AllAsked(rounds), armed);
      if Distinct(armed) { UnbrokenIsContinuous(history, own); }
    }
  }

  // ---- rounds and their tokens ----

  /** What one round of the service meets. */
  datatype Round = Round(boot: string, process: Option<string>, request: Option<Request>, owned: bool, wall: real,
                         drift: real, stops: bool)

  /** The token that a round's request asks to arm. */
  function Asked(round: Round): (ts: seq<Token>)
    ensures |ts| <= 1
  {
    if round.request.Some? && round.request.value.Arm? && round.request.value.token.Some?
    then [round.request.value.token.value] else []
  }

  function AllAsked(rounds: seq<Round>): seq<Token> {
    if rounds == [] then [] else AllAsked(rounds[..|rounds| - 1]) + Asked(rounds[|rounds| - 1])
  }

  lemma AllAskedNone(rounds: seq<Round>)
    ensures AllAsked(rounds[..0]) == []
  {}

  lemma AllAskedMore(rounds: seq<Round>, i: nat)
    requires i < |rounds|
    ensures AllAsked(rounds[..i + 1]) == AllAsked(rounds[..i]) + Asked(rounds[i])
  {
    assert rounds[..i + 1][..i] == rounds[..i];
  }

  lemma AdmitsToken(round: Round)
    requires round.request.Some?
    ensures forall s, boot, process, owned, wall ::
              round.request.value.Arm? && Admits(s, round.request.value, boot, process, owned, wall) ==>
              Asked(round) == [round.request.value.token.value]
  {}

  /** Whatever is begun was asked for: distinct requests begin distinct leases. */
  ghost predicate Fresh(earlier: seq<Token>, asked: seq<Token>, armed: seq<Token>) {
    Distinct(earlier + asked) ==> Distinct(armed) && forall t :: t in armed ==> t in earlier + asked
  }

  lemma FreshNone(ts: seq<Token>)
    ensures Fresh(ts, [], ts)
  {
    assert ts + [] == ts;
  }

  lemma FreshMore(earlier: seq<Token>, asked: seq<Token>, before: seq<Token>, more: seq<Token>, after: seq<Token>)
    requires Fresh(earlier, asked, before)
    requires after == before || exists t :: more == [t] && after == before + [t]
    requires |more| <= 1
    ensures Fresh(earlier, asked + more, after)
  {
    hide Distinct;
    if more == [] {
      assert asked + more == asked;
    } else {
      assert earlier + (asked + more) == (earlier + asked) + [more[0]];
      DistinctMore(earlier + asked, more[0]);
      DistinctMore(before, more[0]);
    }
  }

  lemma FreshDistinct(earlier: seq<Token>, asked: seq<Token>, armed: seq<Token>)
    requires Fresh(earlier, asked, armed)
    ensures Distinct(earlier + asked) ==> Distinct(armed)
  {}

  // ---- requests ----

  /** A release is accepted when it names the lease on record, whatever its status. */
  predicate Releases(state: Record, r: Request)
    requires r.Release?
  {
    r.token.Some? && state.lease.Some? && state.lease.value.token == r.token.value
  }

  function Released(state: Record): Record {
    Record(Restored, state.lease, Some(NormalRelease))
  }

  /** The checks of arm. */
  predicate Admits(state: Record, r: Request, boot: string, process: Option<string>, owned: bool, wall: real)
    requires r.Arm?
  {
    && r.token.Some? && !Active(state.status)
    && (state.lease.Some? ==> state.lease.value.token != r.token.value)
    && r.seconds.Some? && 1.0 <= r.seconds.value <= 5400.0
    && r.pid > 1 && process.Some? && process == r.process && owned
    && r.boot == boot && -60.0 <= wall - r.created <= 60.0
  }

  /** The requests that are answered with an exception before they change anything. */
  predicate Refused(state: Record, r: Request, boot: string, process: Option<string>, owned: bool, wall: real) {
    || r.Malformed?
    || (r.Release? && !Releases(state, r))
    || (r.Arm? && !Admits(state, r, boot, process, owned, wall))
  }

  /** What ClockLease.__exit__ accepts as a normal end. */
  predicate ClientAccepts(final: Record) {
    final.status == Restored && final.reason == Some(NormalRelease)
  }

  /** A release that arrives after the lease has already ended is recorded exactly as one that
      ended a protected lease, so the client's check cannot tell the two apart. */
  lemma LateReleaseLooksNormal(lease: Lease, reason: Reason)
    ensures var ended := Record(Restored, Some(lease), Some(reason));
            var protected := Record(Protected, Some(lease), None);
            && Released(ended) == Released(protected)
            && ClientAccepts(Released(ended))
            && (ClientAccepts(ended) <==> reason == NormalRelease)
  {}

  /** A restore after the lease has ended, on a late release or when the service stops, writes back the value
      that the lease had found: it overwrites a setting made since if and only if that differs. */
  lemma EndedLeaseOverwrites(lease: Lease, reason: Reason, setting: bool)
    ensures var w := RestoreWrites(lease, reason, setting);
      w[|w| - 1].setting == lease.original && (w[|w| - 1].setting != setting <==> setting != lease.original)
  {}

  /** What three leases write from a first installation on: two arm and release, a third arms. */
  function ThreeLeases(a: Lease, b: Lease, c: Lease): seq<Snapshot> {
    [Snapshot(Record(Idle, None, None), true)]
      + ArmWrites(a, true) + RestoreWrites(a, NormalRelease, false)
      + ArmWrites(b, true) + RestoreWrites(b, NormalRelease, false)
      + ArmWrites(c, true)
  }

  /** Only the last lease's token is refused: when two leases have come and gone, a third with the first
      one's token is admitted like the others. What these requests write is safe throughout, and the
      token's two protected periods enclose a time with the setting on. */
  lemma ReusedTokenBreaksContinuity(a: Lease, b: Lease, c: Lease)
    requires a.token != b.token && c.token == a.token && a.original && b.original && c.original
    ensures var h := ThreeLeases(a, b, c);
      |h| == 16 && AllSafe(h, true) && Protects(h[3], a.token) && Protects(h[15], a.token) && h[6].setting
        && !Unbroken(h)
    ensures Admits(Record(Idle, None, None), ArmFor(a, 60.0, 0.0), a.boot, Some(a.process), true, 0.0) <==> a.pid > 1
    ensures var ended := Record(Restored, Some(a), Some(NormalRelease));
      Admits(ended, ArmFor(b, 60.0, 0.0), b.boot, Some(b.process), true, 0.0) <==> b.pid > 1
    ensures var ended := Record(Restored, Some(b), Some(NormalRelease));
      Admits(ended, ArmFor(c, 60.0, 0.0), c.boot, Some(c.process), true, 0.0) <==> c.pid > 1
    ensures Releases(Record(Protected, Some(a), None), Release(Some(a.token)))
    ensures Releases(Record(Protected, Some(b), None), Release(Some(b.token)))
  {
    var h := ThreeLeases(a, b, c);
    ThreeLeasesSafe(a, b, c);
    assert Protects(h[3], a.token) && Protects(h[15], a.token) && !Protects(h[6], a.token);
  }

  function ArmFor(l: Lease, seconds: real, created: real): Request {
    Arm(Some(l.token), l.pid, Some(l.process), l.boot, Some(seconds), created)
  }

  lemma ThreeLeasesSafe(a: Lease, b: Lease, c: Lease)
    requires a.original && b.original && c.original
    ensures |ThreeLeases(a, b, c)| == 16 && AllSafe(ThreeLeases(a, b, c), true)
  {
    ArmWritesSafe(a);
    ArmWritesSafe(b);
    ArmWritesSafe(c);
    RestoreWritesSafe(a);
    RestoreWritesSafe(b);
  }

  lemma ArmWritesSafe(l: Lease)
    requires l.original
    ensures AllSafe(ArmWrites(l, true), true)
  {}

  lemma RestoreWritesSafe(l: Lease)
    requires l.original
    ensures AllSafe(RestoreWrites(l, NormalRelease, false), true)
  {}

  lemma UnusedNeverProtected(h: seq<Snapshot>, armed: seq<Token>, t: Token)
    requires Known(h, armed)
    ensures t !in armed ==> NeverProtected(h, t)
  {}

  lemma KnownMore(h: seq<Snapshot>, armed: seq<Token>, t: Token)
    requires Known(h, armed)
    ensures Known(h, armed + [t])
  {}

  lemma StillNeverProtected(h: seq<Snapshot>, s: Snapshot, t: Token)
    requires NeverProtected(h, t) && s.disk.status != Protected
    ensures NeverProtected(h + [s], t)
  {}

  lemma SetOffSafe(r: Record, setting: bool, own: bool)
    requires Safe(Snapshot(r, setting), own) && r.status == Arming && !setting
    ensures Safe(Snapshot(r.(status := Protected), setting), own)
  {}

  lemma LastSafe(h: seq<Snapshot>, own: bool, armed: seq<Token>)
    requires h != [] && AllSafe(h, own) && Known(h, armed)
    ensures Safe(h[|h| - 1], own)
    ensures h[|h| - 1].disk.lease.Some? ==> h[|h| - 1].disk.lease.value.token in armed
  {}
}
