/** The controller of the S3 recovery. Between any two of its reads and requests the cloud may take
    any number of steps; a request may be lost, applied without an answer, or be the last thing the
    process does. Every method is proved to issue permitted requests only, whatever the record. */
module Fencing {
  import opened Options
  import opened FencingWorld
  import opened FencingHistory

  /** A call that threw leaves the process able to run its next command; one that died does not. */
  datatype Outcome = Fine | Threw | Died

  datatype Call = RunOnce(run: RunId) | CleanUp

  const POLLS: nat := 36

  predicate HasOut(ts: seq<Taint>) {
    exists i :: 0 <= i < |ts| && ts[i].Out?
  }

  lemma {:induction false} HasOutIffOwners(ts: seq<Taint>)
    ensures HasOut(ts) <==> Owners(ts) != []
  {
    if ts != [] {
      HasOutIffOwners(ts[1..]);
      if HasOut(ts) && !ts[0].Out? {
        var i :| 0 <= i < |ts| && ts[i].Out?;
        assert ts[1..][i - 1].Out?;
      }
      if HasOut(ts[1..]) {
        var i :| 0 <= i < |ts[1..]| && ts[1..][i].Out?;
        assert ts[i + 1].Out?;
      }
    }
  }

  /** Does a request that takes effect also report success? */
  predicate Effective(s: State, a: Action) {
    var w, run := s.w, s.r.run;
    match a
    case PatchTaint(_, version) => w.version == version
    case Inject(cs) => w.running && w.owner == None && w.chains == {} && cs == {ApiChain, DatabaseChain}
    case Stop => w.status == Active && w.task == Idle
    case Start => w.status == Shutoff && w.task == Idle
    case Annotate => w.skip == None || w.skip == Some(run)
    case Clear(_, finished) => w.running && ((w.owner == Some(run) && finished) || (w.owner == None && w.chains == {}))
    case _ => true
  }

  /** Nova still reports the VM as active although a stop has been accepted. */
  predicate StopPending(w: World) {
    w.status == Active && w.task == Stopping
  }

  predicate GoingDown(w: World) {
    w.task == Stopping || (w.status == Shutoff && w.task == Idle)
  }

  lemma StopPendingFacts(w: World)
    ensures StopPending(w) ==> w.task == Stopping
  {}

  lemma PowerFacts(w: World)
    ensures Up(w) || GoingDown(w) ==> w.task != Starting
    ensures GoingDown(w) ==> !Up(w)
  {}

  lemma GoingDownStays(w: World, x: World)
    requires PowerDrifts(w, x)
    ensures Up(w) ==> Up(x)
    ensures GoingDown(w) ==> GoingDown(x) && !Up(x) && x.task != Starting
  {}

  // ---- what the methods need of the invariant ----

  lemma NoSourceNoFault(s: State)
    requires Inv(s) && !s.r.source
    ensures s.w.owner == None && s.w.chains == {} && Owners(s.w.taints) == [] && !s.w.cordoned && s.w.task != Starting
  {
    hide SingleWriter, PowerCoherent, MoveGuarded, CleanedUp, Owners;
  }

  lemma FencedMeansOff(s: State)
    requires Inv(s) && s.r.fenced && !s.r.restoreStarted
    ensures Off(s.w)
  {
    hide SingleWriter, PowerCoherent, MoveGuarded, Recorded, CleanedUp, Owners;
  }

  lemma StartingMeansShutoff(s: State)
    requires Inv(s)
    ensures s.w.status == Active ==> s.w.task != Starting
    ensures s.w.status == Active && s.w.task == Idle ==> Up(s.w)
    ensures s.w.task == Stopping ==> s.w.status == Active
    ensures s.r.cleaned ==> s.w.task != Starting
  {
    hide SingleWriter, MoveGuarded, RecordGuarded, Recorded, Owners;
  }

  lemma ManifestFacts(s: State)
    requires Inv(s)
    ensures s.r.intent == None ==> s.w.manifest == s.original
    ensures s.r.intent.Some? ==> s.r.intent.value == s.original && s.file == s.r.intent
    ensures s.w.manifest == s.original || Configured(s.original) == Some(s.w.manifest)
  {
    hide SingleWriter, PowerCoherent, MoveGuarded, RecordGuarded, CleanedUp, Owners;
  }

  lemma CleanedFacts(s: State)
    requires Inv(s) && s.r.cleaned
    ensures Owners(s.w.taints) == [] && s.w.owner == None && s.w.chains == {} && !s.w.cordoned
    ensures s.w.manifest == s.original && s.w.namespace == Gone
    ensures s.r.source ==> s.w.skip == None && s.w.volume == Deleted
  {
    hide SingleWriter, PowerCoherent, MoveGuarded, RecordGuarded, Recorded, Owners;
  }

  lemma DriftsReflexive(w: World)
    ensures Drifts(w, w)
  {
    hide Owners;
  }

  /** The parts of a cleanup that has found nothing yet. */
  function NoParts(r: Record, skip: Option<RunId>, original: Manifest): Parts {
    Parts([], [], [], [], if r.source && skip == Some(r.run) then [Unannotate] else [],
          if r.intent.Some? then [PutManifest(original)] else [])
  }

  lemma NoFaultYet(now: seq<Action>, before: seq<Action>, more: seq<Action>)
    requires Between(now, before, more) && forall i :: 0 <= i < |more| ==> !more[i].Inject? && !more[i].Stop?
    ensures forall k :: |before| <= k < |now| ==> !now[k].Inject? && !now[k].Stop?
  {
    forall k | |before| <= k < |now| ensures !now[k].Inject? && !now[k].Stop? {
      assert now[k] == (before + more)[k];
    }
  }

  /** Nothing but the fault and the cloud's own drift separates the two. */
  ghost predicate ClearsOnly(w: World, x: World) {
    && PowerDrifts(w, x) && Owners(x.taints) == Owners(w.taints)
    && x.cordoned == w.cordoned && x.skip == w.skip && x.manifest == w.manifest
  }

  lemma DriftClearsOnly(w: World, x: World)
    requires Drifts(w, x)
    ensures ClearsOnly(w, x)
  {
    hide Owners, PowerDrifts;
  }

  lemma ClearClearsOnly(s: State, keep: set<Chain>, finished: bool)
    ensures ClearsOnly(s.w, s.w) && ClearsOnly(s.w, Do(s, Clear(keep, finished)).w)
    ensures Do(s, Clear(keep, finished)) == s.(w := Do(s, Clear(keep, finished)).w)
  {
    hide Owners;
  }

  lemma ClearsOnlyTransitive(w: World, x: World, y: World)
    requires ClearsOnly(w, x) && ClearsOnly(x, y)
    ensures ClearsOnly(w, y)
  {
    hide Owners;
  }

  class S3 {
    var s: State
    ghost const first: State
    /** All that has happened, and the requests among it. */
    ghost var log: seq<Event>
    ghost var asked: seq<Action>

    ghost predicate Valid() reads this {
      Initial(first) && Inv(s) && Legal(first, log) && s == Replay(first, log) && asked == Requests(log)
    }

    constructor (s0: State)
      requires Initial(s0)
      ensures Valid() && s == s0 && first == s0 && log == [] && asked == []
    {
      s, first, log, asked := s0, s0, [], [];
      new;
      InitialInv(s0);
    }

    // ---- reads and requests ----

    /** Any number of steps of the cloud. */
    method Drift()
      requires Valid()
      modifies this
      ensures Valid() && old(log) <= log && s == old(s).(w := s.w) && Drifts(old(s.w), s.w) && asked == old(asked)
    {
      hide Inv, Drifts, Initial, Legal, Replay, Apply, Requests;
      var steps: nat :| 0 <= steps;
      DriftsReflexive(s.w);
      for k := 0 to steps
        invariant Valid() && old(log) <= log && s == old(s).(w := s.w) && Drifts(old(s.w), s.w)
        invariant asked == old(asked)
      {
        var a: EnvAction := *;
        ghost var was := s;
        LegalExtend(first, log, Env(a));
        RequestsStep(log, Env(a));
        EnvKeepsInv(s, a);
        ApplyDrifts(s.w, a);
        DriftsTransitive(old(s.w), s.w, Apply(s.w, a));
        s := s.(w := Apply(s.w, a));
        log := log + [Env(a)];
        assert s == After(was, Env(a));
      }
    }

    /** A request: the cloud may have moved on since the reads that justified it. */
    method Request(a: Action) returns (o: Outcome, ghost at: State)
      requires Valid() && Permitted(s, a)
      modifies this
      ensures Valid() && old(log) <= log
      ensures at == old(s).(w := at.w) && Drifts(old(s.w), at.w) && Inv(at)
      ensures s == Do(at, a) || (s == at && !o.Fine?)
      ensures o.Fine? ==> s == Do(at, a) && Effective(at, a)
      ensures asked == old(asked) + [a] || (asked == old(asked) && s == at && !o.Fine?)
    {
      hide Inv, Permitted, Drifts, Initial, Legal, Replay, Do, Effective, Requests;
      Drift();
      at := s;
      PermissionSurvivesDrift(old(s), s.w, a);
      var reached, answered, survives := *, *, *;
      var effective := reached && Effective(s, a);
      if reached {
        LegalExtend(first, log, Act(a));
        RequestsStep(log, Act(a));
        DoKeepsInv(s, a);
        s := Do(s, a);
        asked := asked + [a];
        log := log + [Act(a)];
        assert s == After(at, Act(a));
      }
      o := if !survives then Died else if effective && answered then Fine else Threw;
    }

    /** A bounded wait on something the model leaves to the cloud, such as node readiness. */
    method Await() returns (o: Outcome)
      requires Valid()
      modifies this
      ensures Valid() && old(log) <= log && s == old(s).(w := s.w) && Drifts(old(s.w), s.w) && asked == old(asked)
    {
      Drift();
      var converged, survives := *, *;
      o := if !survives then Died else if converged then Fine else Threw;
    }

    // ---- the run ----

    method Start(run: RunId) returns (o: Outcome)
      requires Valid()
      modifies this
      ensures Valid() && old(log) <= log
      ensures !old(s.r.cleaned) ==> o == Threw && s == old(s) && asked == old(asked)
      ensures o.Fine? ==> s.r == Record(run, false, false, false, None, false)
      ensures Between(asked, old(asked), [Begin(run), CreateNamespace])
      ensures o.Fine? ==> asked == old(asked) + [Begin(run), CreateNamespace]
      ensures s.w.skip == old(s.w.skip) && s.w.manifest == old(s.w.manifest)
    {
      hide Inv, Initial, Legal, Replay, Requests, Owners, Configured;
      if !s.r.cleaned { return Threw; }
      o := Await();
      if !o.Fine? { return; }
      if s.w.namespace != Gone { return Threw; }
      ghost var at;
      o, at := Request(Begin(run));
      if !o.Fine? { return; }
      o, at := Request(CreateNamespace);
    }

    /** Save the manifest, record the intent, then put the configured manifest and see it active. */
    method ControllerPolicy() returns (o: Outcome)
      requires Valid() && !s.r.cleaned && !s.r.source && s.r.intent == None
      modifies this
      ensures Valid() && old(log) <= log
      ensures s.r.(intent := None) == old(s.r)
      ensures o.Fine? ==> DisableForceDetach in s.w.manifest && s.w.policy
      ensures Configured(old(s.w.manifest)) == None ==> !o.Fine? && asked == old(asked)
      ensures Configured(old(s.w.manifest)).Some? ==>
                var more := [SaveManifest, WriteIntent, PutManifest(Configured(old(s.w.manifest)).value)];
                Between(asked, old(asked), more) && (o.Fine? ==> asked == old(asked) + more)
      ensures s.w.skip == old(s.w.skip)
    {
      hide Inv, Initial, Legal, Replay, Requests, Owners, Configured;
      o := Await();
      if !o.Fine? { return; }
      var original := s.w.manifest;
      var configured := Configured(original);
      if configured == None { return Threw; }
      ghost var at;
      o, at := Request(SaveManifest);
      if !o.Fine? { return; }
      o, at := Request(WriteIntent);
      if !o.Fine? { return; }
      NoSourceNoFault(s);
      o, at := Request(PutManifest(configured.value));
      if !o.Fine? { return; }
      ConfiguredHasFlag(original);
      o := Await();
      if o.Fine? && !s.w.policy { o := Threw; }
    }

    /** The source is recorded only after a read that finds the volume attached to it: `read` is the
        point of the history at which that read was made. */
    method BuildDatabase() returns (o: Outcome, ghost read: nat)
      requires Valid() && !s.r.cleaned && !s.r.source
      modifies this
      ensures Valid() && old(log) <= log
      ensures s.r.(source := old(s.r.source)) == old(s.r)
      ensures o.Fine? ==> s.r.source
      ensures |old(log)| <= read <= |log|
      ensures s.r.source ==> Replay(first, log[..read]).w.volume == OnSource && !Replay(first, log[..read]).r.source
      ensures NodeDrifts(old(s.w), s.w)
      ensures Between(asked, old(asked), [Bind]) && (o.Fine? ==> asked == old(asked) + [Bind])
    {
      hide Inv, Initial, Legal, Replay, Requests, Owners, Configured, PowerDrifts, NodeDrifts;
      o := Await();
      read := |log|;
      ghost var seen := log;
      assert log[..read] == seen;
      if !o.Fine? { return; }
      if s.w.volume != OnSource { return Threw, read; }
      ghost var was := s.w;
      ghost var at;
      o, at := Request(Bind);
      assert log[..read] == seen;
      DriftsTransitive(old(s.w), was, at.w);
    }

    /** A Machine that carries any skip annotation is refused and keeps it. */
    method TakeOwnership() returns (o: Outcome)
      requires Valid() && !s.r.cleaned && s.r.source
      modifies this
      ensures Valid() && old(log) <= log && s.r == old(s.r)
      ensures s.w.manifest == old(s.w.manifest)
      ensures DisableForceDetach in s.w.manifest && old(s.w.policy) ==> s.w.policy
      ensures old(s.w.skip).Some? ==> !o.Fine? && s.w.skip == old(s.w.skip) && asked == old(asked)
      ensures Between(asked, old(asked), [Annotate]) && (o.Fine? ==> asked == old(asked) + [Annotate])
      ensures o.Fine? ==> s.w.skip == Some(s.r.run)
    {
      hide Inv, Initial, Legal, Replay, Requests, Owners, Configured;
      o := Await();
      if !o.Fine? { return; }
      if s.w.skip.Some? { return Threw; }
      ghost var at;
      o, at := Request(Annotate);
    }

    /** The script stops at its first failing line, so any part of the chains may be left behind. */
    method InjectFault() returns (o: Outcome, ghost done: set<Chain>)
      requires Valid() && !s.r.cleaned && s.r.source && !s.r.fenced
      requires DisableForceDetach in s.w.manifest && s.w.policy
      modifies this
      ensures Valid() && old(log) <= log && s.r == old(s.r)
      ensures o.Fine? ==> s.w.owner == Some(s.r.run) && s.w.chains == {ApiChain, DatabaseChain} == done
      ensures Between(asked, old(asked), [Inject(done)]) && (o.Fine? ==> asked == old(asked) + [Inject(done)])
    {
      hide Inv, Initial, Legal, Replay, Requests, Owners, Configured;
      var reached: set<Chain> := *;
      done := reached;
      ghost var at;
      o, at := Request(Inject(reached));
    }

    /** Stop the VM, and record it as fenced only when Nova and then the hypervisor both report it off. */
    method Fence() returns (o: Outcome)
      requires Valid() && !s.r.cleaned && s.r.source && !s.r.fenced && !s.r.restoreStarted
      modifies this
      ensures Valid() && old(log) <= log
      ensures s.r.(fenced := old(s.r.fenced)) == old(s.r)
      ensures s.r.fenced ==> Off(s.w)
      ensures o.Fine? ==> s.r.fenced
      ensures Between(asked, old(asked), [FencingWorld.Stop, WriteFenced])
      ensures o.Fine? ==> asked == old(asked) + [FencingWorld.Stop, WriteFenced]
    {
      hide Inv, Initial, Legal, Replay, Requests, Owners, Configured, NodeDrifts;
      ghost var at;
      o, at := Request(FencingWorld.Stop);
      if !o.Fine? { return; }
      for k := 0 to POLLS
        invariant Valid() && old(log) <= log && s.r == old(s.r)
        invariant asked == old(asked) + [FencingWorld.Stop]
      {
        o := Await();
        if !o.Fine? { return; }
        if s.w.status == Shutoff && s.w.task == Idle {
          o := Await();
          if !o.Fine? { return; }
          if s.w.running { return Threw; }
          o, at := Request(WriteFenced);
          return;
        }
      }
      o := Threw;
    }

    /** Prove the fence again, then add the taint with a patch that tests the version it has read. */
    method MarkOutOfService() returns (o: Outcome, ghost patch: Action)
      requires Valid() && !s.r.cleaned && s.r.source
      modifies this
      ensures Valid() && old(log) <= log && s == old(s).(w := s.w)
      ensures s.w.task == Stopping ==> old(s.w.task) == Stopping
      ensures o.Fine? ==> Off(s.w) && Owners(s.w.taints) == [s.r.run]
      ensures patch.PatchTaint? && Between(asked, old(asked), [patch]) && (o.Fine? ==> asked == old(asked) + [patch])
      ensures s.w.skip == old(s.w.skip)
    {
      hide Inv, Initial, Legal, Replay, Requests, Owners, Configured;
      patch := PatchTaint([], 0);
      o := Await();
      if !o.Fine? { return; }
      if s.w.status != Shutoff || s.w.task != Idle { return Threw, patch; }
      o := Await();
      if !o.Fine? { return; }
      if s.w.running { return Threw, patch; }
      o := Await();
      if !o.Fine? { return; }
      var taints, version := s.w.taints, s.w.version;
      HasOutIffOwners(taints);
      if HasOut(taints) { return Threw, patch; }
      OwnersAppend(taints, s.r.run);
      patch := PatchTaint(taints, version);
      ghost var at;
      o, at := Request(PatchTaint(taints, version));
    }

    method ActivateRecovery() returns (o: Outcome, ghost patch: Action)
      requires Valid() && !s.r.cleaned && s.r.source
      modifies this
      ensures Valid() && old(log) <= log && s.r == old(s.r)
      ensures o.Fine? ==> s.w.volume == OnTarget && Off(s.w)
      ensures patch.PatchTaint? && Between(asked, old(asked), [patch]) && (o.Fine? ==> asked == old(asked) + [patch])
    {
      hide Inv, Initial, Legal, Replay, Requests, Owners, Configured, NodeDrifts;
      o, patch := MarkOutOfService();
      if !o.Fine? { return; }
      o := Await();
      if o.Fine? && s.w.volume != OnTarget { o := Threw; }
    }

    method StartAndConfigure(run: RunId) returns (o: Outcome)
      requires Valid()
      modifies this
      ensures Valid() && old(log) <= log
      ensures !old(s.r.cleaned) ==> o == Threw && s == old(s) && asked == old(asked)
      ensures o.Fine? ==> s.r.(intent := None) == Record(run, false, false, false, None, false)
      ensures o.Fine? ==> DisableForceDetach in s.w.manifest && s.w.policy
      ensures Configured(old(s.w.manifest)) == None ==>
                !o.Fine? && Between(asked, old(asked), [Begin(run), CreateNamespace])
      ensures Configured(old(s.w.manifest)).Some? ==>
                var more := Configurations(run, old(s.w.manifest));
                Between(asked, old(asked), more) && (o.Fine? ==> asked == old(asked) + more)
      ensures s.w.skip == old(s.w.skip)
    {
      hide Inv, Initial, Legal, Replay, Requests, Owners, Configured, PowerDrifts, NodeDrifts;
      ghost var base := asked;
      ghost var c := Configured(s.w.manifest);
      ghost var next := if c.Some? then [SaveManifest, WriteIntent, PutManifest(c.value)] else [];
      o := Start(run);
      BetweenMore(asked, base, [Begin(run), CreateNamespace], next);
      assert c.Some? ==> [Begin(run), CreateNamespace] + next == Configurations(run, old(s.w.manifest));
      if !o.Fine? { return; }
      ghost var now := asked;
      o := ControllerPolicy();
      BetweenAfter(asked, now, base, [Begin(run), CreateNamespace], next);
    }

    /** Everything before the fault. */
    method Prepare(run: RunId) returns (o: Outcome)
      requires Valid()
      modifies this
      ensures Valid() && old(log) <= log
      ensures !old(s.r.cleaned) ==> o == Threw && s == old(s) && asked == old(asked)
      ensures o.Fine? ==> s.r.run == run && !s.r.cleaned && s.r.source && !s.r.fenced && !s.r.restoreStarted
      ensures o.Fine? ==> DisableForceDetach in s.w.manifest && s.w.policy && s.w.skip == Some(run)
      ensures Configured(old(s.w.manifest)) == None ==>
                !o.Fine? && Between(asked, old(asked), [Begin(run), CreateNamespace])
      ensures Configured(old(s.w.manifest)).Some? ==>
                var more := Preparations(run, old(s.w.manifest));
                Between(asked, old(asked), more) && (o.Fine? ==> asked == old(asked) + more)
      // a Machine that another recovery has annotated is left as it is, and no fault follows
      ensures old(s.w.skip).Some? ==> !o.Fine? && s.w.skip == old(s.w.skip)
    {
      hide Inv, Initial, Legal, Replay, Requests, Owners, Configured, PowerDrifts, Configurations;
      ghost var base, m := asked, s.w.manifest;
      o := StartAndConfigure(run);
      if Configured(m).Some? { BetweenMore(asked, base, Configurations(run, m), [Bind, Annotate]); }
      if !o.Fine? { return; }
      ghost var start, now := Configurations(run, m), asked;
      ghost var read;
      o, read := BuildDatabase();
      BetweenAfter(asked, now, base, start, [Bind]);
      BetweenMore(asked, base, start + [Bind], [Annotate]);
      assert start + [Bind] + [Annotate] == start + [Bind, Annotate];
      if !o.Fine? { return; }
      now := asked;
      o := TakeOwnership();
      BetweenAfter(asked, now, base, start + [Bind], [Annotate]);
    }

    /** The fault, the fence and the recovery. */
    method Recover() returns (o: Outcome, ghost done: set<Chain>, ghost patch: Action)
      requires Valid() && !s.r.cleaned && s.r.source && !s.r.fenced && !s.r.restoreStarted
      requires DisableForceDetach in s.w.manifest && s.w.policy
      modifies this
      ensures Valid() && old(log) <= log && s.r.(fenced := old(s.r.fenced)) == old(s.r)
      ensures o.Fine? ==> s.r.fenced && s.w.volume == OnTarget && Off(s.w) && done == {ApiChain, DatabaseChain}
      ensures patch.PatchTaint? && Between(asked, old(asked), Recoveries(done, patch))
      ensures o.Fine? ==> asked == old(asked) + Recoveries(done, patch)
    {
      hide Inv, Initial, Legal, Replay, Requests, Owners, Configured, PowerDrifts, Off;
      ghost var base := asked;
      patch := PatchTaint([], 0);
      o, done := InjectFault();
      BetweenMore(asked, base, [Inject(done)], [FencingWorld.Stop, WriteFenced, patch]);
      if !o.Fine? { return; }
      ghost var now := asked;
      o := Fence();
      BetweenAfter(asked, now, base, [Inject(done)], [FencingWorld.Stop, WriteFenced]);
      BetweenMore(asked, base, [Inject(done), FencingWorld.Stop, WriteFenced], [patch]);
      if !o.Fine? { return; }
      now := asked;
      o, patch := ActivateRecovery();
      BetweenAfter(asked, now, base, [Inject(done), FencingWorld.Stop, WriteFenced], [patch]);
    }

    /** One run, from a cleaned record to a recovered database. It asks for its requests in one order, a run
        that fails for the first few of them, and a run on a Machine that is annotated already for no
        fault and no stop. */
    method Run(run: RunId) returns (o: Outcome, ghost done: set<Chain>, ghost patch: Action)
      requires Valid()
      modifies this
      ensures Valid() && old(log) <= log
      ensures !old(s.r.cleaned) ==> o == Threw && s == old(s) && asked == old(asked)
      ensures o.Fine? ==> s.r.run == run && s.r.fenced && s.w.volume == OnTarget && Off(s.w)
      ensures patch.PatchTaint?
      ensures Configured(old(s.w.manifest)) == None ==>
                !o.Fine? && Between(asked, old(asked), [Begin(run), CreateNamespace])
      ensures Configured(old(s.w.manifest)).Some? ==>
                Between(asked, old(asked), Preparations(run, old(s.w.manifest)) + Recoveries(done, patch))
      ensures o.Fine? ==>
                && Configured(old(s.w.manifest)).Some? && done == {ApiChain, DatabaseChain}
                && asked == old(asked) + (RunUntilStop(run, old(s.w.manifest)) + [WriteFenced, patch])
      ensures old(s.w.skip).Some? ==>
                && !o.Fine? && s.w.skip == old(s.w.skip)
                && forall k :: |old(asked)| <= k < |asked| ==> !asked[k].Inject? && !asked[k].Stop?
    {
      hide Inv, Initial, Legal, Replay, Requests, Owners, Configured, PowerDrifts, Off;
      ghost var base, m := asked, s.w.manifest;
      done, patch := {}, PatchTaint([], 0);
      o := Prepare(run);
      if Configured(m).Some? {
        BetweenMore(asked, base, Preparations(run, m), Recoveries(done, patch));
        NoFaultYet(asked, base, Preparations(run, m));
      } else {
        NoFaultYet(asked, base, [Begin(run), CreateNamespace]);
      }
      if !o.Fine? { return; }
      ghost var now := asked;
      o, done, patch := Recover();
      BetweenAfter(asked, now, base, Preparations(run, m), Recoveries(done, patch));
      if o.Fine? {
        assert Preparations(run, m) + Recoveries(done, patch) == RunUntilStop(run, m) + [WriteFenced, patch];
      }
    }

    // ---- the cleanup ----

    /** Whatever part of the script ran and whatever was answered, it returns only with neither owner file
        nor chains in the guest. */
    method ClearFault() returns (o: Outcome, ghost clear: seq<Action>)
      requires Valid() && !s.r.cleaned && s.r.source
      modifies this
      ensures Valid() && old(log) <= log && s == old(s).(w := s.w)
      ensures ClearsOnly(old(s.w), s.w)
      ensures o.Fine? ==> s.w.owner == None && s.w.chains == {}
      ensures AllClears(clear) && asked == old(asked) + clear
    {
      hide Inv, Initial, Legal, Replay, Requests, ClearsOnly, PowerDrifts, NodeDrifts, Do;
      var keep: set<Chain>, finished := *, *;
      ghost var at;
      o, at := Request(Clear(keep, finished));
      clear := if asked == old(asked) then [] else [Clear(keep, finished)];
      DriftClearsOnly(old(s.w), at.w);
      ClearClearsOnly(at, keep, finished);
      ghost var x := s.w;
      ClearsOnlyTransitive(old(s.w), at.w, x);
      if o == Died { return; }
      if o == Threw {
        o := ReadCleared();
        DriftClearsOnly(x, s.w);
        ClearsOnlyTransitive(old(s.w), x, s.w);
        if !o.Fine? { return; }
      }
      ghost var y := s.w;
      o := ReadCleared();
      DriftClearsOnly(y, s.w);
      ClearsOnlyTransitive(old(s.w), y, s.w);
    }

    /** The guest answers, and has neither owner file nor chains. */
    method ReadCleared() returns (o: Outcome)
      requires Valid()
      modifies this
      ensures Valid() && old(log) <= log && s == old(s).(w := s.w) && Drifts(old(s.w), s.w) && asked == old(asked)
      ensures o.Fine? ==> s.w.owner == None && s.w.chains == {}
    {
      hide Inv, Initial, Legal, Replay, Requests, Drifts;
      o := Await();
      if o.Fine? && (!s.w.running || s.w.owner.Some? || s.w.chains != {}) { o := Threw; }
    }

    /** Before storage may go: an active source gets its network back, a stopped one gets the taint. */
    method ReleaseStorage() returns (o: Outcome, ghost release: seq<Action>)
      requires Valid() && !s.r.cleaned && s.r.source
      modifies this
      ensures Valid() && old(log) <= log && s == old(s).(w := s.w)
      ensures s.w.task == Stopping ==> old(s.w.task) == Stopping
      ensures o.Fine? ==>
          || (s.w.owner == None && s.w.chains == {})
          || Owners(s.w.taints) == [s.r.run]
          || Owners(s.w.taints) == old(Owners(s.w.taints)) != []
      ensures s.w.skip == old(s.w.skip)
      ensures AllClears(release) || (|release| == 1 && release[0].PatchTaint?)
      ensures asked == old(asked) + release
    {
      hide Inv, Initial, Legal, Replay, Requests, Owners, Configured;
      release := [];
      o := Await();
      if !o.Fine? { return; }
      if s.w.status == Active {
        if s.r.fenced && !s.r.restoreStarted {
          FencedMeansOff(s);
          assert false;
        }
        o, release := ClearFault();
        if !o.Fine? { return; }
        o := Await();
      } else {
        o := Await();
        if !o.Fine? { return; }
        HasOutIffOwners(s.w.taints);
        if !HasOut(s.w.taints) {
          ghost var patch;
          o, patch := MarkOutOfService();
          release := if asked == old(asked) then [] else [patch];
        }
      }
    }

    /** Deletion is waited for, and so is the volume's when its name is known. */
    method DeleteStorage() returns (o: Outcome)
      requires Valid() && !s.r.cleaned
      modifies this
      ensures Valid() && old(log) <= log && s == old(s).(w := s.w)
      ensures s.w.task == Stopping ==> old(s.w.task) == Stopping
      ensures o.Fine? ==> s.w.namespace == Gone && (s.r.source ==> s.w.volume == Deleted)
      ensures s.w.skip == old(s.w.skip)
      ensures Between(asked, old(asked), [FencingWorld.DeleteNamespace])
      ensures o.Fine? ==> asked == old(asked) + [FencingWorld.DeleteNamespace]
    {
      hide Inv, Initial, Legal, Replay, Requests, Owners, Configured;
      ghost var at;
      o, at := Request(FencingWorld.DeleteNamespace);
      if !o.Fine? { return; }
      o := Await();
      if !o.Fine? { return; }
      if s.w.namespace != Gone { return Threw; }
      if s.r.source {
        o := Await();
        if o.Fine? && s.w.volume != Deleted { o := Threw; }
      }
    }

    method StartAndWait() returns (o: Outcome)
      requires Valid() && !s.r.cleaned && s.r.source && s.r.restoreStarted && s.w.task != Stopping
      requires s.w.volume == Deleted && s.w.namespace == Gone
      modifies this
      ensures Valid() && old(log) <= log && s == old(s).(w := s.w)
      ensures s.w.volume == Deleted && s.w.namespace == Gone && s.w.task != Stopping
      ensures o.Fine? ==> Up(s.w)
      ensures s.w.skip == old(s.w.skip)
      ensures Between(asked, old(asked), [FencingWorld.Start])
      ensures o.Fine? ==> asked == old(asked) + [FencingWorld.Start]
    {
      hide Inv, Initial, Legal, Replay, Requests, Owners, Configured, Off;
      ghost var at;
      o, at := Request(FencingWorld.Start);
      if !o.Fine? { return; }
      o := Await();
      if !o.Fine? { return; }
      StartingMeansShutoff(s);
      if s.w.status != Active { o := Threw; }
    }

    /** The record says that the restore has started before the start is requested. */
    method PowerUp() returns (o: Outcome)
      requires Valid() && !s.r.cleaned && s.r.source && s.w.volume == Deleted && s.w.namespace == Gone
          && s.w.task != Stopping
      modifies this
      ensures Valid() && old(log) <= log && s == old(s).(w := s.w, r := s.r)
          && s.r.(restoreStarted := old(s.r.restoreStarted)) == old(s.r)
      ensures s.w.volume == Deleted && s.w.namespace == Gone && s.w.task != Stopping
      ensures o.Fine? ==> Up(s.w)
      ensures s.w.skip == old(s.w.skip)
      ensures Between(asked, old(asked), [FencingWorld.Cordon, WriteRestore, FencingWorld.Start])
      ensures o.Fine? ==> asked == old(asked) + [FencingWorld.Cordon, WriteRestore, FencingWorld.Start]
    {
      hide Inv, Initial, Legal, Replay, Requests, Owners, Configured, Off, Up;
      o := CordonAndRecord();
      if !o.Fine? { return; }
      o := StartAndWait();
    }

    method CordonAndRecord() returns (o: Outcome)
      requires Valid() && !s.r.cleaned && s.r.source && s.w.volume == Deleted && s.w.namespace == Gone
          && s.w.task != Stopping
      modifies this
      ensures Valid() && old(log) <= log && s == old(s).(w := s.w, r := s.r)
          && s.r.(restoreStarted := old(s.r.restoreStarted)) == old(s.r)
      ensures s.w.volume == Deleted && s.w.namespace == Gone && s.w.task != Stopping
      ensures o.Fine? ==> s.r.restoreStarted
      ensures s.w.skip == old(s.w.skip)
      ensures Between(asked, old(asked), [FencingWorld.Cordon, WriteRestore])
      ensures o.Fine? ==> asked == old(asked) + [FencingWorld.Cordon, WriteRestore]
    {
      hide Inv, Initial, Legal, Replay, Requests, Owners, Configured, Off, Up;
      ghost var at;
      o, at := Request(FencingWorld.Cordon);
      if !o.Fine? { return; }
      o, at := Request(WriteRestore);
    }

    /** Start a source that Nova reports as shut off. `decision` is the point of the history at which
        the status is read; an ACTIVE status with a stop in flight starts nothing, and the stop is
        still to come. */
    method StartSource() returns (o: Outcome, ghost decision: nat, ghost power: seq<Action>)
      requires Valid() && !s.r.cleaned && s.r.source && s.w.volume == Deleted && s.w.namespace == Gone
      modifies this
      ensures Valid() && old(log) <= log && s == old(s).(w := s.w, r := s.r)
          && s.r.(restoreStarted := old(s.r.restoreStarted)) == old(s.r)
      ensures s.w.volume == Deleted && s.w.namespace == Gone
      ensures |old(log)| <= decision <= |log|
      ensures StopPending(Replay(first, log[..decision]).w) ==> old(s.w.task) == Stopping
      ensures o.Fine? && !StopPending(Replay(first, log[..decision]).w) ==> Up(s.w)
      ensures o.Fine? && StopPending(Replay(first, log[..decision]).w) ==> GoingDown(s.w)
      ensures s.w.skip == old(s.w.skip)
      ensures power == [] || power == [FencingWorld.Cordon, WriteRestore, FencingWorld.Start]
      ensures Between(asked, old(asked), power) && (o.Fine? ==> asked == old(asked) + power)
      // a restart follows exactly a status that reads as shut off
      ensures o.Fine? ==> (power == [] <==> Replay(first, log[..decision]).w.status == Active)
    {
      hide Inv, Initial, Legal, Replay, Requests, Owners, Configured, Off;
      power := [];
      decision := |log|;
      assert log[..decision] == log;
      o := Await();
      assert log[..decision] == old(log);
      if !o.Fine? { return; }
      StartingMeansShutoff(s);
      ghost var read := log;
      decision := |log|;
      assert log[..decision] == read;
      if s.w.status == Shutoff {
        power := [FencingWorld.Cordon, WriteRestore, FencingWorld.Start];
        o := PowerUp();
        assert log[..decision] == read;
      }
    }

    method RemoveTaint() returns (o: Outcome, ghost untaint: seq<Action>)
      requires Valid() && !s.r.cleaned && s.r.source && s.w.volume == Deleted && s.w.task != Starting
      modifies this
      ensures Valid() && old(log) <= log && s == old(s).(w := s.w)
      ensures PowerDrifts(old(s.w), s.w)
      ensures s.w.skip == old(s.w.skip) && (old(s.w.owner) == None && old(s.w.chains) == {} ==>
          s.w.owner == None && s.w.chains == {})
      ensures o.Fine? ==> Owners(s.w.taints) == []
      ensures (untaint == [] || untaint == [FencingWorld.Untaint]) && Between(asked, old(asked), untaint)
      ensures o.Fine? ==> asked == old(asked) + untaint
    {
      hide Inv, Initial, Legal, Replay, Requests, Owners, Others, Configured;
      untaint := [];
      o := Await();
      if !o.Fine? { return; }
      HasOutIffOwners(s.w.taints);
      if HasOut(s.w.taints) {
        untaint := [FencingWorld.Untaint];
        ghost var at;
        o, at := Request(FencingWorld.Untaint);
        RemoveOutExact(at.w.taints);
      }
    }

    method ReleaseNode() returns (o: Outcome, ghost untaint: seq<Action>)
      requires Valid() && !s.r.cleaned && s.r.source && s.w.volume == Deleted && s.w.task != Starting
      modifies this
      ensures Valid() && old(log) <= log && s == old(s).(w := s.w)
      ensures PowerDrifts(old(s.w), s.w)
      ensures s.w.skip == old(s.w.skip) && (old(s.w.owner) == None && old(s.w.chains) == {} ==>
          s.w.owner == None && s.w.chains == {})
      ensures o.Fine? ==> Owners(s.w.taints) == [] && !s.w.cordoned
      ensures (untaint == [] || untaint == [FencingWorld.Untaint])
      ensures Between(asked, old(asked), untaint + [FencingWorld.Uncordon])
      ensures o.Fine? ==> asked == old(asked) + (untaint + [FencingWorld.Uncordon])
    {
      hide Inv, Initial, Legal, Replay, Requests, Owners, Configured;
      o, untaint := RemoveTaint();
      BetweenMore(asked, old(asked), untaint, [FencingWorld.Uncordon]);
      if !o.Fine? { return; }
      ghost var now := asked;
      o := Await();
      if !o.Fine? { return; }
      ghost var at;
      o, at := Request(FencingWorld.Uncordon);
      BetweenAfter(asked, now, old(asked), untaint, [FencingWorld.Uncordon]);
    }

    method ReleaseMachine() returns (o: Outcome)
      requires Valid() && !s.r.cleaned && s.r.source
      modifies this
      ensures Valid() && old(log) <= log && s == old(s).(w := s.w)
      ensures PowerDrifts(old(s.w), s.w)
      ensures Owners(s.w.taints) == Owners(old(s.w.taints)) && s.w.cordoned == old(s.w.cordoned)
      ensures old(s.w.owner) == None && old(s.w.chains) == {} ==> s.w.owner == None && s.w.chains == {}
      ensures o.Fine? ==> s.w.skip == None
      ensures old(s.w.skip) != None && old(s.w.skip) != Some(s.r.run) ==> s.w.skip == old(s.w.skip)
      ensures var unannotate := if old(s.w.skip) == Some(s.r.run) then [FencingWorld.Unannotate] else [];
              Between(asked, old(asked), unannotate) && (o.Fine? ==> asked == old(asked) + unannotate)
    {
      hide Inv, Initial, Legal, Replay, Requests, Owners, Configured;
      o := Await();
      if !o.Fine? { return; }
      if s.w.skip == Some(s.r.run) {
        ghost var at;
        o, at := Request(FencingWorld.Unannotate);
      } else if s.w.skip.Some? {
        o := Threw;
      }
    }

    /** Remove what the run put on the source VM, its node and its Machine; only its own. */
    method RestoreSource() returns (o: Outcome, ghost again: seq<Action>, ghost untaint: seq<Action>)
      requires Valid() && !s.r.cleaned && s.r.source && s.w.volume == Deleted && s.w.namespace == Gone
          && s.w.task != Starting
      modifies this
      ensures Valid() && old(log) <= log && s == old(s).(w := s.w)
      ensures PowerDrifts(old(s.w), s.w)
      ensures o.Fine? ==> Owners(s.w.taints) == [] && s.w.owner == None && s.w.chains == {}
      ensures o.Fine? ==> !s.w.cordoned && s.w.skip == None
      ensures AllClears(again) && (untaint == [] || untaint == [FencingWorld.Untaint])
      ensures var unannotate := if old(s.w.skip) == Some(s.r.run) then [FencingWorld.Unannotate] else [];
              var more := again + (untaint + [FencingWorld.Uncordon]) + unannotate;
              Between(asked, old(asked), more) && (o.Fine? ==> asked == old(asked) + more)
    {
      hide Inv, Initial, Legal, Replay, Requests, Owners, Configured, Off, Up, AllClears;
      ghost var base := asked;
      ghost var unannotate := if s.w.skip == Some(s.r.run) then [FencingWorld.Unannotate] else [];
      untaint := [];
      o, again := ClearFault();
      BetweenMore(asked, base, again, untaint + [FencingWorld.Uncordon]);
      BetweenMore(asked, base, again + (untaint + [FencingWorld.Uncordon]), unannotate);
      if !o.Fine? { return; }
      ghost var now := asked;
      o, untaint := ReleaseNode();
      BetweenAfter(asked, now, base, again, untaint + [FencingWorld.Uncordon]);
      BetweenMore(asked, base, again + (untaint + [FencingWorld.Uncordon]), unannotate);
      if !o.Fine? { return; }
      now := asked;
      o := ReleaseMachine();
      BetweenAfter(asked, now, base, again + (untaint + [FencingWorld.Uncordon]), unannotate);
    }

    /** Put back the saved manifest if the current one is known, and read it back. */
    method RestoreManifest() returns (o: Outcome)
      requires Valid() && !s.r.cleaned && s.w.owner == None && s.w.chains == {}
      modifies this
      ensures Valid() && old(log) <= log && s == old(s).(w := s.w)
      ensures PowerDrifts(old(s.w), s.w)
      ensures Owners(s.w.taints) == Owners(old(s.w.taints)) && s.w.owner == None && s.w.chains == {}
      ensures s.w.cordoned == old(s.w.cordoned) && s.w.skip == old(s.w.skip)
      ensures o.Fine? ==> s.w.manifest == s.original
      ensures o.Fine? && s.r.intent.Some? ==> (s.w.policy <==> DisableForceDetach in s.original)
      ensures var manifest := if s.r.intent.Some? then [PutManifest(s.original)] else [];
              Between(asked, old(asked), manifest) && (o.Fine? ==> asked == old(asked) + manifest)
    {
      hide Inv, Initial, Legal, Replay, Requests, Owners, Configured;
      ManifestFacts(s);
      if s.r.intent == None { return Fine; }
      o := Await();
      if !o.Fine? { return; }
      if s.w.manifest != s.r.intent.value && Some(s.w.manifest) != Configured(s.r.intent.value) { return Threw; }
      ghost var at;
      o, at := Request(PutManifest(s.file.value));
      if !o.Fine? { return; }
      o := Await();
      if !o.Fine? { return; }
      if s.w.policy != (DisableForceDetach in s.file.value) { return Threw; }
      if s.w.manifest != s.r.intent.value { o := Threw; }
    }

    /** Re-entrant from any crash point. When it returns, no taint, fault or skip annotation of the run
        is left, the node is uncordoned and the manifest is the original. The source VM is up exactly
        when no stop request was in flight behind an ACTIVE status at the restart decision, which
        needs one in flight when the cleanup began. It asks for its requests in one order, and one that
        fails for the first few of them. */
    method Cleanup() returns (o: Outcome, ghost decision: nat, ghost parts: Parts)
      requires Valid()
      modifies this
      ensures Valid() && old(log) <= log
      ensures old(s.r.cleaned) ==> o.Fine? && s == old(s) && asked == old(asked)
      ensures o.Fine? ==>
        && s.r.cleaned && Owners(s.w.taints) == [] && s.w.owner == None && s.w.chains == {}
        && !s.w.cordoned && s.w.manifest == s.original && s.w.namespace == Gone
        && (s.r.source ==> s.w.skip == None && s.w.volume == Deleted)
      ensures o.Fine? && s.r.intent.Some? && !old(s.r.cleaned) ==> (s.w.policy <==> DisableForceDetach in s.original)
      ensures |old(log)| <= decision <= |log|
      ensures StopPending(Replay(first, log[..decision]).w) ==> old(s.w.task) == Stopping
      ensures o.Fine? && s.r.source && !old(s.r.cleaned) ==>
          (Up(s.w) <==> !StopPending(Replay(first, log[..decision]).w))
      ensures !old(s.r.cleaned) ==>
        && PartsOf(parts, old(s.r), old(s.w.skip), old(s.original))
        && Between(asked, old(asked), CleanupRequests(parts, old(s.r.source)))
      ensures o.Fine? && !old(s.r.cleaned) ==>
        && asked == old(asked) + CleanupRequests(parts, old(s.r.source))
        && (old(s.r.source) ==> (parts.power == [] <==> Replay(first, log[..decision]).w.status == Active))
    {
      hide Inv, Initial, Legal, Replay, Requests, Owners, Configured, NodeDrifts, CleanupRest;
      hide Off, Up, GoingDown, StopPending;
      ghost var base := asked;
      decision := |log|;
      assert log[..decision] == log;
      StopPendingFacts(s.w);
      parts := NoParts(s.r, s.w.skip, s.original);
      if s.r.cleaned {
        CleanedFacts(s);
        return Fine, decision, parts;
      }
      ghost var release;
      o, release := ReleaseAndDelete();
      assert log[..decision] == old(log);
      parts := parts.(release := release);
      BetweenMore(asked, base, release + [FencingWorld.DeleteNamespace], parts.power + CleanupRest(parts, s.r.source));
      if !o.Fine? { return; }
      ghost var now := asked;
      ghost var power := [];
      if s.r.source {
        o, decision, power := StartSource();
        parts := parts.(power := power);
        BetweenMore(asked, now, power, CleanupRest(parts, s.r.source));
        BetweenAfter(asked, now, base, release + [FencingWorld.DeleteNamespace],
                     power + CleanupRest(parts, s.r.source));
        if !o.Fine? { return; }
        PowerFacts(s.w);
      } else {
        NoSourceNoFault(s);
        assert now + power == now;
      }
      ghost var read, middle := log[..decision], asked;
      ghost var again, untaint;
      o, again, untaint := RestoreAll(parts);
      parts := parts.(again := again, untaint := untaint);
      BetweenAfter(asked, middle, now, power, CleanupRest(parts, old(s.r.source)));
      BetweenAfter(asked, now, base, release + [FencingWorld.DeleteNamespace],
                   power + CleanupRest(parts, old(s.r.source)));
      assert log[..decision] == read;
    }

    /** Everything after the restart decision. */
    method RestoreAll(ghost p: Parts) returns (o: Outcome, ghost again: seq<Action>, ghost untaint: seq<Action>)
      requires Valid() && !s.r.cleaned && s.w.namespace == Gone && s.w.task != Starting
      requires s.r.source ==> s.w.volume == Deleted
      requires PartsOf(p, s.r, s.w.skip, s.original)
      modifies this
      ensures Valid() && old(log) <= log
      ensures Up(old(s.w)) ==> Up(s.w)
      ensures GoingDown(old(s.w)) ==> !Up(s.w)
      ensures o.Fine? ==>
        && s.r == old(s.r).(cleaned := true) && Owners(s.w.taints) == [] && s.w.owner == None && s.w.chains == {}
        && !s.w.cordoned && s.w.manifest == s.original && s.w.namespace == Gone
        && (s.r.source ==> s.w.skip == None && s.w.volume == Deleted)
      ensures o.Fine? && s.r.intent.Some? ==> (s.w.policy <==> DisableForceDetach in s.original)
      ensures s.original == old(s.original)
      ensures AllClears(again) && (untaint == [] || untaint == [FencingWorld.Untaint])
      ensures !old(s.r.source) ==> again == [] && untaint == []
      ensures var rest := CleanupRest(p.(again := again, untaint := untaint), old(s.r.source));
              Between(asked, old(asked), rest) && (o.Fine? ==> asked == old(asked) + rest)
    {
      hide Inv, Initial, Legal, Replay, Requests, Owners, Configured, NodeDrifts, Off, Up, GoingDown;
      ghost var base := asked;
      again, untaint := [], [];
      ghost var restored: seq<Action> := [];
      if s.r.source {
        o, again, untaint := RestoreSource();
        restored := SourceRequests(p.(again := again, untaint := untaint), true);
        BetweenMore(asked, base, restored, p.manifest + [WriteCleaned]);
        GoingDownStays(old(s.w), s.w);
        if !o.Fine? { return; }
      } else {
        NoSourceNoFault(s);
        assert SourceRequests(p.(again := again, untaint := untaint), false) == [] + ([] + []) + [];
        assert base + [] == base;
      }
      ghost var now := asked;
      o := CloseRecord(p.manifest);
      BetweenAfter(asked, now, base, restored, p.manifest + [WriteCleaned]);
    }

    /** The manifest goes back, and the record is closed. */
    method CloseRecord(ghost manifest: seq<Action>) returns (o: Outcome)
      requires Valid() && !s.r.cleaned && s.w.namespace == Gone && s.w.task != Starting
      requires Owners(s.w.taints) == [] && s.w.owner == None && s.w.chains == {} && !s.w.cordoned
      requires s.r.source ==> s.w.skip == None && s.w.volume == Deleted
      requires manifest == if s.r.intent.Some? then [PutManifest(s.original)] else []
      modifies this
      ensures Valid() && old(log) <= log
      ensures Up(old(s.w)) ==> Up(s.w)
      ensures GoingDown(old(s.w)) ==> !Up(s.w)
      ensures o.Fine? ==>
        && s.r == old(s.r).(cleaned := true) && Owners(s.w.taints) == [] && s.w.owner == None && s.w.chains == {}
        && !s.w.cordoned && s.w.manifest == s.original && s.w.namespace == Gone
        && (s.r.source ==> s.w.skip == None && s.w.volume == Deleted)
      ensures o.Fine? && s.r.intent.Some? ==> (s.w.policy <==> DisableForceDetach in s.original)
      ensures s.original == old(s.original)
      ensures Between(asked, old(asked), manifest + [WriteCleaned])
      ensures o.Fine? ==> asked == old(asked) + (manifest + [WriteCleaned])
    {
      hide Inv, Initial, Legal, Replay, Requests, Owners, Configured, NodeDrifts, Off, Up, GoingDown;
      ghost var base, was := asked, s.w;
      o := RestoreManifest();
      BetweenMore(asked, base, manifest, [WriteCleaned]);
      GoingDownStays(was, s.w);
      if !o.Fine? { return; }
      ghost var restored, now := s.w, asked;
      o := FinishCleanup();
      BetweenAfter(asked, now, base, manifest, [WriteCleaned]);
      GoingDownStays(restored, s.w);
    }

    method ReleaseAndDelete() returns (o: Outcome, ghost release: seq<Action>)
      requires Valid() && !s.r.cleaned
      modifies this
      ensures Valid() && old(log) <= log && s == old(s).(w := s.w)
      ensures s.w.task == Stopping ==> old(s.w.task) == Stopping
      ensures o.Fine? ==> s.w.namespace == Gone && (s.r.source ==> s.w.volume == Deleted)
      ensures s.w.skip == old(s.w.skip)
      ensures AllClears(release) || (|release| == 1 && release[0].PatchTaint?)
      ensures !s.r.source ==> release == []
      ensures Between(asked, old(asked), release + [FencingWorld.DeleteNamespace])
      ensures o.Fine? ==> asked == old(asked) + (release + [FencingWorld.DeleteNamespace])
    {
      hide Inv, Initial, Legal, Replay, Requests, Owners, Configured;
      release := [];
      o := Await();
      if !o.Fine? { return; }
      if s.r.source {
        o, release := ReleaseStorage();
        BetweenMore(asked, old(asked), release, [FencingWorld.DeleteNamespace]);
        if !o.Fine? { return; }
      }
      ghost var now := asked;
      o := DeleteStorage();
      BetweenAfter(asked, now, old(asked), release, [FencingWorld.DeleteNamespace]);
    }

    /** Workers are restored, and the record is closed. */
    method FinishCleanup() returns (o: Outcome)
      requires Valid() && !s.r.cleaned
      requires Owners(s.w.taints) == [] && s.w.owner == None && s.w.chains == {} && !s.w.cordoned
      requires s.w.manifest == s.original && s.w.namespace == Gone && s.w.task != Starting
      requires s.r.source ==> s.w.skip == None && s.w.volume == Deleted
      modifies this
      ensures Valid() && old(log) <= log
      ensures PowerDrifts(old(s.w), s.w)
      ensures s.original == old(s.original) && (o.Fine? ==> s.r == old(s.r).(cleaned := true) && CleanedUp(s))
      ensures (old(s.w.policy) <==> DisableForceDetach in s.original) ==> s.w.policy == old(s.w.policy)
      ensures Between(asked, old(asked), [WriteCleaned]) && (o.Fine? ==> asked == old(asked) + [WriteCleaned])
    {
      hide Inv, Initial, Legal, Replay, Requests, Owners, Configured;
      o := Await();
      if !o.Fine? { return; }
      ghost var at;
      o, at := Request(WriteCleaned);
    }

    /** Any sequence of runs and cleanups, each of which may fail or die anywhere: in every state the
        cloud passes through, the source VM is not running while the target has the volume. */
    method Operate(calls: seq<Call>)
      requires Valid()
      modifies this
      ensures Valid() && old(log) <= log
      ensures forall n :: 0 <= n <= |log| ==> SingleWriter(Replay(first, log[..n]).w)
    {
      hide Inv, Initial, Legal, Replay, Requests, SingleWriter;
      for k := 0 to |calls|
        invariant Valid() && old(log) <= log
      {
        var o;
        match calls[k] {
          case RunOnce(run) => ghost var done, patch; o, done, patch := Run(run);
          case CleanUp => ghost var decision, parts; o, decision, parts := Cleanup();
        }
      }
      forall n | 0 <= n <= |log| ensures SingleWriter(Replay(first, log[..n]).w) {
        InitialInv(first);
        EveryPrefixInv(first, log, n);
        InvMeansSingleWriter(Replay(first, log[..n]));
      }
    }
  }

  lemma InvMeansSingleWriter(s: State)
    requires Inv(s)
    ensures SingleWriter(s.w)
  {
    hide PowerCoherent, MoveGuarded, RecordGuarded, Recorded, CleanedUp;
  }
}
