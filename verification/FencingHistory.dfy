/** Histories of the S3 recovery: any interleaving of environment steps and permitted requests, cut
    anywhere by a crash. Every state of every history has a single writer. */
module FencingHistory {
  import opened Options
  import opened FencingWorld

  // ---- the run's requests keep the invariant ----

  lemma RecordWritesKeepInv(s: State, a: Action)
    requires Inv(s) && Permitted(s, a)
    requires a.Begin? || a.SaveManifest? || a.WriteIntent? || a.Bind? || a.WriteFenced? || a.WriteRestore?
      || a.WriteCleaned?
    ensures Inv(Do(s, a))
  {
    hide Owners, Others, AddFlag, Configured;
  }

  lemma PowerRequestsKeepInv(s: State, a: Action)
    requires Inv(s) && Permitted(s, a)
    requires a.Stop? || a.Start? || a.CreateNamespace? || a.DeleteNamespace?
    ensures Inv(Do(s, a))
  {
    hide Owners, Others, AddFlag, Configured;
  }

  lemma InjectionKeepsInv(s: State, a: Action)
    requires Inv(s) && Permitted(s, a) && a.Inject?
    ensures Inv(Do(s, a))
  {
    hide Owners, AddFlag, Configured;
  }

  lemma ClearingKeepsInv(s: State, a: Action)
    requires Inv(s) && Permitted(s, a) && a.Clear?
    ensures Inv(Do(s, a))
  {
    hide Owners, AddFlag, Configured;
  }

  lemma ManifestsKeepInv(s: State, a: Action)
    requires Inv(s) && Permitted(s, a) && a.PutManifest?
    ensures Inv(Do(s, a))
  {
    hide Owners, AddFlag, Configured;
  }

  lemma NodeRequestsKeepInv(s: State, a: Action)
    requires Inv(s) && Permitted(s, a)
    requires a.PatchTaint? || a.Untaint? || a.Cordon? || a.Uncordon? || a.Annotate? || a.Unannotate?
    ensures Inv(Do(s, a))
  {
    hide Owners, Others, AddFlag, Configured;
    if a.PatchTaint? { OwnersAppend(a.read, s.r.run); }
    RemoveOutExact(s.w.taints);
  }

  lemma DoKeepsInv(s: State, a: Action)
    requires Inv(s) && Permitted(s, a)
    ensures Inv(Do(s, a))
  {
    hide Inv, Permitted, Do;
    match a {
      case Stop => PowerRequestsKeepInv(s, a);
      case Start => PowerRequestsKeepInv(s, a);
      case CreateNamespace => PowerRequestsKeepInv(s, a);
      case DeleteNamespace => PowerRequestsKeepInv(s, a);
      case Inject(_) => InjectionKeepsInv(s, a);
      case Clear(_, _) => ClearingKeepsInv(s, a);
      case PutManifest(_) => ManifestsKeepInv(s, a);
      case PatchTaint(_, _) => NodeRequestsKeepInv(s, a);
      case Untaint => NodeRequestsKeepInv(s, a);
      case Cordon => NodeRequestsKeepInv(s, a);
      case Uncordon => NodeRequestsKeepInv(s, a);
      case Annotate => NodeRequestsKeepInv(s, a);
      case Unannotate => NodeRequestsKeepInv(s, a);
      case _ => RecordWritesKeepInv(s, a);
    }
  }

  /** A check made before a request still holds when the request lands: no environment step in
      between withdraws a permission. */
  lemma PermissionSurvivesDrift(s: State, x: World, a: Action)
    requires Permitted(s, a) && Drifts(s.w, x)
    ensures Permitted(s.(w := x), a)
  {
    hide Owners, AddFlag, Configured;
  }

  /** No request touches a taint of another actor. */
  lemma RequestsKeepOtherTaints(s: State, a: Action)
    requires Permitted(s, a)
    ensures Others(Do(s, a).w.taints) == Others(s.w.taints)
  {
    hide Owners, Others, AddFlag, Configured;
    if a.PatchTaint? { OwnersAppend(a.read, s.r.run); }
    RemoveOutExact(s.w.taints);
  }

  // ---- histories ----

  datatype Event = Env(step: EnvAction) | Act(action: Action)

  function After(s: State, e: Event): State {
    match e case Env(a) => s.(w := Apply(s.w, a)) case Act(a) => Do(s, a)
  }

  function Replay(s: State, log: seq<Event>): State {
    if log == [] then s else After(Replay(s, log[..|log| - 1]), log[|log| - 1])
  }

  ghost predicate Legal(s: State, log: seq<Event>) {
    forall n :: 0 <= n < |log| && log[n].Act? ==> Permitted(Replay(s, log[..n]), log[n].action)
  }

  /** Before the first run: nothing of the experiment exists and the VM is up. */
  ghost predicate Initial(s: State) {
    && Up(s.w) && !s.w.mounted && s.w.volume == Absent && s.w.namespace == Gone && !s.w.cordoned
    && Owners(s.w.taints) == [] && s.w.owner == None && s.w.chains == {} && s.w.manifest == s.original
    && s.r.cleaned && !s.r.source && !s.r.fenced && !s.r.restoreStarted && s.r.intent == None
  }

  lemma ReplayStep(s: State, log: seq<Event>, n: nat)
    requires n < |log|
    ensures Replay(s, log[..n + 1]) == After(Replay(s, log[..n]), log[n])
  {
    assert log[..n + 1][..n] == log[..n];
  }

  lemma LegalExtend(s: State, log: seq<Event>, e: Event)
    requires Legal(s, log) && (e.Act? ==> Permitted(Replay(s, log), e.action))
    ensures Legal(s, log + [e]) && Replay(s, log + [e]) == After(Replay(s, log), e)
  {
    hide Permitted, After, Replay;
    var more := log + [e];
    assert more[..|log|] == log;
    assert more[..|log| + 1] == more;
    ReplayStep(s, more, |log|);
    forall n | 0 <= n < |more| && more[n].Act? ensures Permitted(Replay(s, more[..n]), more[n].action) {
      if n < |log| { assert more[..n] == log[..n]; }
    }
  }

  lemma InitialInv(s: State)
    requires Initial(s)
    ensures Inv(s)
  {}

  lemma {:induction false} EveryPrefixInv(s: State, log: seq<Event>, n: nat)
    requires Inv(s) && Legal(s, log) && n <= |log|
    ensures Inv(Replay(s, log[..n]))
  {
    hide Inv, Permitted, Do, Apply;
    if n == 0 {
      assert log[..0] == [];
    } else {
      EveryPrefixInv(s, log, n - 1);
      ReplayStep(s, log, n - 1);
      var before := Replay(s, log[..n - 1]);
      match log[n - 1] {
        case Env(a) => EnvKeepsInv(before, a);
        case Act(a) => DoKeepsInv(before, a);
      }
    }
  }

  /** Single writer, in every state of every history of runs, cleanups and crashes: the source VM
      never runs while the volume is attached to the target, and the old database never writes
      except on a running source that still has the volume. */
  lemma SingleWriterAlways(s: State, log: seq<Event>, n: nat)
    requires Initial(s) && Legal(s, log) && n <= |log|
    ensures var w := Replay(s, log[..n]).w;
      !(w.running && w.volume == OnTarget) && (w.mounted ==> w.running && w.volume == OnSource)
  {
    hide Legal, Replay;
    InitialInv(s);
    EveryPrefixInv(s, log, n);
  }

  lemma RequestsGiveNoPower(s: State, a: Action)
    ensures Do(s, a).w.running == s.w.running
  {
    hide Owners, Others;
  }

  lemma PowerNeedsStart(w: World, a: EnvAction)
    ensures Apply(w, a).running && !w.running ==> w.task == Starting
  {
    hide Owners;
  }

  lemma StartingMeansDeleted(s: State)
    requires Inv(s) && s.w.task == Starting
    ensures s.w.volume == Deleted && s.w.namespace == Gone
  {
    hide SingleWriter, MoveGuarded, Recorded, CleanedUp;
  }

  /** The source VM gains power only at a point where the namespace and the volume are gone. */
  lemma PowerReturnsOnlyAfterDeletion(s: State, log: seq<Event>, n: nat)
    requires Initial(s) && Legal(s, log) && n < |log|
    requires !Replay(s, log[..n]).w.running && Replay(s, log[..n + 1]).w.running
    ensures Replay(s, log[..n]).w.volume == Deleted && Replay(s, log[..n]).w.namespace == Gone
  {
    hide Legal, Replay, Inv, Apply, Do;
    InitialInv(s);
    EveryPrefixInv(s, log, n);
    ReplayStep(s, log, n);
    var before := Replay(s, log[..n]);
    match log[n] {
      case Env(a) => PowerNeedsStart(before.w, a); StartingMeansDeleted(before);
      case Act(a) => RequestsGiveNoPower(before, a);
    }
  }

  /** Once the record says fenced, the VM stays off in every state until the record says that its
      restore has started; the storage can therefore leave by the taint alone. */
  lemma FencedStaysOff(s: State, log: seq<Event>, n: nat)
    requires Initial(s) && Legal(s, log) && n <= |log|
    requires Replay(s, log[..n]).r.fenced && Replay(s, log[..n]).w.volume != Deleted
    ensures Off(Replay(s, log[..n]).w)
  {
    hide Legal, Replay, Owners;
    InitialInv(s);
    EveryPrefixInv(s, log, n);
  }

  /** The cleanup's refusal of a fenced VM found running is unreachable: no state of any history has a
      recorded fence, no restore under way, and a VM that Nova reports as active. */
  lemma FencedIsNeverActive(s: State, log: seq<Event>, n: nat)
    requires Initial(s) && Legal(s, log) && n <= |log|
    ensures var x := Replay(s, log[..n]); !(x.w.status == Active && x.r.fenced && !x.r.restoreStarted)
  {
    hide Legal, Replay, Owners;
    InitialInv(s);
    EveryPrefixInv(s, log, n);
  }

  /** So is its refusal of an unknown manifest, when only the run changes the manifest. */
  lemma ManifestIsKnown(s: State, log: seq<Event>, n: nat)
    requires Initial(s) && Legal(s, log) && n <= |log|
    ensures var x := Replay(s, log[..n]);
      x.r.intent.Some? ==> x.w.manifest == x.r.intent.value || Configured(x.r.intent.value) == Some(x.w.manifest)
  {
    hide Legal, Replay, Owners;
    InitialInv(s);
    EveryPrefixInv(s, log, n);
  }

  lemma {:induction false} OriginalIsConstant(s: State, log: seq<Event>)
    ensures Replay(s, log).original == s.original
  {
    hide Apply;
    if log != [] { OriginalIsConstant(s, log[..|log| - 1]); }
  }

  /** However many runs, cleanups and crashes came before, a record that says cleaned finds no trace
      of any run, and the manifest is the one from before the first. */
  lemma CleanedMeansClean(s: State, log: seq<Event>, n: nat)
    requires Initial(s) && Legal(s, log) && n <= |log|
    requires Replay(s, log[..n]).r.cleaned
    ensures var x := Replay(s, log[..n]);
      && Owners(x.w.taints) == [] && x.w.owner == None && x.w.chains == {} && !x.w.cordoned
      && x.w.manifest == s.original
      && (x.r.source ==> x.w.skip == None && x.w.volume == Deleted)
  {
    hide Legal, Replay, Owners;
    InitialInv(s);
    EveryPrefixInv(s, log, n);
    OriginalIsConstant(s, log[..n]);
  }

  /** The one thing `cleaned` does not say: with a stop request still in flight, two steps of the
      cloud leave the record cleaned and the source VM off for good. */
  lemma StopInFlightOutlivesCleanup(s: State)
    requires Inv(s) && s.r.cleaned && s.w.task == Stopping
    ensures var w := Apply(Apply(s.w, PowerOff), StopDone);
      Off(w) && Inv(s.(w := w)) && s.(w := w).r.cleaned && (forall a :: !Apply(w, a).running)
  {
    hide SingleWriter, PowerCoherent, MoveGuarded, RecordGuarded, Recorded, CleanedUp, Owners;
    EnvKeepsInv(s, PowerOff);
    EnvKeepsInv(s.(w := Apply(s.w, PowerOff)), StopDone);
  }

  // ---- a history that misses a stop ----

  /** A run that died right after its stop request was accepted. */
  ghost predicate DiedStopping(s: State) {
    var w, r := s.w, s.r;
    && Inv(s) && !r.cleaned && r.source && !r.fenced && r.intent.Some?
    && w.running && w.status == Active && w.task == Stopping
    && w.volume == OnSource && w.namespace == Present && Owners(w.taints) == []
    && w.owner == Some(r.run) && w.skip == Some(r.run)
  }

  /** Is `now` what `before` was, with all or the first few of `more` after it? */
  predicate Between<T(==)>(now: seq<T>, before: seq<T>, more: seq<T>) {
    before <= now <= before + more
  }

  lemma BetweenMore<T>(now: seq<T>, before: seq<T>, a: seq<T>, b: seq<T>)
    requires Between(now, before, a)
    ensures Between(now, before, a + b)
  {
    assert before + (a + b) == before + a + b;
  }

  lemma BetweenAfter<T>(now: seq<T>, middle: seq<T>, before: seq<T>, a: seq<T>, b: seq<T>)
    requires middle == before + a && Between(now, middle, b)
    ensures Between(now, before, a + b) && (now == middle + b ==> now == before + (a + b))
  {
    assert before + (a + b) == before + a + b;
  }

  /** The requests among the events, in order. */
  function Requests(log: seq<Event>): seq<Action> {
    if log == [] then []
    else Requests(log[..|log| - 1]) + if log[|log| - 1].Act? then [log[|log| - 1].action] else []
  }

  /** What a run asks for before the database is built. */
  function Configurations(run: RunId, original: Manifest): seq<Action>
    requires Configured(original).Some?
  {
    [Begin(run), CreateNamespace, SaveManifest, WriteIntent, PutManifest(Configured(original).value)]
  }

  /** What it asks for before the fault. */
  function Preparations(run: RunId, original: Manifest): seq<Action>
    requires Configured(original).Some?
  {
    Configurations(run, original) + [Bind, Annotate]
  }

  /** What it asks for from the fault on. */
  function Recoveries(chains: set<Chain>, patch: Action): seq<Action> {
    [Inject(chains), Stop, WriteFenced, patch]
  }

  /** What a run asks for up to and including the stop of the source VM. */
  function RunUntilStop(run: RunId, original: Manifest): seq<Action>
    requires Configured(original).Some?
  {
    Preparations(run, original) + [Inject({ApiChain, DatabaseChain}), Stop]
  }

  /** The requests of a cleanup that depend on what it finds: the release of storage, the restart, the
      second clearing, the taint, the annotation and the manifest. */
  datatype Parts = Parts(release: seq<Action>, power: seq<Action>, again: seq<Action>, untaint: seq<Action>,
                         unannotate: seq<Action>, manifest: seq<Action>)

  function CleanupRequests(p: Parts, source: bool): seq<Action> {
    (p.release + [DeleteNamespace]) + (p.power + CleanupRest(p, source))
  }

  function CleanupRest(p: Parts, source: bool): seq<Action> {
    SourceRequests(p, source) + (p.manifest + [WriteCleaned])
  }

  function SourceRequests(p: Parts, source: bool): seq<Action> {
    p.again + (p.untaint + (if source then [Uncordon] else [])) + p.unannotate
  }

  predicate AllClears(asked: seq<Action>) {
    |asked| <= 1 && forall i :: 0 <= i < |asked| ==> asked[i].Clear?
  }

  /** What the parts may be, for the record and the skip annotation that the cleanup starts from. */
  predicate PartsOf(p: Parts, r: Record, skip: Option<RunId>, original: Manifest) {
    && (AllClears(p.release) || (|p.release| == 1 && p.release[0].PatchTaint?))
    && (p.power == [] || p.power == [Cordon, WriteRestore, Start])
    && AllClears(p.again) && (p.untaint == [] || p.untaint == [Untaint])
    && p.unannotate == (if r.source && skip == Some(r.run) then [Unannotate] else [])
    && p.manifest == (if r.intent.Some? then [PutManifest(original)] else [])
    && (!r.source ==> p.release == [] && p.power == [] && p.again == [] && p.untaint == [])
  }

  /** What a cleanup asks for when both its reads of the status say ACTIVE and no taint is there. */
  function CleanupWhileActive(original: Manifest): seq<Action> {
    CleanupRequests(Parts([Clear({}, true)], [], [Clear({}, true)], [], [Unannotate], [PutManifest(original)]), true)
  }

  lemma WhileActiveIsCleanup(r: Record, original: Manifest)
    requires r.source && r.intent.Some?
    ensures PartsOf(Parts([Clear({}, true)], [], [Clear({}, true)], [], [Unannotate], [PutManifest(original)]),
                    r, Some(r.run), original)
    ensures CleanupWhileActive(original) ==
            [Clear({}, true), DeleteNamespace, Clear({}, true), Uncordon, Unannotate, PutManifest(original),
             WriteCleaned]
  {}

  ghost predicate Reaches(s: State, log: seq<Event>, x: State, asked: seq<Action>) {
    Legal(s, log) && Replay(s, log) == x && Requests(log) == asked
  }

  lemma ReachesMore(s: State, log: seq<Event>, x: State, asked: seq<Action>, e: Event, y: State)
    returns (more: seq<Event>, most: seq<Action>)
    requires Reaches(s, log, x, asked) && (e.Act? ==> Permitted(x, e.action)) && y == After(x, e)
    ensures most == asked + (if e.Act? then [e.action] else []) && Reaches(s, more, y, most)
  {
    hide Permitted, After, Legal, Replay;
    more := log + [e];
    most := asked + if e.Act? then [e.action] else [];
    LegalExtend(s, log, e);
  }

  lemma RequestsStep(log: seq<Event>, e: Event)
    ensures Requests(log + [e]) == Requests(log) + if e.Act? then [e.action] else []
  {
    assert (log + [e])[..|log|] == log;
  }

  lemma ReachesNothing(s: State)
    ensures Reaches(s, [], s, [])
  {}

  lemma ReachesUnfold(s: State, log: seq<Event>, x: State, asked: seq<Action>)
    requires Reaches(s, log, x, asked)
    ensures Legal(s, log) && Replay(s, log) == x && Requests(log) == asked
  {}

  // the run

  lemma BeginAndCreate(s: State, run: RunId) returns (log: seq<Event>, x: State, asked: seq<Action>)
    requires Initial(s)
    ensures Reaches(s, log, x, asked) && asked == [Begin(run), CreateNamespace]
    ensures x == s.(r := Record(run, false, false, false, None, false), file := None,
                    w := s.w.(namespace := Present, volume := Absent))
  {
    hide Legal, Replay, Owners, Configured, Reaches, Apply;
    ReachesNothing(s);
    var x1 := s.(r := Record(run, false, false, false, None, false), file := None);
    log, asked := ReachesMore(s, [], s, [], Act(Begin(run)), x1);
    x := x1.(w := x1.w.(namespace := Present, volume := Absent));
    log, asked := ReachesMore(s, log, x1, asked, Act(CreateNamespace), x);
  }

  lemma SaveAndIntend(s: State, start: seq<Event>, x: State, before: seq<Action>)
    returns (log: seq<Event>, y: State, asked: seq<Action>)
    requires Reaches(s, start, x, before) && !x.r.cleaned && x.r.intent == None && Configured(x.w.manifest).Some?
    ensures Reaches(s, log, y, asked) && asked == before + [SaveManifest, WriteIntent]
    ensures y == x.(file := Some(x.w.manifest), r := x.r.(intent := Some(x.w.manifest)))
  {
    hide Legal, Replay, Owners, Configured, Reaches, Apply;
    var x1 := x.(file := Some(x.w.manifest));
    log, asked := ReachesMore(s, start, x, before, Act(SaveManifest), x1);
    y := x1.(r := x1.r.(intent := Some(x.w.manifest)));
    log, asked := ReachesMore(s, log, x1, asked, Act(WriteIntent), y);
  }

  lemma PutManifestActive(s: State, start: seq<Event>, x: State, before: seq<Action>, m: Manifest)
    returns (log: seq<Event>, y: State, asked: seq<Action>)
    requires Reaches(s, start, x, before) && !x.r.cleaned && x.r.intent.Some? && x.w.owner == None && x.w.chains == {}
    requires Configured(x.r.intent.value) == Some(m) || m == x.r.intent.value
    ensures Reaches(s, log, y, asked) && asked == before + [PutManifest(m)]
    ensures y == x.(w := x.w.(manifest := m, policy := DisableForceDetach in m))
  {
    hide Legal, Replay, Owners, Configured, Reaches;
    var x1 := x.(w := x.w.(manifest := m));
    log, asked := ReachesMore(s, start, x, before, Act(PutManifest(m)), x1);
    y := x1.(w := x1.w.(policy := DisableForceDetach in m));
    log, asked := ReachesMore(s, log, x1, asked, Env(PolicySync), y);
  }

  lemma ProvisionAndBind(s: State, start: seq<Event>, x: State, before: seq<Action>)
    returns (log: seq<Event>, y: State, asked: seq<Action>)
    requires Reaches(s, start, x, before) && !x.r.cleaned && x.w.skip == None
    requires x.w.volume == Absent && x.w.namespace == Present
    ensures Reaches(s, log, y, asked) && asked == before + [Bind, Annotate]
    ensures y == x.(w := x.w.(volume := OnSource, skip := Some(x.r.run)), r := x.r.(source := true))
  {
    hide Legal, Replay, Owners, Configured, Reaches;
    var x1 := x.(w := x.w.(volume := OnSource));
    log, asked := ReachesMore(s, start, x, before, Env(Provision), x1);
    var x2 := x1.(r := x1.r.(source := true));
    log, asked := ReachesMore(s, log, x1, asked, Act(Bind), x2);
    y := x2.(w := x2.w.(skip := Some(x.r.run)));
    log, asked := ReachesMore(s, log, x2, asked, Act(Annotate), y);
  }

  lemma InjectAndStop(s: State, start: seq<Event>, x: State, before: seq<Action>)
    returns (log: seq<Event>, y: State, asked: seq<Action>)
    requires Reaches(s, start, x, before) && !x.r.cleaned && x.r.source && !x.r.fenced
    requires DisableForceDetach in x.w.manifest && x.w.policy
    requires Up(x.w) && x.w.owner == None && x.w.chains == {}
    ensures Reaches(s, log, y, asked) && asked == before + [Inject({ApiChain, DatabaseChain}), Stop]
    ensures y == x.(w := x.w.(owner := Some(x.r.run), chains := {ApiChain, DatabaseChain}, task := Stopping))
  {
    hide Legal, Replay, Owners, Configured, Reaches, Apply;
    var x1 := x.(w := x.w.(owner := Some(x.r.run), chains := {ApiChain, DatabaseChain}));
    log, asked := ReachesMore(s, start, x, before, Act(Inject({ApiChain, DatabaseChain})), x1);
    y := x1.(w := x1.w.(task := Stopping));
    log, asked := ReachesMore(s, log, x1, asked, Act(Stop), y);
  }

  /** The crash is real: from every state before the first run, with no skip annotation and a manifest
      that the run accepts, a run can die with its stop request accepted. */
  lemma RunCanDieStopping(s: State, run: RunId) returns (log: seq<Event>, x: State)
    requires Initial(s) && s.w.skip == None && Configured(s.original).Some?
    ensures Reaches(s, log, x, RunUntilStop(run, s.original)) && DiedStopping(x) && x.original == s.original
  {
    hide Legal, Replay, Owners, Configured, Reaches, Do, Apply, Permitted, After, Inv;
    var asked;
    log, x, asked := BeginAndCreate(s, run);
    log, x, asked := SaveAndIntend(s, log, x, asked);
    ConfiguredHasFlag(s.original);
    log, x, asked := PutManifestActive(s, log, x, asked, Configured(s.original).value);
    log, x, asked := ProvisionAndBind(s, log, x, asked);
    log, x, asked := InjectAndStop(s, log, x, asked);
    assert asked == RunUntilStop(run, s.original);
    InitialInv(s);
    ReachesUnfold(s, log, x, asked);
    assert log[..|log|] == log;
    EveryPrefixInv(s, log, |log|);
  }

  // the cleanup

  lemma ClearWhileStopping(s: State, start: seq<Event>, x: State, before: seq<Action>)
    returns (log: seq<Event>, y: State, asked: seq<Action>)
    requires Reaches(s, start, x, before) && DiedStopping(x)
    ensures Reaches(s, log, y, asked) && asked == before + [Clear({}, true), DeleteNamespace]
    ensures y == x.(w := x.w.(owner := None, chains := {}, mounted := false, namespace := Terminating))
  {
    hide Legal, Replay, Inv, Owners, Configured, Reaches;
    var x1 := x.(w := x.w.(owner := None, chains := {}));
    log, asked := ReachesMore(s, start, x, before, Act(Clear({}, true)), x1);
    var x2 := x1.(w := x1.w.(namespace := Terminating));
    log, asked := ReachesMore(s, log, x1, asked, Act(DeleteNamespace), x2);
    y := x2.(w := x2.w.(mounted := false));
    log, asked := ReachesMore(s, log, x2, asked, Env(Unmount), y);
  }

  lemma ReleaseWhileStopping(s: State, start: seq<Event>, x: State, before: seq<Action>)
    returns (log: seq<Event>, y: State, asked: seq<Action>)
    requires Reaches(s, start, x, before) && DiedStopping(x)
    ensures Reaches(s, log, y, asked) && asked == before + [Clear({}, true), DeleteNamespace]
    ensures y == x.(w := x.w.(owner := None, chains := {}, mounted := false, namespace := Gone, volume := Deleted))
  {
    hide Legal, Replay, Inv, Owners, Configured, Reaches, Do;
    var x3;
    log, x3, asked := ClearWhileStopping(s, start, x, before);
    var x4 := x3.(w := x3.w.(volume := Detached));
    log, asked := ReachesMore(s, log, x3, asked, Env(DetachGracefully), x4);
    var x5 := x4.(w := x4.w.(volume := Deleted));
    log, asked := ReachesMore(s, log, x4, asked, Env(DeleteVolume), x5);
    y := x5.(w := x5.w.(namespace := Gone));
    log, asked := ReachesMore(s, log, x5, asked, Env(NamespaceGone), y);
  }

  lemma ReleaseMachineWhileStopping(s: State, start: seq<Event>, x: State, before: seq<Action>)
    returns (log: seq<Event>, y: State, asked: seq<Action>)
    requires Reaches(s, start, x, before)
    requires x.r.source && !x.r.cleaned && x.w.skip == Some(x.r.run) && x.w.owner == None
    ensures Reaches(s, log, y, asked) && asked == before + [Clear({}, true), Uncordon, Unannotate]
    ensures y == x.(w := x.w.(cordoned := false, skip := None))
  {
    hide Legal, Replay, Owners, Configured, Reaches, Apply;
    log, asked := ReachesMore(s, start, x, before, Act(Clear({}, true)), x);
    var x1 := x.(w := x.w.(cordoned := false));
    log, asked := ReachesMore(s, log, x, asked, Act(Uncordon), x1);
    y := x1.(w := x1.w.(skip := None));
    log, asked := ReachesMore(s, log, x1, asked, Act(Unannotate), y);
  }

  lemma FinishWhileStopping(s: State, start: seq<Event>, x: State, before: seq<Action>)
    returns (log: seq<Event>, y: State, asked: seq<Action>)
    requires Reaches(s, start, x, before)
    requires Recorded(x) && x.r.intent.Some? && x.r.source && !x.r.cleaned
    requires Owners(x.w.taints) == [] && x.w.owner == None && x.w.chains == {}
    requires x.w.namespace == Gone && x.w.volume == Deleted && x.w.task == Stopping && x.w.skip == Some(x.r.run)
    ensures asked == before + [Clear({}, true), Uncordon, Unannotate, PutManifest(x.original), WriteCleaned]
    ensures Reaches(s, log, y, asked) && y.r.cleaned && y.w.task == Stopping
  {
    hide Legal, Replay, Owners, Configured, Reaches, Apply;
    var x2, x3;
    log, x2, asked := ReleaseMachineWhileStopping(s, start, x, before);
    log, x3, asked := PutManifestActive(s, log, x2, asked, x.original);
    y := x3.(r := x3.r.(cleaned := true));
    log, asked := ReachesMore(s, log, x3, asked, Act(WriteCleaned), y);
  }

  /** From every such crash the cloud can let a cleanup finish while Nova still reports ACTIVE: it asks
      for what a cleanup of an active source asks for, no start is among it, and the stop is still
      to come. */
  lemma CleanupCanMissAStop(s: State, start: seq<Event>, x: State, before: seq<Action>)
    returns (log: seq<Event>, y: State, asked: seq<Action>)
    requires Reaches(s, start, x, before) && DiedStopping(x)
    ensures asked == before + CleanupWhileActive(x.original)
    ensures Reaches(s, log, y, asked) && y.r.cleaned && y.w.task == Stopping
  {
    hide Legal, Replay, Owners, Configured, Reaches, Do, Apply, Permitted, After;
    WhileActiveIsCleanup(x.r, x.original);
    log, y, asked := ReleaseWhileStopping(s, start, x, before);
    log, y, asked := FinishWhileStopping(s, log, y, asked);
  }

  /** The failing histories start before the first run: a run that dies with its stop accepted, and
      a cleanup that closes the record with the stop still in flight. */
  lemma FirstRunCanLoseTheSource(s: State, run: RunId) returns (log: seq<Event>)
    requires Initial(s) && s.w.skip == None && Configured(s.original).Some?
    ensures Legal(s, log) && Requests(log) == RunUntilStop(run, s.original) + CleanupWhileActive(s.original)
    ensures var y := Replay(s, log);
      && Inv(y) && y.r.cleaned && y.w.task == Stopping
      && Off(Apply(Apply(y.w, PowerOff), StopDone))
  {
    hide Inv, Owners, Configured, Reaches, Do, Apply, Permitted, Legal, Replay, Off;
    var x, y, asked;
    log, x := RunCanDieStopping(s, run);
    log, y, asked := CleanupCanMissAStop(s, log, x, RunUntilStop(run, s.original));
    ReachesUnfold(s, log, y, asked);
    InitialInv(s);
    assert log[..|log|] == log;
    EveryPrefixInv(s, log, |log|);
    StopInFlightOutlivesCleanup(y);
  }
}
