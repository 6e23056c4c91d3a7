/** The cloud that the S3 recovery acts on, the record it persists, the steps each side may take, and
    the invariant that every history of such steps keeps. */
module FencingWorld {
  import opened Options

  type RunId = nat

  // ---- the state ----

  /** Where the database's volume is; the worker it is first attached to is the source. */
  datatype Place = Absent | OnSource | Detached | OnTarget | Deleted

  datatype Namespace = Present | Terminating | Gone

  datatype Status = Active | Shutoff

  /** Nova's task_state: a request that has been accepted and has not finished. */
  datatype Task = Idle | Stopping | Starting

  datatype Taint = Out(owner: RunId) | Foreign(name: string)

  datatype Chain = ApiChain | DatabaseChain

  /** A line of the controller manager's manifest: the command, its force-detach flag, anything else. */
  datatype Line = Command | DisableForceDetach | OtherForceDetach | Text(text: string)

  type Manifest = seq<Line>

  datatype World = World(
    // the source VM: hypervisor power, reported status, task, and whether the old database writes to the volume
    running: bool, status: Status, task: Task, mounted: bool,
    volume: Place, namespace: Namespace,
    // the source node: taints with their resource version, cordon
    taints: seq<Taint>, version: nat, cordoned: bool,
    // the injected fault inside the source VM: the owner file and the chains
    owner: Option<RunId>, chains: set<Chain>,
    // the Machine's skip annotation
    skip: Option<RunId>,
    // the controller manager: its manifest, and whether the running one has force detach disabled
    manifest: Manifest, policy: bool)

  /** What the run persists. `intent` stands for the manifest hash, which is assumed injective. */
  datatype Record = Record(
    run: RunId, source: bool, fenced: bool, restoreStarted: bool, intent: Option<Manifest>, cleaned: bool)

  /** `file` is the saved copy of the manifest; `original` is the manifest before the first run. */
  datatype State = State(w: World, r: Record, file: Option<Manifest>, original: Manifest)

  /** A proven fence: powered off, reported off, and no request in flight. */
  predicate Off(w: World) {
    !w.running && w.status == Shutoff && w.task == Idle
  }

  predicate Up(w: World) {
    w.running && w.status == Active && w.task == Idle
  }

  function Owners(ts: seq<Taint>): seq<RunId> {
    if ts == [] then [] else (if ts[0].Out? then [ts[0].owner] else []) + Owners(ts[1..])
  }

  function Others(ts: seq<Taint>): seq<Taint> {
    if ts == [] then [] else (if ts[0].Out? then [] else [ts[0]]) + Others(ts[1..])
  }

  /** The manifest with the flag added after every command line, when it has not got it. */
  function AddFlag(m: Manifest): Manifest {
    if m == [] then [] else (if m[0] == Command then [Command, DisableForceDetach] else [m[0]]) + AddFlag(m[1..])
  }

  function Configured(m: Manifest): Option<Manifest> {
    if DisableForceDetach in m then Some(m)
    else if OtherForceDetach in m || DisableForceDetach !in AddFlag(m) then None
    else Some(AddFlag(m))
  }

  // ---- the steps ----

  datatype EnvAction =
    | PowerOff | StopDone | PowerOn | StartDone
    | Provision | Mount | Unmount
    | DetachGracefully | DetachByTaint | DetachByTimeout | AttachTarget | DetachTarget | DeleteVolume
    | NamespaceGone | NodeChange(taints: seq<Taint>) | PolicySync

  /** One step of the cloud; a step that is not enabled changes nothing. Storage leaves the source
      gracefully when the namespace goes, through the out-of-service taint, or by the controller's
      timeout on an unreachable node unless that is disabled. Nova may report a stop as done before
      the hypervisor has powered the domain off, and only a request starts the VM. */
  function Apply(w: World, a: EnvAction): World {
    match a
    case PowerOff =>
      if w.running && (w.task == Stopping || (w.task == Idle && w.status == Shutoff))
      then w.(running := false, mounted := false, owner := None, chains := {}) else w
    case StopDone => if w.task == Stopping then w.(status := Shutoff, task := Idle) else w
    case PowerOn => if w.task == Starting then w.(running := true) else w
    case StartDone => if w.task == Starting && w.running then w.(status := Active, task := Idle) else w
    case Provision => if w.volume == Absent && w.namespace == Present then w.(volume := OnSource) else w
    case Mount => if w.volume == OnSource && w.namespace == Present && w.running then w.(mounted := true) else w
    case Unmount => w.(mounted := false)
    case DetachGracefully =>
      if w.volume == OnSource && w.namespace != Present && w.running && !w.mounted && w.chains == {}
      then w.(volume := Detached) else w
    case DetachByTaint => if w.volume == OnSource && Owners(w.taints) != [] then w.(volume := Detached) else w
    case DetachByTimeout =>
      if w.volume == OnSource && !w.policy && (w.chains != {} || !w.running) then w.(volume := Detached) else w
    case AttachTarget => if w.volume == Detached && w.namespace == Present then w.(volume := OnTarget) else w
    case DetachTarget => if w.volume == OnTarget then w.(volume := Detached) else w
    case DeleteVolume => if w.volume == Detached && w.namespace != Present then w.(volume := Deleted) else w
    case NamespaceGone => if w.namespace == Terminating && !w.mounted then w.(namespace := Gone) else w
    case NodeChange(ts) => if Owners(ts) == Owners(w.taints) then w.(taints := ts, version := w.version + 1) else w
    case PolicySync => w.(policy := DisableForceDetach in w.manifest)
  }

  datatype Action =
    | Begin(run: RunId) | CreateNamespace | SaveManifest | WriteIntent | PutManifest(manifest: Manifest)
    | Bind | Annotate | Inject(chains: set<Chain>) | Stop | WriteFenced
    | PatchTaint(read: seq<Taint>, version: nat)
    | DeleteNamespace | Cordon | WriteRestore | Start | Clear(keep: set<Chain>, finished: bool)
    | Untaint | Uncordon | Unannotate | WriteCleaned

  /** What a request of the run does when it takes effect. */
  function Do(s: State, a: Action): State {
    var w, r := s.w, s.r;
    match a
    case Begin(run) => s.(r := Record(run, false, false, false, None, false), file := None)
    case CreateNamespace => s.(w := w.(namespace := Present, volume := Absent))
    case SaveManifest => s.(file := Some(w.manifest))
    case WriteIntent => s.(r := r.(intent := s.file))
    case PutManifest(m) => s.(w := w.(manifest := m))
    case Bind => s.(r := r.(source := true))
    case Annotate => s.(w := w.(skip := if w.skip == None then Some(r.run) else w.skip))
    case Inject(cs) =>
      if w.running && w.owner == None && w.chains == {} then s.(w := w.(owner := Some(r.run), chains := cs)) else s
    case Stop => if w.status == Active && w.task == Idle then s.(w := w.(task := Stopping)) else s
    case WriteFenced => s.(r := r.(fenced := true))
    case PatchTaint(read, version) =>
      if w.version == version then s.(w := w.(taints := read + [Out(r.run)], version := version + 1)) else s
    case DeleteNamespace => if w.namespace == Present then s.(w := w.(namespace := Terminating)) else s
    case Cordon => s.(w := w.(cordoned := true))
    case WriteRestore => s.(r := r.(restoreStarted := true))
    case Start => if w.status == Shutoff && w.task == Idle then s.(w := w.(task := Starting)) else s
    case Clear(keep, finished) =>
      if !w.running || w.owner != Some(r.run) then s
      else if finished then s.(w := w.(owner := None, chains := {})) else s.(w := w.(chains := w.chains * keep))
    case Untaint => s.(w := w.(taints := Others(w.taints), version := w.version + 1))
    case Uncordon => s.(w := w.(cordoned := false))
    case Unannotate => s.(w := w.(skip := None))
    case WriteCleaned => s.(r := r.(cleaned := true))
  }

  /** When the run may issue a request. The methods of S3 are proved to issue no other. */
  ghost predicate Permitted(s: State, a: Action) {
    var w, r := s.w, s.r;
    if a.Begin? then r.cleaned && w.namespace == Gone
    else
      && !r.cleaned
      && match a
         case CreateNamespace => !r.source && w.namespace == Gone
         case SaveManifest => r.intent == None && Configured(w.manifest).Some?
         case WriteIntent => r.intent == None && s.file == Some(w.manifest)
         case PutManifest(m) =>
           && r.intent.Some?
           && ((Configured(r.intent.value) == Some(m) && w.owner == None && w.chains == {})
               || (m == r.intent.value && w.owner == None && w.chains == {}))
         case Bind => true
         case Inject(_) => r.source && !r.fenced && DisableForceDetach in w.manifest && w.policy
         case Stop => r.source && !r.fenced
         case WriteFenced => r.source && !r.restoreStarted && Off(w)
         case PatchTaint(read, version) =>
           && r.source && Off(w) && Owners(read) == []
           && version <= w.version && (version == w.version ==> read == w.taints)
         case DeleteNamespace => true
         case WriteRestore => r.source && w.volume == Deleted && w.namespace == Gone
         case Start => r.source && r.restoreStarted && w.volume == Deleted && w.namespace == Gone
         case Untaint => r.source && w.volume == Deleted && w.task != Starting
         case Unannotate => r.source && w.skip == Some(r.run)
         case WriteCleaned =>
           && Owners(w.taints) == [] && w.owner == None && w.chains == {} && !w.cordoned
           && w.manifest == s.original && w.namespace == Gone && w.task != Starting
           && (r.source ==> w.skip == None && w.volume == Deleted)
         case _ => r.source
  }

  // ---- the invariant ----

  /** Only the source's database or the target's can reach the volume, and the target has it only
      while the source VM has no power. */
  predicate SingleWriter(w: World) {
    && (w.mounted ==> w.running && w.volume == OnSource)
    && (w.volume == OnTarget ==> !w.running && !w.mounted)
  }

  predicate PowerCoherent(w: World) {
    && (w.task == Stopping ==> w.status == Active)
    && (w.task == Starting ==> w.status == Shutoff)
    && (w.status == Active && w.task == Idle ==> w.running)
  }

  /** Storage free to move to the target means a source without power, and no start under way. */
  predicate MoveGuarded(w: World) {
    && (w.volume == OnTarget || (w.volume == Detached && w.namespace == Present) ==> !w.running && w.task != Starting)
    && (w.namespace == Gone ==> !w.mounted)
    && (w.volume == Deleted ==> w.namespace != Present)
    && (Owners(w.taints) != [] ==> Off(w) || w.volume == Deleted)
    && (w.chains != {} ==> w.volume == Deleted || (w.policy && DisableForceDetach in w.manifest))
  }

  predicate RecordGuarded(w: World, r: Record) {
    && (w.task == Starting ==> r.restoreStarted)
    && (r.restoreStarted ==> w.volume == Deleted && w.namespace == Gone)
    && (r.fenced && !r.restoreStarted ==> Off(w))
    && (!r.source ==> !r.fenced && !r.restoreStarted && Owners(w.taints) == [] && w.owner == None && !w.cordoned)
  }

  /** Whatever the run has changed carries its name, and the record or the saved file undoes it. */
  predicate Recorded(s: State) {
    var w, r := s.w, s.r;
    && (forall i :: 0 <= i < |Owners(w.taints)| ==> Owners(w.taints)[i] == r.run)
    && (w.chains != {} ==> w.owner.Some?) && (w.owner.Some? ==> w.owner.value == r.run)
    && (r.intent == None ==> w.manifest == s.original)
    && (w.manifest == s.original || Configured(s.original) == Some(w.manifest))
    && (r.intent.Some? ==> r.intent.value == s.original && s.file == r.intent)
  }

  /** A cleaned record leaves nothing of the run behind. */
  predicate CleanedUp(s: State) {
    var w := s.w;
    s.r.cleaned ==>
      && Owners(w.taints) == [] && w.owner == None && w.chains == {} && !w.cordoned
      && w.manifest == s.original && w.namespace == Gone && w.task != Starting
      && (s.r.source ==> w.skip == None && w.volume == Deleted)
  }

  predicate Inv(s: State) {
    SingleWriter(s.w) && PowerCoherent(s.w) && MoveGuarded(s.w) && RecordGuarded(s.w, s.r) && Recorded(s)
      && CleanedUp(s)
  }

  // ---- taints and manifests ----

  lemma {:induction false} OwnersAppend(ts: seq<Taint>, run: RunId)
    ensures Owners(ts + [Out(run)]) == Owners(ts) + [run] && Others(ts + [Out(run)]) == Others(ts)
  {
    if ts != [] {
      OwnersAppend(ts[1..], run);
      assert (ts + [Out(run)])[1..] == ts[1..] + [Out(run)];
    }
  }

  /** Removing by key takes every out-of-service taint and nothing else. */
  lemma {:induction false} RemoveOutExact(ts: seq<Taint>)
    ensures Owners(Others(ts)) == [] && Others(Others(ts)) == Others(ts)
  {
    if ts != [] {
      RemoveOutExact(ts[1..]);
      if ts[0].Out? { assert Others(ts) == Others(ts[1..]); } else { assert Others(ts)[1..] == Others(ts[1..]); }
    }
  }

  lemma {:induction false} OthersWithoutOwners(ts: seq<Taint>)
    requires Owners(ts) == []
    ensures Others(ts) == ts
  {
    if ts != [] { OthersWithoutOwners(ts[1..]); }
  }

  function Unflagged(m: Manifest): Manifest {
    if m == [] then [] else (if m[0] == DisableForceDetach then [] else [m[0]]) + Unflagged(m[1..])
  }

  lemma {:induction false} UnflaggedJoins(a: Manifest, b: Manifest)
    ensures Unflagged(a + b) == Unflagged(a) + Unflagged(b)
  {
    if a == [] { assert a + b == b; }
    else { UnflaggedJoins(a[1..], b); assert (a + b)[1..] == a[1..] + b; }
  }

  lemma {:induction false} AddFlagOnlyAdds(m: Manifest)
    requires DisableForceDetach !in m
    ensures Unflagged(AddFlag(m)) == m && (DisableForceDetach in AddFlag(m) <==> Command in m)
  {
    if m != [] {
      AddFlagOnlyAdds(m[1..]);
      var head := if m[0] == Command then [Command, DisableForceDetach] else [m[0]];
      UnflaggedJoins(head, AddFlag(m[1..]));
      assert Unflagged(head) == [m[0]] by {
        assert head[1..] == [] || (head[1..] == [DisableForceDetach] && head[1..][1..] == []);
      }
    }
  }

  /** The flag goes right after every command line. */
  lemma {:induction false} FlagFollowsCommand(m: Manifest, i: nat)
    requires i < |AddFlag(m)| && AddFlag(m)[i] == Command
    ensures i + 1 < |AddFlag(m)| && AddFlag(m)[i + 1] == DisableForceDetach
  {
    var head := if m[0] == Command then [Command, DisableForceDetach] else [m[0]];
    assert AddFlag(m) == head + AddFlag(m[1..]);
    if i >= |head| { FlagFollowsCommand(m[1..], i - |head|); }
  }

  /** The configured manifest has the flag and differs from the original by that flag only; a
      manifest is refused exactly when it disables force detach otherwise or has no command line. */
  lemma ConfiguredOnlyAddsTheFlag(m: Manifest)
    ensures Configured(m).Some? <==> DisableForceDetach in m || (OtherForceDetach !in m && Command in m)
    ensures Configured(m).Some? ==>
        DisableForceDetach in Configured(m).value && Unflagged(Configured(m).value) == Unflagged(m)
  {
    if DisableForceDetach !in m {
      AddFlagOnlyAdds(m);
      UnflaggedOfClean(m);
    }
  }

  lemma {:induction false} UnflaggedOfClean(m: Manifest)
    requires DisableForceDetach !in m
    ensures Unflagged(m) == m
  {
    if m != [] { UnflaggedOfClean(m[1..]); }
  }

  lemma ConfiguredHasFlag(m: Manifest)
    ensures Configured(m).Some? ==> DisableForceDetach in Configured(m).value
  {}

  // ---- the environment keeps the invariant ----

  ghost predicate PowerDrifts(w: World, x: World) {
    && (Off(w) ==> Off(x)) && (Up(w) ==> Up(x))
    && (x.task == w.task || x.task == Idle)
    && (w.task == Idle ==> x.status == w.status) && (w.task == Stopping ==> x.task == Stopping || x.status == Shutoff)
    && (w.volume == Deleted ==> x.volume == Deleted)
    && (x.namespace == w.namespace || (w.namespace == Terminating && x.namespace == Gone))
  }

  ghost predicate NodeDrifts(w: World, x: World) {
    && Owners(x.taints) == Owners(w.taints) && x.cordoned == w.cordoned
    && w.version <= x.version && (x.version == w.version ==> x.taints == w.taints)
    && x.skip == w.skip && x.manifest == w.manifest
    && (DisableForceDetach in w.manifest && w.policy ==> x.policy)
    && (DisableForceDetach !in w.manifest && !w.policy ==> !x.policy)
    && ((x.owner == w.owner && x.chains == w.chains) || (x.owner == None && x.chains == {}))
  }

  /** What no sequence of environment steps undoes. */
  ghost predicate Drifts(w: World, x: World) { PowerDrifts(w, x) && NodeDrifts(w, x) }

  lemma ApplyPowerDrifts(w: World, a: EnvAction)
    ensures PowerDrifts(w, Apply(w, a))
  {
    hide Owners;
  }

  lemma ApplyNodeDrifts(w: World, a: EnvAction)
    ensures NodeDrifts(w, Apply(w, a))
  {
    hide Owners;
    match a { case NodeChange(_) => case PowerOff => case PolicySync => case _ => }
  }

  lemma ApplyDrifts(w: World, a: EnvAction)
    ensures Drifts(w, Apply(w, a))
  {
    hide *;
    ApplyPowerDrifts(w, a);
    ApplyNodeDrifts(w, a);
    DriftsBoth(w, Apply(w, a));
  }

  lemma DriftsBoth(w: World, x: World)
    ensures Drifts(w, x) <==> PowerDrifts(w, x) && NodeDrifts(w, x)
  {}

  lemma DriftsTransitive(w: World, x: World, y: World)
    requires Drifts(w, x) && Drifts(x, y)
    ensures Drifts(w, y)
  {
    hide Owners;
  }

  lemma EnvKeepsWorld(w: World, a: EnvAction)
    requires SingleWriter(w) && PowerCoherent(w) && MoveGuarded(w)
    ensures PowerCoherent(Apply(w, a))
    ensures w.task != Starting || w.volume == Deleted ==> SingleWriter(Apply(w, a)) && MoveGuarded(Apply(w, a))
  {
    hide Owners;
  }

  lemma EnvKeepsRecord(s: State, a: EnvAction)
    requires Inv(s)
    ensures RecordGuarded(Apply(s.w, a), s.r) && Recorded(s.(w := Apply(s.w, a))) && CleanedUp(s.(w := Apply(s.w, a)))
  {
    hide Apply, Owners, Configured;
    ApplyDrifts(s.w, a);
    EnvStartsNothing(s.w, a);
  }

  lemma EnvStartsNothing(w: World, a: EnvAction)
    ensures w.task != Starting ==> Apply(w, a).task != Starting
  {
    hide Owners;
  }

  /** Every step of the environment keeps the invariant. */
  lemma EnvKeepsInv(s: State, a: EnvAction)
    requires Inv(s)
    ensures Inv(s.(w := Apply(s.w, a)))
  {
    hide MoveGuarded, Recorded, CleanedUp, Apply;
    EnvKeepsWorld(s.w, a);
    EnvKeepsRecord(s, a);
  }
}
