/** The cluster state the controller and the command line read and write: HelmChartConfigs,
    ImagePatches, the bundled release and the CLI state; and writes with optimistic concurrency. */
module Cluster {
  import opened Text
  import opened Values
  import opened Components
  import Policy

  /* ---- HelmChartConfigs ---- */

  // The annotation marking a component's values as managed by its ImagePatch, or any other one
  datatype AnnotationKey = Managed(c: ComponentId) | Other(key: string)

  // `values` is the decoded valuesContent (blank or null content is the empty map); `extra` stands for
  // every field the patcher never looks at
  datatype HelmConfig = HelmConfig(
    values: Value, annotations: map<AnnotationKey, string>, extra: string, resourceVersion: nat)

  // The RKE2 version a component's values were applied on; "" when they are not managed
  function ManagedOn(config: Option<HelmConfig>, c: ComponentId): string {
    if config.Some? && Managed(c) in config.value.annotations then config.value.annotations[Managed(c)] else ""
  }

  predicate IsManaged(config: Option<HelmConfig>, c: ComponentId) {
    ManagedOn(config, c) != ""
  }

  function ValuesOf(config: Option<HelmConfig>): Value {
    if config.Some? then config.value.values else EMPTY
  }

  /* ---- ImagePatches ---- */

  datatype UpgradePolicy = Manual | AutoRevert

  datatype Why =
    | NotPrime | CliPatchesExist | ChartLayoutMismatch | RevertedAfterUpgrade | Rke2Upgraded
    | AtBaseline | PatchedTo | RolloutInProgress | RolledOut | StalePatchesExist | ConflictingOverride
    | Violation(reason: Policy.Reason) | Retrying | Failure | NotBlocked | Current | Applied | Reverted | NotApplied

  datatype Condition = Unset | Holds(why: Why, generation: nat) | Fails(why: Why, generation: nat)

  datatype Status = Status(
    observedGeneration: nat, clusterVersion: string, baselineTag: string, appliedTag: string,
    runningImages: seq<ImageRef>,
    applied: Condition, rolledOut: Condition, blocked: Condition, stale: Condition, ready: Condition)

  const NO_STATUS := Status(0, "", "", "", [], Unset, Unset, Unset, Unset, Unset)

  // A running image: its name, registry included, and its tag
  datatype ImageRef = ImageRef(name: string, tag: string)

  // `marker` is the reverted-generation annotation
  datatype ImagePatch = ImagePatch(
    tag: string, policy: UpgradePolicy, generation: nat, deleting: bool, finalizer: bool,
    marker: Option<nat>, status: Status)

  /* ---- The CLI state ---- */

  datatype Entry = Entry(clusterVersion: string, baselineTag: string, patchedToTag: string, values: Tree)

  // clistate.EntryKey
  datatype EntryKey = EntryKey(clusterVersion: string, component: ComponentId)

  /* ---- The cluster ---- */

  // An RKE2 release: its version and the values of the charts it bundles
  datatype Release = Release(version: string, charts: map<Chart, Tree>)

  datatype World = World(
    release: Release, configs: map<Chart, HelmConfig>, patches: map<ComponentId, ImagePatch>,
    cli: map<EntryKey, Entry>, nextVersion: nat)

  function ConfigOf(w: World, c: ComponentId): Option<HelmConfig> {
    if ChartOf(c) in w.configs then Some(w.configs[ChartOf(c)]) else None
  }

  function ManagedIn(w: World, c: ComponentId): string {
    ManagedOn(ConfigOf(w, c), c)
  }

  // The component's values are managed by the controller
  predicate Owned(w: World, c: ComponentId) {
    ManagedIn(w, c) != ""
  }

  // Content that is no map holds no component's values
  function AsTree(v: Value): Tree {
    if v.Map? then v else EMPTY
  }

  // The map the component's values live in
  function TreeOf(w: World, c: ComponentId): Tree {
    AsTree(ValuesOf(ConfigOf(w, c)))
  }

  /* ---- Writes ---- */

  // Stored versions are below the next one: the server never gives a version out twice
  ghost predicate VersionsBelow(w: World) {
    forall chart | chart in w.configs :: w.configs[chart].resourceVersion < w.nextVersion
  }

  // How a request fares by itself: it is answered, or it fails or the client crashes, and then it is
  // open whether the write landed
  datatype Luck = Answered | Broken(landed: bool, crashed: bool)

  // How a write fares: whether the server takes it, and what the client sees. In a race another
  // client's write of the same object comes between the read and the write.
  datatype Verdict =
    | Acked
    | Conflicted
    | Failed(landed: bool)
    | Crashed(landed: bool)
    | Raced(edit: HelmConfig, rest: Luck)

  function OfLuck(luck: Luck): Verdict {
    match luck
    case Answered => Acked
    case Broken(landed, crashed) => if crashed then Crashed(landed) else Failed(landed)
  }

  predicate Lands(v: Verdict) {
    v.Acked? || (v.Failed? && v.landed) || (v.Crashed? && v.landed)
  }

  function Put(w: World, chart: Chart, config: HelmConfig): World {
    w.(configs := w.configs[chart := config.(resourceVersion := w.nextVersion)], nextVersion := w.nextVersion + 1)
  }

  function VersionOf(w: World, chart: Chart): Option<nat> {
    if chart in w.configs then Some(w.configs[chart].resourceVersion) else None
  }

  // Create if it was absent, else update only the version that was read; both are refused when the
  // object is no longer what was read
  function CompareAndSwap(w: World, chart: Chart, read: Option<nat>, config: HelmConfig, v: Verdict): World {
    if Lands(v) && VersionOf(w, chart) == read then Put(w, chart, config) else w
  }

  function Reply(w: World, chart: Chart, read: Option<nat>, v: Verdict): Verdict {
    if v.Acked? && VersionOf(w, chart) != read then Conflicted else v
  }

  // What the client of a HelmChartConfig write sees; `read` is the version it read, if any
  function Answer(w: World, chart: Chart, read: Option<nat>, v: Verdict): Verdict {
    if v.Raced? then Reply(Put(w, chart, v.edit), chart, read, OfLuck(v.rest)) else Reply(w, chart, read, v)
  }

  // ApplyHelmChartConfig, after the other client's write in a race
  function Apply(w: World, chart: Chart, read: Option<nat>, config: HelmConfig, v: Verdict): World {
    if v.Raced? then CompareAndSwap(Put(w, chart, v.edit), chart, read, config, OfLuck(v.rest))
    else CompareAndSwap(w, chart, read, config, v)
  }

  /** A stale write is refused, whether it would create the object or update it: only the other
      client's write is stored, and the client learns of the conflict unless its request breaks. */
  lemma StaleWriteIsRefused(w: World, chart: Chart, config: HelmConfig, v: Verdict)
    requires VersionsBelow(w) && v.Raced?
    ensures Apply(w, chart, VersionOf(w, chart), config, v) == Put(w, chart, v.edit)
    ensures Answer(w, chart, VersionOf(w, chart), v) == if v.rest.Answered? then Conflicted else OfLuck(v.rest)
  {
    assert VersionOf(Put(w, chart, v.edit), chart) == Some(w.nextVersion);
    hide Put;
  }

  // An update of an ImagePatch's metadata leaves the stored status alone
  function UpdatePatch(w: World, c: ComponentId, ip: ImagePatch, v: Verdict): World
    requires c in w.patches
  {
    if Lands(v) then w.(patches := w.patches[c := ip.(status := w.patches[c].status)]) else w
  }
}
