/** Runs of the whole system: controller passes that may fail or crash at any write, upgrades, and
    edits, in any order; and what holds in every state they reach.

    One pass is a step. A pass that is overtaken by another client's write to its HelmChartConfig
    is covered by its `Raced` verdict; an upgrade during a pass is covered by letting a pass observe
    any version. */
module Runs {
  import opened Text
  import opened Values
  import opened Components
  import opened Cluster
  import opened Reconciliation
  import opened CommandLine

  datatype Step =
    | ControllerPass(c: ComponentId, o: Observed, v: Verdicts)
    | Upgrade(release: Release)
    | CreatePatch(c: ComponentId, tag: string, policy: UpgradePolicy)
    | EditSpec(c: ComponentId, tag: string, policy: UpgradePolicy)
    | DeletePatch(c: ComponentId)
    | RemoveMarker(c: ComponentId)
    | EditConfig(chart: Chart, config: HelmConfig)
    | CliPatch(c: ComponentId, plan: PatchPlan)
    | CliReconcile(c: ComponentId, version: string, keys: seq<EntryKey>, n: nat, finished: bool)

  // An edit of values no component generates, leaving the patcher's annotations alone
  ghost predicate UnrelatedEdit(w: World, chart: Chart, config: HelmConfig) {
    var old' := if chart in w.configs then Some(w.configs[chart]) else None;
    forall d | ChartOf(d) == chart ::
      ManagedOn(Some(config), d) == ManagedOn(old', d) &&
      AgreeOn(AsTree(ValuesOf(old')), AsTree(config.values), Shape(d))
  }

  ghost predicate Enabled(w: World, s: Step) {
    match s
    case ControllerPass(c, o, v) =>
      (o.version.Some? ==> o.version.value != "") && (v.apply.Raced? ==> UnrelatedEdit(w, ChartOf(c), v.apply.edit))
    case Upgrade(_) => true
    case CreatePatch(c, _, _) => c !in w.patches
    case EditSpec(c, _, _) => c in w.patches
    case DeletePatch(c) => c in w.patches
    case RemoveMarker(c) => c in w.patches
    case EditConfig(chart, config) => UnrelatedEdit(w, chart, config)
    case CliPatch(c, plan) =>
      Trimmed(plan.version) && (plan.apply.Raced? ==> UnrelatedEdit(w, ChartOf(c), plan.apply.edit))
    case CliReconcile(c, version, keys, n, _) =>
      n <= |keys| && (forall k :: k in keys <==> k in ToReconcile(w.cli, c, version))
  }

  ghost function Next(w: World, s: Step): World
    requires Enabled(w, s)
  {
    match s
    case ControllerPass(c, o, v) => Pass(w, c, o, v)
    case Upgrade(release) => w.(release := release)
    case CreatePatch(c, tag, policy) =>
      w.(patches := w.patches[c := ImagePatch(tag, policy, 1, false, false, None, NO_STATUS)])
    case EditSpec(c, tag, policy) =>
      var ip := w.patches[c];
      if ip.tag == tag && ip.policy == policy then w
      else w.(patches := w.patches[c := ip.(tag := tag, policy := policy, generation := ip.generation + 1)])
    case DeletePatch(c) =>
      // An object without finalizers goes at once
      if w.patches[c].finalizer then w.(patches := w.patches[c := w.patches[c].(deleting := true)])
      else w.(patches := w.patches - {c})
    case RemoveMarker(c) => w.(patches := w.patches[c := w.patches[c].(marker := None)])
    case EditConfig(chart, config) => Put(w, chart, config)
    case CliPatch(c, plan) => ImagePatchCommand(w, c, plan)
    case CliReconcile(c, version, keys, n, finished) => ReconcileCommand(w, c, keys, n, finished)
  }

  ghost predicate Legal(w: World, run: seq<Step>)
    decreases |run|
  {
    run == [] || (Enabled(w, run[0]) && Legal(Next(w, run[0]), run[1..]))
  }

  ghost function After(w: World, run: seq<Step>): World
    requires Legal(w, run)
    decreases |run|
  {
    if run == [] then w else After(Next(w, run[0]), run[1..])
  }

  /* ---- What holds in every reachable state ---- */

  // A managed component has a live ImagePatch holding the finalizer
  ghost predicate FinalizerHeld(w: World) {
    forall c | Owned(w, c) :: c in w.patches && w.patches[c].finalizer
  }

  // CLI patches and managed components exclude each other
  ghost predicate OneMode(w: World) {
    w.cli != map[] ==> forall c :: !Owned(w, c)
  }

  // All managed annotations name one release
  ghost predicate OneRelease(w: World) {
    forall c, d | Owned(w, c) && Owned(w, d) :: ManagedIn(w, c) == ManagedIn(w, d)
  }

  // The CLI state holds entries of one release, with the values their component generates
  ghost predicate OneCliRelease(w: World) {
    (forall k, l | k in w.cli && l in w.cli :: w.cli[k].clusterVersion == w.cli[l].clusterVersion) &&
    (forall k | k in w.cli :: GoodEntry(k, w.cli[k]))
  }

  predicate GoodEntry(k: EntryKey, e: Entry) {
    Trimmed(e.clusterVersion) && SameShape(Shape(k.component), e.values)
  }

  ghost predicate HasEntry(w: World, c: ComponentId) {
    exists k | k in w.cli :: k.component == c
  }

  // Managed means every generated leaf is set; neither managed nor patched by the CLI means none is
  ghost predicate LeavesOwned(w: World, c: ComponentId) {
    (Owned(w, c) ==> AllLeaves(TreeOf(w, c), Shape(c))) &&
    (!Owned(w, c) && !HasEntry(w, c) ==> NoLeaves(TreeOf(w, c), Shape(c)))
  }

  ghost predicate Invariant(w: World) {
    VersionsBelow(w) && FinalizerHeld(w) && OneMode(w) && OneRelease(w) && OneCliRelease(w)
  }

  // An image-patch of the component that sets its values without recording them
  predicate CutsShort(s: Step, c: ComponentId) {
    s.CliPatch? && s.c == c && CutShort(s.plan)
  }

  // A cluster the patcher has not touched
  ghost predicate Untouched(w: World) {
    VersionsBelow(w) && w.cli == map[] && forall c :: !Owned(w, c) && NoLeaves(TreeOf(w, c), Shape(c))
  }
}
