/** The reconciler as it runs: it reads and writes the cluster's objects one after the other and edits
    its own copy of the ImagePatch in place. Every method is proved to do what the pass specified in
    Reconciliation does. */
module Controller {
  import opened Text
  import opened Values
  import opened Components
  import opened Cluster
  import opened Reconciliation
  import Patcher
  import Policy

  // The objects the API server stores
  class ApiServer {
    var release: Release
    var configs: map<Chart, HelmConfig>
    var patches: map<ComponentId, ImagePatch>
    var cli: map<EntryKey, Entry>
    var nextVersion: nat

    ghost function Snapshot(): World
      reads this
    {
      World(release, configs, patches, cli, nextVersion)
    }

    constructor (w: World)
      ensures Snapshot() == w
    {
      release, configs, patches, cli, nextVersion := w.release, w.configs, w.patches, w.cli, w.nextVersion;
    }

    method GetHelmChartConfig(chart: Chart) returns (config: Option<HelmConfig>)
      ensures config == if chart in configs then Some(configs[chart]) else None
    {
      return if chart in configs then Some(configs[chart]) else None;
    }

    // Creates the object if none was read, else replaces the version that was read
    method ApplyHelmChartConfig(chart: Chart, config: HelmConfig, read: Option<nat>, v: Verdict) returns (seen: Verdict)
      modifies this
      ensures Snapshot() == Apply(old(Snapshot()), chart, read, config, v)
      ensures seen == Answer(old(Snapshot()), chart, read, v)
    {
      var luck := v;
      if v.Raced? {
        // Another client is first
        Store(chart, v.edit);
        luck := OfLuck(v.rest);
      }
      if read.None? {
        if chart in configs {
          // AlreadyExists
          return if luck.Acked? then Conflicted else luck;
        }
      } else if chart !in configs || configs[chart].resourceVersion != read.value {
        return if luck.Acked? then Conflicted else luck;
      }
      if Lands(luck) {
        Store(chart, config);
      }
      return luck;
    }

    method Store(chart: Chart, config: HelmConfig)
      modifies this
      ensures Snapshot() == Put(old(Snapshot()), chart, config)
    {
      configs := configs[chart := config.(resourceVersion := nextVersion)];
      nextVersion := nextVersion + 1;
    }

    // An update of the object leaves its stored status alone
    method UpdateImagePatch(c: ComponentId, ip: ImagePatch, v: Verdict)
      requires c in patches
      modifies this
      ensures Snapshot() == UpdatePatch(old(Snapshot()), c, ip, v)
    {
      if Lands(v) {
        patches := patches[c := ip.(status := patches[c].status)];
      }
    }

    // An update of the status leaves the rest alone
    method UpdateStatus(c: ComponentId, status: Status, v: Verdict)
      requires c in patches
      modifies this
      ensures Snapshot() ==
              (if Lands(v) then old(Snapshot()).(patches := old(patches)[c := old(patches)[c].(status := status)])
               else old(Snapshot()))
    {
      if Lands(v) {
        patches := patches[c := patches[c].(status := status)];
      }
    }

    // A deleted object goes with its last finalizer
    method RemoveFinalizer(c: ComponentId, v: Verdict)
      modifies this
      ensures Snapshot() == (if Lands(v) then old(Snapshot()).(patches := old(patches) - {c}) else old(Snapshot()))
    {
      if Lands(v) {
        patches := patches - {c};
      }
    }
  }

  // The reconciler's copy of the object it works on
  class PatchObject {
    var value: ImagePatch

    constructor (value: ImagePatch)
      ensures this.value == value
    {
      this.value := value;
    }
  }

  /* ---- Reverting ---- */

  // revert: strips the component's values and annotation from the HelmChartConfig that was read
  method RevertComponent(api: ApiServer, c: ComponentId, current: Option<HelmConfig>, v: Verdict)
    returns (seen: Verdict)
    modifies api
    ensures (api.Snapshot(), seen) == Revert(old(api.Snapshot()), c, current, v)
  {
    hide ChartOf;
    hide Shape;
    hide Subtract;
    if current.None? {
      return Acked;
    }
    var config := current.value;
    if !config.values.Map? {
      return Failed(false);
    }
    var values := Patcher.DeepSubtractMap(config.values, Shape(c));
    var reverted := config.(values := values, annotations := config.annotations - {Managed(c)});
    seen := api.ApplyHelmChartConfig(ChartOf(c), reverted, Some(config.resourceVersion), v);
  }

  // revertedOutcome
  method RevertedOutcome(imgPatch: PatchObject, o: Observed) returns (end: End)
    modifies imgPatch
    ensures imgPatch.value == RevertedCopy(old(imgPatch.value), o) && end == RevertedEnd(o)
  {
    if o.images.None? {
      return Error;
    }
    var status := imgPatch.value.status;
    status := status.(runningImages := o.images.value);
    status := status.(appliedTag := "", clusterVersion := "");
    status := status.(applied := Fails(RevertedAfterUpgrade, imgPatch.value.generation));
    status := status.(rolledOut := Fails(NotApplied, imgPatch.value.generation));
    imgPatch.value := imgPatch.value.(status := status);
    return Done(Outcome(false, false, false, RevertedAfterUpgrade));
  }

  /* ---- Rollouts ---- */

  // rolloutOutcomeFor
  method RolloutOutcomeFor(imgPatch: PatchObject, images: seq<ImageRef>, wantTag: string, readyReason: Why)
    returns (end: End)
    modifies imgPatch
    ensures imgPatch.value == old(imgPatch.value).(status :=
              old(imgPatch.value).status.(rolledOut := RolledOutCondition(old(imgPatch.value), images, wantTag)))
    ensures end == RolloutEnd(images, wantTag, readyReason)
  {
    var rolledOut := |images| > 0;
    for i := 0 to |images|
      invariant rolledOut <==> |images| > 0 && forall k | 0 <= k < i :: images[k].tag == wantTag
    {
      if images[i].tag != wantTag {
        rolledOut := false;
      }
    }
    if !rolledOut {
      var waiting := Fails(RolloutInProgress, imgPatch.value.generation);
      imgPatch.value := imgPatch.value.(status := imgPatch.value.status.(rolledOut := waiting));
      return Done(Outcome(false, false, false, RolloutInProgress));
    }
    imgPatch.value :=
      imgPatch.value.(status := imgPatch.value.status.(rolledOut := Holds(RolledOut, imgPatch.value.generation)));
    return Done(Outcome(true, false, false, readyReason));
  }

  /* ---- The rules ---- */

  // stalePatches: the other components whose values were applied on another release
  method StalePatches(api: ApiServer, clusterVersion: string, except: ComponentId) returns (stale: set<ComponentId>)
    ensures stale != {} <==> OthersStale(api.Snapshot(), clusterVersion, except)
  {
    hide ChartOf;
    stale := {};
    var names := SUPPORTED;
    while names != {}
      invariant names <= SUPPORTED
      invariant forall d :: d in stale <==>
        d in SUPPORTED - names && d != except && Owned(api.Snapshot(), d) &&
        ManagedIn(api.Snapshot(), d) != clusterVersion
      decreases |names|
    {
      var name :| name in names;
      names := names - {name};
      if name == except {
        continue;
      }
      var current := api.GetHelmChartConfig(ChartOf(name));
      if IsManaged(current, name) && ManagedOn(current, name) != clusterVersion {
        stale := stale + {name};
      }
    }
  }

  // Every rule a new patch must meet, in the order they are checked
  method CheckRules(api: ApiServer, c: ComponentId, ip: ImagePatch, baseline: string, clusterVersion: string,
                    o: Observed)
    returns (refused: Option<End>)
    ensures refused == Refusal(OthersStale(api.Snapshot(), clusterVersion, c), c, ip, baseline, o)
  {
    hide OthersStale;
    hide Policy.ValidateAgainstBaseline;
    hide Policy.ValidateNotOlderThanCurrent;
    hide Policy.ValidatePatchWindow;
    if !o.othersReadable {
      return Some(Error);
    }
    var stale := StalePatches(api, clusterVersion, c);
    if stale != {} {
      return Some(Blocked(StalePatchesExist));
    }
    if ip.status.appliedTag != "" {
      if Policy.ValidateNotOlderThanCurrent(ip.status.appliedTag, ip.tag).Some? {
        return Some(Blocked(Violation(Policy.NotNewer)));
      }
    }
    if o.tags.None? {
      return Some(Error);
    }
    var violation := Policy.ValidateExplicitTarget(baseline, ip.tag, o.tags.value);
    if violation.Some? {
      return Some(Blocked(Violation(violation.value)));
    }
    if !Policy.IsPatchWindowExempt(c) {
      if o.zeroDay.None? {
        return Some(Error);
      }
      var outside := Policy.ValidatePatchWindow(c, ip.tag, o.zeroDay.value);
      if outside.Some? {
        return Some(Blocked(Violation(outside.value)));
      }
    }
    return None;
  }

  // CompareGeneratedValues
  method Compare(existing: Tree, generated: Tree) returns (present: bool, conflicts: seq<seq<string>>)
    ensures present == Patcher.Present(existing, generated)
    ensures conflicts != [] <==> Patcher.HasConflict(existing, generated)
  {
    hide Patcher.Present;
    hide Patcher.HasConflict;
    hide Patcher.Conflicting;
    var comparer := new Patcher.Comparer();
    comparer.CompareLeaves(existing, generated, []);
    present, conflicts := comparer.allPresent, comparer.conflicts;
    Patcher.ConflictIsSomewhere(existing, generated);
    NonEmptyPaths(existing, generated);
    assert conflicts[0..] == conflicts;
    forall p ensures p in conflicts <==> Patcher.Conflicting(existing, generated, p) {
      assert p[0..] == p;
    }
    if conflicts != [] { assert conflicts[0] in conflicts; }
  }

  lemma NonEmptyPaths(existing: Tree, generated: Tree)
    ensures forall p | Patcher.Conflicting(existing, generated, p) :: [] < p
  {
  }

  /* ---- reconcilePatch ---- */

  // What the spec says of this point: the decision is carried out
  ghost predicate CarriedOut(before: World, c: ComponentId, d: Decision, version: string, v: Verdicts, after: World,
                             ip: ImagePatch, end: End)
  {
    c in before.patches && Stage(after, ip, end) == CarryOut(before, c, d, version, v)
  }

  lemma LeaveIsCarriedOut(w: World, c: ComponentId, ip: ImagePatch, end: End, version: string, v: Verdicts)
    requires c in w.patches
    ensures CarriedOut(w, c, Leave(ip, end), version, v, w, ip, end)
  {
  }

  lemma UndoIsCarriedOut(w: World, c: ComponentId, ip: ImagePatch, after: ImagePatch, end: End, version: string,
                         v: Verdicts)
    requires c in w.patches
    ensures var (w', seen) := Revert(w, c, ConfigOf(w, c), v.apply);
            CarriedOut(w, c, Undo(false, ip, after, end), version, v, w', if seen.Acked? then after else ip,
                       if seen.Acked? then end else AfterWrite(seen))
  {
    hide Revert;
    hide ConfigOf;
  }

  // The spec is marked already: what is left of its revert is made up for
  method FinishRevert(api: ApiServer, imgPatch: PatchObject, c: ComponentId, current: Option<HelmConfig>, o: Observed,
                      ghost version: string, v: Verdicts) returns (end: End)
    requires c in api.patches && current == ConfigOf(api.Snapshot(), c)
    modifies api, imgPatch
    ensures CarriedOut(old(api.Snapshot()), c, DecideMarked(c, old(imgPatch.value), current, o), version, v,
                       api.Snapshot(), imgPatch.value, end)
  {
    hide ConfigOf;
    hide Revert;
    hide CarriedOut;
    hide RevertedCopy;
    hide RevertedEnd;
    ghost var w, ip := api.Snapshot(), imgPatch.value;
    UndoIsCarriedOut(w, c, ip, RevertedCopy(ip, o), RevertedEnd(o), version, v);
    LeaveIsCarriedOut(w, c, RevertedCopy(ip, o), RevertedEnd(o), version, v);
    if IsManaged(current, c) {
      var seen := RevertComponent(api, c, current, v.apply);
      if !seen.Acked? {
        return AfterWrite(seen);
      }
    }
    end := RevertedOutcome(imgPatch, o);
  }

  // A patch applied on a previous release
  method HandleStale(api: ApiServer, imgPatch: PatchObject, c: ComponentId, current: Option<HelmConfig>, o: Observed,
                     ghost version: string, v: Verdicts) returns (end: End)
    requires c in api.patches && current == ConfigOf(api.Snapshot(), c)
    modifies api, imgPatch
    ensures CarriedOut(old(api.Snapshot()), c, DecideStale(c, old(imgPatch.value), current, o), version, v,
                       api.Snapshot(), imgPatch.value, end)
  {
    hide ConfigOf;
    hide Revert;
    hide RevertedCopy;
    hide RevertedEnd;
    hide ManagedOn;
    if imgPatch.value.policy.Manual? {
      imgPatch.value := imgPatch.value.(status := imgPatch.value.status.(clusterVersion := ManagedOn(current, c)));
      return Done(Outcome(false, false, true, Rke2Upgraded));
    }
    if !ValuesOf(current).Map? {
      return Error;
    }
    // Mark first: if the revert fails, a later pass sees the marker and finishes it
    imgPatch.value := imgPatch.value.(marker := Some(imgPatch.value.generation));
    api.UpdateImagePatch(c, imgPatch.value, v.mark);
    if !v.mark.Acked? {
      return AfterWrite(v.mark);
    }
    var seen := RevertComponent(api, c, current, v.apply);
    if !seen.Acked? {
      return AfterWrite(seen);
    }
    end := RevertedOutcome(imgPatch, o);
  }

  // The spec names the tag the release bundles
  method HandleBaseline(api: ApiServer, imgPatch: PatchObject, c: ComponentId, baseline: string,
                        current: Option<HelmConfig>,
                        images: seq<ImageRef>, ghost version: string, v: Verdicts) returns (end: End)
    requires c in api.patches && current == ConfigOf(api.Snapshot(), c)
    modifies api, imgPatch
    ensures CarriedOut(old(api.Snapshot()), c, DecideBaseline(c, old(imgPatch.value), baseline, current, images),
                       version, v,
                       api.Snapshot(), imgPatch.value, end)
  {
    hide ConfigOf;
    hide Revert;
    hide CarriedOut;
    hide RolledOutCondition;
    hide RolloutEnd;
    ghost var w, ip := api.Snapshot(), imgPatch.value;
    ghost var cleared := ip.(status := ip.status.(
      appliedTag := "", clusterVersion := "", applied := Fails(AtBaseline, ip.generation),
      rolledOut := RolledOutCondition(ip, images, baseline)));
    UndoIsCarriedOut(w, c, ip, cleared, RolloutEnd(images, baseline, AtBaseline), version, v);
    LeaveIsCarriedOut(w, c, cleared, RolloutEnd(images, baseline, AtBaseline), version, v);
    if IsManaged(current, c) {
      var seen := RevertComponent(api, c, current, v.apply);
      if !seen.Acked? {
        return AfterWrite(seen);
      }
    }
    imgPatch.value := imgPatch.value.(status := imgPatch.value.status.(appliedTag := "", clusterVersion := ""));
    imgPatch.value :=
      imgPatch.value.(status := imgPatch.value.status.(applied := Fails(AtBaseline, imgPatch.value.generation)));
    ConditionIsOfSpec(ip, imgPatch.value, images, baseline);
    end := RolloutOutcomeFor(imgPatch, images, baseline, AtBaseline);
  }

  lemma ConditionIsOfSpec(ip: ImagePatch, copy: ImagePatch, images: seq<ImageRef>, tag: string)
    requires copy.generation == ip.generation
    ensures RolledOutCondition(copy, images, tag) == RolledOutCondition(ip, images, tag)
  {
  }

  // Already applied
  method KeepApplied(api: ApiServer, imgPatch: PatchObject, c: ComponentId, baseline: string,
                     current: Option<HelmConfig>,
                     images: seq<ImageRef>, ghost version: string, v: Verdicts) returns (end: End)
    requires c in api.patches && current == ConfigOf(api.Snapshot(), c)
    modifies api, imgPatch
    ensures CarriedOut(old(api.Snapshot()), c, DecideKeep(c, old(imgPatch.value), baseline, current, images), version,
                       v,
                       api.Snapshot(), imgPatch.value, end)
  {
    hide ConfigOf;
    hide Revert;
    hide CarriedOut;
    hide RolledOutCondition;
    hide RolloutEnd;
    hide ManagedOn;
    hide Policy.ValidateAgainstBaseline;
    ghost var w, ip := api.Snapshot(), imgPatch.value;
    var violation := Policy.ValidateAgainstBaseline(baseline, imgPatch.value.tag);
    if violation.Some? {
      ghost var dropped :=
          ip.(status := ip.status.(appliedTag := "", clusterVersion := "", applied := Fails(Reverted, ip.generation)));
      UndoIsCarriedOut(w, c, ip, dropped, Blocked(Violation(violation.value)), version, v);
      var seen := RevertComponent(api, c, current, v.apply);
      if !seen.Acked? {
        return AfterWrite(seen);
      }
      imgPatch.value := imgPatch.value.(status := imgPatch.value.status.(appliedTag := "", clusterVersion := ""));
      imgPatch.value :=
        imgPatch.value.(status := imgPatch.value.status.(applied := Fails(Reverted, imgPatch.value.generation)));
      return Blocked(Violation(violation.value));
    }
    LeaveIsCarriedOut(w, c, AppliedCopy(ip, ManagedOn(current, c), images), RolloutEnd(images, ip.tag, PatchedTo),
                      version, v);
    end := RecordApplied(imgPatch, ManagedOn(current, c), images);
  }

  method RecordApplied(imgPatch: PatchObject, version: string, images: seq<ImageRef>) returns (end: End)
    modifies imgPatch
    ensures imgPatch.value == AppliedCopy(old(imgPatch.value), version, images)
    ensures end == RolloutEnd(images, old(imgPatch.value).tag, PatchedTo)
  {
    hide RolledOutCondition;
    hide RolloutEnd;
    ghost var ip := imgPatch.value;
    imgPatch.value :=
      imgPatch.value.(status := imgPatch.value.status.(appliedTag := imgPatch.value.tag, clusterVersion := version));
    imgPatch.value :=
      imgPatch.value.(status := imgPatch.value.status.(applied := Holds(Cluster.Applied, imgPatch.value.generation)));
    ConditionIsOfSpec(ip, imgPatch.value, images, ip.tag);
    end := RolloutOutcomeFor(imgPatch, images, imgPatch.value.tag, PatchedTo);
  }

  // Merges the generated values and writes the object that was read
  method ApplyPatch(api: ApiServer, imgPatch: PatchObject, c: ComponentId, current: Option<HelmConfig>,
                    images: seq<ImageRef>,
                    version: string, v: Verdicts) returns (end: End)
    requires c in api.patches && current == ConfigOf(api.Snapshot(), c)
    modifies api, imgPatch
    ensures CarriedOut(old(api.Snapshot()), c, Write(old(imgPatch.value), images), version, v,
                       api.Snapshot(), imgPatch.value, end)
  {
    hide ChartOf;
    hide GeneratedValues;
    hide RepositoryFor;
    hide Merge;
    hide AppliedCopy;
    hide RolloutEnd;
    var merged := PatchedConfig(c, current, RepositoryFor(c, images), imgPatch.value.tag, version);
    hide PatchedConfig;
    var read := if current.Some? then Some(current.value.resourceVersion) else None;
    var seen := api.ApplyHelmChartConfig(ChartOf(c), merged, read, v.apply);
    if seen.Conflicted? {
      return Done(Outcome(false, false, false, Retrying));
    }
    if !seen.Acked? {
      return AfterWrite(seen);
    }
    end := RecordApplied(imgPatch, version, images);
  }

  // The part of reconcilePatch that works towards spec.tag
  method DriveTowardsTag(api: ApiServer, imgPatch: PatchObject, c: ComponentId, baseline: string, version: string,
                         current: Option<HelmConfig>, images: seq<ImageRef>, o: Observed, v: Verdicts)
    returns (end: End)
    requires c in api.patches && current == ConfigOf(api.Snapshot(), c)
    modifies api, imgPatch
    ensures CarriedOut(old(api.Snapshot()), c,
                       DecideCurrent(OthersStale(old(api.Snapshot()), version, c), c, old(imgPatch.value), baseline,
                                     current, images, o),
                       version, v, api.Snapshot(), imgPatch.value, end)
  {
    hide ConfigOf;
    hide CarriedOut;
    hide OthersStale;
    hide GeneratedValues;
    hide RepositoryFor;
    hide DecideBaseline;
    hide DecideKeep;
    hide Refusal;
    hide ManagedOn;
    hide Patcher.Present;
    hide Patcher.HasConflict;
    ghost var w, ip := api.Snapshot(), imgPatch.value;
    if imgPatch.value.tag == baseline {
      end := HandleBaseline(api, imgPatch, c, baseline, current, images, version, v);
      return;
    }
    var generatedValues := GeneratedValues(c, RepositoryFor(c, images), imgPatch.value.tag);
    var values := ValuesOf(current);
    if !values.Map? {
      LeaveIsCarriedOut(w, c, ip, Error, version, v);
      return Error;
    }
    var present, conflicts := Compare(values, generatedValues);
    if IsManaged(current, c) && present {
      end := KeepApplied(api, imgPatch, c, baseline, current, images, version, v);
      return;
    }
    var refused := CheckRules(api, c, imgPatch.value, baseline, version, o);
    if refused.Some? {
      LeaveIsCarriedOut(w, c, ip, refused.value, version, v);
      return refused.value;
    }
    if !IsManaged(current, c) && conflicts != [] {
      LeaveIsCarriedOut(w, c, ip, Blocked(ConflictingOverride), version, v);
      return Blocked(ConflictingOverride);
    }
    end := ApplyPatch(api, imgPatch, c, current, images, version, v);
  }

  // reconcilePatch after the marker was looked at
  method Drive(api: ApiServer, imgPatch: PatchObject, c: ComponentId, baseline: string, version: string,
               current: Option<HelmConfig>, o: Observed, v: Verdicts) returns (end: End)
    requires c in api.patches && current == ConfigOf(api.Snapshot(), c)
    requires imgPatch.value.marker != Some(imgPatch.value.generation)
    modifies api, imgPatch
    ensures CarriedOut(old(api.Snapshot()), c,
                       Decide(old(api.Snapshot()), c, old(imgPatch.value), baseline, version, o), version, v,
                       api.Snapshot(), imgPatch.value, end)
  {
    hide ConfigOf;
    hide CarriedOut;
    hide OthersStale;
    hide DecideCurrent;
    hide DecideStale;
    hide ManagedOn;
    ghost var w, ip := api.Snapshot(), imgPatch.value;
    if IsManaged(current, c) && ManagedOn(current, c) != version {
      end := HandleStale(api, imgPatch, c, current, o, version, v);
      return;
    }
    if o.images.None? {
      LeaveIsCarriedOut(w, c, ip, Error, version, v);
      return Error;
    }
    imgPatch.value := imgPatch.value.(status := imgPatch.value.status.(runningImages := o.images.value));
    end := DriveTowardsTag(api, imgPatch, c, baseline, version, current, o.images.value, o, v);
  }

  // The modes, the release and the layout of the bundled chart
  method CheckGates(api: ApiServer, c: ComponentId, o: Observed) returns (gate: Gate)
    ensures gate == Gates(api.Snapshot(), c, o)
  {
    hide Patcher.BundledOf;
    if o.prime.None? {
      return Shut(Error);
    }
    if !o.prime.value {
      return Shut(Blocked(NotPrime));
    }
    if !o.cliReadable {
      return Shut(Error);
    }
    if api.cli != map[] {
      return Shut(Blocked(CliPatchesExist));
    }
    if o.version.None? {
      return Shut(Error);
    }
    if o.chart.None? {
      return Shut(Error);
    }
    var bundled := Patcher.BundledImageTag(c, o.chart.value);
    if !bundled.BundledTag? {
      return Shut(Blocked(ChartLayoutMismatch));
    }
    return Open(bundled.tag, o.version.value);
  }

  // From the object's own HelmChartConfig on
  method ReconcileCurrent(api: ApiServer, imgPatch: PatchObject, c: ComponentId, baseline: string, version: string,
                          o: Observed, v: Verdicts)
    returns (end: End)
    requires c in api.patches
    modifies api, imgPatch
    ensures Stage(api.Snapshot(), imgPatch.value, end) ==
            FromConfig(old(api.Snapshot()), c, old(imgPatch.value), baseline, version, o, v)
  {
    hide Decide;
    hide CarryOut;
    hide DecideMarked;
    hide UpdatePatch;
    ghost var w, ip := api.Snapshot(), imgPatch.value;
    var current := api.GetHelmChartConfig(ChartOf(c));
    assert current == ConfigOf(api.Snapshot(), c);
    hide ConfigOf;
    if imgPatch.value.marker.Some? {
      if imgPatch.value.marker.value == imgPatch.value.generation {
        MarkedIsDecided(w, c, ip, baseline, version, o);
        end := FinishRevert(api, imgPatch, c, current, o, version, v);
        return;
      }
      imgPatch.value := imgPatch.value.(marker := None);
      UpdateLeavesConfigs(w, c, imgPatch.value, v.unmark);
      api.UpdateImagePatch(c, imgPatch.value, v.unmark);
      if !v.unmark.Acked? {
        return AfterWrite(v.unmark);
      }
    }
    end := Drive(api, imgPatch, c, baseline, version, current, o, v);
  }

  lemma UpdateLeavesConfigs(w: World, c: ComponentId, ip: ImagePatch, v: Verdict)
    requires c in w.patches
    ensures var w' := UpdatePatch(w, c, ip, v); ConfigOf(w', c) == ConfigOf(w, c) && c in w'.patches
  {
    hide ChartOf;
  }

  method ReconcilePatch(api: ApiServer, imgPatch: PatchObject, c: ComponentId, o: Observed, v: Verdicts)
    returns (end: End)
    requires c in api.patches
    modifies api, imgPatch
    ensures Stage(api.Snapshot(), imgPatch.value, end) ==
            Reconciliation.ReconcilePatch(old(api.Snapshot()), c, old(imgPatch.value), o, v)
  {
    hide Gates;
    hide Decide;
    hide CarryOut;
    hide UpdatePatch;
    var gate := CheckGates(api, c, o);
    if gate.Shut? {
      return gate.end;
    }
    imgPatch.value := imgPatch.value.(status := imgPatch.value.status.(baselineTag := gate.baseline));
    if !o.configReadable {
      return Error;
    }
    end := ReconcileCurrent(api, imgPatch, c, gate.baseline, gate.version, o, v);
  }

  lemma MarkedIsDecided(w: World, c: ComponentId, ip: ImagePatch, baseline: string, version: string, o: Observed)
    requires ip.marker == Some(ip.generation)
    ensures Decide(w, c, ip, baseline, version, o) == DecideMarked(c, ip, ConfigOf(w, c), o)
  {
    hide ConfigOf;
    hide DecideMarked;
    hide DecideStale;
    hide DecideCurrent;
    hide OthersStale;
  }

  /* ---- Status, deletion and the whole pass ---- */

  // The conditions every pass sets
  method SetConditions(imgPatch: PatchObject, outcome: Outcome)
    modifies imgPatch
    ensures imgPatch.value == old(imgPatch.value).(status := FinalStatus(old(imgPatch.value), outcome))
  {
    var generation := imgPatch.value.generation;
    var status := imgPatch.value.status;
    status := status.(blocked := if outcome.blocked then Holds(outcome.why, generation)
                                 else Fails(NotBlocked, generation));
    status := status.(stale := if outcome.stale then Holds(outcome.why, generation) else Fails(Current, generation));
    status := status.(ready := if outcome.ready then Holds(outcome.why, generation)
                               else Fails(outcome.why, generation));
    status := status.(observedGeneration := generation);
    imgPatch.value := imgPatch.value.(status := status);
  }

  method WriteStatus(api: ApiServer, imgPatch: PatchObject, c: ComponentId, previous: Status, outcome: Outcome,
                     v: Verdict)
    modifies api, imgPatch
    ensures api.Snapshot() ==
            Reconciliation.WriteStatus(old(api.Snapshot()), c, old(imgPatch.value), previous, outcome, v)
  {
    hide FinalStatus;
    hide Lands;
    SetConditions(imgPatch, outcome);
    var status := imgPatch.value.status;
    if previous == status {
      return;
    }
    if c in api.patches {
      api.UpdateStatus(c, status, v);
    }
  }

  method Finalize(api: ApiServer, c: ComponentId, o: Observed, v: Verdicts)
    requires c in api.patches
    modifies api
    ensures api.Snapshot() == Reconciliation.Finalize(old(api.Snapshot()), c, o, v)
  {
    hide Revert;
    hide ManagedOn;
    if !api.patches[c].finalizer {
      return;
    }
    if !o.configReadable {
      return;
    }
    var current := api.GetHelmChartConfig(ChartOf(c));
    assert current == ConfigOf(api.Snapshot(), c);
    if IsManaged(current, c) {
      var seen := RevertComponent(api, c, current, v.apply);
      if !seen.Acked? {
        return;
      }
    }
    api.RemoveFinalizer(c, v.finalizer);
  }

  /** One run of Reconcile does exactly what the specified pass does. */
  method Reconcile(api: ApiServer, c: ComponentId, o: Observed, v: Verdicts)
    modifies api
    ensures api.Snapshot() == Pass(old(api.Snapshot()), c, o, v)
  {
    hide Reconciliation.ReconcilePatch;
    hide Reconciliation.WriteStatus;
    hide Reconciliation.Finalize;
    if c !in api.patches {
      return;
    }
    var imgPatch := new PatchObject(api.patches[c]);
    if imgPatch.value.deleting {
      Finalize(api, c, o, v);
      return;
    }
    if !imgPatch.value.finalizer {
      imgPatch.value := imgPatch.value.(finalizer := true);
      api.UpdateImagePatch(c, imgPatch.value, v.finalizer);
      if !v.finalizer.Acked? {
        return;
      }
    }
    var previous := imgPatch.value.status;
    var end := ReconcilePatch(api, imgPatch, c, o, v);
    match end {
      case Crash => return;
      case Error => WriteStatus(api, imgPatch, c, previous, Outcome(false, false, false, Failure), v.status);
      case Done(outcome) => WriteStatus(api, imgPatch, c, previous, outcome, v.status);
    }
  }
}
