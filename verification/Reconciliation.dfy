/** One controller pass as a function of the cluster, of what the pass observes and of how its
    writes fare. The order of reads and writes, and every early exit, are the reconciler's. */
module Reconciliation {
  import opened Text
  import opened Values
  import opened Components
  import opened Calendar
  import opened Cluster
  import Patcher
  import Policy

  // What the pass reads from outside the modelled objects; None or false is a failed read
  datatype Observed = Observed(
    prime: Option<bool>, cliReadable: bool, version: Option<string>, chart: Option<Tree>,
    configReadable: bool, images: Option<seq<ImageRef>>, othersReadable: bool,
    tags: Option<seq<string>>, zeroDay: Option<Date>)

  // How the writes of the pass fare
  datatype Verdicts = Verdicts(finalizer: Verdict, unmark: Verdict, mark: Verdict, apply: Verdict, status: Verdict)

  // Every write succeeds
  const SMOOTH := Verdicts(Acked, Acked, Acked, Acked, Acked)

  datatype Outcome = Outcome(ready: bool, blocked: bool, stale: bool, why: Why)

  datatype End = Crash | Error | Done(outcome: Outcome)

  // The cluster, the pass's own copy of the ImagePatch, and how the pass ended
  datatype Stage = Stage(world: World, ip: ImagePatch, end: End)

  function Blocked(why: Why): End {
    Done(Outcome(false, true, false, why))
  }

  function AfterWrite(v: Verdict): End
    requires !v.Acked?
  {
    if v.Crashed? then Crash else Error
  }

  /* ---- Reverting ---- */

  function RevertedConfig(c: ComponentId, config: HelmConfig): HelmConfig
    requires config.values.Map?
  {
    config.(values := Patcher.Reverted(c, config.values), annotations := config.annotations - {Managed(c)})
  }

  // The cluster after a revert of what was read, and what the pass sees
  function Revert(w: World, c: ComponentId, current: Option<HelmConfig>, v: Verdict): (World, Verdict) {
    if current.None? then (w, Acked)
    else if !current.value.values.Map? then (w, Failed(false))
    else
      var read := Some(current.value.resourceVersion);
      (Apply(w, ChartOf(c), read, RevertedConfig(c, current.value), v), Answer(w, ChartOf(c), read, v))
  }

  /* ---- What a pass decides ---- */

  // What remains to be done once everything has been read: nothing, a revert (marking the spec
  // first, or not), or a patch. `ip` is the pass's copy as it stands before the write, `after`
  // what it becomes when the write is acknowledged.
  datatype Decision =
    | Leave(ip: ImagePatch, end: End)
    | Undo(mark: bool, ip: ImagePatch, after: ImagePatch, end: End)
    | Write(ip: ImagePatch, images: seq<ImageRef>)

  predicate AllRun(images: seq<ImageRef>, tag: string) {
    images != [] && forall i | 0 <= i < |images| :: images[i].tag == tag
  }

  function RolledOutCondition(ip: ImagePatch, images: seq<ImageRef>, tag: string): Condition {
    if AllRun(images, tag) then Holds(RolledOut, ip.generation) else Fails(RolloutInProgress, ip.generation)
  }

  function RolloutEnd(images: seq<ImageRef>, tag: string, ready: Why): End {
    if AllRun(images, tag) then Done(Outcome(true, false, false, ready))
    else Done(Outcome(false, false, false, RolloutInProgress))
  }

  // Reports a spec reverted after an upgrade
  function RevertedCopy(ip: ImagePatch, o: Observed): ImagePatch {
    if o.images.None? then ip
    else
      ip.(status := ip.status.(
        runningImages := o.images.value, appliedTag := "", clusterVersion := "",
        applied := Fails(RevertedAfterUpgrade, ip.generation), rolledOut := Fails(NotApplied, ip.generation)))
  }

  function RevertedEnd(o: Observed): End {
    if o.images.None? then Error else Done(Outcome(false, false, false, RevertedAfterUpgrade))
  }

  // The values of a patch keep the registry path of the running image
  function RepositoryFor(c: ComponentId, images: seq<ImageRef>): string {
    WithoutRegistry(if images != [] then images[0].name else Repository(c))
  }

  predicate OthersStale(w: World, version: string, c: ComponentId) {
    exists d | d in SUPPORTED :: d != c && Owned(w, d) && ManagedIn(w, d) != version
  }

  // The rules a new patch must meet; None when it meets them all
  function Refusal(othersStale: bool, c: ComponentId, ip: ImagePatch, baseline: string, o: Observed): Option<End> {
    if !o.othersReadable then Some(Error)
    else if othersStale then Some(Blocked(StalePatchesExist))
    else if ip.status.appliedTag != "" && Policy.ValidateNotOlderThanCurrent(ip.status.appliedTag, ip.tag).Some? then
      Some(Blocked(Violation(Policy.NotNewer)))
    else if o.tags.None? then Some(Error)
    else
      match Policy.ValidateTarget(baseline, ip.tag, o.tags.value)
      case Some(reason) => Some(Blocked(Violation(reason)))
      case None =>
        if Policy.IsPatchWindowExempt(c) then None
        else if o.zeroDay.None? then Some(Error)
        else
          match Policy.ValidatePatchWindow(c, ip.tag, o.zeroDay.value)
          case Some(reason) => Some(Blocked(Violation(reason)))
          case None => None
  }

  // The marker names this very spec: finish the revert if it was interrupted
  function DecideMarked(c: ComponentId, ip: ImagePatch, current: Option<HelmConfig>, o: Observed): Decision {
    if IsManaged(current, c) then Undo(false, ip, RevertedCopy(ip, o), RevertedEnd(o))
    else Leave(RevertedCopy(ip, o), RevertedEnd(o))
  }

  // A patch applied on another release
  function DecideStale(c: ComponentId, ip: ImagePatch, current: Option<HelmConfig>, o: Observed): Decision {
    if ip.policy.Manual? then
      Leave(ip.(status := ip.status.(clusterVersion := ManagedOn(current, c))),
            Done(Outcome(false, false, true, Rke2Upgraded)))
    else if !ValuesOf(current).Map? then Leave(ip, Error)
    else
      // Mark first: a revert that fails is finished by a later pass
      var marked := ip.(marker := Some(ip.generation));
      Undo(true, marked, RevertedCopy(marked, o), RevertedEnd(o))
  }

  // A spec with the bundled tag wants the component as the release ships it
  function DecideBaseline(c: ComponentId, ip: ImagePatch, baseline: string, current: Option<HelmConfig>,
                          images: seq<ImageRef>): Decision
  {
    var cleared := ip.(status := ip.status.(
      appliedTag := "", clusterVersion := "", applied := Fails(AtBaseline, ip.generation),
      rolledOut := RolledOutCondition(ip, images, baseline)));
    var end := RolloutEnd(images, baseline, AtBaseline);
    if IsManaged(current, c) then Undo(false, ip, cleared, end) else Leave(cleared, end)
  }

  // Already applied: only the bundled tag may have moved past the patch
  function DecideKeep(c: ComponentId, ip: ImagePatch, baseline: string, current: Option<HelmConfig>,
                      images: seq<ImageRef>): Decision
  {
    match Policy.ValidateAgainstBaseline(baseline, ip.tag)
    case Some(reason) =>
      Undo(false, ip,
           ip.(status := ip.status.(appliedTag := "", clusterVersion := "", applied := Fails(Reverted, ip.generation))),
           Blocked(Violation(reason)))
    case None => Leave(AppliedCopy(ip, ManagedOn(current, c), images), RolloutEnd(images, ip.tag, PatchedTo))
  }

  function AppliedCopy(ip: ImagePatch, version: string, images: seq<ImageRef>): ImagePatch {
    ip.(status := ip.status.(
      appliedTag := ip.tag, clusterVersion := version, applied := Holds(Applied, ip.generation),
      rolledOut := RolledOutCondition(ip, images, ip.tag)))
  }

  function DecideCurrent(othersStale: bool, c: ComponentId, ip: ImagePatch, baseline: string,
                         current: Option<HelmConfig>, images: seq<ImageRef>, o: Observed): Decision
  {
    var generated := GeneratedValues(c, RepositoryFor(c, images), ip.tag);
    var values := ValuesOf(current);
    if ip.tag == baseline then DecideBaseline(c, ip, baseline, current, images)
    else if !values.Map? then Leave(ip, Error)
    else if IsManaged(current, c) && Patcher.Present(values, generated) then
      DecideKeep(c, ip, baseline, current, images)
    else
      match Refusal(othersStale, c, ip, baseline, o)
      case Some(end) => Leave(ip, end)
      case None =>
        if !IsManaged(current, c) && Patcher.HasConflict(values, generated) then Leave(ip, Blocked(ConflictingOverride))
        else Write(ip, images)
  }

  function Decide(w: World, c: ComponentId, ip: ImagePatch, baseline: string, version: string, o: Observed): Decision {
    var current := ConfigOf(w, c);
    if ip.marker == Some(ip.generation) then DecideMarked(c, ip, current, o)
    else if IsManaged(current, c) && ManagedOn(current, c) != version then DecideStale(c, ip, current, o)
    else if o.images.None? then Leave(ip, Error)
    else
      DecideCurrent(OthersStale(w, version, c), c, ip.(status := ip.status.(runningImages := o.images.value)), baseline,
                    current, o.images.value, o)
  }

  /* ---- Carrying a decision out ---- */

  function PatchedConfig(c: ComponentId, config: Option<HelmConfig>, repository: string, tag: string,
                         version: string): HelmConfig
  {
    var base := if config.Some? then config.value else HelmConfig(EMPTY, map[], "", 0);
    var generated := GeneratedValues(c, repository, tag);
    base.(values := if base.values.Map? then Merge(base.values, generated) else generated,
          annotations := base.annotations[Managed(c) := version])
  }

  function CarryOutUndo(w: World, c: ComponentId, d: Decision, v: Verdicts): Stage
    requires c in w.patches && d.Undo?
  {
    var w1 := if d.mark then UpdatePatch(w, c, d.ip, v.mark) else w;
    if d.mark && !v.mark.Acked? then Stage(w1, d.ip, AfterWrite(v.mark))
    else
      var (w2, seen) := Revert(w1, c, ConfigOf(w, c), v.apply);
      if !seen.Acked? then Stage(w2, d.ip, AfterWrite(seen)) else Stage(w2, d.after, d.end)
  }

  function CarryOutWrite(w: World, c: ComponentId, d: Decision, version: string, v: Verdict): Stage
    requires d.Write?
  {
    var chart, current, ip := ChartOf(c), ConfigOf(w, c), d.ip;
    var read := VersionOf(w, chart);
    var config := PatchedConfig(c, current, RepositoryFor(c, d.images), ip.tag, version);
    var w' := Apply(w, chart, read, config, v);
    var seen := Answer(w, chart, read, v);
    if seen.Conflicted? then Stage(w', ip, Done(Outcome(false, false, false, Retrying)))
    else if !seen.Acked? then Stage(w', ip, AfterWrite(seen))
    else Stage(w', AppliedCopy(ip, version, d.images), RolloutEnd(d.images, ip.tag, PatchedTo))
  }

  function CarryOut(w: World, c: ComponentId, d: Decision, version: string, v: Verdicts): Stage
    requires c in w.patches
  {
    match d
    case Leave(ip, end) => Stage(w, ip, end)
    case Undo(_, _, _, _) => CarryOutUndo(w, c, d, v)
    case Write(_, _) => CarryOutWrite(w, c, d, version, v.apply)
  }

  // The gates before the object's own HelmChartConfig is looked at: the bundled tag and the
  // version, or the end of the pass
  datatype Gate = Open(baseline: string, version: string) | Shut(end: End)

  function Gates(w: World, c: ComponentId, o: Observed): Gate {
    if o.prime.None? then Shut(Error)
    else if !o.prime.value then Shut(Blocked(NotPrime))
    else if !o.cliReadable then Shut(Error)
    else if w.cli != map[] then Shut(Blocked(CliPatchesExist))
    else if o.version.None? || o.chart.None? then Shut(Error)
    else
      match Patcher.BundledOf(c, o.chart.value)
      case BundledTag(baseline) => Open(baseline, o.version.value)
      case _ => Shut(Blocked(ChartLayoutMismatch))
  }

  // A marker for an older spec generation is removed first
  predicate Outdated(ip: ImagePatch) {
    ip.marker.Some? && ip.marker != Some(ip.generation)
  }

  // From the object's own HelmChartConfig on
  function FromConfig(w: World, c: ComponentId, ip: ImagePatch, baseline: string, version: string, o: Observed,
                      v: Verdicts): Stage
    requires c in w.patches
  {
    if Outdated(ip) then
      var unmarked := ip.(marker := None);
      var w' := UpdatePatch(w, c, unmarked, v.unmark);
      if !v.unmark.Acked? then Stage(w', unmarked, AfterWrite(v.unmark))
      else CarryOut(w', c, Decide(w', c, unmarked, baseline, version, o), version, v)
    else CarryOut(w, c, Decide(w, c, ip, baseline, version, o), version, v)
  }

  function ReconcilePatch(w: World, c: ComponentId, ip: ImagePatch, o: Observed, v: Verdicts): Stage
    requires c in w.patches
  {
    match Gates(w, c, o)
    case Shut(end) => Stage(w, ip, end)
    case Open(baseline, version) =>
      var based := ip.(status := ip.status.(baselineTag := baseline));
      if !o.configReadable then Stage(w, based, Error) else FromConfig(w, c, based, baseline, version, o, v)
  }

  /* ---- Status, deletion and the whole pass ---- */

  function FinalStatus(ip: ImagePatch, outcome: Outcome): Status {
    var g := ip.generation;
    ip.status.(
      blocked := if outcome.blocked then Holds(outcome.why, g) else Fails(NotBlocked, g),
      stale := if outcome.stale then Holds(outcome.why, g) else Fails(Current, g),
      ready := if outcome.ready then Holds(outcome.why, g) else Fails(outcome.why, g),
      observedGeneration := g)
  }

  // An unchanged status is not written
  function WriteStatus(w: World, c: ComponentId, ip: ImagePatch, previous: Status, outcome: Outcome,
                       v: Verdict): World
  {
    var status := FinalStatus(ip, outcome);
    if status != previous && Lands(v) && c in w.patches then
      w.(patches := w.patches[c := w.patches[c].(status := status)])
    else w
  }

  function Finalize(w: World, c: ComponentId, o: Observed, v: Verdicts): World {
    if c !in w.patches || !w.patches[c].finalizer then w
    else if !o.configReadable then w
    else
      var current := ConfigOf(w, c);
      var (w', seen) := if IsManaged(current, c) then Revert(w, c, current, v.apply) else (w, Acked);
      // Without its finalizer a deleted ImagePatch is gone
      if seen.Acked? && Lands(v.finalizer) then w'.(patches := w'.patches - {c}) else w'
  }

  function Pass(w: World, c: ComponentId, o: Observed, v: Verdicts): World {
    if c !in w.patches then w
    else if w.patches[c].deleting then Finalize(w, c, o, v)
    else
      var ip := w.patches[c].(finalizer := true);
      var w1 := if w.patches[c].finalizer then w else UpdatePatch(w, c, ip, v.finalizer);
      if !w.patches[c].finalizer && !v.finalizer.Acked? then w1
      else
        var stage := ReconcilePatch(w1, c, ip, o, v);
        match stage.end
        case Crash => stage.world
        case Error => WriteStatus(stage.world, c, stage.ip, ip.status, Outcome(false, false, false, Failure), v.status)
        case Done(outcome) => WriteStatus(stage.world, c, stage.ip, ip.status, outcome, v.status)
  }
}
