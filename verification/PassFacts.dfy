/** What one pass can do: at most one HelmChartConfig write, on the version it read, and under which
    conditions. Every statement about runs rests on this summary. */
module PassFacts {
  import opened Text
  import opened Components
  import opened Cluster
  import opened Reconciliation
  import Patcher
  import Policy

  // What the status says of how a pass ended
  function OutcomeOf(end: End): Outcome {
    if end.Done? then end.outcome else Outcome(false, false, false, Failure)
  }

  // What a pass does to its component's HelmChartConfig
  datatype Effect =
    | NoWrite
    | Reverts
    | Patches(repository: string, tag: string, version: string)
    | Overtaken(edit: HelmConfig)  // another client's write came first; the pass wrote nothing

  predicate ConfigStep(w: World, w': World, c: ComponentId, e: Effect) {
    var chart := ChartOf(c);
    match e
    case NoWrite => w'.configs == w.configs && w'.nextVersion == w.nextVersion
    case Overtaken(edit) => w'.configs == Put(w, chart, edit).configs && w'.nextVersion == w.nextVersion + 1
    case Reverts =>
      chart in w.configs && w.configs[chart].values.Map? &&
      w'.configs == Put(w, chart, RevertedConfig(c, w.configs[chart])).configs && w'.nextVersion == w.nextVersion + 1
    case Patches(repository, tag, version) =>
      ValuesOf(ConfigOf(w, c)).Map? &&
      w'.configs == Put(w, chart, PatchedConfig(c, ConfigOf(w, c), repository, tag, version)).configs &&
      w'.nextVersion == w.nextVersion + 1
  }

  /** Every rule a patch has met when it is written, given the bundled tag and the version seen. */
  predicate MayPatch(w: World, c: ComponentId, ip: ImagePatch, baseline: string, version: string, o: Observed,
                     repository: string)
  {
    var generated := GeneratedValues(c, repository, ip.tag);
    var values := ValuesOf(ConfigOf(w, c));
    && ip.marker != Some(ip.generation)
    && o.images.Some? && repository == RepositoryFor(c, o.images.value)
    && ip.tag != baseline
    && values.Map?
    && (Owned(w, c) ==> ManagedIn(w, c) == version && !Patcher.Present(values, generated))
    && (!Owned(w, c) ==> !Patcher.HasConflict(values, generated))
    && !OthersStale(w, version, c)
    && (ip.status.appliedTag != "" ==> Policy.ValidateNotOlderThanCurrent(ip.status.appliedTag, ip.tag).None?)
    && o.tags.Some? && Policy.ValidateTarget(baseline, ip.tag, o.tags.value).None?
    && (Policy.IsPatchWindowExempt(c) ||
        (o.zeroDay.Some? && Policy.ValidatePatchWindow(c, ip.tag, o.zeroDay.value).None?))
  }

  /** The only occasions for a pass over a live ImagePatch to revert: its spec is marked as reverted,
      it is marked now because the patch is from another release, or the bundled tag has reached it. */
  predicate MayRevert(w: World, c: ComponentId, ip: ImagePatch, baseline: string, version: string, mark: bool) {
    Owned(w, c) &&
    if mark then ManagedIn(w, c) != version && ip.policy.AutoRevert? && ip.marker != Some(ip.generation)
    else ip.marker == Some(ip.generation) ||
         (ManagedIn(w, c) == version &&
          (ip.tag == baseline || Policy.ValidateAgainstBaseline(baseline, ip.tag).Some?))
  }

  predicate SameSpec(a: ImagePatch, b: ImagePatch) {
    a.tag == b.tag && a.policy == b.policy && a.generation == b.generation &&
    a.deleting == b.deleting && a.finalizer == b.finalizer
  }

  // The pass's copy agrees with the stored object, status aside
  predicate Copies(ip: ImagePatch, stored: ImagePatch) {
    SameSpec(ip, stored) && ip.marker == stored.marker
  }

  // Nothing but the component's own marker differs
  predicate OnlyMarker(p: map<ComponentId, ImagePatch>, q: map<ComponentId, ImagePatch>, c: ComponentId) {
    c in p && q.Keys == p.Keys && (forall d | d in p && d != c :: q[d] == p[d]) &&
    SameSpec(q[c], p[c]) && q[c].status == p[c].status
  }

  /* ---- Effects ---- */

  function RevertEffect(config: Option<HelmConfig>, v: Verdict): Effect {
    if config.None? || !config.value.values.Map? then NoWrite
    else if v.Raced? then Overtaken(v.edit)
    else if Lands(v) then Reverts
    else NoWrite
  }

  // What a race needs to be noticed
  ghost predicate Versioned(w: World, v: Verdict) {
    v.Raced? ==> VersionsBelow(w)
  }

  lemma UnracedIsVersioned(w: World, v: Verdict)
    requires !v.Raced?
    ensures Versioned(w, v)
  {
    hide VersionsBelow;
  }

  lemma VersionedFrame(w: World, w1: World, v: Verdict)
    requires Versioned(w, v) && w1.configs == w.configs && w1.nextVersion == w.nextVersion
    ensures Versioned(w1, v)
  {
  }

  lemma RevertTouches(w: World, c: ComponentId, v: Verdict)
    ensures var w' := Revert(w, c, ConfigOf(w, c), v).0;
            w' == w.(configs := w'.configs, nextVersion := w'.nextVersion)
  {
    hide ChartOf;
    hide Patcher.Reverted;
  }

  lemma RevertHasEffect(w: World, c: ComponentId, v: Verdict)
    requires Versioned(w, v)
    ensures ConfigStep(w, Revert(w, c, ConfigOf(w, c), v).0, c, RevertEffect(ConfigOf(w, c), v))
  {
    hide ChartOf;
    hide Patcher.Reverted;
    hide Put;
    var config := ConfigOf(w, c);
    if config.Some? && config.value.values.Map? {
      PutIsOneStep(w, ChartOf(c), RevertedConfig(c, config.value));
      if v.Raced? {
        StaleWriteIsRefused(w, ChartOf(c), RevertedConfig(c, config.value), v);
        PutIsOneStep(w, ChartOf(c), v.edit);
        hide VersionsBelow;
        hide Apply;
        hide Answer;
      }
      hide RevertedConfig;
    }
  }

  lemma PutIsOneStep(w: World, chart: Chart, config: HelmConfig)
    ensures Put(w, chart, config).nextVersion == w.nextVersion + 1
  {
  }

  function EffectOf(w: World, c: ComponentId, d: Decision, version: string, v: Verdicts): Effect {
    match d
    case Leave(_, _) => NoWrite
    case Undo(mark, _, _, _) => if mark && !v.mark.Acked? then NoWrite else RevertEffect(ConfigOf(w, c), v.apply)
    case Write(ip, images) =>
      if v.apply.Raced? then Overtaken(v.apply.edit)
      else if Lands(v.apply) then Patches(RepositoryFor(c, images), ip.tag, version)
      else NoWrite
  }

  // What a step does depends on the stored HelmChartConfigs alone
  lemma ConfigStepFrame(w: World, w1: World, w': World, c: ComponentId, e: Effect)
    requires w1.configs == w.configs && w1.nextVersion == w.nextVersion
    requires ConfigStep(w1, w', c, e)
    ensures ConfigStep(w, w', c, e) && ConfigOf(w1, c) == ConfigOf(w, c)
  {
    hide ChartOf;
    hide PatchedConfig;
    hide RevertedConfig;
  }

  lemma UndoHasEffect(w: World, c: ComponentId, d: Decision, version: string, v: Verdicts)
    requires c in w.patches && d.Undo? && Versioned(w, v.apply)
    ensures ConfigStep(w, CarryOutUndo(w, c, d, v).world, c, EffectOf(w, c, d, version, v))
  {
    var w1 := if d.mark then UpdatePatch(w, c, d.ip, v.mark) else w;
    assert ConfigOf(w1, c) == ConfigOf(w, c) by { hide ChartOf; }
    VersionedFrame(w, w1, v.apply);
    RevertHasEffect(w1, c, v.apply);
    hide Revert;
    hide RevertEffect;
    if !(d.mark && !v.mark.Acked?) {
      ConfigStepFrame(w, w1, Revert(w1, c, ConfigOf(w, c), v.apply).0, c, RevertEffect(ConfigOf(w, c), v.apply));
      hide ConfigStep;
    }
  }

  lemma WriteTouches(w: World, c: ComponentId, d: Decision, version: string, v: Verdict)
    requires d.Write?
    ensures var s := CarryOutWrite(w, c, d, version, v);
            s.world == w.(configs := s.world.configs, nextVersion := s.world.nextVersion) && SameSpec(d.ip, s.ip)
  {
    hide ChartOf;
    hide PatchedConfig;
    hide RepositoryFor;
    hide RolloutEnd;
    hide RolledOutCondition;
  }

  lemma WriteHasEffect(w: World, c: ComponentId, d: Decision, version: string, v: Verdicts)
    requires d.Write? && ValuesOf(ConfigOf(w, c)).Map? && Versioned(w, v.apply)
    ensures ConfigStep(w, CarryOutWrite(w, c, d, version, v.apply).world, c, EffectOf(w, c, d, version, v))
  {
    hide ChartOf;
    hide PatchedConfig;
    hide RepositoryFor;
    hide RolloutEnd;
    hide RolledOutCondition;
    hide Put;
    var config := PatchedConfig(c, ConfigOf(w, c), RepositoryFor(c, d.images), d.ip.tag, version);
    PutIsOneStep(w, ChartOf(c), config);
    if v.apply.Raced? {
      StaleWriteIsRefused(w, ChartOf(c), config, v.apply);
      PutIsOneStep(w, ChartOf(c), v.apply.edit);
      hide VersionsBelow;
      hide Apply;
      hide Answer;
    }
  }

  lemma MarkTouches(w: World, c: ComponentId, ip: ImagePatch, v: Verdict)
    requires c in w.patches && SameSpec(ip, w.patches[c])
    ensures var w1 := UpdatePatch(w, c, ip, v);
            OnlyMarker(w.patches, w1.patches, c) && w1 == w.(patches := w1.patches) &&
            w1.patches[c].marker == (if Lands(v) then ip.marker else w.patches[c].marker)
  {
  }

  lemma UndoTouches(w: World, c: ComponentId, d: Decision, v: Verdicts)
    requires c in w.patches && d.Undo? && SameSpec(d.ip, w.patches[c]) && SameSpec(d.ip, d.after)
    ensures var s := CarryOutUndo(w, c, d, v);
            s.world.release == w.release && s.world.cli == w.cli && OnlyMarker(w.patches, s.world.patches, c) &&
            SameSpec(d.ip, s.ip) &&
            s.world.patches[c].marker == (if d.mark && Lands(v.mark) then d.ip.marker else w.patches[c].marker)
  {
    MarkTouches(w, c, d.ip, v.mark);
    hide UpdatePatch;
    var w1 := if d.mark then UpdatePatch(w, c, d.ip, v.mark) else w;
    assert ConfigOf(w1, c) == ConfigOf(w, c) by { hide ChartOf; }
    RevertTouches(w1, c, v.apply);
    hide *;
    Unfold(w, c, d, v);
  }

  // CarryOutUndo in its two steps
  lemma Unfold(w: World, c: ComponentId, d: Decision, v: Verdicts)
    requires c in w.patches && d.Undo?
    ensures var w1 := if d.mark then UpdatePatch(w, c, d.ip, v.mark) else w;
            var s := CarryOutUndo(w, c, d, v);
            if d.mark && !v.mark.Acked? then s.world == w1 && s.ip == d.ip
            else s.world == Revert(w1, c, ConfigOf(w, c), v.apply).0 && (s.ip == d.ip || s.ip == d.after)
  {
    hide Revert;
    hide UpdatePatch;
    hide ConfigOf;
  }

  /* ---- Decisions ---- */

  predicate GoodDecision(w: World, c: ComponentId, ip: ImagePatch, baseline: string, version: string, o: Observed,
                         d: Decision)
  {
    match d
    case Leave(ip', _) => SameSpec(ip, ip')
    case Undo(mark, before, after, _) =>
      SameSpec(ip, before) && SameSpec(ip, after) && MayRevert(w, c, ip, baseline, version, mark) &&
      before.marker == (if mark then Some(ip.generation) else ip.marker)
    case Write(before, images) =>
      SameSpec(ip, before) && o.images == Some(images) &&
      MayPatch(w, c, ip, baseline, version, o, RepositoryFor(c, images))
  }

  // No refusal means that every rule is met
  lemma RefusalIsExact(othersStale: bool, c: ComponentId, ip: ImagePatch, baseline: string, o: Observed)
    ensures Refusal(othersStale, c, ip, baseline, o).None? <==>
            o.othersReadable && !othersStale && o.tags.Some? &&
            (ip.status.appliedTag != "" ==> Policy.ValidateNotOlderThanCurrent(ip.status.appliedTag, ip.tag).None?) &&
            Policy.ValidateTarget(baseline, ip.tag, o.tags.value).None? &&
            (Policy.IsPatchWindowExempt(c) ||
             (o.zeroDay.Some? && Policy.ValidatePatchWindow(c, ip.tag, o.zeroDay.value).None?))
  {
    hide Policy.ValidatePatchWindow;
    hide Policy.ValidateNotOlderThanCurrent;
    hide Policy.ValidateTarget;
  }

  lemma BaselineIsGood(w: World, c: ComponentId, ip: ImagePatch, baseline: string, version: string, o: Observed,
                       images: seq<ImageRef>)
    requires ip.tag == baseline
    requires Owned(w, c) ==> ManagedIn(w, c) == version
    ensures GoodDecision(w, c, ip, baseline, version, o, DecideBaseline(c, ip, baseline, ConfigOf(w, c), images))
  {
    hide ConfigOf;
    hide MayPatch;
    hide RolledOutCondition;
    hide RolloutEnd;
    hide Policy.ValidateAgainstBaseline;
  }

  lemma KeepIsGood(w: World, c: ComponentId, ip: ImagePatch, baseline: string, version: string, o: Observed,
                   images: seq<ImageRef>)
    requires Owned(w, c) && ManagedIn(w, c) == version
    ensures GoodDecision(w, c, ip, baseline, version, o, DecideKeep(c, ip, baseline, ConfigOf(w, c), images))
  {
    hide ConfigOf;
    hide MayPatch;
    hide RolledOutCondition;
    hide RolloutEnd;
    hide Policy.ValidateAgainstBaseline;
  }

  lemma LeaveIsGood(w: World, c: ComponentId, ip: ImagePatch, baseline: string, version: string, o: Observed, end: End)
    ensures GoodDecision(w, c, ip, baseline, version, o, Leave(ip, end))
  {
  }

  lemma WriteIsGood(w: World, c: ComponentId, ip: ImagePatch, baseline: string, version: string, o: Observed)
    requires o.images.Some? && MayPatch(w, c, ip, baseline, version, o, RepositoryFor(c, o.images.value))
    ensures GoodDecision(w, c, ip, baseline, version, o, Write(ip, o.images.value))
  {
    hide MayPatch;
    hide RepositoryFor;
  }

  lemma CurrentIsGood(w: World, c: ComponentId, ip: ImagePatch, baseline: string, version: string, o: Observed)
    requires o.images.Some? && ip.marker != Some(ip.generation)
    requires Owned(w, c) ==> ManagedIn(w, c) == version
    ensures GoodDecision(w, c, ip, baseline, version, o,
              DecideCurrent(OthersStale(w, version, c), c, ip, baseline, ConfigOf(w, c), o.images.value, o))
  {
    hide ConfigOf;
    hide OthersStale;
    hide GeneratedValues;
    hide RepositoryFor;
    hide DecideBaseline;
    hide DecideKeep;
    hide Refusal;
    hide MayRevert;
    hide GoodDecision;
    hide Patcher.Present;
    hide Patcher.HasConflict;
    hide Policy.ValidatePatchWindow;
    hide Policy.ValidateNotOlderThanCurrent;
    hide Policy.ValidateTarget;
    var current, images, stale := ConfigOf(w, c), o.images.value, OthersStale(w, version, c);
    var generated := GeneratedValues(c, RepositoryFor(c, images), ip.tag);
    if ip.tag == baseline {
      BaselineIsGood(w, c, ip, baseline, version, o, images);
    } else if !ValuesOf(current).Map? {
      LeaveIsGood(w, c, ip, baseline, version, o, Error);
    } else if Owned(w, c) && Patcher.Present(ValuesOf(current), generated) {
      KeepIsGood(w, c, ip, baseline, version, o, images);
    } else if Refusal(stale, c, ip, baseline, o).Some? {
      LeaveIsGood(w, c, ip, baseline, version, o, Refusal(stale, c, ip, baseline, o).value);
    } else {
      RefusalIsExact(stale, c, ip, baseline, o);
      if !Owned(w, c) && Patcher.HasConflict(ValuesOf(current), generated) {
        LeaveIsGood(w, c, ip, baseline, version, o, Blocked(ConflictingOverride));
      } else {
        WriteIsGood(w, c, ip, baseline, version, o);
      }
    }
  }

  lemma MarkedIsGood(w: World, c: ComponentId, ip: ImagePatch, baseline: string, version: string, o: Observed)
    requires ip.marker == Some(ip.generation)
    ensures GoodDecision(w, c, ip, baseline, version, o, DecideMarked(c, ip, ConfigOf(w, c), o))
  {
    hide ConfigOf;
    hide MayPatch;
    hide Policy.ValidateAgainstBaseline;
  }

  lemma StaleIsGood(w: World, c: ComponentId, ip: ImagePatch, baseline: string, version: string, o: Observed)
    requires ip.marker != Some(ip.generation) && Owned(w, c) && ManagedIn(w, c) != version
    ensures GoodDecision(w, c, ip, baseline, version, o, DecideStale(c, ip, ConfigOf(w, c), o))
  {
    hide ConfigOf;
    hide MayPatch;
    hide Policy.ValidateAgainstBaseline;
  }

  // Recording the running images changes nothing a decision is judged by
  lemma ImagesAreNoMatter(w: World, c: ComponentId, ip: ImagePatch, baseline: string, version: string, o: Observed,
                          d: Decision)
    requires o.images.Some?
    requires GoodDecision(w, c, ip.(status := ip.status.(runningImages := o.images.value)), baseline, version, o, d)
    ensures GoodDecision(w, c, ip, baseline, version, o, d)
  {
    hide ConfigOf;
    hide OthersStale;
    hide GeneratedValues;
    hide RepositoryFor;
    hide Patcher.Present;
    hide Patcher.HasConflict;
    hide Policy.ValidatePatchWindow;
    hide Policy.ValidateNotOlderThanCurrent;
    hide Policy.ValidateTarget;
    hide Policy.ValidateAgainstBaseline;
  }

  /** What a pass may decide, and when. */
  lemma DecisionIsGood(w: World, c: ComponentId, ip: ImagePatch, baseline: string, version: string, o: Observed)
    ensures GoodDecision(w, c, ip, baseline, version, o, Decide(w, c, ip, baseline, version, o))
  {
    hide ConfigOf;
    hide OthersStale;
    hide DecideMarked;
    hide DecideStale;
    hide DecideCurrent;
    hide GoodDecision;
    if ip.marker == Some(ip.generation) {
      MarkedIsGood(w, c, ip, baseline, version, o);
    } else if Owned(w, c) && ManagedIn(w, c) != version {
      StaleIsGood(w, c, ip, baseline, version, o);
    } else if o.images.None? {
      LeaveIsGood(w, c, ip, baseline, version, o, Error);
    } else {
      CurrentIsGood(w, c, ip.(status := ip.status.(runningImages := o.images.value)), baseline, version, o);
      ImagesAreNoMatter(w, c, ip, baseline, version, o, Decide(w, c, ip, baseline, version, o));
    }
  }

  /* ---- The whole pass ---- */

  // How a pass may move the marker of a spec generation
  predicate MarkerStep(before: Option<nat>, after: Option<nat>, generation: nat) {
    after == before || after == Some(generation) || (after == None && before != Some(generation))
  }

  /** What opens the gates: a prime cluster, no CLI state, a known version, and a chart that sets this one
      tag at every tag path, next to the component's repository. */
  predicate Reads(w: World, c: ComponentId, o: Observed, baseline: string, version: string) {
    && o.prime == Some(true)
    && o.cliReadable && w.cli == map[]
    && o.version == Some(version)
    && o.chart.Some? && baseline != ""
    && forall i | 0 <= i < |TagPaths(c)| :: Patcher.SetsTag(o.chart.value, Repository(c), TagPaths(c)[i], baseline)
  }

  lemma OpenMeans(w: World, c: ComponentId, o: Observed, baseline: string, version: string)
    ensures Gates(w, c, o) == Open(baseline, version) <==> Reads(w, c, o, baseline, version)
  {
    hide TagPaths;
    hide Patcher.SetsTag;
    if o.chart.Some? { Patcher.BundledTagMeans(c, o.chart.value, baseline); }
    hide Patcher.BundledOf;
  }

  // The gates opened, and what was read is what opens them
  predicate Admitted(w: World, c: ComponentId, o: Observed) {
    Gates(w, c, o).Open? && Reads(w, c, o, Gates(w, c, o).baseline, Gates(w, c, o).version)
  }

  lemma OpenIsAdmitted(w: World, c: ComponentId, o: Observed)
    requires Gates(w, c, o).Open?
    ensures Admitted(w, c, o)
  {
    OpenMeans(w, c, o, Gates(w, c, o).baseline, Gates(w, c, o).version);
    hide Gates;
    hide Reads;
  }

  // A spec is marked as reverted only while its patch is from another release
  predicate MarkedInTime(w: World, c: ComponentId, ip: ImagePatch, o: Observed, marker: Option<nat>) {
    marker == Some(ip.generation) && ip.marker != Some(ip.generation) ==>
      Admitted(w, c, o) && MayRevert(w, c, ip, Gates(w, c, o).baseline, Gates(w, c, o).version, true)
  }

  // What may be said of a pass's writes, given the gates it went through
  predicate Justified(w: World, c: ComponentId, ip: ImagePatch, o: Observed, marker: Option<nat>, e: Effect) {
    MarkedInTime(w, c, ip, o, marker) &&
    match e
    case Reverts =>
      Admitted(w, c, o) &&
      (MayRevert(w, c, ip, Gates(w, c, o).baseline, Gates(w, c, o).version, false) ||
       (MayRevert(w, c, ip, Gates(w, c, o).baseline, Gates(w, c, o).version, true) && marker == Some(ip.generation)))
    case Patches(repository, tag, version) =>
      Admitted(w, c, o) && version == Gates(w, c, o).version && tag == ip.tag && marker == None &&
      MayPatch(w, c, ip, Gates(w, c, o).baseline, version, o, repository)
    case _ => true
  }

  lemma CarryOutFacts(w: World, c: ComponentId, ip: ImagePatch, o: Observed, v: Verdicts, g: Gate, d: Decision)
    requires c in w.patches && Copies(ip, w.patches[c]) && !Outdated(ip)
    requires g.Open? && g == Gates(w, c, o) && GoodDecision(w, c, ip, g.baseline, g.version, o, d)
    requires Versioned(w, v.apply)
    ensures StageStep(w, c, ip, o, CarryOut(w, c, d, g.version, v), EffectOf(w, c, d, g.version, v))
  {
    hide Admitted;
    hide Gates;
    hide ConfigOf;
    hide OnlyMarker;
    hide CarryOutUndo;
    hide CarryOutWrite;
    hide MayPatch;
    hide MayRevert;
    hide RevertEffect;
    hide RepositoryFor;
    hide ConfigStep;
    match d {
      case Leave(_, _) =>
        NothingIsAStep(w, c);
        KeepsAll(w.patches, c);
      case Undo(_, _, _, _) =>
        UndoFacts(w, c, ip, o, v, g, d);
        hide StageStep;
      case Write(_, _) =>
        WriteFacts(w, c, ip, o, v, g, d);
        hide StageStep;
    }
  }

  lemma UndoFacts(w: World, c: ComponentId, ip: ImagePatch, o: Observed, v: Verdicts, g: Gate, d: Decision)
    requires c in w.patches && Copies(ip, w.patches[c]) && !Outdated(ip) && d.Undo?
    requires g.Open? && g == Gates(w, c, o) && GoodDecision(w, c, ip, g.baseline, g.version, o, d)
    requires Versioned(w, v.apply)
    ensures StageStep(w, c, ip, o, CarryOutUndo(w, c, d, v), EffectOf(w, c, d, g.version, v))
  {
    hide Admitted;
    hide Gates;
    hide ConfigOf;
    hide OnlyMarker;
    hide CarryOutUndo;
    hide MayPatch;
    hide MayRevert;
    hide RevertEffect;
    hide ConfigStep;
    OpenIsAdmitted(w, c, o);
    UndoHasEffect(w, c, d, g.version, v);
    UndoTouches(w, c, d, v);
    RevertsOnlyReverts(ConfigOf(w, c), v.apply);
  }

  lemma WriteFacts(w: World, c: ComponentId, ip: ImagePatch, o: Observed, v: Verdicts, g: Gate, d: Decision)
    requires c in w.patches && Copies(ip, w.patches[c]) && !Outdated(ip) && d.Write?
    requires g.Open? && g == Gates(w, c, o) && GoodDecision(w, c, ip, g.baseline, g.version, o, d)
    requires Versioned(w, v.apply)
    ensures StageStep(w, c, ip, o, CarryOutWrite(w, c, d, g.version, v.apply), EffectOf(w, c, d, g.version, v))
  {
    hide Admitted;
    hide Gates;
    hide ConfigOf;
    hide OnlyMarker;
    hide CarryOutWrite;
    hide MayPatch;
    hide MayRevert;
    hide RepositoryFor;
    hide ConfigStep;
    OpenIsAdmitted(w, c, o);
    PatchNeedsMap(w, c, ip, g.baseline, g.version, o, RepositoryFor(c, d.images));
    WriteHasEffect(w, c, d, g.version, v);
    WriteTouches(w, c, d, g.version, v.apply);
    KeepsAll(w.patches, c);
  }

  // A pass is overtaken only by the write its verdict names
  predicate FromVerdict(e: Effect, v: Verdict) {
    e.Overtaken? ==> v.Raced? && v.edit == e.edit
  }

  lemma EffectFromVerdict(w: World, c: ComponentId, d: Decision, version: string, v: Verdicts)
    ensures FromVerdict(EffectOf(w, c, d, version, v), v.apply)
    ensures FromVerdict(RevertEffect(ConfigOf(w, c), v.apply), v.apply)
  {
    hide ConfigOf;
    hide RepositoryFor;
  }

  lemma NothingIsAStep(w: World, c: ComponentId)
    ensures ConfigStep(w, w, c, NoWrite)
  {
  }

  lemma RevertsOnlyReverts(config: Option<HelmConfig>, v: Verdict)
    ensures !RevertEffect(config, v).Patches?
  {
  }

  lemma PatchNeedsMap(w: World, c: ComponentId, ip: ImagePatch, baseline: string, version: string, o: Observed,
                      repository: string)
    requires MayPatch(w, c, ip, baseline, version, o, repository)
    ensures ValuesOf(ConfigOf(w, c)).Map? && ip.marker != Some(ip.generation)
  {
    hide ConfigOf;
  }

  // All a rule looks at in an ImagePatch
  predicate SameRules(a: ImagePatch, b: ImagePatch) {
    a.tag == b.tag && a.policy == b.policy && a.generation == b.generation &&
    a.status.appliedTag == b.status.appliedTag &&
    (a.marker == Some(a.generation) <==> b.marker == Some(b.generation))
  }

  lemma PatchRulesFrame(w: World, w1: World, c: ComponentId, ip: ImagePatch, ip1: ImagePatch,
                        baseline: string, version: string, o: Observed, repository: string)
    requires w1.configs == w.configs && SameRules(ip, ip1)
    ensures MayPatch(w1, c, ip1, baseline, version, o, repository) ==
            MayPatch(w, c, ip, baseline, version, o, repository)
  {
    OthersIgnorePatches(w, w1, c);
    hide ConfigOf;
    hide OthersStale;
    hide GeneratedValues;
    hide RepositoryFor;
    hide Patcher.Present;
    hide Patcher.HasConflict;
    hide Policy.ValidatePatchWindow;
    hide Policy.ValidateNotOlderThanCurrent;
    hide Policy.ValidateTarget;
    hide ManagedOn;
    hide ValuesOf;
  }

  lemma RevertRulesFrame(w: World, w1: World, c: ComponentId, ip: ImagePatch, ip1: ImagePatch,
                         baseline: string, version: string, mark: bool)
    requires w1.configs == w.configs && SameRules(ip, ip1)
    ensures MayRevert(w1, c, ip1, baseline, version, mark) == MayRevert(w, c, ip, baseline, version, mark)
  {
    OthersIgnorePatches(w, w1, c);
    hide ConfigOf;
    hide OthersStale;
    hide Policy.ValidateAgainstBaseline;
  }

  lemma AdmittedFrame(w: World, w1: World, c: ComponentId, o: Observed)
    requires w1 == w.(patches := w1.patches)
    ensures Admitted(w1, c, o) == Admitted(w, c, o)
  {
    OnlyPatches(w, w1, c, o);
    hide Gates;
    hide TagPaths;
    hide Patcher.SetsTag;
  }

  // The gates and the rules look at nothing an update of ImagePatches changes
  lemma RulesFrame(w: World, w1: World, c: ComponentId, ip: ImagePatch, ip1: ImagePatch, o: Observed,
                   marker: Option<nat>, e: Effect)
    requires w1 == w.(patches := w1.patches) && SameRules(ip, ip1)
    ensures Justified(w1, c, ip1, o, marker, e) == Justified(w, c, ip, o, marker, e) &&
            Gates(w1, c, o) == Gates(w, c, o)
  {
    hide MayPatch;
    hide MayRevert;
    hide Gates;
    OnlyPatches(w, w1, c, o);
    AdmittedFrame(w, w1, c, o);
    hide Admitted;
    var g := Gates(w, c, o);
    if g.Open? {
      RevertRulesFrame(w, w1, c, ip, ip1, g.baseline, g.version, false);
      RevertRulesFrame(w, w1, c, ip, ip1, g.baseline, g.version, true);
      if e.Patches? { PatchRulesFrame(w, w1, c, ip, ip1, g.baseline, e.version, o, e.repository); }
    }
  }

  lemma OthersIgnorePatches(w: World, w1: World, c: ComponentId)
    requires w1.configs == w.configs
    ensures forall version :: OthersStale(w1, version, c) == OthersStale(w, version, c)
    ensures forall d :: ConfigOf(w1, d) == ConfigOf(w, d)
  {
    hide ChartOf;
    assert forall d :: ConfigOf(w1, d) == ConfigOf(w, d);
    assert forall d :: ManagedIn(w1, d) == ManagedIn(w, d);
    hide ConfigOf;
    forall version ensures OthersStale(w1, version, c) == OthersStale(w, version, c) { }
  }

  predicate StageStep(w: World, c: ComponentId, ip: ImagePatch, o: Observed, s: Stage, e: Effect) {
    && s.world.release == w.release && s.world.cli == w.cli && OnlyMarker(w.patches, s.world.patches, c)
    && SameSpec(ip, s.ip) && ConfigStep(w, s.world, c, e)
    && MarkerStep(ip.marker, s.world.patches[c].marker, ip.generation)
    && Justified(w, c, ip, o, s.world.patches[c].marker, e)
  }

  // What a live pass does to the HelmChartConfig, and what any pass does
  function StageEffect(w: World, c: ComponentId, ip: ImagePatch, o: Observed, v: Verdicts): Effect
    requires c in w.patches
  {
    match Gates(w, c, o)
    case Shut(_) => NoWrite
    case Open(baseline, version) =>
      var based := ip.(status := ip.status.(baselineTag := baseline));
      if !o.configReadable then NoWrite
      else if Outdated(based) then
        if !v.unmark.Acked? then NoWrite
        else
          var unmarked := based.(marker := None);
          var w1 := UpdatePatch(w, c, unmarked, v.unmark);
          EffectOf(w1, c, Decide(w1, c, unmarked, baseline, version, o), version, v)
      else EffectOf(w, c, Decide(w, c, based, baseline, version, o), version, v)
  }

  function PassEffect(w: World, c: ComponentId, o: Observed, v: Verdicts): Effect {
    if c !in w.patches then NoWrite
    else if w.patches[c].deleting then
      if !w.patches[c].finalizer || !o.configReadable || !Owned(w, c) then NoWrite
      else RevertEffect(ConfigOf(w, c), v.apply)
    else
      var ip := w.patches[c].(finalizer := true);
      if w.patches[c].finalizer then StageEffect(w, c, ip, o, v)
      else if !v.finalizer.Acked? then NoWrite
      else StageEffect(UpdatePatch(w, c, ip, v.finalizer), c, ip, o, v)
  }

  lemma NoStep(w: World, c: ComponentId, ip: ImagePatch, o: Observed, s: Stage)
    requires c in w.patches && Copies(ip, w.patches[c]) && SameSpec(ip, s.ip)
    requires s.world == w || (Outdated(ip) && s.world == UpdatePatch(w, c, ip.(marker := None), Acked))
    ensures StageStep(w, c, ip, o, s, NoWrite)
  {
    MarkTouches(w, c, ip.(marker := None), Acked);
    hide UpdatePatch;
    if s.world == w { KeepsAll(w.patches, c); }
    hide OnlyMarker;
    NothingIsAStep(w, c);
    ConfigStepFrame(w, w, w, c, NoWrite);
    SameConfigs(w, s.world, c);
    hide ConfigStep;
  }

  lemma KeepsAll(p: map<ComponentId, ImagePatch>, c: ComponentId)
    requires c in p
    ensures OnlyMarker(p, p, c)
  {
  }

  lemma SameConfigs(w: World, w': World, c: ComponentId)
    requires w'.configs == w.configs && w'.nextVersion == w.nextVersion
    ensures ConfigStep(w, w', c, NoWrite)
  {
  }

  lemma OnlyMarkerChains(p: map<ComponentId, ImagePatch>, q: map<ComponentId, ImagePatch>,
                         r: map<ComponentId, ImagePatch>, c: ComponentId)
    requires OnlyMarker(p, q, c) && OnlyMarker(q, r, c)
    ensures OnlyMarker(p, r, c)
  {
  }

  lemma ComposeUnmark(w: World, w1: World, c: ComponentId, ip: ImagePatch, o: Observed, s: Stage, e: Effect)
    requires c in w.patches && Copies(ip, w.patches[c]) && Outdated(ip)
    requires w1 == UpdatePatch(w, c, ip.(marker := None), Acked)
    requires StageStep(w1, c, ip.(marker := None), o, s, e)
    ensures StageStep(w, c, ip, o, s, e)
  {
    MarkTouches(w, c, ip.(marker := None), Acked);
    hide UpdatePatch;
    hide Justified;
    hide ConfigStep;
    hide OnlyMarker;
    RulesFrame(w, w1, c, ip, ip.(marker := None), o, s.world.patches[c].marker, e);
    ConfigStepFrame(w, w1, s.world, c, e);
    OnlyMarkerChains(w.patches, w1.patches, s.world.patches, c);
  }

  lemma StageFacts(w: World, c: ComponentId, ip: ImagePatch, o: Observed, v: Verdicts) returns (e: Effect)
    requires c in w.patches && Copies(ip, w.patches[c]) && Versioned(w, v.apply)
    ensures StageStep(w, c, ip, o, ReconcilePatch(w, c, ip, o, v), e) && FromVerdict(e, v.apply)
    ensures e == StageEffect(w, c, ip, o, v)
  {
    hide EffectOf;
    hide Gates;
    hide StageStep;
    hide CarryOut;
    hide Decide;
    var s, g := ReconcilePatch(w, c, ip, o, v), Gates(w, c, o);
    e := NoWrite;
    if g.Shut? || !o.configReadable {
      NoStep(w, c, ip, o, s);
    } else {
      var based := ip.(status := ip.status.(baselineTag := g.baseline));
      if !Outdated(ip) {
        e := LiveFacts(w, c, based, o, v);
        BasedIsNoMatter(w, c, ip, o, s, e, g.baseline);
      } else {
        var unmarked := based.(marker := None);
        SameUpdate(w, c, ip, based, v.unmark);
        if !v.unmark.Acked? {
          NoStep(w, c, ip, o, s);
        } else {
          var w1 := UpdatePatch(w, c, unmarked, v.unmark);
          OnlyPatches(w, w1, c, o);
          VersionedFrame(w, w1, v.apply);
          e := LiveFacts(w1, c, unmarked, o, v);
          BasedIsNoMatter(w1, c, ip.(marker := None), o, s, e, g.baseline);
          ComposeUnmark(w, w1, c, ip, o, s, e);
        }
      }
    }
  }

  lemma LiveFacts(w: World, c: ComponentId, ip: ImagePatch, o: Observed, v: Verdicts) returns (e: Effect)
    requires c in w.patches && Copies(ip, w.patches[c]) && Gates(w, c, o).Open? && !Outdated(ip) &&
             Versioned(w, v.apply)
    ensures var g := Gates(w, c, o);
            StageStep(w, c, ip, o, CarryOut(w, c, Decide(w, c, ip, g.baseline, g.version, o), g.version, v), e)
    ensures FromVerdict(e, v.apply)
    ensures var g := Gates(w, c, o); e == EffectOf(w, c, Decide(w, c, ip, g.baseline, g.version, o), g.version, v)
  {
    hide *;
    EffectFromVerdict(w, c, Decide(w, c, ip, Gates(w, c, o).baseline, Gates(w, c, o).version, o),
                      Gates(w, c, o).version, v);
    var g := Gates(w, c, o);
    var d := Decide(w, c, ip, g.baseline, g.version, o);
    DecisionIsGood(w, c, ip, g.baseline, g.version, o);
    CarryOutFacts(w, c, ip, o, v, g, d);
    e := EffectOf(w, c, d, g.version, v);
  }

  lemma SameUpdate(w: World, c: ComponentId, ip: ImagePatch, based: ImagePatch, v: Verdict)
    requires c in w.patches && based == ip.(status := based.status)
    ensures UpdatePatch(w, c, based.(marker := None), v) ==
            (if Lands(v) then UpdatePatch(w, c, ip.(marker := None), Acked) else w)
    ensures Lands(v) && Copies(ip, w.patches[c]) ==>
            Copies(based.(marker := None), UpdatePatch(w, c, based.(marker := None), v).patches[c])
  {
  }

  lemma OnlyPatches(w: World, w1: World, c: ComponentId, o: Observed)
    requires w1 == w.(patches := w1.patches)
    ensures Gates(w1, c, o) == Gates(w, c, o)
  {
    hide Patcher.BundledOf;
  }

  // Recording the bundled tag changes nothing a stage is judged by
  lemma BasedIsNoMatter(w: World, c: ComponentId, ip: ImagePatch, o: Observed, s: Stage, e: Effect, baseline: string)
    requires StageStep(w, c, ip.(status := ip.status.(baselineTag := baseline)), o, s, e)
    ensures StageStep(w, c, ip, o, s, e)
  {
    RulesFrame(w, w, c, ip, ip.(status := ip.status.(baselineTag := baseline)), o, s.world.patches[c].marker, e);
    hide ConfigStep;
    hide OnlyMarker;
    hide Justified;
  }

  lemma StageKeepsStatus(w: World, c: ComponentId, o: Observed, v: Verdicts)
    requires c in w.patches && Versioned(w, v.apply)
    ensures var s := ReconcilePatch(w, c, w.patches[c], o, v);
            c in s.world.patches && s.world.patches[c].status == w.patches[c].status
  {
    hide *;
    CopiesItself(w.patches[c]);
    var e := StageFacts(w, c, w.patches[c], o, v);
    StageStepKeepsStatus(w, c, w.patches[c], o, ReconcilePatch(w, c, w.patches[c], o, v), e);
  }

  lemma CopiesItself(ip: ImagePatch)
    ensures Copies(ip, ip)
  {
  }

  lemma StageStepKeepsStatus(w: World, c: ComponentId, ip: ImagePatch, o: Observed, s: Stage, e: Effect)
    requires StageStep(w, c, ip, o, s, e)
    ensures c in w.patches && c in s.world.patches && s.world.patches[c].status == w.patches[c].status
  {
    hide ConfigStep;
    hide Justified;
  }

  /* ---- How a pass ends ---- */

  lemma GatesEnd(w: World, c: ComponentId, o: Observed)
    ensures Gates(w, c, o).Shut? ==> !Gates(w, c, o).end.Crash?
  {
    hide Patcher.BundledOf;
  }

  lemma CurrentEnds(othersStale: bool, c: ComponentId, ip: ImagePatch, baseline: string,
                    current: Option<HelmConfig>, images: seq<ImageRef>, o: Observed)
    ensures var d := DecideCurrent(othersStale, c, ip, baseline, current, images, o); !d.Write? ==> !d.end.Crash?
  {
    hide GeneratedValues;
    hide RepositoryFor;
    hide Patcher.Present;
    hide Patcher.HasConflict;
    hide Policy.ValidateAgainstBaseline;
    hide Policy.ValidateTarget;
    hide Policy.ValidatePatchWindow;
    hide Policy.ValidateNotOlderThanCurrent;
  }

  lemma DecisionEnds(w: World, c: ComponentId, ip: ImagePatch, baseline: string, version: string, o: Observed)
    ensures var d := Decide(w, c, ip, baseline, version, o); !d.Write? ==> !d.end.Crash?
  {
    hide ConfigOf;
    hide OthersStale;
    hide DecideCurrent;
    if o.images.Some? {
      CurrentEnds(OthersStale(w, version, c), c, ip.(status := ip.status.(runningImages := o.images.value)), baseline,
                  ConfigOf(w, c), o.images.value, o);
    }
  }

  // Every other ImagePatch is untouched
  predicate OthersKept(p: map<ComponentId, ImagePatch>, q: map<ComponentId, ImagePatch>, c: ComponentId) {
    forall d | d != c :: (d in q <==> d in p) && (d in p ==> q[d] == p[d])
  }

  // The same object, its finalizer never taken back and its marker moved as allowed
  predicate KeptAlive(before: ImagePatch, after: ImagePatch) {
    after.tag == before.tag && after.policy == before.policy && after.generation == before.generation &&
    after.deleting == before.deleting && (before.finalizer ==> after.finalizer) &&
    MarkerStep(before.marker, after.marker, before.generation)
  }

  // What a pass does to its own ImagePatch, and when it may write
  predicate OwnStep(w: World, w': World, c: ComponentId, o: Observed, e: Effect) {
    if c !in w.patches then c !in w'.patches && e == NoWrite
    else if w.patches[c].deleting then
      !e.Patches? && (e.Reverts? ==> Owned(w, c)) &&
      (if c in w'.patches then w'.patches[c] == w.patches[c] else w.patches[c].finalizer && !Owned(w', c))
    else
      c in w'.patches && KeptAlive(w.patches[c], w'.patches[c]) &&
      (e.Reverts? || e.Patches? ==> w'.patches[c].finalizer) &&
      Justified(w, c, w.patches[c], o, w'.patches[c].marker, e)
  }

  /** One pass: the release and the CLI state stay, other ImagePatches stay, and at most one
      HelmChartConfig is written, once, when the rules allow it. */
  predicate PassStep(w: World, w': World, c: ComponentId, o: Observed, e: Effect) {
    && w'.release == w.release && w'.cli == w.cli
    && OthersKept(w.patches, w'.patches, c)
    && ConfigStep(w, w', c, e)
    && OwnStep(w, w', c, o, e)
  }

  lemma StatusTouches(w: World, c: ComponentId, ip: ImagePatch, previous: Status, outcome: Outcome, v: Verdict)
    requires c in w.patches
    ensures var w' := WriteStatus(w, c, ip, previous, outcome, v);
            w' == w.(patches := w'.patches) && OthersKept(w.patches, w'.patches, c) &&
            c in w'.patches && Copies(w'.patches[c], w.patches[c])
  {
    hide FinalStatus;
  }

  lemma FinalizeFacts(w: World, c: ComponentId, o: Observed, v: Verdicts) returns (e: Effect)
    requires c in w.patches && w.patches[c].deleting && Versioned(w, v.apply)
    ensures PassStep(w, Finalize(w, c, o, v), c, o, e) && FromVerdict(e, v.apply) && e == PassEffect(w, c, o, v)
  {
    EffectFromVerdict(w, c, Leave(w.patches[c], Crash), "", v);
    hide ConfigOf;
    hide Revert;
    hide ConfigStep;
    hide RevertEffect;
    var w' := Finalize(w, c, o, v);
    if w.patches[c].finalizer && o.configReadable && Owned(w, c) {
      e := RevertEffect(ConfigOf(w, c), v.apply);
      RevertHasEffect(w, c, v.apply);
      RevertTouches(w, c, v.apply);
      var (w1, seen) := Revert(w, c, ConfigOf(w, c), v.apply);
      if seen.Acked? { RevertedIsUnowned(w, c, v.apply); }
      RevertsOnlyReverts(ConfigOf(w, c), v.apply);
      Gone(w, w1, w', c, o, e);
    } else {
      e := NoWrite;
      NothingIsAStep(w, c);
      Gone(w, w, w', c, o, e);
    }
  }

  // The last step of a deletion: the object stays as it is, or goes
  lemma Gone(w: World, w1: World, w': World, c: ComponentId, o: Observed, e: Effect)
    requires c in w.patches && w.patches[c].deleting
    requires w1 == w.(configs := w1.configs, nextVersion := w1.nextVersion) && ConfigStep(w, w1, c, e) && !e.Patches?
    requires e.Reverts? ==> Owned(w, c)
    requires w' == w1 || (w' == w1.(patches := w1.patches - {c}) && w.patches[c].finalizer && !Owned(w1, c))
    ensures PassStep(w, w', c, o, e)
  {
    hide ConfigStep;
    hide ConfigOf;
    ConfigStepAfter(w, w1, w', c, e);
    WithoutOne(w.patches, c);
    hide OthersKept;
  }

  lemma WithoutOne(p: map<ComponentId, ImagePatch>, c: ComponentId)
    ensures OthersKept(p, p, c) && OthersKept(p, p - {c}, c) && c !in p - {c}
  {
  }

  lemma RevertedIsUnowned(w: World, c: ComponentId, v: Verdict)
    requires Revert(w, c, ConfigOf(w, c), v).1.Acked?
    ensures !Owned(Revert(w, c, ConfigOf(w, c), v).0, c)
  {
    hide ChartOf;
    hide Patcher.Reverted;
  }

  lemma ConfigStepAfter(w: World, w1: World, w': World, c: ComponentId, e: Effect)
    requires ConfigStep(w, w1, c, e) && w'.configs == w1.configs && w'.nextVersion == w1.nextVersion
    ensures ConfigStep(w, w', c, e)
    ensures Owned(w', c) == Owned(w1, c)
  {
    hide ChartOf;
    hide PatchedConfig;
    hide RevertedConfig;
  }

  // With the finalizer in place a pass is its stage, and the status it reports
  lemma LivePassIs(w: World, c: ComponentId, o: Observed, v: Verdicts)
    requires c in w.patches && !w.patches[c].deleting && w.patches[c].finalizer
    ensures var s := ReconcilePatch(w, c, w.patches[c], o, v);
            Pass(w, c, o, v) ==
            if s.end.Crash? then s.world
            else WriteStatus(s.world, c, s.ip, w.patches[c].status, OutcomeOf(s.end), v.status)
  {
    hide ReconcilePatch;
    hide WriteStatus;
    assert w.patches[c].(finalizer := true) == w.patches[c];
  }

  // The part of a live pass after the finalizer is in place
  lemma LivePassFacts(w: World, c: ComponentId, o: Observed, v: Verdicts) returns (e: Effect)
    requires c in w.patches && !w.patches[c].deleting && w.patches[c].finalizer && Versioned(w, v.apply)
    ensures PassStep(w, Pass(w, c, o, v), c, o, e) && c in Pass(w, c, o, v).patches && FromVerdict(e, v.apply)
    ensures e == PassEffect(w, c, o, v)
  {
    hide ReconcilePatch;
    hide StageEffect;
    hide WriteStatus;
    var ip := w.patches[c].(finalizer := true);
    assert ip == w.patches[c];
    var s := ReconcilePatch(w, c, ip, o, v);
    e := StageFacts(w, c, ip, o, v);
    var w' := Pass(w, c, o, v);
    if s.end.Crash? {
      Alive(w, s.world, w', c, ip, o, s, e);
    } else {
      var outcome := if s.end.Error? then Outcome(false, false, false, Failure) else s.end.outcome;
      StatusTouches(s.world, c, s.ip, ip.status, outcome, v.status);
      Alive(w, s.world, w', c, ip, o, s, e);
    }
  }

  lemma Alive(w: World, w1: World, w': World, c: ComponentId, ip: ImagePatch, o: Observed, s: Stage, e: Effect)
    requires c in w.patches && !w.patches[c].deleting && w.patches[c].finalizer && ip == w.patches[c]
    requires s.world == w1 && StageStep(w, c, ip, o, s, e)
    requires w' == w1 || (w' == w1.(patches := w'.patches) && OthersKept(w1.patches, w'.patches, c) &&
                          c in w'.patches && Copies(w'.patches[c], w1.patches[c]))
    ensures PassStep(w, w', c, o, e) && c in w'.patches
  {
    hide ConfigStep;
    hide Justified;
    hide ConfigOf;
    ConfigStepAfter(w, w1, w', c, e);
    KeptThrough(w.patches, w1.patches, w'.patches, c);
    hide OthersKept;
    hide OnlyMarker;
  }

  lemma KeptThrough(p: map<ComponentId, ImagePatch>, q: map<ComponentId, ImagePatch>, r: map<ComponentId, ImagePatch>,
                    c: ComponentId)
    requires OnlyMarker(p, q, c)
    requires r == q || (OthersKept(q, r, c) && c in r && Copies(r[c], q[c]))
    ensures OthersKept(p, r, c) && c in r && SameSpec(r[c], p[c]) && r[c].marker == q[c].marker
  {
  }

  /** Every pass is such a step, whatever it observes and however its writes fare. */
  lemma PassIsAStep(w: World, c: ComponentId, o: Observed, v: Verdicts)
    requires Versioned(w, v.apply)
    ensures PassStep(w, Pass(w, c, o, v), c, o, PassEffect(w, c, o, v))
    ensures FromVerdict(PassEffect(w, c, o, v), v.apply)
  {
    hide Finalize;
    hide StageEffect;
    hide ReconcilePatch;
    hide WriteStatus;
    if c !in w.patches {
      NothingIsAStep(w, c);
      hide ConfigStep;
    } else if w.patches[c].deleting {
      var e := FinalizeFacts(w, c, o, v);
      hide PassStep;
    } else if w.patches[c].finalizer {
      var e := LivePassFacts(w, c, o, v);
      hide PassStep;
    } else {
      var e := NewPassFacts(w, c, o, v);
      hide PassStep;
    }
  }

  // A first pass puts the finalizer in place before anything else
  lemma NewPassFacts(w: World, c: ComponentId, o: Observed, v: Verdicts) returns (e: Effect)
    requires c in w.patches && !w.patches[c].deleting && !w.patches[c].finalizer && Versioned(w, v.apply)
    ensures PassStep(w, Pass(w, c, o, v), c, o, e) && FromVerdict(e, v.apply) && e == PassEffect(w, c, o, v)
  {
    var ip := w.patches[c].(finalizer := true);
    var w1 := UpdatePatch(w, c, ip, v.finalizer);
    if !v.finalizer.Acked? {
      e := NoWrite;
      Finalized(w, w1, c, o);
    } else {
      FinalizerThenRest(w, c, o, v);
      VersionedFrame(w, w1, v.apply);
      e := LivePassFacts(w1, c, o, v);
      AfterFinalizer(w, w1, Pass(w1, c, o, v), c, o, e);
    }
    hide PassStep;
    hide StageEffect;
    hide ReconcilePatch;
    hide WriteStatus;
  }

  lemma Finalized(w: World, w1: World, c: ComponentId, o: Observed)
    requires c in w.patches && !w.patches[c].deleting
    requires w1 == w || w1 == w.(patches := w.patches[c := w.patches[c].(finalizer := true)])
    ensures PassStep(w, w1, c, o, NoWrite)
  {
    hide ConfigStep;
    hide ConfigOf;
    SameConfigs(w, w1, c);
    KeptAround(w.patches, w1.patches, w1.patches, c);
    hide OthersKept;
  }

  lemma FinalizerThenRest(w: World, c: ComponentId, o: Observed, v: Verdicts)
    requires c in w.patches && !w.patches[c].deleting && !w.patches[c].finalizer && v.finalizer.Acked?
    ensures var w1 := UpdatePatch(w, c, w.patches[c].(finalizer := true), v.finalizer);
            Pass(w, c, o, v) == Pass(w1, c, o, v) && w1.patches[c] == w.patches[c].(finalizer := true) &&
            w1 == w.(patches := w.patches[c := w.patches[c].(finalizer := true)])
  {
    hide ReconcilePatch;
    hide WriteStatus;
  }

  lemma AfterFinalizer(w: World, w1: World, w': World, c: ComponentId, o: Observed, e: Effect)
    requires c in w.patches && !w.patches[c].deleting && !w.patches[c].finalizer
    requires w1 == w.(patches := w.patches[c := w.patches[c].(finalizer := true)])
    requires PassStep(w1, w', c, o, e)
    ensures PassStep(w, w', c, o, e)
  {
    hide ConfigStep;
    hide ConfigOf;
    hide Justified;
    ConfigStepFrame(w, w1, w', c, e);
    RulesFrame(w, w1, c, w.patches[c], w1.patches[c], o, w'.patches[c].marker, e);
    KeptAround(w.patches, w1.patches, w'.patches, c);
    hide OthersKept;
  }

  lemma KeptAround(p: map<ComponentId, ImagePatch>, q: map<ComponentId, ImagePatch>, r: map<ComponentId, ImagePatch>,
                   c: ComponentId)
    requires c in p && c in q && q == p[c := q[c]] && OthersKept(q, r, c)
    ensures OthersKept(p, r, c)
  {
  }

  /* ---- The rules are exact ---- */

  // Everything a pass may revert it does revert, once it could read what it needs; values that are
  // managed but not in place are left to the other rules
  predicate MustRevert(w: World, c: ComponentId, ip: ImagePatch, baseline: string, version: string, o: Observed) {
    Owned(w, c) && ValuesOf(ConfigOf(w, c)).Map? &&
    (ip.marker == Some(ip.generation) ||
     (ManagedIn(w, c) != version && ip.policy.AutoRevert?) ||
     (ManagedIn(w, c) == version && o.images.Some? &&
      (ip.tag == baseline ||
       (Policy.ValidateAgainstBaseline(baseline, ip.tag).Some? &&
        Patcher.Present(ValuesOf(ConfigOf(w, c)), GeneratedValues(c, RepositoryFor(c, o.images.value), ip.tag))))))
  }

  predicate MustPatch(w: World, c: ComponentId, ip: ImagePatch, baseline: string, version: string, o: Observed) {
    o.images.Some? && o.othersReadable && MayPatch(w, c, ip, baseline, version, o, RepositoryFor(c, o.images.value))
  }

  // The decision meets the rules exactly
  predicate ExactDecision(w: World, c: ComponentId, ip: ImagePatch, baseline: string, version: string, o: Observed,
                          d: Decision)
  {
    (d.Write? <==> MustPatch(w, c, ip, baseline, version, o)) &&
    (d.Write? ==> o.images == Some(d.images)) &&
    (d.Undo? && ValuesOf(ConfigOf(w, c)).Map? <==> MustRevert(w, c, ip, baseline, version, o))
  }

  lemma CurrentIsExact(w: World, c: ComponentId, ip: ImagePatch, baseline: string, version: string, o: Observed)
    requires o.images.Some? && ip.marker != Some(ip.generation)
    requires Owned(w, c) ==> ManagedIn(w, c) == version
    ensures ExactDecision(w, c, ip, baseline, version, o,
              DecideCurrent(OthersStale(w, version, c), c, ip, baseline, ConfigOf(w, c), o.images.value, o))
  {
    hide ConfigOf;
    hide OthersStale;
    hide GeneratedValues;
    hide RepositoryFor;
    hide Refusal;
    hide ManagedOn;
    hide RolledOutCondition;
    hide RolloutEnd;
    hide Patcher.Present;
    hide Patcher.HasConflict;
    hide Policy.ValidateAgainstBaseline;
    hide Policy.ValidatePatchWindow;
    hide Policy.ValidateNotOlderThanCurrent;
    RefusalIsExact(OthersStale(w, version, c), c, ip, baseline, o);
  }

  lemma RulesIgnoreImages(w: World, c: ComponentId, ip: ImagePatch, baseline: string, version: string, o: Observed,
                          d: Decision)
    requires o.images.Some?
    requires ExactDecision(w, c, ip.(status := ip.status.(runningImages := o.images.value)), baseline, version, o, d)
    ensures ExactDecision(w, c, ip, baseline, version, o, d)
  {
    hide ConfigOf;
    hide OthersStale;
    hide GeneratedValues;
    hide RepositoryFor;
    hide ManagedOn;
    hide Patcher.Present;
    hide Patcher.HasConflict;
    hide Policy.ValidatePatchWindow;
    hide Policy.ValidateNotOlderThanCurrent;
    hide Policy.ValidateTarget;
    hide Policy.ValidateAgainstBaseline;
  }

  lemma EarlyIsExact(w: World, c: ComponentId, ip: ImagePatch, baseline: string, version: string, o: Observed)
    requires ip.marker == Some(ip.generation) || (Owned(w, c) && ManagedIn(w, c) != version) || o.images.None?
    ensures ExactDecision(w, c, ip, baseline, version, o, Decide(w, c, ip, baseline, version, o))
  {
    hide ConfigOf;
    hide OthersStale;
    hide GeneratedValues;
    hide RepositoryFor;
    hide RevertedCopy;
    hide DecideCurrent;
    hide ManagedOn;
    hide Patcher.Present;
    hide Patcher.HasConflict;
    hide Policy.ValidatePatchWindow;
    hide Policy.ValidateNotOlderThanCurrent;
    hide Policy.ValidateTarget;
    hide Policy.ValidateAgainstBaseline;
  }

  lemma DecisionIsExact(w: World, c: ComponentId, ip: ImagePatch, baseline: string, version: string, o: Observed)
    ensures ExactDecision(w, c, ip, baseline, version, o, Decide(w, c, ip, baseline, version, o))
  {
    hide ConfigOf;
    hide OthersStale;
    hide DecideMarked;
    hide DecideStale;
    hide DecideCurrent;
    hide ExactDecision;
    hide ManagedOn;
    if ip.marker == Some(ip.generation) || (Owned(w, c) && ManagedIn(w, c) != version) || o.images.None? {
      EarlyIsExact(w, c, ip, baseline, version, o);
    } else {
      CurrentIsExact(w, c, ip.(status := ip.status.(runningImages := o.images.value)), baseline, version, o);
      RulesIgnoreImages(w, c, ip, baseline, version, o, Decide(w, c, ip, baseline, version, o));
    }
  }

  // With the finalizer in place and no outdated marker, a pass goes straight to its decision
  lemma PreparedEffectsAreExact(w: World, c: ComponentId, o: Observed, v: Verdicts)
    requires c in w.patches && !w.patches[c].deleting && w.patches[c].finalizer && !Outdated(w.patches[c])
    requires o.configReadable && Lands(v.apply)
    ensures var e, g, ip := PassEffect(w, c, o, v), Gates(w, c, o), w.patches[c];
            (e.Patches? <==> g.Open? && MustPatch(w, c, ip, g.baseline, g.version, o)) &&
            (e.Patches? ==> e == Patches(RepositoryFor(c, o.images.value), ip.tag, g.version)) &&
            (v.mark.Acked? ==> (e.Reverts? <==> g.Open? && MustRevert(w, c, ip, g.baseline, g.version, o)))
  {
    hide Gates;
    hide Decide;
    hide ConfigOf;
    hide RepositoryFor;
    hide MayPatch;
    hide ManagedOn;
    hide Patcher.Present;
    hide GeneratedValues;
    hide Policy.ValidateAgainstBaseline;
    var ip, g := w.patches[c], Gates(w, c, o);
    assert ip.(finalizer := true) == ip;
    if g.Open? {
      var based := ip.(status := ip.status.(baselineTag := g.baseline));
      DecisionIsExact(w, c, based, g.baseline, g.version, o);
      var d := Decide(w, c, based, g.baseline, g.version, o);
      SameMustRules(w, c, ip, based, g.baseline, g.version, o);
      DecidedTag(w, c, based, g.baseline, g.version, o);
      UndoNeedsConfig(w, c, based, g.baseline, g.version, o);
    }
    hide MustPatch;
    hide MustRevert;
  }

  lemma SameMustRules(w: World, c: ComponentId, ip: ImagePatch, based: ImagePatch, baseline: string, version: string,
                      o: Observed)
    requires based == ip.(status := ip.status.(baselineTag := baseline))
    ensures MustPatch(w, c, based, baseline, version, o) == MustPatch(w, c, ip, baseline, version, o)
    ensures MustRevert(w, c, based, baseline, version, o) == MustRevert(w, c, ip, baseline, version, o)
  {
    hide RepositoryFor;
    hide ConfigOf;
    hide ManagedOn;
    hide GeneratedValues;
    hide Patcher.Present;
    hide Policy.ValidateAgainstBaseline;
    if o.images.Some? { PatchRulesFrame(w, w, c, ip, based, baseline, version, o, RepositoryFor(c, o.images.value)); }
    hide MayPatch;
  }

  lemma DecidedTag(w: World, c: ComponentId, ip: ImagePatch, baseline: string, version: string, o: Observed)
    ensures var d := Decide(w, c, ip, baseline, version, o); d.Write? ==> d.ip.tag == ip.tag
  {
    DecisionIsGood(w, c, ip, baseline, version, o);
    hide Decide;
    hide MayPatch;
    hide MayRevert;
  }

  lemma UndoNeedsConfig(w: World, c: ComponentId, ip: ImagePatch, baseline: string, version: string, o: Observed)
    ensures var d := Decide(w, c, ip, baseline, version, o); d.Undo? ==> ConfigOf(w, c).Some?
  {
    DecisionIsGood(w, c, ip, baseline, version, o);
    hide Decide;
    hide MayPatch;
    hide ConfigOf;
    hide Policy.ValidateAgainstBaseline;
  }

  // What the pass is about to write goes in: the finalizer, and no marker of an older generation
  function Prepared(ip: ImagePatch): ImagePatch {
    ip.(finalizer := true, marker := if Outdated(ip) then None else ip.marker)
  }

  lemma EffectAfterFinalizer(w: World, c: ComponentId, o: Observed, v: Verdicts)
    requires c in w.patches && !w.patches[c].deleting && (w.patches[c].finalizer || v.finalizer.Acked?)
    ensures PassEffect(w, c, o, v) ==
            PassEffect(w.(patches := w.patches[c := w.patches[c].(finalizer := true)]), c, o, v)
  {
    hide StageEffect;
    var ip := w.patches[c].(finalizer := true);
    if w.patches[c].finalizer {
      assert w.patches[c := ip] == w.patches;
    } else {
      assert UpdatePatch(w, c, ip, v.finalizer) == w.(patches := w.patches[c := ip]);
    }
  }

  lemma EffectAfterUnmark(w: World, c: ComponentId, o: Observed, v: Verdicts)
    requires c in w.patches && !w.patches[c].deleting && w.patches[c].finalizer
    requires Outdated(w.patches[c]) && v.unmark.Acked? && o.configReadable
    ensures PassEffect(w, c, o, v) == PassEffect(w.(patches := w.patches[c := w.patches[c].(marker := None)]), c, o, v)
  {
    hide Gates;
    hide Decide;
    hide EffectOf;
    var ip, g := w.patches[c], Gates(w, c, o);
    var w1 := w.(patches := w.patches[c := ip.(marker := None)]);
    assert ip.(finalizer := true) == ip;
    OnlyPatches(w, w1, c, o);
    if g.Open? {
      var unmarked := ip.(status := ip.status.(baselineTag := g.baseline), marker := None);
      assert UpdatePatch(w, c, unmarked, v.unmark) == w1;
    }
  }

  lemma EffectWhenPrepared(w: World, c: ComponentId, o: Observed, v: Verdicts)
    requires c in w.patches && !w.patches[c].deleting && (w.patches[c].finalizer || v.finalizer.Acked?)
    requires (Outdated(w.patches[c]) ==> v.unmark.Acked?) && o.configReadable
    ensures PassEffect(w, c, o, v) == PassEffect(w.(patches := w.patches[c := Prepared(w.patches[c])]), c, o, v)
  {
    hide PassEffect;
    var ip := w.patches[c];
    var w1 := w.(patches := w.patches[c := ip.(finalizer := true)]);
    EffectAfterFinalizer(w, c, o, v);
    if Outdated(ip) {
      EffectAfterUnmark(w1, c, o, v);
      assert w1.patches[c := w1.patches[c].(marker := None)] == w.patches[c := Prepared(ip)];
    }
  }

  lemma PreparedRules(w: World, w1: World, c: ComponentId, baseline: string, version: string, o: Observed)
    requires c in w.patches && w1 == w.(patches := w.patches[c := Prepared(w.patches[c])])
    ensures MustPatch(w1, c, w1.patches[c], baseline, version, o) == MustPatch(w, c, w.patches[c], baseline, version, o)
    ensures MustRevert(w1, c, w1.patches[c], baseline, version, o) ==
            MustRevert(w, c, w.patches[c], baseline, version, o)
  {
    OthersIgnorePatches(w, w1, c);
    hide ConfigOf;
    hide ManagedOn;
    hide GeneratedValues;
    hide RepositoryFor;
    hide Patcher.Present;
    hide Policy.ValidateAgainstBaseline;
    if o.images.Some? {
      PatchRulesFrame(w, w1, c, w.patches[c], w1.patches[c], baseline, version, o, RepositoryFor(c, o.images.value));
    }
    hide MayPatch;
    hide OthersStale;
  }

  lemma EffectsFollowGates(w: World, c: ComponentId, o: Observed, v: Verdicts)
    requires c in w.patches && !w.patches[c].deleting && (w.patches[c].finalizer || v.finalizer.Acked?)
    requires (Outdated(w.patches[c]) ==> v.unmark.Acked?) && o.configReadable && Lands(v.apply)
    ensures var e, g, ip := PassEffect(w, c, o, v), Gates(w, c, o), w.patches[c];
            (e.Patches? <==> g.Open? && MustPatch(w, c, ip, g.baseline, g.version, o)) &&
            (e.Patches? ==> e == Patches(RepositoryFor(c, o.images.value), ip.tag, g.version)) &&
            (v.mark.Acked? ==> (e.Reverts? <==> g.Open? && MustRevert(w, c, ip, g.baseline, g.version, o)))
  {
    var w1 := w.(patches := w.patches[c := Prepared(w.patches[c])]);
    EffectWhenPrepared(w, c, o, v);
    OnlyPatches(w, w1, c, o);
    hide PassEffect;
    hide Gates;
    PreparedEffectsAreExact(w1, c, o, v);
    var g := Gates(w, c, o);
    if g.Open? { PreparedRules(w, w1, c, g.baseline, g.version, o); }
    hide MustPatch;
    hide MustRevert;
  }

  lemma OpenExists(w: World, c: ComponentId, o: Observed)
    ensures Gates(w, c, o).Open? <==> exists baseline, version :: Reads(w, c, o, baseline, version)
    ensures forall baseline, version :: Reads(w, c, o, baseline, version) ==>
              Gates(w, c, o) == Open(baseline, version)
  {
    forall baseline, version ensures Gates(w, c, o) == Open(baseline, version) <==> Reads(w, c, o, baseline, version) {
      OpenMeans(w, c, o, baseline, version);
    }
    if Gates(w, c, o).Open? { OpenIsAdmitted(w, c, o); }
    hide Gates;
    hide Reads;
  }

  /** The rules are exact: a pass that can read, and whose writes land, patches if and only if what it reads
      opens the gates and every rule for patches is met, and reverts if and only if the gates open and there
      is an occasion to; the first pass over a new ImagePatch and the one that removes an outdated marker
      too. */
  lemma EffectsAreExact(w: World, c: ComponentId, o: Observed, v: Verdicts)
    requires c in w.patches && !w.patches[c].deleting && (w.patches[c].finalizer || v.finalizer.Acked?)
    requires (Outdated(w.patches[c]) ==> v.unmark.Acked?) && o.configReadable && Lands(v.apply)
    ensures var e, ip := PassEffect(w, c, o, v), w.patches[c];
            (e.Patches? <==> exists baseline, version ::
              Reads(w, c, o, baseline, version) && MustPatch(w, c, ip, baseline, version, o)) &&
            (e.Patches? ==> o.images.Some? && o.version.Some?) &&
            (e.Patches? ==> e == Patches(RepositoryFor(c, o.images.value), ip.tag, o.version.value)) &&
            (v.mark.Acked? ==>
             (e.Reverts? <==> exists baseline, version ::
               Reads(w, c, o, baseline, version) && MustRevert(w, c, ip, baseline, version, o)))
  {
    EffectsFollowGates(w, c, o, v);
    OpenExists(w, c, o);
    if Gates(w, c, o).Open? { OpenMeans(w, c, o, Gates(w, c, o).baseline, Gates(w, c, o).version); }
    if PassEffect(w, c, o, v).Patches? { MustHaveImages(w, c, w.patches[c], o); }
    hide PassEffect;
    hide Gates;
    hide MustPatch;
    hide MustRevert;
    hide RepositoryFor;
    hide TagPaths;
    hide Patcher.SetsTag;
  }

  lemma MustHaveImages(w: World, c: ComponentId, ip: ImagePatch, o: Observed)
    ensures forall baseline, version :: MustPatch(w, c, ip, baseline, version, o) ==> o.images.Some?
  {
    hide MayPatch;
  }

  /** Whatever the verdicts: a pass over a live ImagePatch that patches, reverts or marks its spec has read
      what opens the gates, and met the rules on that bundled tag and version. */
  lemma WritesNeedReads(w: World, c: ComponentId, o: Observed, v: Verdicts)
    requires c in w.patches && !w.patches[c].deleting && Versioned(w, v.apply)
    ensures var e, ip := PassEffect(w, c, o, v), w.patches[c];
            (e.Patches? ==> o.version.Some? && exists baseline ::
              Reads(w, c, o, baseline, o.version.value) && e.version == o.version.value && e.tag == ip.tag &&
              MayPatch(w, c, ip, baseline, o.version.value, o, e.repository)) &&
            (e.Reverts? ==> o.version.Some? && exists baseline ::
              Reads(w, c, o, baseline, o.version.value) &&
              (MayRevert(w, c, ip, baseline, o.version.value, false) ||
               MayRevert(w, c, ip, baseline, o.version.value, true)))
  {
    PassIsAStep(w, c, o, v);
    hide Pass;
    hide PassEffect;
    hide ConfigStep;
    hide OthersKept;
    hide KeptAlive;
    hide Gates;
    hide MayPatch;
    hide MayRevert;
    hide TagPaths;
    hide Patcher.SetsTag;
  }

  /** The repository a pass writes is that of the first running image, without a registry host, or the
      component's own while nothing runs. */
  lemma PatchKeepsRepository(w: World, c: ComponentId, o: Observed, v: Verdicts)
    requires c in w.patches && !w.patches[c].deleting && Versioned(w, v.apply)
    ensures var e := PassEffect(w, c, o, v);
            e.Patches? ==>
              o.images.Some? &&
              if |o.images.value| == 0 then e.repository == WithoutRegistry(Repository(c))
              else e.repository == WithoutRegistry(o.images.value[0].name)
  {
    WritesNeedReads(w, c, o, v);
    hide Pass;
    hide PassEffect;
    hide Versioned;
    hide Reads;
    hide WithoutRegistry;
    hide ConfigOf;
    hide GeneratedValues;
    hide OthersStale;
    hide MayRevert;
    hide Patcher.Present;
    hide Patcher.HasConflict;
    hide Policy.ValidatePatchWindow;
    hide Policy.ValidateNotOlderThanCurrent;
    hide Policy.ValidateTarget;
  }

  /** On a cluster that is not known to be prime, or while the CLI keeps state, a pass over a live ImagePatch
      leaves every HelmChartConfig as it is, and marks no spec. */
  lemma ShutGatesKeepConfigs(w: World, c: ComponentId, o: Observed, v: Verdicts)
    requires c in w.patches && !w.patches[c].deleting
    requires o.prime != Some(true) || !o.cliReadable || w.cli != map[]
    ensures Pass(w, c, o, v).configs == w.configs && c in Pass(w, c, o, v).patches &&
            Pass(w, c, o, v).patches[c].marker == w.patches[c].marker
  {
    if w.patches[c].finalizer {
      ShutPass(w, c, o, v);
    } else if v.finalizer.Acked? {
      FinalizerThenRest(w, c, o, v);
      ShutPass(UpdatePatch(w, c, w.patches[c].(finalizer := true), v.finalizer), c, o, v);
    }
    hide ReconcilePatch;
    hide WriteStatus;
  }

  lemma ShutPass(w: World, c: ComponentId, o: Observed, v: Verdicts)
    requires c in w.patches && !w.patches[c].deleting && w.patches[c].finalizer
    requires o.prime != Some(true) || !o.cliReadable || w.cli != map[]
    ensures Pass(w, c, o, v).configs == w.configs && c in Pass(w, c, o, v).patches &&
            Pass(w, c, o, v).patches[c].marker == w.patches[c].marker
  {
    hide ReconcilePatch;
    hide Pass;
    hide WriteStatus;
    hide OthersKept;
    LivePassIs(w, c, o, v);
    StaysShut(w, c, w.patches[c], o, v);
    var s := ReconcilePatch(w, c, w.patches[c], o, v);
    StatusTouches(w, c, s.ip, w.patches[c].status, OutcomeOf(s.end), v.status);
  }

  lemma StaysShut(w: World, c: ComponentId, ip: ImagePatch, o: Observed, v: Verdicts)
    requires c in w.patches && (o.prime != Some(true) || !o.cliReadable || w.cli != map[])
    ensures ReconcilePatch(w, c, ip, o, v).world == w
  {
    hide FromConfig;
  }

  lemma SupportedIsAll(d: ComponentId)
    ensures d in SUPPORTED
  {
  }

  /** Another component is stale when the controller manages it and applied it on a version other than
      the one read. */
  lemma OthersStaleMeans(w: World, version: string, c: ComponentId)
    ensures OthersStale(w, version, c) <==>
            exists d :: d != c && ManagedIn(w, d) != "" && ManagedIn(w, d) != version
  {
    hide ManagedIn;
    forall d: ComponentId ensures d in SUPPORTED { SupportedIsAll(d); }
  }
}
