/** What a pass reports: each condition of the status, and the fields beside it, in terms of what the pass
    read, what was stored, and how its writes fared. */
module Reports {
  import opened Text
  import opened Values
  import opened Components
  import opened Cluster
  import opened Reconciliation
  import opened PassFacts
  import opened Invariants
  import Patcher
  import Policy

  /* ---- Situations ---- */

  // There are pods, and every one of them runs the tag
  predicate AllCarry(images: seq<ImageRef>, tag: string) {
    images != [] && forall ref | ref in images :: ref.tag == tag
  }

  predicate Marked(ip: ImagePatch) {
    ip.marker == Some(ip.generation)
  }

  // The patch was applied on another release
  predicate Upgraded(w: World, c: ComponentId, version: string) {
    Owned(w, c) && ManagedIn(w, c) != version
  }

  // The pass gets as far as the running images
  predicate OnRelease(w: World, c: ComponentId, ip: ImagePatch, o: Observed, version: string) {
    !Marked(ip) && !Upgraded(w, c, version) && o.images.Some?
  }

  // The values of the spec's tag are there, and managed
  predicate InPlace(w: World, c: ComponentId, ip: ImagePatch, o: Observed) {
    o.images.Some? && Owned(w, c) && ValuesOf(ConfigOf(w, c)).Map? &&
    Patcher.Present(ValuesOf(ConfigOf(w, c)), GeneratedValues(c, RepositoryFor(c, o.images.value), ip.tag))
  }

  // A revert this pass needs is done and answered
  predicate Taken(w: World, c: ComponentId, v: Verdicts) {
    Owned(w, c) ==> ValuesOf(ConfigOf(w, c)).Map? && v.apply.Acked?
  }

  // The spec asks for the bundled tag, and the component is as the release ships it
  predicate AtBundled(w: World, c: ComponentId, ip: ImagePatch, o: Observed, v: Verdicts, baseline: string,
                      version: string)
  {
    OnRelease(w, c, ip, o, version) && ip.tag == baseline && Taken(w, c, v)
  }

  // The patch is in place, or was written and the write answered
  predicate Stands(w: World, c: ComponentId, ip: ImagePatch, o: Observed, v: Verdicts, baseline: string,
                   version: string)
  {
    (OnRelease(w, c, ip, o, version) && ip.tag != baseline && InPlace(w, c, ip, o) &&
     Policy.ValidateAgainstBaseline(baseline, ip.tag).None?) ||
    (MustPatch(w, c, ip, baseline, version, o) && v.apply.Acked?)
  }

  // The patch was in place, the bundled tag has reached it, and its values are gone
  predicate Surpassed(w: World, c: ComponentId, ip: ImagePatch, o: Observed, v: Verdicts, baseline: string,
                      version: string)
  {
    OnRelease(w, c, ip, o, version) && ip.tag != baseline && InPlace(w, c, ip, o) && v.apply.Acked? &&
    Policy.ValidateAgainstBaseline(baseline, ip.tag).Some?
  }

  // The patch of another release is gone: it was marked before, or is now
  predicate Undone(w: World, c: ComponentId, ip: ImagePatch, o: Observed, v: Verdicts, version: string) {
    o.images.Some? && Taken(w, c, v) &&
    (Marked(ip) || (Upgraded(w, c, version) && ip.policy.AutoRevert? && v.mark.Acked?))
  }

  // The patch of another release is left to the administrator
  predicate Halted(w: World, c: ComponentId, ip: ImagePatch, version: string) {
    !Marked(ip) && Upgraded(w, c, version) && ip.policy.Manual?
  }

  // The rules for new values, and the reason given for each
  predicate Breaks(othersStale: bool, conflict: bool, c: ComponentId, ip: ImagePatch, baseline: string, o: Observed,
                   why: Why)
  {
    var older := ip.status.appliedTag != "" &&
                 Policy.ValidateNotOlderThanCurrent(ip.status.appliedTag, ip.tag).Some?;
    var published := o.tags.Some? && Policy.ValidateTarget(baseline, ip.tag, o.tags.value).None?;
    match why
    case StalePatchesExist => othersStale
    case ConflictingOverride =>
      conflict && !othersStale && !older && published &&
      (Policy.IsPatchWindowExempt(c) ||
       (o.zeroDay.Some? && Policy.ValidatePatchWindow(c, ip.tag, o.zeroDay.value).None?))
    case Violation(reason) =>
      !othersStale &&
      if older then reason == Policy.NotNewer
      else if !published then o.tags.Some? && Policy.ValidateTarget(baseline, ip.tag, o.tags.value) == Some(reason)
      else !Policy.IsPatchWindowExempt(c) && o.zeroDay.Some? &&
           Policy.ValidatePatchWindow(c, ip.tag, o.zeroDay.value) == Some(reason)
    case _ => false
  }

  // Someone else's values for this component are in the HelmChartConfig
  predicate Foreign(w: World, c: ComponentId, ip: ImagePatch, o: Observed) {
    o.images.Some? && !Owned(w, c) && ValuesOf(ConfigOf(w, c)).Map? &&
    Patcher.HasConflict(ValuesOf(ConfigOf(w, c)), GeneratedValues(c, RepositoryFor(c, o.images.value), ip.tag))
  }

  // A rule refuses the spec, past the gates
  predicate Refuses(w: World, c: ComponentId, ip: ImagePatch, o: Observed, v: Verdicts, baseline: string,
                    version: string, why: Why)
  {
    OnRelease(w, c, ip, o, version) && ip.tag != baseline && ValuesOf(ConfigOf(w, c)).Map? &&
    if InPlace(w, c, ip, o) then
      v.apply.Acked? && why.Violation? && Policy.ValidateAgainstBaseline(baseline, ip.tag) == Some(why.reason)
    else o.othersReadable && Breaks(OthersStale(w, version, c), Foreign(w, c, ip, o), c, ip, baseline, o, why)
  }

  // The write is refused as a conflict
  predicate Refused(v: Verdict) {
    v.Conflicted? || (v.Raced? && v.rest.Answered?)
  }

  // A patch is due, and someone else changed the object since it was read
  predicate Retries(w: World, c: ComponentId, ip: ImagePatch, o: Observed, v: Verdicts, baseline: string,
                    version: string)
  {
    MustPatch(w, c, ip, baseline, version, o) && Refused(v.apply)
  }

  predicate Succeeds(w: World, c: ComponentId, ip: ImagePatch, o: Observed, v: Verdicts, baseline: string,
                     version: string)
  {
    o.images.Some? &&
    ((AtBundled(w, c, ip, o, v, baseline, version) && AllCarry(o.images.value, baseline)) ||
     (Stands(w, c, ip, o, v, baseline, version) && AllCarry(o.images.value, ip.tag)))
  }

  /* ---- What the conditions tell ---- */

  ghost predicate TellsOutcome(w: World, c: ComponentId, ip: ImagePatch, o: Observed, v: Verdicts, baseline: string,
                         version: string, out: Outcome)
  {
    && (out.ready <==> Succeeds(w, c, ip, o, v, baseline, version))
    && (out.ready ==> out.why == if ip.tag == baseline then AtBaseline else PatchedTo)
    && (!out.ready && (AtBundled(w, c, ip, o, v, baseline, version) || Stands(w, c, ip, o, v, baseline, version)) ==>
        out.why == RolloutInProgress)
    && (out.stale <==> Halted(w, c, ip, version)) && (out.stale ==> out.why == Rke2Upgraded)
    && (out.blocked ==> Refuses(w, c, ip, o, v, baseline, version, out.why))
    && (forall why :: Refuses(w, c, ip, o, v, baseline, version, why) ==> out.blocked && out.why == why)
    && (Undone(w, c, ip, o, v, version) ==> out.why == RevertedAfterUpgrade)
    && (Retries(w, c, ip, o, v, baseline, version) ==> out.why == Retrying)
    && (out.blocked || AtBundled(w, c, ip, o, v, baseline, version) || Stands(w, c, ip, o, v, baseline, version) ||
        Undone(w, c, ip, o, v, version) || Halted(w, c, ip, version) || Retries(w, c, ip, o, v, baseline, version) ||
        out.why == Failure)
  }

  function RolledOutOf(images: seq<ImageRef>, tag: string, generation: nat): Condition {
    if AllCarry(images, tag) then Holds(RolledOut, generation) else Fails(RolloutInProgress, generation)
  }

  // The fields that stay as they are until a pass has something to say about them
  datatype Record = Record(
    runningImages: seq<ImageRef>, appliedTag: string, clusterVersion: string, applied: Condition, rolledOut: Condition)

  function RecordOf(s: Status): Record {
    Record(s.runningImages, s.appliedTag, s.clusterVersion, s.applied, s.rolledOut)
  }

  predicate TellsRecord(w: World, c: ComponentId, ip: ImagePatch, o: Observed, v: Verdicts, baseline: string,
                        version: string, r: Record)
  {
    var t, g := RecordOf(ip.status), ip.generation;
    if o.images.Some? && Stands(w, c, ip, o, v, baseline, version) then
      r == Record(o.images.value, ip.tag, version, Holds(Applied, g), RolledOutOf(o.images.value, ip.tag, g))
    else if o.images.Some? && AtBundled(w, c, ip, o, v, baseline, version) then
      r == Record(o.images.value, "", "", Fails(AtBaseline, g), RolledOutOf(o.images.value, baseline, g))
    else if o.images.Some? && Surpassed(w, c, ip, o, v, baseline, version) then
      r == Record(o.images.value, "", "", Fails(Reverted, g), t.rolledOut)
    else if o.images.Some? && Undone(w, c, ip, o, v, version) then
      r == Record(o.images.value, "", "", Fails(RevertedAfterUpgrade, g), Fails(NotApplied, g))
    else if Halted(w, c, ip, version) then r == t.(clusterVersion := ManagedIn(w, c))
    else if o.images.Some? && OnRelease(w, c, ip, o, version) then r == t.(runningImages := o.images.value)
    else r == t
  }

  ghost predicate Tells(w: World, c: ComponentId, ip: ImagePatch, o: Observed, v: Verdicts, baseline: string,
                        version: string, s: Stage)
  {
    TellsOutcome(w, c, ip, o, v, baseline, version, OutcomeOf(s.end)) &&
    TellsRecord(w, c, ip, o, v, baseline, version, RecordOf(s.ip.status)) &&
    s.ip.generation == ip.generation && s.ip.status.baselineTag == ip.status.baselineTag
  }

  /* ---- How a decision ends ---- */

  // The controller is not stopped by the write
  predicate Survives(v: Verdict) {
    !v.Crashed? && (v.Raced? ==> !OfLuck(v.rest).Crashed?)
  }

  predicate NoCrash(v: Verdicts) {
    Survives(v.unmark) && Survives(v.mark) && Survives(v.apply)
  }

  lemma SeenMeans(w: World, chart: Chart, v: Verdict)
    requires Versioned(w, v)
    ensures Answer(w, chart, VersionOf(w, chart), v).Acked? <==> v.Acked?
    ensures Survives(v) ==> !Answer(w, chart, VersionOf(w, chart), v).Crashed?
    ensures Answer(w, chart, VersionOf(w, chart), v).Conflicted? <==> Refused(v)
  {
    if v.Raced? {
      StaleWriteIsRefused(w, chart, HelmConfig(EMPTY, map[], "", 0), v);
      hide VersionsBelow;
      hide Answer;
    }
  }

  lemma UndoEnds(w: World, c: ComponentId, d: Decision, v: Verdicts)
    requires c in w.patches && d.Undo? && Owned(w, c) && Versioned(w, v.apply)
    ensures var s := CarryOutUndo(w, c, d, v);
            if (d.mark ==> v.mark.Acked?) && ValuesOf(ConfigOf(w, c)).Map? && v.apply.Acked? then
              s.ip == d.after && s.end == d.end
            else s.ip == d.ip && !s.end.Done?
    ensures NoCrash(v) && !d.end.Crash? ==> !CarryOutUndo(w, c, d, v).end.Crash?
  {
    hide RevertedConfig;
    var w1 := if d.mark then UpdatePatch(w, c, d.ip, v.mark) else w;
    VersionedFrame(w, w1, v.apply);
    SeenMeans(w1, ChartOf(c), v.apply);
    hide Versioned;
    hide ChartOf;
    hide Apply;
    hide Answer;
  }

  lemma WriteEnds(w: World, c: ComponentId, d: Decision, version: string, v: Verdict)
    requires d.Write? && Versioned(w, v)
    ensures var s := CarryOutWrite(w, c, d, version, v);
            if v.Acked? then
              s.ip == AppliedCopy(d.ip, version, d.images) && s.end == RolloutEnd(d.images, d.ip.tag, PatchedTo)
            else s.ip == d.ip && s.end.Done? == Refused(v) &&
                 (Refused(v) ==> s.end == Done(Outcome(false, false, false, Retrying)))
    ensures Survives(v) ==> !CarryOutWrite(w, c, d, version, v).end.Crash?
  {
    SeenMeans(w, ChartOf(c), v);
    hide Versioned;
    hide ChartOf;
    hide Apply;
    hide Answer;
    hide PatchedConfig;
    hide RepositoryFor;
    hide AppliedCopy;
    hide RolloutEnd;
  }

  lemma AllRunMeans(images: seq<ImageRef>, tag: string)
    ensures AllRun(images, tag) <==> AllCarry(images, tag)
  {
    if AllRun(images, tag) {
      forall ref | ref in images ensures ref.tag == tag { }
    }
  }

  lemma RolloutMeans(ip: ImagePatch, images: seq<ImageRef>, tag: string, why: Why)
    ensures RolledOutCondition(ip, images, tag) == RolledOutOf(images, tag, ip.generation)
    ensures RolloutEnd(images, tag, why) ==
            Done(Outcome(AllCarry(images, tag), false, false, if AllCarry(images, tag) then why else RolloutInProgress))
  {
    AllRunMeans(images, tag);
    hide AllRun;
    hide AllCarry;
  }

  // What a new patch presupposes
  lemma MustMeans(w: World, c: ComponentId, ip: ImagePatch, baseline: string, version: string, o: Observed)
    requires MustPatch(w, c, ip, baseline, version, o)
    ensures OnRelease(w, c, ip, o, version) && ip.tag != baseline && ValuesOf(ConfigOf(w, c)).Map?
    ensures !InPlace(w, c, ip, o)
  {
    hide ConfigOf;
    hide ManagedOn;
    hide OthersStale;
    hide GeneratedValues;
    hide RepositoryFor;
    hide Patcher.Present;
    hide Patcher.HasConflict;
    hide Policy.ValidatePatchWindow;
    hide Policy.ValidateNotOlderThanCurrent;
    hide Policy.ValidateTarget;
  }

  lemma OffRelease(w: World, c: ComponentId, ip: ImagePatch, baseline: string, version: string, o: Observed,
                   v: Verdicts)
    requires !OnRelease(w, c, ip, o, version)
    ensures !AtBundled(w, c, ip, o, v, baseline, version) && !Stands(w, c, ip, o, v, baseline, version)
    ensures !Surpassed(w, c, ip, o, v, baseline, version) && !Succeeds(w, c, ip, o, v, baseline, version)
    ensures forall why :: !Refuses(w, c, ip, o, v, baseline, version, why)
    ensures !Retries(w, c, ip, o, v, baseline, version)
  {
    hide MustPatch;
    hide OnRelease;
    hide InPlace;
    hide Breaks;
    hide Foreign;
    hide AllCarry;
    hide Policy.ValidateAgainstBaseline;
    hide ConfigOf;
    if MustPatch(w, c, ip, baseline, version, o) { MustMeans(w, c, ip, baseline, version, o); }
  }

  lemma MarkedTells(w: World, c: ComponentId, ip: ImagePatch, baseline: string, version: string, o: Observed,
                    v: Verdicts)
    requires c in w.patches && Versioned(w, v.apply) && Marked(ip)
    requires !CarryOut(w, c, DecideMarked(c, ip, ConfigOf(w, c), o), version, v).end.Crash?
    ensures Tells(w, c, ip, o, v, baseline, version,
              CarryOut(w, c, DecideMarked(c, ip, ConfigOf(w, c), o), version, v))
  {
    hide ConfigOf;
    hide ManagedOn;
    hide AtBundled;
    hide Stands;
    hide Surpassed;
    hide Succeeds;
    hide Refuses;
    hide Retries;
    hide RolledOutOf;
    hide CarryOutUndo;
    hide CarryOutWrite;
    var d := DecideMarked(c, ip, ConfigOf(w, c), o);
    if d.Undo? { UndoEnds(w, c, d, v); }
    hide Versioned;
    OffRelease(w, c, ip, baseline, version, o, v);
  }

  lemma UpgradedMeans(w: World, c: ComponentId, ip: ImagePatch, version: string, o: Observed, v: Verdicts)
    requires !Marked(ip) && Upgraded(w, c, version)
    ensures Halted(w, c, ip, version) <==> ip.policy.Manual?
    ensures Undone(w, c, ip, o, v, version) <==>
            o.images.Some? && ip.policy.AutoRevert? && v.mark.Acked? && ValuesOf(ConfigOf(w, c)).Map? && v.apply.Acked?
    ensures !OnRelease(w, c, ip, o, version)
  {
    hide ConfigOf;
  }

  lemma UpgradedTells(w: World, c: ComponentId, ip: ImagePatch, baseline: string, version: string, o: Observed,
                      v: Verdicts)
    requires c in w.patches && Versioned(w, v.apply) && !Marked(ip) && Upgraded(w, c, version)
    requires !CarryOut(w, c, DecideStale(c, ip, ConfigOf(w, c), o), version, v).end.Crash?
    ensures Tells(w, c, ip, o, v, baseline, version,
              CarryOut(w, c, DecideStale(c, ip, ConfigOf(w, c), o), version, v))
  {
    hide ConfigOf;
    hide ManagedOn;
    hide AtBundled;
    hide Stands;
    hide Surpassed;
    hide Succeeds;
    hide Refuses;
    hide Retries;
    hide Undone;
    hide Halted;
    hide CarryOutUndo;
    hide CarryOutWrite;
    hide Versioned;
    OffRelease(w, c, ip, baseline, version, o, v);
    UpgradedMeans(w, c, ip, version, o, v);
    if ip.policy.AutoRevert? {
      AutoRevertTells(w, c, ip, baseline, version, o, v);
      hide Tells;
    }
  }

  lemma AutoRevertTells(w: World, c: ComponentId, ip: ImagePatch, baseline: string, version: string, o: Observed,
                        v: Verdicts)
    requires c in w.patches && Versioned(w, v.apply) && !Marked(ip) && Upgraded(w, c, version) && ip.policy.AutoRevert?
    requires !CarryOut(w, c, DecideStale(c, ip, ConfigOf(w, c), o), version, v).end.Crash?
    ensures Tells(w, c, ip, o, v, baseline, version,
              CarryOut(w, c, DecideStale(c, ip, ConfigOf(w, c), o), version, v))
  {
    hide ConfigOf;
    hide ManagedOn;
    hide AtBundled;
    hide Stands;
    hide Surpassed;
    hide Succeeds;
    hide Refuses;
    hide Retries;
    hide Undone;
    hide Halted;
    hide CarryOutUndo;
    hide CarryOutWrite;
    OffRelease(w, c, ip, baseline, version, o, v);
    UpgradedMeans(w, c, ip, version, o, v);
    var d := DecideStale(c, ip, ConfigOf(w, c), o);
    if d.Undo? { UndoEnds(w, c, d, v); }
    hide Versioned;
  }

  lemma BlindTells(w: World, c: ComponentId, ip: ImagePatch, baseline: string, version: string, o: Observed,
                   v: Verdicts)
    requires !Marked(ip) && !Upgraded(w, c, version) && o.images.None?
    ensures Tells(w, c, ip, o, v, baseline, version, Stage(w, ip, Error))
  {
    hide Owned;
    hide ManagedIn;
    hide AtBundled;
    hide Stands;
    hide Surpassed;
    hide Succeeds;
    hide Refuses;
    hide Retries;
    OffRelease(w, c, ip, baseline, version, o, v);
  }

  lemma BaselineTells(w: World, c: ComponentId, ip: ImagePatch, baseline: string, version: string, o: Observed,
                      v: Verdicts)
    requires c in w.patches && Versioned(w, v.apply) && OnRelease(w, c, ip, o, version) && ip.tag == baseline
    requires !CarryOut(w, c, DecideBaseline(c, Seen(ip, o), baseline, ConfigOf(w, c), o.images.value), version, v)
              .end.Crash?
    ensures Tells(w, c, ip, o, v, baseline, version,
              CarryOut(w, c, DecideBaseline(c, Seen(ip, o), baseline, ConfigOf(w, c), o.images.value), version, v))
  {
    hide ConfigOf;
    hide ManagedOn;
    hide MustPatch;
    hide InPlace;
    hide Breaks;
    hide Foreign;
    hide AllCarry;
    hide RolledOutOf;
    hide RolledOutCondition;
    hide RolloutEnd;
    hide Policy.ValidateAgainstBaseline;
    hide CarryOutUndo;
    hide CarryOutWrite;
    RolloutMeans(Seen(ip, o), o.images.value, baseline, AtBaseline);
    var d := DecideBaseline(c, Seen(ip, o), baseline, ConfigOf(w, c), o.images.value);
    if d.Undo? { UndoEnds(w, c, d, v); }
    hide Versioned;
    if MustPatch(w, c, ip, baseline, version, o) { MustMeans(w, c, ip, baseline, version, o); }
  }

  // The pass's copy once it knows the running images
  function Seen(ip: ImagePatch, o: Observed): ImagePatch
    requires o.images.Some?
  {
    ip.(status := ip.status.(runningImages := o.images.value))
  }

  lemma InPlaceMeans(w: World, c: ComponentId, ip: ImagePatch, baseline: string, version: string, o: Observed,
                     v: Verdicts)
    requires OnRelease(w, c, ip, o, version) && ip.tag != baseline && InPlace(w, c, ip, o)
    ensures Owned(w, c) && ManagedIn(w, c) == version && ValuesOf(ConfigOf(w, c)).Map?
    ensures !AtBundled(w, c, ip, o, v, baseline, version) && !Undone(w, c, ip, o, v, version) &&
            !Halted(w, c, ip, version)
    ensures var against := Policy.ValidateAgainstBaseline(baseline, ip.tag);
            (Stands(w, c, ip, o, v, baseline, version) <==> against.None?) &&
            (Surpassed(w, c, ip, o, v, baseline, version) <==> against.Some? && v.apply.Acked?) &&
            forall why :: Refuses(w, c, ip, o, v, baseline, version, why) <==>
              v.apply.Acked? && why.Violation? && against == Some(why.reason)
    ensures !Retries(w, c, ip, o, v, baseline, version)
  {
    hide ConfigOf;
    hide ManagedIn;
    hide MustPatch;
    hide Breaks;
    hide Foreign;
    hide Policy.ValidateAgainstBaseline;
    if MustPatch(w, c, ip, baseline, version, o) { MustMeans(w, c, ip, baseline, version, o); }
  }

  lemma InPlaceTells(w: World, c: ComponentId, ip: ImagePatch, baseline: string, version: string, o: Observed,
                     v: Verdicts)
    requires c in w.patches && Versioned(w, v.apply) && OnRelease(w, c, ip, o, version) && ip.tag != baseline
    requires InPlace(w, c, ip, o)
    requires !CarryOut(w, c, DecideKeep(c, Seen(ip, o), baseline, ConfigOf(w, c), o.images.value), version,
                       v).end.Crash?
    ensures Tells(w, c, ip, o, v, baseline, version,
              CarryOut(w, c, DecideKeep(c, Seen(ip, o), baseline, ConfigOf(w, c), o.images.value), version, v))
  {
    hide ConfigOf;
    hide AtBundled;
    hide Stands;
    hide Surpassed;
    hide Undone;
    hide Halted;
    hide Refuses;
    hide Retries;
    hide InPlace;
    hide AllCarry;
    hide RolledOutOf;
    hide RolledOutCondition;
    hide RolloutEnd;
    hide Policy.ValidateAgainstBaseline;
    hide CarryOutUndo;
    hide CarryOutWrite;
    InPlaceMeans(w, c, ip, baseline, version, o, v);
    RolloutMeans(Seen(ip, o), o.images.value, ip.tag, PatchedTo);
    var d := DecideKeep(c, Seen(ip, o), baseline, ConfigOf(w, c), o.images.value);
    if d.Undo? { UndoEnds(w, c, d, v); }
    hide Versioned;
  }

  // A pass refuses by a rule, or fails to read what the rules need
  predicate Declines(othersStale: bool, conflict: bool, c: ComponentId, ip: ImagePatch, baseline: string, o: Observed,
                     end: End)
  {
    end == Error || (end.Done? && end.outcome == Outcome(false, true, false, end.outcome.why) && o.othersReadable &&
                     Breaks(othersStale, conflict, c, ip, baseline, o, end.outcome.why))
  }

  lemma RefusalTells(othersStale: bool, conflict: bool, c: ComponentId, ip: ImagePatch, baseline: string, o: Observed)
    ensures var r := Refusal(othersStale, c, ip, baseline, o);
            (r.Some? ==> Declines(othersStale, conflict, c, ip, baseline, o, r.value)) &&
            (r.None? && conflict ==> Declines(othersStale, conflict, c, ip, baseline, o, Blocked(ConflictingOverride)))
  {
    hide Policy.ValidatePatchWindow;
    hide Policy.ValidateNotOlderThanCurrent;
    hide Policy.ValidateTarget;
    hide Policy.IsPatchWindowExempt;
  }

  // The reason given is the only one, and without a refusal there is none
  lemma OnlyReason(othersStale: bool, conflict: bool, c: ComponentId, ip: ImagePatch, baseline: string, o: Observed,
                   why: Why)
    requires o.othersReadable && Breaks(othersStale, conflict, c, ip, baseline, o, why)
    ensures var r := Refusal(othersStale, c, ip, baseline, o);
            if r.Some? then r.value == Blocked(why) else conflict && why == ConflictingOverride
  {
    hide Policy.ValidatePatchWindow;
    hide Policy.ValidateNotOlderThanCurrent;
    hide Policy.ValidateTarget;
    hide Policy.IsPatchWindowExempt;
  }

  // The pass finds no values of the spec in place, and may need some
  predicate Wanting(w: World, c: ComponentId, ip: ImagePatch, o: Observed, baseline: string, version: string) {
    OnRelease(w, c, ip, o, version) && ip.tag != baseline && !InPlace(w, c, ip, o)
  }

  lemma NothingInPlace(w: World, c: ComponentId, ip: ImagePatch, o: Observed, v: Verdicts, baseline: string,
                       version: string)
    requires Wanting(w, c, ip, o, baseline, version)
    ensures !AtBundled(w, c, ip, o, v, baseline, version) && !Surpassed(w, c, ip, o, v, baseline, version)
    ensures !Undone(w, c, ip, o, v, version) && !Halted(w, c, ip, version)
    ensures Stands(w, c, ip, o, v, baseline, version) <==>
            MustPatch(w, c, ip, baseline, version, o) && v.apply.Acked?
    ensures Retries(w, c, ip, o, v, baseline, version) <==>
            MustPatch(w, c, ip, baseline, version, o) && Refused(v.apply)
    ensures forall why :: Refuses(w, c, ip, o, v, baseline, version, why) <==>
              ValuesOf(ConfigOf(w, c)).Map? && o.othersReadable &&
              Breaks(OthersStale(w, version, c), Foreign(w, c, ip, o), c, ip, baseline, o, why)
  {
    hide MustPatch;
    hide InPlace;
    hide Breaks;
    hide Foreign;
    hide OthersStale;
    hide ConfigOf;
  }

  // Nothing is written: no patch is due
  lemma DeclinedTells(w: World, c: ComponentId, ip: ImagePatch, baseline: string, version: string, o: Observed,
                      v: Verdicts, end: End)
    requires Wanting(w, c, ip, o, baseline, version) && !MustPatch(w, c, ip, baseline, version, o)
    requires var stale, foreign := OthersStale(w, version, c), Foreign(w, c, ip, o);
             if !ValuesOf(ConfigOf(w, c)).Map? then end == Error
             else
               Declines(stale, foreign, c, ip, baseline, o, end) &&
               forall why :: o.othersReadable && Breaks(stale, foreign, c, ip, baseline, o, why) ==> end == Blocked(why)
    ensures Tells(w, c, ip, o, v, baseline, version, Stage(w, Seen(ip, o), end))
  {
    hide MustPatch;
    hide InPlace;
    hide Breaks;
    hide Foreign;
    hide OthersStale;
    hide ConfigOf;
    hide AtBundled;
    hide Stands;
    hide Surpassed;
    hide Undone;
    hide Halted;
    hide Refuses;
    NothingInPlace(w, c, ip, o, v, baseline, version);
  }

  lemma WrittenTells(w: World, c: ComponentId, ip: ImagePatch, baseline: string, version: string, o: Observed,
                     v: Verdicts)
    requires Versioned(w, v.apply) && Wanting(w, c, ip, o, baseline, version)
    requires MustPatch(w, c, ip, baseline, version, o)
    requires forall why :: !Breaks(OthersStale(w, version, c), Foreign(w, c, ip, o), c, ip, baseline, o, why)
    requires !CarryOutWrite(w, c, Write(Seen(ip, o), o.images.value), version, v.apply).end.Crash?
    ensures Tells(w, c, ip, o, v, baseline, version,
              CarryOutWrite(w, c, Write(Seen(ip, o), o.images.value), version, v.apply))
  {
    hide MustPatch;
    hide InPlace;
    hide Breaks;
    hide Foreign;
    hide OthersStale;
    hide ConfigOf;
    hide AtBundled;
    hide Stands;
    hide Surpassed;
    hide Undone;
    hide Halted;
    hide Refuses;
    hide AllCarry;
    hide RolledOutOf;
    hide RolledOutCondition;
    hide RolloutEnd;
    hide CarryOutWrite;
    NothingInPlace(w, c, ip, o, v, baseline, version);
    RolloutMeans(Seen(ip, o), o.images.value, ip.tag, PatchedTo);
    WriteEnds(w, c, Write(Seen(ip, o), o.images.value), version, v.apply);
    hide Versioned;
  }

  lemma RefusalIgnoresImages(othersStale: bool, c: ComponentId, ip: ImagePatch, baseline: string, o: Observed)
    requires o.images.Some?
    ensures Refusal(othersStale, c, Seen(ip, o), baseline, o) == Refusal(othersStale, c, ip, baseline, o)
  {
    hide Policy.ValidatePatchWindow;
    hide Policy.ValidateNotOlderThanCurrent;
    hide Policy.ValidateTarget;
  }

  // What a pass does with values that are not in place
  lemma WantingDecides(w: World, c: ComponentId, ip: ImagePatch, baseline: string, version: string, o: Observed)
    requires Wanting(w, c, ip, o, baseline, version)
    ensures var d :=
            DecideCurrent(OthersStale(w, version, c), c, Seen(ip, o), baseline, ConfigOf(w, c), o.images.value, o);
            var r := Refusal(OthersStale(w, version, c), c, ip, baseline, o);
            d == if !ValuesOf(ConfigOf(w, c)).Map? then Leave(Seen(ip, o), Error)
                 else if r.Some? then Leave(Seen(ip, o), r.value)
                 else if Foreign(w, c, ip, o) then Leave(Seen(ip, o), Blocked(ConflictingOverride))
                 else Write(Seen(ip, o), o.images.value)
  {
    RefusalIgnoresImages(OthersStale(w, version, c), c, ip, baseline, o);
    hide Refusal;
    hide OthersStale;
    hide ConfigOf;
    hide ManagedOn;
    hide GeneratedValues;
    hide RepositoryFor;
    hide Patcher.Present;
    hide Patcher.HasConflict;
    hide DecideBaseline;
    hide DecideKeep;
  }

  lemma DecidesExactly(w: World, c: ComponentId, ip: ImagePatch, baseline: string, version: string, o: Observed)
    requires OnRelease(w, c, ip, o, version)
    ensures DecideCurrent(OthersStale(w, version, c), c, Seen(ip, o), baseline, ConfigOf(w, c), o.images.value,
                          o).Write?
            <==> MustPatch(w, c, ip, baseline, version, o)
  {
    hide DecideCurrent;
    hide OthersStale;
    hide ConfigOf;
    hide ManagedOn;
    hide MustPatch;
    hide MustRevert;
    CurrentIsExact(w, c, Seen(ip, o), baseline, version, o);
    RulesIgnoreImages(w, c, ip, baseline, version, o,
                      DecideCurrent(OthersStale(w, version, c), c, Seen(ip, o), baseline, ConfigOf(w, c),
                                    o.images.value, o));
  }

  lemma WantingTells(w: World, c: ComponentId, ip: ImagePatch, baseline: string, version: string, o: Observed,
                     v: Verdicts)
    requires c in w.patches && Versioned(w, v.apply) && Wanting(w, c, ip, o, baseline, version)
    requires var d :=
             DecideCurrent(OthersStale(w, version, c), c, Seen(ip, o), baseline, ConfigOf(w, c), o.images.value, o);
             !CarryOut(w, c, d, version, v).end.Crash?
    ensures var d :=
            DecideCurrent(OthersStale(w, version, c), c, Seen(ip, o), baseline, ConfigOf(w, c), o.images.value, o);
            Tells(w, c, ip, o, v, baseline, version, CarryOut(w, c, d, version, v))
  {
    hide Tells;
    hide MustPatch;
    hide InPlace;
    hide OnRelease;
    hide Foreign;
    hide Breaks;
    hide Declines;
    hide OthersStale;
    hide ConfigOf;
    hide DecideCurrent;
    hide Refusal;
    hide CarryOutWrite;
    hide CarryOutUndo;
    hide Versioned;
    var stale, foreign := OthersStale(w, version, c), Foreign(w, c, ip, o);
    var r := Refusal(stale, c, ip, baseline, o);
    WantingDecides(w, c, ip, baseline, version, o);
    DecidesExactly(w, c, ip, baseline, version, o);
    RefusalTells(stale, foreign, c, ip, baseline, o);
    forall why | o.othersReadable && Breaks(stale, foreign, c, ip, baseline, o, why)
      ensures if r.Some? then r.value == Blocked(why) else foreign && why == ConflictingOverride
    {
      OnlyReason(stale, foreign, c, ip, baseline, o, why);
    }
    if !ValuesOf(ConfigOf(w, c)).Map? {
      DeclinedTells(w, c, ip, baseline, version, o, v, Error);
    } else if r.Some? {
      DeclinedTells(w, c, ip, baseline, version, o, v, r.value);
    } else if foreign {
      DeclinedTells(w, c, ip, baseline, version, o, v, Blocked(ConflictingOverride));
    } else {
      MustRead(w, c, ip, baseline, version, o);
      WrittenTells(w, c, ip, baseline, version, o, v);
    }
  }

  lemma MustRead(w: World, c: ComponentId, ip: ImagePatch, baseline: string, version: string, o: Observed)
    requires MustPatch(w, c, ip, baseline, version, o)
    ensures o.othersReadable
  {
    hide MayPatch;
  }

  lemma CurrentTells(w: World, c: ComponentId, ip: ImagePatch, baseline: string, version: string, o: Observed,
                     v: Verdicts)
    requires c in w.patches && Versioned(w, v.apply) && OnRelease(w, c, ip, o, version)
    requires var d :=
             DecideCurrent(OthersStale(w, version, c), c, Seen(ip, o), baseline, ConfigOf(w, c), o.images.value, o);
             !CarryOut(w, c, d, version, v).end.Crash?
    ensures var d :=
            DecideCurrent(OthersStale(w, version, c), c, Seen(ip, o), baseline, ConfigOf(w, c), o.images.value, o);
            Tells(w, c, ip, o, v, baseline, version, CarryOut(w, c, d, version, v))
  {
    hide Tells;
    hide OthersStale;
    hide ConfigOf;
    hide ManagedOn;
    hide DecideBaseline;
    hide DecideKeep;
    hide Refusal;
    hide GeneratedValues;
    hide RepositoryFor;
    hide Patcher.Present;
    hide Patcher.HasConflict;
    hide CarryOut;
    hide Versioned;
    if ip.tag == baseline {
      BaselineTells(w, c, ip, baseline, version, o, v);
    } else if InPlace(w, c, ip, o) {
      InPlaceTells(w, c, ip, baseline, version, o, v);
    } else {
      WantingTells(w, c, ip, baseline, version, o, v);
    }
  }

  lemma DecisionTells(w: World, c: ComponentId, ip: ImagePatch, baseline: string, version: string, o: Observed,
                      v: Verdicts)
    requires c in w.patches && Versioned(w, v.apply)
    requires !CarryOut(w, c, Decide(w, c, ip, baseline, version, o), version, v).end.Crash?
    ensures Tells(w, c, ip, o, v, baseline, version,
              CarryOut(w, c, Decide(w, c, ip, baseline, version, o), version, v))
  {
    hide Tells;
    hide OthersStale;
    hide ConfigOf;
    hide ManagedOn;
    hide DecideMarked;
    hide DecideStale;
    hide DecideCurrent;
    hide CarryOutUndo;
    hide CarryOutWrite;
    hide Versioned;
    if Marked(ip) {
      MarkedTells(w, c, ip, baseline, version, o, v);
    } else if Upgraded(w, c, version) {
      UpgradedTells(w, c, ip, baseline, version, o, v);
    } else if o.images.None? {
      BlindTells(w, c, ip, baseline, version, o, v);
    } else {
      CurrentTells(w, c, ip, baseline, version, o, v);
    }
  }

  /* ---- The whole pass ---- */

  // The gates open, the pass reads its HelmChartConfig, and an outdated marker goes
  predicate Looks(w: World, c: ComponentId, o: Observed, v: Verdicts, baseline: string, version: string)
    requires c in w.patches
  {
    Reads(w, c, o, baseline, version) && o.configReadable && (Outdated(w.patches[c]) ==> v.unmark.Acked?)
  }

  // The gates refuse every patch
  ghost predicate Bars(w: World, c: ComponentId, o: Observed, why: Why) {
    match why
    case NotPrime => o.prime == Some(false)
    case CliPatchesExist => o.prime == Some(true) && o.cliReadable && w.cli != map[]
    case ChartLayoutMismatch =>
      o.prime == Some(true) && o.cliReadable && w.cli == map[] && o.version.Some? && o.chart.Some? &&
      forall baseline :: !Reads(w, c, o, baseline, o.version.value)
    case _ => false
  }

  // The pass reports: nothing stops it, and its status write lands
  ghost predicate Reported(w: World, c: ComponentId, v: Verdicts) {
    c in w.patches && !w.patches[c].deleting && (w.patches[c].finalizer || v.finalizer.Acked?) &&
    NoCrash(v) && Lands(v.status) && Versioned(w, v.apply)
  }

  // What a pass that does not get to its object leaves to tell
  ghost predicate Silent(w: World, c: ComponentId, ip: ImagePatch, o: Observed, s: Stage) {
    var out := OutcomeOf(s.end);
    RecordOf(s.ip.status) == RecordOf(ip.status) && s.ip.generation == ip.generation && !out.ready && !out.stale &&
    (out.blocked ==> Bars(w, c, o, out.why)) && (forall why :: Bars(w, c, o, why) ==> out.blocked && out.why == why) &&
    (!out.blocked ==> out.why == Failure)
  }

  lemma DecisionSurvives(w: World, c: ComponentId, ip: ImagePatch, baseline: string, version: string, o: Observed,
                         v: Verdicts)
    requires c in w.patches && Versioned(w, v.apply) && NoCrash(v)
    ensures !CarryOut(w, c, Decide(w, c, ip, baseline, version, o), version, v).end.Crash?
  {
    hide Decide;
    hide ConfigOf;
    hide MayPatch;
    hide MayRevert;
    hide CarryOutUndo;
    hide CarryOutWrite;
    var d := Decide(w, c, ip, baseline, version, o);
    DecisionEnds(w, c, ip, baseline, version, o);
    DecisionIsGood(w, c, ip, baseline, version, o);
    match d {
      case Undo(mark, _, _, _) =>
        MayRevertOwned(w, c, ip, baseline, version, mark);
        UndoEnds(w, c, d, v);
      case Write(_, _) => WriteEnds(w, c, d, version, v.apply);
      case Leave(_, _) =>
    }
    hide Versioned;
  }

  lemma MayRevertOwned(w: World, c: ComponentId, ip: ImagePatch, baseline: string, version: string, mark: bool)
    requires MayRevert(w, c, ip, baseline, version, mark)
    ensures Owned(w, c)
  {
  }

  // The rules look at the spec, the recorded tag and the marker, and at the stored HelmChartConfigs
  lemma SituationsFrame(w: World, w1: World, c: ComponentId, ip: ImagePatch, ip1: ImagePatch, o: Observed, v: Verdicts,
                        baseline: string, version: string)
    requires w1.configs == w.configs && SameRules(ip, ip1)
    ensures OnRelease(w1, c, ip1, o, version) == OnRelease(w, c, ip, o, version)
    ensures InPlace(w1, c, ip1, o) == InPlace(w, c, ip, o)
    ensures AtBundled(w1, c, ip1, o, v, baseline, version) == AtBundled(w, c, ip, o, v, baseline, version)
    ensures Surpassed(w1, c, ip1, o, v, baseline, version) == Surpassed(w, c, ip, o, v, baseline, version)
    ensures Undone(w1, c, ip1, o, v, version) == Undone(w, c, ip, o, v, version)
    ensures Halted(w1, c, ip1, version) == Halted(w, c, ip, version)
    ensures Foreign(w1, c, ip1, o) == Foreign(w, c, ip, o)
    ensures ManagedIn(w1, c) == ManagedIn(w, c)
  {
    OthersIgnorePatches(w, w1, c);
    hide ConfigOf;
    hide OthersStale;
    hide ManagedOn;
    hide GeneratedValues;
    hide RepositoryFor;
    hide Patcher.Present;
    hide Patcher.HasConflict;
    hide Policy.ValidateAgainstBaseline;
  }

  lemma StandsFrame(w: World, w1: World, c: ComponentId, ip: ImagePatch, ip1: ImagePatch, o: Observed, v: Verdicts,
                    baseline: string, version: string)
    requires w1.configs == w.configs && SameRules(ip, ip1)
    ensures Stands(w1, c, ip1, o, v, baseline, version) == Stands(w, c, ip, o, v, baseline, version)
    ensures Succeeds(w1, c, ip1, o, v, baseline, version) == Succeeds(w, c, ip, o, v, baseline, version)
    ensures Retries(w1, c, ip1, o, v, baseline, version) == Retries(w, c, ip, o, v, baseline, version)
  {
    SituationsFrame(w, w1, c, ip, ip1, o, v, baseline, version);
    if o.images.Some? {
      PatchRulesFrame(w, w1, c, ip, ip1, baseline, version, o, RepositoryFor(c, o.images.value));
    }
    hide OnRelease;
    hide InPlace;
    hide AtBundled;
    hide MayPatch;
    hide RepositoryFor;
    hide AllCarry;
    hide Policy.ValidateAgainstBaseline;
  }

  lemma RefusesFrame(w: World, w1: World, c: ComponentId, ip: ImagePatch, ip1: ImagePatch, o: Observed, v: Verdicts,
                     baseline: string, version: string, why: Why)
    requires w1.configs == w.configs && SameRules(ip, ip1)
    ensures Refuses(w1, c, ip1, o, v, baseline, version, why) == Refuses(w, c, ip, o, v, baseline, version, why)
  {
    SituationsFrame(w, w1, c, ip, ip1, o, v, baseline, version);
    OthersIgnorePatches(w, w1, c);
    BreaksFrame(OthersStale(w, version, c), Foreign(w, c, ip, o), c, ip, ip1, baseline, o, why);
    hide ConfigOf;
    hide OthersStale;
    hide OnRelease;
    hide InPlace;
    hide Foreign;
    hide Breaks;
    hide Policy.ValidateAgainstBaseline;
  }

  lemma BreaksFrame(othersStale: bool, conflict: bool, c: ComponentId, ip: ImagePatch, ip1: ImagePatch,
                    baseline: string, o: Observed, why: Why)
    requires SameRules(ip, ip1)
    ensures Breaks(othersStale, conflict, c, ip1, baseline, o, why) ==
            Breaks(othersStale, conflict, c, ip, baseline, o, why)
  {
    hide Policy.ValidatePatchWindow;
    hide Policy.ValidateNotOlderThanCurrent;
    hide Policy.ValidateTarget;
  }

  lemma OutcomeFrame(w: World, w1: World, c: ComponentId, ip: ImagePatch, ip1: ImagePatch, o: Observed, v: Verdicts,
                     baseline: string, version: string, out: Outcome)
    requires w1.configs == w.configs && SameRules(ip, ip1) && TellsOutcome(w1, c, ip1, o, v, baseline, version, out)
    ensures TellsOutcome(w, c, ip, o, v, baseline, version, out)
  {
    SituationsFrame(w, w1, c, ip, ip1, o, v, baseline, version);
    StandsFrame(w, w1, c, ip, ip1, o, v, baseline, version);
    forall why
      ensures Refuses(w1, c, ip1, o, v, baseline, version, why) == Refuses(w, c, ip, o, v, baseline, version, why)
    {
      RefusesFrame(w, w1, c, ip, ip1, o, v, baseline, version, why);
    }
    hide AtBundled;
    hide Stands;
    hide Halted;
    hide Refuses;
    hide Succeeds;
    hide Retries;
    hide Undone;
  }

  lemma RecordFrame(w: World, w1: World, c: ComponentId, ip: ImagePatch, ip1: ImagePatch, o: Observed, v: Verdicts,
                    baseline: string, version: string, r: Record)
    requires w1.configs == w.configs && SameRules(ip, ip1) && RecordOf(ip1.status) == RecordOf(ip.status)
    requires TellsRecord(w1, c, ip1, o, v, baseline, version, r)
    ensures TellsRecord(w, c, ip, o, v, baseline, version, r)
  {
    SituationsFrame(w, w1, c, ip, ip1, o, v, baseline, version);
    StandsFrame(w, w1, c, ip, ip1, o, v, baseline, version);
    hide OnRelease;
    hide AtBundled;
    hide Stands;
    hide Surpassed;
    hide Undone;
    hide Halted;
    hide ManagedIn;
    hide RolledOutOf;
  }

  // What the stage tells of the object as it was stored
  ghost predicate StageTells(w: World, c: ComponentId, ip: ImagePatch, o: Observed, v: Verdicts, s: Stage)
    requires c in w.patches
  {
    !s.end.Crash? &&
    (forall baseline, version | Looks(w, c, o, v, baseline, version) ::
      TellsOutcome(w, c, ip, o, v, baseline, version, OutcomeOf(s.end)) &&
      TellsRecord(w, c, ip, o, v, baseline, version, RecordOf(s.ip.status)) &&
      s.ip.generation == ip.generation && s.ip.status.baselineTag == baseline) &&
    ((forall baseline, version :: !Looks(w, c, o, v, baseline, version)) ==> Silent(w, c, ip, o, s))
  }

  // From the pass's copy, which knows the bundled tag and has lost an outdated marker
  lemma CopyTells(w: World, w1: World, c: ComponentId, ip: ImagePatch, copy: ImagePatch, o: Observed, v: Verdicts,
                  baseline: string, version: string)
    requires c in w.patches && c in w1.patches && w1.configs == w.configs && w1.nextVersion == w.nextVersion
    requires copy == ip.(status := ip.status.(baselineTag := baseline), marker := copy.marker)
    requires copy.marker == ip.marker || (Outdated(ip) && copy.marker == None)
    requires Versioned(w, v.apply) && NoCrash(v)
    ensures var s := CarryOut(w1, c, Decide(w1, c, copy, baseline, version, o), version, v);
            !s.end.Crash? && TellsOutcome(w, c, ip, o, v, baseline, version, OutcomeOf(s.end)) &&
            TellsRecord(w, c, ip, o, v, baseline, version, RecordOf(s.ip.status)) &&
            s.ip.generation == ip.generation && s.ip.status.baselineTag == baseline
  {
    hide CarryOut;
    hide Decide;
    hide TellsOutcome;
    hide TellsRecord;
    hide NoCrash;
    VersionedFrame(w, w1, v.apply);
    hide Versioned;
    DecisionSurvives(w1, c, copy, baseline, version, o, v);
    DecisionTells(w1, c, copy, baseline, version, o, v);
    var s := CarryOut(w1, c, Decide(w1, c, copy, baseline, version, o), version, v);
    OutcomeFrame(w, w1, c, ip, copy, o, v, baseline, version, OutcomeOf(s.end));
    RecordFrame(w, w1, c, ip, copy, o, v, baseline, version, RecordOf(s.ip.status));
  }

  lemma GatesTell(w: World, c: ComponentId, o: Observed)
    ensures var g := Gates(w, c, o);
            if g.Open? then forall why :: !Bars(w, c, o, why)
            else if g.end.Done? then
              g.end == Blocked(g.end.outcome.why) && forall why :: Bars(w, c, o, why) <==> why == g.end.outcome.why
            else g.end == Error && forall why :: !Bars(w, c, o, why)
  {
    hide Reads;
    hide Patcher.BundledOf;
    OpenExists(w, c, o);
  }

  lemma NoLooks(w: World, c: ComponentId, o: Observed, v: Verdicts)
    requires c in w.patches
    requires Gates(w, c, o).Shut? || !o.configReadable || (Outdated(w.patches[c]) && !v.unmark.Acked?)
    ensures forall baseline, version :: !Looks(w, c, o, v, baseline, version)
  {
    hide Reads;
    hide Gates;
    OpenExists(w, c, o);
  }

  lemma OnlyLooks(w: World, c: ComponentId, o: Observed, v: Verdicts)
    requires c in w.patches && Gates(w, c, o).Open? && o.configReadable
    requires Outdated(w.patches[c]) ==> v.unmark.Acked?
    ensures Looks(w, c, o, v, Gates(w, c, o).baseline, Gates(w, c, o).version)
    ensures forall baseline, version :: Looks(w, c, o, v, baseline, version) ==>
              baseline == Gates(w, c, o).baseline && version == Gates(w, c, o).version
  {
    hide Reads;
    hide Gates;
    OpenIsAdmitted(w, c, o);
    OpenExists(w, c, o);
  }

  lemma SilentStage(w: World, c: ComponentId, o: Observed, v: Verdicts)
    requires c in w.patches && NoCrash(v)
    requires Gates(w, c, o).Shut? || !o.configReadable || (Outdated(w.patches[c]) && !v.unmark.Acked?)
    ensures var s := ReconcilePatch(w, c, w.patches[c], o, v);
            !s.end.Crash? && Silent(w, c, w.patches[c], o, s)
  {
    hide Gates;
    hide Bars;
    hide CarryOut;
    hide Decide;
    GatesTell(w, c, o);
  }

  lemma StageReports(w: World, c: ComponentId, o: Observed, v: Verdicts)
    requires c in w.patches && Versioned(w, v.apply) && NoCrash(v)
    ensures StageTells(w, c, w.patches[c], o, v, ReconcilePatch(w, c, w.patches[c], o, v))
  {
    hide Gates;
    hide Looks;
    hide Bars;
    hide CarryOut;
    hide Decide;
    hide TellsOutcome;
    hide TellsRecord;
    hide Versioned;
    hide Silent;
    var ip, g := w.patches[c], Gates(w, c, o);
    if g.Shut? || !o.configReadable || (Outdated(ip) && !v.unmark.Acked?) {
      NoLooks(w, c, o, v);
      SilentStage(w, c, o, v);
    } else {
      OnlyLooks(w, c, o, v);
      var based := ip.(status := ip.status.(baselineTag := g.baseline));
      if Outdated(ip) {
        var unmarked := based.(marker := None);
        CopyTells(w, UpdatePatch(w, c, unmarked, v.unmark), c, ip, unmarked, o, v, g.baseline, g.version);
      } else {
        CopyTells(w, w, c, ip, based, o, v, g.baseline, g.version);
      }
    }
  }

  /* ---- The reported status ---- */

  // The three conditions that every report sets
  ghost predicate TellsConditions(w: World, c: ComponentId, ip: ImagePatch, o: Observed, v: Verdicts, baseline: string,
                                  version: string, st: Status)
  {
    var g := ip.generation;
    && (if Succeeds(w, c, ip, o, v, baseline, version) then
          st.ready == Holds(if ip.tag == baseline then AtBaseline else PatchedTo, g)
        else st.ready.Fails? && st.ready.generation == g)
    && (if st.ready.Holds? then true
        else if AtBundled(w, c, ip, o, v, baseline, version) || Stands(w, c, ip, o, v, baseline, version) then
          st.ready.why == RolloutInProgress
        else if st.blocked.Holds? then st.ready.why == st.blocked.why
        else if Halted(w, c, ip, version) then st.ready.why == Rke2Upgraded
        else if Undone(w, c, ip, o, v, version) then st.ready.why == RevertedAfterUpgrade
        else st.ready.why == if Retries(w, c, ip, o, v, baseline, version) then Retrying else Failure)
    && st.stale == (if Halted(w, c, ip, version) then Holds(Rke2Upgraded, g) else Fails(Current, g))
    && (st.blocked.Holds? || st.blocked == Fails(NotBlocked, g))
    && (forall why, n :: st.blocked == Holds(why, n) <==> n == g && Refuses(w, c, ip, o, v, baseline, version, why))
  }

  lemma OutcomeShows(w: World, c: ComponentId, ip: ImagePatch, o: Observed, v: Verdicts, baseline: string,
                     version: string, copy: ImagePatch, out: Outcome)
    requires TellsOutcome(w, c, ip, o, v, baseline, version, out) && copy.generation == ip.generation
    ensures TellsConditions(w, c, ip, o, v, baseline, version, FinalStatus(copy, out))
  {
    hide AtBundled;
    hide Stands;
    hide Halted;
    hide Refuses;
    hide Succeeds;
    hide Retries;
    hide Undone;
  }

  /** What a report says, in terms of what was read and stored. */
  ghost predicate Shows(w: World, c: ComponentId, o: Observed, v: Verdicts, st: Status)
    requires c in w.patches
  {
    var ip := w.patches[c];
    && st.observedGeneration == ip.generation
    && (forall baseline, version | Looks(w, c, o, v, baseline, version) ::
          st.baselineTag == baseline && TellsConditions(w, c, ip, o, v, baseline, version, st) &&
          TellsRecord(w, c, ip, o, v, baseline, version, RecordOf(st)))
    && ((forall baseline, version :: !Looks(w, c, o, v, baseline, version)) ==>
          RecordOf(st) == RecordOf(ip.status) && st.ready.Fails? && st.ready.generation == ip.generation &&
          st.stale == Fails(Current, ip.generation) &&
          (st.blocked.Holds? || st.blocked == Fails(NotBlocked, ip.generation)) &&
          (st.ready.why == if st.blocked.Holds? then st.blocked.why else Failure) &&
          forall why, n :: st.blocked == Holds(why, n) <==> n == ip.generation && Bars(w, c, o, why))
  }

  lemma LiveReports(w: World, c: ComponentId, o: Observed, v: Verdicts)
    requires Reported(w, c, v) && w.patches[c].finalizer
    ensures c in Pass(w, c, o, v).patches && Shows(w, c, o, v, Pass(w, c, o, v).patches[c].status)
  {
    hide ReconcilePatch;
    hide Pass;
    hide NoCrash;
    hide Versioned;
    hide TellsOutcome;
    hide TellsConditions;
    hide TellsRecord;
    hide Looks;
    hide Bars;
    var ip, s := w.patches[c], ReconcilePatch(w, c, w.patches[c], o, v);
    var st := FinalStatus(s.ip, OutcomeOf(s.end));
    LivePassIs(w, c, o, v);
    StageKeepsStatus(w, c, o, v);
    StageReports(w, c, o, v);
    forall baseline, version | Looks(w, c, o, v, baseline, version)
      ensures TellsConditions(w, c, ip, o, v, baseline, version, st)
    {
      OutcomeShows(w, c, ip, o, v, baseline, version, s.ip, OutcomeOf(s.end));
    }
  }

  lemma LooksFrame(w: World, w1: World, c: ComponentId, o: Observed, v: Verdicts, baseline: string, version: string)
    requires c in w.patches && w1 == w.(patches := w.patches[c := w.patches[c].(finalizer := true)])
    ensures Looks(w1, c, o, v, baseline, version) == Looks(w, c, o, v, baseline, version)
  {
    ReadsFrame(w, w1, c, o, baseline, version);
    hide Reads;
  }

  lemma ShowsFrame(w: World, w1: World, c: ComponentId, o: Observed, v: Verdicts, st: Status)
    requires c in w.patches && w1 == w.(patches := w.patches[c := w.patches[c].(finalizer := true)])
    requires Shows(w1, c, o, v, st)
    ensures Shows(w, c, o, v, st)
  {
    hide TellsConditions;
    hide TellsRecord;
    hide Looks;
    hide Bars;
    var ip, ip1 := w.patches[c], w1.patches[c];
    forall baseline, version ensures Looks(w1, c, o, v, baseline, version) == Looks(w, c, o, v, baseline, version) {
      LooksFrame(w, w1, c, o, v, baseline, version);
    }
    forall why ensures Bars(w1, c, o, why) == Bars(w, c, o, why) { BarsFrame(w, w1, c, o, why); }
    forall baseline, version | Looks(w, c, o, v, baseline, version)
      ensures TellsConditions(w, c, ip, o, v, baseline, version, st) &&
              TellsRecord(w, c, ip, o, v, baseline, version, RecordOf(st))
    {
      ConditionsFrame(w, w1, c, ip, ip1, o, v, baseline, version, st);
      RecordFrame(w, w1, c, ip, ip1, o, v, baseline, version, RecordOf(st));
    }
  }

  lemma BarsFrame(w: World, w1: World, c: ComponentId, o: Observed, why: Why)
    requires w1.cli == w.cli
    ensures Bars(w1, c, o, why) == Bars(w, c, o, why)
  {
    forall baseline, version ensures Reads(w1, c, o, baseline, version) == Reads(w, c, o, baseline, version) {
      ReadsFrame(w, w1, c, o, baseline, version);
    }
    hide Reads;
  }

  lemma ReadsFrame(w: World, w1: World, c: ComponentId, o: Observed, baseline: string, version: string)
    requires w1.cli == w.cli
    ensures Reads(w1, c, o, baseline, version) == Reads(w, c, o, baseline, version)
  {
    hide TagPaths;
    hide Patcher.SetsTag;
  }

  lemma ConditionsFrame(w: World, w1: World, c: ComponentId, ip: ImagePatch, ip1: ImagePatch, o: Observed, v: Verdicts,
                        baseline: string, version: string, st: Status)
    requires w1.configs == w.configs && SameRules(ip, ip1)
    requires TellsConditions(w1, c, ip1, o, v, baseline, version, st)
    ensures TellsConditions(w, c, ip, o, v, baseline, version, st)
  {
    SituationsFrame(w, w1, c, ip, ip1, o, v, baseline, version);
    StandsFrame(w, w1, c, ip, ip1, o, v, baseline, version);
    forall why
      ensures Refuses(w1, c, ip1, o, v, baseline, version, why) == Refuses(w, c, ip, o, v, baseline, version, why)
    {
      RefusesFrame(w, w1, c, ip, ip1, o, v, baseline, version, why);
    }
    hide AtBundled;
    hide Stands;
    hide Halted;
    hide Refuses;
    hide Succeeds;
    hide Retries;
    hide Undone;
  }

  /** A pass that runs to its end, and whose status write lands, reports exactly what it read and found:
      each condition, each reason and each recorded field. */
  lemma PassReports(w: World, c: ComponentId, o: Observed, v: Verdicts)
    requires Reported(w, c, v)
    ensures c in Pass(w, c, o, v).patches && Shows(w, c, o, v, Pass(w, c, o, v).patches[c].status)
  {
    hide Pass;
    hide Shows;
    hide NoCrash;
    if w.patches[c].finalizer {
      LiveReports(w, c, o, v);
    } else {
      var w1 := w.(patches := w.patches[c := w.patches[c].(finalizer := true)]);
      FinalizerThenRest(w, c, o, v);
      VersionedFrame(w, w1, v.apply);
      LiveReports(w1, c, o, v);
      ShowsFrame(w, w1, c, o, v, Pass(w1, c, o, v).patches[c].status);
    }
    hide Versioned;
  }

  /** Ready holds if and only if there are pods and every one of them runs the tag in force: the spec's
      where the patch stands, the bundled one where the component is as shipped. */
  lemma ReadyExactly(w: World, c: ComponentId, o: Observed, v: Verdicts)
    requires Reported(w, c, v)
    ensures c in Pass(w, c, o, v).patches
    ensures Pass(w, c, o, v).patches[c].status.ready.Holds? <==>
            exists baseline, version ::
              Looks(w, c, o, v, baseline, version) && Succeeds(w, c, w.patches[c], o, v, baseline, version)
  {
    PassReports(w, c, o, v);
    hide Pass;
    hide Reported;
    hide Looks;
    hide AtBundled;
    hide Stands;
    hide Halted;
    hide Refuses;
    hide Succeeds;
    hide Retries;
    hide TellsRecord;
    hide Bars;
  }

  /** Stale holds if and only if the patch was applied on another release and its policy is Manual. */
  lemma StaleExactly(w: World, c: ComponentId, o: Observed, v: Verdicts)
    requires Reported(w, c, v)
    ensures c in Pass(w, c, o, v).patches
    ensures var st, g := Pass(w, c, o, v).patches[c].status, w.patches[c].generation;
            (st.stale == Holds(Rke2Upgraded, g) || st.stale == Fails(Current, g)) &&
            (st.stale.Holds? <==>
             exists baseline, version ::
               Looks(w, c, o, v, baseline, version) && Halted(w, c, w.patches[c], version))
  {
    PassReports(w, c, o, v);
    hide Pass;
    hide Reported;
    hide Looks;
    hide AtBundled;
    hide Stands;
    hide Halted;
    hide Refuses;
    hide Succeeds;
    hide Retries;
    hide TellsRecord;
    hide Bars;
  }

  /** Blocked holds, with a reason, if and only if that very rule refuses: at the gates or past them. */
  lemma BlockedExactly(w: World, c: ComponentId, o: Observed, v: Verdicts, why: Why)
    requires Reported(w, c, v)
    ensures c in Pass(w, c, o, v).patches
    ensures Pass(w, c, o, v).patches[c].status.blocked == Holds(why, w.patches[c].generation) <==>
            (Bars(w, c, o, why) ||
             exists baseline, version ::
               Looks(w, c, o, v, baseline, version) && Refuses(w, c, w.patches[c], o, v, baseline, version, why))
  {
    hide Pass;
    hide NoCrash;
    hide Versioned;
    hide Looks;
    hide Bars;
    hide Refuses;
    hide Gates;
    hide Shows;
    PassReports(w, c, o, v);
    var st, g := Pass(w, c, o, v).patches[c].status, Gates(w, c, o);
    if g.Shut? || !o.configReadable || (Outdated(w.patches[c]) && !v.unmark.Acked?) {
      NoLooks(w, c, o, v);
      SilentBlocked(w, c, o, v, st, why);
    } else {
      OnlyLooks(w, c, o, v);
      GatesTell(w, c, o);
      ToldBlocked(w, c, o, v, st, g.baseline, g.version, why);
    }
  }

  lemma SilentBlocked(w: World, c: ComponentId, o: Observed, v: Verdicts, st: Status, why: Why)
    requires c in w.patches && Shows(w, c, o, v, st)
    requires forall baseline, version :: !Looks(w, c, o, v, baseline, version)
    ensures st.blocked == Holds(why, w.patches[c].generation) <==> Bars(w, c, o, why)
  {
    hide Looks;
    hide Bars;
  }

  lemma ToldBlocked(w: World, c: ComponentId, o: Observed, v: Verdicts, st: Status, baseline: string, version: string,
                    why: Why)
    requires c in w.patches && Shows(w, c, o, v, st) && Looks(w, c, o, v, baseline, version)
    ensures st.blocked == Holds(why, w.patches[c].generation) <==>
            Refuses(w, c, w.patches[c], o, v, baseline, version, why)
  {
    hide Looks;
    hide Bars;
    hide Refuses;
    hide Succeeds;
    hide Retries;
    hide Stands;
    hide AtBundled;
    hide Halted;
    hide TellsRecord;
  }

  /** Where the patch stands, unless another client's write came in between, the component is managed on the
      version read, and the values of the spec's tag are in place. */
  lemma StandsInPlace(w: World, c: ComponentId, o: Observed, v: Verdicts, baseline: string, version: string)
    requires c in w.patches && !w.patches[c].deleting && (w.patches[c].finalizer || v.finalizer.Acked?)
    requires Looks(w, c, o, v, baseline, version) && Stands(w, c, w.patches[c], o, v, baseline, version)
    requires !v.apply.Raced? && o.images.Some?
    ensures var w' := Pass(w, c, o, v);
            ManagedIn(w', c) == version &&
            Patcher.Present(TreeOf(w', c), GeneratedValues(c, RepositoryFor(c, o.images.value), w.patches[c].tag))
  {
    hide Pass;
    hide PassEffect;
    hide OnRelease;
    hide InPlace;
    hide MustPatch;
    hide MustRevert;
    hide Reads;
    var ip, w', e := w.patches[c], Pass(w, c, o, v), PassEffect(w, c, o, v);
    UnracedIsVersioned(w, v.apply);
    PassIsAStep(w, c, o, v);
    OpenMeans(w, c, o, baseline, version);
    StepHasParts(w, w', c, o, e);
    hide PassStep;
    hide Gates;
    hide GeneratedValues;
    hide RepositoryFor;
    hide Patcher.Present;
    hide Policy.ValidateAgainstBaseline;
    hide TreeOf;
    hide ManagedIn;
    hide Versioned;
    ManagedFollows(w, w', c, e, c);
    TreeFollows(w, w', c, e, c);
    if MustPatch(w, c, ip, baseline, version, o) && v.apply.Acked? {
      EffectsFollowGates(w, c, o, v);
      Patcher.MergedIsPresent(TreeOf(w, c), GeneratedValues(c, e.repository, e.tag));
    } else {
      KeptIsNoWrite(w, c, ip, o, baseline, version, w'.patches[c].marker, e);
      InPlaceIsPresent(w, c, ip, o, version);
    }
  }

  lemma StepHasParts(w: World, w': World, c: ComponentId, o: Observed, e: Effect)
    requires PassStep(w, w', c, o, e) && c in w.patches && !w.patches[c].deleting
    ensures c in w'.patches && ConfigStep(w, w', c, e) && Justified(w, c, w.patches[c], o, w'.patches[c].marker, e)
  {
    hide ConfigStep;
    hide Justified;
    hide OthersKept;
  }

  lemma InPlaceIsPresent(w: World, c: ComponentId, ip: ImagePatch, o: Observed, version: string)
    requires OnRelease(w, c, ip, o, version) && InPlace(w, c, ip, o)
    ensures ManagedIn(w, c) == version
    ensures Patcher.Present(TreeOf(w, c), GeneratedValues(c, RepositoryFor(c, o.images.value), ip.tag))
  {
    hide ConfigOf;
    hide GeneratedValues;
    hide RepositoryFor;
    hide Patcher.Present;
  }

  // Nothing may be done to values in place that the bundled tag has not reached
  lemma KeptIsNoWrite(w: World, c: ComponentId, ip: ImagePatch, o: Observed, baseline: string, version: string,
                      marker: Option<nat>, e: Effect)
    requires OnRelease(w, c, ip, o, version) && InPlace(w, c, ip, o) && ip.tag != baseline
    requires Policy.ValidateAgainstBaseline(baseline, ip.tag).None?
    requires Gates(w, c, o) == Open(baseline, version) && Justified(w, c, ip, o, marker, e)
    ensures !e.Reverts? && !e.Patches?
  {
    hide Gates;
    hide Reads;
    hide ConfigOf;
    hide OthersStale;
    hide GeneratedValues;
    hide RepositoryFor;
    hide Patcher.Present;
    hide Patcher.HasConflict;
    hide Policy.ValidateAgainstBaseline;
    hide Policy.ValidatePatchWindow;
    hide Policy.ValidateNotOlderThanCurrent;
    hide Policy.ValidateTarget;
  }

  // The pass has something to say about the patch being applied
  predicate Settles(w: World, c: ComponentId, ip: ImagePatch, o: Observed, v: Verdicts, baseline: string,
                    version: string)
  {
    o.images.Some? &&
    (Stands(w, c, ip, o, v, baseline, version) || AtBundled(w, c, ip, o, v, baseline, version) ||
     Surpassed(w, c, ip, o, v, baseline, version) || Undone(w, c, ip, o, v, version))
  }

  /** Applied holds for this generation if and only if the patch stands, or it was reported so before and the
      pass had nothing to say about it. */
  lemma AppliedExactly(w: World, c: ComponentId, o: Observed, v: Verdicts)
    requires Reported(w, c, v)
    ensures c in Pass(w, c, o, v).patches
    ensures var ip := w.patches[c];
            Pass(w, c, o, v).patches[c].status.applied == Holds(Applied, ip.generation) <==>
            ((exists baseline, version ::
               Looks(w, c, o, v, baseline, version) && Stands(w, c, ip, o, v, baseline, version)) ||
             (ip.status.applied == Holds(Applied, ip.generation) &&
              forall baseline, version ::
                Looks(w, c, o, v, baseline, version) ==> !Settles(w, c, ip, o, v, baseline, version)))
  {
    hide Pass;
    hide NoCrash;
    hide Versioned;
    hide Looks;
    hide Gates;
    hide Shows;
    hide Settles;
    hide Stands;
    PassReports(w, c, o, v);
    var st, g := Pass(w, c, o, v).patches[c].status, Gates(w, c, o);
    if g.Shut? || !o.configReadable || (Outdated(w.patches[c]) && !v.unmark.Acked?) {
      NoLooks(w, c, o, v);
      SilentApplied(w, c, o, v, st);
    } else {
      OnlyLooks(w, c, o, v);
      ToldApplied(w, c, o, v, st, g.baseline, g.version);
    }
  }

  lemma SilentApplied(w: World, c: ComponentId, o: Observed, v: Verdicts, st: Status)
    requires c in w.patches && Shows(w, c, o, v, st)
    requires forall baseline, version :: !Looks(w, c, o, v, baseline, version)
    ensures st.applied == w.patches[c].status.applied
  {
    hide Looks;
    hide Bars;
  }

  lemma ToldApplied(w: World, c: ComponentId, o: Observed, v: Verdicts, st: Status, baseline: string, version: string)
    requires c in w.patches && Shows(w, c, o, v, st) && Looks(w, c, o, v, baseline, version)
    ensures var ip := w.patches[c];
            st.applied == Holds(Applied, ip.generation) <==>
            (Stands(w, c, ip, o, v, baseline, version) ||
             (ip.status.applied == Holds(Applied, ip.generation) && !Settles(w, c, ip, o, v, baseline, version)))
  {
    hide Looks;
    hide Bars;
    hide TellsConditions;
    hide OnRelease;
    hide Halted;
    hide Undone;
    hide AtBundled;
    hide Surpassed;
    hide InPlace;
    hide MustPatch;
    if Stands(w, c, w.patches[c], o, v, baseline, version) {
      StandsHasImages(w, c, w.patches[c], o, v, baseline, version);
    }
    hide Stands;
  }

  lemma StandsHasImages(w: World, c: ComponentId, ip: ImagePatch, o: Observed, v: Verdicts, baseline: string,
                        version: string)
    requires Stands(w, c, ip, o, v, baseline, version)
    ensures o.images.Some?
  {
    hide MayPatch;
    hide InPlace;
    hide Policy.ValidateAgainstBaseline;
  }
}
