/** In a quiet environment the passes over all ImagePatches, in any order, reach a state that no pass
    changes: every pass that changes anything lowers a measure. */
module Convergence {
  import opened Text
  import opened Values
  import opened Components
  import opened Cluster
  import opened Reconciliation
  import opened PassFacts
  import opened CommandLine
  import opened Runs
  import opened Invariants
  import opened AutoRevertSafety
  import opened SingleWrite
  import Patcher
  import Policy

  // One release and its charts, and what each component's passes see of them again and again
  datatype Quiet = Quiet(version: string, charts: Chart -> Tree, view: ComponentId -> Observed)

  ghost predicate Sane(q: Quiet) {
    q.version != "" &&
    forall c ::
      (q.view(c).version.Some? ==> q.view(c).version.value == q.version) &&
      (q.view(c).chart.Some? ==> q.view(c).chart.value == q.charts(ChartOf(c)))
  }

  function Round(q: Quiet, w: World, c: ComponentId): World {
    Pass(w, c, q.view(c), SMOOTH)
  }

  function SettingFor(q: Quiet, c: ComponentId): Setting {
    var o := q.view(c);
    Setting(q.version, Patcher.BundledOf(c, q.charts(ChartOf(c))),
            RepositoryFor(c, if o.images.Some? then o.images.value else []))
  }

  /* ---- Passes that write at most a status ---- */

  // The status such a pass leaves; None when it writes anything else
  function Stay(w: World, c: ComponentId, o: Observed): Option<Status>
    requires c in w.patches
  {
    var ip := w.patches[c];
    if !ip.finalizer then None
    else
      match Gates(w, c, o)
      case Shut(end) => Some(FinalStatus(ip, OutcomeOf(end)))
      case Open(baseline, version) =>
        var based := ip.(status := ip.status.(baselineTag := baseline));
        if !o.configReadable then Some(FinalStatus(based, OutcomeOf(Error)))
        else if Outdated(ip) then None
        else Rest(ConfigOf(w, c), Decide(w, c, based, baseline, version, o))
  }

  function Rest(config: Option<HelmConfig>, d: Decision): Option<Status> {
    match d
    case Leave(ip, end) => Some(FinalStatus(ip, OutcomeOf(end)))
    case Undo(mark, ip, _, _) => if mark || ValuesOf(config).Map? then None else Some(FinalStatus(ip, OutcomeOf(Error)))
    case Write(_, _) => None
  }

  // A deletion that cannot go on
  predicate Stuck(w: World, c: ComponentId, o: Observed)
    requires c in w.patches
  {
    !w.patches[c].finalizer || !o.configReadable || (Owned(w, c) && !ValuesOf(ConfigOf(w, c)).Map?)
  }

  // A pass over c changes nothing
  predicate Fresh(q: Quiet, w: World, c: ComponentId) {
    c in w.patches ==>
      if w.patches[c].deleting then Stuck(w, c, q.view(c))
      else Stay(w, c, q.view(c)) == Some(w.patches[c].status)
  }

  function WithStatus(w: World, c: ComponentId, s: Status): World
    requires c in w.patches
  {
    w.(patches := w.patches[c := w.patches[c].(status := s)])
  }

  lemma SmoothUndo(w: World, c: ComponentId, d: Decision, o: Observed)
    requires c in w.patches && d.Undo? && !d.mark && !ValuesOf(ConfigOf(w, c)).Map?
    ensures CarryOutUndo(w, c, d, SMOOTH) == Stage(w, d.ip, Error)
  {
    hide ChartOf;
    hide RevertedConfig;
  }

  lemma StayIsStage(w: World, c: ComponentId, o: Observed)
    requires c in w.patches && Stay(w, c, o).Some?
    ensures var s := ReconcilePatch(w, c, w.patches[c], o, SMOOTH);
            s.world == w && !s.end.Crash? && FinalStatus(s.ip, OutcomeOf(s.end)) == Stay(w, c, o).value
  {
    hide Gates;
    hide Decide;
    hide ConfigOf;
    hide FinalStatus;
    hide CarryOutUndo;
    hide CarryOutWrite;
    hide UpdatePatch;
    var ip, g := w.patches[c], Gates(w, c, o);
    GatesEnd(w, c, o);
    if g.Open? && o.configReadable && !Outdated(ip) {
      var based := ip.(status := ip.status.(baselineTag := g.baseline));
      var d := Decide(w, c, based, g.baseline, g.version, o);
      DecisionEnds(w, c, based, g.baseline, g.version, o);
      if d.Undo? { SmoothUndo(w, c, d, o); }
    }
  }

  lemma StayIsPass(w: World, c: ComponentId, o: Observed)
    requires c in w.patches && !w.patches[c].deleting && Stay(w, c, o).Some?
    ensures Pass(w, c, o, SMOOTH) == WithStatus(w, c, Stay(w, c, o).value)
  {
    StayIsStage(w, c, o);
    StayNeedsFinalizer(w, c, o);
    hide Stay;
    hide ReconcilePatch;
    hide FinalStatus;
    var ip := w.patches[c];
    assert ip.(finalizer := true) == ip;
    var s := Stay(w, c, o).value;
    if s == ip.status {
      assert w.patches[c := ip.(status := s)] == w.patches;
    }
  }

  lemma StayNeedsFinalizer(w: World, c: ComponentId, o: Observed)
    requires c in w.patches && Stay(w, c, o).Some?
    ensures w.patches[c].finalizer
  {
    hide Gates;
    hide Decide;
    hide FinalStatus;
  }

  lemma StuckStays(w: World, c: ComponentId, o: Observed)
    requires c in w.patches && w.patches[c].deleting
    ensures Stuck(w, c, o) ==> Pass(w, c, o, SMOOTH) == w
    ensures !Stuck(w, c, o) ==> Pass(w, c, o, SMOOTH).patches == w.patches - {c}
  {
    hide ChartOf;
    hide RevertedConfig;
  }

  lemma FreshStays(q: Quiet, w: World, c: ComponentId)
    requires Fresh(q, w, c)
    ensures Round(q, w, c) == w
  {
    hide Stay;
    hide Stuck;
    if c !in w.patches {
    } else if w.patches[c].deleting {
      hide Pass;
      StuckStays(w, c, q.view(c));
    } else {
      hide Pass;
      StayIsPass(w, c, q.view(c));
      assert w.patches[c := w.patches[c].(status := w.patches[c].status)] == w.patches;
    }
  }

  /* ---- Writing a status settles it ---- */

  // What a decision leaves is left again once it is the status
  predicate Repeats(config: Option<HelmConfig>, d: Decision, again: Decision, baseline: string) {
    Rest(config, d).Some? ==> Rest(config, again) == Rest(config, d) && Rest(config, d).value.baselineTag == baseline
  }

  lemma MarkedRepeats(c: ComponentId, ip: ImagePatch, again: ImagePatch, config: Option<HelmConfig>, o: Observed)
    requires var f := Rest(config, DecideMarked(c, ip, config, o)); f.Some? && again == ip.(status := f.value)
    ensures Repeats(config, DecideMarked(c, ip, config, o), DecideMarked(c, again, config, o), ip.status.baselineTag)
  {
    hide ManagedOn;
  }

  lemma StaleRepeats(c: ComponentId, ip: ImagePatch, again: ImagePatch, config: Option<HelmConfig>, o: Observed)
    requires var f := Rest(config, DecideStale(c, ip, config, o)); f.Some? && again == ip.(status := f.value)
    ensures Repeats(config, DecideStale(c, ip, config, o), DecideStale(c, again, config, o), ip.status.baselineTag)
  {
    hide ManagedOn;
  }

  lemma BaselineRepeats(c: ComponentId, ip: ImagePatch, again: ImagePatch, baseline: string, config: Option<HelmConfig>,
                        images: seq<ImageRef>)
    requires var f := Rest(config, DecideBaseline(c, ip, baseline, config, images));
             f.Some? && again == ip.(status := f.value)
    ensures Repeats(config, DecideBaseline(c, ip, baseline, config, images),
                    DecideBaseline(c, again, baseline, config, images), ip.status.baselineTag)
    ensures again.status.runningImages == ip.status.runningImages
  {
    hide ManagedOn;
    hide AllRun;
  }

  lemma KeepRepeats(c: ComponentId, ip: ImagePatch, again: ImagePatch, baseline: string, config: Option<HelmConfig>,
                    images: seq<ImageRef>)
    requires var f := Rest(config, DecideKeep(c, ip, baseline, config, images));
             f.Some? && again == ip.(status := f.value)
    ensures Repeats(config, DecideKeep(c, ip, baseline, config, images),
                    DecideKeep(c, again, baseline, config, images), ip.status.baselineTag)
    ensures again.status.runningImages == ip.status.runningImages
  {
    hide ManagedOn;
    hide AllRun;
    hide Policy.ValidateAgainstBaseline;
  }

  lemma RefusalLooksAt(othersStale: bool, c: ComponentId, ip: ImagePatch, again: ImagePatch, baseline: string,
                       o: Observed)
    requires again.tag == ip.tag && again.status.appliedTag == ip.status.appliedTag
    ensures Refusal(othersStale, c, again, baseline, o) == Refusal(othersStale, c, ip, baseline, o)
  {
    hide Policy.ValidateTarget;
    hide Policy.ValidatePatchWindow;
    hide Policy.ValidateNotOlderThanCurrent;
  }

  lemma LeaveRepeats(config: Option<HelmConfig>, ip: ImagePatch, again: ImagePatch, end: End)
    requires again == ip.(status := FinalStatus(ip, OutcomeOf(end)))
    ensures Repeats(config, Leave(ip, end), Leave(again, end), ip.status.baselineTag)
    ensures again.tag == ip.tag && again.status.appliedTag == ip.status.appliedTag
    ensures again.status.runningImages == ip.status.runningImages
  {
  }

  lemma RestOfLeave(config: Option<HelmConfig>, ip: ImagePatch, end: End, images: seq<ImageRef>)
    ensures Rest(config, Leave(ip, end)) == Some(FinalStatus(ip, OutcomeOf(end)))
    ensures Rest(config, Write(ip, images)) == None
  {
    hide FinalStatus;
  }

  lemma CurrentRepeats(othersStale: bool, c: ComponentId, ip: ImagePatch, again: ImagePatch, baseline: string,
                       config: Option<HelmConfig>, images: seq<ImageRef>, o: Observed)
    requires var f := Rest(config, DecideCurrent(othersStale, c, ip, baseline, config, images, o));
             f.Some? && again == ip.(status := f.value)
    ensures Repeats(config, DecideCurrent(othersStale, c, ip, baseline, config, images, o),
                    DecideCurrent(othersStale, c, again, baseline, config, images, o), ip.status.baselineTag)
    ensures again.status.runningImages == ip.status.runningImages
  {
    hide GeneratedValues;
    hide RepositoryFor;
    hide DecideBaseline;
    hide DecideKeep;
    hide Refusal;
    hide ManagedOn;
    hide Patcher.Present;
    hide Patcher.HasConflict;
    hide Rest;
    hide Repeats;
    hide FinalStatus;
    var values := ValuesOf(config);
    if ip.tag == baseline {
      BaselineRepeats(c, ip, again, baseline, config, images);
    } else if !values.Map? {
      RestOfLeave(config, ip, Error, images);
      LeaveRepeats(config, ip, again, Error);
    } else if IsManaged(config, c) && Patcher.Present(values, GeneratedValues(c, RepositoryFor(c, images), ip.tag)) {
      KeepRepeats(c, ip, again, baseline, config, images);
    } else if Refusal(othersStale, c, ip, baseline, o).Some? {
      var end := Refusal(othersStale, c, ip, baseline, o).value;
      RestOfLeave(config, ip, end, images);
      LeaveRepeats(config, ip, again, end);
      RefusalLooksAt(othersStale, c, ip, again, baseline, o);
    } else {
      RestOfLeave(config, ip, Blocked(ConflictingOverride), images);
      LeaveRepeats(config, ip, again, Blocked(ConflictingOverride));
      RefusalLooksAt(othersStale, c, ip, again, baseline, o);
    }
  }

  lemma DecisionRepeats(w: World, w': World, c: ComponentId, ip: ImagePatch, again: ImagePatch, baseline: string,
                        version: string, o: Observed)
    requires w'.configs == w.configs
    requires var f := Rest(ConfigOf(w, c), Decide(w, c, ip, baseline, version, o));
             f.Some? && again == ip.(status := f.value)
    ensures Repeats(ConfigOf(w, c), Decide(w, c, ip, baseline, version, o), Decide(w', c, again, baseline, version, o),
                    ip.status.baselineTag)
  {
    OthersIgnorePatches(w, w', c);
    hide OthersStale;
    hide ConfigOf;
    hide DecideMarked;
    hide DecideStale;
    hide DecideCurrent;
    hide Rest;
    hide ManagedOn;
    var config := ConfigOf(w, c);
    if ip.marker == Some(ip.generation) {
      MarkedRepeats(c, ip, again, config, o);
    } else if IsManaged(config, c) && ManagedOn(config, c) != version {
      StaleRepeats(c, ip, again, config, o);
    } else if o.images.None? {
      RestOfLeave(config, ip, Error, []);
      LeaveRepeats(config, ip, again, Error);
    } else {
      var seen := ip.(status := ip.status.(runningImages := o.images.value));
      CurrentRepeats(OthersStale(w, version, c), c, seen, again, baseline, config, o.images.value, o);
      assert again.(status := again.status.(runningImages := o.images.value)) == again;
    }
  }

  lemma ReportRepeats(ip: ImagePatch, outcome: Outcome)
    ensures var s := FinalStatus(ip, outcome);
            FinalStatus(ip.(status := s), outcome) == s && s.baselineTag == ip.status.baselineTag
  {
  }

  // The status a pass leaves is left by the next pass too
  lemma StayRepeats(w: World, c: ComponentId, o: Observed)
    requires c in w.patches && Stay(w, c, o).Some?
    ensures Stay(WithStatus(w, c, Stay(w, c, o).value), c, o) == Stay(w, c, o)
  {
    hide Gates;
    hide Decide;
    hide ConfigOf;
    hide OthersStale;
    hide Rest;
    hide FinalStatus;
    var s := Stay(w, c, o).value;
    var w' := WithStatus(w, c, s);
    OnlyPatches(w, w', c, o);
    OthersIgnorePatches(w, w', c);
    StayNeedsFinalizer(w, c, o);
    var ip, g := w.patches[c], Gates(w, c, o);
    if g.Shut? {
      ReportRepeats(ip, OutcomeOf(g.end));
    } else {
      var based := ip.(status := ip.status.(baselineTag := g.baseline));
      assert based.(status := s) == ip.(status := s);
      if !o.configReadable {
        ReportRepeats(based, OutcomeOf(Error));
      } else {
        DecisionRepeats(w, w', c, based, ip.(status := s), g.baseline, g.version, o);
      }
      assert s.baselineTag == g.baseline;
      assert ip.(status := s).(status := s.(baselineTag := g.baseline)) == ip.(status := s);
    }
  }

  lemma DecideIgnoresPatches(w: World, w': World, c: ComponentId, ip: ImagePatch, baseline: string, version: string,
                             o: Observed)
    requires w'.configs == w.configs
    ensures Decide(w', c, ip, baseline, version, o) == Decide(w, c, ip, baseline, version, o)
  {
    hide ConfigOf;
    hide OthersStale;
    hide DecideMarked;
    hide DecideStale;
    hide DecideCurrent;
    hide ManagedOn;
    OthersIgnorePatches(w, w', c);
  }

  lemma StayIgnoresOthers(w: World, w': World, c: ComponentId, o: Observed)
    requires w' == w.(patches := w'.patches) && c in w.patches && c in w'.patches && w'.patches[c] == w.patches[c]
    ensures Stay(w', c, o) == Stay(w, c, o) && Stuck(w', c, o) == Stuck(w, c, o)
  {
    hide Gates;
    hide ConfigOf;
    hide Decide;
    hide FinalStatus;
    hide Rest;
    OnlyPatches(w, w', c, o);
    OthersIgnorePatches(w, w', c);
    var ip, g := w.patches[c], Gates(w, c, o);
    if g.Open? {
      DecideIgnoresPatches(w, w', c, ip.(status := ip.status.(baselineTag := g.baseline)), g.baseline, g.version, o);
    }
  }

  // Another component's status is of no matter
  lemma OtherStatusIsNoMatter(q: Quiet, w: World, c: ComponentId, s: Status, d: ComponentId)
    requires c in w.patches && d != c
    ensures Fresh(q, WithStatus(w, c, s), d) == Fresh(q, w, d)
  {
    hide Stay;
    hide Stuck;
    if d in w.patches { StayIgnoresOthers(w, WithStatus(w, c, s), d, q.view(d)); }
  }

  /* ---- What every other write uses up ---- */

  // The other component writing the same leaves
  function Partner(c: ComponentId): ComponentId {
    if c == CoreDns then DnsNodeCache else CoreDns
  }

  // The revert that deleting the partner's ImagePatch will make, which removes shared leaves
  function Unsettling(w: World, c: ComponentId): nat {
    var d := Partner(c);
    if !PathDisjoint(c) && d in w.patches && w.patches[d].deleting && w.patches[d].finalizer then 1 else 0
  }

  // How often the marker may still change
  function MarkerRank(ip: ImagePatch): nat {
    if ip.marker == Some(ip.generation) then 0 else if ip.marker == None then 1 else 2
  }

  function Pending(q: Quiet, w: World, c: ComponentId): nat {
    if Settled(SettingFor(q, c), w, c) then 0 else 1
  }

  // A bound on the writes, statuses aside, that passes over c still make
  function Local(q: Quiet, w: World, c: ComponentId): nat {
    if c !in w.patches then 0
    else if w.patches[c].deleting then (if w.patches[c].finalizer then 1 else 0)
    else (if w.patches[c].finalizer then 0 else 1) + MarkerRank(w.patches[c]) + Pending(q, w, c) + Unsettling(w, c)
  }

  lemma QuietIsSteady(q: Quiet, w: World, c: ComponentId)
    requires Sane(q)
    ensures Steady(SettingFor(q, c), c, q.view(c)) && Enabled(w, ControllerPass(c, q.view(c), SMOOTH))
  {
    hide Patcher.BundledOf;
    hide RepositoryFor;
    hide UnrelatedEdit;
    hide Pass;
    hide ToReconcile;
  }

  // A quiet pass is a step that no other client overtakes
  lemma QuietStep(q: Quiet, w: World, c: ComponentId)
    requires Sane(q)
    ensures var w', e := Round(q, w, c), PassEffect(w, c, q.view(c), SMOOTH);
            PassStep(w, w', c, q.view(c), e) && FairEffect(w, c, q.view(c), e) && !e.Overtaken?
  {
    hide *;
    RoundIs(q, w, c);
    QuietIsSteady(q, w, c);
    SmoothIsSmooth();
    UnracedIsVersioned(w, SMOOTH.apply);
    PassIsAStep(w, c, q.view(c), SMOOTH);
    EnabledIsFair(w, c, q.view(c), SMOOTH, PassEffect(w, c, q.view(c), SMOOTH));
    NotOvertaken(PassEffect(w, c, q.view(c), SMOOTH));
  }

  lemma RoundIs(q: Quiet, w: World, c: ComponentId)
    ensures Round(q, w, c) == Pass(w, c, q.view(c), SMOOTH)
  {
    hide Pass;
  }

  lemma NotOvertaken(e: Effect)
    requires FromVerdict(e, SMOOTH.apply)
    ensures !e.Overtaken?
  {
  }

  /* ---- No pass raises it ---- */

  lemma OwnPending(q: Quiet, w: World, c: ComponentId)
    requires Sane(q)
    ensures Pending(q, Round(q, w, c), c) <= Pending(q, w, c)
    ensures Writes(PassEffect(w, c, q.view(c), SMOOTH)) ==> Pending(q, Round(q, w, c), c) < Pending(q, w, c)
  {
    hide Settled;
    hide Steady;
    hide SettingFor;
    hide Pass;
    hide Enabled;
    QuietIsSteady(q, w, c);
    SmoothIsSmooth();
    UnracedIsVersioned(w, SMOOTH.apply);
    var env := SettingFor(q, c);
    if Settled(env, w, c) || Writes(PassEffect(w, c, q.view(c), SMOOTH)) { PassSettles(env, w, c, q.view(c), SMOOTH); }
  }

  lemma OwnPatchKept(q: Quiet, w: World, c: ComponentId)
    requires Sane(q) && c in w.patches && !w.patches[c].deleting
    ensures var w' := Round(q, w, c);
            c in w'.patches && !w'.patches[c].deleting && (w.patches[c].finalizer ==> w'.patches[c].finalizer) &&
            MarkerRank(w'.patches[c]) <= MarkerRank(w.patches[c])
  {
    QuietStep(q, w, c);
    hide Round;
    hide PassEffect;
    hide Justified;
    hide ConfigStep;
    hide FairEffect;
  }

  lemma OthersPatchKept(q: Quiet, w: World, c: ComponentId, d: ComponentId)
    requires Sane(q) && d != c
    ensures var w' := Round(q, w, c);
            (d in w'.patches <==> d in w.patches) && (d in w.patches ==> w'.patches[d] == w.patches[d])
  {
    QuietStep(q, w, c);
    hide Round;
    hide PassEffect;
    hide OwnStep;
    hide ConfigStep;
    hide FairEffect;
  }

  // The pair on one chart: at most one of them is patchable, so a live pass over one unsettles nothing
  lemma PartnerPending(q: Quiet, w: World, c: ComponentId, d: ComponentId)
    requires Sane(q) && d == Partner(c) && !PathDisjoint(c) && !PathDisjoint(d)
    requires c in w.patches && !w.patches[c].deleting && d in w.patches && !w.patches[d].deleting
    ensures Pending(q, Round(q, w, c), d) <= Pending(q, w, d)
  {
    hide Settled;
    hide SettingFor;
    hide Round;
    hide PassEffect;
    hide PassStep;
    hide FairEffect;
    var w', o, e := Round(q, w, c), q.view(c), PassEffect(w, c, q.view(c), SMOOTH);
    QuietStep(q, w, c);
    OthersPatchKept(q, w, c, d);
    StepParts(w, w', c, o, e);
    if e.NoWrite? {
      ElsewhereStays(w, w', c, e, d);
      if Settled(SettingFor(q, d), w, d) { SameConfigSettled(SettingFor(q, d), w, w', d); }
    } else {
      WritesMeanOpen(w, w', c, o, e);
      OnlyOneOpens(q, w, c, d, w');
    }
  }

  lemma SameConfigSettled(env: Setting, w: World, w': World, d: ComponentId)
    requires Settled(env, w, d) && ConfigOf(w', d) == ConfigOf(w, d)
    requires d in w.patches && d in w'.patches && w'.patches[d] == w.patches[d]
    ensures Settled(env, w', d)
  {
    hide ConfigOf;
    hide GeneratedValues;
    hide Policy.ValidateAgainstBaseline;
    hide Patcher.Present;
  }

  lemma WritesMeanOpen(w: World, w': World, c: ComponentId, o: Observed, e: Effect)
    requires PassStep(w, w', c, o, e) && c in w.patches && !w.patches[c].deleting && Writes(e)
    ensures Gates(w, c, o).Open?
  {
    hide ConfigStep;
    hide MayPatch;
    hide MayRevert;
    hide Gates;
  }

  lemma OnlyOneOpens(q: Quiet, w: World, c: ComponentId, d: ComponentId, w': World)
    requires Sane(q) && d == Partner(c) && !PathDisjoint(c) && Gates(w, c, q.view(c)).Open?
    requires d in w'.patches && !w'.patches[d].deleting
    ensures Settled(SettingFor(q, d), w', d)
  {
    hide Patcher.BundledOf;
    hide InPlace;
    hide NotWanted;
    hide Owned;
    hide RepositoryFor;
    Patcher.CoreDnsExcludesNodeCache(q.charts(CoreDnsChart));
  }

  lemma OtherPending(q: Quiet, w: World, c: ComponentId, d: ComponentId)
    requires Sane(q) && d != c && (PathDisjoint(c) || PathDisjoint(d))
    ensures Pending(q, Round(q, w, c), d) <= Pending(q, w, d) && Unsettling(Round(q, w, c), d) == Unsettling(w, d)
  {
    hide Settled;
    hide SettingFor;
    hide Round;
    hide PassEffect;
    hide PassStep;
    hide FairEffect;
    QuietStep(q, w, c);
    if !PathDisjoint(d) { OthersPatchKept(q, w, c, Partner(d)); }
    if Settled(SettingFor(q, d), w, d) {
      OtherPassKeepsSettled(SettingFor(q, d), w, Round(q, w, c), c, q.view(c), PassEffect(w, c, q.view(c), SMOOTH), d);
    }
  }

  lemma PartnerTerms(q: Quiet, w: World, c: ComponentId, d: ComponentId)
    requires Sane(q) && d != c && !PathDisjoint(c) && !PathDisjoint(d)
    requires d in w.patches && !w.patches[d].deleting
    ensures var w' := Round(q, w, c); Pending(q, w', d) + Unsettling(w', d) <= Pending(q, w, d) + Unsettling(w, d)
  {
    hide Pass;
    hide Stuck;
    hide Settled;
    hide SettingFor;
    if c !in w.patches {
      assert Round(q, w, c) == w by { UnknownStays(w, c, q.view(c)); }
    } else if w.patches[c].deleting {
      StuckStays(w, c, q.view(c));
      if !Stuck(w, c, q.view(c)) { StuckMeans(w, c, q.view(c)); }
    } else {
      hide Round;
      OwnPatchKept(q, w, c);
      PartnerPending(q, w, c, d);
    }
  }

  lemma UnknownStays(w: World, c: ComponentId, o: Observed)
    requires c !in w.patches
    ensures Pass(w, c, o, SMOOTH) == w
  {
  }

  lemma StuckMeans(w: World, c: ComponentId, o: Observed)
    requires c in w.patches && !Stuck(w, c, o)
    ensures w.patches[c].finalizer
  {
  }

  lemma OtherLocal(q: Quiet, w: World, c: ComponentId, d: ComponentId)
    requires Sane(q) && d != c
    ensures Local(q, Round(q, w, c), d) <= Local(q, w, d)
  {
    hide Round;
    hide Pending;
    hide Unsettling;
    hide MarkerRank;
    OthersPatchKept(q, w, c, d);
    if d in w.patches && !w.patches[d].deleting {
      if PathDisjoint(c) || PathDisjoint(d) { OtherPending(q, w, c, d); } else { PartnerTerms(q, w, c, d); }
    }
  }

  lemma OwnUnsettling(q: Quiet, w: World, c: ComponentId)
    requires Sane(q)
    ensures Unsettling(Round(q, w, c), c) == Unsettling(w, c)
  {
    hide Round;
    if !PathDisjoint(c) { OthersPatchKept(q, w, c, Partner(c)); }
  }

  lemma OwnLocal(q: Quiet, w: World, c: ComponentId)
    requires Sane(q)
    ensures Local(q, Round(q, w, c), c) <= Local(q, w, c)
    ensures c in w.patches && !w.patches[c].deleting && Writes(PassEffect(w, c, q.view(c), SMOOTH)) ==>
              Local(q, Round(q, w, c), c) < Local(q, w, c)
    ensures c in w.patches && w.patches[c].deleting && !Stuck(w, c, q.view(c)) ==>
              Local(q, Round(q, w, c), c) < Local(q, w, c)
  {
    hide Pass;
    hide Pending;
    hide Unsettling;
    hide MarkerRank;
    hide Stuck;
    hide PassEffect;
    if c !in w.patches {
      UnknownStays(w, c, q.view(c));
    } else if w.patches[c].deleting {
      StuckStays(w, c, q.view(c));
      if !Stuck(w, c, q.view(c)) { StuckMeans(w, c, q.view(c)); }
    } else {
      OwnPatchKept(q, w, c);
      OwnUnsettling(q, w, c);
      OwnPending(q, w, c);
    }
    hide Writes;
    hide Sane;
  }

  /* ---- A pass that writes more than a status lowers it ---- */

  // Putting the finalizer in place, or removing an outdated marker, is a step of its own
  lemma ClosedIn(q: Quiet, w: World, c: ComponentId, p: ImagePatch)
    requires c in w.patches && !w.patches[c].deleting && SameIntent(w.patches[c], p)
    requires (p.finalizer && !w.patches[c].finalizer && p.marker == w.patches[c].marker) ||
             (p.finalizer == w.patches[c].finalizer && Outdated(w.patches[c]) && p.marker == None)
    ensures Local(q, w.(patches := w.patches[c := p]), c) < Local(q, w, c)
  {
    var w1 := w.(patches := w.patches[c := p]);
    hide Settled;
    hide SettingFor;
    SameConfigsSame(w, w1, c);
    AgreeRefl(TreeOf(w, c), Shape(c));
    if Settled(SettingFor(q, c), w, c) { SettledFrame(SettingFor(q, c), w, w1, c); }
    hide SameIntent;
    assert Unsettling(w1, c) == Unsettling(w, c);
  }

  lemma UnmarkThenRest(w: World, c: ComponentId, o: Observed)
    requires c in w.patches && !w.patches[c].deleting && w.patches[c].finalizer && Outdated(w.patches[c])
    requires Gates(w, c, o).Open? && o.configReadable
    ensures Pass(w, c, o, SMOOTH) == Pass(w.(patches := w.patches[c := w.patches[c].(marker := None)]), c, o, SMOOTH)
  {
    var w1 := w.(patches := w.patches[c := w.patches[c].(marker := None)]);
    OnlyPatches(w, w1, c, o);
    var g, ip := Gates(w, c, o), w.patches[c];
    hide Gates;
    hide Decide;
    hide CarryOut;
    hide FinalStatus;
    assert ip.(finalizer := true) == ip;
    var unmarked := ip.(status := ip.status.(baselineTag := g.baseline), marker := None);
    assert UpdatePatch(w, c, unmarked, Acked) == w1;
  }

  lemma WritesElse(w: World, c: ComponentId, o: Observed)
    requires c in w.patches && !w.patches[c].deleting && w.patches[c].finalizer && !Outdated(w.patches[c])
    requires Stay(w, c, o).None?
    ensures Writes(PassEffect(w, c, o, SMOOTH))
  {
    hide Gates;
    hide Decide;
    hide ConfigOf;
    hide FinalStatus;
    hide RepositoryFor;
    var ip, g := w.patches[c], Gates(w, c, o);
    assert ip.(finalizer := true) == ip;
    if g.Open? {
      var based := ip.(status := ip.status.(baselineTag := g.baseline));
      MarkNeedsMap(w, c, based, g.baseline, g.version, o);
    }
  }

  lemma MarkNeedsMap(w: World, c: ComponentId, ip: ImagePatch, baseline: string, version: string, o: Observed)
    ensures var d := Decide(w, c, ip, baseline, version, o);
            d.Undo? ==> ConfigOf(w, c).Some? && (d.mark ==> ValuesOf(ConfigOf(w, c)).Map?)
  {
    hide ChartOf;
    hide OthersStale;
    hide GeneratedValues;
    hide RepositoryFor;
    hide Refusal;
    hide Patcher.Present;
    hide Patcher.HasConflict;
    hide Policy.ValidateAgainstBaseline;
  }

  lemma LocalDrops(q: Quiet, w: World, c: ComponentId)
    requires Sane(q) && c in w.patches && !w.patches[c].deleting && Stay(w, c, q.view(c)).None?
    ensures Local(q, Round(q, w, c), c) < Local(q, w, c)
  {
    hide Local;
    hide Stay;
    hide Pass;
    hide Gates;
    hide PassEffect;
    hide Writes;
    var ip, o := w.patches[c], q.view(c);
    if !ip.finalizer {
      FinalizerThenRest(w, c, o, SMOOTH);
      ClosedIn(q, w, c, ip.(finalizer := true));
      OwnLocal(q, w.(patches := w.patches[c := ip.(finalizer := true)]), c);
    } else if Outdated(ip) {
      OutdatedOpens(w, c, o);
      UnmarkThenRest(w, c, o);
      ClosedIn(q, w, c, ip.(marker := None));
      OwnLocal(q, w.(patches := w.patches[c := ip.(marker := None)]), c);
    } else {
      WritesElse(w, c, o);
      OwnLocal(q, w, c);
    }
  }

  lemma OutdatedOpens(w: World, c: ComponentId, o: Observed)
    requires c in w.patches && w.patches[c].finalizer && Stay(w, c, o).None? && Outdated(w.patches[c])
    ensures Gates(w, c, o).Open? && o.configReadable
  {
    hide Gates;
    hide Decide;
    hide FinalStatus;
  }

  /* ---- The measure ---- */

  // Every component once
  const ALL: seq<ComponentId> := [
    Traefik, IngressNginx, CoreDns, DnsNodeCache, MetricsServer,
    Flannel, CanalCalico, CanalFlannel, ClusterAutoscaler, SnapshotController
  ]

  lemma AllIsAll(c: ComponentId)
    ensures c in ALL
  {
    match c
    case Traefik => assert ALL[0] == c;
    case IngressNginx => assert ALL[1] == c;
    case CoreDns => assert ALL[2] == c;
    case DnsNodeCache => assert ALL[3] == c;
    case MetricsServer => assert ALL[4] == c;
    case Flannel => assert ALL[5] == c;
    case CanalCalico => assert ALL[6] == c;
    case CanalFlannel => assert ALL[7] == c;
    case ClusterAutoscaler => assert ALL[8] == c;
    case SnapshotController => assert ALL[9] == c;
  }

  function Sum(f: ComponentId -> nat, list: seq<ComponentId>): nat {
    if list == [] then 0 else f(list[0]) + Sum(f, list[1..])
  }

  lemma {:induction false} SumFollows(f: ComponentId -> nat, g: ComponentId -> nat, list: seq<ComponentId>,
                                      c: ComponentId)
    requires forall d :: g(d) <= f(d)
    ensures Sum(g, list) <= Sum(f, list)
    ensures c in list && g(c) < f(c) ==> Sum(g, list) < Sum(f, list)
  {
    if list == [] {
    } else {
      SumFollows(f, g, list[1..], c);
    }
  }

  lemma {:induction false} SumIsSmall(f: ComponentId -> nat, list: seq<ComponentId>, most: nat)
    requires forall d :: f(d) <= most
    ensures Sum(f, list) <= most * |list|
  {
    if list == [] {
    } else {
      SumIsSmall(f, list[1..], most);
      assert most * |list| == most + most * |list[1..]|;
    }
  }

  function Locals(q: Quiet, w: World): ComponentId -> nat {
    d => Local(q, w, d)
  }

  function Unfresh(q: Quiet, w: World): ComponentId -> nat {
    d => if Fresh(q, w, d) then 0 else 1
  }

  // Ten components: one more write outweighs all the statuses
  function Measure(q: Quiet, w: World): nat {
    11 * Sum(Locals(q, w), ALL) + Sum(Unfresh(q, w), ALL)
  }

  lemma StatusWriteDescends(q: Quiet, w: World, c: ComponentId)
    requires Sane(q) && c in w.patches && !w.patches[c].deleting && Stay(w, c, q.view(c)).Some? && !Fresh(q, w, c)
    ensures Sum(Unfresh(q, Round(q, w, c)), ALL) < Sum(Unfresh(q, w), ALL)
  {
    hide Stay;
    hide Stuck;
    hide Pass;
    hide Sum;
    var o := q.view(c);
    var w' := Round(q, w, c);
    StayIsPass(w, c, o);
    StayRepeats(w, c, o);
    assert Fresh(q, w', c);
    forall d ensures Unfresh(q, w')(d) <= Unfresh(q, w)(d) {
      if d != c { OtherStatusIsNoMatter(q, w, c, Stay(w, c, o).value, d); }
    }
    AllIsAll(c);
    SumFollows(Unfresh(q, w), Unfresh(q, w'), ALL, c);
  }

  lemma LocalsFollow(q: Quiet, w: World, c: ComponentId)
    requires Sane(q)
    ensures var w' := Round(q, w, c);
            Sum(Locals(q, w'), ALL) <= Sum(Locals(q, w), ALL) &&
            (Local(q, w', c) < Local(q, w, c) ==> Sum(Locals(q, w'), ALL) < Sum(Locals(q, w), ALL))
  {
    hide Local;
    hide Round;
    hide Sum;
    var w' := Round(q, w, c);
    forall d ensures Locals(q, w')(d) <= Locals(q, w)(d) {
      if d == c { OwnLocal(q, w, c); } else { OtherLocal(q, w, c, d); }
    }
    AllIsAll(c);
    SumFollows(Locals(q, w), Locals(q, w'), ALL, c);
  }

  lemma UnfreshIsSmall(q: Quiet, w: World)
    ensures Sum(Unfresh(q, w), ALL) <= |ALL|
  {
    hide Fresh;
    hide Sum;
    SumIsSmall(Unfresh(q, w), ALL, 1);
  }

  /** A pass over a component either changes nothing, now and later, or lowers the measure. */
  lemma PassDescends(q: Quiet, w: World, c: ComponentId)
    requires Sane(q)
    ensures Fresh(q, w, c) ==> Round(q, w, c) == w
    ensures !Fresh(q, w, c) ==> Measure(q, Round(q, w, c)) < Measure(q, w)
  {
    hide Round;
    hide Local;
    hide Stay;
    hide Stuck;
    hide Sum;
    hide PassEffect;
    if Fresh(q, w, c) {
      FreshStays(q, w, c);
    } else {
      LocalsFollow(q, w, c);
      UnfreshIsSmall(q, Round(q, w, c));
      if w.patches[c].deleting {
        OwnLocal(q, w, c);
      } else if Stay(w, c, q.view(c)).Some? {
        StatusWriteDescends(q, w, c);
      } else {
        LocalDrops(q, w, c);
      }
      hide Fresh;
      hide Locals;
      hide Unfresh;
      MeasureDrops(q, w, Round(q, w, c));
    }
  }

  lemma MeasureDrops(q: Quiet, w: World, w': World)
    requires Sum(Unfresh(q, w'), ALL) <= |ALL|
    requires Sum(Locals(q, w'), ALL) < Sum(Locals(q, w), ALL) ||
             (Sum(Locals(q, w'), ALL) <= Sum(Locals(q, w), ALL) && Sum(Unfresh(q, w'), ALL) < Sum(Unfresh(q, w), ALL))
    ensures Measure(q, w') < Measure(q, w)
  {
    hide Sum;
    hide Locals;
    hide Unfresh;
    assert |ALL| == 10;
  }

  /* ---- Schedules ---- */

  function Schedule(q: Quiet, w: World, order: seq<ComponentId>): World
    decreases |order|
  {
    if order == [] then w else Schedule(q, Round(q, w, order[0]), order[1..])
  }

  // How many passes of a schedule change anything
  function Changes(q: Quiet, w: World, order: seq<ComponentId>): nat
    decreases |order|
  {
    if order == [] then 0
    else (if Round(q, w, order[0]) != w then 1 else 0) + Changes(q, Round(q, w, order[0]), order[1..])
  }

  /** However long a schedule, and whatever its order, only so many of its passes change anything. */
  lemma {:induction false} FewPassesChange(q: Quiet, w: World, order: seq<ComponentId>)
    requires Sane(q)
    ensures Changes(q, w, order) + Measure(q, Schedule(q, w, order)) <= Measure(q, w)
    decreases |order|
  {
    hide Measure;
    hide Round;
    hide Fresh;
    hide Sane;
    if order == [] {
    } else {
      PassDescends(q, w, order[0]);
      FewPassesChange(q, Round(q, w, order[0]), order[1..]);
    }
  }

  ghost predicate Fixpoint(q: Quiet, w: World) {
    forall c :: Fresh(q, w, c)
  }

  lemma {:induction false} FixpointStays(q: Quiet, w: World, order: seq<ComponentId>)
    requires Fixpoint(q, w)
    ensures Schedule(q, w, order) == w
    decreases |order|
  {
    hide Fresh;
    hide Round;
    if order == [] {
    } else {
      FreshStays(q, w, order[0]);
      FixpointStays(q, w, order[1..]);
    }
  }

  // A pass over a component that is not fresh comes up in any order that names it
  lemma {:induction false} SomePassDescends(q: Quiet, w: World, order: seq<ComponentId>, c: ComponentId)
    requires Sane(q) && c in order && !Fresh(q, w, c)
    ensures Measure(q, Schedule(q, w, order)) < Measure(q, w)
    decreases |order|
  {
    hide Measure;
    hide Round;
    hide Fresh;
    hide Sane;
    PassDescends(q, w, order[0]);
    if Fresh(q, w, order[0]) {
      SomePassDescends(q, w, order[1..], c);
    } else {
      FewPassesChange(q, Round(q, w, order[0]), order[1..]);
    }
  }

  function Flatten(rounds: seq<seq<ComponentId>>): seq<ComponentId> {
    if rounds == [] then [] else rounds[0] + Flatten(rounds[1..])
  }

  lemma {:induction false} ScheduleSplits(q: Quiet, w: World, a: seq<ComponentId>, b: seq<ComponentId>)
    ensures Schedule(q, w, a + b) == Schedule(q, Schedule(q, w, a), b)
    decreases |a|
  {
    hide Round;
    if a == [] {
      assert a + b == b;
    } else {
      assert (a + b)[0] == a[0] && (a + b)[1..] == a[1..] + b;
      ScheduleSplits(q, Round(q, w, a[0]), a[1..], b);
    }
  }

  /** Once every ImagePatch has had more turns than the measure, in whatever order, no pass changes
      anything any more. */
  lemma {:induction false} Converges(q: Quiet, w: World, rounds: seq<seq<ComponentId>>)
    requires Sane(q) && |rounds| > Measure(q, w)
    requires forall r, c | r in rounds :: c in r
    ensures Fixpoint(q, Schedule(q, w, Flatten(rounds)))
    ensures forall c :: var end := Schedule(q, w, Flatten(rounds)); Round(q, end, c) == end
    decreases |rounds|
  {
    hide Measure;
    hide Round;
    hide Fresh;
    hide Sane;
    var end := Schedule(q, w, Flatten(rounds));
    if Fixpoint(q, w) {
      FixpointStays(q, w, Flatten(rounds));
    } else {
      var c :| !Fresh(q, w, c);
      assert rounds[0] in rounds;
      ScheduleSplits(q, w, rounds[0], Flatten(rounds[1..]));
      SomePassDescends(q, w, rounds[0], c);
      assert forall r | r in rounds[1..] :: r in rounds;
      Converges(q, Schedule(q, w, rounds[0]), rounds[1..]);
    }
    forall c ensures Round(q, end, c) == end { FreshStays(q, end, c); }
  }

  /* ---- Phases ---- */

  // No cluster is further than this from a state that no pass changes
  const MOST: nat := 560

  lemma LocalIsSmall(q: Quiet, w: World, d: ComponentId)
    ensures Local(q, w, d) <= 5
  {
    hide Settled;
    hide SettingFor;
  }

  lemma MeasureIsSmall(q: Quiet, w: World)
    ensures Measure(q, w) <= MOST
  {
    hide Local;
    hide Fresh;
    hide Sum;
    UnfreshIsSmall(q, w);
    forall d ensures Locals(q, w)(d) <= 5 { LocalIsSmall(q, w, d); }
    SumIsSmall(Locals(q, w), ALL, 5);
    assert |ALL| == 10;
  }

  // Any legal run, and then quiet rounds: the view of each component is the same within a phase, and
  // may be any other in the next one, as when rollouts finish, tags are published or a release comes
  datatype Phase = Phase(before: seq<Step>, q: Quiet, rounds: seq<seq<ComponentId>>)

  ghost function PhaseEnd(w: World, p: Phase): World
    requires Legal(w, p.before)
  {
    Schedule(p.q, After(w, p.before), Flatten(p.rounds))
  }

  ghost predicate Plays(w: World, phases: seq<Phase>)
    decreases |phases|
  {
    phases != [] ==> Legal(w, phases[0].before) && Sane(phases[0].q) && Plays(PhaseEnd(w, phases[0]), phases[1..])
  }

  ghost function Played(w: World, phases: seq<Phase>): World
    requires Plays(w, phases)
    decreases |phases|
  {
    if phases == [] then w else Played(PhaseEnd(w, phases[0]), phases[1..])
  }

  // How many of the quiet passes change anything
  ghost function AllChanges(w: World, phases: seq<Phase>): nat
    requires Plays(w, phases)
    decreases |phases|
  {
    if phases == [] then 0
    else
      var p := phases[0];
      Changes(p.q, After(w, p.before), Flatten(p.rounds)) + AllChanges(PhaseEnd(w, p), phases[1..])
  }

  /** While the views change finitely often, with any run in between, and however long the phases are,
      only so many of all their passes change anything. */
  lemma {:induction false} FewPassesChangeInPhases(w: World, phases: seq<Phase>)
    requires Plays(w, phases)
    ensures AllChanges(w, phases) <= MOST * |phases|
    decreases |phases|
  {
    hide Schedule;
    hide Changes;
    hide Measure;
    hide After;
    hide Legal;
    hide Sane;
    if phases == [] {
    } else {
      var p := phases[0];
      var start := After(w, p.before);
      MeasureIsSmall(p.q, start);
      FewPassesChange(p.q, start, Flatten(p.rounds));
      FewPassesChangeInPhases(PhaseEnd(w, p), phases[1..]);
      assert MOST * |phases| == MOST + MOST * |phases[1..]|;
    }
  }

  /** And once the last change of a view, or of anything else, is far enough behind, no pass changes
      anything any more, whatever went before. */
  lemma {:induction false} ConvergesInPhases(w: World, phases: seq<Phase>)
    requires Plays(w, phases) && phases != []
    requires var last := phases[|phases| - 1]; |last.rounds| > MOST && forall r, c | r in last.rounds :: c in r
    ensures var last, end := phases[|phases| - 1], Played(w, phases);
            Fixpoint(last.q, end) && forall c :: Round(last.q, end, c) == end
    decreases |phases|
  {
    hide Schedule;
    hide Measure;
    hide After;
    hide Legal;
    hide Sane;
    hide Round;
    hide Fixpoint;
    var p := phases[0];
    if |phases| == 1 {
      assert Played(w, phases) == PhaseEnd(w, p);
      MeasureIsSmall(p.q, After(w, p.before));
      Converges(p.q, After(w, p.before), p.rounds);
    } else {
      ConvergesInPhases(PhaseEnd(w, p), phases[1..]);
    }
  }

  lemma WriteChangesWorld(w: World, w': World, c: ComponentId, e: Effect)
    requires ConfigStep(w, w', c, e) && Writes(e)
    ensures w' != w
  {
    hide Put;
    hide ChartOf;
    hide RevertedConfig;
    hide PatchedConfig;
  }

  /** A state no pass changes leaves nothing to do: no readable component meets every rule for a patch
      it does not have, and none is left with an occasion to revert. */
  lemma FixpointIsDone(q: Quiet, w: World, c: ComponentId)
    requires Sane(q) && Fresh(q, w, c) && c in w.patches && !w.patches[c].deleting
    requires Gates(w, c, q.view(c)).Open? && q.view(c).configReadable
    ensures var g := Gates(w, c, q.view(c));
            !MustPatch(w, c, w.patches[c], g.baseline, g.version, q.view(c)) &&
            !MustRevert(w, c, w.patches[c], g.baseline, g.version, q.view(c))
  {
    hide *;
    var e := PassEffect(w, c, q.view(c), SMOOTH);
    SmoothIsSmooth();
    FreshStays(q, w, c);
    QuietStep(q, w, c);
    StepParts(w, w, c, q.view(c), e);
    if Writes(e) { WriteChangesWorld(w, w, c, e); }
    WritingIs(e);
    EffectsFollowGates(w, c, q.view(c), SMOOTH);
  }

  lemma SmoothIsSmooth()
    ensures SMOOTH.finalizer.Acked? && SMOOTH.unmark.Acked? && SMOOTH.mark.Acked? && SMOOTH.apply.Acked? &&
            Lands(SMOOTH.apply)
  {
  }
}
