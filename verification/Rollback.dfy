/** No rollback: while a component stays managed, its passes write no tag older than one they wrote
    before, exactly as long as the tag stored last in its status is not older. Two things break that: a
    write that lands without being recorded, and taking over an older tag found in the HelmChartConfig. */
module Rollback {
  import opened Text
  import opened Values
  import opened Components
  import opened Comparison
  import opened Tags
  import opened Cluster
  import opened Reconciliation
  import opened PassFacts
  import opened CommandLine
  import opened Runs
  import opened Versions
  import opened Invariants
  import opened AutoRevertSafety
  import opened SingleWrite
  import Patcher
  import Policy

  // Both are release tags, and the first is not older
  predicate AtLeast(a: string, b: string) {
    ParseTag(a).Some? && ParseTag(b).Some? && CompareTags(ParseTag(a).value, ParseTag(b).value) >= 0
  }

  lemma AtLeastChains(a: string, b: string, c: string)
    requires AtLeast(a, b) && AtLeast(b, c)
    ensures AtLeast(a, c)
  {
    hide ParseTag;
    var x, y, z := ParseTag(a).value, ParseTag(b).value, ParseTag(c).value;
    ComparisonFlips(x, y);
    ComparisonFlips(y, z);
    if Newer(x, y) && Newer(y, z) { NewerChains(x, y, z); }
    hide CompareTags;
  }

  lemma NotOlderMeans(current: string, target: string)
    requires ParseTag(current).Some? && ParseTag(target).Some?
    requires Policy.ValidateNotOlderThanCurrent(current, target).None?
    ensures AtLeast(target, current)
  {
    hide ParseTag;
    hide CompareTags;
  }

  lemma BlankIsNoTag(tag: string)
    requires ParseTag(tag).Some?
    ensures tag != ""
  {
    hide ParseName;
  }

  lemma PastBaselineParses(baseline: string, tag: string)
    requires Policy.ValidateAgainstBaseline(baseline, tag).None?
    ensures ParseTag(tag).Some?
  {
    hide ParseTag;
    hide CompareTags;
  }

  /* ---- The recorded tag ---- */

  // The values of the copy's tag are in place, whoever put them there, and nothing asks for their removal
  predicate FindsInPlace(w: World, c: ComponentId, ip: ImagePatch, baseline: string, version: string, o: Observed) {
    o.images.Some? && Owned(w, c) && ManagedIn(w, c) == version && ip.marker != Some(ip.generation) &&
    ip.tag != baseline &&
    ValuesOf(ConfigOf(w, c)).Map? && Policy.ValidateAgainstBaseline(baseline, ip.tag).None? &&
    Patcher.Present(ValuesOf(ConfigOf(w, c)), GeneratedValues(c, RepositoryFor(c, o.images.value), ip.tag))
  }

  // The pass finds the values of spec.tag in place and records that tag
  predicate TakesOver(w: World, c: ComponentId, o: Observed) {
    c in w.patches && Gates(w, c, o).Open? &&
    FindsInPlace(w, c, w.patches[c], Gates(w, c, o).baseline, Gates(w, c, o).version, o)
  }

  // The copy of the ImagePatch a decision leaves records the old tag, or the one taken over
  predicate Records(w: World, c: ComponentId, ip: ImagePatch, takesOver: bool, d: Decision) {
    match d
    case Leave(ip', end) =>
      ip'.tag == ip.tag && (takesOver ==> end.Done?) &&
      (Owned(w, c) ==> ip'.status.appliedTag == if takesOver then ip.tag else ip.status.appliedTag)
    case Undo(_, before, _, _) => before.status.appliedTag == ip.status.appliedTag && !takesOver
    case Write(before, _) => before.tag == ip.tag && before.status.appliedTag == ip.status.appliedTag && !takesOver
  }

  lemma CurrentRecords(w: World, othersStale: bool, c: ComponentId, ip: ImagePatch, baseline: string, version: string,
                       o: Observed)
    requires o.images.Some? && ip.marker != Some(ip.generation)
    requires Owned(w, c) ==> ManagedIn(w, c) == version
    ensures Records(w, c, ip, FindsInPlace(w, c, ip, baseline, version, o),
                    DecideCurrent(othersStale, c, ip, baseline, ConfigOf(w, c), o.images.value, o))
  {
    hide ConfigOf;
    hide GeneratedValues;
    hide RepositoryFor;
    hide Refusal;
    hide AllRun;
    hide Patcher.Present;
    hide Patcher.HasConflict;
    hide Policy.ValidateAgainstBaseline;
  }

  lemma DecisionRecords(w: World, c: ComponentId, ip: ImagePatch, baseline: string, version: string, o: Observed)
    ensures Records(w, c, ip, FindsInPlace(w, c, ip, baseline, version, o), Decide(w, c, ip, baseline, version, o))
  {
    hide ConfigOf;
    hide OthersStale;
    hide GeneratedValues;
    hide RepositoryFor;
    hide DecideCurrent;
    hide DecideMarked;
    hide DecideStale;
    hide Patcher.Present;
    hide Policy.ValidateAgainstBaseline;
    hide ManagedOn;
    var current := ConfigOf(w, c);
    if ip.marker == Some(ip.generation) {
      MarkedRecords(w, c, ip, o);
    } else if Owned(w, c) && ManagedIn(w, c) != version {
      StaleRecords(w, c, ip, o);
    } else if o.images.Some? {
      CurrentRecords(w, OthersStale(w, version, c), c, ip.(status := ip.status.(runningImages := o.images.value)),
                     baseline, version, o);
    }
  }

  lemma MarkedRecords(w: World, c: ComponentId, ip: ImagePatch, o: Observed)
    ensures Records(w, c, ip, false, DecideMarked(c, ip, ConfigOf(w, c), o))
  {
    hide ConfigOf;
    hide ManagedOn;
  }

  lemma StaleRecords(w: World, c: ComponentId, ip: ImagePatch, o: Observed)
    ensures Records(w, c, ip, false, DecideStale(c, ip, ConfigOf(w, c), o))
  {
    hide ConfigOf;
    hide ManagedOn;
  }

  // The answer to a write based on what was just read is the verdict, and never a success in a race
  lemma OwnAnswer(w: World, chart: Chart, v: Verdict)
    requires Versioned(w, v)
    ensures Answer(w, chart, VersionOf(w, chart), v).Acked? <==> v.Acked?
  {
    if v.Raced? { StaleWriteIsRefused(w, chart, v.edit, v); }
    hide VersionsBelow;
    hide Put;
  }

  // A write records its tag once it is acknowledged, and otherwise nothing
  lemma WriteRecords(w: World, c: ComponentId, ip: ImagePatch, takesOver: bool, d: Decision, version: string,
                     v: Verdicts)
    requires c in w.patches && Records(w, c, ip, takesOver, d) && d.Write? && Versioned(w, v.apply)
    ensures var s := CarryOut(w, c, d, version, v);
            s.ip.status.appliedTag ==
              (if Confirmed(EffectOf(w, c, d, version, v), v) then ip.tag else ip.status.appliedTag) &&
            (Confirmed(EffectOf(w, c, d, version, v), v) ==> s.end.Done?)
  {
    hide ConfigOf;
    hide Owned;
    hide RepositoryFor;
    hide PatchedConfig;
    hide RolledOutCondition;
    hide AllRun;
    hide CarryOutUndo;
    hide RevertEffect;
    hide VersionsBelow;
    OwnAnswer(w, ChartOf(c), v.apply);
    hide Answer;
    hide Apply;
    hide ChartOf;
  }

  // What the pass's own copy records once the decision is carried out
  lemma CarryOutRecords(w: World, c: ComponentId, ip: ImagePatch, takesOver: bool, d: Decision, version: string,
                        v: Verdicts)
    requires c in w.patches && Records(w, c, ip, takesOver, d) && Versioned(w, v.apply)
    requires EffectOf(w, c, d, version, v).Patches? || (Owned(w, c) && Owned(CarryOut(w, c, d, version, v).world, c))
    ensures var s := CarryOut(w, c, d, version, v);
            var records := takesOver || Confirmed(EffectOf(w, c, d, version, v), v);
            s.ip.status.appliedTag == (if records then ip.tag else ip.status.appliedTag) && (records ==> s.end.Done?)
  {
    hide ConfigOf;
    hide ManagedOn;
    hide Versioned;
    hide CarryOutWrite;
    hide CarryOutUndo;
    if d.Write? { WriteRecords(w, c, ip, takesOver, d, version, v); }
    if d.Undo? {
      RevertsOnlyReverts(ConfigOf(w, c), v.apply);
      UndoRecords(w, c, d, v);
    }
    hide RevertEffect;
  }

  // A revert whose success is seen ends the ownership; before that nothing is recorded
  lemma UndoRecords(w: World, c: ComponentId, d: Decision, v: Verdicts)
    requires c in w.patches && d.Undo? && Owned(CarryOutUndo(w, c, d, v).world, c)
    ensures CarryOutUndo(w, c, d, v).ip == d.ip
  {
    hide Revert;
    hide UpdatePatch;
    var w1 := if d.mark then UpdatePatch(w, c, d.ip, v.mark) else w;
    SameConfigsSame(w, w1, c) by { UpdateKeepsConfigs(w, c, d.ip, v.mark); }
    assert ConfigOf(w1, c) == ConfigOf(w, c) by { UpdateKeepsConfigs(w, c, d.ip, v.mark); hide ChartOf; }
    hide ConfigOf;
    hide Owned;
    if Revert(w1, c, ConfigOf(w1, c), v.apply).1.Acked? { RevertedIsUnowned(w1, c, v.apply); }
  }

  lemma UpdateKeepsConfigs(w: World, c: ComponentId, ip: ImagePatch, v: Verdict)
    requires c in w.patches
    ensures UpdatePatch(w, c, ip, v) == w.(patches := UpdatePatch(w, c, ip, v).patches) &&
            c in UpdatePatch(w, c, ip, v).patches
  {
  }

  predicate Readable(ip: ImagePatch, o: Observed, v: Verdicts) {
    o.configReadable && (Outdated(ip) ==> v.unmark.Acked?)
  }

  predicate Confirmed(e: Effect, v: Verdicts) {
    e.Patches? && v.apply.Acked?
  }

  // What the pass's copy records at the end of its work: the tag taken over or confirmed as written, or
  // else the old tag; `kept` says that the component was managed and still is
  predicate StageRecords(ip: ImagePatch, kept: bool, takes: bool, v: Verdicts, s: Stage, e: Effect) {
    var records := takes || Confirmed(e, v);
    kept || e.Patches? ==>
      s.ip.status.appliedTag == (if records then ip.tag else ip.status.appliedTag) && (records ==> s.end.Done?)
  }

  // What is found depends on the stored values and on the copy's spec
  lemma FindsFrame(w: World, w1: World, c: ComponentId, ip: ImagePatch, ip1: ImagePatch, baseline: string,
                   version: string, o: Observed)
    requires w1.configs == w.configs && ip1.tag == ip.tag
    requires ip1.marker == Some(ip1.generation) <==> ip.marker == Some(ip.generation)
    ensures FindsInPlace(w1, c, ip1, baseline, version, o) == FindsInPlace(w, c, ip, baseline, version, o)
  {
    assert ConfigOf(w1, c) == ConfigOf(w, c) by { hide ChartOf; }
    hide ConfigOf;
    hide ManagedOn;
    hide GeneratedValues;
    hide RepositoryFor;
    hide Patcher.Present;
    hide Policy.ValidateAgainstBaseline;
  }

  lemma CopyFindsTheSame(w: World, w1: World, c: ComponentId, ip: ImagePatch, o: Observed)
    requires c in w.patches && w1 == w.(patches := w1.patches) && Gates(w, c, o).Open?
    requires ip.tag == w.patches[c].tag && ip.generation == w.patches[c].generation
    requires ip.marker == Some(ip.generation) <==> w.patches[c].marker == Some(ip.generation)
    ensures FindsInPlace(w1, c, ip, Gates(w, c, o).baseline, Gates(w, c, o).version, o) == TakesOver(w, c, o)
  {
    FindsFrame(w, w1, c, w.patches[c], ip, Gates(w, c, o).baseline, Gates(w, c, o).version, o);
    hide Gates;
    hide FindsInPlace;
  }

  lemma LiveRecords(w: World, w0: World, c: ComponentId, ip: ImagePatch, o: Observed, v: Verdicts)
    requires c in w.patches && c in w0.patches && w == w0.(patches := w.patches) && Gates(w0, c, o).Open?
    requires Versioned(w0, v.apply)
    requires ip.tag == w0.patches[c].tag && ip.generation == w0.patches[c].generation
    requires ip.marker == Some(ip.generation) <==> w0.patches[c].marker == Some(ip.generation)
    ensures var g := Gates(w0, c, o);
            var d := Decide(w, c, ip, g.baseline, g.version, o);
            var s, e := CarryOut(w, c, d, g.version, v), EffectOf(w, c, d, g.version, v);
            StageRecords(ip, Owned(w0, c) && Owned(s.world, c), TakesOver(w0, c, o), v, s, e)
  {
    hide *;
    var g := Gates(w0, c, o);
    var d := Decide(w, c, ip, g.baseline, g.version, o);
    CopyFindsTheSame(w0, w, c, ip, o);
    OwnedAlike(w0, w, c);
    DecisionRecords(w, c, ip, g.baseline, g.version, o);
    var takes, s, e := TakesOver(w0, c, o), CarryOut(w, c, d, g.version, v), EffectOf(w, c, d, g.version, v);
    VersionedFrame(w0, w, v.apply);
    if e.Patches? || (Owned(w0, c) && Owned(s.world, c)) { CarryOutRecords(w, c, ip, takes, d, g.version, v); }
    RecordsOf(ip, Owned(w0, c) && Owned(s.world, c), takes, v, s, e);
  }

  lemma RecordsOf(ip: ImagePatch, kept: bool, takes: bool, v: Verdicts, s: Stage, e: Effect)
    requires kept || e.Patches? ==>
               s.ip.status.appliedTag == (if takes || Confirmed(e, v) then ip.tag else ip.status.appliedTag) &&
               (takes || Confirmed(e, v) ==> s.end.Done?)
    ensures StageRecords(ip, kept, takes, v, s, e)
  {
  }

  lemma OwnedAlike(w: World, w1: World, c: ComponentId)
    requires w1.configs == w.configs
    ensures Owned(w1, c) == Owned(w, c)
  {
    hide ChartOf;
  }

  lemma StageTag(w: World, c: ComponentId, ip: ImagePatch, o: Observed, v: Verdicts)
    requires c in w.patches && ip == w.patches[c] && Versioned(w, v.apply)
    ensures var s := ReconcilePatch(w, c, ip, o, v);
            StageRecords(ip, Owned(w, c) && Owned(s.world, c), TakesOver(w, c, o) &&
                         Readable(ip, o, v), v, s, StageEffect(w, c, ip, o, v))
  {
    hide Gates;
    hide CarryOut;
    hide EffectOf;
    hide Decide;
    hide TakesOver;
    hide Owned;
    hide Versioned;
    hide UpdatePatch;
    var g := Gates(w, c, o);
    if g.Shut? {
      ShutTakesNothing(w, c, o);
    } else if o.configReadable {
      var based := ip.(status := ip.status.(baselineTag := g.baseline));
      if !Outdated(ip) {
        LiveRecords(w, w, c, based, o, v);
      } else if v.unmark.Acked? {
        var unmarked := based.(marker := None);
        UpdateKeepsConfigs(w, c, unmarked, v.unmark);
        LiveRecords(UpdatePatch(w, c, unmarked, v.unmark), w, c, unmarked, o, v);
      }
    }
  }

  lemma ShutTakesNothing(w: World, c: ComponentId, o: Observed)
    requires Gates(w, c, o).Shut?
    ensures !TakesOver(w, c, o)
  {
    hide Gates;
    hide Owned;
    hide ConfigOf;
    hide GeneratedValues;
    hide Patcher.Present;
  }

  // Writing a status changes no HelmChartConfig
  lemma StatusWritten(w: World, c: ComponentId, ip: ImagePatch, previous: Status, outcome: Outcome, v: Verdict)
    requires c in w.patches && w.patches[c].status == previous
    ensures var w' := WriteStatus(w, c, ip, previous, outcome, v);
            w'.configs == w.configs && c in w'.patches &&
            w'.patches[c].status.appliedTag == (if Lands(v) then ip.status.appliedTag else previous.appliedTag)
  {
  }

  lemma PassIsStage(w: World, c: ComponentId, o: Observed, v: Verdicts)
    requires c in w.patches && !w.patches[c].deleting && w.patches[c].finalizer
    requires var s := ReconcilePatch(w, c, w.patches[c], o, v);
             c in s.world.patches && s.world.patches[c].status == w.patches[c].status
    ensures var ip, s, w' := w.patches[c], ReconcilePatch(w, c, w.patches[c], o, v), Pass(w, c, o, v);
            w'.configs == s.world.configs && PassEffect(w, c, o, v) == StageEffect(w, c, ip, o, v) && c in w'.patches &&
            w'.patches[c].status.appliedTag ==
              (if !s.end.Crash? && Lands(v.status) then s.ip.status.appliedTag else ip.status.appliedTag)
  {
    hide ReconcilePatch;
    hide StageEffect;
    hide WriteStatus;
    hide Lands;
    var ip := w.patches[c];
    assert ip.(finalizer := true) == ip;
    var s := ReconcilePatch(w, c, ip, o, v);
    if !s.end.Crash? {
      var outcome := if s.end.Error? then Outcome(false, false, false, Failure) else s.end.outcome;
      StatusWritten(s.world, c, s.ip, ip.status, outcome, v.status);
    }
  }

  // A pass stores a tag when its status write lands and it either finds the values of spec.tag in place
  // or writes them and sees that write acknowledged
  predicate Stores(w: World, c: ComponentId, o: Observed, v: Verdicts) {
    c in w.patches && !w.patches[c].deleting && Lands(v.status) &&
    ((TakesOver(w, c, o) && Readable(w.patches[c], o, v)) || Confirmed(PassEffect(w, c, o, v), v))
  }

  // The recorded tag after a pass
  function RecordedBy(w: World, c: ComponentId, o: Observed, v: Verdicts, applied: string): string {
    if Stores(w, c, o, v) then w.patches[c].tag else applied
  }

  /** What a pass over a component that is and stays managed, or that it writes, leaves as the recorded
      tag: exactly the tag it stores, and the old one otherwise. */
  lemma RecordedTag(w: World, c: ComponentId, o: Observed, v: Verdicts)
    requires c in w.patches && !w.patches[c].deleting && w.patches[c].finalizer && Versioned(w, v.apply)
    requires PassEffect(w, c, o, v).Patches? || (Owned(w, c) && Owned(Pass(w, c, o, v), c))
    ensures c in Pass(w, c, o, v).patches
    ensures Pass(w, c, o, v).patches[c].status.appliedTag == RecordedBy(w, c, o, v, w.patches[c].status.appliedTag)
  {
    hide ReconcilePatch;
    hide StageEffect;
    hide Pass;
    hide PassEffect;
    hide TakesOver;
    hide Owned;
    hide Readable;
    hide Confirmed;
    hide Lands;
    hide Versioned;
    StageKeepsStatus(w, c, o, v);
    PassIsStage(w, c, o, v);
    OwnedAlike(Pass(w, c, o, v), ReconcilePatch(w, c, w.patches[c], o, v).world, c);
    StageTag(w, c, w.patches[c], o, v);
  }

  /* ---- The floor ---- */

  // The recorded tag is not older than one written before
  predicate Floor(w: World, c: ComponentId, tag: string) {
    c in w.patches && w.patches[c].finalizer && AtLeast(w.patches[c].status.appliedTag, tag)
  }

  // A pass takes over a tag older than the one written before
  predicate TakesOverOlder(w: World, c: ComponentId, o: Observed, v: Verdicts, tag: string) {
    c in w.patches && !w.patches[c].deleting && TakesOver(w, c, o) && Readable(w.patches[c], o, v) && Lands(v.status) &&
    !AtLeast(w.patches[c].tag, tag)
  }

  // A write is checked against the recorded tag
  lemma WriteIsAtLeast(w: World, w': World, c: ComponentId, o: Observed, e: Effect, tag: string)
    requires PassStep(w, w', c, o, e) && e.Patches? && Floor(w, c, tag)
    ensures AtLeast(e.tag, tag) && !w.patches[c].deleting && e.tag == w.patches[c].tag
  {
    WriteIsChecked(w, w', c, o, e);
    hide PassStep;
    hide ParseTag;
    var applied := w.patches[c].status.appliedTag;
    BlankIsNoTag(applied);
    NotOlderMeans(applied, e.tag);
    AtLeastChains(e.tag, applied, tag);
    hide AtLeast;
  }

  lemma WriteIsChecked(w: World, w': World, c: ComponentId, o: Observed, e: Effect)
    requires PassStep(w, w', c, o, e) && e.Patches?
    ensures c in w.patches && !w.patches[c].deleting && e.tag == w.patches[c].tag && ParseTag(e.tag).Some?
    ensures w.patches[c].status.appliedTag != "" ==>
              Policy.ValidateNotOlderThanCurrent(w.patches[c].status.appliedTag, e.tag).None?
  {
    hide ConfigStep;
    hide ConfigOf;
    hide GeneratedValues;
    hide RepositoryFor;
    hide OthersStale;
    hide ManagedIn;
    hide Gates;
    hide ParseTag;
    hide Patcher.Present;
    hide Patcher.HasConflict;
    hide Policy.ValidateAgainstBaseline;
    hide Policy.ValidatePatchWindow;
    hide Policy.ValidateNotOlderThanCurrent;
    PastBaselineParses(Gates(w, c, o).baseline, e.tag);
  }

  /** While a component stays managed, a pass over it writes nothing older than the floor, and lowers
      the floor exactly when it takes over an older tag. */
  lemma PassKeepsFloor(w: World, c: ComponentId, o: Observed, v: Verdicts, tag: string)
    requires Floor(w, c, tag) && Owned(w, c) && Owned(Pass(w, c, o, v), c) && Versioned(w, v.apply)
    ensures Floor(Pass(w, c, o, v), c, tag) <==> !TakesOverOlder(w, c, o, v, tag)
    ensures PassEffect(w, c, o, v).Patches? ==> AtLeast(PassEffect(w, c, o, v).tag, tag)
  {
    hide Pass;
    hide PassEffect;
    hide PassStep;
    hide TakesOver;
    hide Readable;
    hide AtLeast;
    hide Owned;
    hide Versioned;
    var e := PassEffect(w, c, o, v);
    PassIsAStep(w, c, o, v);
    if e.Patches? { WriteIsAtLeast(w, Pass(w, c, o, v), c, o, e, tag); }
    if w.patches[c].deleting {
      DeletingKeeps(w, Pass(w, c, o, v), c, o, e);
    } else {
      FinalizerStays(w, Pass(w, c, o, v), c, o, e);
      RecordedTag(w, c, o, v);
    }
  }

  lemma DeletingKeeps(w: World, w': World, c: ComponentId, o: Observed, e: Effect)
    requires PassStep(w, w', c, o, e) && c in w.patches && w.patches[c].deleting && Owned(w', c)
    ensures c in w'.patches && w'.patches[c] == w.patches[c]
  {
    hide ConfigStep;
    hide Justified;
    hide Owned;
  }

  lemma FinalizerStays(w: World, w': World, c: ComponentId, o: Observed, e: Effect)
    requires PassStep(w, w', c, o, e) && c in w.patches && !w.patches[c].deleting
    ensures c in w'.patches && (w.patches[c].finalizer ==> w'.patches[c].finalizer)
  {
    hide ConfigStep;
    hide Justified;
  }

  /* ---- Runs with edits of any value ---- */

  // A step of the system, or an edit of any value at all that leaves the patcher's annotations alone
  datatype Move = Regular(step: Step) | Drift(chart: Chart, config: HelmConfig)

  ghost predicate Possible(w: World, m: Move) {
    match m
    case Regular(s) => Enabled(w, s)
    case Drift(chart, config) =>
      var before := if chart in w.configs then Some(w.configs[chart]) else None;
      forall d | ChartOf(d) == chart :: ManagedOn(Some(config), d) == ManagedOn(before, d)
  }

  ghost function Moved(w: World, m: Move): World
    requires Possible(w, m)
  {
    match m
    case Regular(s) => Next(w, s)
    case Drift(chart, config) => Put(w, chart, config)
  }

  // A run during which the component stays managed
  ghost predicate ManagedThroughout(w: World, run: seq<Move>, c: ComponentId)
    decreases |run|
  {
    Owned(w, c) && (run != [] ==> Possible(w, run[0]) && ManagedThroughout(Moved(w, run[0]), run[1..], c))
  }

  ghost function AfterMoves(w: World, run: seq<Move>, c: ComponentId): World
    requires ManagedThroughout(w, run, c)
    decreases |run|
  {
    if run == [] then w else AfterMoves(Moved(w, run[0]), run[1..], c)
  }

  // The tag stored by the last pass of the run that stored one, or else `applied`
  ghost function LastRecorded(w: World, run: seq<Move>, c: ComponentId, applied: string): string
    requires ManagedThroughout(w, run, c)
    decreases |run|
  {
    if run == [] then applied
    else LastRecorded(Moved(w, run[0]), run[1..], c, RecordedIn(w, run[0], c, applied))
  }

  predicate OwnPass(m: Move, c: ComponentId) {
    m.Regular? && m.step.ControllerPass? && m.step.c == c
  }

  function RecordedIn(w: World, m: Move, c: ComponentId, applied: string): string {
    if OwnPass(m, c) then RecordedBy(w, c, m.step.o, m.step.v, applied) else applied
  }

  // No pass of the run takes over a tag older than `tag`
  ghost predicate Steadfast(w: World, run: seq<Move>, c: ComponentId, tag: string)
    requires ManagedThroughout(w, run, c)
    decreases |run|
  {
    run != [] ==> !TakenOverOlder(w, run[0], c, tag) && Steadfast(Moved(w, run[0]), run[1..], c, tag)
  }

  predicate TakenOverOlder(w: World, m: Move, c: ComponentId, tag: string) {
    OwnPass(m, c) && TakesOverOlder(w, c, m.step.o, m.step.v, tag)
  }

  lemma MoveKeepsVersions(w: World, m: Move)
    requires VersionsBelow(w) && Possible(w, m)
    ensures VersionsBelow(Moved(w, m))
  {
    hide VersionsBelow;
    hide VersionStep;
    hide Enabled;
    hide Next;
    match m {
      case Regular(s) => StepKeepsVersions(w, s);
      case Drift(chart, config) =>
        PutIsOneStep(w, chart, config);
        PutSteps(w, Put(w, chart, config), chart, config);
    }
    StepsAreBelow(w, Moved(w, m));
    hide Put;
  }

  lemma FloorFrame(w: World, w': World, c: ComponentId, tag: string)
    requires Floor(w, c, tag) && c in w'.patches && w'.patches[c].status == w.patches[c].status
    requires w'.patches[c].finalizer
    ensures Floor(w', c, tag)
  {
    hide AtLeast;
  }

  // No step but the component's own passes touches what it records
  lemma StatusKept(w: World, s: Step, c: ComponentId)
    requires VersionsBelow(w) && Enabled(w, s) && c in w.patches && w.patches[c].finalizer &&
             !(s.ControllerPass? && s.c == c)
    ensures var w' := Next(w, s);
            c in w'.patches && w'.patches[c].status == w.patches[c].status && w'.patches[c].finalizer
  {
    hide VersionsBelow;
    hide Enabled;
    hide Pass;
    hide PassStep;
    hide PassEffect;
    hide ImagePatchCommand;
    hide ReconcileCommand;
    match s {
      case ControllerPass(d, o, v) =>
        BelowIsVersioned(w, v.apply);
        PassIsAStep(w, d, o, v);
        OthersUntouched(w, Pass(w, d, o, v), d, o, PassEffect(w, d, o, v), c);
      case CliPatch(d, plan) => CliPatchRefuses(w, d, plan);
      case CliReconcile(d, version, keys, n, finished) => ReconcileKeepsOwners(w, d, version, keys, n, finished, c);
      case _ => EditsKeepStatus(w, s, c);
    }
  }

  lemma EditsKeepStatus(w: World, s: Step, c: ComponentId)
    requires Enabled(w, s) && c in w.patches && w.patches[c].finalizer
    requires !s.ControllerPass? && !s.CliPatch? && !s.CliReconcile?
    ensures var w' := Next(w, s);
            c in w'.patches && w'.patches[c].status == w.patches[c].status && w'.patches[c].finalizer
  {
    hide UnrelatedEdit;
    hide ToReconcile;
    hide Pass;
    hide ImagePatchCommand;
    hide ReconcileCommand;
  }

  lemma OthersUntouched(w: World, w': World, d: ComponentId, o: Observed, e: Effect, c: ComponentId)
    requires PassStep(w, w', d, o, e) && c != d && c in w.patches
    ensures c in w'.patches && w'.patches[c] == w.patches[c]
  {
    hide ConfigStep;
    hide OwnStep;
  }

  // A move of a managed component records what its own pass stores, and no other move records anything
  lemma MoveRecords(w: World, m: Move, c: ComponentId)
    requires VersionsBelow(w) && Possible(w, m) && Owned(w, c) && Owned(Moved(w, m), c)
    requires c in w.patches && w.patches[c].finalizer
    ensures var w' := Moved(w, m);
            c in w'.patches && w'.patches[c].finalizer &&
            w'.patches[c].status.appliedTag == RecordedIn(w, m, c, w.patches[c].status.appliedTag)
  {
    hide VersionsBelow;
    hide Owned;
    hide Enabled;
    hide Stores;
    hide Pass;
    hide PassEffect;
    if OwnPass(m, c) {
      OwnPassRecords(w, c, m.step.o, m.step.v);
    } else if m.Regular? {
      StatusKept(w, m.step, c);
      hide Next;
    }
  }

  lemma OwnPassRecords(w: World, c: ComponentId, o: Observed, v: Verdicts)
    requires VersionsBelow(w) && Owned(w, c) && Owned(Pass(w, c, o, v), c) && c in w.patches && w.patches[c].finalizer
    ensures var w' := Pass(w, c, o, v);
            c in w'.patches && w'.patches[c].finalizer &&
            w'.patches[c].status.appliedTag == RecordedBy(w, c, o, v, w.patches[c].status.appliedTag)
  {
    hide Pass;
    hide PassEffect;
    hide PassStep;
    hide TakesOver;
    hide Readable;
    hide Owned;
    hide VersionsBelow;
    hide Versioned;
    BelowIsVersioned(w, v.apply);
    PassIsAStep(w, c, o, v);
    if w.patches[c].deleting {
      DeletingKeeps(w, Pass(w, c, o, v), c, o, PassEffect(w, c, o, v));
    } else {
      FinalizerStays(w, Pass(w, c, o, v), c, o, PassEffect(w, c, o, v));
      RecordedTag(w, c, o, v);
    }
  }

  /** The recorded tag is exactly the one stored last, over any run in which the component stays
      managed, whatever fails, drifts or is edited in it. */
  lemma {:induction false} RunRecords(w: World, run: seq<Move>, c: ComponentId)
    requires VersionsBelow(w) && ManagedThroughout(w, run, c) && c in w.patches && w.patches[c].finalizer
    ensures var w' := AfterMoves(w, run, c);
            VersionsBelow(w') && Owned(w', c) && c in w'.patches && w'.patches[c].finalizer &&
            w'.patches[c].status.appliedTag == LastRecorded(w, run, c, w.patches[c].status.appliedTag)
    decreases |run|
  {
    hide VersionsBelow;
    hide Owned;
    hide Possible;
    hide Moved;
    hide RecordedIn;
    if run == [] {
    } else {
      ManagedHere(Moved(w, run[0]), run[1..], c);
      MoveRecords(w, run[0], c);
      MoveKeepsVersions(w, run[0]);
      RunRecords(Moved(w, run[0]), run[1..], c);
    }
  }

  lemma ManagedHere(w: World, run: seq<Move>, c: ComponentId)
    requires ManagedThroughout(w, run, c)
    ensures Owned(w, c)
  {
    hide Owned;
  }

  lemma MoveKeepsFloor(w: World, m: Move, c: ComponentId, tag: string)
    requires VersionsBelow(w) && Possible(w, m) && Owned(w, c) && Owned(Moved(w, m), c) && Floor(w, c, tag)
    requires !TakenOverOlder(w, m, c, tag)
    ensures Floor(Moved(w, m), c, tag)
  {
    hide VersionsBelow;
    hide Owned;
    hide Enabled;
    hide AtLeast;
    hide TakesOverOlder;
    hide Pass;
    if OwnPass(m, c) {
      BelowIsVersioned(w, m.step.v.apply);
      PassKeepsFloor(w, c, m.step.o, m.step.v, tag);
    } else if m.Regular? {
      StatusKept(w, m.step, c);
      hide Next;
      FloorFrame(w, Moved(w, m), c, tag);
    }
  }

  lemma {:induction false} RunKeepsFloor(w: World, run: seq<Move>, c: ComponentId, tag: string)
    requires VersionsBelow(w) && ManagedThroughout(w, run, c) && Steadfast(w, run, c, tag) && Floor(w, c, tag)
    ensures Floor(AfterMoves(w, run, c), c, tag)
    decreases |run|
  {
    hide VersionsBelow;
    hide Owned;
    hide Floor;
    hide Possible;
    hide Moved;
    hide TakenOverOlder;
    if run == [] {
    } else {
      ManagedHere(Moved(w, run[0]), run[1..], c);
      MoveKeepsFloor(w, run[0], c, tag);
      MoveKeepsVersions(w, run[0]);
      RunKeepsFloor(Moved(w, run[0]), run[1..], c, tag);
    }
  }

  // The pass that writes a tag, and the recorded tag it leaves
  lemma PatchRecords(w: World, c: ComponentId, o: Observed, v: Verdicts)
    requires VersionsBelow(w) && Enabled(w, ControllerPass(c, o, v)) && PassEffect(w, c, o, v).Patches?
    ensures var w', e := Pass(w, c, o, v), PassEffect(w, c, o, v);
            VersionsBelow(w') && c in w.patches && c in w'.patches && w'.patches[c].finalizer &&
            !w'.patches[c].deleting &&
            w'.patches[c].marker == None && w.patches[c].tag == e.tag && w'.patches[c].tag == e.tag &&
            ParseTag(e.tag).Some? &&
            w'.patches[c].status.appliedTag == RecordedBy(w, c, o, v, w.patches[c].status.appliedTag) &&
            (Stores(w, c, o, v) <==> v.apply.Acked? && Lands(v.status))
  {
    hide *;
    var w', e := Pass(w, c, o, v), PassEffect(w, c, o, v);
    BelowIsVersioned(w, v.apply);
    PassIsAStep(w, c, o, v);
    EnabledIsFair(w, c, o, v, e);
    PatchingPass(w, w', c, o, e);
    WriteIsChecked(w, w', c, o, e);
    SpecStays(w, w', c, o, e);
    PatchIsUnmarked(w, w', c, o, e);
    PassSteps(w, c, o, v);
    StepsAreBelow(w, w');
    if w.patches[c].finalizer {
      RecordedTag(w, c, o, v);
    } else {
      NewPatchRecords(w, c, o, v);
    }
    PatchTakesNothing(w, w', c, o, e);
    StoresWhenWriting(w, c, o, v);
  }

  lemma PatchIsUnmarked(w: World, w': World, c: ComponentId, o: Observed, e: Effect)
    requires PassStep(w, w', c, o, e) && e.Patches? && c in w.patches && c in w'.patches && !w.patches[c].deleting
    ensures w'.patches[c].marker == None
  {
    hide ConfigStep;
    hide MayPatch;
  }

  // Values that are written were not found in place
  lemma PatchTakesNothing(w: World, w': World, c: ComponentId, o: Observed, e: Effect)
    requires PassStep(w, w', c, o, e) && e.Patches? && c in w.patches && !w.patches[c].deleting
    ensures !TakesOver(w, c, o)
  {
    hide ConfigStep;
    hide ConfigOf;
    hide GeneratedValues;
    hide RepositoryFor;
    hide OthersStale;
    hide ManagedIn;
    hide Gates;
    hide Patcher.Present;
    hide Patcher.HasConflict;
    hide Policy.ValidateAgainstBaseline;
    hide Policy.ValidateTarget;
    hide Policy.ValidatePatchWindow;
    hide Policy.ValidateNotOlderThanCurrent;
  }

  lemma StoresWhenWriting(w: World, c: ComponentId, o: Observed, v: Verdicts)
    requires c in w.patches && !w.patches[c].deleting && PassEffect(w, c, o, v).Patches? && !TakesOver(w, c, o)
    ensures Stores(w, c, o, v) <==> v.apply.Acked? && Lands(v.status)
  {
    hide PassEffect;
    hide TakesOver;
    hide Lands;
  }

  lemma NewPatchRecords(w: World, c: ComponentId, o: Observed, v: Verdicts)
    requires c in w.patches && !w.patches[c].deleting && !w.patches[c].finalizer && Versioned(w, v.apply)
    requires PassEffect(w, c, o, v).Patches?
    ensures c in Pass(w, c, o, v).patches
    ensures Pass(w, c, o, v).patches[c].status.appliedTag == RecordedBy(w, c, o, v, w.patches[c].status.appliedTag)
  {
    hide Pass;
    hide StageEffect;
    hide TakesOver;
    hide Owned;
    hide Readable;
    hide Versioned;
    assert v.finalizer.Acked?;
    FinalizerThenRest(w, c, o, v);
    var w1 := UpdatePatch(w, c, w.patches[c].(finalizer := true), v.finalizer);
    VersionedFrame(w, w1, v.apply);
    RecordedTag(w1, c, o, v);
    assert PassEffect(w1, c, o, v) == PassEffect(w, c, o, v);
    PatchesSeeTheSame(w, w1, c, o, v);
  }

  // Putting the finalizer in place changes nothing a pass looks at
  lemma PatchesSeeTheSame(w: World, w1: World, c: ComponentId, o: Observed, v: Verdicts)
    requires c in w.patches && w1 == w.(patches := w.patches[c := w.patches[c].(finalizer := true)])
    requires PassEffect(w1, c, o, v) == PassEffect(w, c, o, v)
    ensures Stores(w1, c, o, v) == Stores(w, c, o, v)
  {
    OnlyPatches(w, w1, c, o);
    if Gates(w, c, o).Open? { CopyFindsTheSame(w, w1, c, w1.patches[c], o); }
    if Gates(w, c, o).Open? { CopyFindsTheSame(w1, w1, c, w1.patches[c], o); }
    hide PassEffect;
    hide FindsInPlace;
    hide Gates;
    if Gates(w, c, o).Shut? {
      ShutTakesNothing(w, c, o);
      ShutTakesNothing(w1, c, o);
    }
    hide TakesOver;
  }

  lemma FloorIs(w: World, c: ComponentId, tag: string)
    requires c in w.patches && w.patches[c].finalizer && w.patches[c].status.appliedTag == tag && ParseTag(tag).Some?
    ensures Floor(w, c, tag)
  {
    hide ParseTag;
    ComparisonFlips(ParseTag(tag).value, ParseTag(tag).value);
    hide CompareTags;
  }

  /* ---- When a rollback is possible ---- */

  // The cluster after an edit of the component's values and one of its spec
  ghost function Edited(w: World, c: ComponentId, config: HelmConfig, t: string, policy: UpgradePolicy): World
    requires c in w.patches
  {
    Next(Put(w, ChartOf(c), config), EditSpec(c, t, policy))
  }

  // After these edits this pass writes a tag that is not at least `tag`
  ghost predicate RollsBack(w: World, c: ComponentId, tag: string, config: HelmConfig, t: string, policy: UpgradePolicy,
                            o: Observed, v: Verdicts)
  {
    c in w.patches && Possible(w, Drift(ChartOf(c), config)) &&
    var w2 := Edited(w, c, config, t, policy);
    Enabled(w2, ControllerPass(c, o, v)) && PassEffect(w2, c, o, v).Patches? &&
    !AtLeast(PassEffect(w2, c, o, v).tag, tag)
  }

  ghost predicate CanRollBack(w: World, c: ComponentId, tag: string) {
    exists config, t, policy, o, v :: RollsBack(w, c, tag, config, t, policy, o, v)
  }

  // What the published tags, the window and the other components must allow for a write of `tag`
  predicate Allowed(w: World, c: ComponentId, o: Observed, baseline: string, version: string, tag: string) {
    o.configReadable && o.othersReadable && !OthersStale(w, version, c) &&
    o.tags.Some? && Policy.ValidateTarget(baseline, tag, o.tags.value).None? &&
    (Policy.IsPatchWindowExempt(c) || (o.zeroDay.Some? && Policy.ValidatePatchWindow(c, tag, o.zeroDay.value).None?))
  }

  // Every rule but the one about the recorded tag allows a write of `tag` over the managed values
  predicate Ready(w: World, c: ComponentId, o: Observed, tag: string) {
    c in w.patches && !w.patches[c].deleting && w.patches[c].finalizer && w.patches[c].marker == None &&
    Gates(w, c, o).Open? && o.images.Some? && tag != Gates(w, c, o).baseline &&
    Allowed(w, c, o, Gates(w, c, o).baseline, Gates(w, c, o).version, tag) &&
    Owned(w, c) && ManagedIn(w, c) == Gates(w, c, o).version
  }

  // The rule about the recorded tag
  predicate Permits(applied: string, tag: string) {
    applied != "" ==> Policy.ValidateNotOlderThanCurrent(applied, tag).None?
  }

  lemma AllowedIsWritten(w: World, c: ComponentId, ip: ImagePatch, baseline: string, version: string, o: Observed)
    requires Allowed(w, c, o, baseline, version, ip.tag) && ip.tag != baseline && o.images.Some?
    requires ip.marker != Some(ip.generation) && Owned(w, c) && ManagedIn(w, c) == version
    requires Permits(ip.status.appliedTag, ip.tag)
    requires ValuesOf(ConfigOf(w, c)).Map?
    requires !Patcher.Present(ValuesOf(ConfigOf(w, c)), GeneratedValues(c, RepositoryFor(c, o.images.value), ip.tag))
    ensures Decide(w, c, ip, baseline, version, o) ==
            Write(ip.(status := ip.status.(runningImages := o.images.value)), o.images.value)
  {
    hide ConfigOf;
    hide OthersStale;
    hide GeneratedValues;
    hide RepositoryFor;
    hide Patcher.Present;
    hide Patcher.HasConflict;
    hide Policy.ValidateTarget;
    hide Policy.ValidatePatchWindow;
    hide Policy.ValidateNotOlderThanCurrent;
  }

  // A tag that is ready, permitted and not in place is written
  lemma ReadyIsWritten(w: World, c: ComponentId, o: Observed, v: Verdicts)
    requires c in w.patches && Ready(w, c, o, w.patches[c].tag) && v.apply.Acked?
    requires Permits(w.patches[c].status.appliedTag, w.patches[c].tag) && ValuesOf(ConfigOf(w, c)).Map?
    requires !Patcher.Present(ValuesOf(ConfigOf(w, c)),
                              GeneratedValues(c, RepositoryFor(c, o.images.value), w.patches[c].tag))
    ensures PassEffect(w, c, o, v).Patches? && PassEffect(w, c, o, v).tag == w.patches[c].tag
  {
    hide Gates;
    hide Decide;
    hide ConfigOf;
    hide RepositoryFor;
    hide GeneratedValues;
    hide OthersStale;
    hide Permits;
    hide Patcher.Present;
    hide Policy.ValidateTarget;
    hide Policy.ValidatePatchWindow;
    var ip, g := w.patches[c], Gates(w, c, o);
    assert ip.(finalizer := true) == ip;
    AllowedIsWritten(w, c, ip.(status := ip.status.(baselineTag := g.baseline)), g.baseline, g.version, o);
  }

  lemma SameIsPermitted(tag: string)
    ensures Permits(tag, tag)
  {
    hide ParseTag;
    if ParseTag(tag).Some? { ComparisonFlips(ParseTag(tag).value, ParseTag(tag).value); }
    hide CompareTags;
  }

  lemma NoTagPermitsAll(applied: string, tag: string)
    requires ParseTag(applied).None?
    ensures Permits(applied, tag)
  {
    hide ParseTag;
  }

  lemma FloorForbids(w: World, c: ComponentId, tag: string)
    requires VersionsBelow(w) && Floor(w, c, tag)
    ensures !CanRollBack(w, c, tag)
  {
    hide VersionsBelow;
    hide Possible;
    hide Enabled;
    hide PassEffect;
    hide Edited;
    hide AtLeast;
    hide ChartOf;
    if CanRollBack(w, c, tag) {
      var config, t, policy, o, v :| RollsBack(w, c, tag, config, t, policy, o, v);
      var w2 := Edited(w, c, config, t, policy);
      EditedKeeps(w, c, config, t, policy);
      BelowIsVersioned(w2, v.apply);
      PassIsAStep(w2, c, o, v);
      WriteIsAtLeast(w2, Pass(w2, c, o, v), c, o, PassEffect(w2, c, o, v), tag);
    }
  }

  // Edits of values and spec leave the recorded tag and the finalizer
  lemma EditedKeeps(w: World, c: ComponentId, config: HelmConfig, t: string, policy: UpgradePolicy)
    requires VersionsBelow(w) && c in w.patches
    ensures var w2 := Edited(w, c, config, t, policy);
            VersionsBelow(w2) && w2.configs == Put(w, ChartOf(c), config).configs && w2.cli == w.cli &&
            c in w2.patches &&
            w2.patches[c].status == w.patches[c].status && w2.patches[c].finalizer == w.patches[c].finalizer &&
            w2.patches[c].deleting == w.patches[c].deleting && w2.patches[c].marker == w.patches[c].marker &&
            w2.patches[c].tag == t
  {
    hide ChartOf;
    hide Pass;
    hide ImagePatchCommand;
    hide ReconcileCommand;
  }

  // The recorded tag itself, or while none is recorded any older tag
  predicate Returns(w: World, c: ComponentId, t: string, tag: string)
    requires c in w.patches
  {
    var applied := w.patches[c].status.appliedTag;
    if ParseTag(applied).Some? then t == applied else !AtLeast(t, tag)
  }

  lemma ReturnsIsOlder(w: World, c: ComponentId, t: string, tag: string)
    requires c in w.patches && Returns(w, c, t, tag) && !AtLeast(w.patches[c].status.appliedTag, tag)
    ensures Permits(w.patches[c].status.appliedTag, t) && !AtLeast(t, tag)
  {
    hide ParseTag;
    var applied := w.patches[c].status.appliedTag;
    if ParseTag(applied).Some? { SameIsPermitted(applied); } else { NoTagPermitsAll(applied, t); }
    hide Permits;
    hide AtLeast;
  }

  // Values emptied by an edit that leaves the annotations alone
  lemma EmptiedIsReady(w: World, c: ComponentId, o: Observed, t: string)
    requires VersionsBelow(w) && Ready(w, c, o, t)
    ensures c in w.patches && ChartOf(c) in w.configs
    ensures var config, policy := w.configs[ChartOf(c)].(values := EMPTY), w.patches[c].policy;
            var w2 := Edited(w, c, config, t, policy);
            Possible(w, Drift(ChartOf(c), config)) && c in w2.patches && Ready(w2, c, o, t) && w2.patches[c].tag == t &&
            w2.patches[c].status == w.patches[c].status && ValuesOf(ConfigOf(w2, c)) == EMPTY
  {
    ReadyHasConfig(w, c, o, t);
    var config, policy := w.configs[ChartOf(c)].(values := EMPTY), w.patches[c].policy;
    var w2 := Edited(w, c, config, t, policy);
    hide *;
    EditedKeeps(w, c, config, t, policy);
    EmptiedOwns(w, w2, ChartOf(c), config);
    EmptiedValues(w, w2, c, config);
    ReadyFrame(w, w2, c, o, t);
  }

  lemma ReadyHasConfig(w: World, c: ComponentId, o: Observed, t: string)
    requires Ready(w, c, o, t)
    ensures c in w.patches && ChartOf(c) in w.configs
  {
    hide ChartOf;
    hide Gates;
    hide Allowed;
  }

  lemma ReadyFrame(w: World, w2: World, c: ComponentId, o: Observed, t: string)
    requires Ready(w, c, o, t) && w2.cli == w.cli && forall d :: ManagedIn(w2, d) == ManagedIn(w, d)
    requires c in w2.patches && w2.patches[c].finalizer == w.patches[c].finalizer
    requires w2.patches[c].deleting == w.patches[c].deleting && w2.patches[c].marker == w.patches[c].marker
    ensures Ready(w2, c, o, t)
  {
    hide Gates;
    hide ManagedIn;
    hide Policy.ValidateTarget;
    hide Policy.ValidatePatchWindow;
    OthersFollow(w, w2, c, Gates(w, c, o).version);
    GatesFrame(w, w2, c, o);
    hide OthersStale;
  }

  lemma EmptiedOwns(w: World, w2: World, chart: Chart, config: HelmConfig)
    requires chart in w.configs && config == w.configs[chart].(values := EMPTY)
    requires w2.configs == Put(w, chart, config).configs
    ensures forall d :: ManagedIn(w2, d) == ManagedIn(w, d)
    ensures Possible(w, Drift(chart, config))
  {
    hide Enabled;
  }

  lemma EmptiedValues(w: World, w2: World, c: ComponentId, config: HelmConfig)
    requires config.values == EMPTY && w2.configs == Put(w, ChartOf(c), config).configs
    ensures ValuesOf(ConfigOf(w2, c)) == EMPTY
  {
    hide ChartOf;
  }

  lemma OthersFollow(w: World, w2: World, c: ComponentId, version: string)
    requires forall d :: ManagedIn(w2, d) == ManagedIn(w, d)
    ensures OthersStale(w2, version, c) == OthersStale(w, version, c)
  {
    hide ManagedIn;
  }

  lemma GatesFrame(w: World, w2: World, c: ComponentId, o: Observed)
    requires w2.cli == w.cli
    ensures Gates(w2, c, o) == Gates(w, c, o)
  {
    hide Patcher.BundledOf;
  }

  lemma NothingInEmpty(c: ComponentId, r: string, t: string)
    ensures !Patcher.Present(EMPTY, GeneratedValues(c, r, t))
  {
    FirstPathHoldsTag(c, r, t);
    hide GeneratedValues;
    hide TagPaths;
    var g, path := GeneratedValues(c, r, t), TagPaths(c)[0];
    assert path != [] && path[0] in g.entries;
    assert !Patcher.PresentAt(EMPTY, g, path[0]);
  }

  lemma UnrecordedRollsBack(w: World, c: ComponentId, o: Observed, t: string, tag: string)
    requires VersionsBelow(w) && Ready(w, c, o, t) && Returns(w, c, t, tag)
    requires !AtLeast(w.patches[c].status.appliedTag, tag)
    ensures CanRollBack(w, c, tag)
  {
    hide VersionsBelow;
    hide Possible;
    hide AtLeast;
    hide Returns;
    hide Permits;
    hide PassEffect;
    hide Edited;
    hide ConfigOf;
    hide GeneratedValues;
    hide RepositoryFor;
    hide ChartOf;
    hide Patcher.Present;
    EmptiedIsReady(w, c, o, t);
    var config, policy := w.configs[ChartOf(c)].(values := EMPTY), w.patches[c].policy;
    var w2 := Edited(w, c, config, t, policy);
    ReadySees(w2, c, o, t);
    hide Ready;
    ReturnsIsOlder(w, c, t, tag);
    NothingInEmpty(c, RepositoryFor(c, o.images.value), t);
    ReadyIsWritten(w2, c, o, SMOOTH);
    assert RollsBack(w, c, tag, config, t, policy, o, SMOOTH);
  }

  lemma ReadySees(w: World, c: ComponentId, o: Observed, t: string)
    requires Ready(w, c, o, t)
    ensures o.images.Some? && Enabled(w, ControllerPass(c, o, SMOOTH))
  {
    hide Patcher.BundledOf;
    hide OthersStale;
    hide ConfigOf;
    hide Policy.ValidateTarget;
    hide Policy.ValidatePatchWindow;
  }

  /** As long as the tag stored last is not older than a written one, no edits let a pass roll it back. */
  lemma RecordedTagIsSafe(w: World, c: ComponentId, o: Observed, v: Verdicts, run: seq<Move>)
    requires VersionsBelow(w) && Enabled(w, ControllerPass(c, o, v)) && PassEffect(w, c, o, v).Patches? &&
             c in w.patches
    requires ManagedThroughout(Pass(w, c, o, v), run, c)
    requires AtLeast(LastRecorded(Pass(w, c, o, v), run, c, RecordedBy(w, c, o, v, w.patches[c].status.appliedTag)),
                     PassEffect(w, c, o, v).tag)
    ensures !CanRollBack(AfterMoves(Pass(w, c, o, v), run, c), c, PassEffect(w, c, o, v).tag)
  {
    hide *;
    var w1, tag := Pass(w, c, o, v), PassEffect(w, c, o, v).tag;
    PatchRecords(w, c, o, v);
    RunRecords(w1, run, c);
    RecordedIsFloor(AfterMoves(w1, run, c), c, tag);
    FloorForbids(AfterMoves(w1, run, c), c, tag);
  }

  /** When a tag can be rolled back: let a pass write a tag, with whatever luck, and let any run follow
      in which the component stays managed. Some edits and one more pass write an older tag exactly when
      the tag stored last, in the pass itself or in the run, is not at least the one written. The other
      rules are taken to allow that stored tag still, or some older tag while none is stored. */
  lemma RollbackIsPossibleExactly(w: World, c: ComponentId, o: Observed, v: Verdicts, run: seq<Move>, o': Observed,
                                  t: string)
    requires VersionsBelow(w) && Enabled(w, ControllerPass(c, o, v)) && PassEffect(w, c, o, v).Patches? &&
             c in w.patches
    requires ManagedThroughout(Pass(w, c, o, v), run, c)
    requires var w2 := AfterMoves(Pass(w, c, o, v), run, c);
             Ready(w2, c, o', t) && Returns(w2, c, t, PassEffect(w, c, o, v).tag)
    ensures var w1, tag := Pass(w, c, o, v), PassEffect(w, c, o, v).tag;
            CanRollBack(AfterMoves(w1, run, c), c, tag) <==>
            !AtLeast(LastRecorded(w1, run, c, RecordedBy(w, c, o, v, w.patches[c].status.appliedTag)), tag)
  {
    hide *;
    var w1, tag := Pass(w, c, o, v), PassEffect(w, c, o, v).tag;
    PatchRecords(w, c, o, v);
    RunRecords(w1, run, c);
    if AtLeast(AfterMoves(w1, run, c).patches[c].status.appliedTag, tag) {
      RecordedTagIsSafe(w, c, o, v, run);
    } else {
      UnrecordedRollsBack(AfterMoves(w1, run, c), c, o', t, tag);
    }
  }

  lemma RecordedIsFloor(w: World, c: ComponentId, tag: string)
    requires c in w.patches && w.patches[c].finalizer && AtLeast(w.patches[c].status.appliedTag, tag)
    ensures Floor(w, c, tag)
  {
    hide AtLeast;
  }

  /** Between two reverts the written tags never go down: after a write that is acknowledged and whose
      status is stored, and any run in which the component stays managed and no pass takes over an older
      tag, no edits let a pass write an older one, whatever failed or drifted in the run. */
  lemma TagsNeverGoDown(w: World, c: ComponentId, o: Observed, v: Verdicts, run: seq<Move>)
    requires VersionsBelow(w) && Enabled(w, ControllerPass(c, o, v)) && PassEffect(w, c, o, v).Patches?
    requires v.apply.Acked? && Lands(v.status)
    requires ManagedThroughout(Pass(w, c, o, v), run, c) &&
             Steadfast(Pass(w, c, o, v), run, c, PassEffect(w, c, o, v).tag)
    ensures !CanRollBack(AfterMoves(Pass(w, c, o, v), run, c), c, PassEffect(w, c, o, v).tag)
  {
    hide *;
    var w1, tag := Pass(w, c, o, v), PassEffect(w, c, o, v).tag;
    RecordedWriteIsFloor(w, c, o, v);
    PatchRecords(w, c, o, v);
    RunKeepsFloor(w1, run, c, tag);
    RunRecords(w1, run, c);
    FloorForbids(AfterMoves(w1, run, c), c, tag);
  }

  lemma RecordedWriteIsFloor(w: World, c: ComponentId, o: Observed, v: Verdicts)
    requires VersionsBelow(w) && Enabled(w, ControllerPass(c, o, v)) && PassEffect(w, c, o, v).Patches?
    requires v.apply.Acked? && Lands(v.status)
    ensures Floor(Pass(w, c, o, v), c, PassEffect(w, c, o, v).tag)
  {
    hide *;
    PatchRecords(w, c, o, v);
    WhenStored(w, c, o, v);
    FloorIs(Pass(w, c, o, v), c, PassEffect(w, c, o, v).tag);
  }

  lemma WhenStored(w: World, c: ComponentId, o: Observed, v: Verdicts)
    requires c in w.patches
    ensures RecordedBy(w, c, o, v, w.patches[c].status.appliedTag) ==
            if Stores(w, c, o, v) then w.patches[c].tag else w.patches[c].status.appliedTag
  {
    hide Stores;
  }

  /* ---- Both conditions are needed ---- */

  /** The write must be recorded: when it lands but its reply is lost, the client crashes, or the status
      is not stored, the old tag stays recorded; and once the spec asks for that tag again, the next pass
      that is allowed to writes it over the newer one. Nothing has drifted and nothing is taken over. */
  lemma UnrecordedWriteRollsBack(w: World, c: ComponentId, o: Observed, v: Verdicts, policy: UpgradePolicy,
                                 o': Observed, v': Verdicts)
    requires VersionsBelow(w) && Enabled(w, ControllerPass(c, o, v)) && PassEffect(w, c, o, v).Patches? &&
             c in w.patches
    requires !(v.apply.Acked? && Lands(v.status)) && w.patches[c].status.appliedTag != PassEffect(w, c, o, v).tag
    requires var w1 := Pass(w, c, o, v);
             Enabled(w1, EditSpec(c, w.patches[c].status.appliedTag, policy)) && v'.apply.Acked? &&
             Ready(Next(w1, EditSpec(c, w.patches[c].status.appliedTag, policy)), c, o', w.patches[c].status.appliedTag)
    ensures var old' := w.patches[c].status.appliedTag;
            var w2 := Next(Pass(w, c, o, v), EditSpec(c, old', policy));
            PassEffect(w2, c, o', v').Patches? && PassEffect(w2, c, o', v').tag == old' && !TakesOver(w2, c, o')
  {
    hide *;
    var w1, e, old' := Pass(w, c, o, v), PassEffect(w, c, o, v), w.patches[c].status.appliedTag;
    var w2 := Next(w1, EditSpec(c, old', policy));
    PatchRecords(w, c, o, v);
    WhenStored(w, c, o, v);
    BelowIsVersioned(w, v.apply);
    PassIsAStep(w, c, o, v);
    PatchedIsPresent(w, w1, c, o, e);
    SpecEdited(w1, c, old', policy);
    SameConfigsSame(w1, w2, c);
    ReadySees(w2, c, o', old');
    PatchedIsMap(w, w1, c, o, e);
    SameConfigsValues(w1, w2, c);
    OtherTagIsAbsent(w2, c, e.repository, e.tag, RepositoryFor(c, o'.images.value), old');
    SameIsPermitted(old');
    ReadyIsWritten(w2, c, o', v');
    AbsentIsNotTaken(w2, c, o');
  }

  lemma PatchedIsPresent(w: World, w': World, c: ComponentId, o: Observed, e: Effect)
    requires PassStep(w, w', c, o, e) && e.Patches?
    ensures Patcher.Present(TreeOf(w', c), GeneratedValues(c, e.repository, e.tag))
  {
    StepHasConfig(w, w', c, o, e);
    TreeFollows(w, w', c, e, c);
    Patcher.MergedIsPresent(TreeOf(w, c), GeneratedValues(c, e.repository, e.tag));
    hide PassStep;
    hide TreeOf;
    hide GeneratedValues;
    hide Patcher.Present;
  }

  lemma PatchedIsMap(w: World, w': World, c: ComponentId, o: Observed, e: Effect)
    requires PassStep(w, w', c, o, e) && e.Patches?
    ensures ValuesOf(ConfigOf(w', c)).Map?
  {
    StepHasConfig(w, w', c, o, e);
    hide PassStep;
    hide ChartOf;
    hide GeneratedValues;
  }

  lemma SameConfigsValues(w: World, w': World, c: ComponentId)
    requires w'.configs == w.configs
    ensures ValuesOf(ConfigOf(w', c)) == ValuesOf(ConfigOf(w, c))
  {
    hide ChartOf;
  }

  lemma SpecEdited(w: World, c: ComponentId, t: string, policy: UpgradePolicy)
    requires Enabled(w, EditSpec(c, t, policy))
    ensures var w2 := Next(w, EditSpec(c, t, policy));
            w2.configs == w.configs && c in w.patches && c in w2.patches && w2.patches[c].tag == t &&
            w2.patches[c].status == w.patches[c].status
  {
    hide Pass;
    hide ImagePatchCommand;
    hide ReconcileCommand;
    hide UnrelatedEdit;
    hide ToReconcile;
  }

  lemma OtherTagIsAbsent(w: World, c: ComponentId, r: string, a: string, s: string, b: string)
    requires Patcher.Present(TreeOf(w, c), GeneratedValues(c, r, a)) && a != b && ValuesOf(ConfigOf(w, c)).Map?
    ensures !Patcher.Present(ValuesOf(ConfigOf(w, c)), GeneratedValues(c, s, b))
  {
    hide *;
    PresentInTree(w, c, EMPTY);
    if Patcher.Present(ValuesOf(ConfigOf(w, c)), GeneratedValues(c, s, b)) {
      OneTagIsSet(TreeOf(w, c), c, r, a, s, b);
    }
  }

  lemma AbsentIsNotTaken(w: World, c: ComponentId, o: Observed)
    requires o.images.Some? && c in w.patches && ValuesOf(ConfigOf(w, c)).Map?
    requires !Patcher.Present(ValuesOf(ConfigOf(w, c)),
                              GeneratedValues(c, RepositoryFor(c, o.images.value), w.patches[c].tag))
    ensures !TakesOver(w, c, o)
  {
    hide Gates;
    hide ConfigOf;
    hide ManagedOn;
    hide GeneratedValues;
    hide RepositoryFor;
    hide Patcher.Present;
    hide Policy.ValidateAgainstBaseline;
  }

  /** No older tag may be taken over: whenever a pass takes over the spec's tag from the HelmChartConfig,
      the next pass after that value drifted away writes the tag, however much older it is than the tag
      recorded before. */
  lemma TakenOverTagIsWritten(w: World, c: ComponentId, o: Observed, v: Verdicts, config: HelmConfig, v': Verdicts)
    requires c in w.patches && !w.patches[c].deleting && w.patches[c].finalizer && w.patches[c].marker == None
    requires TakesOver(w, c, o) && o.configReadable && !v.apply.Raced? && Lands(v.status) && v'.apply.Acked?
    requires Possible(Pass(w, c, o, v), Drift(ChartOf(c), config)) && config.values.Map?
    requires !Patcher.Present(config.values, GeneratedValues(c, RepositoryFor(c, o.images.value), w.patches[c].tag))
    requires var w2 := Put(Pass(w, c, o, v), ChartOf(c), config);
             Allowed(w2, c, o, Gates(w, c, o).baseline, Gates(w, c, o).version, w.patches[c].tag)
    ensures var e := PassEffect(Put(Pass(w, c, o, v), ChartOf(c), config), c, o, v');
            e.Patches? && e.tag == w.patches[c].tag
  {
    hide *;
    var w1 := Pass(w, c, o, v);
    var w2 := Put(w1, ChartOf(c), config);
    UnracedIsVersioned(w, v.apply);
    TakeoverIsReadable(w, c, o, v);
    TakeoverWritesNothing(w, c, o, v);
    OwnedAlike(w, w1, c);
    RecordedTag(w, c, o, v);
    WhenStored(w, c, o, v);
    TakeoverStores(w, c, o, v);
    AfterTakeover(w, w1, w2, c, o, config);
    ReadyIs(w2, c, o, w.patches[c].tag);
    SameIsPermitted(w.patches[c].tag);
    ReadyIsWritten(w2, c, o, v');
  }

  lemma TakeoverStores(w: World, c: ComponentId, o: Observed, v: Verdicts)
    requires c in w.patches && !w.patches[c].deleting && TakesOver(w, c, o) && Readable(w.patches[c], o, v) &&
             Lands(v.status)
    ensures Stores(w, c, o, v)
  {
    hide TakesOver;
    hide PassEffect;
  }

  lemma ReadyIs(w: World, c: ComponentId, o: Observed, tag: string)
    requires c in w.patches && !w.patches[c].deleting && w.patches[c].finalizer && w.patches[c].marker == None
    requires Gates(w, c, o).Open? && o.images.Some? && tag != Gates(w, c, o).baseline
    requires Allowed(w, c, o, Gates(w, c, o).baseline, Gates(w, c, o).version, tag)
    requires Owned(w, c) && ManagedIn(w, c) == Gates(w, c, o).version
    ensures Ready(w, c, o, tag)
  {
    hide Gates;
    hide Allowed;
    hide Owned;
    hide ManagedIn;
  }

  lemma TakeoverWritesNothing(w: World, c: ComponentId, o: Observed, v: Verdicts)
    requires c in w.patches && !w.patches[c].deleting && w.patches[c].marker == None
    requires TakesOver(w, c, o) && !v.apply.Raced?
    ensures var w1 := Pass(w, c, o, v);
            w1.configs == w.configs && w1.cli == w.cli && c in w1.patches && !w1.patches[c].deleting &&
            w1.patches[c].tag == w.patches[c].tag && w1.patches[c].marker == None &&
            (w.patches[c].finalizer ==> w1.patches[c].finalizer)
  {
    hide *;
    var w1, e := Pass(w, c, o, v), PassEffect(w, c, o, v);
    UnracedIsVersioned(w, v.apply);
    PassIsAStep(w, c, o, v);
    NotRaced(e, v);
    TakeoverIsNoWrite(w, w1, c, o, e);
  }

  lemma TakeoverIsNoWrite(w: World, w1: World, c: ComponentId, o: Observed, e: Effect)
    requires PassStep(w, w1, c, o, e) && !e.Overtaken? && TakesOver(w, c, o)
    requires !w.patches[c].deleting && w.patches[c].marker == None
    ensures w1.configs == w.configs && w1.cli == w.cli && c in w1.patches && !w1.patches[c].deleting
    ensures w1.patches[c].tag == w.patches[c].tag && w1.patches[c].marker == None
    ensures w.patches[c].finalizer ==> w1.patches[c].finalizer
  {
    hide Gates;
    hide ConfigOf;
    hide ManagedOn;
    hide GeneratedValues;
    hide RepositoryFor;
    hide OthersStale;
    hide Patcher.Present;
    hide Patcher.HasConflict;
    hide Policy.ValidateAgainstBaseline;
    hide Policy.ValidateTarget;
    hide Policy.ValidatePatchWindow;
    hide Policy.ValidateNotOlderThanCurrent;
  }

  // The drift changes the values alone
  lemma AfterTakeover(w: World, w1: World, w2: World, c: ComponentId, o: Observed, config: HelmConfig)
    requires w1.configs == w.configs && w1.cli == w.cli
    requires w2 == Put(w1, ChartOf(c), config) && Possible(w1, Drift(ChartOf(c), config))
    ensures Gates(w2, c, o) == Gates(w, c, o) && ManagedIn(w2, c) == ManagedIn(w, c) && w2.patches == w1.patches
    ensures Owned(w2, c) == Owned(w, c)
    ensures ConfigOf(w2, c).Some? && ValuesOf(ConfigOf(w2, c)) == config.values
  {
    hide Patcher.BundledOf;
    hide Enabled;
  }

  lemma TakeoverIsReadable(w: World, c: ComponentId, o: Observed, v: Verdicts)
    requires TakesOver(w, c, o) && o.configReadable && w.patches[c].marker == None
    ensures Readable(w.patches[c], o, v) && Owned(w, c) && Gates(w, c, o).Open? && o.images.Some?
    ensures w.patches[c].tag != Gates(w, c, o).baseline && ManagedIn(w, c) == Gates(w, c, o).version
  {
    hide Gates;
    hide ManagedIn;
    hide ConfigOf;
    hide GeneratedValues;
    hide RepositoryFor;
    hide Patcher.Present;
  }

  /* ---- Runs with edits of unrelated values only ---- */

  // The object still sets a tag some pass wrote, and that tag is not older than `tag`
  ghost predicate StillSets(w: World, c: ComponentId, tag: string) {
    exists r, t :: Patcher.Present(TreeOf(w, c), GeneratedValues(c, r, t)) && AtLeast(t, tag)
  }

  lemma {:induction false} SameLeaf(t: Tree, g: Tree, h: Tree, path: seq<string>, a: string, b: string)
    requires Patcher.Present(t, g) && Patcher.Present(t, h) && path != []
    requires LeadsTo(g, path, a) && LeadsTo(h, path, b)
    ensures a == b
    decreases path
  {
    var k := path[0];
    assert Patcher.PresentAt(t, g, k) && Patcher.PresentAt(t, h, k);
    OneStep(g, path, a);
    OneStep(h, path, b);
    if path[1..] == [] {
      assert g.entries[k] == Str(a) && h.entries[k] == Str(b);
    } else {
      SameLeaf(t.entries[k], g.entries[k], h.entries[k], path[1..], a, b);
    }
  }

  // An object sets one tag for a component
  lemma OneTagIsSet(t: Tree, c: ComponentId, r: string, a: string, s: string, b: string)
    requires Patcher.Present(t, GeneratedValues(c, r, a)) && Patcher.Present(t, GeneratedValues(c, s, b))
    ensures a == b
  {
    var path := TagPaths(c)[0];
    FirstPathHoldsTag(c, r, a);
    FirstPathHoldsTag(c, s, b);
    hide GeneratedValues;
    hide TagPaths;
    SameLeaf(t, GeneratedValues(c, r, a), GeneratedValues(c, s, b), path, a, b);
  }

  lemma PatchSets(w: World, w': World, c: ComponentId, o: Observed, e: Effect, tag: string)
    requires PassStep(w, w', c, o, e) && e.Patches? && AtLeast(e.tag, tag)
    ensures StillSets(w', c, tag)
  {
    hide PassStep;
    hide TreeOf;
    hide GeneratedValues;
    hide Patcher.Present;
    hide AtLeast;
    PatchedIsPresent(w, w', c, o, e);
  }

  lemma AgreementKeepsSetting(w: World, w': World, c: ComponentId, tag: string)
    requires StillSets(w, c, tag) && AgreeOn(TreeOf(w, c), TreeOf(w', c), Shape(c))
    ensures StillSets(w', c, tag)
  {
    hide TreeOf;
    hide Shape;
    hide AtLeast;
    hide GeneratedValues;
    var r, t :| Patcher.Present(TreeOf(w, c), GeneratedValues(c, r, t)) && AtLeast(t, tag);
    StillPresent(TreeOf(w, c), TreeOf(w', c), c, r, t);
    hide Patcher.Present;
  }

  // What is found in place is then no older
  lemma NothingOlderInPlace(w: World, c: ComponentId, o: Observed, v: Verdicts, tag: string)
    requires StillSets(w, c, tag)
    ensures !TakesOverOlder(w, c, o, v, tag)
  {
    hide Readable;
    hide AtLeast;
    hide Gates;
    hide ConfigOf;
    hide GeneratedValues;
    hide RepositoryFor;
    hide Patcher.Present;
    hide Policy.ValidateAgainstBaseline;
    if c in w.patches && TakesOver(w, c, o) {
      PresentInTree(w, c, EMPTY);
      var r, t :| Patcher.Present(TreeOf(w, c), GeneratedValues(c, r, t)) && AtLeast(t, tag);
      OneTagIsSet(TreeOf(w, c), c, r, t, RepositoryFor(c, o.images.value), w.patches[c].tag);
    }
  }

  ghost predicate Undrifted(w: World, c: ComponentId, tag: string) {
    Owned(w, c) && Floor(w, c, tag) && StillSets(w, c, tag)
  }

  lemma OwnPassUndrifted(w: World, c: ComponentId, o: Observed, v: Verdicts, tag: string)
    requires Versioned(w, v.apply) && Enabled(w, ControllerPass(c, o, v)) && Undrifted(w, c, tag) &&
             Owned(Pass(w, c, o, v), c)
    ensures Undrifted(Pass(w, c, o, v), c, tag)
  {
    hide *;
    var w', e := Pass(w, c, o, v), PassEffect(w, c, o, v);
    UndriftedHas(w, c, tag);
    NothingOlderInPlace(w, c, o, v, tag);
    PassKeepsFloor(w, c, o, v, tag);
    PassIsAStep(w, c, o, v);
    EnabledIsFair(w, c, o, v, e);
    OthersOwnedAlike(w, w', c, o, e, c);
    NotWriting(e);
    WritingIs(e);
    if e.Patches? {
      PatchSets(w, w', c, o, e, tag);
    } else if !e.Reverts? {
      StepParts(w, w', c, o, e);
      OwnAgrees(w, w', c, e);
      AgreementKeepsSetting(w, w', c, tag);
    } else {
      OwnedIs(w', c);
    }
    UndriftedIs(w', c, tag);
  }

  lemma UndriftedHas(w: World, c: ComponentId, tag: string)
    requires Undrifted(w, c, tag)
    ensures Owned(w, c) && Floor(w, c, tag) && StillSets(w, c, tag)
  {
  }

  lemma UndriftedIs(w: World, c: ComponentId, tag: string)
    requires Owned(w, c) && Floor(w, c, tag) && StillSets(w, c, tag)
    ensures Undrifted(w, c, tag)
  {
  }

  lemma OwnedIs(w: World, c: ComponentId)
    ensures Owned(w, c) <==> ManagedIn(w, c) != ""
  {
    hide ManagedIn;
  }

  // Every other step leaves the values of a managed component that shares no leaf with another
  lemma OthersLeaveValues(w: World, s: Step, c: ComponentId)
    requires Invariant(w) && Enabled(w, s) && PathDisjoint(c) && Owned(w, c) && !(s.ControllerPass? && s.c == c)
    ensures AgreeOn(TreeOf(w, c), TreeOf(Next(w, s), c), Shape(c))
  {
    hide Invariant;
    hide Enabled;
    hide Pass;
    hide PassEffect;
    hide Owned;
    hide TreeOf;
    hide Shape;
    hide PathDisjoint;
    hide ImagePatchCommand;
    hide ReconcileCommand;
    hide Put;
    InvariantHas(w);
    AgreeRefl(TreeOf(w, c), Shape(c));
    match s {
      case ControllerPass(d, o, v) =>
        BelowIsVersioned(w, v.apply);
        PassIsAStep(w, d, o, v);
        EnabledIsFair(w, d, o, v, PassEffect(w, d, o, v));
        StepParts(w, Pass(w, d, o, v), d, o, PassEffect(w, d, o, v));
        OtherAgrees(w, Pass(w, d, o, v), d, PassEffect(w, d, o, v), c);
      case EditConfig(chart, config) => EditLeavesValues(w, chart, config, c);
      case CliPatch(d, plan) =>
        OwnedHasPatch(w, c);
        CliPatchRefuses(w, d, plan);
      case CliReconcile(d, version, keys, n, finished) =>
        OwnedMeansNoEntries(w, c);
        NothingToReconcile(w, d, version, keys, n, finished);
      case _ => SameConfigsSame(w, Next(w, s), c);
    }
    hide Next;
  }

  lemma OwnedHasPatch(w: World, c: ComponentId)
    requires FinalizerHeld(w) && Owned(w, c)
    ensures c in w.patches && w.patches[c].finalizer
  {
    hide Owned;
  }

  lemma EditLeavesValues(w: World, chart: Chart, config: HelmConfig, c: ComponentId)
    requires Enabled(w, EditConfig(chart, config))
    ensures AgreeOn(TreeOf(w, c), TreeOf(Put(w, chart, config), c), Shape(c))
  {
    hide TreeOf;
    hide Shape;
    hide Put;
    hide ToReconcile;
    EditedConfig(w, chart, config, c);
    AgreeRefl(TreeOf(w, c), Shape(c));
    if ChartOf(c) == chart { EditAgrees(w, chart, config, c); }
    hide UnrelatedEdit;
  }

  lemma StepUndrifted(w: World, s: Step, c: ComponentId, tag: string)
    requires Invariant(w) && Enabled(w, s) && PathDisjoint(c) && Undrifted(w, c, tag) && Owned(Next(w, s), c)
    ensures Undrifted(Next(w, s), c, tag)
  {
    hide Invariant;
    hide Enabled;
    hide Undrifted;
    hide Owned;
    hide PathDisjoint;
    hide Pass;
    InvariantHas(w);
    if s.ControllerPass? && s.c == c {
      BelowIsVersioned(w, s.v.apply);
      OwnPassUndrifted(w, c, s.o, s.v, tag);
    } else {
      hide Next;
      UndriftedHas(w, c, tag);
      FloorHas(w, c, tag);
      StatusKept(w, s, c);
      FloorFrame(w, Next(w, s), c, tag);
      OthersLeaveValues(w, s, c);
      AgreementKeepsSetting(w, Next(w, s), c, tag);
      UndriftedIs(Next(w, s), c, tag);
    }
  }

  lemma FloorHas(w: World, c: ComponentId, tag: string)
    requires Floor(w, c, tag)
    ensures c in w.patches && w.patches[c].finalizer
  {
    hide AtLeast;
  }

  ghost predicate StaysManaged(w: World, run: seq<Step>, c: ComponentId)
    requires Legal(w, run)
    decreases |run|
  {
    Owned(w, c) && (run != [] ==> StaysManaged(Next(w, run[0]), run[1..], c))
  }

  lemma {:induction false} RunUndrifted(w: World, run: seq<Step>, c: ComponentId, tag: string)
    requires Invariant(w) && Legal(w, run) && PathDisjoint(c) && StaysManaged(w, run, c) && Undrifted(w, c, tag)
    ensures Undrifted(After(w, run), c, tag)
    decreases |run|
  {
    hide Invariant;
    hide Enabled;
    hide Next;
    hide Undrifted;
    hide Owned;
    hide PathDisjoint;
    if run == [] {
    } else {
      assert Owned(Next(w, run[0]), c);
      StepUndrifted(w, run[0], c, tag);
      StepKeepsInvariant(w, run[0]);
      RunUndrifted(Next(w, run[0]), run[1..], c, tag);
    }
  }

  /** In reachable states, and while users edit unrelated values only, a component that shares no leaf
      with another is never rolled back after a recorded write: nothing older can be found in place, so
      no condition on take-overs is needed. The write must still be recorded. */
  lemma TagsNeverGoDownUndrifted(w: World, c: ComponentId, o: Observed, v: Verdicts, run: seq<Step>)
    requires Invariant(w) && PathDisjoint(c)
    requires Enabled(w, ControllerPass(c, o, v)) && PassEffect(w, c, o, v).Patches? && v.apply.Acked? && Lands(v.status)
    requires Legal(Pass(w, c, o, v), run) && StaysManaged(Pass(w, c, o, v), run, c)
    ensures !CanRollBack(After(Pass(w, c, o, v), run), c, PassEffect(w, c, o, v).tag)
  {
    hide *;
    var w1, e := Pass(w, c, o, v), PassEffect(w, c, o, v);
    InvariantHas(w);
    RecordedWriteIsFloor(w, c, o, v);
    PassKeepsInvariant(w, c, o, v);
    BelowIsVersioned(w, v.apply);
    PassIsAStep(w, c, o, v);
    WriteIsTag(w, w1, c, o, e);
    PatchSets(w, w1, c, o, e, e.tag);
    ManagedAtStart(w1, run, c);
    UndriftedIs(w1, c, e.tag);
    RunUndrifted(w1, run, c, e.tag);
    RunKeepsInvariant(w1, run);
    var w2 := After(w1, run);
    InvariantHas(w2);
    UndriftedHas(w2, c, e.tag);
    FloorForbids(w2, c, e.tag);
  }

  lemma ManagedAtStart(w: World, run: seq<Step>, c: ComponentId)
    requires Legal(w, run) && StaysManaged(w, run, c)
    ensures Owned(w, c)
  {
    hide Owned;
    hide Enabled;
    hide Next;
  }

  lemma WriteIsTag(w: World, w': World, c: ComponentId, o: Observed, e: Effect)
    requires PassStep(w, w', c, o, e) && e.Patches?
    ensures AtLeast(e.tag, e.tag)
  {
    hide *;
    WriteIsChecked(w, w', c, o, e);
    TagIsAtLeastItself(e.tag);
  }

  lemma TagIsAtLeastItself(tag: string)
    requires ParseTag(tag).Some?
    ensures AtLeast(tag, tag)
  {
    hide ParseTag;
    ComparisonFlips(ParseTag(tag).value, ParseTag(tag).value);
    hide CompareTags;
  }
}
