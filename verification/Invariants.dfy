/** Every step keeps the invariant, so every reachable state satisfies it. */
module Invariants {
  import opened Text
  import opened Values
  import opened Components
  import opened Cluster
  import opened Reconciliation
  import opened PassFacts
  import opened CommandLine
  import opened Runs
  import opened Versions
  import Patcher
  import Policy

  /* ---- What one write does to each component of the chart ---- */

  function ManagedAfter(w: World, c: ComponentId, e: Effect, d: ComponentId): string {
    match e
    case NoWrite => ManagedIn(w, d)
    case Overtaken(edit) => if ChartOf(d) == ChartOf(c) then ManagedOn(Some(edit), d) else ManagedIn(w, d)
    case Reverts => if d == c then "" else ManagedIn(w, d)
    case Patches(_, _, version) => if d == c then version else ManagedIn(w, d)
  }

  function TreeAfter(w: World, c: ComponentId, e: Effect, d: ComponentId): Tree {
    if ChartOf(d) != ChartOf(c) then TreeOf(w, d)
    else
      match e
      case NoWrite => TreeOf(w, d)
      case Overtaken(edit) => AsTree(edit.values)
      case Reverts => Subtract(TreeOf(w, d), Shape(c))
      case Patches(repository, tag, _) => Merge(TreeOf(w, d), GeneratedValues(c, repository, tag))
  }

  // The configuration a write leaves behind
  function Written(w: World, c: ComponentId, e: Effect): HelmConfig
    requires !e.NoWrite?
    requires e.Reverts? ==> ConfigOf(w, c).Some? && ConfigOf(w, c).value.values.Map?
  {
    match e
    case Overtaken(edit) => edit
    case Reverts => RevertedConfig(c, ConfigOf(w, c).value)
    case Patches(repository, tag, version) => PatchedConfig(c, ConfigOf(w, c), repository, tag, version)
  }

  lemma StepNeeds(w: World, w': World, c: ComponentId, e: Effect)
    requires ConfigStep(w, w', c, e)
    ensures e.Reverts? ==> ConfigOf(w, c).Some? && ConfigOf(w, c).value.values.Map?
    ensures e.Patches? ==> ValuesOf(ConfigOf(w, c)).Map?
  {
    hide ChartOf;
    hide Put;
  }

  lemma ElsewhereStays(w: World, w': World, c: ComponentId, e: Effect, d: ComponentId)
    requires ConfigStep(w, w', c, e) && (e.NoWrite? || ChartOf(d) != ChartOf(c))
    ensures ConfigOf(w', d) == ConfigOf(w, d)
  {
    hide ChartOf;
    hide RevertedConfig;
    hide PatchedConfig;
  }

  lemma ConfigAfter(w: World, w': World, c: ComponentId, e: Effect, d: ComponentId)
    requires ConfigStep(w, w', c, e) && !e.NoWrite? && ChartOf(d) == ChartOf(c)
    requires e.Reverts? ==> ConfigOf(w, c).Some? && ConfigOf(w, c).value.values.Map?
    ensures ConfigOf(w', d) == Some(Written(w, c, e).(resourceVersion := w.nextVersion))
    ensures ConfigOf(w, d) == ConfigOf(w, c)
  {
    hide ChartOf;
    hide RevertedConfig;
    hide PatchedConfig;
  }

  lemma RevertedHolds(config: HelmConfig, c: ComponentId, d: ComponentId)
    requires config.values.Map?
    ensures ManagedOn(Some(RevertedConfig(c, config)), d) == (if d == c then "" else ManagedOn(Some(config), d))
    ensures AsTree(RevertedConfig(c, config).values) == Subtract(config.values, Shape(c))
  {
    hide Shape;
    hide Subtract;
  }

  lemma PatchedHolds(config: Option<HelmConfig>, c: ComponentId, repository: string, tag: string, version: string,
                     d: ComponentId)
    requires ValuesOf(config).Map?
    ensures ManagedOn(Some(PatchedConfig(c, config, repository, tag, version)), d) ==
            (if d == c then version else ManagedOn(config, d))
    ensures AsTree(PatchedConfig(c, config, repository, tag, version).values) ==
            Merge(ValuesOf(config), GeneratedValues(c, repository, tag))
  {
    hide GeneratedValues;
    hide Merge;
  }

  lemma VersionIsNoMatter(config: HelmConfig, n: nat, d: ComponentId)
    ensures ManagedOn(Some(config.(resourceVersion := n)), d) == ManagedOn(Some(config), d)
  {
  }

  lemma ManagedFollows(w: World, w': World, c: ComponentId, e: Effect, d: ComponentId)
    requires ConfigStep(w, w', c, e)
    ensures ManagedIn(w', d) == ManagedAfter(w, c, e, d)
  {
    hide ChartOf;
    hide ConfigOf;
    hide ConfigStep;
    hide RevertedConfig;
    hide PatchedConfig;
    hide ManagedOn;
    if e.NoWrite? || ChartOf(d) != ChartOf(c) {
      ElsewhereStays(w, w', c, e, d);
    } else {
      StepNeeds(w, w', c, e);
      ConfigAfter(w, w', c, e, d);
      VersionIsNoMatter(Written(w, c, e), w.nextVersion, d);
      if e.Reverts? { RevertedHolds(ConfigOf(w, c).value, c, d); }
      if e.Patches? { PatchedHolds(ConfigOf(w, c), c, e.repository, e.tag, e.version, d); }
    }
  }

  lemma TreeFollows(w: World, w': World, c: ComponentId, e: Effect, d: ComponentId)
    requires ConfigStep(w, w', c, e)
    ensures TreeOf(w', d) == TreeAfter(w, c, e, d)
  {
    hide ChartOf;
    hide ConfigOf;
    hide GeneratedValues;
    hide Shape;
    hide Merge;
    hide Subtract;
    hide ConfigStep;
    hide RevertedConfig;
    hide PatchedConfig;
    if e.NoWrite? || ChartOf(d) != ChartOf(c) {
      ElsewhereStays(w, w', c, e, d);
    } else {
      StepNeeds(w, w', c, e);
      ConfigAfter(w, w', c, e, d);
      if e.Reverts? { RevertedHolds(ConfigOf(w, c).value, c, d); }
      if e.Patches? { PatchedHolds(ConfigOf(w, c), c, e.repository, e.tag, e.version, d); }
    }
  }

  // A write for c leaves the values at every leaf of a disjoint component
  lemma OtherAgrees(w: World, w': World, c: ComponentId, e: Effect, d: ComponentId)
    requires ConfigStep(w, w', c, e) && d != c && (PathDisjoint(c) || PathDisjoint(d))
    requires e.Overtaken? ==> UnrelatedEdit(w, ChartOf(c), e.edit)
    ensures AgreeOn(TreeOf(w, d), TreeOf(w', d), Shape(d))
  {
    hide ConfigStep;
    hide GeneratedValues;
    TreeFollows(w, w', c, e, d);
    AgreeRefl(TreeOf(w, d), Shape(d));
    if ChartOf(d) == ChartOf(c) {
      if PathDisjoint(d) { PathDisjointMeans(d, c); } else { PathDisjointMeans(c, d); }
      match e {
        case Overtaken(edit) => EditAgrees(w, ChartOf(c), edit, d);
        case Reverts => SubtractOfDisjointAgrees(TreeOf(w, d), Shape(d), Shape(c));
        case Patches(repository, tag, _) =>
          Patcher.DisjointWrites(d, c, Repository(d), PLACEHOLDER, repository, tag);
          MergeOfDisjointAgrees(TreeOf(w, d), Shape(d), GeneratedValues(c, repository, tag));
        case NoWrite =>
      }
      hide ChartOf;
      hide TreeOf;
      hide Shape;
    }
  }

  // A write for c keeps whether the leaves of a disjoint component are set
  lemma OtherLeavesStay(w: World, w': World, c: ComponentId, e: Effect, d: ComponentId)
    requires ConfigStep(w, w', c, e) && d != c && PathDisjoint(d)
    requires e.Overtaken? ==> UnrelatedEdit(w, ChartOf(c), e.edit)
    ensures AllLeaves(TreeOf(w, d), Shape(d)) ==> AllLeaves(TreeOf(w', d), Shape(d))
    ensures NoLeaves(TreeOf(w, d), Shape(d)) ==> NoLeaves(TreeOf(w', d), Shape(d))
  {
    hide *;
    OtherAgrees(w, w', c, e, d);
    ShapeIsGenerated(d);
    AgreementKeepsLeaves(TreeOf(w, d), TreeOf(w', d), Shape(d));
  }

  lemma EditAgrees(w: World, chart: Chart, edit: HelmConfig, d: ComponentId)
    requires UnrelatedEdit(w, chart, edit) && ChartOf(d) == chart
    ensures AgreeOn(TreeOf(w, d), AsTree(edit.values), Shape(d))
    ensures ManagedOn(Some(edit), d) == ManagedIn(w, d)
  {
    hide Shape;
    hide AgreeOn;
    hide ChartOf;
  }

  /* ---- A pass keeps every part of the invariant ---- */

  ghost predicate FairEffect(w: World, c: ComponentId, o: Observed, e: Effect) {
    (o.version.Some? ==> o.version.value != "") && (e.Overtaken? ==> UnrelatedEdit(w, ChartOf(c), e.edit))
  }

  // Only the component's own ownership can change in a pass
  lemma OthersOwnedAlike(w: World, w': World, c: ComponentId, o: Observed, e: Effect, d: ComponentId)
    requires PassStep(w, w', c, o, e) && FairEffect(w, c, o, e)
    ensures d != c || e.NoWrite? || e.Overtaken? ==> ManagedIn(w', d) == ManagedIn(w, d)
    ensures d == c && e.Reverts? ==> ManagedIn(w', d) == ""
    ensures d == c && e.Patches? ==> ManagedIn(w', d) == e.version
  {
    hide ConfigStep;
    hide ManagedIn;
    hide UnrelatedEdit;
    ManagedFollows(w, w', c, e, d);
    if e.Overtaken? && ChartOf(d) == ChartOf(c) { EditAgrees(w, ChartOf(c), e.edit, d); }
    hide ChartOf;
  }

  lemma PatchingPass(w: World, w': World, c: ComponentId, o: Observed, e: Effect)
    requires PassStep(w, w', c, o, e) && FairEffect(w, c, o, e) && e.Patches?
    ensures c in w.patches && !w.patches[c].deleting && c in w'.patches && w'.patches[c].finalizer
    ensures w.cli == map[] && e.version != "" && !OthersStale(w, e.version, c)
  {
    hide ConfigStep;
    hide ConfigOf;
    hide GeneratedValues;
    hide OthersStale;
    hide Patcher.BundledOf;
  }

  lemma PassKeepsFinalizers(w: World, w': World, c: ComponentId, o: Observed, e: Effect)
    requires PassStep(w, w', c, o, e) && FairEffect(w, c, o, e) && FinalizerHeld(w)
    ensures FinalizerHeld(w')
  {
    hide ConfigStep;
    hide Justified;
    hide ManagedIn;
    hide UnrelatedEdit;
    forall d | Owned(w', d) ensures d in w'.patches && w'.patches[d].finalizer {
      OthersOwnedAlike(w, w', c, o, e, d);
      if e.Patches? { PatchingPass(w, w', c, o, e); }
      if d != c || !e.Patches? { assert Owned(w, d); }
    }
  }

  lemma PassKeepsMode(w: World, w': World, c: ComponentId, o: Observed, e: Effect)
    requires PassStep(w, w', c, o, e) && FairEffect(w, c, o, e) && OneMode(w)
    ensures OneMode(w')
  {
    hide ConfigStep;
    hide OwnStep;
    hide ManagedIn;
    hide UnrelatedEdit;
    if w'.cli != map[] {
      forall d ensures !Owned(w', d) {
        OthersOwnedAlike(w, w', c, o, e, d);
        if e.Patches? { PatchingPass(w, w', c, o, e); }
        assert !Owned(w, d);
      }
    }
  }

  lemma PassKeepsRelease(w: World, w': World, c: ComponentId, o: Observed, e: Effect)
    requires PassStep(w, w', c, o, e) && FairEffect(w, c, o, e) && OneRelease(w)
    ensures OneRelease(w')
  {
    hide ConfigStep;
    hide OwnStep;
    hide ManagedIn;
    hide UnrelatedEdit;
    forall a, b | Owned(w', a) && Owned(w', b) ensures ManagedIn(w', a) == ManagedIn(w', b) {
      OthersOwnedAlike(w, w', c, o, e, a);
      OthersOwnedAlike(w, w', c, o, e, b);
      if e.Patches? {
        PatchingPass(w, w', c, o, e);
        SupportedIsAll(a);
        SupportedIsAll(b);
      }
    }
  }

  lemma PassKeepsLeaves(w: World, w': World, c: ComponentId, o: Observed, e: Effect, d: ComponentId)
    requires PassStep(w, w', c, o, e) && FairEffect(w, c, o, e) && PathDisjoint(d) && LeavesOwned(w, d)
    ensures LeavesOwned(w', d)
  {
    hide ConfigStep;
    hide OwnStep;
    hide ManagedIn;
    hide TreeOf;
    hide Shape;
    hide UnrelatedEdit;
    hide GeneratedValues;
    OthersOwnedAlike(w, w', c, o, e, d);
    if d != c {
      OtherLeavesStay(w, w', c, e, d);
    } else {
      TreeFollows(w, w', c, e, d);
      OwnLeaves(w, w', c, o, e);
    }
  }

  lemma OwnLeaves(w: World, w': World, c: ComponentId, o: Observed, e: Effect)
    requires PassStep(w, w', c, o, e) && FairEffect(w, c, o, e)
    ensures e.NoWrite? || e.Overtaken? ==>
              (AllLeaves(TreeOf(w, c), Shape(c)) ==> AllLeaves(TreeOf(w', c), Shape(c))) &&
              (NoLeaves(TreeOf(w, c), Shape(c)) ==> NoLeaves(TreeOf(w', c), Shape(c)))
    ensures e.Reverts? ==> NoLeaves(TreeOf(w', c), Shape(c))
    ensures e.Patches? ==> AllLeaves(TreeOf(w', c), Shape(c)) && e.version != ""
  {
    TreeFollows(w, w', c, e, c);
    hide ConfigStep;
    hide OwnStep;
    hide TreeOf;
    hide GeneratedValues;
    match e {
      case NoWrite =>
      case Overtaken(edit) =>
        EditAgrees(w, ChartOf(c), edit, c);
        ShapeIsGenerated(c);
        hide UnrelatedEdit;
        hide ChartOf;
        AgreementKeepsLeaves(TreeOf(w, c), AsTree(edit.values), Shape(c));
      case Reverts =>
        SubtractedHasNoLeaves(TreeOf(w, c), Shape(c));
      case Patches(repository, tag, _) =>
        PatchingPass(w, w', c, o, e);
        MergedHasAllLeaves(TreeOf(w, c), GeneratedValues(c, repository, tag));
        ShapeIgnoresLeaves(c, repository, tag, Repository(c), PLACEHOLDER);
        LeavesFollowShape(TreeOf(w', c), GeneratedValues(c, repository, tag), Shape(c));
    }
  }

  lemma PassKeepsInvariant(w: World, c: ComponentId, o: Observed, v: Verdicts)
    requires Invariant(w) && Enabled(w, ControllerPass(c, o, v))
    ensures Invariant(Pass(w, c, o, v))
  {
    var w' := Pass(w, c, o, v);
    var e := PassEffect(w, c, o, v);
    BelowIsVersioned(w, v.apply);
    PassIsAStep(w, c, o, v);
    PassSteps(w, c, o, v);
    hide PassEffect;
    hide Pass;
    hide PassStep;
    hide SameObject;
    hide NewVersion;
    hide VersionsBelow;
    hide UnrelatedEdit;
    PassKeepsFinalizers(w, w', c, o, e);
    PassKeepsMode(w, w', c, o, e);
    PassKeepsRelease(w, w', c, o, e);
    CliStays(w, w', c, o, e);
  }

  lemma CliStays(w: World, w': World, c: ComponentId, o: Observed, e: Effect)
    requires PassStep(w, w', c, o, e)
    ensures w'.cli == w.cli
  {
  }

  /* ---- The other steps ---- */

  // The step leaves the component's ownership and its leaves as they were
  ghost predicate Alike(w: World, w': World, d: ComponentId) {
    ManagedIn(w', d) == ManagedIn(w, d) &&
    (PathDisjoint(d) ==>
     (AllLeaves(TreeOf(w, d), Shape(d)) ==> AllLeaves(TreeOf(w', d), Shape(d))) &&
     (NoLeaves(TreeOf(w, d), Shape(d)) ==> NoLeaves(TreeOf(w', d), Shape(d))))
  }

  lemma LeavesFrame(w: World, w': World, d: ComponentId)
    requires Alike(w, w', d) && PathDisjoint(d) && LeavesOwned(w, d)
    requires HasEntry(w, d) ==> HasEntry(w', d)
    ensures LeavesOwned(w', d)
  {
    hide ManagedIn;
    hide TreeOf;
    hide Shape;
    hide HasEntry;
  }

  lemma InvariantFrame(w: World, w': World)
    requires Invariant(w) && w'.cli == w.cli && FinalizerHeld(w') && VersionsBelow(w')
    requires forall d :: ManagedIn(w', d) == ManagedIn(w, d)
    ensures Invariant(w')
  {
    hide ManagedIn;
    hide GoodEntry;
    hide VersionsBelow;
    forall d ensures Owned(w', d) == Owned(w, d) { assert ManagedIn(w', d) == ManagedIn(w, d); }
    assert OneMode(w');
    assert OneRelease(w');
    assert OneCliRelease(w');
  }

  lemma SameEntries(w: World, w': World, d: ComponentId)
    requires w'.cli == w.cli
    ensures HasEntry(w', d) == HasEntry(w, d)
  {
  }

  lemma SameConfigsAlike(w: World, w': World, d: ComponentId)
    requires w'.configs == w.configs
    ensures Alike(w, w', d)
  {
    hide ChartOf;
    hide Shape;
  }

  lemma SameConfigsSame(w: World, w': World, c: ComponentId)
    requires w'.configs == w.configs
    ensures ManagedIn(w', c) == ManagedIn(w, c) && TreeOf(w', c) == TreeOf(w, c)
  {
    hide ChartOf;
  }

  lemma VersionsKept(w: World, s: Step)
    requires Invariant(w) && Enabled(w, s)
    ensures VersionsBelow(Next(w, s))
  {
    hide *;
    InvariantHas(w);
    StepKeepsVersions(w, s);
    StepsAreBelow(w, Next(w, s));
  }

  lemma StepsAreBelow(w: World, w': World)
    requires VersionStep(w, w')
    ensures VersionsBelow(w')
  {
    hide SameObject;
    hide NewVersion;
  }

  // Steps that change ImagePatches or the release only
  lemma EditsKeepInvariant(w: World, s: Step)
    requires Invariant(w) && Enabled(w, s)
    requires s.Upgrade? || s.CreatePatch? || s.EditSpec? || s.DeletePatch? || s.RemoveMarker?
    ensures Invariant(Next(w, s))
  {
    var w' := Next(w, s);
    EditsKeepFinalizers(w, s);
    VersionsKept(w, s);
    assert w'.configs == w.configs && w'.cli == w.cli;
    forall d ensures ManagedIn(w', d) == ManagedIn(w, d) { SameConfigsAlike(w, w', d); }
    hide ManagedIn;
    hide Next;
    hide Enabled;
    InvariantFrame(w, w');
    hide Invariant;
  }

  lemma EditsKeepFinalizers(w: World, s: Step)
    requires FinalizerHeld(w) && Enabled(w, s)
    requires s.Upgrade? || s.CreatePatch? || s.EditSpec? || s.DeletePatch? || s.RemoveMarker?
    ensures FinalizerHeld(Next(w, s))
  {
    var w' := Next(w, s);
    forall c | Owned(w', c) ensures c in w'.patches && w'.patches[c].finalizer {
      assert ConfigOf(w', c) == ConfigOf(w, c) by { hide ChartOf; }
      hide ConfigOf;
      hide ManagedOn;
      assert Owned(w, c);
    }
  }

  lemma EditConfigKeepsInvariant(w: World, chart: Chart, config: HelmConfig)
    requires Invariant(w) && UnrelatedEdit(w, chart, config)
    ensures Invariant(Put(w, chart, config))
  {
    var w' := Put(w, chart, config);
    forall d ensures ManagedIn(w', d) == ManagedIn(w, d) { EditedLeaves(w, chart, config, d); }
    hide ManagedIn;
    forall c | Owned(w', c) ensures c in w'.patches && w'.patches[c].finalizer {
      assert ManagedIn(w', c) == ManagedIn(w, c);
      assert Owned(w, c);
    }
    VersionsKept(w, EditConfig(chart, config));
    hide UnrelatedEdit;
    InvariantFrame(w, w');
    hide Invariant;
    hide Put;
  }

  lemma EditedLeaves(w: World, chart: Chart, config: HelmConfig, c: ComponentId)
    requires UnrelatedEdit(w, chart, config)
    ensures Alike(w, Put(w, chart, config), c)
  {
    hide Shape;
    EditedConfig(w, chart, config, c);
    if ChartOf(c) == chart {
      EditAgrees(w, chart, config, c);
      hide UnrelatedEdit;
      ShapeIsGenerated(c);
      AgreementKeepsLeaves(TreeOf(w, c), AsTree(config.values), Shape(c));
    }
    hide UnrelatedEdit;
    hide ChartOf;
    hide AllLeaves;
    hide NoLeaves;
    hide ConfigOf;
    hide Put;
    hide AsTree;
  }

  lemma EditedConfig(w: World, chart: Chart, config: HelmConfig, c: ComponentId)
    ensures var w' := Put(w, chart, config);
            if ChartOf(c) == chart then
              ManagedIn(w', c) == ManagedOn(Some(config), c) && TreeOf(w', c) == AsTree(config.values)
            else ManagedIn(w', c) == ManagedIn(w, c) && TreeOf(w', c) == TreeOf(w, c)
  {
    hide ChartOf;
  }

  /* ---- The command line ---- */

  // The values of c are merged, whatever else happens to the state
  ghost predicate Merges(w: World, w': World, c: ComponentId, repository: string, tag: string) {
    w'.configs == Put(w, ChartOf(c), MergedConfig(ConfigOf(w, c), GeneratedValues(c, repository, tag))).configs
  }

  lemma MergedTree(w: World, w': World, c: ComponentId, r: string, t: string, d: ComponentId)
    requires Merges(w, w', c, r, t)
    ensures ManagedIn(w', d) == ManagedIn(w, d)
    ensures TreeOf(w', d) == if ChartOf(d) == ChartOf(c) then Merge(TreeOf(w, d), GeneratedValues(c, r, t))
                             else TreeOf(w, d)
  {
    MergeIntoEmpty(GeneratedValues(c, r, t));
    hide ChartOf;
    hide Merge;
    hide GeneratedValues;
  }

  lemma MergedAlike(w: World, w': World, c: ComponentId, r: string, t: string, d: ComponentId)
    requires Merges(w, w', c, r, t) && d != c
    ensures Alike(w, w', d)
  {
    MergedTree(w, w', c, r, t, d);
    if PathDisjoint(d) && ChartOf(d) == ChartOf(c) {
      PathDisjointMeans(d, c);
      ShapeIsGenerated(d);
      Patcher.DisjointWrites(d, c, Repository(d), PLACEHOLDER, r, t);
      MergeOfDisjointAgrees(TreeOf(w, d), Shape(d), GeneratedValues(c, r, t));
      AgreementKeepsLeaves(TreeOf(w, d), TreeOf(w', d), Shape(d));
    }
    hide ChartOf;
    hide ConfigOf;
    hide Shape;
    hide Merge;
    hide GeneratedValues;
    hide MergedConfig;
    hide Put;
  }

  // The three ways in which the command changes anything
  lemma CommandChanges(w: World, c: ComponentId, p: PatchPlan) returns (r: string, t: string)
    requires VersionsBelow(w) && ImagePatchCommand(w, c, p) != w
    ensures var w' := ImagePatchCommand(w, c, p);
            w.patches == map[] && w'.patches == map[] &&
            ((p.apply.Raced? && w' == Put(w, ChartOf(c), p.apply.edit)) ||
             (Merges(w, w', c, r, t) && CutShort(p) && w'.cli == w.cli) ||
             (Merges(w, w', c, r, t) && p.apply.Acked? && p.stored && Decides(w, w', c, p, r, t)))
  {
    r, t := CommandLeaves(w, c, p);
    hide ImagePatchCommand;
    hide ChartOf;
    hide ConfigOf;
    hide MergedConfig;
    hide GeneratedValues;
    hide Recorded;
    hide BaselineFor;
    hide HoldsOtherVersion;
    hide CutShort;
    hide VersionsBelow;
  }

  predicate Decides(w: World, w': World, c: ComponentId, p: PatchPlan, r: string, t: string) {
    var key := EntryKey(p.version, c);
    !HoldsOtherVersion(w.cli, p.version) &&
    w'.cli == Recorded(w.cli, key, Entry(p.version, BaselineFor(w.cli, key, p.image.tag), t, GeneratedValues(c, r, t)))
  }

  lemma CommandKeepsOwners(w: World, c: ComponentId, p: PatchPlan, d: ComponentId)
    requires VersionsBelow(w) && Enabled(w, CliPatch(c, p))
    ensures ManagedIn(ImagePatchCommand(w, c, p), d) == ManagedIn(w, d)
  {
    hide *;
    var w' := ImagePatchCommand(w, c, p);
    if w' != w {
      var r, t := CommandChanges(w, c, p);
      CutShortIs(p);
      if p.apply.Raced? {
        RivalKeeps(w, c, p, d);
      } else {
        MergedTree(w, w', c, r, t, d);
      }
    }
  }

  // The other client's write in a race is an edit of its own
  lemma RivalKeeps(w: World, c: ComponentId, p: PatchPlan, d: ComponentId)
    requires Enabled(w, CliPatch(c, p)) && p.apply.Raced?
    ensures Alike(w, Put(w, ChartOf(c), p.apply.edit), d) &&
            ManagedIn(Put(w, ChartOf(c), p.apply.edit), d) == ManagedIn(w, d)
  {
    EditedLeaves(w, ChartOf(c), p.apply.edit, d);
    hide ManagedIn;
    hide TreeOf;
    hide Shape;
    hide Put;
    hide UnrelatedEdit;
  }

  lemma CliPatchKeepsInvariant(w: World, c: ComponentId, p: PatchPlan)
    requires Invariant(w) && Enabled(w, CliPatch(c, p))
    ensures Invariant(ImagePatchCommand(w, c, p))
  {
    hide *;
    var w' := ImagePatchCommand(w, c, p);
    if w' != w {
      InvariantHas(w);
      var r, t := CommandChanges(w, c, p);
      VersionsKept(w, CliPatch(c, p));
      CommandIsNext(w, c, p);
      forall d ensures !Owned(w', d) {
        NobodyOwns(w, d);
        CommandKeepsOwners(w, c, p, d);
        OwnedFollows(w, w', d);
      }
      CommandIsTrimmed(w, c, p);
      CutShortIs(p);
      if p.apply.Raced? { PutKeepsCli(w, ChartOf(c), p.apply.edit); }
      if w'.cli == w.cli { SameCliStaysOne(w, w'); } else { DecisionIsGoodEntry(w, w', c, p, r, t); }
      NoOwnersIsInvariant(w');
    }
  }

  lemma CommandIsNext(w: World, c: ComponentId, p: PatchPlan)
    requires Enabled(w, CliPatch(c, p))
    ensures Next(w, CliPatch(c, p)) == ImagePatchCommand(w, c, p)
  {
    hide ImagePatchCommand;
    hide UnrelatedEdit;
  }

  lemma CommandIsTrimmed(w: World, c: ComponentId, p: PatchPlan)
    requires Enabled(w, CliPatch(c, p))
    ensures Trimmed(p.version)
  {
    hide UnrelatedEdit;
    hide Trimmed;
  }

  lemma OwnedFollows(w: World, w': World, d: ComponentId)
    requires ManagedIn(w', d) == ManagedIn(w, d)
    ensures Owned(w', d) == Owned(w, d)
  {
    hide ManagedIn;
  }

  lemma SameCliStaysOne(w: World, w': World)
    requires w'.cli == w.cli && OneCliRelease(w)
    ensures OneCliRelease(w')
  {
    hide GoodEntry;
  }

  lemma PutKeepsCli(w: World, chart: Chart, config: HelmConfig)
    ensures Put(w, chart, config).cli == w.cli
  {
  }

  // A decision that is recorded is the component's, on the release of every other entry
  lemma DecisionIsGoodEntry(w: World, w': World, c: ComponentId, p: PatchPlan, r: string, t: string)
    requires OneCliRelease(w) && Decides(w, w', c, p, r, t) && Trimmed(p.version)
    ensures OneCliRelease(w') && HasEntry(w', c) && forall d | HasEntry(w, d) :: HasEntry(w', d)
  {
    var key := EntryKey(p.version, c);
    var decision := Entry(p.version, BaselineFor(w.cli, key, p.image.tag), t, GeneratedValues(c, r, t));
    RecordedIsOneEntry(w.cli, key, decision);
    var entry := w'.cli[key];
    hide GeneratedValues;
    hide Recorded;
    hide BaselineFor;
    hide HoldsOtherVersion;
    hide GoodEntry;
    CliEntryIsGood(w.cli, c, p.version, r, t, decision, entry);
    CliStaysOne(w, w', key, entry);
    forall d ensures HasEntry(w, d) ==> HasEntry(w', d) { HasMoreEntries(w, w', key, entry, d); }
    HasMoreEntries(w, w', key, entry, c);
    hide HasEntry;
  }

  lemma RecordedIsOneEntry(cli: map<EntryKey, Entry>, key: EntryKey, entry: Entry)
    ensures var next := Recorded(cli, key, entry);
            key in next && next == cli[key := next[key]] &&
            ((key in cli && next[key] == cli[key]) ||
             (next[key].clusterVersion == entry.clusterVersion && next[key].values == entry.values))
  {
  }

  lemma CliEntryIsGood(cli: map<EntryKey, Entry>, c: ComponentId, version: string, repository: string, tag: string,
                       decision: Entry, entry: Entry)
    requires Trimmed(version) && !HoldsOtherVersion(cli, version)
    requires forall k | k in cli :: GoodEntry(k, cli[k])
    requires decision.clusterVersion == version && decision.values == GeneratedValues(c, repository, tag)
    requires (EntryKey(version, c) in cli && entry == cli[EntryKey(version, c)]) ||
             (entry.clusterVersion == decision.clusterVersion && entry.values == decision.values)
    ensures GoodEntry(EntryKey(version, c), entry) && entry.clusterVersion == version
    ensures forall k | k in cli :: cli[k].clusterVersion == version
  {
    ShapeIgnoresLeaves(c, Repository(c), PLACEHOLDER, repository, tag);
    forall k | k in cli ensures cli[k].clusterVersion == version {
      assert GoodEntry(k, cli[k]);
      TrimIsTrimmed(cli[k].clusterVersion);
      hide Trim;
    }
    hide Trim;
    hide GeneratedValues;
  }

  lemma NoOwnersIsInvariant(w: World)
    requires VersionsBelow(w) && OneCliRelease(w) && forall d :: !Owned(w, d)
    ensures Invariant(w)
  {
    hide Owned;
    hide VersionsBelow;
    hide OneCliRelease;
  }

  lemma CliStaysOne(w: World, w': World, key: EntryKey, entry: Entry)
    requires OneCliRelease(w) && w'.cli == w.cli[key := entry] && GoodEntry(key, entry)
    requires forall k | k in w.cli :: w.cli[k].clusterVersion == entry.clusterVersion
    ensures OneCliRelease(w')
  {
    hide GoodEntry;
  }

  lemma NobodyOwns(w: World, d: ComponentId)
    requires Invariant(w) && w.patches == map[]
    ensures !Owned(w, d)
  {
    hide Owned;
  }

  lemma HasMoreEntries(w: World, w': World, key: EntryKey, entry: Entry, d: ComponentId)
    requires w'.cli == w.cli[key := entry]
    ensures HasEntry(w, d) ==> HasEntry(w', d)
    ensures HasEntry(w', key.component)
  {
    assert key in w'.cli;
    if HasEntry(w, d) {
      var k :| k in w.cli && k.component == d;
      assert k in w'.cli;
    }
  }

  // The component's own leaves: recorded with the decision, or unrecorded if the command is cut short
  lemma CliPatchKeepsLeaves(w: World, c: ComponentId, p: PatchPlan, d: ComponentId)
    requires Invariant(w) && Enabled(w, CliPatch(c, p)) && PathDisjoint(d) && LeavesOwned(w, d)
    requires c == d && CutShort(p) ==> w.patches != map[]
    ensures LeavesOwned(ImagePatchCommand(w, c, p), d)
  {
    hide *;
    var w' := ImagePatchCommand(w, c, p);
    if w' != w {
      InvariantHas(w);
      var r, t := CommandChanges(w, c, p);
      CommandKeepsOwners(w, c, p, d);
      NobodyOwns(w, d);
      OwnedFollows(w, w', d);
      CommandIsTrimmed(w, c, p);
      CutShortIs(p);
      if p.apply.Raced? {
        RivalKeeps(w, c, p, d);
        PutKeepsCli(w, ChartOf(c), p.apply.edit);
        SameEntries(w, w', d);
        LeavesFrame(w, w', d);
      } else if d == c {
        DecisionIsGoodEntry(w, w', c, p, r, t);
        EntryOwnsLeaves(w', c);
      } else {
        MergedAlike(w, w', c, r, t, d);
        if w'.cli == w.cli { SameEntries(w, w', d); } else { DecisionIsGoodEntry(w, w', c, p, r, t); }
        LeavesFrame(w, w', d);
      }
    }
  }

  lemma EntryOwnsLeaves(w: World, c: ComponentId)
    requires !Owned(w, c) && HasEntry(w, c)
    ensures LeavesOwned(w, c)
  {
    hide Owned;
    hide HasEntry;
    hide TreeOf;
    hide Shape;
  }

  /** image-patch writes the values first and records them afterwards. Cut short in between, it leaves
      every leaf of the component set; the invariant and every other component's leaves stay as they
      were, and the component's own are accounted for exactly when an earlier decision is recorded. */
  lemma InterruptedPatchKeeps(w: World, c: ComponentId, p: PatchPlan)
    requires Invariant(w) && Enabled(w, CliPatch(c, p)) && PathDisjoint(c) && CutShort(p) &&
             ImagePatchCommand(w, c, p) != w
    ensures var w' := ImagePatchCommand(w, c, p);
            Invariant(w') && (forall d | d != c && PathDisjoint(d) && LeavesOwned(w, d) :: LeavesOwned(w', d)) &&
            !Owned(w', c) && AllLeaves(TreeOf(w', c), Shape(c)) && (LeavesOwned(w', c) <==> HasEntry(w, c))
  {
    hide *;
    var w' := ImagePatchCommand(w, c, p);
    InvariantHas(w);
    CliPatchKeepsInvariant(w, c, p);
    forall d | d != c && PathDisjoint(d) && LeavesOwned(w, d) ensures LeavesOwned(w', d) {
      CliPatchKeepsLeaves(w, c, p, d);
    }
    var r, t := CommandChanges(w, c, p);
    CutShortIs(p);
    MergedTree(w, w', c, r, t, c);
    NobodyOwns(w, c);
    OwnedFollows(w, w', c);
    OwnLeavesSet(w', c, TreeOf(w, c), r, t);
    LeavesNeedAnEntry(w, w', c);
  }

  lemma CutShortIs(p: PatchPlan)
    ensures CutShort(p) ==> !p.apply.Raced? && !(p.apply.Acked? && p.stored)
  {
  }

  lemma OwnLeavesSet(w: World, c: ComponentId, t: Tree, repository: string, tag: string)
    requires TreeOf(w, c) == Merge(t, GeneratedValues(c, repository, tag))
    ensures AllLeaves(TreeOf(w, c), Shape(c))
  {
    hide TreeOf;
    hide GeneratedValues;
    MergedHasAllLeaves(t, GeneratedValues(c, repository, tag));
    ShapeIgnoresLeaves(c, repository, tag, Repository(c), PLACEHOLDER);
    LeavesFollowShape(TreeOf(w, c), GeneratedValues(c, repository, tag), Shape(c));
  }

  // Leaves that are all set are not none
  lemma LeavesNeedAnEntry(w: World, w': World, c: ComponentId)
    requires w'.cli == w.cli && !Owned(w', c) && AllLeaves(TreeOf(w', c), Shape(c))
    ensures LeavesOwned(w', c) <==> HasEntry(w, c)
  {
    hide TreeOf;
    hide Shape;
    hide Owned;
    ShapeIsGenerated(c);
    NotBoth(TreeOf(w', c), Shape(c));
  }

  /* ---- image-reconcile ---- */

  lemma RevertedEntryTree(w: World, c: ComponentId, e: Entry, d: ComponentId)
    ensures var w' := RevertEntry(w, c, e);
            ManagedIn(w', d) == ManagedIn(w, d) &&
            TreeOf(w', d) ==
              (if ChartOf(d) == ChartOf(c) && Revertible(ConfigOf(w, c), e) then Subtract(TreeOf(w, d), e.values)
                              else TreeOf(w, d)) &&
            (ConfigOf(w', c).Some? <==> ConfigOf(w, c).Some?) &&
            (Revertible(ConfigOf(w', c), e) <==> Revertible(ConfigOf(w, c), e))
  {
    hide ChartOf;
    hide Subtract;
  }

  lemma RevertedEntryAlike(w: World, c: ComponentId, e: Entry, d: ComponentId)
    requires SameShape(Shape(c), e.values) && d != c
    ensures Alike(w, RevertEntry(w, c, e), d)
  {
    RevertedEntryTree(w, c, e, d);
    if PathDisjoint(d) && ChartOf(d) == ChartOf(c) {
      PathDisjointMeans(d, c);
      ShapeIsGenerated(d);
      SubtractFollowsShape(TreeOf(w, d), Shape(c), e.values);
      SubtractOfDisjointAgrees(TreeOf(w, d), Shape(d), Shape(c));
      AgreementKeepsLeaves(TreeOf(w, d), Subtract(TreeOf(w, d), e.values), Shape(d));
    }
    hide ChartOf;
    hide Shape;
    hide Subtract;
    hide RevertEntry;
    hide ConfigOf;
    hide TreeOf;
  }

  // The component's own leaves: gone once an entry was reverted, and not coming back
  lemma RevertedEntryOwn(w: World, c: ComponentId, e: Entry)
    requires SameShape(Shape(c), e.values)
    ensures var w' := RevertEntry(w, c, e);
            ManagedIn(w', c) == ManagedIn(w, c) &&
            (NoLeaves(TreeOf(w, c), Shape(c)) ==> NoLeaves(TreeOf(w', c), Shape(c))) &&
            (Revertible(ConfigOf(w, c), e) ==> NoLeaves(TreeOf(w', c), Shape(c)))
  {
    RevertedEntryTree(w, c, e, c);
    SubtractFollowsShape(TreeOf(w, c), Shape(c), e.values);
    SubtractedHasNoLeaves(TreeOf(w, c), Shape(c));
    hide ChartOf;
    hide Shape;
    hide Subtract;
    hide RevertEntry;
    hide ConfigOf;
    hide TreeOf;
  }

  lemma AlikeChains(w: World, w1: World, w': World, d: ComponentId)
    requires Alike(w, w1, d) && Alike(w1, w', d)
    ensures Alike(w, w', d)
  {
    hide ManagedIn;
    hide TreeOf;
    hide Shape;
  }

  lemma {:induction false} RevertsAlike(w: World, c: ComponentId, keys: seq<EntryKey>, d: ComponentId)
    requires forall k | k in keys :: k in w.cli && k.component == c && GoodEntry(k, w.cli[k])
    ensures d != c ==> Alike(w, RevertEntries(w, c, keys), d)
    ensures ManagedIn(RevertEntries(w, c, keys), d) == ManagedIn(w, d)
    decreases |keys|
  {
    if keys == [] {
      SameConfigsAlike(w, w, d);
    } else {
      var front, last := keys[..|keys| - 1], keys[|keys| - 1];
      var w1 := RevertEntries(w, c, front);
      RevertsAlike(w, c, front, d);
      assert GoodEntry(last, w.cli[last]);
      RevertEntryKeeps(w1, c, w.cli[last], d);
      hide RevertEntry;
      hide ManagedIn;
      if d != c { AlikeChains(w, w1, RevertEntry(w1, c, w.cli[last]), d); }
      hide Alike;
      hide Shape;
      hide ConfigOf;
      hide TreeOf;
      hide Revertible;
    }
  }

  predicate AnyRevertible(w: World, c: ComponentId, keys: seq<EntryKey>) {
    exists k | k in keys :: k in w.cli && Revertible(ConfigOf(w, c), w.cli[k])
  }

  // Reverting neither creates nor ruins anything to revert
  lemma {:induction false} RevertsKeepRevertible(w: World, c: ComponentId, keys: seq<EntryKey>, e: Entry)
    requires forall k | k in keys :: k in w.cli
    ensures Revertible(ConfigOf(RevertEntries(w, c, keys), c), e) == Revertible(ConfigOf(w, c), e)
    decreases |keys|
  {
    if keys == [] {
    } else {
      var front, last := keys[..|keys| - 1], keys[|keys| - 1];
      RevertsKeepRevertible(w, c, front, e);
      RevertEntryReads(RevertEntries(w, c, front), c, w.cli[last], e);
      hide ConfigOf;
      hide Revertible;
      hide RevertEntry;
    }
  }

  lemma RevertEntryReads(w: World, c: ComponentId, e: Entry, f: Entry)
    ensures Revertible(ConfigOf(RevertEntry(w, c, e), c), f) == Revertible(ConfigOf(w, c), f)
  {
    hide ChartOf;
    hide Subtract;
  }

  lemma AnyOfMore(w: World, c: ComponentId, front: seq<EntryKey>, last: EntryKey)
    requires last in w.cli
    ensures AnyRevertible(w, c, front + [last]) <==>
            AnyRevertible(w, c, front) || Revertible(ConfigOf(w, c), w.cli[last])
  {
    hide Revertible;
    hide ConfigOf;
    assert last in front + [last];
    if AnyRevertible(w, c, front) {
      var k :| k in front && k in w.cli && Revertible(ConfigOf(w, c), w.cli[k]);
      assert k in front + [last];
    }
  }

  lemma {:induction false} RevertsClear(w: World, c: ComponentId, keys: seq<EntryKey>)
    requires forall k | k in keys :: k in w.cli && k.component == c && GoodEntry(k, w.cli[k])
    ensures NoLeaves(TreeOf(w, c), Shape(c)) || AnyRevertible(w, c, keys) ==>
              NoLeaves(TreeOf(RevertEntries(w, c, keys), c), Shape(c))
    decreases |keys|
  {
    hide *;
    RevertsUnfold(w, c, keys);
    if keys == [] {
      NoneOfNone(w, c);
    } else {
      var front, last := keys[..|keys| - 1], keys[|keys| - 1];
      var w1 := RevertEntries(w, c, front);
      RevertsClear(w, c, front);
      assert GoodEntry(last, w.cli[last]);
      EntryHasShape(last, w.cli[last]);
      assert keys == front + [last];
      AnyOfMore(w, c, front, last);
      RevertsKeepRevertible(w, c, front, w.cli[last]);
      RevertedEntryOwn(w1, c, w.cli[last]);
    }
  }

  lemma RevertsUnfold(w: World, c: ComponentId, keys: seq<EntryKey>)
    requires forall k | k in keys :: k in w.cli
    ensures RevertEntries(w, c, []) == w
    ensures keys != [] ==>
              RevertEntries(w, c, keys) ==
                RevertEntry(RevertEntries(w, c, keys[..|keys| - 1]), c, w.cli[keys[|keys| - 1]])
  {
    hide RevertEntry;
  }

  lemma NoneOfNone(w: World, c: ComponentId)
    ensures !AnyRevertible(w, c, [])
  {
  }

  lemma EntryHasShape(k: EntryKey, e: Entry)
    requires GoodEntry(k, e)
    ensures SameShape(Shape(k.component), e.values)
  {
    hide Shape;
  }

  lemma RevertEntryKeeps(w: World, c: ComponentId, e: Entry, d: ComponentId)
    requires SameShape(Shape(c), e.values)
    ensures var w' := RevertEntry(w, c, e);
            (d != c ==> Alike(w, w', d)) && ManagedIn(w', d) == ManagedIn(w, d)
  {
    if d != c { RevertedEntryAlike(w, c, e, d); }
    RevertedEntryTree(w, c, e, d);
    hide *;
  }

  lemma KeysAreGood(w: World, c: ComponentId, version: string, keys: seq<EntryKey>)
    requires OneCliRelease(w) && forall k :: k in keys <==> k in ToReconcile(w.cli, c, version)
    ensures forall k | k in keys :: k in w.cli && k.component == c && GoodEntry(k, w.cli[k])
    ensures HasEntry(w, c) ==> keys != []
  {
    hide GoodEntry;
    hide Trim;
    if HasEntry(w, c) {
      var k :| k in w.cli && k.component == c;
      assert k in EntriesOf(w.cli, c);
      var stale := StaleEntries(w.cli, c, version);
      if stale != {} { var s :| s in stale; assert s in keys; } else { assert k in keys; }
    }
  }

  lemma ReconcileKeepsOne(w: World, c: ComponentId, version: string, keys: seq<EntryKey>, n: nat, finished: bool,
                          d: ComponentId)
    requires Invariant(w) && Enabled(w, CliReconcile(c, version, keys, n, finished))
    requires forall k | k in keys :: k in w.cli && k.component == c && GoodEntry(k, w.cli[k])
    ensures var w' := ReconcileCommand(w, c, keys, n, finished);
            ManagedIn(w', d) == ManagedIn(w, d) && (PathDisjoint(d) && LeavesOwned(w, d) ==> LeavesOwned(w', d))
  {
    hide GoodEntry;
    hide ToReconcile;
    hide ManagedIn;
    hide TreeOf;
    hide Shape;
    hide HasEntry;
    hide Alike;
    hide AnyRevertible;
    var w1 := RevertEntries(w, c, keys[..n]);
    var w' := ReconcileCommand(w, c, keys, n, finished);
    assert forall k | k in keys[..n] :: k in keys;
    RevertsAlike(w, c, keys[..n], d);
    RevertsClear(w, c, keys[..n]);
    hide RevertEntries;
    assert w'.cli == w.cli || (n == |keys| && w'.cli == w.cli - Reconciled(w, c, keys));
    assert w'.configs == w1.configs;
    hide Reconciled;
    SameConfigsAlike(w1, w', d);
    RemovedEntries(w, w', c, keys, n, d);
    if HasEntry(w, c) { EntryExcludesOwner(w, c); }
    ReconciledLeaves(w, w1, w', c, keys[..n], d);
    hide LeavesOwned;
  }

  lemma EntryExcludesOwner(w: World, c: ComponentId)
    requires OneMode(w) && HasEntry(w, c)
    ensures !Owned(w, c)
  {
    hide ManagedIn;
    var k :| k in w.cli && k.component == c;
    assert w.cli != map[];
  }

  lemma ReconciledLeaves(w: World, w1: World, w': World, c: ComponentId, keys: seq<EntryKey>, d: ComponentId)
    requires d != c ==> Alike(w, w1, d)
    requires ManagedIn(w1, d) == ManagedIn(w, d) && Alike(w1, w', d)
    requires NoLeaves(TreeOf(w, c), Shape(c)) || AnyRevertible(w, c, keys) ==> NoLeaves(TreeOf(w1, c), Shape(c))
    requires d != c && HasEntry(w, d) ==> HasEntry(w', d)
    requires HasEntry(w, c) && !HasEntry(w', c) ==> AnyRevertible(w, c, keys)
    requires d == c && HasEntry(w, c) ==> !Owned(w, c)
    requires d == c && !HasEntry(w, c) ==> w' == w
    ensures ManagedIn(w', d) == ManagedIn(w, d) && (PathDisjoint(d) && LeavesOwned(w, d) ==> LeavesOwned(w', d))
  {
    hide ManagedIn;
    hide TreeOf;
    hide Shape;
    hide HasEntry;
    hide AnyRevertible;
  }

  // Only entries of c go, and the last of them goes only after one was reverted
  lemma RemovedEntries(w: World, w': World, c: ComponentId, keys: seq<EntryKey>, n: nat, d: ComponentId)
    requires n <= |keys| && forall k | k in keys :: k in w.cli && k.component == c
    requires w'.cli == w.cli || (n == |keys| && w'.cli == w.cli - Reconciled(w, c, keys))
    ensures d != c && HasEntry(w, d) ==> HasEntry(w', d)
    ensures HasEntry(w, c) && !HasEntry(w', c) ==> AnyRevertible(w, c, keys[..n])
    ensures !HasEntry(w, c) ==> keys == []
  {
    hide Revertible;
    if keys != [] { assert keys[0] in keys; }
    if HasEntry(w, d) {
      var k :| k in w.cli && k.component == d;
      assert d != c ==> k in w'.cli;
    }
    if HasEntry(w, c) && !HasEntry(w', c) {
      var k :| k in w.cli && k.component == c;
      assert k !in w'.cli;
      assert k in Reconciled(w, c, keys);
      assert keys[..n] == keys;
    }
  }

  lemma CliReconcileKeepsInvariant(w: World, c: ComponentId, version: string, keys: seq<EntryKey>, n: nat,
                                   finished: bool)
    requires Invariant(w) && Enabled(w, CliReconcile(c, version, keys, n, finished))
    ensures forall k | k in keys :: k in w.cli
    ensures Invariant(ReconcileCommand(w, c, keys, n, finished))
  {
    KeysAreGood(w, c, version, keys);
    var w' := ReconcileCommand(w, c, keys, n, finished);
    forall d ensures Owned(w', d) == Owned(w, d) && ManagedIn(w', d) == ManagedIn(w, d) {
      ReconcileKeepsOne(w, c, version, keys, n, finished, d);
      hide *;
    }
    EntriesStayGood(w, w');
    VersionsKept(w, CliReconcile(c, version, keys, n, finished));
    assert w'.patches == w.patches;
    hide LeavesOwned;
    hide ManagedIn;
    hide RevertEntries;
    hide Reconciled;
    hide OneCliRelease;
    assert OneMode(w');
    assert OneRelease(w');
    assert FinalizerHeld(w');
  }

  lemma EntriesStayGood(w: World, w': World)
    requires OneCliRelease(w) && forall k | k in w'.cli :: k in w.cli && w'.cli[k] == w.cli[k]
    ensures OneCliRelease(w')
  {
    hide GoodEntry;
  }

  /* ---- Runs ---- */

  lemma StepKeepsInvariant(w: World, s: Step)
    requires Invariant(w) && Enabled(w, s)
    ensures Invariant(Next(w, s))
  {
    match s
    case ControllerPass(c, o, v) => PassKeepsInvariant(w, c, o, v);
    case EditConfig(chart, config) => EditConfigKeepsInvariant(w, chart, config);
    case CliPatch(c, plan) => CliPatchKeepsInvariant(w, c, plan);
    case CliReconcile(c, version, keys, n, finished) => CliReconcileKeepsInvariant(w, c, version, keys, n, finished);
    case _ => EditsKeepInvariant(w, s);
  }

  lemma {:induction false} RunKeepsInvariant(w: World, run: seq<Step>)
    requires Invariant(w) && Legal(w, run)
    ensures Invariant(After(w, run))
    decreases |run|
  {
    if run == [] {
    } else {
      StepKeepsInvariant(w, run[0]);
      RunKeepsInvariant(Next(w, run[0]), run[1..]);
      hide Next;
      hide Enabled;
      hide Invariant;
    }
  }

  // image-patch can only be cut short while there is no ImagePatch
  lemma StepKeepsLeaves(w: World, s: Step, d: ComponentId)
    requires Invariant(w) && Enabled(w, s) && PathDisjoint(d) && LeavesOwned(w, d)
    requires CutsShort(s, d) ==> w.patches != map[]
    ensures LeavesOwned(Next(w, s), d)
  {
    hide Invariant;
    hide LeavesOwned;
    hide Alike;
    hide Pass;
    hide PassEffect;
    hide PassStep;
    hide ImagePatchCommand;
    hide RevertEntries;
    hide Reconciled;
    hide UnrelatedEdit;
    InvariantHas(w);
    match s {
      case ControllerPass(c, o, v) =>
        BelowIsVersioned(w, v.apply);
        PassIsAStep(w, c, o, v);
        EnabledIsFair(w, c, o, v, PassEffect(w, c, o, v));
        PassKeepsLeaves(w, Pass(w, c, o, v), c, o, PassEffect(w, c, o, v), d);
      case EditConfig(chart, config) =>
        EditedLeaves(w, chart, config, d);
        SameEntries(w, Next(w, s), d);
        LeavesFrame(w, Next(w, s), d);
      case CliPatch(c, plan) => CliPatchKeepsLeaves(w, c, plan, d);
      case CliReconcile(c, version, keys, n, finished) =>
        KeysAreGood(w, c, version, keys);
        ReconcileKeepsOne(w, c, version, keys, n, finished, d);
      case _ =>
        SameConfigsAlike(w, Next(w, s), d);
        SameEntries(w, Next(w, s), d);
        LeavesFrame(w, Next(w, s), d);
    }
  }

  lemma EnabledIsFair(w: World, c: ComponentId, o: Observed, v: Verdicts, e: Effect)
    requires Enabled(w, ControllerPass(c, o, v)) && FromVerdict(e, v.apply)
    ensures FairEffect(w, c, o, e)
  {
    hide UnrelatedEdit;
  }

  lemma {:induction false} RunKeepsLeaves(w: World, run: seq<Step>, c: ComponentId)
    requires Invariant(w) && Legal(w, run) && PathDisjoint(c) && LeavesOwned(w, c)
    requires forall i | 0 <= i < |run| :: !CutsShort(run[i], c)
    ensures LeavesOwned(After(w, run), c)
    decreases |run|
  {
    hide Next;
    hide Enabled;
    hide Invariant;
    hide LeavesOwned;
    hide CutsShort;
    if run == [] {
    } else {
      StepKeepsInvariant(w, run[0]);
      StepKeepsLeaves(w, run[0], c);
      assert forall i | 0 <= i < |run[1..]| :: run[1..][i] == run[i + 1];
      RunKeepsLeaves(Next(w, run[0]), run[1..], c);
    }
  }

  lemma UntouchedIsInvariant(w: World)
    requires Untouched(w)
    ensures Invariant(w) && forall c :: LeavesOwned(w, c)
  {
    hide Owned;
    hide TreeOf;
    hide Shape;
  }

  /** Ownership: in every state reached from an untouched cluster, a component whose values no other
      component writes is managed exactly when all its generated leaves are set, as long as the CLI
      holds no patch of it; and while it is managed its ImagePatch exists and holds the finalizer. Any
      command may fail or crash, but for an image-patch of the component itself that sets the values and
      does not record them. */
  lemma Ownership(w: World, run: seq<Step>, c: ComponentId)
    requires Untouched(w) && Legal(w, run) && PathDisjoint(c)
    requires forall i | 0 <= i < |run| :: !CutsShort(run[i], c)
    ensures var s := After(w, run);
            (Owned(s, c) ==> AllLeaves(TreeOf(s, c), Shape(c)) && c in s.patches && s.patches[c].finalizer) &&
            (!HasEntry(s, c) ==>
             (Owned(s, c) <==> AllLeaves(TreeOf(s, c), Shape(c))) &&
             (!Owned(s, c) ==> NoLeaves(TreeOf(s, c), Shape(c))))
  {
    UntouchedIsInvariant(w);
    RunKeepsInvariant(w, run);
    RunKeepsLeaves(w, run, c);
    var s := After(w, run);
    ShapeIsGenerated(c);
    NotBoth(TreeOf(s, c), Shape(c));
    assert LeavesOwned(s, c);
    hide TreeOf;
    hide Shape;
    hide ManagedIn;
    hide HasEntry;
    hide Untouched;
    hide Legal;
    hide AllLeaves;
    hide NoLeaves;
    hide CutsShort;
  }

  /** The two modes exclude each other, and the CLI never mixes releases, in every reachable state,
      commands cut short between their writes included. */
  lemma ModesExclude(w: World, run: seq<Step>)
    requires Untouched(w) && Legal(w, run)
    ensures OneMode(After(w, run)) && OneCliRelease(After(w, run))
  {
    hide *;
    UntouchedIsInvariant(w);
    RunKeepsInvariant(w, run);
    InvariantHas(After(w, run));
  }

  /** All managed annotations name the same RKE2 release in every reachable state, whatever versions
      the passes observe. */
  lemma OneReleaseAtATime(w: World, run: seq<Step>, c: ComponentId, d: ComponentId)
    requires Untouched(w) && Legal(w, run)
    requires Owned(After(w, run), c) && Owned(After(w, run), d)
    ensures ManagedIn(After(w, run), c) == ManagedIn(After(w, run), d)
  {
    hide *;
    UntouchedIsInvariant(w);
    RunKeepsInvariant(w, run);
    InvariantHas(After(w, run));
    ReleasesAgree(After(w, run), c, d);
  }

  lemma InvariantHas(w: World)
    requires Invariant(w)
    ensures VersionsBelow(w) && OneMode(w) && OneCliRelease(w) && OneRelease(w) && FinalizerHeld(w)
  {
  }

  lemma ReleasesAgree(w: World, c: ComponentId, d: ComponentId)
    requires OneRelease(w) && Owned(w, c) && Owned(w, d)
    ensures ManagedIn(w, c) == ManagedIn(w, d)
  {
  }

  /* ---- One write ---- */

  // What the values off the component's own leaves look like after its pass
  lemma OffLeavesStay(w: World, w': World, c: ComponentId, e: Effect, g: Tree)
    requires ConfigStep(w, w', c, e) && !e.Overtaken? && Disjoint(g, Shape(c))
    ensures AgreeOn(TreeOf(w, c), TreeOf(w', c), g)
  {
    hide *;
    TreeFollows(w, w', c, e, c);
    AgreeRefl(TreeOf(w, c), g);
    TreeAfterOwn(w, c, e);
    if e.Reverts? {
      SubtractOfDisjointAgrees(TreeOf(w, c), g, Shape(c));
    } else if e.Patches? {
      ShapeIgnoresLeaves(c, Repository(c), PLACEHOLDER, e.repository, e.tag);
      ShapeIs(c);
      SameShapeRefl(g);
      Patcher.DisjointFollowsShape(g, g, Shape(c), GeneratedValues(c, e.repository, e.tag));
      MergeOfDisjointAgrees(TreeOf(w, c), g, GeneratedValues(c, e.repository, e.tag));
    }
  }

  lemma ShapeIs(c: ComponentId)
    ensures Shape(c) == GeneratedValues(c, Repository(c), PLACEHOLDER)
  {
    hide GeneratedValues;
  }

  lemma TreeAfterOwn(w: World, c: ComponentId, e: Effect)
    requires !e.Overtaken?
    ensures e.NoWrite? ==> TreeAfter(w, c, e, c) == TreeOf(w, c)
    ensures e.Reverts? ==> TreeAfter(w, c, e, c) == Subtract(TreeOf(w, c), Shape(c))
    ensures e.Patches? ==> TreeAfter(w, c, e, c) == Merge(TreeOf(w, c), GeneratedValues(c, e.repository, e.tag))
  {
    hide TreeOf;
    hide Shape;
    hide GeneratedValues;
  }

  // The other annotations and every field the patcher does not know
  predicate SameOtherwise(before: Option<HelmConfig>, after: Option<HelmConfig>, c: ComponentId) {
    before.Some? ==>
      after.Some? && after.value.extra == before.value.extra &&
      after.value.annotations - {Managed(c)} == before.value.annotations - {Managed(c)}
  }

  lemma OtherFieldsStay(w: World, w': World, c: ComponentId, e: Effect)
    requires ConfigStep(w, w', c, e) && !e.Overtaken?
    ensures SameOtherwise(ConfigOf(w, c), ConfigOf(w', c), c)
  {
    hide ChartOf;
    hide GeneratedValues;
    hide Shape;
    hide Merge;
    hide Subtract;
    if !e.NoWrite? {
      StepNeeds(w, w', c, e);
      ConfigAfter(w, w', c, e, c);
    }
    hide Put;
  }

  // The pass stored nothing, or exactly one new version, of its own chart's object
  predicate OwnWriteOnly(w: World, w': World, c: ComponentId) {
    w'.nextVersion <= w.nextVersion + 1 && (w'.nextVersion == w.nextVersion ==> w'.configs == w.configs) &&
    SameOtherwise(ConfigOf(w, c), ConfigOf(w', c), c)
  }

  // The only change is what another client stored between the read and the write
  predicate OnlyTheRival(w: World, w': World, c: ComponentId, v: Verdict) {
    v.Raced? && w'.configs == Put(w, ChartOf(c), v.edit).configs && w'.nextVersion == w.nextVersion + 1
  }

  /** A pass writes at most one object once, that of its component's chart, and there nothing but the
      component's own leaves and annotation. If another client's write comes between its read and its
      write, only that client's write is stored. */
  lemma PassWritesItsOwnLeavesOnce(w: World, c: ComponentId, o: Observed, v: Verdicts, d: ComponentId, g: Tree)
    requires VersionsBelow(w) && Disjoint(g, Shape(c))
    ensures var w' := Pass(w, c, o, v);
            OnlyTheRival(w, w', c, v.apply) ||
            (OwnWriteOnly(w, w', c) && (d != c ==> ManagedIn(w', d) == ManagedIn(w, d)) &&
             AgreeOn(TreeOf(w, c), TreeOf(w', c), g))
    ensures ChartOf(d) != ChartOf(c) ==> ConfigOf(Pass(w, c, o, v), d) == ConfigOf(w, d)
    ensures v.apply.Raced? ==> Pass(w, c, o, v).configs == w.configs || OnlyTheRival(w, Pass(w, c, o, v), c, v.apply)
  {
    hide *;
    var w', e := Pass(w, c, o, v), PassEffect(w, c, o, v);
    BelowIsVersioned(w, v.apply);
    PassIsAStep(w, c, o, v);
    StepHasConfig(w, w', c, o, e);
    if ChartOf(d) != ChartOf(c) { ElsewhereStays(w, w', c, e, d); }
    if v.apply.Raced? { RacedEffect(w, c, o, v); }
    OvertakenIs(w, w', c, e, v);
    if !e.Overtaken? {
      OneVersion(w, w', c, e);
      OtherFieldsStay(w, w', c, e);
      OwnWriteIs(w, w', c);
      OffLeavesStay(w, w', c, e, g);
      ManagedFollows(w, w', c, e, d);
      OthersManaged(w, c, e, d);
    }
  }

  lemma OwnWriteIs(w: World, w': World, c: ComponentId)
    requires w'.nextVersion <= w.nextVersion + 1 && (w'.nextVersion == w.nextVersion ==> w'.configs == w.configs)
    requires SameOtherwise(ConfigOf(w, c), ConfigOf(w', c), c)
    ensures OwnWriteOnly(w, w', c)
  {
    hide SameOtherwise;
  }

  lemma OvertakenIs(w: World, w': World, c: ComponentId, e: Effect, v: Verdicts)
    requires ConfigStep(w, w', c, e) && FromVerdict(e, v.apply)
    ensures e.Overtaken? ==> OnlyTheRival(w, w', c, v.apply)
    ensures e.NoWrite? ==> w'.configs == w.configs
  {
    hide ChartOf;
  }

  // A pass that is overtaken has no write of its own
  lemma RacedEffect(w: World, c: ComponentId, o: Observed, v: Verdicts)
    requires v.apply.Raced?
    ensures PassEffect(w, c, o, v).NoWrite? || PassEffect(w, c, o, v).Overtaken?
  {
    hide Gates;
    hide Decide;
    hide ConfigOf;
    hide UpdatePatch;
    hide RepositoryFor;
    hide ManagedOn;
  }

  lemma NotRaced(e: Effect, v: Verdicts)
    requires FromVerdict(e, v.apply) && !v.apply.Raced?
    ensures !e.Overtaken?
  {
  }

  lemma OneVersion(w: World, w': World, c: ComponentId, e: Effect)
    requires ConfigStep(w, w', c, e)
    ensures w'.nextVersion <= w.nextVersion + 1 && (w'.nextVersion == w.nextVersion ==> w'.configs == w.configs)
  {
    hide Put;
    hide ChartOf;
    hide RevertedConfig;
    hide PatchedConfig;
  }

  lemma OthersManaged(w: World, c: ComponentId, e: Effect, d: ComponentId)
    requires !e.Overtaken?
    ensures d != c ==> ManagedAfter(w, c, e, d) == ManagedIn(w, d)
  {
    hide ManagedIn;
    hide ChartOf;
  }
}
