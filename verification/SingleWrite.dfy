/** No ping-pong: on one release, and as long as its spec stays, a component's passes write its
    HelmChartConfig at most once, whatever happens to the other components in between. */
module SingleWrite {
  import opened Text
  import opened Values
  import opened Components
  import opened Cluster
  import opened Reconciliation
  import opened PassFacts
  import opened CommandLine
  import opened Runs
  import opened Versions
  import opened Invariants
  import opened AutoRevertSafety
  import Patcher
  import Policy

  // What stays the same: the release, its bundled tag and the registry path of the running image.
  // The published tags, the zero-day, the prime setting and which reads fail may all vary.
  datatype Setting = Setting(version: string, bundled: Patcher.Bundled, repository: string)

  predicate Steady(env: Setting, c: ComponentId, o: Observed) {
    (o.version.Some? ==> o.version.value == env.version) &&
    (o.chart.Some? ==> Patcher.BundledOf(c, o.chart.value) == env.bundled) &&
    (o.images.Some? ==> RepositoryFor(c, o.images.value) == env.repository)
  }

  // Steps that leave the ImagePatch of c alone, its own passes aside
  predicate SteadyStep(env: Setting, c: ComponentId, s: Step) {
    !Touches(s, c) && (s.ControllerPass? && s.c == c ==> Steady(env, c, s.o))
  }

  // The values of the patch are in place and no rule asks for their removal
  predicate InPlace(env: Setting, w: World, c: ComponentId, baseline: string)
    requires c in w.patches
  {
    var ip := w.patches[c];
    ManagedIn(w, c) == env.version && ip.marker != Some(ip.generation) && ip.tag != baseline &&
    Policy.ValidateAgainstBaseline(baseline, ip.tag).None? &&
    Patcher.Present(TreeOf(w, c), GeneratedValues(c, env.repository, ip.tag))
  }

  // The spec asks for no patch, or for one the bundled tag has reached
  predicate NotWanted(ip: ImagePatch, baseline: string) {
    ip.marker == Some(ip.generation) || ip.tag == baseline || Policy.ValidateAgainstBaseline(baseline, ip.tag).Some?
  }

  // Nothing is left to write for c
  predicate Settled(env: Setting, w: World, c: ComponentId) {
    c in w.patches ==>
      if w.patches[c].deleting then !Owned(w, c)
      else if env.bundled.BundledTag? then
        if Owned(w, c) then InPlace(env, w, c, env.bundled.tag) else NotWanted(w.patches[c], env.bundled.tag)
      else true
  }

  predicate Writes(e: Effect) {
    e.Reverts? || e.Patches?
  }

  /* ---- A settled component is not written ---- */

  lemma GatesFollow(env: Setting, w: World, c: ComponentId, o: Observed)
    requires Steady(env, c, o) && Gates(w, c, o).Open?
    ensures Gates(w, c, o).version == env.version && env.bundled == Patcher.BundledTag(Gates(w, c, o).baseline)
  {
    hide Patcher.BundledOf;
  }

  lemma PresentInTree(w: World, c: ComponentId, g: Tree)
    requires ValuesOf(ConfigOf(w, c)).Map?
    ensures TreeOf(w, c) == ValuesOf(ConfigOf(w, c))
  {
    hide ConfigOf;
  }

  lemma NoPatchWhenSettled(env: Setting, w: World, w': World, c: ComponentId, o: Observed, e: Effect)
    requires PassStep(w, w', c, o, e) && Steady(env, c, o) && Settled(env, w, c)
    ensures !e.Patches?
  {
    hide ConfigStep;
    hide ConfigOf;
    hide GeneratedValues;
    hide RepositoryFor;
    hide OthersStale;
    hide ManagedIn;
    hide Gates;
    hide Patcher.Present;
    hide Patcher.HasConflict;
    hide Patcher.BundledOf;
    hide Policy.ValidateAgainstBaseline;
    hide Policy.ValidatePatchWindow;
    hide Policy.ValidateNotOlderThanCurrent;
    hide TreeOf;
    if e.Patches? {
      GatesFollow(env, w, c, o);
      PresentInTree(w, c, EMPTY);
    }
  }

  lemma NoRevertWhenSettled(env: Setting, w: World, w': World, c: ComponentId, o: Observed, e: Effect)
    requires PassStep(w, w', c, o, e) && Steady(env, c, o) && Settled(env, w, c)
    ensures !e.Reverts?
  {
    hide ConfigStep;
    hide MayPatch;
    hide ManagedIn;
    hide Gates;
    hide Patcher.Present;
    hide Patcher.BundledOf;
    hide Policy.ValidateAgainstBaseline;
    hide TreeOf;
    if e.Reverts? && !w.patches[c].deleting { GatesFollow(env, w, c, o); }
  }

  /* ---- It stays settled ---- */

  // All that counts of an ImagePatch
  predicate SameIntent(p: ImagePatch, q: ImagePatch) {
    q.tag == p.tag && q.generation == p.generation && q.deleting == p.deleting &&
    (q.marker == Some(q.generation) <==> p.marker == Some(p.generation))
  }

  // The component's ImagePatch and ownership stay, and so do the values at its leaves
  lemma SettledFrame(env: Setting, w: World, w': World, c: ComponentId)
    requires Settled(env, w, c) && (c in w'.patches ==> c in w.patches && SameIntent(w.patches[c], w'.patches[c]))
    requires ManagedIn(w', c) == ManagedIn(w, c)
    requires Owned(w, c) ==> AgreeOn(TreeOf(w, c), TreeOf(w', c), Shape(c))
    ensures Settled(env, w', c)
  {
    hide ManagedIn;
    hide TreeOf;
    hide Shape;
    hide GeneratedValues;
    hide AgreeOn;
    hide Patcher.Present;
    hide Policy.ValidateAgainstBaseline;
    if Owned(w, c) && c in w'.patches && !w.patches[c].deleting && env.bundled.BundledTag? {
      StillPresent(TreeOf(w, c), TreeOf(w', c), c, env.repository, w.patches[c].tag);
    }
  }

  lemma StillPresent(t: Tree, u: Tree, c: ComponentId, repository: string, tag: string)
    requires AgreeOn(t, u, Shape(c)) && Patcher.Present(t, GeneratedValues(c, repository, tag))
    ensures Patcher.Present(u, GeneratedValues(c, repository, tag))
  {
    hide *;
    ShapeIgnoresLeaves(c, Repository(c), PLACEHOLDER, repository, tag);
    ShapeIs(c);
    ShapeIsGenerated(c);
    GeneratedIsSolid(Shape(c), GeneratedValues(c, repository, tag));
    AgreeFollowsShape(t, u, Shape(c), GeneratedValues(c, repository, tag));
    Patcher.AgreementKeepsPresence(t, u, GeneratedValues(c, repository, tag));
  }

  lemma OtherPassKeepsSettled(env: Setting, w: World, w': World, d: ComponentId, o: Observed, e: Effect, c: ComponentId)
    requires PassStep(w, w', d, o, e) && FairEffect(w, d, o, e) && c != d && (PathDisjoint(d) || PathDisjoint(c))
    requires Settled(env, w, c)
    ensures Settled(env, w', c)
  {
    OthersOwnedAlike(w, w', d, o, e, c);
    StepParts(w, w', d, o, e);
    OtherAgrees(w, w', d, e, c);
    hide *;
    OthersKeptAt(w.patches, w'.patches, d, c);
    SettledFrame(env, w, w', c);
  }

  lemma StepParts(w: World, w': World, c: ComponentId, o: Observed, e: Effect)
    requires PassStep(w, w', c, o, e) && FairEffect(w, c, o, e)
    ensures ConfigStep(w, w', c, e) && OthersKept(w.patches, w'.patches, c)
    ensures e.Overtaken? ==> UnrelatedEdit(w, ChartOf(c), e.edit)
  {
    hide ConfigStep;
    hide OwnStep;
    hide UnrelatedEdit;
  }

  lemma OthersKeptAt(p: map<ComponentId, ImagePatch>, q: map<ComponentId, ImagePatch>, c: ComponentId, d: ComponentId)
    requires OthersKept(p, q, c) && d != c
    ensures d in q ==> d in p && SameIntent(p[d], q[d])
  {
  }

  // Without a write of its own, a pass leaves the values at the component's leaves
  lemma OwnAgrees(w: World, w': World, c: ComponentId, e: Effect)
    requires ConfigStep(w, w', c, e) && !Writes(e) && (e.Overtaken? ==> UnrelatedEdit(w, ChartOf(c), e.edit))
    ensures AgreeOn(TreeOf(w, c), TreeOf(w', c), Shape(c))
  {
    hide ConfigStep;
    hide Shape;
    hide TreeOf;
    TreeFollows(w, w', c, e, c);
    AgreeRefl(TreeOf(w, c), Shape(c));
    if e.Overtaken? { EditAgrees(w, ChartOf(c), e.edit, c); }
  }

  lemma IntentStays(env: Setting, w: World, w': World, c: ComponentId, o: Observed, e: Effect)
    requires PassStep(w, w', c, o, e) && Steady(env, c, o) && Settled(env, w, c) && c in w'.patches
    ensures c in w.patches && SameIntent(w.patches[c], w'.patches[c])
  {
    StaysAway(w, w', c, o, e);
    SpecStays(w, w', c, o, e);
    hide ConfigStep;
    hide MayPatch;
    hide ManagedIn;
    hide TreeOf;
    hide GeneratedValues;
    hide Gates;
    hide Patcher.Present;
    hide Patcher.BundledOf;
    hide Policy.ValidateAgainstBaseline;
    if w'.patches[c].marker == Some(w'.patches[c].generation) && !w.patches[c].deleting && Gates(w, c, o).Open? {
      GatesFollow(env, w, c, o);
    }
  }

  lemma OwnPassKeepsSettled(env: Setting, w: World, w': World, c: ComponentId, o: Observed, e: Effect)
    requires PassStep(w, w', c, o, e) && FairEffect(w, c, o, e) && Steady(env, c, o) && Settled(env, w, c) && !Writes(e)
    ensures Settled(env, w', c)
  {
    hide *;
    OthersOwnedAlike(w, w', c, o, e, c);
    StepParts(w, w', c, o, e);
    OwnAgrees(w, w', c, e);
    if c in w'.patches { IntentStays(env, w, w', c, o, e); }
    NotWriting(e);
    SettledFrame(env, w, w', c);
  }

  lemma NotWriting(e: Effect)
    ensures !Writes(e) ==> e.NoWrite? || e.Overtaken?
  {
  }

  /* ---- A write settles the component ---- */

  lemma PatchSettles(env: Setting, w: World, w': World, c: ComponentId, o: Observed, e: Effect)
    requires PassStep(w, w', c, o, e) && FairEffect(w, c, o, e) && Steady(env, c, o) && e.Patches?
    ensures Settled(env, w', c)
  {
    OthersOwnedAlike(w, w', c, o, e, c);
    PatchingPass(w, w', c, o, e);
    SpecStays(w, w', c, o, e);
    PatchMeans(env, w, w', c, o, e);
    hide PassStep;
    hide FairEffect;
    hide Steady;
    hide ManagedIn;
    hide TreeOf;
    hide GeneratedValues;
    hide Patcher.Present;
    hide Policy.ValidateAgainstBaseline;
  }

  lemma PatchMeans(env: Setting, w: World, w': World, c: ComponentId, o: Observed, e: Effect)
    requires PassStep(w, w', c, o, e) && Steady(env, c, o) && e.Patches? && c in w.patches && !w.patches[c].deleting
    ensures c in w'.patches && w'.patches[c].marker == None && w'.patches[c].tag == e.tag && e.version == env.version
    ensures env.bundled.BundledTag? && e.tag != env.bundled.tag
    ensures Policy.ValidateAgainstBaseline(env.bundled.tag, e.tag).None?
    ensures Patcher.Present(TreeOf(w', c), GeneratedValues(c, env.repository, e.tag))
  {
    hide ConfigStep;
    hide ConfigOf;
    hide GeneratedValues;
    hide RepositoryFor;
    hide OthersStale;
    hide ManagedIn;
    hide TreeOf;
    hide Gates;
    hide Patcher.Present;
    hide Patcher.HasConflict;
    hide Patcher.BundledOf;
    hide Policy.ValidateAgainstBaseline;
    hide Policy.ValidatePatchWindow;
    hide Policy.ValidateNotOlderThanCurrent;
    GatesFollow(env, w, c, o);
    TreeFollows(w, w', c, e, c);
    Patcher.MergedIsPresent(TreeOf(w, c), GeneratedValues(c, e.repository, e.tag));
  }

  lemma RevertSettles(env: Setting, w: World, w': World, c: ComponentId, o: Observed, e: Effect)
    requires PassStep(w, w', c, o, e) && FairEffect(w, c, o, e) && Steady(env, c, o) && e.Reverts?
    ensures Settled(env, w', c)
  {
    OthersOwnedAlike(w, w', c, o, e, c);
    StaysAway(w, w', c, o, e);
    if c in w'.patches { SpecStays(w, w', c, o, e); }
    hide ConfigStep;
    hide MayPatch;
    hide FairEffect;
    hide ManagedIn;
    hide TreeOf;
    hide GeneratedValues;
    hide Gates;
    hide Patcher.Present;
    hide Patcher.BundledOf;
    hide Policy.ValidateAgainstBaseline;
    if c in w.patches && !w.patches[c].deleting { GatesFollow(env, w, c, o); }
  }

  lemma PassSettles(env: Setting, w: World, c: ComponentId, o: Observed, v: Verdicts)
    requires Versioned(w, v.apply) && Enabled(w, ControllerPass(c, o, v)) && Steady(env, c, o)
    requires Settled(env, w, c) || Writes(PassEffect(w, c, o, v))
    ensures Settled(env, Pass(w, c, o, v), c)
    ensures Settled(env, w, c) ==> !Writes(PassEffect(w, c, o, v))
  {
    hide *;
    var w', e := Pass(w, c, o, v), PassEffect(w, c, o, v);
    PassIsAStep(w, c, o, v);
    EnabledIsFair(w, c, o, v, e);
    WritingIs(e);
    if Settled(env, w, c) {
      NoPatchWhenSettled(env, w, w', c, o, e);
      NoRevertWhenSettled(env, w, w', c, o, e);
      OwnPassKeepsSettled(env, w, w', c, o, e);
    } else if e.Patches? {
      PatchSettles(env, w, w', c, o, e);
    } else {
      RevertSettles(env, w, w', c, o, e);
    }
  }

  lemma WritingIs(e: Effect)
    ensures Writes(e) <==> e.Reverts? || e.Patches?
  {
  }

  /* ---- Every other step ---- */

  lemma EditKeepsSettled(env: Setting, w: World, chart: Chart, config: HelmConfig, c: ComponentId)
    requires UnrelatedEdit(w, chart, config) && Settled(env, w, c)
    ensures Settled(env, Put(w, chart, config), c)
  {
    hide *;
    var w' := Put(w, chart, config);
    EditKeepsOwners(w, chart, config, c);
    EditedConfig(w, chart, config, c);
    AgreeRefl(TreeOf(w, c), Shape(c));
    if ChartOf(c) == chart { EditAgrees(w, chart, config, c); }
    PutKeeps(w, chart, config);
    SameIsSame(w, w', c);
    SettledFrame(env, w, w', c);
  }

  lemma PutKeeps(w: World, chart: Chart, config: HelmConfig)
    ensures Put(w, chart, config).patches == w.patches
  {
  }

  lemma SameIsSame(w: World, w': World, c: ComponentId)
    requires c in w'.patches ==> c in w.patches && w'.patches[c] == w.patches[c]
    ensures c in w'.patches ==> c in w.patches && SameIntent(w.patches[c], w'.patches[c])
  {
  }

  lemma OtherEditsLeave(env: Setting, w: World, s: Step, c: ComponentId)
    requires Enabled(w, s) && SteadyStep(env, c, s)
    requires s.Upgrade? || s.CreatePatch? || s.EditSpec? || s.DeletePatch? || s.RemoveMarker?
    ensures var w' := Next(w, s);
            w'.configs == w.configs && (c in w'.patches ==> c in w.patches && w'.patches[c] == w.patches[c])
  {
    hide Pass;
    hide UnrelatedEdit;
    hide ImagePatchCommand;
    hide ReconcileCommand;
    hide ToReconcile;
    hide Steady;
  }

  lemma OtherEditsKeepSettled(env: Setting, w: World, s: Step, c: ComponentId)
    requires Enabled(w, s) && SteadyStep(env, c, s) && Settled(env, w, c)
    requires s.Upgrade? || s.CreatePatch? || s.EditSpec? || s.DeletePatch? || s.RemoveMarker?
    ensures Settled(env, Next(w, s), c)
  {
    hide *;
    var w' := Next(w, s);
    OtherEditsLeave(env, w, s, c);
    SameIsSame(w, w', c);
    SameConfigsSame(w, w', c);
    AgreeRefl(TreeOf(w, c), Shape(c));
    SettledFrame(env, w, w', c);
  }

  // Nothing the command line does touches a managed component
  lemma ReconcileKeepsSettled(env: Setting, w: World, d: ComponentId, version: string, keys: seq<EntryKey>, n: nat,
                              finished: bool, c: ComponentId)
    requires Enabled(w, CliReconcile(d, version, keys, n, finished)) && OneMode(w) && Settled(env, w, c)
    ensures Settled(env, Next(w, CliReconcile(d, version, keys, n, finished)), c)
  {
    hide *;
    var w' := Next(w, CliReconcile(d, version, keys, n, finished));
    ReconcileKeepsOwners(w, d, version, keys, n, finished, c);
    SameIsSame(w, w', c);
    if Owned(w, c) {
      OwnedMeansNoEntries(w, c);
      NothingToReconcile(w, d, version, keys, n, finished);
      AgreeRefl(TreeOf(w, c), Shape(c));
    }
    SettledFrame(env, w, w', c);
  }

  lemma OwnedMeansNoEntries(w: World, c: ComponentId)
    requires OneMode(w) && Owned(w, c)
    ensures w.cli == map[]
  {
    hide Owned;
  }

  lemma FirstIsMember(keys: seq<EntryKey>)
    ensures keys == [] || keys[0] in keys
  {
  }

  lemma NothingToReconcile(w: World, c: ComponentId, version: string, keys: seq<EntryKey>, n: nat, finished: bool)
    requires Enabled(w, CliReconcile(c, version, keys, n, finished)) && w.cli == map[]
    ensures Next(w, CliReconcile(c, version, keys, n, finished)) == w
  {
    hide Pass;
    hide ImagePatchCommand;
    hide RevertEntry;
    hide Revertible;
    hide UnrelatedEdit;
    hide Trim;
    hide Unreadable;
    assert ToReconcile(w.cli, c, version) == {};
    FirstIsMember(keys);
    assert Reconciled(w, c, keys) == {};
    assert w.cli - {} == w.cli;
  }

  lemma StepKeepsSettled(env: Setting, w: World, s: Step, c: ComponentId)
    requires Enabled(w, s) && SteadyStep(env, c, s) && PathDisjoint(c) && OneMode(w) && Settled(env, w, c)
    requires VersionsBelow(w)
    ensures Settled(env, Next(w, s), c)
  {
    hide VersionsBelow;
    hide Settled;
    hide Steady;
    hide OneMode;
    hide UnrelatedEdit;
    hide PathDisjoint;
    hide Pass;
    hide ReconcileCommand;
    hide ImagePatchCommand;
    match s {
      case ControllerPass(d, o, v) =>
        BelowIsVersioned(w, v.apply);
        PassKeepsSettled(env, w, d, o, v, c);
      case EditConfig(chart, config) => EditKeepsSettled(env, w, chart, config, c);
      case CliPatch(d, plan) => CliPatchKeepsSettled(env, w, d, plan, c);
      case CliReconcile(d, on, keys, n, finished) => ReconcileKeepsSettled(env, w, d, on, keys, n, finished, c);
      case _ => OtherEditsKeepSettled(env, w, s, c);
    }
  }

  lemma PassKeepsSettled(env: Setting, w: World, d: ComponentId, o: Observed, v: Verdicts, c: ComponentId)
    requires Versioned(w, v.apply) && Enabled(w, ControllerPass(d, o, v)) && (d == c ==> Steady(env, c, o))
    requires PathDisjoint(c) && Settled(env, w, c)
    ensures Settled(env, Pass(w, d, o, v), c)
  {
    hide *;
    if d == c {
      PassSettles(env, w, c, o, v);
    } else {
      PassIsAStep(w, d, o, v);
      EnabledIsFair(w, d, o, v, PassEffect(w, d, o, v));
      OtherPassKeepsSettled(env, w, Pass(w, d, o, v), d, o, PassEffect(w, d, o, v), c);
    }
  }

  // image-patch refuses while there is any ImagePatch
  lemma CliPatchKeepsSettled(env: Setting, w: World, d: ComponentId, p: PatchPlan, c: ComponentId)
    requires Settled(env, w, c)
    ensures Settled(env, ImagePatchCommand(w, d, p), c)
  {
    hide Owned;
    hide InPlace;
    hide NotWanted;
    hide Policy.Resolve;
    hide Policy.ValidatePatchWindow;
    hide MergedConfig;
    hide GeneratedValues;
  }

  lemma {:induction false} RunKeepsSettled(env: Setting, w: World, run: seq<Step>, c: ComponentId)
    requires Invariant(w) && Legal(w, run) && PathDisjoint(c) && Settled(env, w, c)
    requires forall i | 0 <= i < |run| :: SteadyStep(env, c, run[i])
    ensures Settled(env, After(w, run), c)
    decreases |run|
  {
    hide Settled;
    hide SteadyStep;
    hide Enabled;
    hide Next;
    hide Invariant;
    hide PathDisjoint;
    if run == [] {
    } else {
      InvariantHas(w);
      StepKeepsSettled(env, w, run[0], c);
      StepKeepsInvariant(w, run[0]);
      assert forall i | 0 <= i < |run[1..]| :: run[1..][i] == run[i + 1];
      RunKeepsSettled(env, Next(w, run[0]), run[1..], c);
    }
  }

  /** In any reachable state, a component that shares no leaf with another writes its HelmChartConfig
      at most once while the release and its spec stay: after one write no later pass writes again.
      In between there may be any passes over the other components, failed and crashed ones too,
      edits, creations and deletions of their ImagePatches, edits of unrelated values and commands. */
  lemma AtMostOneWrite(env: Setting, w: World, c: ComponentId, o: Observed, v: Verdicts, run: seq<Step>, o': Observed,
                       v': Verdicts)
    requires Invariant(w) && PathDisjoint(c) && Enabled(w, ControllerPass(c, o, v)) && Steady(env, c, o)
    requires Writes(PassEffect(w, c, o, v))
    requires Legal(Pass(w, c, o, v), run) && forall i | 0 <= i < |run| :: SteadyStep(env, c, run[i])
    requires var w2 := After(Pass(w, c, o, v), run); Enabled(w2, ControllerPass(c, o', v')) && Steady(env, c, o')
    ensures !Writes(PassEffect(After(Pass(w, c, o, v), run), c, o', v'))
  {
    hide *;
    var w1 := Pass(w, c, o, v);
    PassKeepsInvariant(w, c, o, v);
    RunKeepsInvariant(w1, run);
    InvariantHas(w);
    InvariantHas(After(w1, run));
    BelowIsVersioned(w, v.apply);
    BelowIsVersioned(After(w1, run), v'.apply);
    PassSettles(env, w, c, o, v);
    RunKeepsSettled(env, w1, run, c);
    PassSettles(env, After(Pass(w, c, o, v), run), c, o', v');
  }
}
