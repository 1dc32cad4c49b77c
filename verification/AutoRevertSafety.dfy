/** upgradePolicy AutoRevert: a spec generation written on one release is not written on another,
    and an interrupted revert is finished by a later pass. */
module AutoRevertSafety {
  import opened Text
  import opened Values
  import opened Components
  import opened Cluster
  import opened Reconciliation
  import opened PassFacts
  import opened CommandLine
  import opened Runs
  import opened Versions
  import opened Invariants
  import Patcher
  import Policy

  /* ---- A spec generation stays on its release ---- */

  // Which spec generation was written, with which tag and on which release
  datatype Origin = Origin(generation: nat, tag: string, version: string)

  predicate StillAhead(bundled: Patcher.Bundled, tag: string) {
    match bundled
    case BundledTag(baseline) => tag != baseline && Policy.ValidateAgainstBaseline(baseline, tag).None?
    case _ => true
  }

  // A pass that sees the release of the patch does not see it bundle a tag that has reached the patch
  predicate SeesAhead(c: ComponentId, o: Observed, from: Origin) {
    o.version == Some(from.version) && o.chart.Some? ==> StillAhead(Patcher.BundledOf(c, o.chart.value), from.tag)
  }

  // Nothing is asked of the passes over other components
  predicate Consistent(s: Step, c: ComponentId, from: Origin) {
    s.ControllerPass? && s.c == c ==> SeesAhead(c, s.o, from)
  }

  // What is left of a patch: as long as the spec is unchanged, it is managed on its release, or marked
  // as reverted, or being deleted
  predicate Remembers(w: World, c: ComponentId, from: Origin) {
    c in w.patches && from.generation <= w.patches[c].generation && from.version != "" &&
    (w.patches[c].generation == from.generation ==>
     w.patches[c].tag == from.tag &&
     (ManagedIn(w, c) == from.version || w.patches[c].marker == Some(from.generation) || w.patches[c].deleting))
  }

  predicate Kept(w: World, c: ComponentId, from: Origin) {
    c in w.patches ==> Remembers(w, c, from)
  }

  /* ---- Steps ---- */

  lemma OwnPassRemembers(w: World, w': World, c: ComponentId, o: Observed, e: Effect, from: Origin)
    requires PassStep(w, w', c, o, e) && FairEffect(w, c, o, e) && SeesAhead(c, o, from)
    requires Remembers(w, c, from) && c in w'.patches && !e.Patches?
    ensures Remembers(w', c, from)
  {
    hide ConfigStep;
    hide ManagedIn;
    hide Justified;
    hide FairEffect;
    OthersOwnedAlike(w, w', c, o, e, c);
    if e.Reverts? && !w.patches[c].deleting && w.patches[c].generation == from.generation {
      RevertIsMarked(w, w', c, o, e, from);
    }
    SpecStays(w, w', c, o, e);
    hide PassStep;
    hide SeesAhead;
  }

  // A pass never touches a spec, and takes back only markers of other generations
  lemma SpecStays(w: World, w': World, c: ComponentId, o: Observed, e: Effect)
    requires PassStep(w, w', c, o, e) && c in w.patches && c in w'.patches
    ensures var p, q := w.patches[c], w'.patches[c];
            q.tag == p.tag && q.policy == p.policy && q.generation == p.generation && q.deleting == p.deleting &&
            (p.marker == Some(p.generation) ==> q.marker == Some(p.generation))
  {
    hide ConfigStep;
    hide Justified;
  }

  // A revert of the very patch that is remembered leaves the marker behind
  lemma RevertIsMarked(w: World, w': World, c: ComponentId, o: Observed, e: Effect, from: Origin)
    requires PassStep(w, w', c, o, e) && SeesAhead(c, o, from) && e.Reverts?
    requires Remembers(w, c, from) && !w.patches[c].deleting && w.patches[c].generation == from.generation
    ensures w'.patches[c].marker == Some(from.generation)
  {
    hide ConfigStep;
    hide ConfigOf;
    hide Patcher.BundledOf;
    hide Policy.ValidateAgainstBaseline;
    hide ManagedIn;
  }

  lemma PatchIsRemembered(w: World, w': World, c: ComponentId, o: Observed, e: Effect)
    requires PassStep(w, w', c, o, e) && FairEffect(w, c, o, e) && e.Patches?
    ensures c in w'.patches && Remembers(w', c, Origin(w'.patches[c].generation, e.tag, e.version))
  {
    OthersOwnedAlike(w, w', c, o, e, c);
    PatchingPass(w, w', c, o, e);
    PatchIsOfSpec(w, w', c, o, e);
    hide PassStep;
    hide ManagedIn;
    hide FairEffect;
  }

  lemma PatchIsOfSpec(w: World, w': World, c: ComponentId, o: Observed, e: Effect)
    requires PassStep(w, w', c, o, e) && e.Patches? && c in w.patches && c in w'.patches
    ensures w'.patches[c].tag == e.tag
  {
    hide ConfigStep;
    hide MayPatch;
  }

  // A patch of the same spec is a patch on the same release
  lemma SameRelease(w: World, w': World, c: ComponentId, o: Observed, e: Effect, from: Origin)
    requires PassStep(w, w', c, o, e) && e.Patches? && c in w.patches
    requires Remembers(w, c, from) && w.patches[c].generation == from.generation
    ensures e.version == from.version
  {
    hide ConfigStep;
    hide ConfigOf;
    hide GeneratedValues;
    hide RepositoryFor;
    hide OthersStale;
    hide ManagedIn;
    hide Patcher.BundledOf;
    hide Patcher.Present;
    hide Patcher.HasConflict;
    hide Policy.ValidateTarget;
    hide Policy.ValidatePatchWindow;
    hide Policy.ValidateNotOlderThanCurrent;
  }

  lemma PassRemembers(w: World, c: ComponentId, o: Observed, v: Verdicts, d: ComponentId, from: Origin)
    requires Versioned(w, v.apply) && Enabled(w, ControllerPass(c, o, v)) && (c == d ==> SeesAhead(c, o, from))
    requires Kept(w, d, from)
    ensures Kept(Pass(w, c, o, v), d, from)
  {
    hide Pass;
    hide PassEffect;
    hide PassStep;
    hide Remembers;
    hide SeesAhead;
    hide UnrelatedEdit;
    var w', e := Pass(w, c, o, v), PassEffect(w, c, o, v);
    PassIsAStep(w, c, o, v);
    StaysAway(w, w', c, o, e);
    if d in w'.patches {
      if d != c {
        OtherRemembers(w, w', c, o, e, d, from);
      } else if e.Patches? {
        PatchIsRemembered(w, w', c, o, e);
        PatchOfRemembered(w, w', c, o, e, from);
      } else {
        OwnPassRemembers(w, w', c, o, e, from);
      }
    }
  }

  lemma StaysAway(w: World, w': World, c: ComponentId, o: Observed, e: Effect)
    requires PassStep(w, w', c, o, e)
    ensures forall d :: d in w'.patches ==> d in w.patches
  {
    hide ConfigStep;
    hide Justified;
  }

  lemma OtherRemembers(w: World, w': World, c: ComponentId, o: Observed, e: Effect, d: ComponentId, from: Origin)
    requires PassStep(w, w', c, o, e) && FairEffect(w, c, o, e) && d != c
    requires Remembers(w, d, from)
    ensures Remembers(w', d, from)
  {
    hide ConfigStep;
    hide OwnStep;
    hide FairEffect;
    hide ManagedIn;
    OthersOwnedAlike(w, w', c, o, e, d);
  }

  lemma PatchOfRemembered(w: World, w': World, c: ComponentId, o: Observed, e: Effect, from: Origin)
    requires PassStep(w, w', c, o, e) && e.Patches? && c in w.patches && c in w'.patches
    requires Remembers(w, c, from) && Remembers(w', c, Origin(w'.patches[c].generation, e.tag, e.version))
    ensures Remembers(w', c, from)
  {
    SpecStays(w, w', c, o, e);
    if w.patches[c].generation == from.generation { SameRelease(w, w', c, o, e, from); }
    hide PassStep;
    hide ManagedIn;
  }

  // What every step but a new ImagePatch and the removal of the marker keeps
  predicate Forgets(s: Step, c: ComponentId) {
    (s.CreatePatch? || s.RemoveMarker?) && s.c == c
  }

  // Steps that change neither ImagePatches nor ownership
  lemma OwnersFrame(w: World, w': World, c: ComponentId, from: Origin)
    requires Kept(w, c, from)
    requires w'.patches == w.patches && ManagedIn(w', c) == ManagedIn(w, c)
    ensures Kept(w', c, from)
  {
    hide ManagedIn;
  }

  // Steps that change ImagePatches or the release only
  lemma EditRemembers(w: World, s: Step, c: ComponentId, from: Origin)
    requires Enabled(w, s) && !Forgets(s, c)
    requires s.Upgrade? || s.CreatePatch? || s.EditSpec? || s.DeletePatch? || s.RemoveMarker?
    requires Kept(w, c, from)
    ensures Kept(Next(w, s), c, from)
  {
    hide ManagedOn;
    hide UnrelatedEdit;
    hide ToReconcile;
    hide Pass;
    hide ImagePatchCommand;
    hide ReconcileCommand;
    assert ConfigOf(Next(w, s), c) == ConfigOf(w, c) by { hide ChartOf; }
    hide ConfigOf;
  }

  lemma EditKeepsOwners(w: World, chart: Chart, config: HelmConfig, c: ComponentId)
    requires UnrelatedEdit(w, chart, config)
    ensures ManagedIn(Put(w, chart, config), c) == ManagedIn(w, c)
  {
    EditedConfig(w, chart, config, c);
    if ChartOf(c) == chart { EditAgrees(w, chart, config, c); }
    hide *;
  }

  lemma {:induction false} RevertsKeepOwners(w: World, c: ComponentId, keys: seq<EntryKey>, d: ComponentId)
    requires forall k | k in keys :: k in w.cli
    ensures ManagedIn(RevertEntries(w, c, keys), d) == ManagedIn(w, d)
    decreases |keys|
  {
    if keys == [] {
    } else {
      var front, last := keys[..|keys| - 1], keys[|keys| - 1];
      RevertsKeepOwners(w, c, front, d);
      RevertedEntryTree(RevertEntries(w, c, front), c, w.cli[last], d);
      hide RevertEntry;
      hide ManagedIn;
      hide TreeOf;
      hide Revertible;
    }
  }

  lemma ReconcileKeepsOwners(w: World, c: ComponentId, version: string, keys: seq<EntryKey>, n: nat, finished: bool,
                             d: ComponentId)
    requires Enabled(w, CliReconcile(c, version, keys, n, finished))
    ensures forall k | k in keys :: k in w.cli
    ensures var w' := Next(w, CliReconcile(c, version, keys, n, finished));
            w'.patches == w.patches && ManagedIn(w', d) == ManagedIn(w, d)
  {
    hide Trim;
    hide ChartOf;
    hide Pass;
    hide ImagePatchCommand;
    hide RevertEntry;
    hide Revertible;
    hide GoodEntry;
    assert forall k | k in keys :: k in w.cli;
    assert forall k | k in keys[..n] :: k in keys;
    RevertsKeepOwners(w, c, keys[..n], d);
    hide RevertEntries;
    hide Reconciled;
    hide Unreadable;
    hide ManagedOn;
    var w1 := RevertEntries(w, c, keys[..n]);
    var w' := ReconcileCommand(w, c, keys, n, finished);
    assert w'.configs == w1.configs;
  }

  lemma CliPatchRemembers(w: World, c: ComponentId, p: PatchPlan, d: ComponentId, from: Origin)
    requires Kept(w, d, from)
    ensures Kept(ImagePatchCommand(w, c, p), d, from)
  {
    hide Remembers;
    hide Policy.Resolve;
    hide Policy.ValidatePatchWindow;
    hide MergedConfig;
    hide GeneratedValues;
  }

  lemma StepRemembers(w: World, s: Step, c: ComponentId, from: Origin)
    requires VersionsBelow(w) && Enabled(w, s) && Consistent(s, c, from) && !Forgets(s, c)
    requires Kept(w, c, from)
    ensures Kept(Next(w, s), c, from)
  {
    hide VersionsBelow;
    hide Kept;
    hide SeesAhead;
    hide ManagedIn;
    hide Pass;
    hide ReconcileCommand;
    hide ImagePatchCommand;
    match s {
      case ControllerPass(d, o, v) =>
        BelowIsVersioned(w, v.apply);
        PassRemembers(w, d, o, v, c, from);
      case EditConfig(chart, config) =>
        EditKeepsOwners(w, chart, config, c);
        OwnersFrame(w, Next(w, s), c, from);
      case CliPatch(d, plan) => CliPatchRemembers(w, d, plan, c, from);
      case CliReconcile(d, on, keys, n, finished) =>
        ReconcileKeepsOwners(w, d, on, keys, n, finished, c);
        OwnersFrame(w, Next(w, s), c, from);
      case _ => EditRemembers(w, s, c, from);
    }
  }

  lemma {:induction false} RunRemembers(w: World, run: seq<Step>, c: ComponentId, from: Origin)
    requires VersionsBelow(w) && Legal(w, run)
    requires forall i | 0 <= i < |run| :: Consistent(run[i], c, from) && !Forgets(run[i], c)
    requires Kept(w, c, from)
    ensures Kept(After(w, run), c, from)
    decreases |run|
  {
    hide VersionsBelow;
    hide VersionStep;
    hide Kept;
    hide Consistent;
    hide Forgets;
    hide Enabled;
    hide Next;
    if run == [] {
    } else {
      assert Consistent(run[0], c, from) && !Forgets(run[0], c);
      assert forall i | 0 <= i < |run[1..]| :: run[1..][i] == run[i + 1];
      StepKeepsVersions(w, run[0]);
      StepsAreBelow(w, Next(w, run[0]));
      StepRemembers(w, run[0], c, from);
      RunRemembers(Next(w, run[0]), run[1..], c, from);
    }
  }

  /** A spec generation written on one release is never written on another, however many passes,
      crashes, upgrades and edits lie between, unless the ImagePatch is created anew, a user removes the
      reverted-generation marker, or a pass over the component sees the very release of the patch with a
      bundled tag that has reached it. The version and the bundled tag a pass sees may otherwise be of
      different releases, as just after an upgrade. */
  lemma AppliedSpecStaysOnItsRelease(w: World, c: ComponentId, o: Observed, v: Verdicts,
                                     run: seq<Step>, o': Observed, v': Verdicts)
    requires VersionsBelow(w) && Enabled(w, ControllerPass(c, o, v)) && PassEffect(w, c, o, v).Patches?
    requires Legal(Pass(w, c, o, v), run) && c in Pass(w, c, o, v).patches
    requires var from :=
             Origin(Pass(w, c, o, v).patches[c].generation, PassEffect(w, c, o, v).tag, PassEffect(w, c, o, v).version);
             forall i | 0 <= i < |run| :: Consistent(run[i], c, from) && !Forgets(run[i], c)
    requires var w2 := After(Pass(w, c, o, v), run);
             Enabled(w2, ControllerPass(c, o', v')) && PassEffect(w2, c, o', v').Patches?
    ensures var w1 := Pass(w, c, o, v);
            var w2 := After(w1, run);
            c in w2.patches &&
            (w2.patches[c].generation == w1.patches[c].generation ==>
             PassEffect(w2, c, o', v').version == PassEffect(w, c, o, v).version)
  {
    hide *;
    var w1, e := Pass(w, c, o, v), PassEffect(w, c, o, v);
    var w2 := After(w1, run);
    var from := Origin(w1.patches[c].generation, e.tag, e.version);
    PassSteps(w, c, o, v);
    StepsAreBelow(w, w1);
    RunKeepsVersions(w1, run);
    StepsAreBelow(w1, w2);
    BelowIsVersioned(w, v.apply);
    BelowIsVersioned(w2, v'.apply);
    PassIsAStep(w, c, o, v);
    EnabledIsFair(w, c, o, v, e);
    PatchIsRemembered(w, w1, c, o, e);
    RememberedIsKept(w1, c, from);
    RunRemembers(w1, run, c, from);
    PassIsAStep(w2, c, o', v');
    EnabledIsFair(w2, c, o', v', PassEffect(w2, c, o', v'));
    PatchingPass(w2, Pass(w2, c, o', v'), c, o', PassEffect(w2, c, o', v'));
    RememberedIsKept(w2, c, from);
    if w2.patches[c].generation == w1.patches[c].generation {
      SameRelease(w2, Pass(w2, c, o', v'), c, o', PassEffect(w2, c, o', v'), from);
    }
  }

  lemma RememberedIsKept(w: World, c: ComponentId, from: Origin)
    requires c in w.patches
    ensures Kept(w, c, from) == Remembers(w, c, from)
  {
    hide Remembers;
  }

  /* ---- The condition is needed ---- */

  // The pass sees the release the patch is from, its values in place or its own tag bundled, and a
  // bundled tag that has reached it
  predicate SeesReached(w: World, c: ComponentId, o: Observed, version: string)
    requires c in w.patches
  {
    var g, ip := Gates(w, c, o), w.patches[c];
    g.Open? && g.version == version && o.images.Some? && ValuesOf(ConfigOf(w, c)).Map? &&
    (ip.tag == g.baseline ||
     (Policy.ValidateAgainstBaseline(g.baseline, ip.tag).Some? &&
      Patcher.Present(ValuesOf(ConfigOf(w, c)), GeneratedValues(c, RepositoryFor(c, o.images.value), ip.tag))))
  }

  // A patch in force: written from the current spec, managed on its release and not marked
  predicate InForce(w: World, c: ComponentId, from: Origin) {
    Remembers(w, c, from) && w.patches[c].generation == from.generation && ManagedIn(w, c) == from.version &&
    !w.patches[c].deleting && w.patches[c].marker != Some(from.generation)
  }

  // The pass can read, and what it writes lands
  predicate Works(ip: ImagePatch, o: Observed, v: Verdicts) {
    (ip.finalizer || v.finalizer.Acked?) && (Outdated(ip) ==> v.unmark.Acked?) && o.configReadable && v.mark.Acked? &&
    Lands(v.apply)
  }

  /** A pass forgets the patch it finds in force exactly when it sees the patch's own release with a
      bundled tag that has reached it: then it reverts without leaving a marker. */
  lemma PassRemembersExactly(w: World, c: ComponentId, o: Observed, v: Verdicts, from: Origin)
    requires Enabled(w, ControllerPass(c, o, v)) && InForce(w, c, from) && Works(w.patches[c], o, v)
    ensures c in Pass(w, c, o, v).patches && Pass(w, c, o, v).patches[c].generation == from.generation
    ensures Remembers(Pass(w, c, o, v), c, from) <==> !SeesReached(w, c, o, from.version)
  {
    hide *;
    var w', e := Pass(w, c, o, v), PassEffect(w, c, o, v);
    InForceHas(w, c, from);
    WorksHas(w.patches[c], o, v);
    UnracedIsVersioned(w, v.apply);
    PassIsAStep(w, c, o, v);
    EnabledIsFair(w, c, o, v, e);
    EffectsFollowGates(w, c, o, v);
    OwnIsKept(w, w', c, o, e);
    SpecStays(w, w', c, o, e);
    if e.Patches? {
      PatchIsRemembered(w, w', c, o, e);
      PatchOfRemembered(w, w', c, o, e, from);
      ReachedIsNoPatch(w, w', c, o, e, from.version);
    } else {
      OthersOwnedAlike(w, w', c, o, e, c);
      NotRaced(e, v);
      if Gates(w, c, o).Open? { ReachedReverts(w, c, o, from); }
      ReachedNeedsGates(w, c, o, from.version);
      MarkerFollows(w, w', c, o, e, from);
      RememberedAfter(w, w', c, e, from);
    }
  }

  lemma InForceHas(w: World, c: ComponentId, from: Origin)
    requires InForce(w, c, from)
    ensures Remembers(w, c, from) && c in w.patches && !w.patches[c].deleting &&
            w.patches[c].generation == from.generation
    ensures w.patches[c].marker != Some(w.patches[c].generation) && Owned(w, c) && ManagedIn(w, c) == from.version
    ensures from.version != "" && w.patches[c].tag == from.tag
  {
    hide ManagedIn;
  }

  lemma WorksHas(ip: ImagePatch, o: Observed, v: Verdicts)
    requires Works(ip, o, v)
    ensures (ip.finalizer || v.finalizer.Acked?) && (Outdated(ip) ==> v.unmark.Acked?) && o.configReadable
    ensures v.mark.Acked? && Lands(v.apply) && !v.apply.Raced?
  {
    hide Outdated;
  }

  lemma OwnIsKept(w: World, w': World, c: ComponentId, o: Observed, e: Effect)
    requires PassStep(w, w', c, o, e) && c in w.patches && !w.patches[c].deleting
    ensures c in w'.patches
  {
    hide ConfigStep;
    hide Justified;
  }

  lemma ReachedNeedsGates(w: World, c: ComponentId, o: Observed, version: string)
    requires c in w.patches
    ensures SeesReached(w, c, o, version) ==> Gates(w, c, o).Open? && Gates(w, c, o).version == version
  {
    hide Gates;
    hide ConfigOf;
    hide GeneratedValues;
    hide RepositoryFor;
    hide Patcher.Present;
    hide Policy.ValidateAgainstBaseline;
  }

  // Among the occasions to revert a patch in force are its release left behind and the bundled tag
  lemma ReachedReverts(w: World, c: ComponentId, o: Observed, from: Origin)
    requires InForce(w, c, from) && Gates(w, c, o).Open?
    ensures var g, ip := Gates(w, c, o), w.patches[c];
            MustRevert(w, c, ip, g.baseline, g.version, o) <==>
            SeesReached(w, c, o, from.version) ||
            (g.version != from.version && ip.policy.AutoRevert? && ValuesOf(ConfigOf(w, c)).Map?)
  {
    hide Gates;
    hide ConfigOf;
    hide ManagedOn;
    hide GeneratedValues;
    hide RepositoryFor;
    hide Patcher.Present;
    hide Policy.ValidateAgainstBaseline;
  }

  lemma ReachedIsNoPatch(w: World, w': World, c: ComponentId, o: Observed, e: Effect, version: string)
    requires PassStep(w, w', c, o, e) && e.Patches? && c in w.patches && !w.patches[c].deleting
    requires Owned(w, c) && ManagedIn(w, c) == version
    ensures !SeesReached(w, c, o, version)
  {
    hide ConfigStep;
    hide ConfigOf;
    hide ManagedOn;
    hide GeneratedValues;
    hide RepositoryFor;
    hide OthersStale;
    hide Gates;
    hide Patcher.Present;
    hide Patcher.HasConflict;
    hide Policy.ValidateAgainstBaseline;
    hide Policy.ValidatePatchWindow;
    hide Policy.ValidateNotOlderThanCurrent;
  }

  // A patch in force that is reverted is marked exactly when its release was left behind
  lemma MarkerFollows(w: World, w': World, c: ComponentId, o: Observed, e: Effect, from: Origin)
    requires PassStep(w, w', c, o, e) && InForce(w, c, from) && c in w'.patches
    ensures e.Reverts? ==>
              Gates(w, c, o).Open? &&
              (w'.patches[c].marker == Some(from.generation) <==> Gates(w, c, o).version != from.version)
  {
    hide ConfigStep;
    hide ConfigOf;
    hide ManagedOn;
    hide Gates;
    hide Policy.ValidateAgainstBaseline;
  }

  lemma RememberedAfter(w: World, w': World, c: ComponentId, e: Effect, from: Origin)
    requires InForce(w, c, from) && c in w'.patches && !e.Patches? && !e.Overtaken?
    requires var p, q := w.patches[c], w'.patches[c];
             q.tag == p.tag && q.generation == p.generation && q.deleting == p.deleting
    requires ManagedIn(w', c) == if e.Reverts? then "" else ManagedIn(w, c)
    ensures Remembers(w', c, from) <==> e.Reverts? ==> w'.patches[c].marker == Some(from.generation)
  {
    hide ManagedIn;
  }

  /** So the condition is needed: once a pass has forgotten a patch that way, the next pass that sees
      another release and may patch writes the same spec generation on it. */
  lemma ForgottenSpecIsWrittenElsewhere(w: World, c: ComponentId, o: Observed, v: Verdicts, from: Origin, o': Observed,
                                        v': Verdicts)
    requires Enabled(w, ControllerPass(c, o, v)) && InForce(w, c, from) && Works(w.patches[c], o, v)
    requires SeesReached(w, c, o, from.version)
    requires var w1 := Pass(w, c, o, v);
             c in w1.patches && !w1.patches[c].deleting && Works(w1.patches[c], o', v') && Gates(w1, c, o').Open? &&
             MustPatch(w1, c, w1.patches[c], Gates(w1, c, o').baseline, Gates(w1, c, o').version, o')
    requires Gates(Pass(w, c, o, v), c, o').version != from.version
    ensures var w1, e := Pass(w, c, o, v), PassEffect(Pass(w, c, o, v), c, o', v');
            !Remembers(w1, c, from) && w1.patches[c].generation == from.generation &&
            e.Patches? && e.tag == from.tag && e.version != from.version
  {
    hide *;
    var w1 := Pass(w, c, o, v);
    PassRemembersExactly(w, c, o, v, from);
    InForceHas(w, c, from);
    WorksHas(w.patches[c], o, v);
    UnracedIsVersioned(w, v.apply);
    PassIsAStep(w, c, o, v);
    SpecStays(w, w1, c, o, PassEffect(w, c, o, v));
    WorksHas(w1.patches[c], o', v');
    EffectsFollowGates(w1, c, o', v');
  }

  /* ---- An interrupted revert is finished ---- */

  // The patch is from release `from` and is to be reverted once the cluster has left it, or its spec is
  // already marked as reverted
  predicate Reverting(w: World, c: ComponentId, from: string) {
    c in w.patches && !w.patches[c].deleting && w.patches[c].finalizer &&
    (w.patches[c].marker == Some(w.patches[c].generation) ||
     (Owned(w, c) && ManagedIn(w, c) == from && w.patches[c].policy.AutoRevert?))
  }

  // The pass does not see the release the patch is from
  predicate SeesAnother(o: Observed, from: string) {
    o.version.Some? ==> o.version.value != from
  }

  lemma RevertingPass(w: World, w': World, c: ComponentId, o: Observed, e: Effect, from: string)
    requires PassStep(w, w', c, o, e) && FairEffect(w, c, o, e) && Reverting(w, c, from) && SeesAnother(o, from)
    ensures !e.Patches? && Reverting(w', c, from) && c in w'.patches
    ensures e.Reverts? ==> w'.patches[c].marker == Some(w'.patches[c].generation) && !Owned(w', c)
    ensures e.NoWrite? ==> Owned(w', c) == Owned(w, c)
  {
    hide ConfigStep;
    hide ManagedIn;
    hide FairEffect;
    hide OthersStale;
    hide GeneratedValues;
    hide RepositoryFor;
    hide Patcher.BundledOf;
    hide Patcher.Present;
    hide Patcher.HasConflict;
    hide Policy.ValidateAgainstBaseline;
    hide Policy.ValidateTarget;
    hide Policy.ValidatePatchWindow;
    hide Policy.ValidateNotOlderThanCurrent;
    OthersOwnedAlike(w, w', c, o, e, c);
  }

  /** A pass over a patch to be reverted never writes it again, and wherever it fails or crashes, the
      revert remains to be done or is done. */
  lemma RevertSurvives(w: World, c: ComponentId, o: Observed, v: Verdicts, from: string)
    requires Versioned(w, v.apply) && Enabled(w, ControllerPass(c, o, v)) && Reverting(w, c, from) &&
             SeesAnother(o, from)
    ensures !PassEffect(w, c, o, v).Patches? && Reverting(Pass(w, c, o, v), c, from)
  {
    hide *;
    PassIsAStep(w, c, o, v);
    EnabledIsFair(w, c, o, v, PassEffect(w, c, o, v));
    RevertingPass(w, Pass(w, c, o, v), c, o, PassEffect(w, c, o, v), from);
  }

  // Steps by which a user decides about the component's own ImagePatch
  predicate Touches(s: Step, c: ComponentId) {
    (s.CreatePatch? || s.EditSpec? || s.DeletePatch? || s.RemoveMarker?) && s.c == c
  }

  // Steps that leave the revert to the controller
  predicate Harmless(s: Step, c: ComponentId, from: string) {
    !Touches(s, c) && (s.ControllerPass? && s.c == c ==> SeesAnother(s.o, from))
  }

  lemma RevertingFrame(w: World, w': World, c: ComponentId, from: string)
    requires Reverting(w, c, from) && c in w'.patches && w'.patches[c] == w.patches[c]
    requires ManagedIn(w', c) == ManagedIn(w, c)
    ensures Reverting(w', c, from)
  {
    hide ManagedIn;
  }

  lemma OtherPassKeepsReverting(w: World, w': World, d: ComponentId, o: Observed, e: Effect, c: ComponentId,
                                from: string)
    requires PassStep(w, w', d, o, e) && FairEffect(w, d, o, e) && c != d && Reverting(w, c, from)
    ensures Reverting(w', c, from)
  {
    hide ConfigStep;
    hide OwnStep;
    hide FairEffect;
    hide ManagedIn;
    OthersOwnedAlike(w, w', d, o, e, c);
    hide OthersStale;
  }

  lemma OtherEditKeepsReverting(w: World, s: Step, c: ComponentId, from: string)
    requires Enabled(w, s) && !Touches(s, c) && Reverting(w, c, from)
    requires s.Upgrade? || s.CreatePatch? || s.EditSpec? || s.DeletePatch? || s.RemoveMarker?
    ensures Reverting(Next(w, s), c, from)
  {
    hide ManagedOn;
    hide UnrelatedEdit;
    hide ToReconcile;
    hide Pass;
    hide ImagePatchCommand;
    hide ReconcileCommand;
    assert ConfigOf(Next(w, s), c) == ConfigOf(w, c) by { hide ChartOf; }
    hide ConfigOf;
  }

  lemma PassKeepsReverting(w: World, d: ComponentId, o: Observed, v: Verdicts, c: ComponentId, from: string)
    requires Versioned(w, v.apply) && Enabled(w, ControllerPass(d, o, v)) && Reverting(w, c, from)
    requires d == c ==> SeesAnother(o, from)
    ensures Reverting(Pass(w, d, o, v), c, from) && (d == c ==> !PassEffect(w, d, o, v).Patches?)
  {
    hide *;
    if d == c {
      RevertSurvives(w, c, o, v, from);
    } else {
      PassIsAStep(w, d, o, v);
      EnabledIsFair(w, d, o, v, PassEffect(w, d, o, v));
      OtherPassKeepsReverting(w, Pass(w, d, o, v), d, o, PassEffect(w, d, o, v), c, from);
    }
  }

  // While there is an ImagePatch, image-patch refuses
  lemma CliPatchRefuses(w: World, c: ComponentId, p: PatchPlan)
    requires w.patches != map[]
    ensures ImagePatchCommand(w, c, p) == w
  {
  }

  lemma RevertingHas(w: World, c: ComponentId, from: string)
    requires Reverting(w, c, from)
    ensures c in w.patches && w.patches != map[]
  {
    hide Owned;
  }

  lemma StepKeepsReverting(w: World, s: Step, c: ComponentId, from: string)
    requires VersionsBelow(w) && Enabled(w, s) && Harmless(s, c, from) && Reverting(w, c, from)
    ensures Reverting(Next(w, s), c, from)
    ensures s.ControllerPass? && s.c == c ==> !PassEffect(w, c, s.o, s.v).Patches?
  {
    hide VersionsBelow;
    hide Reverting;
    hide ManagedIn;
    hide Pass;
    hide PassEffect;
    hide ReconcileCommand;
    hide ImagePatchCommand;
    hide SeesAnother;
    RevertingHas(w, c, from);
    match s {
      case ControllerPass(d, o, v) =>
        BelowIsVersioned(w, v.apply);
        PassKeepsReverting(w, d, o, v, c, from);
      case EditConfig(chart, config) =>
        EditKeepsOwners(w, chart, config, c);
        RevertingFrame(w, Next(w, s), c, from);
      case CliPatch(d, plan) => CliPatchRefuses(w, d, plan);
      case CliReconcile(d, on, keys, n, finished) =>
        ReconcileKeepsOwners(w, d, on, keys, n, finished, c);
        RevertingFrame(w, Next(w, s), c, from);
      case _ => OtherEditKeepsReverting(w, s, c, from);
    }
  }

  // No pass over c writes a patch
  ghost predicate NeverPatched(w: World, run: seq<Step>, c: ComponentId)
    requires Legal(w, run)
    decreases |run|
  {
    run != [] ==>
      (run[0].ControllerPass? && run[0].c == c ==> !PassEffect(w, c, run[0].o, run[0].v).Patches?) &&
      NeverPatched(Next(w, run[0]), run[1..], c)
  }

  lemma {:induction false} RunKeepsReverting(w: World, run: seq<Step>, c: ComponentId, from: string)
    requires VersionsBelow(w) && Legal(w, run) && Reverting(w, c, from)
    requires forall i | 0 <= i < |run| :: Harmless(run[i], c, from)
    ensures Reverting(After(w, run), c, from) && NeverPatched(w, run, c) && VersionsBelow(After(w, run))
    decreases |run|
  {
    hide VersionsBelow;
    hide VersionStep;
    hide Reverting;
    hide Harmless;
    hide PassEffect;
    hide Enabled;
    hide Next;
    if run == [] {
    } else {
      assert Harmless(run[0], c, from);
      assert forall i | 0 <= i < |run[1..]| :: run[1..][i] == run[i + 1];
      StepKeepsReverting(w, run[0], c, from);
      StepKeepsVersions(w, run[0]);
      StepsAreBelow(w, Next(w, run[0]));
      RunKeepsReverting(Next(w, run[0]), run[1..], c, from);
    }
  }

  // The writes of the revert are acknowledged
  predicate Unhindered(v: Verdicts) {
    v.unmark.Acked? && v.mark.Acked? && v.apply.Acked?
  }

  lemma RevertIsDecided(w: World, c: ComponentId, ip: ImagePatch, baseline: string, version: string, o: Observed,
                        v: Verdicts)
    requires Owned(w, c) && ValuesOf(ConfigOf(w, c)).Map? && Unhindered(v)
    requires ip.marker == Some(ip.generation) || (ManagedIn(w, c) != version && ip.policy.AutoRevert?)
    ensures EffectOf(w, c, Decide(w, c, ip, baseline, version, o), version, v) == Reverts
  {
    hide ConfigOf;
    hide DecideCurrent;
    hide RevertedCopy;
    hide RevertedEnd;
  }

  lemma RevertHappens(w: World, c: ComponentId, o: Observed, v: Verdicts, from: string)
    requires Reverting(w, c, from) && Owned(w, c) && ValuesOf(ConfigOf(w, c)).Map? && Unhindered(v)
    requires Gates(w, c, o).Open? && Gates(w, c, o).version != from && o.configReadable
    ensures PassEffect(w, c, o, v) == Reverts
  {
    hide Gates;
    hide EffectOf;
    hide Decide;
    var g := Gates(w, c, o);
    var based := w.patches[c].(finalizer := true, status := w.patches[c].status.(baselineTag := g.baseline));
    if Outdated(based) {
      var w1 := UpdatePatch(w, c, based.(marker := None), v.unmark);
      assert ConfigOf(w1, c) == ConfigOf(w, c) by { hide ChartOf; }
      hide ConfigOf;
      RevertIsDecided(w1, c, based.(marker := None), g.baseline, g.version, o, v);
    } else {
      RevertIsDecided(w, c, based, g.baseline, g.version, o, v);
    }
  }

  /** Whatever went wrong before, one pass whose writes succeed finishes the revert: the component is
      no longer managed, none of its generated leaves is left, and the spec is marked as reverted. */
  lemma RevertIsFinished(w: World, c: ComponentId, o: Observed, v: Verdicts, from: string)
    requires Enabled(w, ControllerPass(c, o, v)) && Reverting(w, c, from)
    requires Owned(w, c) && ValuesOf(ConfigOf(w, c)).Map? && Unhindered(v)
    requires Gates(w, c, o).Open? && Gates(w, c, o).version != from && o.configReadable
    ensures var w' := Pass(w, c, o, v);
            !Owned(w', c) && NoLeaves(TreeOf(w', c), Shape(c)) && c in w'.patches &&
            w'.patches[c].marker == Some(w'.patches[c].generation)
  {
    hide *;
    RevertHappens(w, c, o, v, from);
    UnhinderedIsVersioned(w, v);
    PassIsAStep(w, c, o, v);
    EnabledIsFair(w, c, o, v, Reverts);
    OpenReadsVersion(w, c, o);
    OtherVersionIsSeen(o, from);
    RevertingPass(w, Pass(w, c, o, v), c, o, Reverts, from);
    OwnLeaves(w, Pass(w, c, o, v), c, o, Reverts);
  }

  lemma OtherVersionIsSeen(o: Observed, from: string)
    requires o.version.Some? && o.version.value != from
    ensures SeesAnother(o, from)
  {
  }

  lemma UnhinderedIsVersioned(w: World, v: Verdicts)
    requires Unhindered(v)
    ensures Versioned(w, v.apply) && !v.apply.Raced?
  {
  }

  /** From any crash point: let any run follow of passes over all components with any failures and
      crashes, upgrades, edits, creations and deletions of the other ImagePatches and commands, which
      leaves the component's own spec to the controller. Nothing in it writes the patch again, and the
      first pass after it whose writes succeed leaves the component unmanaged and its spec marked. */
  lemma InterruptedRevertFinishes(w: World, run: seq<Step>, c: ComponentId, from: string, o: Observed, v: Verdicts)
    requires VersionsBelow(w) && Legal(w, run) && Reverting(w, c, from)
    requires forall i | 0 <= i < |run| :: Harmless(run[i], c, from)
    requires var w2 := After(w, run);
             Enabled(w2, ControllerPass(c, o, v)) && Unhindered(v) && o.configReadable &&
             ValuesOf(ConfigOf(w2, c)).Map? &&
             Gates(w2, c, o).Open? && Gates(w2, c, o).version != from
    ensures NeverPatched(w, run, c) && !PassEffect(After(w, run), c, o, v).Patches?
    ensures var w2, w3 := After(w, run), Pass(After(w, run), c, o, v);
            !Owned(w3, c) && (Owned(w2, c) ==> NoLeaves(TreeOf(w3, c), Shape(c))) && c in w3.patches &&
            w3.patches[c].marker == Some(w3.patches[c].generation)
  {
    hide *;
    RunKeepsReverting(w, run, c, from);
    var w2 := After(w, run);
    var w3, e := Pass(w2, c, o, v), PassEffect(w2, c, o, v);
    UnhinderedIsVersioned(w2, v);
    OpenReadsVersion(w2, c, o);
    OtherVersionIsSeen(o, from);
    PassIsAStep(w2, c, o, v);
    EnabledIsFair(w2, c, o, v, e);
    RevertingPass(w2, w3, c, o, e, from);
    NotRaced(e, v);
    if Owned(w2, c) {
      RevertIsFinished(w2, c, o, v, from);
    } else {
      UnownedIsMarked(w3, c, from);
    }
  }

  lemma UnownedIsMarked(w: World, c: ComponentId, from: string)
    requires Reverting(w, c, from) && !Owned(w, c)
    ensures c in w.patches && w.patches[c].marker == Some(w.patches[c].generation)
  {
    hide Owned;
  }

  // While there is an ImagePatch, no command touches its component's leaves
  lemma {:induction false} RevertingKeepsLeaves(w: World, run: seq<Step>, c: ComponentId, from: string)
    requires Invariant(w) && PathDisjoint(c) && LeavesOwned(w, c) && Legal(w, run) && Reverting(w, c, from)
    requires forall i | 0 <= i < |run| :: Harmless(run[i], c, from)
    ensures LeavesOwned(After(w, run), c)
    decreases |run|
  {
    hide Invariant;
    hide LeavesOwned;
    hide PathDisjoint;
    hide Reverting;
    hide Harmless;
    hide CutsShort;
    hide Enabled;
    hide Next;
    if run == [] {
    } else {
      assert Harmless(run[0], c, from);
      assert forall i | 0 <= i < |run[1..]| :: run[1..][i] == run[i + 1];
      InvariantHas(w);
      RevertingHas(w, c, from);
      StepKeepsReverting(w, run[0], c, from);
      StepKeepsInvariant(w, run[0]);
      StepKeepsLeaves(w, run[0], c);
      RevertingKeepsLeaves(Next(w, run[0]), run[1..], c, from);
    }
  }

  /** In reachable states nothing of the patch is left then, for a component with leaves of its own. */
  lemma InterruptedRevertLeavesNothing(w: World, run: seq<Step>, c: ComponentId, from: string, o: Observed, v: Verdicts)
    requires Invariant(w) && PathDisjoint(c) && LeavesOwned(w, c) && Legal(w, run) && Reverting(w, c, from)
    requires forall i | 0 <= i < |run| :: Harmless(run[i], c, from)
    requires var w2 := After(w, run);
             Enabled(w2, ControllerPass(c, o, v)) && Unhindered(v) && o.configReadable &&
             ValuesOf(ConfigOf(w2, c)).Map? &&
             Gates(w2, c, o).Open? && Gates(w2, c, o).version != from
    ensures NoLeaves(TreeOf(Pass(After(w, run), c, o, v), c), Shape(c))
  {
    hide *;
    InvariantHas(w);
    var w2 := After(w, run);
    var w3, e := Pass(w2, c, o, v), PassEffect(w2, c, o, v);
    InterruptedRevertFinishes(w, run, c, from, o, v);
    RevertingKeepsLeaves(w, run, c, from);
    UnhinderedIsVersioned(w2, v);
    PassIsAStep(w2, c, o, v);
    EnabledIsFair(w2, c, o, v, e);
    PassKeepsLeaves(w2, w3, c, o, e, c);
    CliStays(w2, w3, c, o, e);
    OpenHasNoEntries(w2, c, o);
    UnpatchedHasNoLeaves(w3, c);
  }

  lemma OpenHasNoEntries(w: World, c: ComponentId, o: Observed)
    requires Gates(w, c, o).Open?
    ensures w.cli == map[]
  {
    hide Patcher.BundledOf;
  }

  lemma UnpatchedHasNoLeaves(w: World, c: ComponentId)
    requires LeavesOwned(w, c) && !Owned(w, c) && w.cli == map[]
    ensures NoLeaves(TreeOf(w, c), Shape(c))
  {
    hide Owned;
    hide TreeOf;
    hide Shape;
    hide NoLeaves;
  }

  lemma OpenReadsVersion(w: World, c: ComponentId, o: Observed)
    requires Gates(w, c, o).Open?
    ensures o.version == Some(Gates(w, c, o).version)
  {
    hide Patcher.BundledOf;
  }
}
