/** The optimistic lock: over any run the server never stores two objects under one version, so a write
    that comes late is accepted only while the object is still the one that was read. */
module Versions {
  import opened Text
  import opened Components
  import opened Cluster
  import opened Reconciliation
  import opened PassFacts
  import opened CommandLine
  import opened Runs
  import Policy
  import Values

  // From one state to a later one, each object is the same, or has a version that was not yet given out
  ghost predicate VersionStep(w: World, w': World) {
    VersionsBelow(w') && w.nextVersion <= w'.nextVersion &&
    forall chart :: SameObject(w, w', chart) || NewVersion(w, w', chart)
  }

  predicate SameObject(w: World, w': World, chart: Chart) {
    (chart in w'.configs <==> chart in w.configs) && (chart in w.configs ==> w'.configs[chart] == w.configs[chart])
  }

  predicate NewVersion(w: World, w': World, chart: Chart) {
    chart in w'.configs && w'.configs[chart].resourceVersion >= w.nextVersion
  }

  lemma PutSteps(w: World, w': World, chart: Chart, config: HelmConfig)
    requires VersionsBelow(w)
    requires w'.configs == Put(w, chart, config).configs && w'.nextVersion == w.nextVersion + 1
    ensures VersionStep(w, w')
  {
  }

  lemma NothingSteps(w: World, w': World)
    requires VersionsBelow(w) && w'.configs == w.configs && w'.nextVersion == w.nextVersion
    ensures VersionStep(w, w')
  {
  }

  lemma StepsChain(w: World, w1: World, w2: World)
    requires VersionStep(w, w1) && VersionStep(w1, w2)
    ensures VersionStep(w, w2)
  {
    forall chart ensures SameObject(w, w2, chart) || NewVersion(w, w2, chart) {
      assert SameObject(w, w1, chart) || NewVersion(w, w1, chart);
      assert SameObject(w1, w2, chart) || NewVersion(w1, w2, chart);
    }
  }

  lemma ConfigStepSteps(w: World, w': World, c: ComponentId, e: Effect)
    requires VersionsBelow(w) && ConfigStep(w, w', c, e)
    ensures VersionStep(w, w')
  {
    hide ChartOf;
    hide RevertedConfig;
    hide PatchedConfig;
    hide VersionStep;
    hide VersionsBelow;
    hide Put;
    match e {
      case NoWrite => NothingSteps(w, w');
      case Overtaken(edit) => PutSteps(w, w', ChartOf(c), edit);
      case Reverts => PutSteps(w, w', ChartOf(c), RevertedConfig(c, w.configs[ChartOf(c)]));
      case Patches(repository, tag, version) =>
          PutSteps(w, w', ChartOf(c), PatchedConfig(c, ConfigOf(w, c), repository, tag, version));
    }
  }

  lemma StepHasConfig(w: World, w': World, c: ComponentId, o: Observed, e: Effect)
    requires PassStep(w, w', c, o, e)
    ensures ConfigStep(w, w', c, e)
  {
    hide ConfigStep;
    hide OwnStep;
  }

  lemma PassSteps(w: World, c: ComponentId, o: Observed, v: Verdicts)
    requires VersionsBelow(w)
    ensures VersionStep(w, Pass(w, c, o, v))
  {
    hide *;
    BelowIsVersioned(w, v.apply);
    PassIsAStep(w, c, o, v);
    StepHasConfig(w, Pass(w, c, o, v), c, o, PassEffect(w, c, o, v));
    ConfigStepSteps(w, Pass(w, c, o, v), c, PassEffect(w, c, o, v));
  }

  lemma BelowIsVersioned(w: World, v: Verdict)
    requires VersionsBelow(w)
    ensures Versioned(w, v)
  {
  }

  lemma RevertEntrySteps(w: World, c: ComponentId, e: Entry)
    requires VersionsBelow(w)
    ensures VersionStep(w, RevertEntry(w, c, e))
  {
    hide VersionStep;
    hide VersionsBelow;
    hide ChartOf;
    NothingSteps(w, w);
    if Revertible(ConfigOf(w, c), e) {
      var config := w.configs[ChartOf(c)];
      PutSteps(w, RevertEntry(w, c, e), ChartOf(c), config.(values := Values.Subtract(config.values, e.values)));
    }
  }

  lemma {:induction false} RevertsStep(w: World, c: ComponentId, keys: seq<EntryKey>)
    requires VersionsBelow(w) && forall k | k in keys :: k in w.cli
    ensures VersionStep(w, RevertEntries(w, c, keys))
    decreases |keys|
  {
    hide RevertEntry;
    if keys == [] {
      NothingSteps(w, w);
    } else {
      var front, last := keys[..|keys| - 1], keys[|keys| - 1];
      RevertsStep(w, c, front);
      RevertEntrySteps(RevertEntries(w, c, front), c, w.cli[last]);
      StepsChain(w, RevertEntries(w, c, front), RevertEntries(w, c, keys));
    }
    hide SameObject;
    hide NewVersion;
  }

  lemma CliPatchSteps(w: World, c: ComponentId, p: PatchPlan)
    requires VersionsBelow(w)
    ensures VersionStep(w, ImagePatchCommand(w, c, p))
  {
    hide VersionStep;
    hide VersionsBelow;
    hide ChartOf;
    hide MergedConfig;
    hide GeneratedValues;
    hide Recorded;
    hide Policy.Resolve;
    hide Policy.ValidatePatchWindow;
    hide Put;
    hide ImagePatchCommand;
    NothingSteps(w, w);
    var w' := ImagePatchCommand(w, c, p);
    var r, t := CommandLeaves(w, c, p);
    var config := MergedConfig(ConfigOf(w, c), GeneratedValues(c, r, t));
    PutIsOneStep(w, ChartOf(c), config);
    if w' == w {
    } else if p.apply.Raced? && w' == Put(w, ChartOf(c), p.apply.edit) {
      PutIsOneStep(w, ChartOf(c), p.apply.edit);
      PutSteps(w, w', ChartOf(c), p.apply.edit);
    } else {
      PutSteps(w, w', ChartOf(c), config);
    }
  }

  lemma CliReconcileSteps(w: World, c: ComponentId, version: string, keys: seq<EntryKey>, n: nat, finished: bool)
    requires VersionsBelow(w) && Enabled(w, CliReconcile(c, version, keys, n, finished))
    ensures VersionStep(w, Next(w, CliReconcile(c, version, keys, n, finished)))
  {
    hide Trim;
    hide Pass;
    hide ImagePatchCommand;
    hide RevertEntries;
    hide Revertible;
    hide Unreadable;
    assert forall k | k in keys :: k in w.cli;
    assert forall k | k in keys[..n] :: k in keys;
    RevertsStep(w, c, keys[..n]);
    SameConfigsStep(w, RevertEntries(w, c, keys[..n]), ReconcileCommand(w, c, keys, n, finished));
    hide VersionStep;
    hide VersionsBelow;
  }

  lemma SameConfigsStep(w: World, w1: World, w': World)
    requires VersionStep(w, w1) && w'.configs == w1.configs && w'.nextVersion == w1.nextVersion
    ensures VersionStep(w, w')
  {
    forall chart ensures SameObject(w, w', chart) || NewVersion(w, w', chart) {
      assert SameObject(w, w1, chart) || NewVersion(w, w1, chart);
    }
  }

  lemma StepKeepsVersions(w: World, s: Step)
    requires VersionsBelow(w) && Enabled(w, s)
    ensures VersionStep(w, Next(w, s))
  {
    hide VersionsBelow;
    hide VersionStep;
    hide UnrelatedEdit;
    hide Pass;
    hide ImagePatchCommand;
    hide ReconcileCommand;
    hide ToReconcile;
    hide Put;
    match s {
      case ControllerPass(c, o, v) => PassSteps(w, c, o, v);
      case EditConfig(chart, config) =>
        PutIsOneStep(w, chart, config);
        PutSteps(w, Put(w, chart, config), chart, config);
      case CliPatch(c, plan) => CliPatchSteps(w, c, plan);
      case CliReconcile(c, version, keys, n, finished) => CliReconcileSteps(w, c, version, keys, n, finished);
      case _ => NothingSteps(w, Next(w, s));
    }
  }

  lemma {:induction false} RunKeepsVersions(w: World, run: seq<Step>)
    requires VersionsBelow(w) && Legal(w, run)
    ensures VersionStep(w, After(w, run))
    decreases |run|
  {
    hide Enabled;
    hide Next;
    hide SameObject;
    hide NewVersion;
    if run == [] {
      NothingSteps(w, w);
    } else {
      StepKeepsVersions(w, run[0]);
      RunKeepsVersions(Next(w, run[0]), run[1..]);
      StepsChain(w, Next(w, run[0]), After(w, run));
    }
  }

  /** The lock: let a client read a chart's object, or its absence, and let any run of other steps
      follow. A write based on that read changes the cluster only if the object is still exactly the
      one that was read; otherwise it is refused, and its client learns of the conflict. */
  lemma LateWriteNeedsWhatWasRead(w: World, run: seq<Step>, chart: Chart, config: HelmConfig, v: Verdict)
    requires VersionsBelow(w) && Legal(w, run) && !v.Raced?
    ensures var later, read := After(w, run), VersionOf(w, chart);
            (Apply(later, chart, read, config, v) ==
             if Lands(v) && SameObject(w, later, chart) then Put(later, chart, config) else later) &&
            (v.Acked? ==> (Answer(later, chart, read, v).Acked? <==> SameObject(w, later, chart)))
  {
    RunKeepsVersions(w, run);
    var later := After(w, run);
    hide After;
    hide Legal;
    assert SameObject(w, later, chart) || NewVersion(w, later, chart);
    hide VersionStep;
  }
}
