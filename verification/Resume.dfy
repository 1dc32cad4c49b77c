/** image-reconcile after a crash: the reverts commute and are idempotent, so a rerun in any order ends
    where an uninterrupted run ends, and an entry is forgotten only once its values are gone. */
module Resume {
  import opened Text
  import opened Values
  import opened Components
  import opened Cluster
  import opened CommandLine
  import opened Runs
  import opened Invariants

  /* ---- Removing several sets of values ---- */

  function Stripped(t: Tree, gone: seq<Tree>): Tree {
    if gone == [] then t else Subtract(Stripped(t, gone[..|gone| - 1]), gone[|gone| - 1])
  }

  lemma {:induction false} StrippedIsStripped(t: Tree, gone: seq<Tree>, g: Tree)
    requires g in gone
    ensures Subtract(Stripped(t, gone), g) == Stripped(t, gone)
    decreases |gone|
  {
    var front, last := gone[..|gone| - 1], gone[|gone| - 1];
    if g == last {
      SubtractIsIdempotent(Stripped(t, front), g);
    } else {
      assert gone == front + [last];
      StrippedIsStripped(t, front, g);
      SubtractionsCommute(Stripped(t, front), last, g);
    }
    hide Subtract;
  }

  lemma {:induction false} StrippingTwice(t: Tree, gone: seq<Tree>, again: seq<Tree>)
    requires forall g | g in again :: g in gone
    ensures Stripped(Stripped(t, gone), again) == Stripped(t, gone)
    decreases |again|
  {
    if again == [] {
    } else {
      StrippingTwice(t, gone, again[..|again| - 1]);
      StrippedIsStripped(t, gone, again[|again| - 1]);
    }
    hide Subtract;
  }

  lemma {:induction false} StripThenSubtract(t: Tree, gone: seq<Tree>, g: Tree)
    ensures Subtract(Stripped(t, gone), g) == Stripped(Subtract(t, g), gone)
    decreases |gone|
  {
    if gone == [] {
    } else {
      var front, last := gone[..|gone| - 1], gone[|gone| - 1];
      StripThenSubtract(t, front, g);
      SubtractionsCommute(Stripped(t, front), last, g);
    }
    hide Subtract;
  }

  lemma {:induction false} StrippingCommutes(t: Tree, a: seq<Tree>, b: seq<Tree>)
    ensures Stripped(Stripped(t, a), b) == Stripped(Stripped(t, b), a)
    decreases |b|
  {
    if b == [] {
    } else {
      StrippingCommutes(t, a, b[..|b| - 1]);
      StripThenSubtract(Stripped(t, b[..|b| - 1]), a, b[|b| - 1]);
    }
    hide Subtract;
  }

  /** What is left depends only on the set of values removed, not on their order or on repetitions. */
  lemma StrippingIsOrderFree(t: Tree, a: seq<Tree>, b: seq<Tree>)
    requires forall g :: g in a <==> g in b
    ensures Stripped(t, a) == Stripped(t, b)
  {
    StrippingTwice(t, a, b);
    StrippingTwice(t, b, a);
    StrippingCommutes(t, a, b);
  }

  /* ---- The cluster, versions aside ---- */

  function Content(config: HelmConfig): HelmConfig {
    config.(resourceVersion := 0)
  }

  // Everything but the resource versions
  function Contents(w: World): World {
    w.(configs := map chart | chart in w.configs :: Content(w.configs[chart]), nextVersion := 0)
  }

  function StrippedConfig(config: HelmConfig, gone: seq<Tree>): HelmConfig {
    if config.values.Map? then config.(values := Stripped(config.values, gone)) else config
  }

  function WithoutValues(w: World, c: ComponentId, gone: seq<Tree>): World {
    var chart := ChartOf(c);
    if chart in w.configs then w.(configs := w.configs[chart := StrippedConfig(w.configs[chart], gone)]) else w
  }

  function ValuesOfKeys(cli: map<EntryKey, Entry>, keys: seq<EntryKey>): seq<Tree>
    requires forall k | k in keys :: k in cli
  {
    seq(|keys|, i requires 0 <= i < |keys| => cli[keys[i]].values)
  }

  lemma SubtractNothing(t: Tree)
    ensures Subtract(t, EMPTY) == t
  {
    forall k ensures Get(Subtract(t, EMPTY), k) == Get(t, k) { SubtractAt(t, EMPTY, k); }
    SameTree(Subtract(t, EMPTY), t);
  }

  lemma StripOne(t: Tree, g: Tree)
    ensures Stripped(t, [g]) == Subtract(t, g)
  {
    hide Subtract;
    assert [g][..0] == [];
    assert Stripped(t, []) == t;
  }

  // One revert, seen from the chart's object
  lemma RevertStripsConfig(w: World, c: ComponentId, e: Entry)
    requires ChartOf(c) in w.configs
    ensures var w' := RevertEntry(w, c, e);
            w' == w.(configs := w'.configs, nextVersion := w'.nextVersion) &&
            ChartOf(c) in w'.configs && w'.configs == w.configs[ChartOf(c) := w'.configs[ChartOf(c)]] &&
            Content(w'.configs[ChartOf(c)]) == StrippedConfig(Content(w.configs[ChartOf(c)]), [e.values])
  {
    hide ChartOf;
    hide Subtract;
    var config := w.configs[ChartOf(c)];
    if config.values.Map? {
      StripOne(config.values, e.values);
      SubtractNothing(config.values);
    }
  }

  // Contents of a change to one object
  lemma ContentsAt(w: World, w': World, chart: Chart, config: HelmConfig)
    requires w' == w.(configs := w.configs[chart := config], nextVersion := w'.nextVersion)
    ensures Contents(w') == Contents(w).(configs := Contents(w).configs[chart := Content(config)])
  {
    hide Content;
    assert Contents(w').configs == Contents(w).configs[chart := Content(config)];
  }

  lemma RevertStrips(w: World, c: ComponentId, e: Entry)
    ensures Contents(RevertEntry(w, c, e)) == WithoutValues(Contents(w), c, [e.values])
  {
    hide ChartOf;
    hide Content;
    hide StrippedConfig;
    if ChartOf(c) in w.configs {
      RevertStripsConfig(w, c, e);
      var w' := RevertEntry(w, c, e);
      ContentsAt(w, w', ChartOf(c), w'.configs[ChartOf(c)]);
    }
  }

  lemma StripsChain(w: World, c: ComponentId, a: seq<Tree>, g: Tree)
    ensures WithoutValues(WithoutValues(w, c, a), c, [g]) == WithoutValues(w, c, a + [g])
  {
    hide ChartOf;
    var chart := ChartOf(c);
    if chart in w.configs {
      ConfigStripsChain(w.configs[chart], a, g);
      hide StrippedConfig;
      assert WithoutValues(w, c, a).configs[chart := StrippedConfig(w.configs[chart], a + [g])] ==
             w.configs[chart := StrippedConfig(w.configs[chart], a + [g])];
    }
  }

  lemma ConfigStripsChain(config: HelmConfig, a: seq<Tree>, g: Tree)
    ensures StrippedConfig(StrippedConfig(config, a), [g]) == StrippedConfig(config, a + [g])
  {
    hide Subtract;
    if config.values.Map? {
      StripOne(Stripped(config.values, a), g);
      assert (a + [g])[..|a|] == a;
    }
  }

  lemma {:induction false} RevertsStrip(w: World, c: ComponentId, keys: seq<EntryKey>)
    requires forall k | k in keys :: k in w.cli
    ensures Contents(RevertEntries(w, c, keys)) == WithoutValues(Contents(w), c, ValuesOfKeys(w.cli, keys))
    decreases |keys|
  {
    if keys == [] {
      NothingStripped(Contents(w), c);
      assert ValuesOfKeys(w.cli, keys) == [];
    } else {
      var front, last := keys[..|keys| - 1], keys[|keys| - 1];
      RevertsStrip(w, c, front);
      RevertStrips(RevertEntries(w, c, front), c, w.cli[last]);
      StripsChain(Contents(w), c, ValuesOfKeys(w.cli, front), w.cli[last].values);
      assert ValuesOfKeys(w.cli, keys) == ValuesOfKeys(w.cli, front) + [w.cli[last].values];
    }
    hide RevertEntry;
    hide WithoutValues;
    hide Contents;
  }

  lemma NothingStripped(w: World, c: ComponentId)
    ensures WithoutValues(w, c, []) == w
  {
    hide ChartOf;
    var chart := ChartOf(c);
    if chart in w.configs { assert w.configs[chart := w.configs[chart]] == w.configs; }
  }

  /* ---- Entries ---- */

  // Which entries a complete run forgets
  function Forgotten(w: World, c: ComponentId, version: string): set<EntryKey> {
    set k | k in ToReconcile(w.cli, c, version) && Revertible(ConfigOf(w, c), w.cli[k])
  }

  // The keys of a run, in the order it visits them
  ghost predicate Visits(w: World, c: ComponentId, version: string, keys: seq<EntryKey>) {
    forall k :: k in keys <==> k in ToReconcile(w.cli, c, version)
  }

  lemma VisitedAreEntries(w: World, c: ComponentId, version: string, keys: seq<EntryKey>)
    requires Visits(w, c, version, keys)
    ensures forall k | k in keys :: k in w.cli && k.component == c
  {
    hide Trim;
  }

  // A complete run, in terms of what it removes
  lemma CompleteRun(w: World, c: ComponentId, version: string, keys: seq<EntryKey>)
    requires Visits(w, c, version, keys)
    ensures forall k | k in keys :: k in w.cli
    ensures var w' := ReconcileCommand(w, c, keys, |keys|, true);
            w'.patches == w.patches && w'.release == w.release && w'.cli == w.cli - Forgotten(w, c, version) &&
            Contents(w').configs == WithoutValues(Contents(w), c, ValuesOfKeys(w.cli, keys)).configs
  {
    VisitedAreEntries(w, c, version, keys);
    hide ToReconcile;
    hide ConfigOf;
    hide RevertEntries;
    hide WithoutValues;
    assert keys[..|keys|] == keys;
    RevertsStrip(w, c, keys);
    hide ValuesOfKeys;
    UnreadableForgetsNothing(w, c, keys);
    assert Reconciled(w, c, keys) == Forgotten(w, c, version);
    hide Revertible;
    hide Unreadable;
    var w1 := RevertEntries(w, c, keys);
    var w' := ReconcileCommand(w, c, keys, |keys|, true);
    assert w'.configs == w1.configs;
    SameContents(w', w1);
    hide Contents;
  }

  lemma SameContents(w: World, w1: World)
    requires w.configs == w1.configs
    ensures Contents(w).configs == Contents(w1).configs
  {
  }

  lemma UnreadableForgetsNothing(w: World, c: ComponentId, keys: seq<EntryKey>)
    requires forall k | k in keys :: k in w.cli
    ensures Unreadable(w, c, keys) ==> Reconciled(w, c, keys) == {} && w.cli - Reconciled(w, c, keys) == w.cli
  {
    hide ConfigOf;
  }

  // With entries of one release only, every entry of the component is visited
  lemma AllAreVisited(w: World, c: ComponentId, version: string)
    requires OneCliRelease(w)
    ensures ToReconcile(w.cli, c, version) == EntriesOf(w.cli, c)
  {
    hide Trim;
    hide GoodEntry;
    var stale := StaleEntries(w.cli, c, version);
    if stale != {} {
      var s :| s in stale;
      forall k | k in EntriesOf(w.cli, c) ensures k in stale {
        assert w.cli[k].clusterVersion == w.cli[s].clusterVersion;
      }
    }
  }

  // A run that has not forgotten its entries yet, run again
  lemma RerunBeforeForgetting(w: World, c: ComponentId, version: string, keys: seq<EntryKey>, n: nat,
                              again: seq<EntryKey>, whole: seq<EntryKey>)
    requires Visits(w, c, version, keys) && Visits(w, c, version, whole) && n <= |keys|
    requires forall k | k in keys :: k in w.cli
    requires Visits(RevertEntries(w, c, keys[..n]), c, version, again)
    ensures forall k | k in again || k in whole :: k in w.cli
    ensures var w1 := RevertEntries(w, c, keys[..n]);
            Contents(ReconcileCommand(w1, c, again, |again|, true)) ==
              Contents(ReconcileCommand(w, c, whole, |whole|, true))
  {
    hide ToReconcile;
    hide ReconcileCommand;
    var done := keys[..n];
    var w1 := RevertEntries(w, c, done);
    CompleteRun(w1, c, version, again);
    CompleteRun(w, c, version, whole);
    RevertsStrip(w, c, done);
    forall k | k in w.cli ensures Revertible(ConfigOf(w1, c), w.cli[k]) == Revertible(ConfigOf(w, c), w.cli[k]) {
      RevertsKeepRevertible(w, c, done, w.cli[k]);
    }
    hide Revertible;
    hide ConfigOf;
    hide RevertEntries;
    assert forall k | k in ToReconcile(w.cli, c, version) :: k in w.cli by { VisitedAreEntries(w, c, version, whole); }
    assert Forgotten(w1, c, version) == Forgotten(w, c, version);
    ValuesAgain(w, c, done, again, whole);
    hide WithoutValues;
    hide ValuesOfKeys;
    hide Forgotten;
    ContentsBy(ReconcileCommand(w1, c, again, |again|, true), ReconcileCommand(w, c, whole, |whole|, true));
  }

  lemma ContentsBy(w: World, w': World)
    requires w.patches == w'.patches && w.release == w'.release && w.cli == w'.cli
    requires Contents(w).configs == Contents(w').configs
    ensures Contents(w) == Contents(w')
  {
  }

  lemma ValuesAgain(w: World, c: ComponentId, done: seq<EntryKey>, again: seq<EntryKey>, whole: seq<EntryKey>)
    requires forall k | k in done || k in again || k in whole :: k in w.cli
    requires forall k | k in done :: k in again
    requires forall k :: k in again <==> k in whole
    ensures WithoutValues(WithoutValues(Contents(w), c, ValuesOfKeys(w.cli, done)), c, ValuesOfKeys(w.cli, again)) ==
            WithoutValues(Contents(w), c, ValuesOfKeys(w.cli, whole))
  {
    hide ChartOf;
    hide Contents;
    var a, b, d := ValuesOfKeys(w.cli, done), ValuesOfKeys(w.cli, again), ValuesOfKeys(w.cli, whole);
    ValuesFollowKeys(w.cli, done, again);
    ValuesFollowKeys(w.cli, again, whole);
    ValuesFollowKeys(w.cli, whole, again);
    hide ValuesOfKeys;
    var u := Contents(w);
    if ChartOf(c) in u.configs {
      StrippedAgain(u.configs[ChartOf(c)], a, b, d);
      hide StrippedConfig;
      var chart, config := ChartOf(c), u.configs[ChartOf(c)];
      assert u.configs[chart := StrippedConfig(config, a)][chart := StrippedConfig(config, d)] ==
             u.configs[chart := StrippedConfig(config, d)];
    }
  }

  lemma ValuesFollowKeys(cli: map<EntryKey, Entry>, keys: seq<EntryKey>, others: seq<EntryKey>)
    requires forall k | k in keys || k in others :: k in cli
    requires forall k | k in keys :: k in others
    ensures forall g | g in ValuesOfKeys(cli, keys) :: g in ValuesOfKeys(cli, others)
  {
    forall g | g in ValuesOfKeys(cli, keys) ensures g in ValuesOfKeys(cli, others) {
      var i :| 0 <= i < |keys| && ValuesOfKeys(cli, keys)[i] == g;
      assert keys[i] in others;
      var j :| 0 <= j < |others| && others[j] == keys[i];
      assert ValuesOfKeys(cli, others)[j] == g;
    }
  }

  lemma StrippedAgain(config: HelmConfig, a: seq<Tree>, b: seq<Tree>, d: seq<Tree>)
    requires (forall g | g in a :: g in b) && forall g :: g in b <==> g in d
    ensures StrippedConfig(StrippedConfig(config, a), b) == StrippedConfig(config, d)
  {
    if config.values.Map? {
      StrippingCommutes(config.values, a, b);
      StrippingTwice(config.values, b, a);
      StrippingIsOrderFree(config.values, b, d);
    }
    hide Stripped;
  }

  // Nothing left that could be reverted
  lemma {:induction false} NothingMore(w: World, c: ComponentId, keys: seq<EntryKey>)
    requires forall k | k in keys :: k in w.cli && !Revertible(ConfigOf(w, c), w.cli[k])
    ensures RevertEntries(w, c, keys) == w
    decreases |keys|
  {
    hide Revertible;
    hide ConfigOf;
    if keys == [] {
    } else {
      NothingMore(w, c, keys[..|keys| - 1]);
    }
  }

  lemma RerunAfterForgetting(w: World, c: ComponentId, version: string, keys: seq<EntryKey>, again: seq<EntryKey>)
    requires OneCliRelease(w) && Visits(w, c, version, keys)
    requires forall k | k in keys :: k in w.cli
    requires Visits(ReconcileCommand(w, c, keys, |keys|, true), c, version, again)
    ensures var w1 := ReconcileCommand(w, c, keys, |keys|, true);
            (forall k | k in again :: k in w1.cli) && ReconcileCommand(w1, c, again, |again|, true) == w1
  {
    hide Revertible;
    hide ConfigOf;
    hide ToReconcile;
    var w1 := ReconcileCommand(w, c, keys, |keys|, true);
    CompleteRun(w, c, version, keys);
    StillOneRelease(w, w1);
    AllAreVisited(w, c, version);
    AllAreVisited(w1, c, version);
    assert keys[..|keys|] == keys;
    forall k | k in again ensures k in w1.cli && !Revertible(ConfigOf(w1, c), w1.cli[k]) {
      assert k in EntriesOf(w1.cli, c);
      assert k !in Forgotten(w, c, version);
      RevertsKeepRevertible(w, c, keys, w.cli[k]);
      SameConfigOf(w1, RevertEntries(w, c, keys), c);
    }
    hide OneCliRelease;
    hide Contents;
    hide WithoutValues;
    NothingMore(w1, c, again);
    NothingForgotten(w1, c, again);
  }

  lemma SameConfigOf(w: World, w': World, c: ComponentId)
    requires w.configs == w'.configs
    ensures ConfigOf(w, c) == ConfigOf(w', c)
  {
    hide ChartOf;
  }

  lemma StillOneRelease(w: World, w': World)
    requires OneCliRelease(w) && forall k | k in w'.cli :: k in w.cli && w'.cli[k] == w.cli[k]
    ensures OneCliRelease(w')
  {
    hide GoodEntry;
  }

  lemma NothingForgotten(w: World, c: ComponentId, keys: seq<EntryKey>)
    requires forall k | k in keys :: k in w.cli && !Revertible(ConfigOf(w, c), w.cli[k])
    requires RevertEntries(w, c, keys) == w
    ensures ReconcileCommand(w, c, keys, |keys|, true) == w
  {
    hide Revertible;
    hide ConfigOf;
    hide RevertEntries;
    assert keys[..|keys|] == keys;
    assert Reconciled(w, c, keys) == {};
    assert w.cli - {} == w.cli;
  }

  /** Resuming: wherever a run was interrupted, running the command again, whatever the order of the
      entries, ends in the same values and the same state as a run that was never interrupted. */
  lemma ResumeIsComplete(w: World, c: ComponentId, version: string, keys: seq<EntryKey>, n: nat, finished: bool,
                         again: seq<EntryKey>, whole: seq<EntryKey>)
    requires OneCliRelease(w) && n <= |keys| && Visits(w, c, version, keys) && Visits(w, c, version, whole)
    requires forall k | k in keys || k in whole :: k in w.cli
    requires Visits(ReconcileCommand(w, c, keys, n, finished), c, version, again)
    ensures var w1 := ReconcileCommand(w, c, keys, n, finished);
            (forall k | k in again :: k in w1.cli) &&
            Contents(ReconcileCommand(w1, c, again, |again|, true)) ==
              Contents(ReconcileCommand(w, c, whole, |whole|, true))
  {
    hide ToReconcile;
    hide Contents;
    hide OneCliRelease;
    hide RevertEntries;
    if finished && n == |keys| {
      RerunAfterForgetting(w, c, version, keys, again);
      RunsAgree(w, c, version, keys, whole);
    } else {
      RerunBeforeForgetting(w, c, version, keys, n, again, whole);
    }
  }

  // Complete runs in any two orders
  lemma RunsAgree(w: World, c: ComponentId, version: string, keys: seq<EntryKey>, whole: seq<EntryKey>)
    requires Visits(w, c, version, keys) && Visits(w, c, version, whole)
    requires forall k | k in keys || k in whole :: k in w.cli
    ensures Contents(ReconcileCommand(w, c, keys, |keys|, true)) ==
            Contents(ReconcileCommand(w, c, whole, |whole|, true))
  {
    assert keys[..0] == [];
    assert RevertEntries(w, c, []) == w;
    hide ToReconcile;
    hide Contents;
    hide ReconcileCommand;
    hide RevertEntries;
    RerunBeforeForgetting(w, c, version, keys, 0, keys, whole);
  }

  /** An entry is forgotten only by a run that reverted it: none of its leaves is left in the values,
      and no entry of another component is touched. */
  lemma ForgottenMeansReverted(w: World, c: ComponentId, version: string, keys: seq<EntryKey>, n: nat, finished: bool,
                               k: EntryKey)
    requires OneCliRelease(w) && n <= |keys| && Visits(w, c, version, keys) && k in w.cli
    requires forall j | j in keys :: j in w.cli
    ensures var w' := ReconcileCommand(w, c, keys, n, finished);
            (k in w'.cli ==> w'.cli[k] == w.cli[k]) &&
            (k !in w'.cli ==> k.component == c && k in keys && Revertible(ConfigOf(w, c), w.cli[k]) &&
                              NoLeaves(TreeOf(w', c), w.cli[k].values))
  {
    hide *;
    var w' := ReconcileCommand(w, c, keys, n, finished);
    VisitedAreEntries(w, c, version, keys);
    RunForgets(w, c, keys, n, finished, k);
    if k !in w'.cli {
      AllGood(w, keys, c);
      OneIsRevertible(w, c, keys, k);
      RevertsClear(w, c, keys);
      EntryHasShape(k, w.cli[k]);
      LeavesFollowShape(TreeOf(RevertEntries(w, c, keys), c), Shape(c), w.cli[k].values);
      SameTreeOf(w', RevertEntries(w, c, keys), c);
    }
  }

  lemma RunForgets(w: World, c: ComponentId, keys: seq<EntryKey>, n: nat, finished: bool, k: EntryKey)
    requires n <= |keys| && k in w.cli && forall j | j in keys :: j in w.cli
    ensures var w' := ReconcileCommand(w, c, keys, n, finished);
            (k in w'.cli ==> w'.cli[k] == w.cli[k]) &&
            (k !in w'.cli ==>
             k in keys && Revertible(ConfigOf(w, c), w.cli[k]) && w'.configs == RevertEntries(w, c, keys).configs)
  {
    hide Unreadable;
    hide ConfigOf;
    hide Revertible;
    hide RevertEntries;
    assert n == |keys| ==> keys[..n] == keys;
  }

  lemma OneIsRevertible(w: World, c: ComponentId, keys: seq<EntryKey>, k: EntryKey)
    requires k in keys && k in w.cli && Revertible(ConfigOf(w, c), w.cli[k])
    ensures AnyRevertible(w, c, keys)
  {
    hide ConfigOf;
    hide Revertible;
  }

  lemma SameTreeOf(w: World, w': World, c: ComponentId)
    requires w.configs == w'.configs
    ensures TreeOf(w, c) == TreeOf(w', c)
  {
    hide ChartOf;
  }

  lemma AllGood(w: World, keys: seq<EntryKey>, c: ComponentId)
    requires OneCliRelease(w) && forall k | k in keys :: k in w.cli && k.component == c
    ensures forall k | k in keys :: GoodEntry(k, w.cli[k])
  {
    hide GoodEntry;
  }
}
