/** image-patch and image-reconcile as they run, one read or write after the other, each proved to do
    what the command specified in CommandLine does. */
module Commands {
  import opened Text
  import opened Values
  import opened Components
  import opened Cluster
  import opened CommandLine
  import opened Controller
  import opened Versions
  import opened Invariants
  import opened Resume
  import Patcher
  import Policy
  import StateStore
  import Tags

  // refuseInControllerMode
  method RefuseInControllerMode(api: ApiServer) returns (refused: bool)
    ensures refused <==> api.patches != map[]
  {
    var names := api.patches.Keys;
    return names != {};
  }

  // generateStateWrite: None when a patch of another release is active
  method GenerateStateWrite(api: ApiServer, c: ComponentId, version: string, currentTag: string, targetTag: string,
                            values: Tree)
    returns (decision: Option<(EntryKey, Entry)>)
    ensures decision.None? <==> HoldsOtherVersion(api.cli, version)
    ensures decision.Some? ==>
              decision.value.0 == EntryKey(version, c) &&
              decision.value.1 ==
                Entry(version, BaselineFor(api.cli, EntryKey(version, c), currentTag), targetTag, values)
  {
    hide Trim;
    hide Blank;
    var keys := api.cli.Keys;
    while keys != {}
      invariant keys <= api.cli.Keys
      invariant forall k | k in api.cli && k !in keys :: Trim(api.cli[k].clusterVersion) == version
      decreases |keys|
    {
      var key :| key in keys;
      keys := keys - {key};
      if Trim(api.cli[key].clusterVersion) != version {
        return None;
      }
    }
    var entryKey := EntryKey(version, c);
    var baselineTag := currentTag;
    if entryKey in api.cli {
      var existing := api.cli[entryKey];
      // The baseline recorded first stays
      if !Blank(existing.baselineTag) {
        baselineTag := existing.baselineTag;
      }
    }
    return Some((entryKey, Entry(version, baselineTag, targetTag, values)));
  }

  // persistPatchDecision, with nobody in between; `stored` says whether its save lands
  method PersistPatchDecision(api: ApiServer, key: EntryKey, entry: Entry, stored: bool)
    modifies api
    ensures api.Snapshot() ==
            old(api.Snapshot()).(cli := if stored then Recorded(old(api.cli), key, entry) else old(api.cli))
  {
    hide Blank;
    if !stored {
      return;
    }
    var closure := new StateStore.Closure(StateStore.Persist(key, entry));
    var changed, next := closure.Mutate(api.cli);
    hide StateStore.Mutated;
    if changed {
      api.cli := next;
    }
  }

  lemma ApplyTouchesObjects(w: World, chart: Chart, read: Option<nat>, config: HelmConfig, v: Verdict)
    ensures Apply(w, chart, read, config, v).cli == w.cli && Apply(w, chart, read, config, v).patches == w.patches
  {
  }

  datatype PatchResult = Patched | NothingPatched | ApplyFailed(seen: Verdict) | NotRecorded

  // The two writes of the command, after everything was read
  method WriteDecision(api: ApiServer, c: ComponentId, image: ImageRef, tag: string, version: string,
                       conflict: Option<HelmConfig>,
                       generated: Tree, decision: (EntryKey, Entry), v: Verdict, stored: bool)
    returns (r: PatchResult)
    requires generated == GeneratedValues(c, WithoutRegistry(image.name), tag)
    requires conflict == ConfigOf(api.Snapshot(), c) && decision.0 == EntryKey(version, c)
    requires decision.1 == Entry(version, BaselineFor(api.cli, EntryKey(version, c), image.tag), tag, generated)
    modifies api
    ensures api.Snapshot() == MergeAndRecord(old(api.Snapshot()), c, image, tag, version, v, stored)
    ensures r.Patched? || (r.ApplyFailed? && !r.seen.Acked?) || (r.NotRecorded? && !stored)
    ensures r.Patched? ==> stored
    ensures !r.Patched? ==> api.cli == old(api.cli)
  {
    hide ChartOf;
    hide GeneratedValues;
    hide WithoutRegistry;
    hide MergedConfig;
    hide Recorded;
    hide BaselineFor;
    hide Apply;
    hide Answer;
    ghost var w := api.Snapshot();
    var content := MergedConfig(conflict, generated);
    var expected := if conflict.Some? then Some(conflict.value.resourceVersion) else None;
    var seen := api.ApplyHelmChartConfig(ChartOf(c), content, expected, v);
    ApplyTouchesObjects(w, ChartOf(c), expected, content, v);
    if !seen.Acked? {
      return ApplyFailed(seen);
    }
    PersistPatchDecision(api, decision.0, decision.1, stored);
    return if stored then Patched else NotRecorded;
  }

  // From the chosen tag on
  method PatchTo(api: ApiServer, c: ComponentId, choice: Policy.Choice, p: PatchPlan) returns (r: PatchResult)
    modifies api
    ensures api.Snapshot() == PatchChoice(old(api.Snapshot()), c, choice, p)
    ensures r.NothingPatched? ==> api.Snapshot() == old(api.Snapshot())
    ensures r.ApplyFailed? ==> !r.seen.Acked?
    ensures (r.Patched? ==> p.stored) && (r.NotRecorded? ==> !p.stored)
    ensures !r.Patched? ==> api.cli == old(api.cli)
  {
    hide Policy.ValidatePatchWindow;
    hide ChartOf;
    hide GeneratedValues;
    hide WithoutRegistry;
    hide HoldsOtherVersion;
    hide BaselineFor;
    hide MergeAndRecord;
    if choice.Refused? {
      return NothingPatched;
    }
    var outside := Policy.ValidatePatchWindow(c, choice.tag, p.zeroDay);
    if outside.Some? {
      return NothingPatched;
    }
    var generated := GeneratedValues(c, WithoutRegistry(p.image.name), choice.tag);
    var conflict := api.GetHelmChartConfig(ChartOf(c));
    if p.dryRun {
      return NothingPatched;
    }
    if conflict.Some? && !p.approved {
      return NothingPatched;
    }
    var decision := GenerateStateWrite(api, c, p.version, p.image.tag, choice.tag, generated);
    if decision.None? {
      return NothingPatched;
    }
    r := WriteDecision(api, c, p.image, choice.tag, p.version, conflict, generated, decision.value, p.apply, p.stored);
  }

  lemma ListIsNoMatter(w: World, c: ComponentId, choice: Policy.Choice, p: PatchPlan, ordered: seq<string>)
    ensures PatchChoice(w, c, choice, p.(ordered := ordered)) == PatchChoice(w, c, choice, p)
  {
    hide MergeAndRecord;
    hide HoldsOtherVersion;
    hide ConfigOf;
    hide Policy.ValidatePatchWindow;
  }

  /** runImagePatch, from the published names to the recorded decision. The write of the values fares as
      `p.apply` says, and `p.stored` says whether the decision is stored; the command ends at the first
      failure. */
  method RunImagePatch(api: ApiServer, c: ComponentId, names: seq<string>, p: PatchPlan) returns (r: PatchResult)
    modifies api
    ensures forall ordered | Tags.Descending(ordered) && Tags.NamesOf(ordered, names) ::
              api.Snapshot() == ImagePatchCommand(old(api.Snapshot()), c, p.(ordered := ordered))
    ensures r.NothingPatched? ==> api.Snapshot() == old(api.Snapshot())
    ensures r.ApplyFailed? ==> !r.seen.Acked?
    ensures (r.Patched? ==> p.stored) && (r.NotRecorded? ==> !p.stored)
    ensures !r.Patched? ==> api.cli == old(api.cli)
  {
    hide Tags.Descending;
    hide Tags.NamesOf;
    hide Policy.Resolve;
    hide PatchChoice;
    ghost var w := api.Snapshot();
    var refused := RefuseInControllerMode(api);
    if refused {
      return NothingPatched;
    }
    var choice := Policy.ResolveTarget(names, p.image.tag, p.requested);
    r := PatchTo(api, c, choice, p);
    forall ordered | Tags.Descending(ordered) && Tags.NamesOf(ordered, names)
      ensures api.Snapshot() == ImagePatchCommand(w, c, p.(ordered := ordered))
    {
      ListIsNoMatter(w, c, choice, p, ordered);
    }
  }

  datatype RevertResult = EntryReverted | NothingToRevert | RevertFailed | RevertNotApplied(seen: Verdict)

  // RevertEntryWith; the write fares as `v` says
  method RevertEntryWith(api: ApiServer, c: ComponentId, e: Entry, v: Verdict) returns (r: RevertResult)
    modifies api
    ensures api.Snapshot() == RevertAttempt(old(api.Snapshot()), c, e, v).0
    ensures r.EntryReverted? || r.RevertNotApplied? <==> Revertible(ConfigOf(old(api.Snapshot()), c), e)
    ensures r.EntryReverted? ==> RevertAttempt(old(api.Snapshot()), c, e, v).1.Acked?
    ensures r.RevertNotApplied? ==> r.seen == RevertAttempt(old(api.Snapshot()), c, e, v).1 && !r.seen.Acked?
    ensures r.RevertFailed? <==>
              e.values != EMPTY && ConfigOf(old(api.Snapshot()), c).Some? &&
              !ConfigOf(old(api.Snapshot()), c).value.values.Map?
  {
    hide ChartOf;
    hide Subtract;
    if e.values == EMPTY {
      return NothingToRevert;
    }
    var existing := api.GetHelmChartConfig(ChartOf(c));
    if existing.None? {
      return NothingToRevert;
    }
    var config := existing.value;
    if !config.values.Map? {
      return RevertFailed;
    }
    var values := Patcher.DeepSubtractMap(config.values, e.values);
    var updated := config.(values := values);
    var seen := api.ApplyHelmChartConfig(ChartOf(c), updated, Some(config.resourceVersion), v);
    if !seen.Acked? {
      return RevertNotApplied(seen);
    }
    return EntryReverted;
  }

  // The component's entries, of other releases and of this one
  method SortEntries(cli: map<EntryKey, Entry>, c: ComponentId, version: string)
    returns (stale: seq<EntryKey>, current: seq<EntryKey>)
    ensures forall k :: k in stale <==> k in StaleEntries(cli, c, version)
    ensures forall k :: k in current <==> k in EntriesOf(cli, c) && k !in StaleEntries(cli, c, version)
  {
    hide Trim;
    stale, current := [], [];
    var keys := cli.Keys;
    while keys != {}
      invariant keys <= cli.Keys
      invariant forall k :: k in stale <==> k in StaleEntries(cli, c, version) && k !in keys
      invariant forall k ::
                  k in current <==> k in EntriesOf(cli, c) && k !in StaleEntries(cli, c, version) && k !in keys
      decreases |keys|
    {
      var key :| key in keys;
      keys := keys - {key};
      if key.component != c {
        continue;
      }
      if Trim(cli[key].clusterVersion) == version {
        current := current + [key];
        continue;
      }
      stale := stale + [key];
    }
  }

  // removeEntriesFromState, with nobody in between
  method RemoveEntriesFromState(api: ApiServer, keys: seq<EntryKey>)
    modifies api
    ensures api.Snapshot() == old(api.Snapshot()).(cli := old(api.cli) - (set k | k in keys))
  {
    var closure := new StateStore.Closure(StateStore.Remove(keys));
    var changed, next := closure.Mutate(api.cli);
    if changed {
      api.cli := next;
    } else {
      assert api.cli - (set k | k in keys) == api.cli;
    }
  }

  lemma SortedAreVisited(w: World, c: ComponentId, version: string, stale: seq<EntryKey>, current: seq<EntryKey>)
    requires forall k :: k in stale <==> k in StaleEntries(w.cli, c, version)
    requires forall k :: k in current <==> k in EntriesOf(w.cli, c) && k !in StaleEntries(w.cli, c, version)
    ensures Visits(w, c, version, if stale == [] then current else stale)
  {
    hide Trim;
    if stale != [] { assert stale[0] in stale; }
  }

  lemma NotRevertibleStays(w: World, c: ComponentId, e: Entry)
    requires !Revertible(ConfigOf(w, c), e)
    ensures RevertEntry(w, c, e) == w
  {
    hide ConfigOf;
  }

  lemma {:induction false} RevertsKeepObject(w: World, c: ComponentId, keys: seq<EntryKey>)
    requires forall k | k in keys :: k in w.cli
    ensures ConfigOf(RevertEntries(w, c, keys), c).Some? == ConfigOf(w, c).Some?
    decreases |keys|
  {
    if keys == [] {
    } else {
      RevertsKeepObject(w, c, keys[..|keys| - 1]);
      RevertedEntryTree(RevertEntries(w, c, keys[..|keys| - 1]), c, w.cli[keys[|keys| - 1]], c);
    }
    hide RevertEntry;
    hide ConfigOf;
  }

  lemma FailureIsUnreadable(w: World, c: ComponentId, keys: seq<EntryKey>, i: nat)
    requires i < |keys| && forall k | k in keys :: k in w.cli
    requires w.cli[keys[i]].values != EMPTY && ConfigOf(RevertEntries(w, c, keys[..i]), c).Some?
    requires !Revertible(ConfigOf(w, c), w.cli[keys[i]])
    ensures Unreadable(w, c, keys)
  {
    hide ConfigOf;
    RevertsKeepObject(w, c, keys[..i]);
    assert keys[i] in keys;
  }

  lemma RevertsStayBelow(w: World, c: ComponentId, keys: seq<EntryKey>)
    requires VersionsBelow(w) && forall k | k in keys :: k in w.cli
    ensures VersionsBelow(RevertEntries(w, c, keys))
  {
    RevertsStep(w, c, keys);
    StepsAreBelow(w, RevertEntries(w, c, keys));
    hide *;
  }

  // One entry more is reverted, or not
  lemma OneMoreAttempt(w: World, c: ComponentId, keys: seq<EntryKey>, v: Verdict)
    requires VersionsBelow(w) && keys != [] && forall k | k in keys :: k in w.cli
    ensures var front, last := keys[..|keys| - 1], keys[|keys| - 1];
            var w1 := RevertEntries(w, c, front);
            var (w', seen) := RevertAttempt(w1, c, w.cli[last], v);
            if !Revertible(ConfigOf(w1, c), w.cli[last]) then w' == RevertEntries(w, c, keys) && w' == w1
            else if v.Raced? then !seen.Acked? && w' == Put(w1, ChartOf(c), v.edit)
            else seen == v && w' == if Lands(v) then RevertEntries(w, c, keys) else w1
  {
    var front, last := keys[..|keys| - 1], keys[|keys| - 1];
    var w1 := RevertEntries(w, c, front);
    RevertsStayBelow(w, c, front);
    RevertsUnfold(w, c, keys);
    hide RevertEntries;
    hide VersionsBelow;
    hide ConfigOf;
    if Revertible(ConfigOf(w1, c), w.cli[last]) {
      AttemptEnds(w1, c, w.cli[last], v);
      hide RevertEntry;
      hide RevertAttempt;
      hide Put;
    } else {
      NotRevertibleStays(w1, c, w.cli[last]);
      hide RevertEntry;
    }
    hide Revertible;
  }

  // Reverts the entries one after the other, until a write fails; the i-th write fares as luck(i) says.
  // The server gives every stored object a version of its own.
  method RevertAll(api: ApiServer, c: ComponentId, visited: seq<EntryKey>, luck: nat -> Verdict)
    returns (n: nat, completed: bool, keysToRemove: seq<EntryKey>, ghost rival: Option<HelmConfig>)
    requires VersionsBelow(api.Snapshot()) && forall k | k in visited :: k in api.cli
    modifies api
    ensures n <= |visited| && (completed ==> n == |visited| && rival.None?)
    ensures api.Snapshot() == WithRival(RevertEntries(old(api.Snapshot()), c, visited[..n]), ChartOf(c), rival)
    ensures rival.Some? ==> exists i: nat :: luck(i).Raced? && luck(i).edit == rival.value
    ensures completed ==>
              forall k ::
                k in keysToRemove <==>
                k in visited[..n] && Revertible(ConfigOf(old(api.Snapshot()), c), old(api.cli)[k])
    ensures (forall i: nat :: luck(i).Acked?) && !Unreadable(old(api.Snapshot()), c, visited) ==> completed
  {
    hide ConfigOf;
    hide ChartOf;
    hide Revertible;
    hide RevertEntry;
    hide RevertEntries;
    hide RevertAttempt;
    hide Unreadable;
    hide VersionsBelow;
    hide Put;
    ghost var w := api.Snapshot();
    var entries := api.cli;
    keysToRemove, rival := [], None;
    assert visited[..0] == [];
    RevertsUnfold(w, c, []);
    for i := 0 to |visited|
      invariant api.Snapshot() == RevertEntries(w, c, visited[..i]) && rival.None?
      invariant forall k :: k in keysToRemove <==> k in visited[..i] && Revertible(ConfigOf(w, c), w.cli[k])
    {
      var key := visited[i];
      assert visited[..i + 1] == visited[..i] + [key] && visited[..i + 1][..i] == visited[..i];
      RevertsKeepRevertible(w, c, visited[..i], entries[key]);
      OneMoreAttempt(w, c, visited[..i + 1], luck(i));
      var reconciled := RevertEntryWith(api, c, entries[key], luck(i));
      if reconciled.RevertFailed? {
        FailureIsUnreadable(w, c, visited, i);
        return i, false, keysToRemove, None;
      }
      if reconciled.RevertNotApplied? {
        rival := if luck(i).Raced? then Some(luck(i).edit) else None;
        n := if Lands(luck(i)) then i + 1 else i;
        return n, false, keysToRemove, rival;
      }
      if reconciled.EntryReverted? {
        keysToRemove := keysToRemove + [key];
      }
    }
    assert visited[..|visited|] == visited;
    return |visited|, true, keysToRemove, None;
  }

  lemma FinishedRun(w: World, c: ComponentId, keys: seq<EntryKey>, removed: seq<EntryKey>)
    requires forall k | k in keys :: k in w.cli
    requires forall k :: k in removed <==> k in keys && Revertible(ConfigOf(w, c), w.cli[k])
    ensures RevertEntries(w, c, keys).(cli := w.cli - (set k | k in removed)) ==
            ReconcileCommand(w, c, keys, |keys|, true)
  {
    hide ConfigOf;
    hide Revertible;
    hide RevertEntries;
    assert keys[..|keys|] == keys;
    assert (set k | k in removed) == CommandLine.Reconciled(w, c, keys);
    UnreadableForgetsNothing(w, c, keys);
    hide Unreadable;
    hide CommandLine.Reconciled;
    RevertsKeepCli(w, c, keys);
  }

  lemma RevertsKeepCli(w: World, c: ComponentId, keys: seq<EntryKey>)
    requires forall k | k in keys :: k in w.cli
    ensures RevertEntries(w, c, keys).(cli := w.cli) == RevertEntries(w, c, keys)
  {
    hide RevertEntries;
  }

  // An entry of the component is from another release
  predicate HasStale(cli: map<EntryKey, Entry>, c: ComponentId, version: string) {
    exists k | k in cli :: k.component == c && Trim(cli[k].clusterVersion) != version
  }

  lemma StaleIsThere(cli: map<EntryKey, Entry>, c: ComponentId, version: string, stale: seq<EntryKey>)
    requires forall k :: k in stale <==> k in StaleEntries(cli, c, version)
    ensures stale != [] <==> HasStale(cli, c, version)
  {
    hide Trim;
    if stale != [] { assert stale[0] in stale; }
    if HasStale(cli, c, version) {
      var k :| k in cli && k.component == c && Trim(cli[k].clusterVersion) != version;
      assert k in StaleEntries(cli, c, version);
    }
  }

  lemma VisitedInFull(w: World, c: ComponentId, version: string, keys: seq<EntryKey>)
    requires Visits(w, c, version, keys)
    ensures if HasStale(w.cli, c, version) then
              forall k :: k in keys <==> k in w.cli && k.component == c && Trim(w.cli[k].clusterVersion) != version
            else forall k :: k in keys <==> k in w.cli && k.component == c
  {
    hide Trim;
    if HasStale(w.cli, c, version) {
      var k :| k in w.cli && k.component == c && Trim(w.cli[k].clusterVersion) != version;
      assert k in StaleEntries(w.cli, c, version);
    } else {
      assert StaleEntries(w.cli, c, version) == {};
    }
  }

  /** runReconcile: the i-th revert fares as luck(i) says, `stored` says whether the removal of the
      entries lands, and the command ends at the first failure. What it leaves is a prefix of the reverts,
      the removal only after all of them, and another client's write if that is what ended it. */
  method RunReconcile(api: ApiServer, c: ComponentId, version: string, approved: bool, luck: nat -> Verdict,
                      stored: bool)
    returns (ghost keys: seq<EntryKey>, ghost n: nat, ghost finished: bool, ghost rival: Option<HelmConfig>)
    requires VersionsBelow(api.Snapshot())
    modifies api
    ensures n <= |keys| && Visits(old(api.Snapshot()), c, version, keys)
    ensures forall k | k in keys :: k in old(api.cli) && k.component == c
    ensures if HasStale(old(api.cli), c, version) then
              forall k :: k in keys <==>
                k in old(api.cli) && k.component == c && Trim(old(api.cli)[k].clusterVersion) != version
            else forall k :: k in keys <==> k in old(api.cli) && k.component == c
    ensures !approved && !HasStale(old(api.cli), c, version) ==> api.Snapshot() == old(api.Snapshot())
    ensures api.Snapshot() == WithRival(ReconcileCommand(old(api.Snapshot()), c, keys, n, finished), ChartOf(c), rival)
    ensures rival.Some? ==> !finished && exists i: nat :: luck(i).Raced? && luck(i).edit == rival.value
    ensures approved && (forall i: nat :: luck(i).Acked?) && stored && !Unreadable(old(api.Snapshot()), c, keys) ==>
              n == |keys| && finished
  {
    hide Trim;
    hide ChartOf;
    hide EntriesOf;
    hide StaleEntries;
    hide ConfigOf;
    hide Revertible;
    hide RevertEntries;
    hide ReconcileCommand;
    hide Unreadable;
    hide VersionsBelow;
    hide Visits;
    hide Put;
    ghost var w := api.Snapshot();
    var stale, current := SortEntries(api.cli, c, version);
    var visited := if stale == [] then current else stale;
    SortedAreVisited(w, c, version, stale, current);
    VisitedAreEntries(w, c, version, visited);
    VisitedInFull(w, c, version, visited);
    StaleIsThere(w.cli, c, version, stale);
    hide HasStale;
    keys, n, finished, rival := visited, 0, false, None;
    UnfinishedRun(w, c, visited, 0);
    if stale == [] && !approved {
      return;
    }
    var reverted, completed, keysToRemove, other := RevertAll(api, c, visited, luck);
    n, rival := reverted, other;
    UnfinishedRun(w, c, visited, reverted);
    if !completed || !stored {
      return;
    }
    finished := true;
    assert visited[..reverted] == visited;
    RemoveEntriesFromState(api, keysToRemove);
    FinishedRun(w, c, visited, keysToRemove);
  }

  lemma UnfinishedRun(w: World, c: ComponentId, keys: seq<EntryKey>, n: nat)
    requires n <= |keys| && forall k | k in keys :: k in w.cli
    ensures ReconcileCommand(w, c, keys, n, false) == RevertEntries(w, c, keys[..n])
    ensures RevertEntries(w, c, keys[..0]) == w
  {
    assert keys[..0] == [];
    hide RevertEntry;
  }
}
