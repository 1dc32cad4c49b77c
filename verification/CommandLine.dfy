/** The command line as the cluster sees it: image-patch as one atomic step, and image-reconcile as
    a sequence of reverts followed by the removal of the reverted entries, interrupted anywhere. */
module CommandLine {
  import opened Text
  import opened Values
  import opened Components
  import opened Calendar
  import opened Cluster
  import Policy
  import StateStore

  /* ---- image-patch ---- */

  // What image-patch finds and is told: the most used running image, the ordered published tags,
  // the requested tag ("" for the default choice), the zero-day, the version, whether nothing is to
  // be written, whether merging into an existing object is approved, how the write of the values fares,
  // and whether the write of the decision lands
  datatype PatchPlan = PatchPlan(
    image: ImageRef, ordered: seq<string>, requested: string, zeroDay: Date, version: string, dryRun: bool,
    approved: bool,
    apply: Verdict, stored: bool)

  // The values are written, and the command ends before the decision is
  predicate CutShort(p: PatchPlan) {
    Lands(p.apply) && !(p.apply.Acked? && p.stored)
  }

  predicate Declined(w: World, c: ComponentId, p: PatchPlan) {
    p.dryRun || (ConfigOf(w, c).Some? && !p.approved)
  }

  predicate HoldsOtherVersion(cli: map<EntryKey, Entry>, version: string) {
    exists k | k in cli :: Trim(cli[k].clusterVersion) != version
  }

  // The first non-blank baseline of a key is kept
  function BaselineFor(cli: map<EntryKey, Entry>, key: EntryKey, current: string): string {
    if key in cli && !Blank(cli[key].baselineTag) then cli[key].baselineTag else current
  }

  // The state after the decision is persisted; the same decision is not written twice
  function Recorded(cli: map<EntryKey, Entry>, key: EntryKey, entry: Entry): map<EntryKey, Entry> {
    var next := StateStore.Mutated(StateStore.Persist(key, entry), cli);
    if next.Some? then next.value else cli
  }

  function MergedConfig(config: Option<HelmConfig>, generated: Tree): HelmConfig {
    if config.None? then HelmConfig(generated, map[], "", 0)
    else
      var values := config.value.values;
      config.value.(values := if values.Map? then Merge(values, generated) else generated)
  }

  // Merges the values for a tag, and records the decision once that write is acknowledged
  function MergeAndRecord(w: World, c: ComponentId, image: ImageRef, tag: string, version: string, v: Verdict,
                          stored: bool): World
  {
    var generated := GeneratedValues(c, WithoutRegistry(image.name), tag);
    var key := EntryKey(version, c);
    var entry := Entry(version, BaselineFor(w.cli, key, image.tag), tag, generated);
    var read := VersionOf(w, ChartOf(c));
    var w' := Apply(w, ChartOf(c), read, MergedConfig(ConfigOf(w, c), generated), v);
    if Answer(w, ChartOf(c), read, v).Acked? && stored then w'.(cli := Recorded(w.cli, key, entry)) else w'
  }

  // From the chosen tag on; the list and the requested tag are no longer looked at
  function PatchChoice(w: World, c: ComponentId, choice: Policy.Choice, p: PatchPlan): World {
    match choice
    case Refused(_) => w
    case Chosen(tag) =>
      if Policy.ValidatePatchWindow(c, tag, p.zeroDay).Some? then w
      else if Declined(w, c, p) || HoldsOtherVersion(w.cli, p.version) then w
      else MergeAndRecord(w, c, p.image, tag, p.version, p.apply, p.stored)
  }

  // Refuses while ImagePatches exist
  function ImagePatchCommand(w: World, c: ComponentId, p: PatchPlan): World {
    if w.patches != map[] then w else PatchChoice(w, c, Policy.Resolve(p.ordered, p.image.tag, p.requested), p)
  }

  // What image-patch may leave: nothing new, another client's write that came first, or the values of
  // the component, alone if the command is cut short and with the decision otherwise
  predicate PatchLeaves(w: World, w': World, c: ComponentId, p: PatchPlan, repository: string, tag: string) {
    var generated, key := GeneratedValues(c, repository, tag), EntryKey(p.version, c);
    var entry := Entry(p.version, BaselineFor(w.cli, key, p.image.tag), tag, generated);
    var w1 := Put(w, ChartOf(c), MergedConfig(ConfigOf(w, c), generated));
    w' == w ||
    (w.patches == map[] &&
     ((p.apply.Raced? && w' == Put(w, ChartOf(c), p.apply.edit)) ||
      (CutShort(p) && w' == w1) ||
      (p.apply.Acked? && p.stored && !HoldsOtherVersion(w.cli, p.version) &&
       w' == w1.(cli := Recorded(w.cli, key, entry)))))
  }

  lemma CommandLeaves(w: World, c: ComponentId, p: PatchPlan) returns (repository: string, tag: string)
    requires VersionsBelow(w)
    ensures PatchLeaves(w, ImagePatchCommand(w, c, p), c, p, repository, tag)
  {
    repository, tag := WithoutRegistry(p.image.name), "";
    hide ChartOf;
    hide ConfigOf;
    hide MergedConfig;
    hide GeneratedValues;
    hide Recorded;
    hide WithoutRegistry;
    hide BaselineFor;
    hide HoldsOtherVersion;
    hide Declined;
    hide Policy.Resolve;
    hide Policy.ValidatePatchWindow;
    hide Put;
    var choice := Policy.Resolve(p.ordered, p.image.tag, p.requested);
    if choice.Chosen? {
      tag := choice.tag;
      if p.apply.Raced? {
        StaleWriteIsRefused(w, ChartOf(c), MergedConfig(ConfigOf(w, c), GeneratedValues(c, repository, tag)), p.apply);
        hide VersionsBelow;
        hide Apply;
        hide Answer;
      }
    }
  }

  /* ---- image-reconcile ---- */

  function EntriesOf(cli: map<EntryKey, Entry>, c: ComponentId): set<EntryKey> {
    set k | k in cli && k.component == c
  }

  function StaleEntries(cli: map<EntryKey, Entry>, c: ComponentId, version: string): set<EntryKey> {
    set k | k in cli && k.component == c && Trim(cli[k].clusterVersion) != version
  }

  // Entries of another release first; only when there are none, those of this one
  function ToReconcile(cli: map<EntryKey, Entry>, c: ComponentId, version: string): set<EntryKey> {
    var stale := StaleEntries(cli, c, version);
    if stale != {} then stale else EntriesOf(cli, c)
  }

  // Whether there is anything to revert for an entry
  predicate Revertible(config: Option<HelmConfig>, e: Entry) {
    e.values != EMPTY && config.Some? && config.value.values.Map?
  }

  // One entry's revert leaves every other value and every annotation alone
  function RevertEntry(w: World, c: ComponentId, e: Entry): World {
    if Revertible(ConfigOf(w, c), e) then
      var config := w.configs[ChartOf(c)];
      Put(w, ChartOf(c), config.(values := Subtract(config.values, e.values)))
    else w
  }

  // The revert as it is written on what was read, and what its client sees
  function RevertAttempt(w: World, c: ComponentId, e: Entry, v: Verdict): (World, Verdict) {
    if !Revertible(ConfigOf(w, c), e) then (w, Acked)
    else
      var config := w.configs[ChartOf(c)];
      var reverted := config.(values := Subtract(config.values, e.values));
      (Apply(w, ChartOf(c), Some(config.resourceVersion), reverted, v),
       Answer(w, ChartOf(c), Some(config.resourceVersion), v))
  }

  // A revert happens or does not, or another client's write comes first and the revert is refused
  lemma AttemptEnds(w: World, c: ComponentId, e: Entry, v: Verdict)
    requires VersionsBelow(w) && Revertible(ConfigOf(w, c), e)
    ensures var (w', seen) := RevertAttempt(w, c, e, v);
            (v.Raced? ==> w' == Put(w, ChartOf(c), v.edit) && !seen.Acked?) &&
            (!v.Raced? ==> seen == v && w' == if Lands(v) then RevertEntry(w, c, e) else w)
  {
    hide ChartOf;
    hide Subtract;
    hide Put;
    if v.Raced? { StaleWriteIsRefused(w, ChartOf(c), v.edit, v); }
    var config := w.configs[ChartOf(c)];
    var reverted := config.(values := Subtract(config.values, e.values));
    if v.Raced? { StaleWriteIsRefused(w, ChartOf(c), reverted, v); }
    hide VersionsBelow;
  }

  function RevertEntries(w: World, c: ComponentId, keys: seq<EntryKey>): World
    requires forall k | k in keys :: k in w.cli
    ensures RevertEntries(w, c, keys).cli == w.cli && RevertEntries(w, c, keys).patches == w.patches
    ensures RevertEntries(w, c, keys).release == w.release
  {
    if keys == [] then w else RevertEntry(RevertEntries(w, c, keys[..|keys| - 1]), c, w.cli[keys[|keys| - 1]])
  }

  // The keys whose revert was applied
  function Reconciled(w: World, c: ComponentId, keys: seq<EntryKey>): set<EntryKey>
    requires forall k | k in keys :: k in w.cli
  {
    set k | k in keys && Revertible(ConfigOf(w, c), w.cli[k])
  }

  // Content that is no map makes a revert fail, and the command with it
  predicate Unreadable(w: World, c: ComponentId, keys: seq<EntryKey>)
    requires forall k | k in keys :: k in w.cli
  {
    ConfigOf(w, c).Some? && !ConfigOf(w, c).value.values.Map? && exists k | k in keys :: w.cli[k].values != EMPTY
  }

  // The other client's write that ended the command, if any
  function WithRival(w: World, chart: Chart, rival: Option<HelmConfig>): World {
    if rival.Some? then Put(w, chart, rival.value) else w
  }

  // A run over `keys`, of which the first `n` were reverted; the entries are forgotten only at the end
  function ReconcileCommand(w: World, c: ComponentId, keys: seq<EntryKey>, n: nat, finished: bool): World
    requires n <= |keys| && forall k | k in keys :: k in w.cli
  {
    var w' := RevertEntries(w, c, keys[..n]);
    if finished && n == |keys| && !Unreadable(w, c, keys) then w'.(cli := w.cli - Reconciled(w, c, keys)) else w'
  }
}
