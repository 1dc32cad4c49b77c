/** Concrete inputs and runs for the properties that fail: the default choice on an older line, the two
    ways in which a tag is rolled back, and a spec generation written on two releases. */
module Witnesses {
  import opened Text
  import opened Values
  import opened Components
  import opened Tags
  import opened Comparison
  import opened Cluster
  import opened Reconciliation
  import opened PassFacts
  import opened CommandLine
  import opened Runs
  import opened Versions
  import opened Invariants
  import opened AutoRevertSafety
  import opened SingleWrite
  import opened Rollback
  import Patcher
  import Policy

  /* ---- Tags ---- */

  const OLDER_LINE := "v1.4.9-build20260201"
  const BASE := "v1.5.0-build20260101"
  const OLD := "v1.5.0-build20260301"
  const NEW := "v1.5.1-build20260401"

  predicate Printed(name: string, minor: nat, patch: nat, build: nat) {
    name == Print(1, minor, patch, "", build)
  }

  lemma NextDigit(n: nat, text: string, d: nat)
    requires Decimal(n) == text && 0 < n && d < 10
    ensures Decimal(10 * n + d) == text + [Digit(d)]
  {
    assert (10 * n + d) / 10 == n && (10 * n + d) % 10 == d;
  }

  lemma TwoText()
    ensures Decimal(2) == "2"
  {
  }

  lemma YearText()
    ensures Decimal(20260) == "20260"
  {
    hide Decimal;
    TwoText();
    NextDigit(2, "2", 0);
    assert Decimal(20) == "20";
    NextDigit(20, "20", 2);
    assert Decimal(202) == "202";
    NextDigit(202, "202", 6);
    assert Decimal(2026) == "2026";
    NextDigit(2026, "2026", 0);
  }

  // A year, a month and the first day of that month
  lemma FirstOfMonth(year: nat, text: string, month: nat)
    requires Decimal(year) == text && 0 < year && month < 10
    ensures Decimal(1000 * year + 100 * month + 1) == text + [Digit(month)] + "01"
  {
    hide Decimal;
    NextDigit(year, text, month);
    var m := text + [Digit(month)];
    NextDigit(10 * year + month, m, 0);
    NextDigit(10 * (10 * year + month), m + "0", 1);
    assert m + "0" + "1" == m + "01";
  }

  lemma PrintedOnFirst(name: string, minor: nat, patch: nat, month: nat)
    requires minor < 10 && patch < 10 && 0 < month < 10
    requires name == "v1." + [Digit(minor)] + "." + [Digit(patch)] + "-build20260" + [Digit(month)] + "01"
    ensures Printed(name, minor, patch, 20260001 + 100 * month)
  {
    YearText();
    FirstOfMonth(20260, "20260", month);
    assert Decimal(1) == "1" && Decimal(minor) == [Digit(minor)] && Decimal(patch) == [Digit(patch)];
    hide Decimal;
    hide Digit;
  }

  lemma PrintedTags()
    ensures Printed(OLDER_LINE, 4, 9, 20260201) && Printed(BASE, 5, 0, 20260101)
    ensures Printed(OLD, 5, 0, 20260301) && Printed(NEW, 5, 1, 20260401)
  {
    hide Printed;
    OlderText();
    BaseText();
    OldText();
    NewText();
    hide *;
    PrintedOnFirst(OLDER_LINE, 4, 9, 2);
    PrintedOnFirst(BASE, 5, 0, 1);
    PrintedOnFirst(OLD, 5, 0, 3);
    PrintedOnFirst(NEW, 5, 1, 4);
  }

  lemma OlderText()
    ensures OLDER_LINE == "v1." + [Digit(4)] + "." + [Digit(9)] + "-build20260" + [Digit(2)] + "01"
  {
  }

  lemma BaseText()
    ensures BASE == "v1." + [Digit(5)] + "." + [Digit(0)] + "-build20260" + [Digit(1)] + "01"
  {
  }

  lemma OldText()
    ensures OLD == "v1." + [Digit(5)] + "." + [Digit(0)] + "-build20260" + [Digit(3)] + "01"
  {
  }

  lemma NewText()
    ensures NEW == "v1." + [Digit(5)] + "." + [Digit(1)] + "-build20260" + [Digit(4)] + "01"
  {
  }

  // A release tag of version 1
  ghost predicate Release1(name: string, minor: nat, patch: nat, build: nat) {
    TagName(name) && name != "" &&
    var t := ParseTag(name).value; t.major == 1 && t.minor == minor && t.patch == patch && t.build == build
  }

  lemma TagOf(name: string, minor: nat, patch: nat, build: nat)
    requires Printed(name, minor, patch, build) && minor < 10 && patch < 10 && build < 100000000
    ensures Release1(name, minor, patch, build)
  {
    ParseOfPrinted(1, minor, patch, "", build);
    ParseKeepsName(name);
    hide ParseTag;
    hide Print;
    hide Trim;
    hide FlavorParts;
  }

  lemma LaterBuild(a: string, b: string, minor: nat, patch: nat, build: nat, minor': nat, patch': nat, build': nat)
    requires Release1(a, minor, patch, build) && Release1(b, minor', patch', build') && build > build'
    ensures NewerName(a, b) && a != b && TagName(a) && TagName(b)
    ensures !IsNewerMinorRelease(ParseTag(b).value, ParseTag(a).value) <==> minor <= minor'
    ensures Policy.ValidateAgainstBaseline(b, a) == if minor == minor' then None else Some(Policy.MinorVersionChange)
  {
    hide ParseTag;
    hide Trim;
  }

  /** The default choice on an older line: with this current tag and this list `image-patch` goes from
      1.5 to 1.4, and the controller's rule refuses that tag. */
  lemma OlderLineIsChosen()
    ensures Descending([OLDER_LINE, BASE])
    ensures Policy.Resolve([OLDER_LINE, BASE], BASE, "") == Policy.Chosen(OLDER_LINE)
    ensures Policy.ValidateTarget(BASE, OLDER_LINE, [OLDER_LINE, BASE]) == Some(Policy.MinorVersionChange)
  {
    hide *;
    PrintedTags();
    TagOf(OLDER_LINE, 4, 9, 20260201);
    TagOf(BASE, 5, 0, 20260101);
    LaterBuild(OLDER_LINE, BASE, 4, 9, 20260201, 5, 0, 20260101);
    SecondOfTwo(OLDER_LINE, BASE);
  }

  lemma SecondOfTwo(next: string, current: string)
    requires NewerName(next, current) && next != current && TagName(next) && TagName(current)
    requires !IsNewerMinorRelease(ParseTag(current).value, ParseTag(next).value)
    ensures Descending([next, current]) && Policy.Resolve([next, current], current, "") == Policy.Chosen(next)
    ensures Policy.ValidateTarget(current, next, [next, current]) == Policy.ValidateAgainstBaseline(current, next)
  {
    hide ParseTag;
    hide Trim;
    hide CompareTags;
    hide IsNewerMinorRelease;
    hide Policy.ValidateAgainstBaseline;
    Policy.PositionIsFirst([next, current], current, 1);
    hide Policy.Position;
  }

  /* ---- A cluster with one component ---- */

  // What every pass sees: one component whose tags need no patch window, on one release
  datatype Scene = Scene(
    c: ComponentId, policy: UpgradePolicy, o: Observed, baseline: string, version: string, repository: string)

  predicate Shows(s: Scene) {
    Policy.IsPatchWindowExempt(s.c) && s.version != "" && s.o.prime == Some(true) && s.o.cliReadable &&
    s.o.version == Some(s.version) && s.o.chart.Some? &&
    Patcher.BundledOf(s.c, s.o.chart.value) == Patcher.BundledTag(s.baseline) &&
    s.o.configReadable && s.o.images.Some? && s.repository == RepositoryFor(s.c, s.o.images.value) &&
    s.o.othersReadable && s.o.tags.Some?
  }

  // A published tag the bundled one allows
  predicate Offers(s: Scene, tag: string) {
    s.o.tags.Some? && Policy.ValidateTarget(s.baseline, tag, s.o.tags.value).None? && tag != s.baseline
  }

  function ValuesFor(s: Scene, tag: string): Tree {
    GeneratedValues(s.c, s.repository, tag)
  }

  // The spec asks for one tag, the values hold another and the status records a third
  ghost predicate At(s: Scene, w: World, spec: string, held: string, recorded: string) {
    VersionsBelow(w) && Live(s, w, spec, recorded) && w.patches[s.c].finalizer && Alone(s, w) && Holds(s, w, held)
  }

  predicate Live(s: Scene, w: World, spec: string, recorded: string) {
    w.cli == map[] && s.c in w.patches &&
    var ip := w.patches[s.c];
    ip.tag == spec && ip.policy == s.policy && !ip.deleting && ip.marker == None && ip.status.appliedTag == recorded
  }

  predicate Holds(s: Scene, w: World, tag: string) {
    ManagedIn(w, s.c) == s.version && ValuesOf(ConfigOf(w, s.c)).Map? &&
    Patcher.Present(TreeOf(w, s.c), ValuesFor(s, tag))
  }

  ghost predicate Alone(s: Scene, w: World) {
    forall d | d != s.c :: !Owned(w, d)
  }

  ghost predicate Follows(w: World, m: Move, w': World) {
    Possible(w, m) && w' == Moved(w, m)
  }

  lemma GatesOpen(s: Scene, w: World)
    requires Shows(s) && w.cli == map[]
    ensures Gates(w, s.c, s.o) == Open(s.baseline, s.version)
  {
    hide Patcher.BundledOf;
  }

  lemma NobodyElse(s: Scene, w: World)
    requires Alone(s, w)
    ensures !OthersStale(w, s.version, s.c)
  {
    hide Owned;
  }

  // What lets a pass write
  predicate Writable(s: Scene, w: World, spec: string) {
    ValuesOf(ConfigOf(w, s.c)).Map? &&
    if Owned(w, s.c) then
      ManagedIn(w, s.c) == s.version && !Patcher.Present(ValuesOf(ConfigOf(w, s.c)), ValuesFor(s, spec))
    else !Patcher.HasConflict(ValuesOf(ConfigOf(w, s.c)), ValuesFor(s, spec))
  }

  lemma RulesAreMet(s: Scene, w: World, spec: string, recorded: string)
    requires Shows(s) && Offers(s, spec) && Live(s, w, spec, recorded) && Alone(s, w) && Permits(recorded, spec)
    requires Writable(s, w, spec)
    ensures MustPatch(w, s.c, w.patches[s.c], s.baseline, s.version, s.o)
  {
    NobodyElse(s, w);
    hide Alone;
    hide ConfigOf;
    hide ManagedIn;
    hide OthersStale;
    hide GeneratedValues;
    hide RepositoryFor;
    hide Patcher.BundledOf;
    hide Patcher.Present;
    hide Patcher.HasConflict;
    hide Policy.ValidateTarget;
    hide Policy.ValidateNotOlderThanCurrent;
  }

  /* ---- Steps ---- */

  lemma PassWrites(s: Scene, w: World, spec: string, recorded: string, v: Verdicts)
    requires Shows(s) && Offers(s, spec) && Live(s, w, spec, recorded) && Alone(s, w) && Permits(recorded, spec)
    requires Writable(s, w, spec) && Lands(v.apply) && v.mark.Acked? && v.finalizer.Acked?
    ensures PassEffect(w, s.c, s.o, v) == Patches(s.repository, spec, s.version)
  {
    hide *;
    LiveHas(s, w, spec, recorded);
    RulesAreMet(s, w, spec, recorded);
    GatesOpen(s, w);
    ShowsHas(s);
    EffectsFollowGates(w, s.c, s.o, v);
  }

  lemma ShowsHas(s: Scene)
    requires Shows(s)
    ensures s.o.configReadable && s.o.images.Some? && s.repository == RepositoryFor(s.c, s.o.images.value)
    ensures s.o.version == Some(s.version) && s.version != ""
  {
    hide Patcher.BundledOf;
    hide RepositoryFor;
  }

  lemma LiveHas(s: Scene, w: World, spec: string, recorded: string)
    requires Live(s, w, spec, recorded)
    ensures w.cli == map[] && s.c in w.patches && !w.patches[s.c].deleting && w.patches[s.c].marker == None
    ensures w.patches[s.c].tag == spec && w.patches[s.c].status.appliedTag == recorded && !Outdated(w.patches[s.c])
  {
  }

  // A pass that writes the tag of the spec, and what it records
  lemma Writing(s: Scene, w: World, spec: string, recorded: string, v: Verdicts) returns (w': World)
    requires Shows(s) && Offers(s, spec) && Live(s, w, spec, recorded) && Alone(s, w) && Permits(recorded, spec)
    requires Writable(s, w, spec) && Lands(v.apply) && v.mark.Acked? && v.finalizer.Acked? && VersionsBelow(w)
    ensures Follows(w, Regular(ControllerPass(s.c, s.o, v)), w')
    ensures PassEffect(w, s.c, s.o, v) == Patches(s.repository, spec, s.version)
    ensures At(s, w', spec, spec, if v.apply.Acked? && Lands(v.status) then spec else recorded)
  {
    hide *;
    w' := Pass(w, s.c, s.o, v);
    var e := PassEffect(w, s.c, s.o, v);
    PassWrites(s, w, spec, recorded, v);
    ShowsHas(s);
    LiveHas(s, w, spec, recorded);
    LandedIsNotRaced(v.apply);
    PassIsMove(w, s.c, s.o, v);
    PatchRecords(w, s.c, s.o, v);
    WhenStored(w, s.c, s.o, v);
    BelowIsVersioned(w, v.apply);
    PassIsAStep(w, s.c, s.o, v);
    EnabledIsFair(w, s.c, s.o, v, e);
    CliStays(w, w', s.c, s.o, e);
    SpecStays(w, w', s.c, s.o, e);
    PatchedIsPresent(w, w', s.c, s.o, e);
    PatchedIsMap(w, w', s.c, s.o, e);
    forall d ensures ManagedIn(w', d) == if d == s.c then s.version else ManagedIn(w, d) {
      OthersOwnedAlike(w, w', s.c, s.o, e, d);
    }
    WrittenIsAt(s, w, w', spec, recorded, if v.apply.Acked? && Lands(v.status) then spec else recorded);
  }

  lemma LandedIsNotRaced(v: Verdict)
    requires Lands(v)
    ensures !v.Raced?
  {
  }

  lemma PassIsMove(w: World, c: ComponentId, o: Observed, v: Verdicts)
    requires o.version.Some? && o.version.value != "" && !v.apply.Raced?
    ensures Enabled(w, ControllerPass(c, o, v)) && Follows(w, Regular(ControllerPass(c, o, v)), Pass(w, c, o, v))
  {
    hide Pass;
  }

  lemma WrittenIsAt(s: Scene, w: World, w': World, spec: string, recorded: string, recorded': string)
    requires Live(s, w, spec, recorded) && Alone(s, w)
    requires VersionsBelow(w') && s.c in w'.patches && w'.cli == w.cli
    requires var p, q := w.patches[s.c], w'.patches[s.c];
             q.tag == p.tag && q.policy == p.policy && q.deleting == p.deleting && q.finalizer && q.marker == None &&
             q.status.appliedTag == recorded'
    requires forall d :: ManagedIn(w', d) == if d == s.c then s.version else ManagedIn(w, d)
    requires ValuesOf(ConfigOf(w', s.c)).Map? &&
             Patcher.Present(TreeOf(w', s.c), GeneratedValues(s.c, s.repository, spec))
    ensures At(s, w', spec, spec, recorded')
  {
    hide VersionsBelow;
    hide ManagedIn;
    hide ConfigOf;
    hide TreeOf;
    hide GeneratedValues;
    hide Patcher.Present;
    forall d | d != s.c ensures !Owned(w', d) { assert !Owned(w, d); }
  }

  // An edit of the spec
  lemma Asking(s: Scene, w: World, spec: string, held: string, recorded: string, tag: string) returns (w': World)
    requires At(s, w, spec, held, recorded)
    ensures Follows(w, Regular(EditSpec(s.c, tag, s.policy)), w') && At(s, w', tag, held, recorded)
  {
    hide *;
    AtHas(s, w, spec, held, recorded);
    LiveHas(s, w, spec, recorded);
    EditIsMove(s, w, spec, recorded, tag);
    w' := Next(w, EditSpec(s.c, tag, s.policy));
    SameConfigsAt(s, w, w', held);
    SameVersions(w, w');
    LiveHas(s, w', tag, recorded);
    IsAt(s, w', tag, held, recorded);
  }

  lemma AtHas(s: Scene, w: World, spec: string, held: string, recorded: string)
    requires At(s, w, spec, held, recorded)
    ensures VersionsBelow(w) && Live(s, w, spec, recorded) && s.c in w.patches && w.patches[s.c].finalizer
    ensures Alone(s, w) && Holds(s, w, held)
  {
    hide VersionsBelow;
    hide Alone;
    hide Holds;
  }

  lemma IsAt(s: Scene, w: World, spec: string, held: string, recorded: string)
    requires VersionsBelow(w) && Live(s, w, spec, recorded) && s.c in w.patches && w.patches[s.c].finalizer
    requires Alone(s, w) && Holds(s, w, held)
    ensures At(s, w, spec, held, recorded)
  {
    hide VersionsBelow;
    hide Alone;
    hide Holds;
  }

  lemma EditIsMove(s: Scene, w: World, spec: string, recorded: string, tag: string)
    requires Live(s, w, spec, recorded) && s.c in w.patches && w.patches[s.c].finalizer
    ensures Enabled(w, EditSpec(s.c, tag, s.policy))
    ensures var w' := Next(w, EditSpec(s.c, tag, s.policy));
            Follows(w, Regular(EditSpec(s.c, tag, s.policy)), w') && Live(s, w', tag, recorded) &&
            w'.patches[s.c].finalizer &&
            w'.configs == w.configs && w'.nextVersion == w.nextVersion
  {
    hide Pass;
    hide ImagePatchCommand;
    hide ReconcileCommand;
    hide UnrelatedEdit;
    hide ToReconcile;
  }

  lemma SameConfigsAt(s: Scene, w: World, w': World, held: string)
    requires w'.configs == w.configs && Alone(s, w) && Holds(s, w, held)
    ensures Alone(s, w') && Holds(s, w', held)
  {
    hide GeneratedValues;
    hide Patcher.Present;
    SameConfigsSame(w, w', s.c);
    SameConfigsValues(w, w', s.c);
    forall d | d != s.c ensures !Owned(w', d) {
      OwnedAlike(w, w', d);
      assert !Owned(w, d);
    }
    hide Owned;
    hide ManagedIn;
    hide TreeOf;
    hide ConfigOf;
  }

  lemma SameVersions(w: World, w': World)
    requires w'.configs == w.configs && w'.nextVersion == w.nextVersion && VersionsBelow(w)
    ensures VersionsBelow(w')
  {
  }

  // The object with the values of `tag`, its annotation left alone
  function EditedTo(s: Scene, tag: string): HelmConfig {
    HelmConfig(ValuesFor(s, tag), map[Managed(s.c) := s.version], "", 0)
  }

  // Someone edits the values of a chart no other component uses
  lemma Drifting(s: Scene, w: World, spec: string, held: string, recorded: string, tag: string) returns (w': World)
    requires At(s, w, spec, held, recorded) && s.version != "" && forall d | ChartOf(d) == ChartOf(s.c) :: d == s.c
    ensures Follows(w, Drift(ChartOf(s.c), EditedTo(s, tag)), w') && At(s, w', spec, tag, recorded)
  {
    hide *;
    AtHas(s, w, spec, held, recorded);
    LiveHas(s, w, spec, recorded);
    w' := Put(w, ChartOf(s.c), EditedTo(s, tag));
    DriftIsMove(s, w, w', held, tag);
    PutSteps(w, w', ChartOf(s.c), EditedTo(s, tag));
    StepsAreBelow(w, w');
    SameLive(s, w, w', spec, recorded);
    IsAt(s, w', spec, tag, recorded);
  }

  lemma SameLive(s: Scene, w: World, w': World, spec: string, recorded: string)
    requires Live(s, w, spec, recorded) && w'.patches == w.patches && w'.cli == w.cli
    ensures Live(s, w', spec, recorded)
  {
  }

  lemma PresentItself(g: Tree)
    ensures Patcher.Present(g, g)
  {
    Patcher.MergedIsPresent(EMPTY, g);
    MergeIntoEmpty(g);
    hide *;
  }

  lemma DriftIsMove(s: Scene, w: World, w': World, held: string, tag: string)
    requires Holds(s, w, held) && Alone(s, w) && forall d | ChartOf(d) == ChartOf(s.c) :: d == s.c
    requires w' == Put(w, ChartOf(s.c), EditedTo(s, tag))
    ensures Follows(w, Drift(ChartOf(s.c), EditedTo(s, tag)), w')
    ensures w'.patches == w.patches && w'.cli == w.cli && w'.nextVersion == w.nextVersion + 1
    ensures Holds(s, w', tag) && Alone(s, w')
  {
    PresentItself(ValuesFor(s, tag));
    hide GeneratedValues;
    hide Patcher.Present;
    hide ChartOf;
    hide Enabled;
    forall d | d != s.c ensures !Owned(w', d) { assert !Owned(w, d); }
  }

  lemma InPlaceIsTakenOver(s: Scene, w: World, tag: string, recorded: string)
    requires Shows(s) && Offers(s, tag) && Live(s, w, tag, recorded) && Holds(s, w, tag)
    ensures TakesOver(w, s.c, s.o) && Owned(w, s.c)
  {
    hide *;
    LiveHas(s, w, tag, recorded);
    ShowsHas(s);
    GatesOpen(s, w);
    OffersHas(s, tag);
    HoldsHas(s, w, tag);
    TakesOverWhen(w, s.c, s.o, s.baseline, s.version);
  }

  lemma OffersHas(s: Scene, tag: string)
    requires Offers(s, tag)
    ensures Policy.ValidateAgainstBaseline(s.baseline, tag).None? && tag != s.baseline
  {
    hide Policy.ValidateAgainstBaseline;
  }

  lemma HoldsHas(s: Scene, w: World, tag: string)
    requires Holds(s, w, tag)
    ensures ManagedIn(w, s.c) == s.version && ValuesOf(ConfigOf(w, s.c)).Map?
    ensures Patcher.Present(ValuesOf(ConfigOf(w, s.c)), GeneratedValues(s.c, s.repository, tag))
  {
    hide ConfigOf;
    hide ManagedIn;
    hide GeneratedValues;
    hide Patcher.Present;
  }

  lemma TakesOverWhen(w: World, c: ComponentId, o: Observed, baseline: string, version: string)
    requires c in w.patches && Gates(w, c, o) == Open(baseline, version) && o.images.Some? && version != ""
    requires ManagedIn(w, c) == version && w.patches[c].marker == None && w.patches[c].tag != baseline
    requires ValuesOf(ConfigOf(w, c)).Map? && Policy.ValidateAgainstBaseline(baseline, w.patches[c].tag).None?
    requires Patcher.Present(ValuesOf(ConfigOf(w, c)),
                             GeneratedValues(c, RepositoryFor(c, o.images.value), w.patches[c].tag))
    ensures TakesOver(w, c, o) && Owned(w, c)
  {
    hide Gates;
    hide ConfigOf;
    hide ManagedIn;
    hide GeneratedValues;
    hide RepositoryFor;
    hide Patcher.Present;
    hide Policy.ValidateAgainstBaseline;
  }

  lemma IsLive(s: Scene, w: World, w': World, spec: string, recorded: string, recorded': string)
    requires Live(s, w, spec, recorded) && s.c in w'.patches && w'.cli == w.cli
    requires var p, q := w.patches[s.c], w'.patches[s.c];
             q.tag == p.tag && q.policy == p.policy && q.deleting == p.deleting && q.marker == None &&
             q.status.appliedTag == recorded'
    ensures Live(s, w', spec, recorded')
  {
  }

  // A pass that finds the tag of the spec in place takes it over
  lemma TakingOver(s: Scene, w: World, tag: string, recorded: string, v: Verdicts) returns (w': World)
    requires Shows(s) && Offers(s, tag) && At(s, w, tag, tag, recorded) && !v.apply.Raced? && Lands(v.status)
    ensures Follows(w, Regular(ControllerPass(s.c, s.o, v)), w') && TakesOver(w, s.c, s.o)
    ensures At(s, w', tag, tag, tag)
  {
    hide *;
    w' := Pass(w, s.c, s.o, v);
    AtHas(s, w, tag, tag, recorded);
    LiveHas(s, w, tag, recorded);
    ShowsHas(s);
    InPlaceIsTakenOver(s, w, tag, recorded);
    PassIsMove(w, s.c, s.o, v);
    UnracedIsVersioned(w, v.apply);
    PassIsAStep(w, s.c, s.o, v);
    TakeoverIsReadable(w, s.c, s.o, v);
    TakeoverWritesNothing(w, s.c, s.o, v);
    SpecStays(w, w', s.c, s.o, PassEffect(w, s.c, s.o, v));
    OwnedAlike(w, w', s.c);
    RecordedTag(w, s.c, s.o, v);
    WhenStored(w, s.c, s.o, v);
    TakeoverStores(w, s.c, s.o, v);
    PassSteps(w, s.c, s.o, v);
    StepsAreBelow(w, w');
    SameConfigsAt(s, w, w', tag);
    IsLive(s, w, w', tag, recorded, tag);
    IsAt(s, w', tag, tag, tag);
  }

  /* ---- The runs ---- */

  const C := IngressNginx
  const VERSION := "v1.30.1+rke2r1"
  const FRESH := World(Release(VERSION, map[]), map[], map[], map[], 0)

  // The release bundles BASE; both newer tags are published
  const SEEN := Observed(
    Some(true), true, Some(VERSION), Some(ChartWith(BASE)), true,
    Some([ImageRef(Repository(C), BASE)]), true, Some([OLD, NEW]), None)

  const SCENE := Scene(C, AutoRevert, SEEN, BASE, VERSION, RepositoryFor(C, [ImageRef(Repository(C), BASE)]))

  const REPLY_LOST := SMOOTH.(apply := Failed(true))

  lemma RepositoryIsRead()
    ensures Trim(Repository(C)) == Repository(C)
  {
    TrimIsTrimmed(Repository(C));
    hide Trim;
    assert Trimmed("rancher/nginx-ingress-controller");
  }

  lemma ImageIsRead(repository: string, tag: string)
    ensures Lookup(Image(repository, "primeTag", tag), ["primeTag"]) == Some(Trim(tag))
    ensures Lookup(Image(repository, "primeTag", tag), ["repository"]) == Some(Trim(repository))
  {
    hide Trim;
    assert ["primeTag"][1..] == [] && ["repository"][1..] == [];
    assert "primeTag" != "repository" by { assert "primeTag"[0] != "repository"[0]; }
  }

  lemma UnderIsRead(key: string, t: Tree, path: seq<string>)
    ensures Lookup(Under(key, t), [key] + path) == Lookup(t, path)
  {
    assert ([key] + path)[1..] == path;
  }

  // A chart that bundles a tag
  function ChartWith(tag: string): Tree {
    GeneratedValues(C, Repository(C), tag)
  }

  lemma ChartBundles(tag: string)
    requires TagName(tag) && tag != ""
    ensures Patcher.BundledOf(C, ChartWith(tag)) == Patcher.BundledTag(tag)
  {
    var chart, image := ChartWith(tag), Image(Repository(C), "primeTag", tag);
    var path := ["controller", "image", "primeTag"];
    Patcher.BundledTagMeans(C, chart, tag);
    ImageIsRead(Repository(C), tag);
    UnderIsRead("image", image, ["primeTag"]);
    UnderIsRead("image", image, ["repository"]);
    UnderIsRead("controller", Under("image", image), ["image"] + ["primeTag"]);
    UnderIsRead("controller", Under("image", image), ["image"] + ["repository"]);
    RepositoryIsRead();
    hide Lookup;
    hide Trim;
    hide ParseTag;
    hide WithoutRegistry;
    hide Image;
    hide Under;
    hide Repository;
    hide Patcher.BundledOf;
    assert TagPaths(C) == [path];
    assert path == ["controller"] + (["image"] + ["primeTag"]);
    assert path[..|path| - 1] + ["repository"] == ["controller"] + (["image"] + ["repository"]);
    assert Patcher.SetsTag(chart, Repository(C), path, tag);
  }

  lemma IsTag(name: string, minor: nat, patch: nat, build: nat)
    requires Release1(name, minor, patch, build)
    ensures TagName(name) && name != "" && !Blank(name)
  {
    hide ParseTag;
    hide Trim;
  }

  lemma SceneShows()
    ensures Shows(SCENE)
  {
    hide *;
    PrintedTags();
    TagOf(BASE, 5, 0, 20260101);
    IsTag(BASE, 5, 0, 20260101);
    ChartBundles(BASE);
    ShowsWhenBundled();
  }

  lemma ShowsWhenBundled()
    requires Patcher.BundledOf(C, ChartWith(BASE)) == Patcher.BundledTag(BASE)
    ensures Shows(SCENE)
  {
    hide Patcher.BundledOf;
    hide ChartWith;
    hide Repository;
    hide RepositoryFor;
  }

  lemma ListedIsOffered(s: Scene, a: string, b: string)
    requires s.o.tags == Some([a, b]) && NewerName(a, s.baseline) && NewerName(b, s.baseline)
    requires Policy.ValidateAgainstBaseline(s.baseline, a).None? && Policy.ValidateAgainstBaseline(s.baseline, b).None?
    ensures Offers(s, a) && Offers(s, b)
  {
    hide ParseTag;
    hide Policy.ValidateAgainstBaseline;
    ComparisonFlips(ParseTag(s.baseline).value, ParseTag(s.baseline).value);
    hide CompareTags;
  }

  lemma SceneOffers()
    ensures Offers(SCENE, OLD) && Offers(SCENE, NEW)
  {
    hide *;
    PrintedTags();
    TagOf(BASE, 5, 0, 20260101);
    TagOf(OLD, 5, 0, 20260301);
    TagOf(NEW, 5, 1, 20260401);
    LaterBuild(OLD, BASE, 5, 0, 20260301, 5, 0, 20260101);
    LaterBuild(NEW, BASE, 5, 1, 20260401, 5, 0, 20260101);
    SceneLists();
    ListedIsOffered(SCENE, OLD, NEW);
  }

  lemma SceneLists()
    ensures SCENE.o.tags == Some([OLD, NEW]) && SCENE.baseline == BASE
  {
  }

  lemma NewerIsNotOlder(a: string, b: string)
    requires NewerName(a, b)
    ensures a != b && AtLeast(a, b) && !AtLeast(b, a) && Permits(b, a) && Permits("", a) && Permits("", b)
  {
    hide ParseTag;
    ComparisonFlips(ParseTag(a).value, ParseTag(b).value);
    hide CompareTags;
  }

  lemma OldAndNew()
    ensures OLD != NEW && AtLeast(NEW, OLD) && !AtLeast(OLD, NEW) && Permits(OLD, NEW) && Permits("", OLD) &&
            Permits("", NEW)
  {
    hide *;
    PrintedTags();
    TagOf(OLD, 5, 0, 20260301);
    TagOf(NEW, 5, 1, 20260401);
    LaterBuild(NEW, OLD, 5, 1, 20260401, 5, 0, 20260301);
    NewerIsNotOlder(NEW, OLD);
  }

  lemma FreshIsUntouched()
    ensures Untouched(FRESH)
  {
    hide Shape;
    forall c ensures !Owned(FRESH, c) && NoLeaves(TreeOf(FRESH, c), Shape(c)) {
      ShapeIsGenerated(c);
      AllLeavesOfEmpty(Shape(c));
    }
  }

  lemma Creating(tag: string) returns (w: World)
    ensures Follows(FRESH, Regular(CreatePatch(SCENE.c, tag, SCENE.policy)), w)
    ensures VersionsBelow(w) && Live(SCENE, w, tag, "") && Alone(SCENE, w) && Writable(SCENE, w, tag)
  {
    w := Next(FRESH, CreatePatch(C, tag, SCENE.policy));
    assert forall d :: ConfigOf(w, d) == None;
    hide ConfigOf;
    hide GeneratedValues;
  }

  // After the write of one tag, another may be written
  lemma OtherIsWritable(s: Scene, w: World, held: string, tag: string)
    requires Holds(s, w, held) && tag != held && s.version != ""
    ensures Writable(s, w, tag)
  {
    hide *;
    HoldsHas(s, w, held);
    PresentInTree(w, s.c, EMPTY);
    OtherTagIsAbsent(w, s.c, s.repository, held, s.repository, tag);
    WritableIs(s, w, tag);
  }

  lemma WritableIs(s: Scene, w: World, tag: string)
    requires ValuesOf(ConfigOf(w, s.c)).Map? && ManagedIn(w, s.c) == s.version && s.version != ""
    requires !Patcher.Present(ValuesOf(ConfigOf(w, s.c)), GeneratedValues(s.c, s.repository, tag))
    ensures Writable(s, w, tag)
  {
    hide ConfigOf;
    hide GeneratedValues;
    hide Patcher.Present;
    hide Patcher.HasConflict;
  }

  lemma VerdictsAre()
    ensures SMOOTH.apply.Acked? && Lands(SMOOTH.apply) && Lands(SMOOTH.status) && SMOOTH.mark.Acked? &&
            SMOOTH.finalizer.Acked?
    ensures !REPLY_LOST.apply.Acked? && Lands(REPLY_LOST.apply) && REPLY_LOST.mark.Acked? && REPLY_LOST.finalizer.Acked?
    ensures !SMOOTH.apply.Raced?
  {
  }

  // The pass over the scene's component turns w into w' and writes this tag
  ghost predicate WritesTag(s: Scene, w: World, v: Verdicts, tag: string, w': World) {
    Follows(w, Regular(ControllerPass(s.c, s.o, v)), w') &&
    PassEffect(w, s.c, s.o, v) == Patches(s.repository, tag, s.version)
  }

  lemma WritesTagIs(s: Scene, w: World, v: Verdicts, tag: string, w': World)
    requires Follows(w, Regular(ControllerPass(s.c, s.o, v)), w') &&
             PassEffect(w, s.c, s.o, v) == Patches(s.repository, tag, s.version)
    ensures WritesTag(s, w, v, tag, w')
  {
    hide Follows;
    hide PassEffect;
  }

  /** The lost reply: one tag is written and recorded; a newer one is written, its reply is lost and the
      status, stored as an error, still records the first; the spec asks for the first again, and the next
      pass writes it over the newer one. */
  lemma LostReply(s: Scene, w1: World, older: string, newer: string)
    returns (w2: World, w3: World, w4: World, w5: World, w6: World)
    requires Shows(s) && Offers(s, older) && Offers(s, newer) && older != newer && Permits(older, newer) &&
             Permits("", older)
    requires VersionsBelow(w1) && Live(s, w1, older, "") && Alone(s, w1) && Writable(s, w1, older)
    ensures WritesTag(s, w1, SMOOTH, older, w2) && Follows(w2, Regular(EditSpec(s.c, newer, s.policy)), w3)
    ensures WritesTag(s, w3, REPLY_LOST, newer, w4) && Follows(w4, Regular(EditSpec(s.c, older, s.policy)), w5)
    ensures WritesTag(s, w5, SMOOTH, older, w6) && !TakesOver(w5, s.c, s.o)
  {
    hide *;
    VerdictsAre();
    ShowsHas(s);
    w2 := Writing(s, w1, older, "", SMOOTH);
    WritesTagIs(s, w1, SMOOTH, older, w2);
    w3 := Asking(s, w2, older, older, older, newer);
    AtHas(s, w3, newer, older, older);
    OtherIsWritable(s, w3, older, newer);
    w4 := Writing(s, w3, newer, older, REPLY_LOST);
    WritesTagIs(s, w3, REPLY_LOST, newer, w4);
    w5 := Asking(s, w4, newer, newer, older, older);
    AtHas(s, w5, older, newer, older);
    LiveHas(s, w5, older, older);
    OtherIsWritable(s, w5, newer, older);
    SameIsPermitted(older);
    w6 := Writing(s, w5, older, older, SMOOTH);
    WritesTagIs(s, w5, SMOOTH, older, w6);
    WritingTakesNothing(s, w5, w6, older);
  }

  lemma WritingTakesNothing(s: Scene, w: World, w': World, tag: string)
    requires WritesTag(s, w, SMOOTH, tag, w') && VersionsBelow(w) && s.c in w.patches && !w.patches[s.c].deleting
    ensures !TakesOver(w, s.c, s.o)
  {
    hide *;
    BelowIsVersioned(w, SMOOTH.apply);
    PassIsAStep(w, s.c, s.o, SMOOTH);
    WritesTagHas(s, w, SMOOTH, tag, w');
    PatchTakesNothing(w, Pass(w, s.c, s.o, SMOOTH), s.c, s.o, PassEffect(w, s.c, s.o, SMOOTH));
  }

  lemma WritesTagHas(s: Scene, w: World, v: Verdicts, tag: string, w': World)
    requires WritesTag(s, w, v, tag, w')
    ensures PassEffect(w, s.c, s.o, v).Patches?
  {
    hide Follows;
    hide PassEffect;
  }

  /** The take-over: a tag is written and recorded; someone edits the values back to an older one and asks
      for it, and a pass finds it in place and records it; once the values hold the newer tag again, the
      next pass writes the older one over it. */
  lemma TakeOver(s: Scene, w1: World, older: string, newer: string)
    returns (w2: World, w3: World, w4: World, w5: World, w6: World, w7: World)
    requires Shows(s) && Offers(s, older) && Offers(s, newer) && older != newer && Permits("", newer)
    requires forall d | ChartOf(d) == ChartOf(s.c) :: d == s.c
    requires VersionsBelow(w1) && Live(s, w1, newer, "") && Alone(s, w1) && Writable(s, w1, newer)
    ensures WritesTag(s, w1, SMOOTH, newer, w2) && Follows(w2, Drift(ChartOf(s.c), EditedTo(s, older)), w3)
    ensures Follows(w3, Regular(EditSpec(s.c, older, s.policy)), w4) && TakesOver(w4, s.c, s.o)
    ensures Follows(w4, Regular(ControllerPass(s.c, s.o, SMOOTH)), w5)
    ensures Follows(w5, Drift(ChartOf(s.c), EditedTo(s, newer)), w6) && WritesTag(s, w6, SMOOTH, older, w7)
  {
    hide *;
    VerdictsAre();
    ShowsHas(s);
    w2 := Writing(s, w1, newer, "", SMOOTH);
    WritesTagIs(s, w1, SMOOTH, newer, w2);
    w3 := Drifting(s, w2, newer, newer, newer, older);
    w4 := Asking(s, w3, newer, older, newer, older);
    w5 := TakingOver(s, w4, older, newer, SMOOTH);
    w6 := Drifting(s, w5, older, older, older, newer);
    AtHas(s, w6, older, newer, older);
    OtherIsWritable(s, w6, newer, older);
    SameIsPermitted(older);
    w7 := Writing(s, w6, older, older, SMOOTH);
    WritesTagIs(s, w6, SMOOTH, older, w7);
  }

  /** The lost reply from an untouched cluster, with tags that are older and newer. */
  lemma LostReplyRun() returns (w1: World, w2: World, w3: World, w4: World, w5: World, w6: World)
    ensures Untouched(FRESH) && Follows(FRESH, Regular(CreatePatch(SCENE.c, OLD, SCENE.policy)), w1)
    ensures WritesTag(SCENE, w1, SMOOTH, OLD, w2) && Follows(w2, Regular(EditSpec(SCENE.c, NEW, SCENE.policy)), w3)
    ensures WritesTag(SCENE, w3, REPLY_LOST, NEW, w4) && Follows(w4, Regular(EditSpec(SCENE.c, OLD, SCENE.policy)), w5)
    ensures WritesTag(SCENE, w5, SMOOTH, OLD, w6) && !TakesOver(w5, SCENE.c, SCENE.o) && !AtLeast(OLD, NEW)
  {
    hide *;
    FreshIsUntouched();
    SceneShows();
    SceneOffers();
    OldAndNew();
    w1 := Creating(OLD);
    w2, w3, w4, w5, w6 := LostReply(SCENE, w1, OLD, NEW);
  }

  /** The take-over from an untouched cluster, with the same tags. */
  lemma TakeOverRun() returns (w1: World, w2: World, w3: World, w4: World, w5: World, w6: World, w7: World)
    ensures Untouched(FRESH) && Follows(FRESH, Regular(CreatePatch(SCENE.c, NEW, SCENE.policy)), w1)
    ensures WritesTag(SCENE, w1, SMOOTH, NEW, w2) && Follows(w2, Drift(ChartOf(SCENE.c), EditedTo(SCENE, OLD)), w3)
    ensures Follows(w3, Regular(EditSpec(SCENE.c, OLD, SCENE.policy)), w4) && TakesOver(w4, SCENE.c, SCENE.o)
    ensures Follows(w4, Regular(ControllerPass(SCENE.c, SCENE.o, SMOOTH)), w5)
    ensures Follows(w5, Drift(ChartOf(SCENE.c), EditedTo(SCENE, NEW)), w6)
    ensures WritesTag(SCENE, w6, SMOOTH, OLD, w7) && !AtLeast(OLD, NEW)
  {
    hide *;
    FreshIsUntouched();
    SceneShows();
    SceneOffers();
    OldAndNew();
    OneOnChart();
    w1 := Creating(NEW);
    w2, w3, w4, w5, w6, w7 := TakeOver(SCENE, w1, OLD, NEW);
  }

  lemma OneOnChart()
    ensures forall d | ChartOf(d) == ChartOf(SCENE.c) :: d == SCENE.c
  {
  }

  /* ---- A release seen with the chart of another ---- */

  lemma BundledIsDecided(w: World, c: ComponentId, ip: ImagePatch, o: Observed)
    requires ip.marker == None && o.images.Some? && Owned(w, c)
    ensures var d := Decide(w, c, ip, ip.tag, ManagedIn(w, c), o);
            d.Undo? && !d.mark && d.after.status.appliedTag == "" && d.end.Done?
  {
    hide ConfigOf;
    hide ManagedOn;
    hide OthersStale;
    hide GeneratedValues;
    hide RepositoryFor;
    hide AllRun;
  }

  lemma UndoneIsAfter(w: World, c: ComponentId, d: Decision)
    requires c in w.patches && d.Undo? && !d.mark && ValuesOf(ConfigOf(w, c)).Map? && Owned(w, c)
    ensures var s := CarryOutUndo(w, c, d, SMOOTH); s.ip == d.after && s.end == d.end
  {
    hide ChartOf;
    hide RevertedConfig;
  }

  // Past the gates and without an outdated marker, the stage is the decision carried out
  lemma StageIsDecision(w: World, c: ComponentId, ip: ImagePatch, baseline: string, version: string, o: Observed,
                        v: Verdicts)
    requires c in w.patches && Gates(w, c, o) == Open(baseline, version) && o.configReadable && ip.marker == None
    ensures ReconcilePatch(w, c, ip, o, v) ==
            CarryOut(w, c, Decide(w, c, ip.(status := ip.status.(baselineTag := baseline)), baseline, version, o),
                     version, v)
  {
    hide Gates;
    hide Decide;
    hide CarryOut;
    hide UpdatePatch;
  }

  lemma CarriesOutUndo(w: World, c: ComponentId, d: Decision, version: string, v: Verdicts)
    requires c in w.patches && d.Undo?
    ensures CarryOut(w, c, d, version, v) == CarryOutUndo(w, c, d, v)
  {
    hide CarryOutUndo;
  }

  // A pass that finds the tag of the spec bundled reverts it and clears the recorded tag
  lemma BundledIsCleared(w: World, c: ComponentId, o: Observed)
    requires c in w.patches && !w.patches[c].deleting && w.patches[c].finalizer && w.patches[c].marker == None
    requires Gates(w, c, o) == Open(w.patches[c].tag, ManagedIn(w, c)) && o.configReadable && o.images.Some?
    requires Owned(w, c) && ValuesOf(ConfigOf(w, c)).Map?
    ensures c in Pass(w, c, o, SMOOTH).patches && Pass(w, c, o, SMOOTH).patches[c].status.appliedTag == ""
  {
    hide *;
    var ip := w.patches[c];
    var based := ip.(status := ip.status.(baselineTag := ip.tag));
    var decision := Decide(w, c, based, ip.tag, ManagedIn(w, c), o);
    VerdictsAre();
    UnracedIsVersioned(w, SMOOTH.apply);
    StageKeepsStatus(w, c, o, SMOOTH);
    PassIsStage(w, c, o, SMOOTH);
    StageIsDecision(w, c, ip, ip.tag, ManagedIn(w, c), o, SMOOTH);
    BundledIsDecided(w, c, based, o);
    CarriesOutUndo(w, c, decision, ManagedIn(w, c), SMOOTH);
    UndoneIsAfter(w, c, decision);
  }

  // What is left after a revert of the only patch there was
  lemma RevertedIsEmpty(s: Scene, w: World, w1: World, w2: World, o: Observed, e: Effect, o': Observed, tag: string)
    requires TreeOf(w, s.c) == EMPTY && PassStep(w, w1, s.c, o, e) && e == Patches(s.repository, tag, s.version)
    requires PassStep(w1, w2, s.c, o', Reverts) && !Blank(s.repository) && !Blank(tag)
    ensures ValuesOf(ConfigOf(w2, s.c)) == EMPTY
  {
    hide *;
    StepHasConfig(w, w1, s.c, o, e);
    StepHasConfig(w1, w2, s.c, o', Reverts);
    TreeFollows(w, w1, s.c, e, s.c);
    TreeFollows(w1, w2, s.c, Reverts, s.c);
    TreeAfterOwn(w, s.c, e);
    TreeAfterOwn(w1, s.c, Reverts);
    EmptyIsRestored(s.c, s.repository, tag);
    RevertedIsMap(w1, w2, s.c);
    PresentInTree(w2, s.c, EMPTY);
  }

  lemma EmptyIsRestored(c: ComponentId, repository: string, tag: string)
    requires !Blank(repository) && !Blank(tag)
    ensures Subtract(Merge(EMPTY, GeneratedValues(c, repository, tag)), Shape(c)) == EMPTY
  {
    Patcher.PatchThenRevertRestores(c, EMPTY, repository, tag);
    hide Blank;
    hide GeneratedValues;
    hide Shape;
    hide Merge;
    hide Subtract;
  }

  lemma RevertedIsMap(w: World, w': World, c: ComponentId)
    requires ConfigStep(w, w', c, Reverts)
    ensures ValuesOf(ConfigOf(w', c)).Map?
  {
    hide ChartOf;
  }

  lemma EmptyIsWritable(s: Scene, w: World, tag: string)
    requires !Owned(w, s.c) && ValuesOf(ConfigOf(w, s.c)) == EMPTY
    ensures Writable(s, w, tag)
  {
    hide ConfigOf;
    hide Owned;
    hide GeneratedValues;
  }

  // Two scenes that differ in the release alone
  predicate OtherRelease(s: Scene, s': Scene) {
    s' == s.(o := s'.o, version := s'.version) && s'.version != s.version
  }

  // The scene's release, with the chart of a release that bundles the tag
  predicate Skewed(s: Scene, o: Observed, tag: string) {
    o == s.o.(chart := o.chart) && o.chart.Some? && Patcher.BundledOf(s.c, o.chart.value) == Patcher.BundledTag(tag)
  }

  lemma SkewedGates(s: Scene, o: Observed, w: World, tag: string)
    requires Shows(s) && Skewed(s, o, tag) && w.cli == map[]
    ensures Gates(w, s.c, o) == Open(tag, s.version) && o.version == Some(s.version) && o.configReadable &&
            o.images.Some?
  {
    hide Patcher.BundledOf;
    hide RepositoryFor;
  }

  lemma BundledMustRevert(w: World, c: ComponentId, version: string, o: Observed)
    requires c in w.patches && Owned(w, c) && ManagedIn(w, c) == version && ValuesOf(ConfigOf(w, c)).Map? &&
             o.images.Some?
    ensures MustRevert(w, c, w.patches[c], w.patches[c].tag, version, o)
  {
    hide ManagedIn;
    hide ConfigOf;
    hide Policy.ValidateAgainstBaseline;
    hide Patcher.Present;
  }

  lemma VersionIsOwned(w: World, c: ComponentId)
    requires ManagedIn(w, c) != ""
    ensures Owned(w, c)
  {
    hide ManagedIn;
  }

  // The pass sees the release of the patch with a bundled tag that has reached it
  lemma SkewedReverts(s: Scene, w: World, o: Observed, tag: string) returns (w': World)
    requires Shows(s) && Skewed(s, o, tag) && At(s, w, tag, tag, tag)
    ensures Follows(w, Regular(ControllerPass(s.c, o, SMOOTH)), w') && PassStep(w, w', s.c, o, Reverts)
    ensures VersionsBelow(w') && Live(s, w', tag, "") && Alone(s, w') && !Owned(w', s.c)
  {
    hide *;
    w' := Pass(w, s.c, o, SMOOTH);
    var e := PassEffect(w, s.c, o, SMOOTH);
    VerdictsAre();
    AtHas(s, w, tag, tag, tag);
    LiveHas(s, w, tag, tag);
    HoldsHas(s, w, tag);
    ShowsHas(s);
    SkewedGates(s, o, w, tag);
    VersionIsOwned(w, s.c);
    BundledMustRevert(w, s.c, s.version, o);
    EffectsFollowGates(w, s.c, o, SMOOTH);
    PassIsMove(w, s.c, o, SMOOTH);
    BelowIsVersioned(w, SMOOTH.apply);
    PassIsAStep(w, s.c, o, SMOOTH);
    EnabledIsFair(w, s.c, o, SMOOTH, e);
    OnlyReverts(e);
    BundledIsCleared(w, s.c, o);
    CliStays(w, w', s.c, o, e);
    SpecStays(w, w', s.c, o, e);
    PassSteps(w, s.c, o, SMOOTH);
    StepsAreBelow(w, w');
    RevertIsUnmarked(w, w', s.c, o, s.version);
    IsLive(s, w, w', tag, tag, "");
    forall d ensures ManagedIn(w', d) == if d == s.c then "" else ManagedIn(w, d) {
      OthersOwnedAlike(w, w', s.c, o, e, d);
    }
    OthersStayAlone(s, w, w');
  }

  lemma OnlyReverts(e: Effect)
    requires e.Reverts?
    ensures e == Reverts
  {
  }

  lemma RevertIsUnmarked(w: World, w': World, c: ComponentId, o: Observed, version: string)
    requires PassStep(w, w', c, o, Reverts) && c in w.patches && c in w'.patches && !w.patches[c].deleting
    requires w.patches[c].marker == None && ManagedIn(w, c) == version && Gates(w, c, o).Open? &&
             Gates(w, c, o).version == version
    ensures w'.patches[c].marker == None
  {
    hide ConfigStep;
    hide Gates;
    hide ManagedIn;
    hide Policy.ValidateAgainstBaseline;
  }

  lemma OthersStayAlone(s: Scene, w: World, w': World)
    requires Alone(s, w) && forall d :: ManagedIn(w', d) == if d == s.c then "" else ManagedIn(w, d)
    ensures Alone(s, w') && !Owned(w', s.c)
  {
    hide ManagedIn;
    forall d | d != s.c ensures !Owned(w', d) { assert !Owned(w, d); }
  }

  /** A release seen with the chart of another: a patch is written; a pass that sees its release together
      with a chart that bundles the patch's tag reverts it without marking the spec; and the next pass
      that sees another release writes the same spec generation there. */
  lemma SkewedRead(s: Scene, s': Scene, o: Observed, w1: World, tag: string) returns (w2: World, w3: World, w4: World)
    requires Shows(s) && Offers(s, tag) && OtherRelease(s, s') && Shows(s') && Offers(s', tag) && Skewed(s, o, tag)
    requires VersionsBelow(w1) && Live(s, w1, tag, "") && Alone(s, w1) && Writable(s, w1, tag) &&
             TreeOf(w1, s.c) == EMPTY
    requires Permits("", tag) && !Blank(s.repository) && !Blank(tag)
    ensures WritesTag(s, w1, SMOOTH, tag, w2)
    ensures Follows(w2, Regular(ControllerPass(s.c, o, SMOOTH)), w3) && PassStep(w2, w3, s.c, o, Reverts)
    ensures WritesTag(s', w3, SMOOTH, tag, w4)
    ensures s.c in w1.patches && s.c in w2.patches && s.c in w3.patches && s.c in w4.patches
    ensures w4.patches[s.c].generation == w3.patches[s.c].generation == w2.patches[s.c].generation ==
            w1.patches[s.c].generation
  {
    hide *;
    VerdictsAre();
    ShowsHas(s);
    ScenesAlike(s, s');
    LiveHas(s, w1, tag, "");
    w2 := Writing(s, w1, tag, "", SMOOTH);
    WritesTagIs(s, w1, SMOOTH, tag, w2);
    AtHas(s, w2, tag, tag, tag);
    w3 := SkewedReverts(s, w2, o, tag);
    UnracedIsVersioned(w1, SMOOTH.apply);
    UnracedIsVersioned(w3, SMOOTH.apply);
    WriteIsStep(s, w1, SMOOTH, w2);
    RevertedIsEmpty(s, w1, w2, w3, s.o, PassEffect(w1, s.c, s.o, SMOOTH), o, tag);
    LiveHas(s, w3, tag, "");
    EmptyIsWritable(s', w3, tag);
    SceneIsNoMatter(s, s', w3, tag);
    w4 := Writing(s', w3, tag, "", SMOOTH);
    WritesTagIs(s', w3, SMOOTH, tag, w4);
    WriteIsStep(s', w3, SMOOTH, w4);
    AtHas(s', w4, tag, tag, tag);
    SpecStays(w1, w2, s.c, s.o, PassEffect(w1, s.c, s.o, SMOOTH));
    SpecStays(w2, w3, s.c, o, Reverts);
    SpecStays(w3, w4, s.c, s'.o, PassEffect(w3, s.c, s'.o, SMOOTH));
  }

  lemma ScenesAlike(s: Scene, s': Scene)
    requires OtherRelease(s, s')
    ensures s'.c == s.c && s'.repository == s.repository
  {
  }

  lemma SceneIsNoMatter(s: Scene, s': Scene, w: World, tag: string)
    requires OtherRelease(s, s') && Live(s, w, tag, "") && Alone(s, w)
    ensures Live(s', w, tag, "") && Alone(s', w)
  {
    hide Owned;
  }

  lemma WriteIsStep(s: Scene, w: World, v: Verdicts, w': World)
    requires Follows(w, Regular(ControllerPass(s.c, s.o, v)), w') && Versioned(w, v.apply)
    ensures PassStep(w, w', s.c, s.o, PassEffect(w, s.c, s.o, v))
  {
    PassIsAStep(w, s.c, s.o, v);
    hide PassStep;
    hide PassEffect;
    hide Pass;
    hide Versioned;
    hide UnrelatedEdit;
  }

  const NEXT_VERSION := "v1.31.0+rke2r1"

  // The same views of the next release, and the old release seen with a chart that bundles OLD
  const NEXT := SCENE.(o := SEEN.(version := Some(NEXT_VERSION)), version := NEXT_VERSION)
  const SKEWED := SEEN.(chart := Some(ChartWith(OLD)))

  lemma NextIsOther()
    requires Shows(SCENE)
    ensures OtherRelease(SCENE, NEXT) && Shows(NEXT) && Offers(SCENE, OLD) == Offers(NEXT, OLD)
  {
    assert VERSION[4] != NEXT_VERSION[4];
    hide ChartWith;
    hide Repository;
    hide RepositoryFor;
    hide Patcher.BundledOf;
    hide Policy.ValidateTarget;
  }

  lemma SkewedIs()
    requires Patcher.BundledOf(C, ChartWith(OLD)) == Patcher.BundledTag(OLD)
    ensures Skewed(SCENE, SKEWED, OLD)
  {
    hide ChartWith;
    hide Repository;
    hide RepositoryFor;
    hide Patcher.BundledOf;
  }

  lemma CreatedIsEmpty(tag: string, w: World)
    requires Follows(FRESH, Regular(CreatePatch(SCENE.c, tag, SCENE.policy)), w)
    ensures TreeOf(w, SCENE.c) == EMPTY
  {
  }

  lemma SceneRepository()
    ensures !Blank(SCENE.repository)
  {
    hide Blank;
    hide WithoutRegistry;
    Patcher.NoRegistry(Repository(C), 7);
    RepositoriesAreNotBlank(C);
  }

  /** A spec generation written on two releases, from an untouched cluster. */
  lemma SkewedReadRun() returns (w1: World, w2: World, w3: World, w4: World)
    ensures Untouched(FRESH) && Follows(FRESH, Regular(CreatePatch(SCENE.c, OLD, SCENE.policy)), w1)
    ensures WritesTag(SCENE, w1, SMOOTH, OLD, w2)
    ensures Follows(w2, Regular(ControllerPass(SCENE.c, SKEWED, SMOOTH)), w3) &&
            PassStep(w2, w3, SCENE.c, SKEWED, Reverts)
    ensures WritesTag(NEXT, w3, SMOOTH, OLD, w4) && NEXT.version != SCENE.version
    ensures SCENE.c in w2.patches && SCENE.c in w4.patches
    ensures w4.patches[SCENE.c].generation == w2.patches[SCENE.c].generation
  {
    hide *;
    FreshIsUntouched();
    PrintedTags();
    TagOf(OLD, 5, 0, 20260301);
    IsTag(OLD, 5, 0, 20260301);
    ChartBundles(OLD);
    SkewedIs();
    SceneShows();
    SceneOffers();
    OldAndNew();
    NextIsOther();
    OtherVersion(SCENE, NEXT);
    SceneRepository();
    w1 := Creating(OLD);
    CreatedIsEmpty(OLD, w1);
    w2, w3, w4 := SkewedRead(SCENE, NEXT, SKEWED, w1, OLD);
  }

  lemma OtherVersion(s: Scene, s': Scene)
    requires OtherRelease(s, s')
    ensures s'.version != s.version
  {
  }
}
