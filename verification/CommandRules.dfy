/** The rules of image-patch: when the command writes values of its own, which tag they are for, and what
    it leaves then; in terms of what it was told and what it found. */
module CommandRules {
  import opened Text
  import opened Values
  import opened Components
  import opened Calendar
  import opened Tags
  import opened Cluster
  import opened CommandLine
  import Invariants
  import Patcher
  import Policy

  /* ---- The rules ---- */

  // A requested tag is taken as it is, on the running one's release line; without one it is the closest
  // newer published tag, on no newer line
  ghost predicate Choosable(ordered: seq<string>, current: string, requested: string, tag: string) {
    current in ordered && tag in ordered && NewerName(tag, current) &&
    var x, y := ParseTag(current).value, ParseTag(tag).value;
    if requested != "" then tag == requested && y.major == x.major && y.minor == x.minor
    else
      (y.major < x.major || (y.major == x.major && y.minor <= x.minor)) &&
      forall n | n in ordered && NewerName(n, current) :: n == tag || NewerName(n, tag)
  }

  // Built at most 45 days after the zero-day, unless the component is exempt
  predicate InWindow(c: ComponentId, tag: string, zeroDay: Date) {
    c == IngressNginx ||
    (ParseTag(tag).Some? && DateOf(ParseTag(tag).value.build).Some? &&
     DayNumber(DateOf(ParseTag(tag).value.build).value) <= DayNumber(zeroDay) + 45)
  }

  /** Everything the command requires before it writes. */
  ghost predicate MayChoose(w: World, c: ComponentId, p: PatchPlan, tag: string) {
    && w.patches == map[]
    && Choosable(p.ordered, p.image.tag, p.requested, tag)
    && InWindow(c, tag, p.zeroDay)
    && !p.dryRun
    && (ChartOf(c) in w.configs ==> p.approved)
    && (forall k | k in w.cli :: Trim(w.cli[k].clusterVersion) == p.version)
  }

  // The component's values for the tag are merged, and everything else of the cluster stays; the decision
  // is recorded if the write was answered and the state could be stored
  predicate Wrote(w: World, w': World, c: ComponentId, p: PatchPlan, tag: string) {
    var chart, key := ChartOf(c), EntryKey(p.version, c);
    var generated := GeneratedValues(c, WithoutRegistry(p.image.name), tag);
    && w'.release == w.release && w'.patches == w.patches
    && chart in w'.configs && w'.configs == w.configs[chart := w'.configs[chart]]
    && w'.configs[chart].values == Merge(TreeOf(w, c), generated)
    && (chart in w.configs ==>
        w'.configs[chart].annotations == w.configs[chart].annotations &&
        w'.configs[chart].extra == w.configs[chart].extra)
    && Patcher.AppliedTag(c, TreeOf(w', c)) == Some(tag)
    && Patcher.Present(TreeOf(w', c), generated)
    && if p.apply.Acked? && p.stored then
         key in w'.cli && w'.cli == w.cli[key := w'.cli[key]] && w'.cli[key].patchedToTag == tag &&
         w'.cli[key].baselineTag ==
           (if key in w.cli && !Blank(w.cli[key].baselineTag) then w.cli[key].baselineTag else p.image.tag) &&
         (w'.cli == w.cli || (w'.cli[key].clusterVersion == p.version && w'.cli[key].values == generated))
       else w'.cli == w.cli
  }

  /* ---- The choice ---- */

  lemma RequestedIsChosen(ordered: seq<string>, current: string, requested: string, tag: string)
    requires Descending(ordered) && requested != ""
    ensures Policy.Resolve(ordered, current, requested) == Policy.Chosen(tag) <==>
            Choosable(ordered, current, requested, tag)
  {
    hide ParseTag;
    hide CompareTags;
    hide Descending;
    hide Policy.Resolve;
    hide Policy.ValidateTarget;
    hide Policy.ValidateAgainstBaseline;
    if current in ordered {
      Policy.CliAndControllerAgree(ordered, current, requested);
      Policy.TargetIsListed(current, requested, ordered);
      if requested in ordered {
        ListedAreTags(ordered, current);
        ListedAreTags(ordered, requested);
        Policy.BaselineRuleMeans(current, requested);
      }
    } else {
      UnlistedIsRefused(ordered, current, requested);
    }
  }

  lemma ListedAreTags(ordered: seq<string>, tag: string)
    requires Descending(ordered) && tag in ordered
    ensures ParseTag(tag).Some? && !Blank(tag) && Trim(tag) == tag
  {
    var i :| 0 <= i < |ordered| && ordered[i] == tag;
    assert TagName(ordered[i]);
    hide ParseName;
    hide NewerName;
    hide Trim;
  }

  lemma UnlistedIsRefused(ordered: seq<string>, current: string, requested: string)
    requires current !in ordered
    ensures Policy.Resolve(ordered, current, requested).Refused?
  {
    hide Policy.CheckLine;
  }

  // The closest newer tag stands right before the running one
  lemma ClosestIsBefore(ordered: seq<string>, current: string, tag: string)
    requires Descending(ordered) && current in ordered && tag in ordered && NewerName(tag, current)
    requires forall n | n in ordered && NewerName(n, current) :: n == tag || NewerName(n, tag)
    ensures Policy.Position(ordered, current) > 0
    ensures tag == ordered[Policy.Position(ordered, current) - 1]
  {
    hide *;
    var c, t := Policy.Position(ordered, current), Policy.Position(ordered, tag);
    Policy.PositionsFollowOrder(ordered, t, c);
    Policy.PositionsFollowOrder(ordered, c - 1, c);
    Policy.PositionsFollowOrder(ordered, c - 1, t);
    assert ordered[c - 1] in ordered;
  }

  lemma DefaultIsChosen(ordered: seq<string>, current: string, tag: string)
    requires Descending(ordered)
    ensures Policy.Resolve(ordered, current, "") == Policy.Chosen(tag) <==> Choosable(ordered, current, "", tag)
  {
    hide ParseTag;
    hide NewerName;
    hide Descending;
    hide Policy.Resolve;
    hide Policy.Position;
    if Policy.Resolve(ordered, current, "") == Policy.Chosen(tag) {
      Policy.ChosenIsBefore(ordered, current, tag);
      Policy.DefaultIsOnNoNewerLine(ordered, current);
      Policy.DefaultIsImmediateSuccessor(ordered, current, tag, tag);
      forall n | n in ordered && NewerName(n, current) ensures n == tag || NewerName(n, tag) {
        Policy.DefaultIsImmediateSuccessor(ordered, current, tag, n);
      }
    }
    if Choosable(ordered, current, "", tag) {
      ClosestIsBefore(ordered, current, tag);
      Policy.DefaultIsOnNoNewerLine(ordered, current);
    }
  }

  lemma ChosenExactly(p: PatchPlan, tag: string)
    requires Descending(p.ordered)
    ensures Policy.Resolve(p.ordered, p.image.tag, p.requested) == Policy.Chosen(tag) <==>
            Choosable(p.ordered, p.image.tag, p.requested, tag)
  {
    hide *;
    if p.requested != "" {
      RequestedIsChosen(p.ordered, p.image.tag, p.requested, tag);
    } else {
      DefaultIsChosen(p.ordered, p.image.tag, tag);
    }
  }

  lemma WindowExactly(c: ComponentId, tag: string, zeroDay: Date)
    requires Valid(zeroDay)
    ensures Policy.ValidatePatchWindow(c, tag, zeroDay).None? <==> InWindow(c, tag, zeroDay)
  {
    hide ParseTag;
    hide DateOf;
    hide DayNumber;
    hide Policy.ValidatePatchWindow;
    Policy.WindowIsFortyFiveDays(c, tag, zeroDay);
  }

  /* ---- What the command leaves ---- */

  lemma RecordsDecision(cli: map<EntryKey, Entry>, key: EntryKey, version: string, current: string, tag: string,
                        generated: Tree)
    ensures var next := Recorded(cli, key, Entry(version, BaselineFor(cli, key, current), tag, generated));
            key in next && next == cli[key := next[key]] && next[key].patchedToTag == tag &&
            next[key].baselineTag ==
              (if key in cli && !Blank(cli[key].baselineTag) then cli[key].baselineTag else current) &&
            (next == cli || (next[key].clusterVersion == version && next[key].values == generated))
  {
    hide Blank;
  }

  lemma MergeWrites(w: World, c: ComponentId, p: PatchPlan, tag: string)
    requires !Blank(tag) && Trim(tag) == tag && Lands(p.apply)
    ensures Wrote(w, MergeAndRecord(w, c, p.image, tag, p.version, p.apply, p.stored), c, p, tag)
  {
    hide ChartOf;
    hide GeneratedValues;
    hide WithoutRegistry;
    hide Merge;
    hide Trim;
    hide Recorded;
    hide BaselineFor;
    hide Patcher.AppliedTag;
    hide Patcher.Present;
    var repository := WithoutRegistry(p.image.name);
    var generated := GeneratedValues(c, repository, tag);
    var w' := MergeAndRecord(w, c, p.image, tag, p.version, p.apply, p.stored);
    Invariants.MergedTree(w, w', c, repository, tag, c);
    Patcher.AppliedTagReadsBack(c, TreeOf(w, c), repository, tag);
    Patcher.MergedIsPresent(TreeOf(w, c), generated);
    RecordsDecision(w.cli, EntryKey(p.version, c), p.version, p.image.tag, tag, generated);
  }

  // Past the choice
  lemma ChoiceExactly(w: World, c: ComponentId, p: PatchPlan, tag: string)
    requires Descending(p.ordered) && Valid(p.zeroDay)
    ensures MayChoose(w, c, p, tag) <==>
            w.patches == map[] && Policy.Resolve(p.ordered, p.image.tag, p.requested) == Policy.Chosen(tag) &&
            Policy.ValidatePatchWindow(c, tag, p.zeroDay).None? && !Declined(w, c, p) &&
            !HoldsOtherVersion(w.cli, p.version)
  {
    hide Policy.Resolve;
    hide Policy.ValidatePatchWindow;
    hide Choosable;
    hide InWindow;
    hide ChartOf;
    hide Trim;
    ChosenExactly(p, tag);
    WindowExactly(c, tag, p.zeroDay);
  }

  lemma ListedIfChosen(w: World, c: ComponentId, p: PatchPlan, tag: string)
    requires Descending(p.ordered) && MayChoose(w, c, p, tag)
    ensures !Blank(tag) && Trim(tag) == tag
  {
    hide Descending;
    hide InWindow;
    hide Trim;
    hide NewerName;
    hide ParseTag;
    ListedAreTags(p.ordered, tag);
  }

  lemma CommandIs(w: World, c: ComponentId, p: PatchPlan, tag: string)
    requires Descending(p.ordered) && Valid(p.zeroDay)
    ensures MayChoose(w, c, p, tag) ==>
              ImagePatchCommand(w, c, p) == MergeAndRecord(w, c, p.image, tag, p.version, p.apply, p.stored)
    ensures (forall t :: !MayChoose(w, c, p, t)) ==> ImagePatchCommand(w, c, p) == w
  {
    hide MergeAndRecord;
    hide Policy.Resolve;
    hide Policy.ValidatePatchWindow;
    hide Declined;
    hide HoldsOtherVersion;
    hide MayChoose;
    ChoiceExactly(w, c, p, tag);
    var choice := Policy.Resolve(p.ordered, p.image.tag, p.requested);
    if choice.Chosen? { ChoiceExactly(w, c, p, choice.tag); }
  }

  lemma MergeRefused(w: World, c: ComponentId, p: PatchPlan, tag: string)
    requires VersionsBelow(w) && !Lands(p.apply)
    ensures MergeAndRecord(w, c, p.image, tag, p.version, p.apply, p.stored) ==
            if p.apply.Raced? then Put(w, ChartOf(c), p.apply.edit) else w
  {
    var generated := GeneratedValues(c, WithoutRegistry(p.image.name), tag);
    if p.apply.Raced? {
      StaleWriteIsRefused(w, ChartOf(c), MergedConfig(ConfigOf(w, c), generated), p.apply);
    }
    hide VersionsBelow;
    hide Apply;
    hide Answer;
    hide ChartOf;
    hide GeneratedValues;
    hide WithoutRegistry;
    hide MergedConfig;
    hide Recorded;
    hide BaselineFor;
    hide Put;
  }

  /** image-patch changes the cluster only when every rule is met, for one tag: then the values of that very
      tag are merged and read back, and a recorded decision names it; or, if another client's write came
      first, nothing of its own is written. */
  lemma WritesOnlyByTheRules(w: World, c: ComponentId, p: PatchPlan)
    requires VersionsBelow(w) && Descending(p.ordered) && Valid(p.zeroDay)
    ensures var w' := ImagePatchCommand(w, c, p);
            w' != w ==>
              exists tag :: MayChoose(w, c, p, tag) &&
                if p.apply.Raced? then w' == Put(w, ChartOf(c), p.apply.edit) else Wrote(w, w', c, p, tag)
  {
    hide ImagePatchCommand;
    hide MayChoose;
    hide Wrote;
    hide Put;
    hide ChartOf;
    hide Descending;
    hide Valid;
    hide VersionsBelow;
    if ImagePatchCommand(w, c, p) != w {
      CommandIs(w, c, p, "");
      var tag :| MayChoose(w, c, p, tag);
      CommandIs(w, c, p, tag);
      WritesByTheRules(w, c, p, tag);
    }
  }

  /** And when every rule is met it does write, unless its write fails or is refused. */
  lemma WritesByTheRules(w: World, c: ComponentId, p: PatchPlan, tag: string)
    requires VersionsBelow(w) && Descending(p.ordered) && Valid(p.zeroDay) && MayChoose(w, c, p, tag)
    ensures var w' := ImagePatchCommand(w, c, p);
            if Lands(p.apply) then Wrote(w, w', c, p, tag)
            else w' == if p.apply.Raced? then Put(w, ChartOf(c), p.apply.edit) else w
  {
    hide *;
    CommandIs(w, c, p, tag);
    ListedIfChosen(w, c, p, tag);
    if Lands(p.apply) {
      MergeWrites(w, c, p, tag);
    } else {
      MergeRefused(w, c, p, tag);
    }
  }
}
