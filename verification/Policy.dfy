/** The rules that decide which tags a component may be patched to, for the controller
    (`Validate...`) and for the command line (`ResolveTarget`), and why they agree. */
module Policy {
  import opened Text
  import opened Components
  import opened Tags
  import opened Calendar

  datatype Reason = TagNotFound | UnparsableTag | NotNewer | MinorVersionChange | OutsidePatchWindow

  const PATCH_WINDOW_DAYS: nat := 45

  /* ---- The patch window ---- */

  predicate IsPatchWindowExempt(c: ComponentId) {
    c == IngressNginx
  }

  function BuildDate(tag: string): Option<Date> {
    match ParseTag(tag)
    case None => None
    case Some(t) => DateOf(t.build)
  }

  // None when the tag is accepted
  function ValidatePatchWindow(c: ComponentId, tag: string, zeroDay: Date): Option<Reason> {
    if IsPatchWindowExempt(c) then None
    else
      match BuildDate(tag)
      case None => Some(UnparsableTag)
      case Some(date) => if After(date, AddDays(zeroDay, PATCH_WINDOW_DAYS)) then Some(OutsidePatchWindow) else None
  }

  /** A tag passes the window exactly when it is dated at most 45 days after the zero-day, counted
      in calendar days; only the exempt component may do without a date. */
  lemma WindowIsFortyFiveDays(c: ComponentId, tag: string, zeroDay: Date)
    requires Valid(zeroDay)
    ensures ValidatePatchWindow(c, tag, zeroDay).None? <==>
            c == IngressNginx ||
            (BuildDate(tag).Some? && DayNumber(BuildDate(tag).value) <= DayNumber(zeroDay) + 45)
  {
    AddDaysCounts(zeroDay, PATCH_WINDOW_DAYS);
    if BuildDate(tag).Some? {
      AfterIsLargerDayNumber(BuildDate(tag).value, AddDays(zeroDay, PATCH_WINDOW_DAYS));
    }
  }

  /** Among dated tags the window is closed downwards: what is not newer than an accepted tag is
      accepted. */
  lemma WindowIsDownwardClosed(c: ComponentId, older: string, newer: string, zeroDay: Date)
    requires Valid(zeroDay)
    requires BuildDate(older).Some? && BuildDate(newer).Some?
    requires CompareTags(ParseTag(older).value, ParseTag(newer).value) <= 0
    requires ValidatePatchWindow(c, newer, zeroDay).None?
    ensures ValidatePatchWindow(c, older, zeroDay).None?
  {
    NotNewerWasBuiltEarlier(ParseTag(older).value, ParseTag(newer).value);
    hide CompareTags;
    hide ParseTag;
    hide ValidatePatchWindow;
    BuildOrderIsDateOrder(ParseTag(older).value.build, ParseTag(newer).value.build);
    WindowIsFortyFiveDays(c, older, zeroDay);
    WindowIsFortyFiveDays(c, newer, zeroDay);
    BuildDatesAreValid(older);
    BuildDatesAreValid(newer);
    hide DateOf;
    hide Valid;
    AfterIsLargerDayNumber(BuildDate(older).value, BuildDate(newer).value);
    hide DayNumber;
    hide After;
  }

  lemma NotNewerWasBuiltEarlier(a: Tag, b: Tag)
    requires CompareTags(a, b) <= 0
    ensures a.build <= b.build
  {
  }

  lemma BuildDatesAreValid(tag: string)
    ensures BuildDate(tag).Some? ==> Valid(BuildDate(tag).value)
  {
    hide ParseTag;
  }

  /* ---- Targets ---- */

  function ValidateAgainstBaseline(baseline: string, target: string): Option<Reason> {
    match (ParseTag(baseline), ParseTag(target))
    case (Some(b), Some(t)) =>
      if CompareTags(t, b) <= 0 then Some(NotNewer)
      else if t.major != b.major || t.minor != b.minor then Some(MinorVersionChange)
      else None
    case _ => Some(UnparsableTag)
  }

  function ValidateTarget(baseline: string, target: string, available: seq<string>): Option<Reason> {
    if target !in available then Some(TagNotFound) else ValidateAgainstBaseline(baseline, target)
  }

  method ValidateExplicitTarget(baseline: string, target: string, available: seq<string>) returns (r: Option<Reason>)
    ensures r == ValidateTarget(baseline, target, available)
  {
    var found := false;
    for i := 0 to |available|
      invariant found == (target in available[..i])
    {
      if available[i] == target {
        found := true;
        break;
      }
      assert available[..i + 1] == available[..i] + [available[i]];
    }
    if !found {
      return Some(TagNotFound);
    }
    return ValidateAgainstBaseline(baseline, target);
  }

  function ValidateNotOlderThanCurrent(current: string, target: string): Option<Reason> {
    match (ParseTag(current), ParseTag(target))
    case (Some(c), Some(t)) => if CompareTags(t, c) < 0 then Some(NotNewer) else None
    case _ => None
  }

  /* ---- The command line's choice ---- */

  datatype Refusal =
    | NoTags | CurrentNotListed | AlreadyLatest | TargetNotListed | AlreadyRunning | OlderThanCurrent
    | CurrentNotComparable | TargetNotComparable | NewerMinor | OtherLine

  datatype Choice = Chosen(tag: string) | Refused(why: Refusal)

  predicate SameLine(a: Tag, b: Tag) {
    a.major == b.major && a.minor == b.minor
  }

  // The first position of a name; the length when absent
  function Position(ordered: seq<string>, name: string): (i: nat)
    ensures i <= |ordered| && (i < |ordered| ==> ordered[i] == name)
    ensures i < |ordered| <==> name in ordered
  {
    if ordered == [] || ordered[0] == name then 0
    else
      assert ordered == [ordered[0]] + ordered[1..];
      1 + Position(ordered[1..], name)
  }

  lemma {:induction false} PositionIsFirst(ordered: seq<string>, name: string, i: nat)
    requires i < |ordered| && ordered[i] == name && name !in ordered[..i]
    ensures Position(ordered, name) == i
  {
    if i == 0 {
    } else {
      assert ordered[0] in ordered[..i];
      assert ordered[1..][..i - 1] == ordered[..i][1..];
      PositionIsFirst(ordered[1..], name, i - 1);
    }
  }

  function CheckLine(current: string, target: string, explicit: bool): Choice {
    match (ParseTag(current), ParseTag(target))
    case (None, _) => Refused(CurrentNotComparable)
    case (_, None) => Refused(TargetNotComparable)
    case (Some(c), Some(t)) =>
      if IsNewerMinorRelease(c, t) then Refused(NewerMinor)
      else if explicit && !SameLine(c, t) then Refused(OtherLine)
      else Chosen(target)
  }

  function Resolve(ordered: seq<string>, current: string, requested: string): Choice {
    var c := Position(ordered, current);
    if ordered == [] then Refused(NoTags)
    else if c == |ordered| then Refused(CurrentNotListed)
    else if requested == "" then
      if c == 0 then Refused(AlreadyLatest) else CheckLine(current, ordered[c - 1], false)
    else
      var t := Position(ordered, requested);
      if t == |ordered| then Refused(TargetNotListed)
      else if t == c then Refused(AlreadyRunning)
      else if t > c then Refused(OlderThanCurrent)
      else CheckLine(current, ordered[t], true)
  }

  // The index searches of resolvePatchTargetTagForTarget
  method ResolveOrdered(tags: seq<string>, current: string, requested: string) returns (choice: Choice)
    ensures choice == Resolve(tags, current, requested)
  {
    hide ParseTag;
    hide IsNewerMinorRelease;
    hide Position;
    if |tags| == 0 {
      return Refused(NoTags);
    }

    var currentIndex := -1;
    for i := 0 to |tags|
      invariant -1 <= currentIndex < |tags|
      invariant if currentIndex == -1 then current !in tags[..i] else currentIndex == Position(tags, current)
    {
      assert tags[..i + 1] == tags[..i] + [tags[i]];
      if tags[i] == current && currentIndex == -1 {
        PositionIsFirst(tags, current, i);
        currentIndex := i;
      }
    }
    assert tags[..|tags|] == tags;
    if currentIndex == -1 {
      return Refused(CurrentNotListed);
    }

    var targetIndex := -1;
    if requested == "" {
      targetIndex := currentIndex - 1;
      if targetIndex < 0 {
        return Refused(AlreadyLatest);
      }
    } else {
      for i := 0 to |tags|
        invariant targetIndex == -1 && requested !in tags[..i]
      {
        if tags[i] == requested {
          PositionIsFirst(tags, requested, i);
          targetIndex := i;
          break;
        }
        assert tags[..i + 1] == tags[..i] + [tags[i]];
      }
      if targetIndex < 0 {
        return Refused(TargetNotListed);
      }
      if targetIndex == currentIndex {
        return Refused(AlreadyRunning);
      }
      if targetIndex > currentIndex {
        return Refused(OlderThanCurrent);
      }
    }

    var targetTag := tags[targetIndex];
    var c := ParseTag(current);
    if c.None? {
      return Refused(CurrentNotComparable);
    }
    var t := ParseTag(targetTag);
    if t.None? {
      return Refused(TargetNotComparable);
    }
    if IsNewerMinorRelease(c.value, t.value) {
      return Refused(NewerMinor);
    }
    if requested != "" && (t.value.major != c.value.major || t.value.minor != c.value.minor) {
      return Refused(OtherLine);
    }
    return Chosen(targetTag);
  }

  /** resolvePatchTargetTagForTarget: the choice is the one made on the ordered list of the published
      names, of which there is only one. */
  method ResolveTarget(names: seq<string>, current: string, requested: string) returns (choice: Choice)
    ensures forall ordered | Descending(ordered) && NamesOf(ordered, names) ::
              choice == Resolve(ordered, current, requested)
  {
    hide Descending;
    hide NamesOf;
    hide Resolve;
    var tags := OrderTags(names);
    choice := ResolveOrdered(tags, current, requested);
    forall ordered | Descending(ordered) && NamesOf(ordered, names)
      ensures choice == Resolve(ordered, current, requested)
    {
      OrderIsFixedByNames(names, names, tags, ordered);
    }
  }

  // Earlier in the list means newer
  lemma PositionsFollowOrder(ordered: seq<string>, i: nat, j: nat)
    requires Descending(ordered) && i < |ordered| && j < |ordered|
    ensures ParseTag(ordered[i]).Some?
    ensures i < j <==> NewerName(ordered[i], ordered[j])
    ensures i == j <==> ordered[i] == ordered[j]
  {
    hide ParseTag;
    hide CompareTags;
    assert TagName(ordered[i]) && TagName(ordered[j]);
    assert i < j ==> NewerName(ordered[i], ordered[j]);
    assert j < i ==> NewerName(ordered[j], ordered[i]);
    ComparisonFlips(ParseTag(ordered[i]).value, ParseTag(ordered[j]).value);
  }

  /** On the published tags, the command line's index test accepts an explicit tag exactly when the
      controller's rule does, with the current tag as the baseline. */
  lemma CliAndControllerAgree(ordered: seq<string>, current: string, requested: string)
    requires Descending(ordered) && current in ordered && requested != ""
    ensures Resolve(ordered, current, requested) == Chosen(requested) <==>
            ValidateTarget(current, requested, ordered).None?
    ensures Resolve(ordered, current, requested).Chosen? ==> Resolve(ordered, current, requested).tag == requested
  {
    hide *;
    ExplicitResolution(ordered, current, requested);
    TargetIsListed(current, requested, ordered);
    var c, t := Position(ordered, current), Position(ordered, requested);
    if t < |ordered| {
      PositionsFollowOrder(ordered, t, c);
      PositionsFollowOrder(ordered, c, t);
      LineRulesAgree(current, requested);
      BaselineRuleMeans(current, requested);
    }
  }

  lemma ExplicitResolution(ordered: seq<string>, current: string, requested: string)
    requires current in ordered && requested != ""
    ensures var c, t := Position(ordered, current), Position(ordered, requested);
            (t < c ==> Resolve(ordered, current, requested) == CheckLine(current, requested, true)) &&
            (t >= c ==> Resolve(ordered, current, requested).Refused?)
  {
    hide CheckLine;
  }

  lemma TargetIsListed(baseline: string, target: string, available: seq<string>)
    ensures ValidateTarget(baseline, target, available).None? <==>
            target in available && ValidateAgainstBaseline(baseline, target).None?
  {
    hide ValidateAgainstBaseline;
  }

  // The index decides "newer"; what is left are the two ways of comparing release lines
  lemma LineRulesAgree(current: string, requested: string)
    requires ParseTag(current).Some? && ParseTag(requested).Some?
    ensures var line := SameLine(ParseTag(current).value, ParseTag(requested).value);
            if line then CheckLine(current, requested, true) == Chosen(requested)
            else CheckLine(current, requested, true).Refused?
  {
    hide ParseTag;
  }

  lemma BaselineRuleMeans(current: string, requested: string)
    requires ParseTag(current).Some? && ParseTag(requested).Some?
    ensures ValidateAgainstBaseline(current, requested).None? <==>
            NewerName(requested, current) && SameLine(ParseTag(current).value, ParseTag(requested).value)
  {
    hide ParseTag;
    hide CompareTags;
  }

  /** The default choice is the closest newer published tag: anything newer than the current tag is
      that tag or newer still. */
  lemma DefaultIsImmediateSuccessor(ordered: seq<string>, current: string, target: string, n: string)
    requires Descending(ordered) && Resolve(ordered, current, "") == Chosen(target)
    ensures target in ordered && NewerName(target, current)
    ensures n in ordered && NewerName(n, current) ==> n == target || NewerName(n, target)
  {
    hide *;
    ChosenIsBefore(ordered, current, target);
    var c := Position(ordered, current);
    PositionsFollowOrder(ordered, c - 1, c);
    if n in ordered {
      var i := Position(ordered, n);
      PositionsFollowOrder(ordered, i, c);
      PositionsFollowOrder(ordered, i, c - 1);
    }
  }

  // The second tag is on the first one's release line or an older one
  predicate NoNewerLine(c: Tag, t: Tag) {
    t.major < c.major || (t.major == c.major && t.minor <= c.minor)
  }

  lemma NewerLineMeans(c: Tag, t: Tag)
    ensures IsNewerMinorRelease(c, t) <==> !NoNewerLine(c, t)
  {
  }

  /** Without an explicit tag, `image-patch` takes the next newer tag in the list if it is on the current
      line or an older one, and no tag at all if it is on a newer line. */
  lemma DefaultIsOnNoNewerLine(ordered: seq<string>, current: string)
    requires Descending(ordered) && 0 < Position(ordered, current) < |ordered|
    ensures var next := ordered[Position(ordered, current) - 1];
            ParseTag(current).Some? && ParseTag(next).Some? &&
            var c, t := ParseTag(current).value, ParseTag(next).value;
            if t.major < c.major || (t.major == c.major && t.minor <= c.minor) then
              Resolve(ordered, current, "") == Chosen(next)
            else
              Resolve(ordered, current, "") == Refused(NewerMinor)
  {
    var at := Position(ordered, current);
    var next := ordered[at - 1];
    PositionsFollowOrder(ordered, at - 1, at);
    PositionsFollowOrder(ordered, at, at);
    NewerLineMeans(ParseTag(current).value, ParseTag(next).value);
    assert Resolve(ordered, current, "") == CheckLine(current, next, false);
    hide ParseTag;
    hide IsNewerMinorRelease;
    hide Resolve;
    hide Descending;
    hide Position;
  }

  /** Where the two modes part: the controller's rule refuses every other line. So the two agree on the
      next newer tag exactly when it is not on an older line. */
  lemma DefaultAgreesOnTheLine(ordered: seq<string>, current: string)
    requires Descending(ordered) && 0 < Position(ordered, current) < |ordered|
    ensures var next := ordered[Position(ordered, current) - 1];
            ParseTag(current).Some? && ParseTag(next).Some? &&
            var c, t := ParseTag(current).value, ParseTag(next).value;
            (ValidateTarget(current, next, ordered).None? <==> t.major == c.major && t.minor == c.minor) &&
            ((Resolve(ordered, current, "") == Chosen(next) <==> ValidateTarget(current, next, ordered).None?) <==>
             !(t.major < c.major || (t.major == c.major && t.minor < c.minor)))
  {
    var at := Position(ordered, current);
    var next := ordered[at - 1];
    DefaultIsOnNoNewerLine(ordered, current);
    PositionsFollowOrder(ordered, at - 1, at);
    NewerPasses(current, next);
    TargetIsListed(current, next, ordered);
    hide ParseTag;
    hide ValidateAgainstBaseline;
    hide ValidateTarget;
    hide NewerName;
    hide Resolve;
    hide Descending;
    hide Position;
  }

  lemma NewerPasses(current: string, target: string)
    requires NewerName(target, current)
    ensures ParseTag(current).Some? && ParseTag(target).Some?
    ensures ValidateAgainstBaseline(current, target).None? <==>
            SameLine(ParseTag(current).value, ParseTag(target).value)
  {
    hide ParseTag;
    hide CompareTags;
  }

  // Patching repeatedly with the default choice
  ghost predicate Climb(ordered: seq<string>, run: seq<string>) {
    forall i | 0 <= i < |run| - 1 :: Resolve(ordered, run[i], "") == Chosen(run[i + 1])
  }

  /** Repeated patching climbs strictly, one published tag at a time, so it ends. */
  lemma {:induction false} ClimbEnds(ordered: seq<string>, run: seq<string>)
    requires Descending(ordered) && run != [] && run[0] in ordered && Climb(ordered, run)
    ensures |run| <= Position(ordered, run[0]) + 1
    ensures forall i, j | 0 <= i < j < |run| :: NewerName(run[j], run[i])
    ensures forall i | 0 <= i < |run| :: run[i] in ordered && Position(ordered, run[i]) == Position(ordered, run[0]) - i
  {
    hide Descending;
    hide Climb;
    hide ParseTag;
    hide CompareTags;
    hide Position;
    hide NewerName;
    forall i | 0 <= i < |run|
      ensures i <= Position(ordered, run[0])
      ensures run[i] in ordered && Position(ordered, run[i]) == Position(ordered, run[0]) - i
    {
      ClimbStep(ordered, run, i);
    }
    forall i, j | 0 <= i < j < |run| ensures NewerName(run[j], run[i]) {
      PositionsFollowOrder(ordered, Position(ordered, run[j]), Position(ordered, run[i]));
    }
    ClimbStep(ordered, run, |run| - 1);
  }

  lemma ChosenIsBefore(ordered: seq<string>, current: string, target: string)
    requires Resolve(ordered, current, "") == Chosen(target)
    ensures var c := Position(ordered, current); 0 < c < |ordered| && target == ordered[c - 1]
  {
    hide ParseTag;
    hide IsNewerMinorRelease;
  }

  lemma {:induction false} ClimbStep(ordered: seq<string>, run: seq<string>, i: nat)
    requires Descending(ordered) && i < |run| && run[0] in ordered && Climb(ordered, run)
    ensures i <= Position(ordered, run[0])
    ensures run[i] in ordered && Position(ordered, run[i]) == Position(ordered, run[0]) - i
    decreases i
  {
    hide *;
    if i == 0 {
    } else {
      ClimbStep(ordered, run, i - 1);
      ClimbAt(ordered, run, i - 1);
      ChosenIsBefore(ordered, run[i - 1], run[i]);
      PositionsFollowOrder(ordered, Position(ordered, run[i]), Position(ordered, run[i - 1]) - 1);
    }
  }

  lemma ClimbAt(ordered: seq<string>, run: seq<string>, i: nat)
    requires Climb(ordered, run) && i < |run| - 1
    ensures Resolve(ordered, run[i], "") == Chosen(run[i + 1])
  {
    hide Resolve;
  }

  /** Why image-patch refuses an explicit tag, in terms of the list and of the two tags. */
  lemma ExplicitRefusals(ordered: seq<string>, current: string, requested: string)
    requires Descending(ordered) && requested != ""
    ensures var r := Resolve(ordered, current, requested);
            if ordered == [] then r == Refused(NoTags)
            else if current !in ordered then r == Refused(CurrentNotListed)
            else if requested !in ordered then r == Refused(TargetNotListed)
            else if requested == current then r == Refused(AlreadyRunning)
            else if NewerName(current, requested) then r == Refused(OlderThanCurrent)
            else
              ParseTag(current).Some? && ParseTag(requested).Some? &&
              var c, t := ParseTag(current).value, ParseTag(requested).value;
              if t.major > c.major || (t.major == c.major && t.minor > c.minor) then r == Refused(NewerMinor)
              else if t.major != c.major || t.minor != c.minor then r == Refused(OtherLine)
              else r == Chosen(requested)
  {
    hide ParseTag;
    hide CompareTags;
    hide Descending;
    hide Position;
    hide NewerName;
    if current in ordered && requested in ordered {
      var c, t := Position(ordered, current), Position(ordered, requested);
      PositionsFollowOrder(ordered, t, c);
      PositionsFollowOrder(ordered, c, t);
    }
  }

  /** Why image-patch finds no tag by itself; the remaining case is DefaultIsOnNoNewerLine. */
  lemma DefaultRefusals(ordered: seq<string>, current: string)
    ensures var r := Resolve(ordered, current, "");
            if ordered == [] then r == Refused(NoTags)
            else if current !in ordered then r == Refused(CurrentNotListed)
            else (ordered[0] == current ==> r == Refused(AlreadyLatest)) &&
                 (ordered[0] != current ==> 0 < Position(ordered, current) < |ordered|)
  {
    hide CheckLine;
  }

  /** The reasons of the controller's rules: against the bundled tag, and against the tag applied before. */
  lemma BaselineReasons(baseline: string, target: string)
    ensures var r := ValidateAgainstBaseline(baseline, target);
            if ParseTag(baseline).None? || ParseTag(target).None? then r == Some(UnparsableTag)
            else
              var b, t := ParseTag(baseline).value, ParseTag(target).value;
              if t == b || Newer(b, t) then r == Some(NotNewer)
              else if t.major != b.major || t.minor != b.minor then r == Some(MinorVersionChange)
              else r == None
    ensures ValidateNotOlderThanCurrent(baseline, target) ==
            if NewerName(baseline, target) then Some(NotNewer) else None
  {
    hide ParseTag;
    hide CompareTags;
    if ParseTag(baseline).Some? && ParseTag(target).Some? {
      ComparisonFlips(ParseTag(baseline).value, ParseTag(target).value);
    }
  }

  /** The reasons of the window: no date, or a date more than 45 days after the zero-day. */
  lemma WindowReasons(c: ComponentId, tag: string, zeroDay: Date)
    requires Valid(zeroDay) && c != IngressNginx
    ensures ValidatePatchWindow(c, tag, zeroDay) ==
            if BuildDate(tag).None? then Some(UnparsableTag)
            else if DayNumber(BuildDate(tag).value) > DayNumber(zeroDay) + 45 then Some(OutsidePatchWindow)
            else None
  {
    hide DayNumber;
    hide Valid;
    hide ParseTag;
    hide DateOf;
    hide After;
    WindowIsFortyFiveDays(c, tag, zeroDay);
    hide AddDays;
  }

  /* ---- The listing of image-list ---- */

  // selectTagsForCVEListing, from the ordered tags
  method SelectTagsForListing(orderedTags: seq<string>, currentTag: string)
    returns (selected: seq<string>, previousTag: string)
    ensures currentTag !in orderedTags ==> selected == [] && previousTag == ""
    ensures currentTag in orderedTags ==>
              var c := Position(orderedTags, currentTag);
              var last := if c + 1 < |orderedTags| then c + 2 else c + 1;
              previousTag == (if c + 1 < |orderedTags| then orderedTags[c + 1] else "") &&
              selected == if previousTag == "" then orderedTags[..c + 1] else orderedTags[..last]
  {
    if |orderedTags| == 0 {
      return [], "";
    }
    var currentIndex := -1;
    for i := 0 to |orderedTags|
      invariant currentIndex == -1 && currentTag !in orderedTags[..i]
    {
      if orderedTags[i] == currentTag {
        PositionIsFirst(orderedTags, currentTag, i);
        currentIndex := i;
        break;
      }
      assert orderedTags[..i + 1] == orderedTags[..i] + [orderedTags[i]];
    }
    assert orderedTags[..|orderedTags|] == orderedTags;
    if currentIndex == -1 {
      return [], "";
    }
    previousTag := "";
    if currentIndex + 1 < |orderedTags| {
      previousTag := orderedTags[currentIndex + 1];
    }
    selected := [];
    for i := 0 to currentIndex
      invariant selected == orderedTags[..i]
    {
      selected := selected + [orderedTags[i]];
    }
    selected := selected + [currentTag];
    if previousTag != "" {
      selected := selected + [previousTag];
    }
  }

  predicate Eligible(c: ComponentId, tag: string, current: string, previous: string, zeroDay: Date) {
    tag == current || tag == previous || ValidatePatchWindow(c, tag, zeroDay).None?
  }

  function Those(tags: seq<string>, p: string -> bool): seq<string> {
    if tags == [] then []
    else Those(tags[..|tags| - 1], p) + (if p(tags[|tags| - 1]) then [tags[|tags| - 1]] else [])
  }

  // splitTagsByPatchWindow: both parts keep the order of the list
  method SplitTagsByPatchWindow(c: ComponentId, tags: seq<string>, current: string, previous: string, zeroDay: Date)
    returns (eligible: seq<string>, blocked: seq<string>)
    ensures eligible == Those(tags, t => Eligible(c, t, current, previous, zeroDay))
    ensures blocked == Those(tags, t => !Eligible(c, t, current, previous, zeroDay))
  {
    hide ValidatePatchWindow;
    ghost var p := t => Eligible(c, t, current, previous, zeroDay);
    ghost var q := t => !Eligible(c, t, current, previous, zeroDay);
    eligible, blocked := [], [];
    if IsPatchWindowExempt(c) {
      AllEligible(c, tags, current, previous, zeroDay);
      return tags, [];
    }
    for i := 0 to |tags|
      invariant eligible == Those(tags[..i], p) && blocked == Those(tags[..i], q)
    {
      var tag := tags[i];
      assert tags[..i + 1][..i] == tags[..i];
      if tag == current || tag == previous {
        eligible := eligible + [tag];
        continue;
      }
      if ValidatePatchWindow(c, tag, zeroDay).Some? {
        blocked := blocked + [tag];
        continue;
      }
      eligible := eligible + [tag];
    }
    assert tags[..|tags|] == tags;
  }

  lemma {:induction false} AllEligible(c: ComponentId, tags: seq<string>, current: string, previous: string,
                                       zeroDay: Date)
    requires IsPatchWindowExempt(c)
    ensures Those(tags, t => Eligible(c, t, current, previous, zeroDay)) == tags
    ensures Those(tags, t => !Eligible(c, t, current, previous, zeroDay)) == []
  {
    if tags == [] {
    } else {
      AllEligible(c, tags[..|tags| - 1], current, previous, zeroDay);
      assert tags == tags[..|tags| - 1] + [tags[|tags| - 1]];
    }
  }

  lemma {:induction false} ThoseMembers(tags: seq<string>, p: string -> bool)
    ensures forall t :: t in Those(tags, p) <==> t in tags && p(t)
  {
    if tags == [] {
    } else {
      ThoseMembers(tags[..|tags| - 1], p);
      assert tags == tags[..|tags| - 1] + [tags[|tags| - 1]];
    }
  }

  /** Both parts keep the order of the list: of two lists one behind the other, the second one's tags
      come behind the first one's. */
  lemma {:induction false} ThoseSplit(a: seq<string>, b: seq<string>, p: string -> bool)
    ensures Those(a + b, p) == Those(a, p) + Those(b, p)
    decreases |b|
  {
    if b == [] {
      assert a + b == a;
    } else {
      assert (a + b)[..|a + b| - 1] == a + b[..|b| - 1];
      ThoseSplit(a, b[..|b| - 1], p);
    }
  }

  /** image-list shows a newer tag as eligible exactly when image-patch's window check accepts it,
      and every listed tag is in exactly one of the two lists. */
  lemma ListingMatchesPatching(c: ComponentId, tags: seq<string>, current: string, previous: string, zeroDay: Date,
                               tag: string)
    requires tag in tags
    ensures var eligible := Those(tags, t => Eligible(c, t, current, previous, zeroDay));
            var blocked := Those(tags, t => !Eligible(c, t, current, previous, zeroDay));
            (tag in eligible <==> tag !in blocked) &&
            (tag != current && tag != previous ==> (tag in eligible <==> ValidatePatchWindow(c, tag, zeroDay).None?))
  {
    hide ValidatePatchWindow;
    ThoseMembers(tags, t => Eligible(c, t, current, previous, zeroDay));
    ThoseMembers(tags, t => !Eligible(c, t, current, previous, zeroDay));
  }
}
