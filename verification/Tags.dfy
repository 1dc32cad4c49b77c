/** Release tags: parsing, the order among them, and the ordered list of published tags. */
module Tags {
  import opened Text
  import opened Sorting

  datatype Tag = Tag(
    name: string, major: int, minor: int, patch: int, build: int,
    flavor: string, flavorBase: string, flavorNumber: int)

  const BUILD_MARKER := "-build"

  function Split(s: string, c: char): seq<string>
    decreases |s|
  {
    var i := Find(s, c);
    if i == |s| then [s] else [s[..i]] + Split(s[i + 1..], c)
  }

  predicate EndsFold(s: string, suffix: string) {
    |suffix| <= |s| && forall i | 0 <= i < |suffix| :: Lower(s[|s| - |suffix| + i]) == suffix[i]
  }

  predicate StartsFold(s: string, prefix: string) {
    |prefix| <= |s| && forall i | 0 <= i < |prefix| :: Lower(s[i]) == prefix[i]
  }

  /* ---- Flavors ---- */

  // The start of the trailing digits
  function DigitsFrom(s: string): (i: nat)
    ensures i <= |s|
  {
    if s == [] || !IsDigit(s[|s| - 1]) then |s| else DigitsFrom(s[..|s| - 1])
  }

  lemma {:induction false} DigitsFromMeans(s: string)
    ensures var i := DigitsFrom(s); AllDigits(s[i..]) && (i > 0 ==> !IsDigit(s[i - 1]))
    decreases |s|
  {
    if s == [] {
    } else if IsDigit(s[|s| - 1]) {
      hide IsDigit;
      hide AllDigits;
      var front, last := s[..|s| - 1], s[|s| - 1];
      DigitsFromMeans(front);
      var i := DigitsFrom(front);
      OneMoreDigit(front[i..], last);
      assert s[i..] == front[i..] + [last];
    } else {
      assert s[|s|..] == [];
    }
  }

  lemma OneMoreDigit(s: string, d: char)
    requires AllDigits(s) && IsDigit(d)
    ensures AllDigits(s + [d])
  {
  }

  function FlavorParts(flavor: string): (string, int) {
    var trimmed := Trim(flavor);
    var at := DigitsFrom(trimmed);
    if at == |trimmed| then (trimmed, 0)
    else
      match Atoi(trimmed[at..])
      case Some(n) => (trimmed[..at], n)
      case None => (trimmed, 0)
  }

  method SplitFlavor(flavor: string) returns (base: string, number: int)
    ensures (base, number) == FlavorParts(flavor)
  {
    hide Trim;
    hide Atoi;
    var trimmed := Trim(flavor);
    if trimmed == "" {
      return "", 0;
    }
    var splitIndex := |trimmed|;
    while splitIndex > 0
      invariant 0 <= splitIndex <= |trimmed| && AllDigits(trimmed[splitIndex..])
    {
      if !IsDigit(trimmed[splitIndex - 1]) {
        break;
      }
      splitIndex := splitIndex - 1;
    }
    DigitsFromIsUnique(trimmed, splitIndex);
    if splitIndex == |trimmed| {
      return trimmed, 0;
    }
    var parsed := Atoi(trimmed[splitIndex..]);
    if parsed.None? {
      return trimmed, 0;
    }
    return trimmed[..splitIndex], parsed.value;
  }

  lemma DigitsFromIsUnique(s: string, i: nat)
    requires i <= |s| && AllDigits(s[i..]) && (i > 0 ==> !IsDigit(s[i - 1]))
    ensures i == DigitsFrom(s)
  {
    var j := DigitsFrom(s);
    DigitsFromMeans(s);
    hide DigitsFrom;
    assert forall k | i <= k < |s| :: s[k] == s[i..][k - i];
    assert forall k | j <= k < |s| :: s[k] == s[j..][k - j];
  }

  /* ---- Parsing ---- */

  // The part before the build marker and the build number
  function BuildParts(name: string): Option<(string, int)>
    requires name != []
  {
    var at := LastIndex(name, BUILD_MARKER);
    if at <= 1 then Some((name[1..], 0))
    else if at + |BUILD_MARKER| >= |name| then None
    else
      match Atoi(name[at + |BUILD_MARKER|..])
      case Some(n) => Some((name[1..at], n))
      case None => None
  }

  function Version(core: string): Option<(int, int, int)> {
    var parts := Split(core, '.');
    if |parts| != 3 then None
    else
      match (Atoi(parts[0]), Atoi(parts[1]), Atoi(parts[2]))
      case (Some(major), Some(minor), Some(patch)) => Some((major, minor, patch))
      case _ => None
  }

  // Signatures, attestations and names of another form are not release tags
  predicate Excluded(name: string) {
    name == "" || StartsFold(name, "sha256-") || EndsFold(name, ".sig") || EndsFold(name, ".att") || name[0] != 'v'
  }

  function ParseTag(tagName: string): Option<Tag> {
    var name := Trim(tagName);
    if Excluded(name) then None else ParseName(name)
  }

  function ParseName(name: string): (r: Option<Tag>)
    requires name != ""
    ensures r.Some? ==> r.value.name == name
  {
    match BuildParts(name)
    case None => None
    case Some((rest, build)) =>
      var dash := Find(rest, '-');
      var flavor := if dash < |rest| then rest[dash + 1..] else "";
      match Version(rest[..dash])
      case None => None
      case Some((major, minor, patch)) =>
        var (base, number) := FlavorParts(flavor);
        Some(Tag(name, major, minor, patch, build, flavor, base, number))
  }

  lemma ParseKeepsName(tagName: string)
    ensures ParseTag(Trim(tagName)) == ParseTag(tagName)
    ensures ParseTag(tagName).Some? ==> ParseTag(tagName).value.name == Trim(tagName)
  {
    TrimIsTrimmed(tagName);
    hide ParseName;
    hide Excluded;
    hide Trim;
  }

  /* ---- Printing a tag and parsing it back ---- */

  function VersionText(major: nat, minor: nat, patch: nat): string {
    Decimal(major) + "." + Decimal(minor) + "." + Decimal(patch)
  }

  function FlavorText(flavor: string): string {
    if flavor == "" then "" else "-" + flavor
  }

  function Print(major: nat, minor: nat, patch: nat, flavor: string, build: nat): string {
    "v" + (VersionText(major, minor, patch) + FlavorText(flavor)) + BUILD_MARKER + Decimal(build)
  }

  lemma {:induction false} FindAfter(s: string, c: char, t: string)
    requires c !in s
    ensures Find(s + [c] + t, c) == |s|
    ensures Find(s, c) == |s|
    decreases |s|
  {
    var u := s + [c] + t;
    if s == [] {
    } else {
      assert u[1..] == s[1..] + [c] + t;
      FindAfter(s[1..], c, t);
    }
  }

  lemma SplitOnce(s: string, c: char, t: string)
    requires c !in s
    ensures Split(s + [c] + t, c) == [s] + Split(t, c)
    ensures Split(s, c) == [s]
  {
    FindAfter(s, c, t);
    var u := s + [c] + t;
    assert u[..|s|] == s && u[|s| + 1..] == t;
  }

  lemma MarkerIsLast(front: string, digits: string)
    requires AllDigits(digits)
    ensures LastIndex(front + BUILD_MARKER + digits, BUILD_MARKER) == |front|
  {
    LastIndexMeans(front + BUILD_MARKER + digits, BUILD_MARKER);
    hide LastIndex;
    var s := front + BUILD_MARKER + digits;
    assert s[|front|..|front| + 6] == BUILD_MARKER;
    assert OccursAt(s, BUILD_MARKER, |front|);
    forall at: nat | |front| < at ensures !OccursAt(s, BUILD_MARKER, at) {
      if at + 6 <= |s| {
        assert s[at..at + 6][5] == s[at + 5] == digits[at + 5 - |front| - 6];
        assert BUILD_MARKER[5] == 'd';
      }
    }
  }

  lemma VersionOfPrinted(major: nat, minor: nat, patch: nat)
    requires major <= MAX_INT && minor <= MAX_INT && patch <= MAX_INT
    ensures Version(VersionText(major, minor, patch)) == Some((major, minor, patch))
    ensures VersionText(major, minor, patch) != "" && '-' !in VersionText(major, minor, patch)
  {
    NumberText(major);
    NumberText(minor);
    NumberText(patch);
    hide Decimal;
    hide Atoi;
    ThreeParts(Decimal(major), Decimal(minor), Decimal(patch));
    NoDash(Decimal(major), Decimal(minor), Decimal(patch));
    hide Split;
  }

  lemma NoDash(a: string, b: string, c: string)
    requires a != "" && '-' !in a && '-' !in b && '-' !in c
    ensures a + "." + b + "." + c != "" && '-' !in a + "." + b + "." + c
  {
  }

  lemma ThreeParts(a: string, b: string, c: string)
    requires '.' !in a && '.' !in b && '.' !in c
    ensures Split(a + "." + b + "." + c, '.') == [a, b, c]
  {
    hide *;
    SplitOnce(a, '.', b + ['.'] + c);
    SplitOnce(b, '.', c);
    SplitOnce(c, '.', "");
    assert a + "." + b + "." + c == a + ['.'] + (b + ['.'] + c);
  }

  // A name that starts with a v and ends in a digit is not excluded
  lemma NotExcluded(name: string)
    requires |name| > 1 && name[0] == 'v' && IsDigit(name[|name| - 1])
    ensures Trim(name) == name && !Excluded(name)
  {
    TrimIsTrimmed(name);
    hide Trim;
    var last := name[|name| - 1];
    assert Lower(name[0]) == 'v' && "sha256-"[0] == 's';
    assert Lower(last) == last && ".sig"[3] == 'g' && ".att"[3] == 't';
    assert |name| >= 4 ==> last == name[|name| - 4 + 3];
  }

  lemma BuildPartsOfPrinted(rest: string, build: nat)
    requires build <= MAX_INT && rest != ""
    ensures BuildParts("v" + rest + BUILD_MARKER + Decimal(build)) == Some((rest, build))
  {
    hide *;
    NumberText(build);
    DecimalDigits(build);
    MarkerIsLast("v" + rest, Decimal(build));
    Slices("v", rest, BUILD_MARKER, Decimal(build));
    BuildPartsAt("v" + rest + BUILD_MARKER + Decimal(build), 1 + |rest|, build);
  }

  lemma BuildPartsAt(name: string, at: nat, build: int)
    requires name != "" && LastIndex(name, BUILD_MARKER) == at > 1
    requires at + |BUILD_MARKER| < |name| && Atoi(name[at + |BUILD_MARKER|..]) == Some(build)
    ensures BuildParts(name) == Some((name[1..at], build))
  {
    hide LastIndex;
    hide Atoi;
  }

  lemma Slices(a: string, b: string, c: string, d: string)
    ensures var s := a + b + c + d;
            |s| == |a| + |b| + |c| + |d| && s[|a|..|a| + |b|] == b && s[|a| + |b| + |c|..] == d &&
            (a != "" ==> s != "")
  {
  }

  lemma FlavorOfPrinted(version: string, flavor: string)
    requires '-' !in version
    ensures var rest := version + FlavorText(flavor);
            var dash := Find(rest, '-');
            rest[..dash] == version && (if dash < |rest| then rest[dash + 1..] else "") == flavor
  {
    if flavor == "" {
      FindAfter(version, '-', "");
      assert version + "" == version;
    } else {
      FindAfter(version, '-', flavor);
      hide Find;
      assert version + ("-" + flavor) == version + ['-'] + flavor;
    }
  }

  lemma ParseInParts(name: string, version: string, flavor: string, numbers: (int, int, int), build: int)
    requires name != "" && Trim(name) == name && !Excluded(name)
    requires BuildParts(name) == Some((version + FlavorText(flavor), build))
    requires '-' !in version && Version(version) == Some(numbers)
    ensures ParseTag(name) == Some(Tag(name, numbers.0, numbers.1, numbers.2, build,
                                       flavor, FlavorParts(flavor).0, FlavorParts(flavor).1))
  {
    FlavorOfPrinted(version, flavor);
    hide Trim;
    hide Excluded;
    hide BuildParts;
    hide Version;
    hide FlavorParts;
    hide Find;
  }

  /** Every printed release tag, whatever its flavor, parses back to its own fields. */
  lemma ParseOfPrinted(major: nat, minor: nat, patch: nat, flavor: string, build: nat)
    requires major <= MAX_INT && minor <= MAX_INT && patch <= MAX_INT && build <= MAX_INT
    ensures ParseTag(Print(major, minor, patch, flavor, build)) ==
            Some(Tag(Print(major, minor, patch, flavor, build), major, minor, patch, build,
                     flavor, FlavorParts(flavor).0, FlavorParts(flavor).1))
  {
    var name := Print(major, minor, patch, flavor, build);
    var version := VersionText(major, minor, patch);
    VersionOfPrinted(major, minor, patch);
    BuildPartsOfPrinted(version + FlavorText(flavor), build);
    LastIsDigit("v" + (version + FlavorText(flavor)) + BUILD_MARKER, build);
    hide *;
    NotExcluded(name);
    ParseInParts(name, version, flavor, (major, minor, patch), build);
  }

  lemma LastIsDigit(front: string, build: nat)
    requires front != "" && front[0] == 'v'
    ensures var s := front + Decimal(build); |s| > 1 && s[0] == 'v' && IsDigit(s[|s| - 1])
  {
    DecimalDigits(build);
    hide Decimal;
  }

  /* ---- What parses at all ---- */

  lemma SplitIsOne(s: string, c: char)
    ensures Split(s, c) != []
    ensures |Split(s, c)| == 1 ==> Split(s, c)[0] == s && c !in s
  {
    FindMeans(s, c);
  }

  lemma SplitHead(s: string, c: char)
    requires |Split(s, c)| > 1
    ensures var i := Find(s, c);
            i < |s| && s == s[..i] + [c] + s[i + 1..] && c !in s[..i] &&
            Split(s, c)[0] == s[..i] && Split(s, c)[1..] == Split(s[i + 1..], c)
  {
    FindMeans(s, c);
  }

  lemma {:induction false} ThreeOfSplit(s: string, c: char)
    requires |Split(s, c)| == 3
    ensures var p := Split(s, c); s == p[0] + [c] + p[1] + [c] + p[2] && c !in p[0] && c !in p[1] && c !in p[2]
  {
    hide Split;
    hide Find;
    var i := Find(s, c);
    SplitHead(s, c);
    var t := s[i + 1..];
    SplitHead(t, c);
    SplitIsOne(t[Find(t, c) + 1..], c);
  }

  lemma VersionHasForm(core: string) returns (a: string, b: string, c: string)
    requires Version(core).Some?
    ensures core == a + "." + b + "." + c && '.' !in a && '.' !in b && '.' !in c
    ensures Atoi(a).Some? && Atoi(b).Some? && Atoi(c).Some?
    ensures Version(core).value == (Atoi(a).value, Atoi(b).value, Atoi(c).value)
  {
    hide Split;
    hide Atoi;
    var p := Split(core, '.');
    ThreeOfSplit(core, '.');
    a, b, c := p[0], p[1], p[2];
  }

  lemma CutAt(name: string, at: nat, size: nat)
    requires 1 < at && at + size <= |name|
    ensures name == name[..1] + name[1..at] + name[at..at + size] + name[at + size..]
  {
  }

  lemma BuildPartsHaveForm(name: string) returns (build: string)
    requires name != "" && name[..1] == "v" && BuildParts(name).Some?
    ensures var (rest, number) := BuildParts(name).value;
            (name == "v" + rest && number == 0) ||
            (name == "v" + rest + BUILD_MARKER + build && Atoi(build) == Some(number))
  {
    hide LastIndex;
    hide Atoi;
    var at := LastIndex(name, BUILD_MARKER);
    if at > 1 {
      MarkerAt(name);
      CutAt(name, at, |BUILD_MARKER|);
      build := name[at + |BUILD_MARKER|..];
    } else {
      build := "";
      assert name == name[..1] + name[1..];
    }
  }

  lemma MarkerAt(name: string)
    requires LastIndex(name, BUILD_MARKER) >= 0
    ensures var at := LastIndex(name, BUILD_MARKER);
            at + |BUILD_MARKER| <= |name| && name[at..at + |BUILD_MARKER|] == BUILD_MARKER
  {
    LastIndexMeans(name, BUILD_MARKER);
    hide LastIndex;
  }

  // The version before the first dash, and the flavor after it
  lemma CoreAndFlavor(rest: string)
    ensures var dash := Find(rest, '-');
            '-' !in rest[..dash] &&
            rest == (if dash < |rest| then rest[..dash] + "-" + rest[dash + 1..] else rest[..dash])
  {
    FindMeans(rest, '-');
  }

  lemma ParsedParts(n: string)
    requires ParseTag(n).Some?
    ensures var name, t := Trim(n), ParseTag(n).value;
            !Excluded(name) && name != "" && BuildParts(name).Some? && t.name == name &&
            var (rest, build) := BuildParts(name).value;
            var dash := Find(rest, '-');
            t.build == build && Version(rest[..dash]) == Some((t.major, t.minor, t.patch)) &&
            t.flavor == (if dash < |rest| then rest[dash + 1..] else "")
  {
    hide Trim;
    hide Excluded;
    hide BuildParts;
    hide Version;
    hide FlavorParts;
    hide Find;
    NotEmptyName(Trim(n));
  }

  lemma NotEmptyName(name: string)
    ensures !Excluded(name) ==> name != "" && name[..1] == "v"
  {
  }

  /** A release tag starts with a v and is three numbers, a flavor behind a dash if there is one, and a build
      number behind its marker if there is one. */
  lemma ParsedHasForm(n: string) returns (a: string, b: string, c: string, rest: string, build: string)
    requires ParseTag(n).Some?
    ensures Atoi(a).Some? && Atoi(b).Some? && Atoi(c).Some?
    ensures var name, t := Trim(n), ParseTag(n).value;
            t.name == name && t.major == Atoi(a).value && t.minor == Atoi(b).value && t.patch == Atoi(c).value &&
            ((rest == a + "." + b + "." + c && t.flavor == "") || rest == a + "." + b + "." + c + "-" + t.flavor) &&
            ((name == "v" + rest && t.build == 0) ||
             (name == "v" + rest + BUILD_MARKER + build && Atoi(build) == Some(t.build)))
    ensures '-' !in a + "." + b + "." + c && '.' !in a && '.' !in b && '.' !in c
  {
    hide *;
    var name := Trim(n);
    ParsedParts(n);
    NotEmptyName(name);
    build := BuildPartsHaveForm(name);
    rest := BuildParts(name).value.0;
    CoreAndFlavor(rest);
    a, b, c := VersionHasForm(rest[..Find(rest, '-')]);
  }

  /** No signature and no attestation is a release tag. */
  lemma SignaturesAreNoTags(n: string)
    requires |Trim(n)| >= 4
    requires var end := ToLower(Trim(n)[|Trim(n)| - 4..]); end == ".sig" || end == ".att"
    ensures ParseTag(n).None?
  {
    hide Trim;
    hide ParseName;
    if !Excluded(Trim(n)) { NotASignature(Trim(n)); }
    hide Excluded;
  }

  lemma NotASignature(name: string)
    requires !Excluded(name) && |name| >= 4
    ensures ToLower(name[|name| - 4..]) != ".sig" && ToLower(name[|name| - 4..]) != ".att"
  {
    var end := name[|name| - 4..];
    assert forall i | 0 <= i < 4 :: ToLower(end)[i] == Lower(name[|name| - 4 + i]);
  }

  /* ---- Order ---- */

  function CompareInt(a: int, b: int): int {
    if a > b then 1 else if a < b then -1 else 0
  }

  function CompareTags(l: Tag, r: Tag): int {
    if l.build != r.build then CompareInt(l.build, r.build)
    else if l.major != r.major then CompareInt(l.major, r.major)
    else if l.minor != r.minor then CompareInt(l.minor, r.minor)
    else if l.patch != r.patch then CompareInt(l.patch, r.patch)
    else if l.flavorBase != r.flavorBase then Compare(l.flavorBase, r.flavorBase)
    else if l.flavorNumber != r.flavorNumber then CompareInt(l.flavorNumber, r.flavorNumber)
    else if l.flavor != r.flavor then Compare(l.flavor, r.flavor)
    else Compare(l.name, r.name)
  }

  predicate Newer(l: Tag, r: Tag) {
    CompareTags(l, r) > 0
  }

  lemma ComparisonFlips(l: Tag, r: Tag)
    ensures CompareTags(l, r) == -CompareTags(r, l)
    ensures CompareTags(l, r) == 0 <==> l == r
  {
    CompareFlips(l.flavorBase, r.flavorBase);
    CompareFlips(l.flavor, r.flavor);
    CompareFlips(l.name, r.name);
  }

  lemma StringsChainStrictly(a: string, b: string, c: string)
    requires Compare(a, b) > 0 && Compare(b, c) > 0
    ensures Compare(a, c) > 0
  {
    CompareFlips(a, b);
    CompareFlips(b, c);
    CompareFlips(a, c);
    CompareChains(c, b, a);
  }

  lemma NewerChains(a: Tag, b: Tag, c: Tag)
    requires Newer(a, b) && Newer(b, c)
    ensures Newer(a, c)
  {
    if Compare(a.flavorBase, b.flavorBase) > 0 && Compare(b.flavorBase, c.flavorBase) > 0 {
      StringsChainStrictly(a.flavorBase, b.flavorBase, c.flavorBase);
    }
    if Compare(a.flavor, b.flavor) > 0 && Compare(b.flavor, c.flavor) > 0 {
      StringsChainStrictly(a.flavor, b.flavor, c.flavor);
    }
    if Compare(a.name, b.name) > 0 && Compare(b.name, c.name) > 0 {
      StringsChainStrictly(a.name, b.name, c.name);
    }
  }

  // CompareTags orders all tags, without ties
  lemma NewerIsStrictOrder()
    ensures StrictOrder(Newer)
  {
    forall x ensures !Newer(x, x) { ComparisonFlips(x, x); }
    forall x, y ensures Newer(x, y) || x == y || Newer(y, x) { ComparisonFlips(x, y); }
    forall x, y, z | Newer(x, y) && Newer(y, z) ensures Newer(x, z) { NewerChains(x, y, z); }
  }

  /** The order spelled out: the build first, then the version, number by number, then the flavor, whose
      trailing number counts as a number. */
  lemma NewerByFields(l: Tag, r: Tag)
    ensures l.build > r.build ==> Newer(l, r)
    ensures l.build == r.build && l.major > r.major ==> Newer(l, r)
    ensures l.build == r.build && l.major == r.major && l.minor > r.minor ==> Newer(l, r)
    ensures l.build == r.build && l.major == r.major && l.minor == r.minor && l.patch > r.patch ==> Newer(l, r)
    ensures l.build == r.build && l.major == r.major && l.minor == r.minor && l.patch == r.patch &&
            Compare(l.flavorBase, r.flavorBase) > 0 ==>
              Newer(l, r)
    ensures l.build == r.build && l.major == r.major && l.minor == r.minor && l.patch == r.patch &&
            l.flavorBase == r.flavorBase && l.flavorNumber > r.flavorNumber ==>
              Newer(l, r)
  {
    CompareFlips(l.flavorBase, r.flavorBase);
    hide Compare;
  }

  lemma SpaceIsNoFlavor(flavor: string)
    ensures FlavorParts(flavor) == FlavorParts(Trim(flavor))
  {
    TrimIsTrimmed(flavor);
    hide Trim;
    hide Atoi;
    hide DigitsFrom;
  }

  // A flavor with a number at its end
  lemma FlavorOfNumbered(base: string, n: nat)
    requires base != "" && Trimmed(base) && !IsDigit(base[|base| - 1]) && n <= MAX_INT
    ensures FlavorParts(base + Decimal(n)) == (base, n)
  {
    var flavor := base + Decimal(n);
    DecimalDigits(n);
    NumberText(n);
    hide Decimal;
    assert flavor[0] == base[0] && flavor[|flavor| - 1] == Decimal(n)[|Decimal(n)| - 1];
    assert IsDigit(flavor[|flavor| - 1]);
    TrimIsTrimmed(flavor);
    hide Trim;
    assert flavor[|base|..] == Decimal(n) && flavor[..|base|] == base;
    DigitsFromIsUnique(flavor, |base|);
    hide DigitsFrom;
    hide Atoi;
  }

  /** Of two printed tags that differ in the number of their flavor alone, the one with the larger number
      is newer: hardened10 is newer than hardened2. */
  lemma LargerFlavorNumberIsNewer(major: nat, minor: nat, patch: nat, base: string, n: nat, m: nat, build: nat)
    requires major <= MAX_INT && minor <= MAX_INT && patch <= MAX_INT && build <= MAX_INT
    requires base != "" && Trimmed(base) && !IsDigit(base[|base| - 1]) && m < n <= MAX_INT
    ensures NewerName(Print(major, minor, patch, base + Decimal(n), build),
                      Print(major, minor, patch, base + Decimal(m), build))
  {
    hide *;
    ParseOfPrinted(major, minor, patch, base + Decimal(n), build);
    ParseOfPrinted(major, minor, patch, base + Decimal(m), build);
    FlavorOfNumbered(base, n);
    FlavorOfNumbered(base, m);
    var l := ParseTag(Print(major, minor, patch, base + Decimal(n), build)).value;
    var r := ParseTag(Print(major, minor, patch, base + Decimal(m), build)).value;
    NewerByFields(l, r);
    NewerNameIs(Print(major, minor, patch, base + Decimal(n), build),
                Print(major, minor, patch, base + Decimal(m), build));
  }

  lemma NewerNameIs(n: string, m: string)
    requires ParseTag(n).Some? && ParseTag(m).Some? && Newer(ParseTag(n).value, ParseTag(m).value)
    ensures NewerName(n, m)
  {
    hide ParseTag;
    hide CompareTags;
  }

  predicate IsNewerMinorRelease(current: Tag, target: Tag) {
    if target.major != current.major then target.major > current.major else target.minor > current.minor
  }

  /* ---- The ordered list of published tags ---- */

  // The name of a release tag, as ParseTag records it
  ghost predicate TagName(n: string) {
    ParseTag(n).Some? && Trim(n) == n
  }

  ghost predicate NewerName(n: string, m: string) {
    ParseTag(n).Some? && ParseTag(m).Some? && Newer(ParseTag(n).value, ParseTag(m).value)
  }

  // A list of tag names, newest first, without duplicates
  ghost predicate Descending(ordered: seq<string>) {
    && (forall i | 0 <= i < |ordered| :: TagName(ordered[i]))
    && (forall i, j | 0 <= i < j < |ordered| :: NewerName(ordered[i], ordered[j]))
  }

  // Exactly the names of the parsable inputs
  ghost predicate NamesOf(ordered: seq<string>, names: seq<string>) {
    forall n :: n in ordered <==> exists raw | raw in names :: ParseTag(raw).Some? && n == Trim(raw)
  }

  // The tags among a list of names, in their order
  function Parsed(names: seq<string>): seq<Tag> {
    if names == [] then []
    else
      var item := ParseTag(names[|names| - 1]);
      Parsed(names[..|names| - 1]) + (if item.Some? then [item.value] else [])
  }

  lemma {:induction false} ParsedMembers(names: seq<string>)
    ensures forall raw | raw in names && ParseTag(raw).Some? :: ParseTag(raw).value in Parsed(names)
    ensures forall t | t in Parsed(names) :: exists raw | raw in names :: ParseTag(raw) == Some(t)
  {
    hide ParseTag;
    if names == [] {
    } else {
      var front, last := names[..|names| - 1], names[|names| - 1];
      ParsedMembers(front);
      assert names == front + [last];
      forall t | t in Parsed(names) ensures exists raw | raw in names :: ParseTag(raw) == Some(t) {
        if t in Parsed(front) {
          var raw :| raw in front && ParseTag(raw) == Some(t);
          assert raw in names;
        } else {
          assert ParseTag(last) == Some(t);
        }
      }
    }
  }

  method OrderTags(names: seq<string>) returns (ordered: seq<string>)
    ensures Descending(ordered) && NamesOf(ordered, names)
  {
    hide ParseTag;
    var parsed: seq<Tag> := [];
    for i := 0 to |names|
      invariant parsed == Parsed(names[..i])
    {
      assert names[..i + 1][..i] == names[..i];
      var item := ParseTag(names[i]);
      if item.Some? {
        parsed := parsed + [item.value];
      }
    }
    assert names[..|names|] == names;
    if parsed == [] {
      ParsedMembers(names);
      return [];
    }

    var sorted := Sort(parsed, Newer);
    NewerIsStrictOrder();
    SortOrders(parsed, Newer);
    SameMembers(sorted, parsed);
    assert forall t | t in sorted :: Named(t) by { ParsedAreNamed(names); }
    ordered := DropRepeats(sorted);
    FirstNamesAreNames(sorted);
    FirstNamesDescend(sorted);
    ParsedMembers(names);
    OrderedNames(names, sorted, ordered);
  }

  // A tag is what its own name parses to
  ghost predicate Named(t: Tag) {
    ParseTag(t.name) == Some(t) && Trim(t.name) == t.name
  }

  lemma ParsedAreNamed(names: seq<string>)
    ensures forall t | t in Parsed(names) :: Named(t)
  {
    ParsedMembers(names);
    forall t | t in Parsed(names) ensures Named(t) {
      var raw :| raw in names && ParseTag(raw) == Some(t);
      ParseKeepsName(raw);
      TrimIsTrimmed(raw);
      hide ParseName;
      hide Excluded;
    }
  }

  // The names of a list of tags, each where it first appears
  function FirstNames(tags: seq<Tag>): seq<string> {
    if tags == [] then []
    else
      var before, name := FirstNames(tags[..|tags| - 1]), tags[|tags| - 1].name;
      if name in before then before else before + [name]
  }

  method DropRepeats(sorted: seq<Tag>) returns (ordered: seq<string>)
    ensures ordered == FirstNames(sorted)
  {
    var seen: set<string> := {};
    ordered := [];
    for i := 0 to |sorted|
      invariant ordered == FirstNames(sorted[..i])
      invariant forall n :: n in seen <==> n in ordered
    {
      assert sorted[..i + 1][..i] == sorted[..i];
      var tag := sorted[i];
      if tag.name !in seen {
        seen := seen + {tag.name};
        ordered := ordered + [tag.name];
      }
    }
    assert sorted[..|sorted|] == sorted;
  }

  lemma {:induction false} FirstNamesAreNames(tags: seq<Tag>)
    ensures forall n :: n in FirstNames(tags) <==> exists t | t in tags :: t.name == n
  {
    if tags == [] {
    } else {
      var front, last := tags[..|tags| - 1], tags[|tags| - 1];
      FirstNamesAreNames(front);
      assert tags == front + [last];
      assert last in tags;
    }
  }

  lemma {:induction false} FirstNamesDescend(sorted: seq<Tag>)
    requires StrictOrder(Newer) && InOrder(sorted, Newer)
    requires forall t | t in sorted :: Named(t)
    ensures Descending(FirstNames(sorted))
  {
    hide TagName;
    hide NewerName;
    hide Newer;
    if sorted == [] {
    } else {
      var front, last := sorted[..|sorted| - 1], sorted[|sorted| - 1];
      FirstNamesDescend(front);
      if last.name !in FirstNames(front) {
        forall n | n in FirstNames(front) ensures NewerName(n, last.name) { EarlierNameIsNewer(sorted, n); }
        NamedHasTagName(last);
        DescendingExtends(FirstNames(front), last.name);
      }
    }
  }

  lemma NamedHasTagName(t: Tag)
    requires Named(t)
    ensures TagName(t.name)
  {
    hide ParseTag;
  }

  lemma DescendingExtends(ordered: seq<string>, name: string)
    requires Descending(ordered) && TagName(name) && forall n | n in ordered :: NewerName(n, name)
    ensures Descending(ordered + [name])
  {
    hide TagName;
    hide NewerName;
  }

  lemma EarlierNameIsNewer(sorted: seq<Tag>, n: string)
    requires StrictOrder(Newer) && InOrder(sorted, Newer) && sorted != []
    requires forall t | t in sorted :: Named(t)
    requires n in FirstNames(sorted[..|sorted| - 1]) && n != sorted[|sorted| - 1].name
    ensures NewerName(n, sorted[|sorted| - 1].name)
  {
    hide Newer;
    hide Named;
    hide NewerName;
    var front, last := sorted[..|sorted| - 1], sorted[|sorted| - 1];
    FirstNamesAreNames(front);
    var t :| t in front && t.name == n;
    var k :| 0 <= k < |front| && front[k] == t;
    BothNamed(sorted[k], last);
    assert !Newer(sorted[|sorted| - 1], sorted[k]);
  }

  lemma BothNamed(t: Tag, u: Tag)
    requires Named(t) && Named(u)
    ensures NewerName(t.name, u.name) <==> Newer(t, u)
  {
    hide ParseTag;
    hide CompareTags;
  }

  lemma OrderedNames(names: seq<string>, sorted: seq<Tag>, ordered: seq<string>)
    requires forall t :: t in sorted <==> t in Parsed(names)
    requires forall n :: n in ordered <==> exists t | t in sorted :: t.name == n
    ensures NamesOf(ordered, names)
  {
    ParsedMembers(names);
    hide ParseTag;
    forall n | n in ordered ensures exists raw | raw in names :: ParseTag(raw).Some? && n == Trim(raw) {
      var t :| t in sorted && t.name == n;
      var raw :| raw in names && ParseTag(raw) == Some(t);
      ParseKeepsName(raw);
    }
    forall raw | raw in names && ParseTag(raw).Some? ensures Trim(raw) in ordered {
      ParseKeepsName(raw);
      assert ParseTag(raw).value in sorted;
    }
  }

  /** The ordered list is fixed by the set of published names: neither their order nor their
      multiplicity matters. */
  lemma OrderIsFixedByNames(names: seq<string>, others: seq<string>, ordered: seq<string>, reordered: seq<string>)
    requires forall n :: n in names <==> n in others
    requires Descending(ordered) && NamesOf(ordered, names)
    requires Descending(reordered) && NamesOf(reordered, others)
    ensures ordered == reordered
  {
    NewerIsStrictOrder();
    TagsOfNames(ordered);
    TagsOfNames(reordered);
    var tags, retags := TagsOf(ordered), TagsOf(reordered);
    hide ParseTag;
    forall n ensures n in ordered <==> n in reordered {
    }
    StrictListIsUnique(tags, retags, Newer);
    forall i | 0 <= i < |ordered| ensures ordered[i] == reordered[i] {
      assert ordered[i] == tags[i].name && reordered[i] == retags[i].name;
    }
  }

  ghost function TagsOf(ordered: seq<string>): (tags: seq<Tag>)
    requires Descending(ordered)
    ensures |tags| == |ordered|
  {
    seq(|ordered|, i requires 0 <= i < |ordered| => assert TagName(ordered[i]); ParseTag(ordered[i]).value)
  }

  lemma TagsOfNames(ordered: seq<string>)
    requires Descending(ordered)
    ensures Strictly(TagsOf(ordered), Newer)
    ensures forall i | 0 <= i < |ordered| :: TagsOf(ordered)[i].name == ordered[i]
    ensures forall t: Tag :: t in TagsOf(ordered) <==> t.name in ordered && ParseTag(t.name) == Some(t)
  {
    var tags := TagsOf(ordered);
    forall i | 0 <= i < |ordered| ensures tags[i].name == ordered[i] && ParseTag(ordered[i]) == Some(tags[i]) {
      assert TagName(ordered[i]);
      hide ParseTag;
    }
    forall i, j | 0 <= i < j < |tags| ensures Newer(tags[i], tags[j]) {
      assert NewerName(ordered[i], ordered[j]);
      hide ParseTag;
      hide CompareTags;
    }
    hide ParseTag;
    forall t: Tag | t.name in ordered && ParseTag(t.name) == Some(t) ensures t in tags {
      var i :| 0 <= i < |ordered| && ordered[i] == t.name;
      assert tags[i] == t;
    }
  }
}
