/** Questions about a component's values in a live object and in the bundled chart, and what a
    patch and a revert of a component do to a values tree. */
module Patcher {
  import opened Text
  import opened Values
  import opened Components
  import opened Comparison

  /* ---- Comparing generated values with an object ---- */

  predicate Clashes(existing: Value, generated: Value) {
    if generated.Map? then !existing.Map? else Sprint(existing) != Sprint(generated)
  }

  predicate PresentAt(t: Tree, g: Tree, k: string)
    requires k in g.entries
    decreases g, 0
  {
    k in t.entries && !Clashes(t.entries[k], g.entries[k]) &&
    (g.entries[k].Map? ==> Present(t.entries[k], g.entries[k]))
  }

  // Every generated leaf is there and prints the same
  predicate Present(t: Tree, g: Tree)
    decreases g, 1
  {
    forall k | k in g.entries :: PresentAt(t, g, k)
  }

  // t holds something other than what g would put at this path
  predicate Conflicting(t: Tree, g: Tree, p: seq<string>)
    decreases p
  {
    p != [] && p[0] in g.entries && p[0] in t.entries &&
    var x, y := t.entries[p[0]], g.entries[p[0]];
    if x.Map? && y.Map? then Conflicting(x, y, p[1..]) else p[1..] == [] && Clashes(x, y)
  }

  predicate ConflictAt(t: Tree, g: Tree, k: string)
    requires k in g.entries && k in t.entries
    decreases g, 0
  {
    Clashes(t.entries[k], g.entries[k]) ||
    (t.entries[k].Map? && g.entries[k].Map? && HasConflict(t.entries[k], g.entries[k]))
  }

  predicate HasConflict(t: Tree, g: Tree)
    decreases g, 1
  {
    exists k | k in g.entries && k in t.entries :: ConflictAt(t, g, k)
  }

  lemma {:induction false} ConflictHasPath(t: Tree, g: Tree) returns (p: seq<string>)
    requires HasConflict(t, g)
    ensures Conflicting(t, g, p)
    decreases g
  {
    var k :| k in g.entries && k in t.entries && ConflictAt(t, g, k);
    if Clashes(t.entries[k], g.entries[k]) {
      p := [k];
    } else {
      var rest := ConflictHasPath(t.entries[k], g.entries[k]);
      p := [k] + rest;
      assert p[1..] == rest;
    }
  }

  lemma {:induction false} PathIsConflict(t: Tree, g: Tree, p: seq<string>)
    requires Conflicting(t, g, p)
    ensures HasConflict(t, g)
    decreases p
  {
    var k := p[0];
    if t.entries[k].Map? && g.entries[k].Map? {
      PathIsConflict(t.entries[k], g.entries[k], p[1..]);
    }
    assert ConflictAt(t, g, k);
  }

  // The comparison lists a conflict exactly when there is one
  lemma ConflictIsSomewhere(t: Tree, g: Tree)
    ensures HasConflict(t, g) ==> exists p :: Conflicting(t, g, p)
    ensures forall p | Conflicting(t, g, p) :: HasConflict(t, g)
  {
    if HasConflict(t, g) {
      var p := ConflictHasPath(t, g);
    }
    forall p | Conflicting(t, g, p) ensures HasConflict(t, g) { PathIsConflict(t, g, p); }
  }

  class Comparer {
    var allPresent: bool
    var conflicts: seq<seq<string>>

    constructor ()
      ensures allPresent && conflicts == []
    {
      allPresent, conflicts := true, [];
    }

    method CompareLeaves(existing: Tree, generated: Tree, prefix: seq<string>)
      modifies this
      ensures allPresent == (old(allPresent) && Present(existing, generated))
      ensures old(conflicts) <= conflicts
      ensures forall p :: p in conflicts[|old(conflicts)|..] <==>
                          prefix < p && Conflicting(existing, generated, p[|prefix|..])
      decreases generated
    {
      ghost var start := |conflicts|;
      var keys := generated.entries.Keys;
      while keys != {}
        invariant keys <= generated.entries.Keys
        invariant allPresent ==
          (old(allPresent) && forall k | k in generated.entries && k !in keys :: PresentAt(existing, generated, k))
        invariant start == |old(conflicts)| && old(conflicts) <= conflicts
        invariant forall p :: p in conflicts[start..] <==>
          prefix < p && p[|prefix|] !in keys && Conflicting(existing, generated, p[|prefix|..])
        decreases |keys|
      {
        var k :| k in keys;
        ghost var before := conflicts;
        CompareKey(existing, generated, prefix, k);
        assert conflicts[start..] == before[start..] + conflicts[|before|..];
        keys := keys - {k};
      }
    }

    // One key of the walk
    method CompareKey(existing: Tree, generated: Tree, prefix: seq<string>, k: string)
      requires k in generated.entries
      modifies this
      ensures allPresent == (old(allPresent) && PresentAt(existing, generated, k))
      ensures old(conflicts) <= conflicts
      ensures forall p :: p in conflicts[|old(conflicts)|..] <==>
                          prefix < p && p[|prefix|] == k && Conflicting(existing, generated, p[|prefix|..])
      decreases generated, 0
    {
      var path := prefix + [k];
      ghost var before := conflicts;
      if k !in existing.entries {
        allPresent := false;
      } else if generated.entries[k].Map? && existing.entries[k].Map? {
        CompareLeaves(existing.entries[k], generated.entries[k], path);
        forall p ensures path < p <==> prefix < p && p[|prefix|] == k && p[|prefix|..][1..] != [] { }
        forall p | path < p ensures p[|prefix|..][1..] == p[|path|..] { }
      } else if Clashes(existing.entries[k], generated.entries[k]) {
        allPresent := false;
        conflicts := conflicts + [path];
        assert path[|prefix|..] == [k];
        forall p ensures p == path <==> prefix < p && p[|prefix|] == k && p[|prefix|..][1..] == [] { }
      }
    }
  }

  // y printed over x leaves what prints the same, at every level
  predicate Unreplaced(x: Value, y: Value)
    decreases y
  {
    if y.Map? then x.Map? && forall k | k in x.entries && k in y.entries :: Unreplaced(x.entries[k], y.entries[k])
    else Sprint(x) == Sprint(y)
  }

  // Nothing is replaced and no key is added
  predicate Unchanged(x: Value, y: Value)
    decreases y
  {
    if y.Map? then
      x.Map? && x.entries.Keys == y.entries.Keys &&
      forall k | k in y.entries :: Unchanged(x.entries[k], y.entries[k])
    else Sprint(x) == Sprint(y)
  }

  lemma {:induction false} ReflexiveChanges(x: Value)
    ensures Unreplaced(x, x) && Unchanged(x, x)
    decreases x
  {
    if x.Map? {
      forall k | k in x.entries
        ensures Unreplaced(x.entries[k], x.entries[k]) && Unchanged(x.entries[k], x.entries[k])
      {
        ReflexiveChanges(x.entries[k]);
      }
    }
  }

  /** The comparison reports the values as present exactly when merging them changes nothing,
      values being compared as printed. */
  lemma {:induction false} PresentExactlyWhenMergeChangesNothing(t: Tree, g: Tree)
    ensures Present(t, g) <==> Unchanged(t, Merge(t, g))
    decreases g
  {
    var m := Merge(t, g);
    forall k | k in g.entries
      ensures k in m.entries && (k in t.entries ==> (PresentAt(t, g, k) <==> Unchanged(t.entries[k], m.entries[k])))
    {
      MergeAt(t, g, k);
      if k in t.entries && t.entries[k].Map? && g.entries[k].Map? {
        PresentExactlyWhenMergeChangesNothing(t.entries[k], g.entries[k]);
      } else if k in t.entries && g.entries[k].Map? {
        assert !Unchanged(t.entries[k], m.entries[k]);
      }
    }
    forall k | k in t.entries && k !in g.entries ensures k in m.entries && Unchanged(t.entries[k], m.entries[k]) {
      MergeAt(t, g, k);
      ReflexiveChanges(t.entries[k]);
    }
    if Present(t, g) {
      assert forall k | k in g.entries :: PresentAt(t, g, k);
      forall k ensures k in t.entries <==> k in m.entries { MergeAt(t, g, k); }
      assert t.entries.Keys == m.entries.Keys;
    }
    if Unchanged(t, m) {
      assert forall k | k in g.entries :: k in m.entries && k in t.entries;
    }
  }

  /** It reports no conflict exactly when merging replaces no existing value. */
  lemma {:induction false} NoConflictExactlyWhenNothingIsReplaced(t: Tree, g: Tree)
    ensures !HasConflict(t, g) <==> Unreplaced(t, Merge(t, g))
    decreases g
  {
    var m := Merge(t, g);
    forall k | k in t.entries
      ensures k in m.entries
      ensures k !in g.entries ==> Unreplaced(t.entries[k], m.entries[k])
      ensures k in g.entries ==>
              (Unreplaced(t.entries[k], m.entries[k]) <==>
               !ConflictAt(t, g, k))
    {
      MergeAt(t, g, k);
      ReflexiveChanges(t.entries[k]);
      if k in g.entries && t.entries[k].Map? && g.entries[k].Map? {
        NoConflictExactlyWhenNothingIsReplaced(t.entries[k], g.entries[k]);
      }
    }
  }

  // What was just merged compares as present, without conflicts
  lemma {:induction false} MergedIsPresent(t: Tree, g: Tree)
    ensures Present(Merge(t, g), g) && !HasConflict(Merge(t, g), g)
  {
    MergeIsIdempotent(t, g);
    ReflexiveChanges(Merge(t, g));
    PresentExactlyWhenMergeChangesNothing(Merge(t, g), g);
    NoConflictExactlyWhenNothingIsReplaced(Merge(t, g), g);
  }

  // Only the leaf positions are looked at, and only in one direction
  lemma {:induction false} AgreementKeepsPresence(t: Tree, u: Tree, g: Tree)
    requires AgreeOn(t, u, g) && Solid(g) && Present(t, g)
    ensures Present(u, g)
    decreases g
  {
    forall k | k in g.entries ensures PresentAt(u, g, k) {
      assert PresentAt(t, g, k);
      if g.entries[k].Map? {
        AgreementKeepsPresence(Sub(t, k), Sub(u, k), g.entries[k]);
        PresentNeedsEntries(Sub(u, k), g.entries[k]);
      } else {
        assert Get(t, k) == Get(u, k);
      }
    }
  }

  lemma PresentNeedsEntries(t: Tree, g: Tree)
    requires Solid(g) && Present(t, g)
    ensures t != EMPTY
  {
    var k :| k in g.entries;
    assert PresentAt(t, g, k);
  }

  /* ---- Bundled and applied tags ---- */

  datatype Bundled =
    | BundledTag(tag: string)
    | NoDefault(path: seq<string>)
    | OtherImage(path: seq<string>)
    | DifferentTags(one: string, other: string)

  // The repository the chart sets next to a tag path
  function RepositoryAt(chart: Tree, path: seq<string>): string {
    if path == [] then "" else
    match Lookup(chart, path[..|path| - 1] + ["repository"])
    case Some(r) => r
    case None => ""
  }

  function CheckPaths(chart: Tree, repository: string, paths: seq<seq<string>>, bundled: string): Bundled
  {
    if paths == [] then BundledTag(bundled)
    else
      var path := paths[0];
      match Lookup(chart, path)
      case None => NoDefault(path)
      case Some(tag) =>
        if tag == "" then NoDefault(path)
        else if WithoutRegistry(RepositoryAt(chart, path)) != WithoutRegistry(repository) then OtherImage(path)
        else if bundled != "" && tag != bundled then DifferentTags(bundled, tag)
        else CheckPaths(chart, repository, paths[1..], tag)
  }

  function BundledOf(c: ComponentId, chart: Tree): Bundled {
    CheckPaths(chart, Repository(c), TagPaths(c), "")
  }

  method BundledImageTag(c: ComponentId, chart: Tree) returns (r: Bundled)
    ensures r == BundledOf(c, chart)
  {
    hide Lookup;
    hide WithoutRegistry;
    hide TagPaths;
    var paths := TagPaths(c);
    var expected := WithoutRegistry(Repository(c));
    var bundledTag := "";
    for i := 0 to |paths|
      invariant CheckPaths(chart, Repository(c), paths[i..], bundledTag) == BundledOf(c, chart)
    {
      var path := paths[i];
      assert paths[i..][0] == path && paths[i..][1..] == paths[i + 1..];
      var tag := LookupString(chart, path);
      if tag.None? || tag.value == "" {
        return NoDefault(path);
      }
      var found := LookupString(chart, path[..|path| - 1] + ["repository"]);
      var chartRepository := if found.Some? then found.value else "";
      if WithoutRegistry(chartRepository) != expected {
        return OtherImage(path);
      }
      if bundledTag != "" && tag.value != bundledTag {
        return DifferentTags(bundledTag, tag.value);
      }
      bundledTag := tag.value;
    }
    return BundledTag(bundledTag);
  }

  // The chart sets this tag at the path, next to this repository
  predicate SetsTag(chart: Tree, repository: string, path: seq<string>, tag: string) {
    Lookup(chart, path) == Some(tag) && WithoutRegistry(RepositoryAt(chart, path)) == WithoutRegistry(repository)
  }

  lemma {:induction false} CheckPathsMeans(chart: Tree, repository: string, paths: seq<seq<string>>, bundled: string,
                                           tag: string)
    ensures CheckPaths(chart, repository, paths, bundled) == BundledTag(tag) <==>
            (paths == [] ==> tag == bundled) && (bundled != "" ==> tag == bundled) && (paths != [] ==> tag != "") &&
            forall i | 0 <= i < |paths| :: SetsTag(chart, repository, paths[i], tag)
    decreases paths
  {
    hide Lookup;
    hide RepositoryAt;
    hide WithoutRegistry;
    if paths == [] {
    } else {
      assert forall i | 0 < i < |paths| :: paths[i] == paths[1..][i - 1];
      if Lookup(chart, paths[0]).Some? {
        CheckPathsMeans(chart, repository, paths[1..], Lookup(chart, paths[0]).value, tag);
      }
    }
  }

  /** A component has a bundled tag exactly when the chart sets that one tag, next to the
      component's repository, at every path the patcher writes. */
  lemma BundledTagMeans(c: ComponentId, chart: Tree, tag: string)
    ensures BundledOf(c, chart) == BundledTag(tag) <==>
            tag != "" &&
            forall i | 0 <= i < |TagPaths(c)| :: SetsTag(chart, Repository(c), TagPaths(c)[i], tag)
  {
    CheckPathsMeans(chart, Repository(c), TagPaths(c), "", tag);
  }

  /** Two components that write the same tag path cannot both have a bundled tag, unless they
      share their repository. */
  lemma CommonPathExcludes(c: ComponentId, d: ComponentId, path: seq<string>, chart: Tree)
    requires path in TagPaths(c) && path in TagPaths(d)
    requires BundledOf(c, chart).BundledTag? && BundledOf(d, chart).BundledTag?
    ensures WithoutRegistry(Repository(c)) == WithoutRegistry(Repository(d))
  {
    hide *;
    BundledTagMeans(c, chart, BundledOf(c, chart).tag);
    BundledTagMeans(d, chart, BundledOf(d, chart).tag);
    SameRepository(chart, Repository(c), Repository(d), path, BundledOf(c, chart).tag, BundledOf(d, chart).tag);
  }

  lemma SameRepository(chart: Tree, r: string, s: string, path: seq<string>, t: string, u: string)
    requires SetsTag(chart, r, path, t) && SetsTag(chart, s, path, u)
    ensures WithoutRegistry(r) == WithoutRegistry(s)
  {
  }

  // A first part of plain letters is no registry host
  lemma NoRegistry(image: string, i: nat)
    requires i < |image| && image[i] == '/' && 0 < i
    requires forall j | 0 <= j < i :: 'a' <= image[j] <= 'z'
    requires image[0] == 'r'
    ensures WithoutRegistry(image) == image
  {
    FindMeans(image, '/');
    assert Find(image, '/') == i;
    var first := ToLower(image[..i]);
    assert forall j | 0 <= j < i :: first[j] == Lower(image[j]) == image[j];
    assert first != "localhost" by { assert "localhost"[0] == 'l'; }
  }

  lemma DnsRepositoriesDiffer()
    ensures WithoutRegistry(Repository(CoreDns)) != WithoutRegistry(Repository(DnsNodeCache))
  {
    hide WithoutRegistry;
    NoRegistry(Repository(CoreDns), 7);
    NoRegistry(Repository(DnsNodeCache), 7);
    assert |Repository(CoreDns)| == 24 && |Repository(DnsNodeCache)| == 31;
  }

  // rke2-coredns and rke2-dns-node-cache are never both patchable
  lemma CoreDnsExcludesNodeCache(chart: Tree)
    ensures !(BundledOf(CoreDns, chart).BundledTag? && BundledOf(DnsNodeCache, chart).BundledTag?)
  {
    hide BundledOf;
    hide Repository;
    hide WithoutRegistry;
    if BundledOf(CoreDns, chart).BundledTag? && BundledOf(DnsNodeCache, chart).BundledTag? {
      CommonPathExcludes(CoreDns, DnsNodeCache, TagPaths(CoreDns)[0], chart);
      DnsRepositoriesDiffer();
    }
  }

  // The tag an object sets for a component, if any
  function AppliedTag(c: ComponentId, values: Tree): Option<string> {
    match Lookup(values, TagPaths(c)[0])
    case Some(tag) => if tag == "" then None else Some(tag)
    case None => None
  }

  lemma {:induction false} LookupFollowsAgreement(m: Tree, g: Tree, path: seq<string>, text: string)
    requires AgreeOn(m, g, g) && LeadsTo(g, path, text) && path != []
    ensures Lookup(m, path) == Some(Trim(text))
    decreases path
  {
    var k := path[0];
    OneStep(g, path, text);
    if path[1..] == [] {
      assert Get(m, k) == Get(g, k);
      assert Lookup(m, path) == Lookup(m.entries[k], []);
    } else {
      assert g.entries[k].Map?;
      LookupFollowsAgreement(Sub(m, k), Sub(g, k), path[1..], text);
    }
  }

  lemma NoEmptyTag(c: ComponentId, t: Tree)
    ensures AppliedTag(c, t) != Some("")
  {
    hide Lookup;
    hide TagPaths;
  }

  // The tag just written is read back
  lemma AppliedTagReadsBack(c: ComponentId, t: Tree, repository: string, tag: string)
    requires !Blank(tag)
    ensures AppliedTag(c, Merge(t, GeneratedValues(c, repository, tag))) == Some(Trim(tag))
  {
    var g := GeneratedValues(c, repository, tag);
    FirstPathHoldsTag(c, repository, tag);
    MergedHasAllLeaves(t, g);
    LookupFollowsAgreement(Merge(t, g), g, TagPaths(c)[0], tag);
  }

  /* ---- Patching and reverting a component ---- */

  function Without(t: Tree, k: string): (r: Tree)
    ensures forall j :: Get(r, j) == if j == k then None else Get(t, j)
  {
    Map(t.entries - {k})
  }

  function With(t: Tree, k: string, x: Value): (r: Tree)
    ensures forall j :: Get(r, j) == if j == k then Some(x) else Get(t, j)
  {
    Map(t.entries[k := x])
  }

  // deepSubtractMap: works on a copy of the base, key by key
  method DeepSubtractMap(base: Tree, toRemove: Tree) returns (result: Tree)
    ensures result == Subtract(base, toRemove)
    decreases toRemove, 1
  {
    result := base;
    var keys := toRemove.entries.Keys;
    while keys != {}
      invariant keys <= toRemove.entries.Keys
      invariant forall k | k in toRemove.entries && k !in keys :: Get(result, k) == Get(Subtract(base, toRemove), k)
      invariant forall k | k !in toRemove.entries || k in keys :: Get(result, k) == Get(base, k)
      decreases |keys|
    {
      hide *;
      var k :| k in keys;
      result := RemoveKey(base, toRemove, result, k);
      keys := keys - {k};
    }
    forall k ensures Get(result, k) == Get(Subtract(base, toRemove), k) {
      if k !in toRemove.entries { SubtractAt(base, toRemove, k); }
      hide *;
    }
    hide *;
    SameTree(result, Subtract(base, toRemove));
  }

  // One key of the loop
  method RemoveKey(base: Tree, toRemove: Tree, result: Tree, k: string) returns (next: Tree)
    requires k in toRemove.entries && Get(result, k) == Get(base, k)
    ensures Get(next, k) == Get(Subtract(base, toRemove), k)
    ensures forall j | j != k :: Get(next, j) == Get(result, j)
    decreases toRemove, 0
  {
    SubtractAt(base, toRemove, k);
    hide Subtract;
    hide With;
    hide Without;
    if k !in result.entries {
      return result;
    }
    if toRemove.entries[k].Map? && result.entries[k].Map? {
      var subtracted := DeepSubtractMap(result.entries[k], toRemove.entries[k]);
      if subtracted.entries == map[] {
        return Without(result, k);
      }
      return With(result, k, subtracted);
    }
    return Without(result, k);
  }

  function Patched(c: ComponentId, t: Tree, repository: string, tag: string): Tree {
    Merge(t, GeneratedValues(c, repository, tag))
  }

  // The values are regenerated with the component's own repository and a placeholder tag
  function Reverted(c: ComponentId, t: Tree): Tree {
    Subtract(t, Shape(c))
  }

  lemma {:induction false} CleanFollowsShape(t: Tree, g: Tree, h: Tree)
    requires SameShape(g, h)
    ensures Clean(t, g) == Clean(t, h)
    decreases g
  {
    forall k | k in g.entries && k in t.entries && g.entries[k].Map? && t.entries[k].Map?
      ensures Clean(t.entries[k], g.entries[k]) == Clean(t.entries[k], h.entries[k])
    {
      CleanFollowsShape(t.entries[k], g.entries[k], h.entries[k]);
    }
  }

  /** Reverting a patch restores the tree exactly when the tree was clean for the component,
      whichever repository and tag the patch wrote. */
  lemma PatchThenRevertRestores(c: ComponentId, t: Tree, repository: string, tag: string)
    requires !Blank(repository) && !Blank(tag)
    ensures Reverted(c, Patched(c, t, repository, tag)) == t <==> Clean(t, Shape(c))
  {
    hide GeneratedValues;
    var g := GeneratedValues(c, repository, tag);
    GeneratedIsGenerated(c, repository, tag);
    ShapeIgnoresLeaves(c, repository, tag, Repository(c), PLACEHOLDER);
    RestoresExactlyWhenClean(t, g, Shape(c));
    CleanFollowsShape(t, g, Shape(c));
  }

  lemma {:induction false} DisjointFollowsShape(g: Tree, g': Tree, h: Tree, h': Tree)
    requires SameShape(g, g') && SameShape(h, h') && Disjoint(g, h)
    ensures Disjoint(g', h')
    decreases g
  {
    forall k | k in g'.entries && k in h'.entries
      ensures g'.entries[k].Map? && h'.entries[k].Map? && Disjoint(g'.entries[k], h'.entries[k])
    {
      DisjointFollowsShape(g.entries[k], g'.entries[k], h.entries[k], h'.entries[k]);
    }
  }

  // Disjoint components write disjoint values, whatever the leaves
  lemma DisjointWrites(c: ComponentId, d: ComponentId, r: string, t: string, s: string, u: string)
    requires Disjoint(Shape(c), Shape(d))
    ensures Disjoint(GeneratedValues(c, r, t), GeneratedValues(d, s, u))
  {
    hide GeneratedValues;
    ShapeIgnoresLeaves(c, Repository(c), PLACEHOLDER, r, t);
    ShapeIgnoresLeaves(d, Repository(d), PLACEHOLDER, s, u);
    DisjointFollowsShape(Shape(c), GeneratedValues(c, r, t), Shape(d), GeneratedValues(d, s, u));
  }

  /** Two disjoint components of one chart: patched in either order, reverting one leaves exactly
      the other's patch of the original tree. */
  lemma SharedChartIsIndependent(c: ComponentId, d: ComponentId, t: Tree, r: string, u: string, s: string, v: string)
    requires Disjoint(Shape(c), Shape(d)) && Clean(t, Shape(c))
    requires !Blank(r) && !Blank(u) && !Blank(s) && !Blank(v)
    ensures Reverted(c, Patched(d, Patched(c, t, r, u), s, v)) == Patched(d, t, s, v)
    ensures Reverted(c, Patched(c, Patched(d, t, s, v), r, u)) == Patched(d, t, s, v)
  {
    hide GeneratedValues;
    var g, h := GeneratedValues(c, r, u), GeneratedValues(d, s, v);
    GeneratedIsGenerated(d, s, v);
    ShapeIsGenerated(c);
    DisjointWrites(c, d, r, u, s, v);
    DisjointWrites(c, d, Repository(c), PLACEHOLDER, s, v);
    DisjointMergesCommute(t, g, h);
    SubtractPassesThroughMerge(Merge(t, g), Shape(c), h);
    PatchThenRevertRestores(c, t, r, u);
  }

  /** Why the pair is apart: reverting rke2-coredns removes every leaf of rke2-dns-node-cache as well. */
  lemma PairLosesAllLeaves(t: Tree)
    ensures NoLeaves(Reverted(CoreDns, t), Shape(DnsNodeCache))
  {
    PairSharesShape();
    hide GeneratedValues;
    SubtractedHasNoLeaves(t, Shape(CoreDns));
    LeavesFollowShape(Reverted(CoreDns, t), Shape(CoreDns), Shape(DnsNodeCache));
  }

  lemma PairSharesShape()
    ensures SameShape(Shape(CoreDns), Shape(DnsNodeCache))
  {
    ImagesShareShape(Repository(CoreDns), Repository(DnsNodeCache), "tag", PLACEHOLDER, PLACEHOLDER);
    UnderSharesShape("image", Image(Repository(CoreDns), "tag", PLACEHOLDER),
                     Image(Repository(DnsNodeCache), "tag", PLACEHOLDER));
    hide Image;
    hide Under;
    hide SameShape;
  }
}
