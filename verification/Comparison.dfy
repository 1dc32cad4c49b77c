/** Reading values back: printing, lookups, the bundled tag of a chart, and the comparison of
    generated values with a live object. */
module Comparison {
  import opened Text
  import opened Values
  import opened Components

  /* ---- Printing (fmt.Sprint) ---- */

  function Sprint(v: Value): string
    decreases v, 1
  {
    match v
    case Null => "<nil>"
    case Bool(b) => if b then "true" else "false"
    case Int(i) => Decimal(i)
    case Str(s) => s
    case Other(text) => text
    case List(items) => "[" + SprintItems(v, 0) + "]"
    case Map(entries) => "map[" + SprintEntries(v, entries.Keys) + "]"
  }

  function SprintItems(v: Value, from: nat): string
    requires v.List? && from <= |v.items|
    decreases v, 0, |v.items| - from
  {
    if from == |v.items| then ""
    else (if from == 0 then "" else " ") + Sprint(v.items[from]) + SprintItems(v, from + 1)
  }

  // Keys in increasing order
  function SprintEntries(v: Value, keys: set<string>): string
    requires v.Map? && keys <= v.entries.Keys
    decreases v, 0, |keys|
  {
    if keys == {} then ""
    else
      var k := Least(keys);
      k + ":" + Sprint(v.entries[k]) + (if keys == {k} then "" else " " + SprintEntries(v, keys - {k}))
  }

  /* ---- Lookups ---- */

  function Lookup(v: Value, path: seq<string>): Option<string> {
    if path == [] then (if v.Null? then None else Some(Trim(Sprint(v))))
    else if v.Map? && path[0] in v.entries then Lookup(v.entries[path[0]], path[1..])
    else None
  }

  method LookupString(values: Tree, path: seq<string>) returns (found: Option<string>)
    ensures found == Lookup(values, path)
  {
    var current: Value := values;
    for i := 0 to |path|
      invariant Lookup(values, path) == Lookup(current, path[i..])
    {
      if !current.Map? || path[i] !in current.entries {
        return None;
      }
      current := current.entries[path[i]];
      assert path[i..][1..] == path[i + 1..];
    }
    return if current.Null? then None else Some(Trim(Sprint(current)));
  }

  // The value at a path
  ghost predicate Reaches(v: Value, path: seq<string>, x: Value)
    decreases path
  {
    if path == [] then v == x
    else v.Map? && path[0] in v.entries && Reaches(v.entries[path[0]], path[1..], x)
  }

  /** A lookup gives the value at the path as it is printed, trimmed; a null counts as nothing. */
  lemma {:induction false} LookupMeans(v: Value, path: seq<string>, x: Value)
    ensures Reaches(v, path, x) ==> Lookup(v, path) == if x.Null? then None else Some(Trim(Sprint(x)))
    ensures Lookup(v, path).Some? ==> exists y :: Reaches(v, path, y)
    decreases path
  {
    hide Trim;
    hide Sprint;
    if path == [] {
      assert Reaches(v, path, v);
    } else if v.Map? && path[0] in v.entries {
      LookupMeans(v.entries[path[0]], path[1..], x);
      if Lookup(v, path).Some? {
        var y :| Reaches(v.entries[path[0]], path[1..], y);
        assert Reaches(v, path, y);
      }
    }
  }

  /* ---- Tag paths ---- */

  const TAG_SENTINEL := "rke2-patcher-tag-sentinel"

  // A text stands at the path
  ghost predicate LeadsTo(v: Value, path: seq<string>, text: string) {
    Reaches(v, path, Str(text))
  }

  lemma OneStep(v: Value, path: seq<string>, text: string)
    ensures LeadsTo(v, path, text) <==>
            if path == [] then v == Str(text)
            else v.Map? && path[0] in v.entries && LeadsTo(v.entries[path[0]], path[1..], text)
  {
  }

  /** Appends every path at which the sentinel stands, and nothing else, each once. */
  method CollectSentinelPaths(values: Tree, prefix: seq<string>, paths: seq<seq<string>>)
    returns (all: seq<seq<string>>)
    requires forall p | p in paths :: !(prefix < p)
    ensures paths <= all
    ensures forall p :: p in all[|paths|..] <==> prefix < p && LeadsTo(values, p[|prefix|..], TAG_SENTINEL)
    ensures forall i, j | |paths| <= i < j < |all| :: all[i] != all[j]
    decreases values
  {
    all := paths;
    var keys := values.entries.Keys;
    while keys != {}
      invariant keys <= values.entries.Keys
      invariant paths <= all
      invariant forall p | p in all[|paths|..] ::
        prefix < p && p[|prefix|] in values.entries && p[|prefix|] !in keys &&
        LeadsTo(values, p[|prefix|..], TAG_SENTINEL)
      invariant forall p | prefix < p && p[|prefix|] !in keys && LeadsTo(values, p[|prefix|..], TAG_SENTINEL) ::
        p in all[|paths|..]
      invariant forall i, j | |paths| <= i < j < |all| :: all[i] != all[j]
      decreases |keys|
    {
      var k :| k in keys;
      var path := prefix + [k];
      ghost var before := all;
      match values.entries[k] {
        case Map(_) =>
          assert all == paths + all[|paths|..];
          assert forall p | path < p :: prefix < p && p[|prefix|] == k;
          all := CollectSentinelPaths(values.entries[k], path, all);
        case Str(s) =>
          if s == TAG_SENTINEL {
            assert LeadsTo(values, [k], TAG_SENTINEL);
            assert path[|prefix|..] == [k];
            assert path !in before[|paths|..];
            all := all + [path];
          }
        case _ =>
      }
      Appended(values, prefix, k, |paths|, before, all);
      keys := keys - {k};
    }
  }

  // One turn of the loop: what was added are exactly the sentinel paths through k
  lemma Appended(values: Tree, prefix: seq<string>, k: string, start: nat, before: seq<seq<string>>,
                 all: seq<seq<string>>)
    requires k in values.entries && start <= |before| && before <= all
    requires forall i, j | start <= i < j < |before| :: before[i] != before[j]
    requires forall p | p in before[start..] :: prefix < p && p[|prefix|] != k
    requires forall i, j | |before| <= i < j < |all| :: all[i] != all[j]
    requires values.entries[k].Map? ==> forall p :: p in all[|before|..] <==>
               prefix + [k] < p && LeadsTo(values.entries[k], p[|prefix| + 1..], TAG_SENTINEL)
    requires values.entries[k] == Str(TAG_SENTINEL) ==> all == before + [prefix + [k]]
    requires !values.entries[k].Map? && values.entries[k] != Str(TAG_SENTINEL) ==> all == before
    ensures forall p :: p in all[|before|..] <==>
              prefix < p && p[|prefix|] == k && LeadsTo(values, p[|prefix|..], TAG_SENTINEL)
    ensures all[start..] == before[start..] + all[|before|..]
    ensures forall i, j | start <= i < j < |all| :: all[i] != all[j]
  {
    forall p | prefix < p && p[|prefix|] == k
      ensures LeadsTo(values, p[|prefix|..], TAG_SENTINEL) <==>
              LeadsTo(values.entries[k], p[|prefix| + 1..], TAG_SENTINEL)
      ensures p == prefix + [k] || prefix + [k] < p
    {
      assert p[|prefix|..][1..] == p[|prefix| + 1..];
    }
    assert all[start..] == before[start..] + all[|before|..];
    forall i, j | start <= i < j < |all| ensures all[i] != all[j] {
      if i < |before| <= j {
        assert all[i] == before[start..][i - start] && all[j] == all[|before|..][j - |before|];
        assert all[i] in before[start..] && all[j] in all[|before|..];
      }
    }
  }

  lemma ImageLeads(r: string, key: string, t: string, p: seq<string>)
    requires r != t && key != "repository"
    ensures LeadsTo(Image(r, key, t), p, t) <==> p == [key]
  {
    OneStep(Image(r, key, t), p, t);
    if p != [] && p[0] in Image(r, key, t).entries { OneStep(Image(r, key, t).entries[p[0]], p[1..], t); }
    if p != [] {
      assert p == [p[0]] + p[1..];
    }
  }

  lemma UnderLeads(key: string, v: Tree, p: seq<string>, t: string)
    ensures LeadsTo(Under(key, v), p, t) <==> p != [] && p[0] == key && LeadsTo(v, p[1..], t)
  {
  }

  lemma CalicoImagesLead(v: Tree, p: seq<string>, t: string)
    ensures LeadsTo(CalicoImages(v), p, t) <==>
            p != [] && p[0] in {"cniImage", "nodeImage", "flexvolImage", "kubeControllerImage"} && LeadsTo(v, p[1..], t)
  {
    assert CalicoImages(v).entries.Keys == {"cniImage", "nodeImage", "flexvolImage", "kubeControllerImage"};
  }

  // The sentinel search finds exactly the tag paths
  lemma SentinelPathsAreTagPaths(c: ComponentId, p: seq<string>)
    ensures LeadsTo(GeneratedValues(c, "repository", TAG_SENTINEL), p, TAG_SENTINEL) <==> p in TagPaths(c)
  {
    assert "repository" != TAG_SENTINEL by { assert |"repository"| == 10 && |TAG_SENTINEL| == 25; }
    TagPathsLead(c, "repository", TAG_SENTINEL, p);
  }

  lemma TagPathsLead(c: ComponentId, r: string, t: string, p: seq<string>)
    requires r != t
    ensures LeadsTo(GeneratedValues(c, r, t), p, t) <==> p in TagPaths(c)
  {
    KeysDiffer();
    hide LeadsTo;
    hide Image;
    hide Under;
    hide CalicoImages;
    var image, prime := Image(r, "tag", t), Image(r, "primeTag", t);
    match c {
      case IngressNginx =>
        ThreeLead("controller", "image", prime, p, t, "primeTag", r);
      case CanalCalico =>
        UnderLeads("calico", CalicoImages(image), p, t);
        if p != [] { CalicoImagesLead(image, p[1..], t); }
        if |p| > 1 { ImageLeads(r, "tag", t, p[1..][1..]); }
        ThreeKeys(p, "calico", "cniImage", "tag");
        ThreeKeys(p, "calico", "flexvolImage", "tag");
        ThreeKeys(p, "calico", "kubeControllerImage", "tag");
        ThreeKeys(p, "calico", "nodeImage", "tag");
      case CanalFlannel | Flannel =>
        ThreeLead("flannel", "image", image, p, t, "tag", r);
      case SnapshotController =>
        ThreeLead("controller", "image", image, p, t, "tag", r);
      case ClusterAutoscaler =>
        ThreeLead("autoscaler", "image", image, p, t, "tag", r);
      case _ =>
        UnderLeads("image", image, p, t);
        if p != [] { ImageLeads(r, "tag", t, p[1..]); }
        assert p == ["image", "tag"] <==> p != [] && p[0] == "image" && p[1..] == ["tag"] by {
          if p != [] { assert p == [p[0]] + p[1..]; }
          assert ["image", "tag"][1..] == ["tag"];
        }
    }
  }

  lemma ThreeKeys(p: seq<string>, a: string, b: string, c: string)
    ensures p == [a, b, c] <==> |p| > 1 && p[0] == a && p[1..][0] == b && p[1..][1..] == [c]
  {
    assert [a, b, c][1..][1..] == [c];
    if |p| > 1 { assert p == [p[0], p[1..][0]] + p[1..][1..]; }
  }

  lemma ThreeLead(a: string, b: string, image: Tree, p: seq<string>, t: string, key: string, r: string)
    requires image == Image(r, key, t) && r != t && key != "repository"
    ensures LeadsTo(Under(a, Under(b, image)), p, t) <==> p == [a, b, key]
  {
    UnderLeads(a, Under(b, image), p, t);
    if p != [] { UnderLeads(b, image, p[1..], t); }
    if |p| > 1 { ImageLeads(r, key, t, p[1..][1..]); }
    ThreeKeys(p, a, b, key);
  }

  lemma ImageHolds(r: string, key: string, t: string)
    requires key != "repository"
    ensures LeadsTo(Image(r, key, t), [key], t)
  {
    assert [key][1..] == [];
  }

  lemma UnderHolds(key: string, v: Tree, p: seq<string>, t: string)
    requires LeadsTo(v, p, t)
    ensures LeadsTo(Under(key, v), [key] + p, t)
  {
    assert ([key] + p)[1..] == p;
  }

  lemma ThreeHold(a: string, b: string, r: string, key: string, t: string)
    requires key != "repository"
    ensures LeadsTo(Under(a, Under(b, Image(r, key, t))), [a, b, key], t)
  {
    hide LeadsTo;
    ImageHolds(r, key, t);
    UnderHolds(b, Image(r, key, t), [key], t);
    assert [b] + [key] == [b, key];
    UnderHolds(a, Under(b, Image(r, key, t)), [b, key], t);
    assert [a] + [b, key] == [a, b, key];
  }

  lemma CalicoHolds(r: string, t: string)
    ensures LeadsTo(Under("calico", CalicoImages(Image(r, "tag", t))), ["calico", "cniImage", "tag"], t)
  {
    KeysDiffer();
    ImageHolds(r, "tag", t);
    var images := CalicoImages(Image(r, "tag", t));
    assert ["cniImage", "tag"][1..] == ["tag"];
    assert images.entries["cniImage"] == Image(r, "tag", t);
    assert LeadsTo(images, ["cniImage", "tag"], t);
    hide CalicoImages;
    hide LeadsTo;
    UnderHolds("calico", images, ["cniImage", "tag"], t);
    assert ["calico"] + ["cniImage", "tag"] == ["calico", "cniImage", "tag"];
  }

  // The tag stands at the first tag path, whatever the repository
  lemma FirstPathHoldsTag(c: ComponentId, r: string, t: string)
    ensures LeadsTo(GeneratedValues(c, r, t), TagPaths(c)[0], t)
  {
    hide LeadsTo;
    hide Image;
    hide Under;
    hide CalicoImages;
    KeysDiffer();
    match c {
      case IngressNginx => ThreeHold("controller", "image", r, "primeTag", t);
      case CanalCalico => CalicoHolds(r, t);
      case CanalFlannel | Flannel => ThreeHold("flannel", "image", r, "tag", t);
      case SnapshotController => ThreeHold("controller", "image", r, "tag", t);
      case ClusterAutoscaler => ThreeHold("autoscaler", "image", r, "tag", t);
      case _ =>
        ImageHolds(r, "tag", t);
        UnderHolds("image", Image(r, "tag", t), ["tag"], t);
        assert ["image"] + ["tag"] == ["image", "tag"];
    }
  }
}
