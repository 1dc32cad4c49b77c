/** The ten supported components, the charts they belong to, and the values the patcher generates
    for each of them. */
module Components {
  import opened Text
  import opened Values

  datatype ComponentId =
    | Traefik | IngressNginx | CoreDns | DnsNodeCache | MetricsServer
    | Flannel | CanalCalico | CanalFlannel | ClusterAutoscaler | SnapshotController

  datatype Chart =
    | TraefikChart | IngressNginxChart | CoreDnsChart | MetricsServerChart
    | FlannelChart | CanalChart | SnapshotControllerChart

  // components.Supported
  const SUPPORTED: set<ComponentId> := {
    Traefik, IngressNginx, CoreDns, DnsNodeCache, MetricsServer,
    Flannel, CanalCalico, CanalFlannel, ClusterAutoscaler, SnapshotController
  }

  function ChartOf(c: ComponentId): Chart {
    match c
    case Traefik => TraefikChart
    case IngressNginx => IngressNginxChart
    case CoreDns | DnsNodeCache | ClusterAutoscaler => CoreDnsChart
    case MetricsServer => MetricsServerChart
    case Flannel => FlannelChart
    case CanalCalico | CanalFlannel => CanalChart
    case SnapshotController => SnapshotControllerChart
  }

  function Repository(c: ComponentId): string {
    match c
    case Traefik => "rancher/hardened-traefik"
    case IngressNginx => "rancher/nginx-ingress-controller"
    case CoreDns => "rancher/hardened-coredns"
    case DnsNodeCache => "rancher/hardened-dns-node-cache"
    case MetricsServer => "rancher/hardened-k8s-metrics-server"
    case Flannel | CanalFlannel => "rancher/hardened-flannel"
    case CanalCalico => "rancher/hardened-calico"
    case ClusterAutoscaler => "rancher/hardened-cluster-autoscaler"
    case SnapshotController => "rancher/hardened-snapshot-controller"
  }

  function Image(repository: string, tagKey: string, tag: string): Tree {
    Map(map["repository" := Str(repository), tagKey := Str(tag)])
  }

  function Under(key: string, t: Tree): Tree {
    Map(map[key := t])
  }

  function CalicoImages(image: Tree): Tree {
    Map(map["cniImage" := image, "nodeImage" := image, "flexvolImage" := image, "kubeControllerImage" := image])
  }

  // The values written for a component (the YAML that renderValuesContent prints)
  function GeneratedValues(c: ComponentId, repository: string, tag: string): Tree {
    match c
    case IngressNginx => Under("controller", Under("image", Image(repository, "primeTag", tag)))
    case CanalCalico => Under("calico", CalicoImages(Image(repository, "tag", tag)))
    case CanalFlannel | Flannel => Under("flannel", Under("image", Image(repository, "tag", tag)))
    case SnapshotController => Under("controller", Under("image", Image(repository, "tag", tag)))
    case ClusterAutoscaler => Under("autoscaler", Under("image", Image(repository, "tag", tag)))
    case _ => Under("image", Image(repository, "tag", tag))
  }

  // The value paths holding the tag, sorted as ImageTagPaths returns them
  function TagPaths(c: ComponentId): (paths: seq<seq<string>>)
    ensures paths != [] && forall p | p in paths :: |p| > 1
  {
    match c
    case IngressNginx => [["controller", "image", "primeTag"]]
    case CanalCalico => [
      ["calico", "cniImage", "tag"], ["calico", "flexvolImage", "tag"],
      ["calico", "kubeControllerImage", "tag"], ["calico", "nodeImage", "tag"]]
    case CanalFlannel | Flannel => [["flannel", "image", "tag"]]
    case SnapshotController => [["controller", "image", "tag"]]
    case ClusterAutoscaler => [["autoscaler", "image", "tag"]]
    case _ => [["image", "tag"]]
  }

  // The shape of a component's values; the leaves are placeholders
  const PLACEHOLDER := "revert"

  function Shape(c: ComponentId): Tree {
    GeneratedValues(c, Repository(c), PLACEHOLDER)
  }

  // No other supported component writes a leaf of this one
  predicate PathDisjoint(c: ComponentId) {
    c != CoreDns && c != DnsNodeCache
  }

  lemma ImageIsGenerated(repository: string, tagKey: string, tag: string)
    requires !Blank(repository) && !Blank(tag)
    ensures Generated(Image(repository, tagKey, tag))
  {
    assert "repository" in Image(repository, tagKey, tag).entries;
  }

  lemma UnderIsGenerated(key: string, t: Tree)
    requires Generated(t)
    ensures Generated(Under(key, t))
  {
    assert key in Under(key, t).entries;
  }

  lemma CalicoImagesAreGenerated(t: Tree)
    requires Generated(t)
    ensures Generated(CalicoImages(t))
  {
    assert "cniImage" in CalicoImages(t).entries;
  }

  lemma GeneratedIsGenerated(c: ComponentId, repository: string, tag: string)
    requires !Blank(repository) && !Blank(tag)
    ensures Generated(GeneratedValues(c, repository, tag))
  {
    hide Generated;
    hide Image;
    hide Under;
    hide CalicoImages;
    ImageIsGenerated(repository, "tag", tag);
    ImageIsGenerated(repository, "primeTag", tag);
    CalicoImagesAreGenerated(Image(repository, "tag", tag));
    UnderIsGenerated("calico", CalicoImages(Image(repository, "tag", tag)));
    UnderIsGenerated("image", Image(repository, "tag", tag));
    UnderIsGenerated("image", Image(repository, "primeTag", tag));
    UnderIsGenerated("controller", Under("image", Image(repository, "primeTag", tag)));
    UnderIsGenerated("controller", Under("image", Image(repository, "tag", tag)));
    UnderIsGenerated("flannel", Under("image", Image(repository, "tag", tag)));
    UnderIsGenerated("autoscaler", Under("image", Image(repository, "tag", tag)));
  }

  lemma ImagesShareShape(r: string, s: string, tagKey: string, t: string, u: string)
    ensures SameShape(Image(r, tagKey, t), Image(s, tagKey, u))
  {
  }

  lemma UnderSharesShape(key: string, t: Tree, u: Tree)
    requires SameShape(t, u)
    ensures SameShape(Under(key, t), Under(key, u))
  {
  }

  lemma CalicoImagesShareShape(t: Tree, u: Tree)
    requires SameShape(t, u)
    ensures SameShape(CalicoImages(t), CalicoImages(u))
  {
    assert CalicoImages(t).entries.Keys == {"cniImage", "nodeImage", "flexvolImage", "kubeControllerImage"};
    assert CalicoImages(u).entries.Keys == {"cniImage", "nodeImage", "flexvolImage", "kubeControllerImage"};
  }

  // One shape for each component, whatever the leaves
  lemma ShapeIgnoresLeaves(c: ComponentId, r: string, t: string, s: string, u: string)
    ensures SameShape(GeneratedValues(c, r, t), GeneratedValues(c, s, u))
  {
    var i, j := Image(r, "tag", t), Image(s, "tag", u);
    ImagesShareShape(r, s, "tag", t, u);
    match c
    case IngressNginx =>
      ImagesShareShape(r, s, "primeTag", t, u);
      UnderSharesShape("image", Image(r, "primeTag", t), Image(s, "primeTag", u));
      UnderSharesShape("controller", Under("image", Image(r, "primeTag", t)), Under("image", Image(s, "primeTag", u)));
    case CanalCalico =>
      CalicoImagesShareShape(i, j);
      UnderSharesShape("calico", CalicoImages(i), CalicoImages(j));
    case _ =>
      UnderSharesShape("image", i, j);
      UnderSharesShape("flannel", Under("image", i), Under("image", j));
      UnderSharesShape("controller", Under("image", i), Under("image", j));
      UnderSharesShape("autoscaler", Under("image", i), Under("image", j));
  }

  lemma RepositoriesAreNotBlank(c: ComponentId)
    ensures !Blank(Repository(c)) && !Blank(PLACEHOLDER)
  {
    hide Blank;
    assert Repository(c)[0] == 'r' && PLACEHOLDER[0] == 'r' && !IsSpace('r');
    NotBlank(Repository(c));
    NotBlank(PLACEHOLDER);
  }

  lemma ShapeIsGenerated(c: ComponentId)
    ensures Generated(Shape(c))
  {
    RepositoriesAreNotBlank(c);
    GeneratedIsGenerated(c, Repository(c), PLACEHOLDER);
  }

  lemma DifferentKeysAreDisjoint(k: string, t: Tree, l: string, u: Tree)
    requires k != l
    ensures Disjoint(Under(k, t), Under(l, u))
  {
  }

  lemma SharedLeafIsNotDisjoint(r: string, s: string, t: string, u: string)
    ensures !Disjoint(Under("image", Image(r, "tag", t)), Under("image", Image(s, "tag", u)))
  {
    var i, j := Image(r, "tag", t), Image(s, "tag", u);
    assert "repository" in i.entries && "repository" in j.entries;
    assert !Disjoint(i, j) by { assert !i.entries["repository"].Map?; }
    assert "image" in Under("image", i).entries && "image" in Under("image", j).entries;
  }

  lemma KeysDiffer()
    ensures "calico" != "flannel" && "autoscaler" != "image"
    ensures "repository" != "tag" && "repository" != "primeTag"
  {
    assert |"calico"| == 6 && |"flannel"| == 7 && |"autoscaler"| == 10 && |"image"| == 5;
    assert |"repository"| == 10 && |"tag"| == 3 && |"primeTag"| == 8;
  }

  /** Components of one chart have disjoint values, except rke2-coredns and rke2-dns-node-cache. */
  lemma OnlyCoreDnsAndNodeCacheOverlap(c: ComponentId, d: ComponentId)
    requires c != d && ChartOf(c) == ChartOf(d)
    ensures Disjoint(Shape(c), Shape(d)) <==> (PathDisjoint(c) || PathDisjoint(d))
  {
    KeysDiffer();
    hide Disjoint;
    hide Image;
    hide Under;
    hide CalicoImages;
    if c.CanalCalico? || c.CanalFlannel? {
      DifferentKeysAreDisjoint("calico", CalicoImages(Image(Repository(CanalCalico), "tag", PLACEHOLDER)),
                               "flannel", Under("image", Image(Repository(CanalFlannel), "tag", PLACEHOLDER)));
    } else if c.ClusterAutoscaler? || d.ClusterAutoscaler? {
      var e := if c.ClusterAutoscaler? then d else c;
      DifferentKeysAreDisjoint("autoscaler", Under("image", Image(Repository(ClusterAutoscaler), "tag", PLACEHOLDER)),
                               "image", Image(Repository(e), "tag", PLACEHOLDER));
    } else {
      SharedLeafIsNotDisjoint(Repository(c), Repository(d), PLACEHOLDER, PLACEHOLDER);
    }
    if Disjoint(Shape(d), Shape(c)) { DisjointFlips(Shape(d), Shape(c)); }
  }

  lemma PathDisjointMeans(c: ComponentId, d: ComponentId)
    requires PathDisjoint(c) && c != d && ChartOf(c) == ChartOf(d)
    ensures Disjoint(Shape(c), Shape(d)) && Disjoint(Shape(d), Shape(c))
  {
    OnlyCoreDnsAndNodeCacheOverlap(c, d);
    DisjointFlips(Shape(c), Shape(d));
  }

  /* ---- Image names ---- */

  // Drops a leading registry host: the part before the first slash, if it looks like a host
  function WithoutRegistry(image: string): string {
    var slash := Find(image, '/');
    if slash == |image| then image
    else
      var first := ToLower(image[..slash]);
      if '.' in first || ':' in first || first == "localhost" then image[slash + 1..] else image
  }

  lemma {:induction false} FirstSlash(first: string, rest: string)
    requires '/' !in first
    ensures Find(first + "/" + rest, '/') == |first| && Find(first, '/') == |first|
    decreases |first|
  {
    if first != "" {
      assert (first + "/" + rest)[1..] == first[1..] + "/" + rest;
      FirstSlash(first[1..], rest);
    }
  }

  /** A leading host, which has a dot or a colon in it or is localhost, is dropped; any other first part
      stays, and so does a name of one part. */
  lemma WithoutRegistryMeans(first: string, rest: string)
    requires '/' !in first
    ensures WithoutRegistry(first) == first
    ensures WithoutRegistry(first + "/" + rest) ==
            if '.' in first || ':' in first || ToLower(first) == "localhost" then rest else first + "/" + rest
  {
    var image := first + "/" + rest;
    FirstSlash(first, rest);
    assert image[..|first|] == first && image[|first| + 1..] == rest;
    LowerKeeps(first, '.');
    LowerKeeps(first, ':');
    hide Find;
  }

  // Lower case touches no punctuation
  lemma LowerKeeps(s: string, c: char)
    requires c == '.' || c == ':'
    ensures c in ToLower(s) <==> c in s
  {
    if c in s {
      var i :| 0 <= i < |s| && s[i] == c;
      assert ToLower(s)[i] == c;
    }
    if c in ToLower(s) {
      var i :| 0 <= i < |s| && ToLower(s)[i] == c;
      assert s[i] == c;
    }
  }
}
