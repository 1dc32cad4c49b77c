/** Helm values as trees, and the operations the patcher performs on them: override merge,
    structural subtraction, and the questions asked about generated leaves.

    Every law is stated for arbitrary trees; `Generated` is the only shape assumed of what the
    patcher itself writes. */
module Values {
  import opened Text

  // A decoded YAML value. `Other` holds scalars of any further type by their printed form.
  datatype Value =
    | Null
    | Bool(b: bool)
    | Int(i: int)
    | Str(s: string)
    | Other(text: string)
    | List(items: seq<Value>)
    | Map(entries: map<string, Value>)

  type Tree = v: Value | v.Map? witness Map(map[])

  const EMPTY: Tree := Map(map[])

  function Get(t: Tree, k: string): Option<Value> {
    if k in t.entries then Some(t.entries[k]) else None
  }

  // The map below a key; empty when there is none
  function Sub(t: Tree, k: string): Tree {
    if k in t.entries && t.entries[k].Map? then t.entries[k] else EMPTY
  }

  lemma SameTree(a: Tree, b: Tree)
    requires forall k :: Get(a, k) == Get(b, k)
    ensures a == b
  {
    assert forall k :: k in a.entries <==> Get(a, k).Some?;
    assert forall k :: k in b.entries <==> Get(b, k).Some?;
    assert forall k | k in a.entries :: a.entries[k] == Get(a, k).value;
    assert forall k | k in b.entries :: b.entries[k] == Get(b, k).value;
    assert a.entries == b.entries;
  }

  /* ---- Override merge ---- */

  // What a key holds after `o` is written over `x`
  function Overlay(x: Option<Value>, o: Value): Value
    decreases o, 1
  {
    if x.Some? && x.value.Map? && o.Map? then Merge(x.value, o) else o
  }

  function Merge(base: Tree, overlay: Tree): Tree
    decreases overlay, 0
  {
    Map(map k | k in base.entries.Keys + overlay.entries.Keys ::
      if k in overlay.entries then Overlay(Get(base, k), overlay.entries[k]) else base.entries[k])
  }

  lemma MergeAt(base: Tree, overlay: Tree, k: string)
    ensures Get(Merge(base, overlay), k) ==
            if k in overlay.entries then Some(Overlay(Get(base, k), overlay.entries[k])) else Get(base, k)
  {
  }

  /* ---- Structural subtraction ---- */

  // What is left of a value once the keys of `r` are removed; an emptied map disappears
  function Remainder(x: Value, r: Value): Option<Value>
    decreases r, 1
  {
    if x.Map? && r.Map? then
      var left := Subtract(x, r);
      if left == EMPTY then None else Some(left)
    else None
  }

  function Subtract(base: Tree, toRemove: Tree): Tree
    decreases toRemove, 0
  {
    Map(map k | k in base.entries &&
                (k in toRemove.entries ==> Remainder(base.entries[k], toRemove.entries[k]).Some?) ::
      if k in toRemove.entries then Remainder(base.entries[k], toRemove.entries[k]).value else base.entries[k])
  }

  lemma SubtractAt(base: Tree, toRemove: Tree, k: string)
    ensures Get(Subtract(base, toRemove), k) ==
            if k in base.entries && k in toRemove.entries then Remainder(base.entries[k], toRemove.entries[k])
            else Get(base, k)
  {
  }

  /* ---- Shapes ---- */

  // What the patcher renders: no empty map, and every leaf a non-blank string
  predicate Generated(g: Tree)
    decreases g
  {
    g.entries != map[] &&
    forall k | k in g.entries ::
      match g.entries[k]
      case Map(_) => Generated(g.entries[k])
      case Str(s) => !Blank(s)
      case _ => false
  }

  // No empty map anywhere
  predicate Solid(g: Tree)
    decreases g
  {
    g.entries != map[] && forall k | k in g.entries && g.entries[k].Map? :: Solid(g.entries[k])
  }

  // The same keys at every level, whatever the leaves hold
  predicate SameShape(g: Tree, h: Tree)
    decreases g
  {
    g.entries.Keys == h.entries.Keys &&
    forall k | k in g.entries ::
      g.entries[k].Map? == h.entries[k].Map? &&
      (g.entries[k].Map? ==> SameShape(g.entries[k], h.entries[k]))
  }

  // No leaf of one lies on a path of the other
  predicate Disjoint(g: Tree, h: Tree)
    decreases g
  {
    forall k | k in g.entries && k in h.entries ::
      g.entries[k].Map? && h.entries[k].Map? && Disjoint(g.entries[k], h.entries[k])
  }

  // Every leaf position of g is occupied in t
  predicate AllLeaves(t: Tree, g: Tree)
    decreases g
  {
    forall k | k in g.entries ::
      k in t.entries &&
      (g.entries[k].Map? ==> t.entries[k].Map? && AllLeaves(t.entries[k], g.entries[k]))
  }

  // No leaf position of g is occupied in t
  predicate NoLeaves(t: Tree, g: Tree)
    decreases g
  {
    forall k | k in g.entries ::
      if g.entries[k].Map? then NoLeaves(Sub(t, k), g.entries[k]) else k !in t.entries
  }

  // t and u hold the same value at every leaf position of g
  predicate AgreeOn(t: Tree, u: Tree, g: Tree)
    decreases g
  {
    forall k | k in g.entries ::
      if g.entries[k].Map? then AgreeOn(Sub(t, k), Sub(u, k), g.entries[k]) else Get(t, k) == Get(u, k)
  }

  // Nothing of t stands at, or in the way of, a leaf of g: no leaf value, no non-map on the way,
  // and no empty map on the way
  predicate Clean(t: Tree, g: Tree)
    decreases g
  {
    forall k | k in g.entries && k in t.entries ::
      g.entries[k].Map? && t.entries[k].Map? && t.entries[k] != EMPTY && Clean(t.entries[k], g.entries[k])
  }

  lemma {:induction false} DisjointFlips(g: Tree, h: Tree)
    requires Disjoint(g, h)
    ensures Disjoint(h, g)
    decreases g
  {
    forall k | k in g.entries && k in h.entries ensures Disjoint(h.entries[k], g.entries[k]) {
      DisjointFlips(g.entries[k], h.entries[k]);
    }
  }

  lemma {:induction false} SameShapeRefl(g: Tree)
    ensures SameShape(g, g)
    decreases g
  {
    forall k | k in g.entries && g.entries[k].Map? ensures SameShape(g.entries[k], g.entries[k]) {
      SameShapeRefl(g.entries[k]);
    }
  }

  lemma {:induction false} GeneratedIsSolid(g: Tree, h: Tree)
    requires Generated(g) && SameShape(g, h)
    ensures Solid(h)
    decreases g
  {
    assert h.entries.Keys != {} by { var k :| k in g.entries; assert k in h.entries.Keys; }
    forall k | k in h.entries && h.entries[k].Map? ensures Solid(h.entries[k]) {
      GeneratedIsSolid(g.entries[k], h.entries[k]);
    }
  }

  lemma {:induction false} AgreeFollowsShape(t: Tree, u: Tree, g: Tree, h: Tree)
    requires SameShape(g, h) && AgreeOn(t, u, g)
    ensures AgreeOn(t, u, h)
    decreases g
  {
    forall k | k in h.entries && h.entries[k].Map? ensures AgreeOn(Sub(t, k), Sub(u, k), h.entries[k]) {
      AgreeFollowsShape(Sub(t, k), Sub(u, k), g.entries[k], h.entries[k]);
    }
  }

  // A leaf of g occupied in t makes both questions settled by the shape alone
  lemma {:induction false} LeavesFollowShape(t: Tree, g: Tree, h: Tree)
    requires SameShape(g, h)
    ensures AllLeaves(t, g) == AllLeaves(t, h)
    ensures NoLeaves(t, g) == NoLeaves(t, h)
    decreases g
  {
    forall k | k in g.entries && g.entries[k].Map?
      ensures NoLeaves(Sub(t, k), g.entries[k]) == NoLeaves(Sub(t, k), h.entries[k])
      ensures AllLeaves(Sub(t, k), g.entries[k]) == AllLeaves(Sub(t, k), h.entries[k])
    {
      LeavesFollowShape(Sub(t, k), g.entries[k], h.entries[k]);
    }
    assert forall k | k in t.entries && t.entries[k].Map? :: Sub(t, k) == t.entries[k];
  }

  lemma {:induction false} AllLeavesOfEmpty(g: Tree)
    requires Generated(g)
    ensures !AllLeaves(EMPTY, g) && NoLeaves(EMPTY, g)
    decreases g
  {
    var k :| k in g.entries;
    forall j | j in g.entries && g.entries[j].Map? ensures NoLeaves(EMPTY, g.entries[j]) {
      AllLeavesOfEmpty(g.entries[j]);
    }
  }

  // The two answers exclude each other
  lemma {:induction false} NotBoth(t: Tree, g: Tree)
    requires Generated(g)
    ensures !(AllLeaves(t, g) && NoLeaves(t, g))
    decreases g
  {
    var k :| k in g.entries;
    if g.entries[k].Map? {
      NotBoth(Sub(t, k), g.entries[k]);
    }
  }

  lemma {:induction false} AgreementKeepsLeaves(t: Tree, u: Tree, g: Tree)
    requires AgreeOn(t, u, g) && Generated(g)
    ensures AllLeaves(t, g) ==> AllLeaves(u, g)
    ensures NoLeaves(t, g) ==> NoLeaves(u, g)
    decreases g
  {
    forall k | k in g.entries && g.entries[k].Map?
      ensures AllLeaves(Sub(t, k), g.entries[k]) ==> AllLeaves(Sub(u, k), g.entries[k])
      ensures NoLeaves(Sub(t, k), g.entries[k]) ==> NoLeaves(Sub(u, k), g.entries[k])
    {
      AgreementKeepsLeaves(Sub(t, k), Sub(u, k), g.entries[k]);
    }
    if AllLeaves(t, g) {
      forall k | k in g.entries
        ensures k in u.entries && (g.entries[k].Map? ==> u.entries[k].Map? && AllLeaves(u.entries[k], g.entries[k]))
      {
        if g.entries[k].Map? {
          assert Sub(t, k) == t.entries[k];
          AllLeavesOfEmpty(g.entries[k]);
        } else {
          assert Get(t, k) == Get(u, k);
        }
      }
    }
    if NoLeaves(t, g) {
      forall k | k in g.entries && !g.entries[k].Map? ensures k !in u.entries {
        assert Get(t, k) == Get(u, k);
      }
    }
  }

  /* ---- Laws of the merge ---- */

  lemma {:induction false} MergeIntoEmpty(g: Tree)
    ensures Merge(EMPTY, g) == g
  {
    forall k ensures Get(Merge(EMPTY, g), k) == Get(g, k) { MergeAt(EMPTY, g, k); }
    SameTree(Merge(EMPTY, g), g);
  }

  lemma {:induction false} MergedHasAllLeaves(t: Tree, g: Tree)
    ensures AllLeaves(Merge(t, g), g)
    ensures AgreeOn(Merge(t, g), g, g)
    decreases g
  {
    var m := Merge(t, g);
    forall k | k in g.entries
      ensures k in m.entries && (g.entries[k].Map? ==> m.entries[k].Map? && AllLeaves(m.entries[k], g.entries[k]))
      ensures if g.entries[k].Map? then AgreeOn(Sub(m, k), Sub(g, k), g.entries[k]) else Get(m, k) == Get(g, k)
    {
      MergeAt(t, g, k);
      if g.entries[k].Map? {
        MergeIntoEmpty(g.entries[k]);
        assert m.entries[k] == Merge(Sub(t, k), g.entries[k]);
        MergedHasAllLeaves(Sub(t, k), g.entries[k]);
      }
    }
  }

  lemma {:induction false} MergeIsIdempotent(t: Tree, g: Tree)
    ensures Merge(Merge(t, g), g) == Merge(t, g)
    decreases g
  {
    var m := Merge(t, g);
    forall k ensures Get(Merge(m, g), k) == Get(m, k) {
      MergeAt(t, g, k);
      MergeAt(m, g, k);
      if k in g.entries && g.entries[k].Map? {
        MergeIntoEmpty(g.entries[k]);
        MergeIsIdempotent(Sub(t, k), g.entries[k]);
      }
    }
    SameTree(Merge(m, g), m);
  }

  lemma {:induction false} MergeOfDisjointAgrees(t: Tree, g: Tree, h: Tree)
    requires Disjoint(g, h)
    ensures AgreeOn(t, Merge(t, h), g)
    decreases g
  {
    var m := Merge(t, h);
    forall k | k in g.entries
      ensures if g.entries[k].Map? then AgreeOn(Sub(t, k), Sub(m, k), g.entries[k]) else Get(t, k) == Get(m, k)
    {
      MergeAt(t, h, k);
      if g.entries[k].Map? {
        if k in h.entries {
          MergeIntoEmpty(h.entries[k]);
          assert Sub(m, k) == Merge(Sub(t, k), h.entries[k]);
          MergeOfDisjointAgrees(Sub(t, k), g.entries[k], h.entries[k]);
        } else {
          assert Sub(m, k) == Sub(t, k);
          AgreeRefl(Sub(t, k), g.entries[k]);
        }
      }
    }
  }

  lemma {:induction false} AgreeRefl(t: Tree, g: Tree)
    ensures AgreeOn(t, t, g)
    decreases g
  {
    forall k | k in g.entries && g.entries[k].Map? ensures AgreeOn(Sub(t, k), Sub(t, k), g.entries[k]) {
      AgreeRefl(Sub(t, k), g.entries[k]);
    }
  }

  // Two components of one chart can be patched in either order
  lemma {:induction false} DisjointMergesCommute(t: Tree, g: Tree, h: Tree)
    requires Disjoint(g, h)
    ensures Merge(Merge(t, g), h) == Merge(Merge(t, h), g)
    decreases g
  {
    var gh, hg := Merge(Merge(t, g), h), Merge(Merge(t, h), g);
    forall k ensures Get(gh, k) == Get(hg, k) {
      MergeAt(t, g, k);
      MergeAt(t, h, k);
      MergeAt(Merge(t, g), h, k);
      MergeAt(Merge(t, h), g, k);
      if k in g.entries && k in h.entries {
        MergeIntoEmpty(g.entries[k]);
        MergeIntoEmpty(h.entries[k]);
        DisjointMergesCommute(Sub(t, k), g.entries[k], h.entries[k]);
      }
    }
    SameTree(gh, hg);
  }

  /* ---- Laws of the subtraction ---- */

  lemma {:induction false} SubtractFollowsShape(t: Tree, g: Tree, h: Tree)
    requires SameShape(g, h)
    ensures Subtract(t, g) == Subtract(t, h)
    decreases g
  {
    forall k ensures Get(Subtract(t, g), k) == Get(Subtract(t, h), k) {
      SubtractAt(t, g, k);
      SubtractAt(t, h, k);
      if k in t.entries && k in g.entries && g.entries[k].Map? && t.entries[k].Map? {
        SubtractFollowsShape(t.entries[k], g.entries[k], h.entries[k]);
      }
    }
    SameTree(Subtract(t, g), Subtract(t, h));
  }

  lemma {:induction false} SubtractFromEmpty(g: Tree)
    ensures Subtract(EMPTY, g) == EMPTY
  {
    forall k ensures Get(Subtract(EMPTY, g), k) == Get(EMPTY, k) { SubtractAt(EMPTY, g, k); }
    SameTree(Subtract(EMPTY, g), EMPTY);
  }

  lemma {:induction false} SubtractIsIdempotent(t: Tree, g: Tree)
    ensures Subtract(Subtract(t, g), g) == Subtract(t, g)
    decreases g
  {
    var s := Subtract(t, g);
    forall k ensures Get(Subtract(s, g), k) == Get(s, k) {
      SubtractAt(t, g, k);
      SubtractAt(s, g, k);
      if k in t.entries && k in g.entries && g.entries[k].Map? && t.entries[k].Map? {
        SubtractIsIdempotent(t.entries[k], g.entries[k]);
      }
    }
    SameTree(Subtract(s, g), s);
  }

  // Reverts commute, whatever they remove: the order in which entries are visited is immaterial
  lemma {:induction false} SubtractionsCommute(t: Tree, g: Tree, h: Tree)
    ensures Subtract(Subtract(t, g), h) == Subtract(Subtract(t, h), g)
    decreases g
  {
    var gh, hg := Subtract(Subtract(t, g), h), Subtract(Subtract(t, h), g);
    forall k ensures Get(gh, k) == Get(hg, k) {
      SubtractAt(t, g, k);
      SubtractAt(t, h, k);
      SubtractAt(Subtract(t, g), h, k);
      SubtractAt(Subtract(t, h), g, k);
      if k in t.entries && t.entries[k].Map? && k in g.entries && g.entries[k].Map? && k in h.entries &&
          h.entries[k].Map?
      {
        SubtractionsCommute(t.entries[k], g.entries[k], h.entries[k]);
        SubtractFromEmpty(g.entries[k]);
        SubtractFromEmpty(h.entries[k]);
      }
    }
    SameTree(gh, hg);
  }

  lemma {:induction false} SubtractedHasNoLeaves(t: Tree, g: Tree)
    ensures NoLeaves(Subtract(t, g), g)
    decreases g
  {
    var s := Subtract(t, g);
    forall k | k in g.entries
      ensures if g.entries[k].Map? then NoLeaves(Sub(s, k), g.entries[k]) else k !in s.entries
    {
      SubtractAt(t, g, k);
      if g.entries[k].Map? {
        SubtractFromEmpty(g.entries[k]);
        assert Sub(s, k) == Subtract(Sub(t, k), g.entries[k]);
        SubtractedHasNoLeaves(Sub(t, k), g.entries[k]);
      }
    }
  }

  // Reverting one component leaves the values at every leaf of the other
  lemma {:induction false} SubtractOfDisjointAgrees(t: Tree, g: Tree, h: Tree)
    requires Disjoint(g, h)
    ensures AgreeOn(t, Subtract(t, h), g)
    decreases g
  {
    var s := Subtract(t, h);
    forall k | k in g.entries
      ensures if g.entries[k].Map? then AgreeOn(Sub(t, k), Sub(s, k), g.entries[k]) else Get(t, k) == Get(s, k)
    {
      SubtractAt(t, h, k);
      if g.entries[k].Map? {
        if k in h.entries {
          SubtractFromEmpty(h.entries[k]);
          assert Sub(s, k) == Subtract(Sub(t, k), h.entries[k]);
          SubtractOfDisjointAgrees(Sub(t, k), g.entries[k], h.entries[k]);
        } else {
          AgreeRefl(Sub(t, k), g.entries[k]);
        }
      }
    }
  }

  lemma {:induction false} SubtractSelf(g: Tree, h: Tree)
    requires SameShape(g, h)
    ensures Subtract(g, h) == EMPTY
    decreases g
  {
    forall k ensures Get(Subtract(g, h), k) == Get(EMPTY, k) {
      SubtractAt(g, h, k);
      if k in g.entries && g.entries[k].Map? {
        SubtractSelf(g.entries[k], h.entries[k]);
      }
    }
    SameTree(Subtract(g, h), EMPTY);
  }

  /* ---- Merge then subtract ---- */

  /** Patch then revert gives the tree back exactly when nothing of the tree stood at, or in the
      way of, a generated leaf. The revert may regenerate the values with other leaves. */
  lemma {:induction false} RestoresExactlyWhenClean(t: Tree, g: Tree, h: Tree)
    requires Generated(g) && SameShape(g, h)
    ensures Subtract(Merge(t, g), h) == t <==> Clean(t, g)
    decreases g
  {
    var m := Merge(t, g);
    var s := Subtract(m, h);
    forall k | k in g.entries
      ensures Get(s, k) == Get(t, k) <==>
              (k in t.entries ==> g.entries[k].Map? && t.entries[k].Map? && t.entries[k] != EMPTY &&
                                  Clean(t.entries[k], g.entries[k]))
    {
      MergeAt(t, g, k);
      SubtractAt(m, h, k);
      if g.entries[k].Map? {
        MergeIntoEmpty(g.entries[k]);
        SubtractSelf(g.entries[k], h.entries[k]);
        if k in t.entries && t.entries[k].Map? {
          RestoresExactlyWhenClean(t.entries[k], g.entries[k], h.entries[k]);
        }
      }
    }
    forall k | k !in g.entries ensures Get(s, k) == Get(t, k) {
      MergeAt(t, g, k);
      SubtractAt(m, h, k);
    }
    if Clean(t, g) {
      forall k ensures Get(s, k) == Get(t, k) { if k in g.entries { assert k in t.entries ==> g.entries[k].Map?; } }
      SameTree(s, t);
    }
  }

  /** A revert passes through another component's patch: reverting one of two disjoint components
      is the same before and after the other is patched. */
  lemma {:induction false} SubtractPassesThroughMerge(t: Tree, g: Tree, h: Tree)
    requires Disjoint(g, h) && Generated(g) && Generated(h)
    ensures Subtract(Merge(t, h), g) == Merge(Subtract(t, g), h)
    decreases g
  {
    var a, b := Subtract(Merge(t, h), g), Merge(Subtract(t, g), h);
    forall k ensures Get(a, k) == Get(b, k) {
      MergeAt(t, h, k);
      SubtractAt(t, g, k);
      SubtractAt(Merge(t, h), g, k);
      MergeAt(Subtract(t, g), h, k);
      if k in g.entries && k in h.entries {
        MergeIntoEmpty(h.entries[k]);
        SubtractFromEmpty(g.entries[k]);
        SubtractPassesThroughMerge(Sub(t, k), g.entries[k], h.entries[k]);
        MergeNotEmpty(Subtract(Sub(t, k), g.entries[k]), h.entries[k]);
      }
    }
    SameTree(a, b);
  }

  lemma MergeNotEmpty(t: Tree, g: Tree)
    requires Generated(g)
    ensures Merge(t, g) != EMPTY
  {
    var k :| k in g.entries;
    assert k in Merge(t, g).entries;
  }
}
