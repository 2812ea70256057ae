/** Decoded Helm values as immutable trees, the pure form of deepMerge
    (internal/argocd/values.go), and the algebra of that merge. Everything that
    is not an object is a leaf: deepMerge never looks inside a list. */
module JsonTrees {
  import opened Wrappers

  datatype Json =
    | Null
    | Bool(b: bool)
    | Num(text: string)
    | Str(s: string)
    | List(items: seq<Json>)
    | Obj(fields: map<string, Json>)

  type Path = seq<string>

  /** The meaning of merging src into dst: objects are merged field by field,
      any other source value replaces what is there. */
  function Merge(dst: Json, src: Json): Json
    decreases src
  {
    if dst.Obj? && src.Obj? then
      Obj(map k | k in dst.fields.Keys + src.fields.Keys ::
            if k !in src.fields then dst.fields[k]
            else if k !in dst.fields then src.fields[k]
            else Merge(dst.fields[k], src.fields[k]))
    else
      src
  }

  // ---------------------------------------------------------------- paths

  /** The subtree found by following object keys. */
  function At(j: Json, p: Path): Option<Json>
    decreases |p|
  {
    if p == [] then Some(j)
    else if j.Obj? && p[0] in j.fields then At(j.fields[p[0]], p[1..])
    else None
  }

  predicate LeafAt(j: Json, p: Path) {
    At(j, p).Some? && !At(j, p).value.Obj?
  }

  /** Some leaf of j lies at p, above p or below p. */
  ghost predicate LeafNear(j: Json, p: Path) {
    exists q :: LeafAt(j, q) && (q <= p || p <= q)
  }

  /** No object strictly below the root is empty. */
  predicate NoEmptyBelow(j: Json) {
    j.Obj? ==> forall k | k in j.fields :: NoEmpty(j.fields[k])
  }

  predicate NoEmpty(j: Json) {
    j.Obj? ==> j.fields != map[] && forall k | k in j.fields :: NoEmpty(j.fields[k])
  }

  /** A tree without empty objects ends in a leaf somewhere. */
  lemma {:induction false} SomeLeaf(j: Json) returns (p: Path)
    requires NoEmpty(j)
    ensures LeafAt(j, p)
  {
    if j.Obj? {
      var k :| k in j.fields;
      var rest := SomeLeaf(j.fields[k]);
      p := [k] + rest;
      assert p[1..] == rest;
    } else {
      p := [];
    }
  }

  lemma AtChild(j: Json, k: string, q: Path)
    requires j.Obj?
    ensures At(j, [k] + q) == if k in j.fields then At(j.fields[k], q) else None
  {
    assert ([k] + q)[1..] == q;
  }

  /** Looking for leaves near p means looking for leaves near the rest of p in the child. */
  lemma LeafNearChild(j: Json, p: Path)
    requires j.Obj? && p != []
    ensures LeafNear(j, p) <==> p[0] in j.fields && LeafNear(j.fields[p[0]], p[1..])
  {
    if LeafNear(j, p) {
      var q :| LeafAt(j, q) && (q <= p || p <= q);
      assert q != [] && q[0] == p[0];
      assert LeafAt(j.fields[q[0]], q[1..]);
      assert q[1..] <= p[1..] || p[1..] <= q[1..];
    }
    if p[0] in j.fields && LeafNear(j.fields[p[0]], p[1..]) {
      var r :| LeafAt(j.fields[p[0]], r) && (r <= p[1..] || p[1..] <= r);
      var q := [p[0]] + r;
      AtChild(j, p[0], r);
      assert LeafAt(j, q);
      assert q <= p || p <= q;
    }
  }

  /** Path law of precedence, one step. A value v that is not an object sits at p in the merge
      exactly when the source puts it there, or the destination has it there and no source leaf
      lies at, above or below p. This determines every leaf of the merge. */
  lemma {:induction false} MergeLeaf(dst: Json, src: Json, p: Path, v: Json)
    requires NoEmpty(src) || (dst.Obj? && src.Obj? && NoEmptyBelow(src))
    requires !v.Obj?
    ensures At(Merge(dst, src), p) == Some(v)
       <==> At(src, p) == Some(v) || (At(dst, p) == Some(v) && !LeafNear(src, p))
    decreases |p|
  {
    if !src.Obj? {
      assert LeafAt(src, []) && [] <= p;
    } else if !dst.Obj? {
      if At(dst, p) == Some(v) {
        assert p == [];
        var q := SomeLeaf(src);
        assert p <= q;
      }
    } else if p != [] {
      LeafNearChild(src, p);
      if p[0] in src.fields {
        if p[0] in dst.fields {
          MergeLeaf(dst.fields[p[0]], src.fields[p[0]], p[1..], v);
        }
      }
    }
  }

  // ---------------------------------------------------------------- when merging associates

  /** c overrides everything a says: merging c over a leaves nothing of a. */
  predicate Covers(c: Json, a: Json)
    decreases c
  {
    c.Obj? && a.Obj? ==>
      forall k | k in a.fields :: k in c.fields && Covers(c.fields[k], a.fields[k])
  }

  lemma {:induction false} CoversIffMergeForgets(c: Json, a: Json)
    ensures Covers(c, a) <==> Merge(a, c) == c
    decreases c
  {
    if c.Obj? && a.Obj? {
      forall k | k in a.fields && k in c.fields
        ensures Covers(c.fields[k], a.fields[k]) <==> Merge(a.fields[k], c.fields[k]) == c.fields[k]
      {
        CoversIffMergeForgets(c.fields[k], a.fields[k]);
      }
      var m := Merge(a, c);
      if Covers(c, a) {
        assert m.fields == c.fields;
      }
      if m == c {
        forall k | k in a.fields ensures k in c.fields && Covers(c.fields[k], a.fields[k]) {
          assert k in m.fields;
          assert m.fields[k] == c.fields[k];
        }
      }
    }
  }

  /** No path has objects in both outer operands and a non-object in the middle one, unless the
      last operand overrides all that the first one has there. */
  predicate Associates(a: Json, b: Json, c: Json)
    decreases c
  {
    if !c.Obj? || !a.Obj? then true
    else if !b.Obj? then Covers(c, a)
    else forall k | k in a.fields && k in b.fields && k in c.fields ::
           Associates(a.fields[k], b.fields[k], c.fields[k])
  }

  /** deepMerge is not associative in general; this is exactly when it is. */
  lemma {:induction false} MergeAssociativeIff(a: Json, b: Json, c: Json)
    ensures Merge(Merge(a, b), c) == Merge(a, Merge(b, c)) <==> Associates(a, b, c)
    decreases c
  {
    if c.Obj? && a.Obj? {
      if !b.Obj? {
        CoversIffMergeForgets(c, a);
      } else {
        forall k | k in a.fields && k in b.fields && k in c.fields
          ensures Merge(Merge(a.fields[k], b.fields[k]), c.fields[k])
               == Merge(a.fields[k], Merge(b.fields[k], c.fields[k]))
             <==> Associates(a.fields[k], b.fields[k], c.fields[k])
        {
          MergeAssociativeIff(a.fields[k], b.fields[k], c.fields[k]);
        }
        var l, r := Merge(Merge(a, b), c), Merge(a, Merge(b, c));
        assert l.fields.Keys == r.fields.Keys;
        if Associates(a, b, c) {
          assert l.fields == r.fields;
        }
        if l == r {
          forall k | k in a.fields && k in b.fields && k in c.fields
            ensures Associates(a.fields[k], b.fields[k], c.fields[k])
          {
            assert l.fields[k] == r.fields[k];
          }
        }
      }
    }
  }

  /** Object, scalar, object on one path: the grouping changes the outcome. */
  lemma AssociativityFails() returns (a: Json, b: Json, c: Json)
    ensures a.Obj? && b.Obj? && c.Obj?
    ensures Merge(Merge(a, b), c) != Merge(a, Merge(b, c))
  {
    var inner, outer := Obj(map["x" := Null]), Obj(map["y" := Null]);
    a, b, c := Obj(map["k" := inner]), Obj(map["k" := Null]), Obj(map["k" := outer]);
    assert "x" in inner.fields && "x" !in outer.fields;
    assert !Covers(outer, inner);
    assert !Associates(inner, Null, outer);
    assert a.fields["k"] == inner && b.fields["k"] == Null && c.fields["k"] == outer;
    assert !Associates(a, b, c);
    MergeAssociativeIff(a, b, c);
  }

  // ---------------------------------------------------------------- when merging commutes

  /** On every key that both trees carry they hold objects, down to disjoint leaves. */
  predicate LeafDisjoint(f: Json, g: Json)
    decreases f
  {
    f.Obj? && g.Obj? &&
    forall k | k in f.fields && k in g.fields :: LeafDisjoint(f.fields[k], g.fields[k])
  }

  /** f and g never disagree: on a shared key they are equal or both objects that agree. */
  predicate Agree(f: Json, g: Json)
    decreases f
  {
    f == g ||
    (f.Obj? && g.Obj? &&
     forall k | k in f.fields && k in g.fields :: Agree(f.fields[k], g.fields[k]))
  }

  lemma {:induction false} LeafDisjointAgree(f: Json, g: Json)
    requires LeafDisjoint(f, g)
    ensures Agree(f, g)
    decreases f
  {
    forall k | k in f.fields && k in g.fields ensures Agree(f.fields[k], g.fields[k]) {
      LeafDisjointAgree(f.fields[k], g.fields[k]);
    }
  }

  lemma {:induction false} AgreeIffMergeSymmetric(f: Json, g: Json)
    ensures Agree(f, g) <==> Merge(f, g) == Merge(g, f)
    decreases f
  {
    if f == g {
    } else if f.Obj? && g.Obj? {
      forall k | k in f.fields && k in g.fields
        ensures Agree(f.fields[k], g.fields[k])
           <==> Merge(f.fields[k], g.fields[k]) == Merge(g.fields[k], f.fields[k])
      {
        AgreeIffMergeSymmetric(f.fields[k], g.fields[k]);
      }
      var l, r := Merge(f, g), Merge(g, f);
      assert l.fields.Keys == r.fields.Keys;
      if Agree(f, g) {
        assert l.fields == r.fields;
      }
      if l == r {
        forall k | k in f.fields && k in g.fields ensures Agree(f.fields[k], g.fields[k]) {
          assert l.fields[k] == r.fields[k];
        }
      }
    }
  }

  lemma {:induction false} AgreeCommutesOver(base: Json, f: Json, g: Json)
    requires Agree(f, g)
    ensures Merge(Merge(base, f), g) == Merge(Merge(base, g), f)
    decreases f
  {
    if f != g && base.Obj? {
      forall k | k in base.fields && k in f.fields && k in g.fields
        ensures Merge(Merge(base.fields[k], f.fields[k]), g.fields[k])
             == Merge(Merge(base.fields[k], g.fields[k]), f.fields[k])
      {
        AgreeCommutesOver(base.fields[k], f.fields[k], g.fields[k]);
      }
      forall k | k in f.fields && k in g.fields
        ensures Merge(f.fields[k], g.fields[k]) == Merge(g.fields[k], f.fields[k])
      {
        AgreeIffMergeSymmetric(f.fields[k], g.fields[k]);
      }
      var l, r := Merge(Merge(base, f), g), Merge(Merge(base, g), f);
      assert l.fields.Keys == r.fields.Keys;
      assert l.fields == r.fields;
    } else if f != g {
      AgreeIffMergeSymmetric(f, g);
    }
  }

  ghost predicate Commutes(base: Json, f: Json, g: Json) {
    Merge(Merge(base, f), g) == Merge(Merge(base, g), f)
  }

  /** Two fragments may be layered in either order over every base exactly when they agree. */
  lemma CommuteIff(f: Json, g: Json)
    requires f.Obj? && g.Obj?
    ensures (forall base :: Commutes(base, f, g)) <==> Agree(f, g)
  {
    if Agree(f, g) {
      forall base ensures Commutes(base, f, g) {
        AgreeCommutesOver(base, f, g);
      }
    }
    if forall base :: Commutes(base, f, g) {
      assert Commutes(Null, f, g);
      assert Merge(Null, f) == f && Merge(Null, g) == g;
      AgreeIffMergeSymmetric(f, g);
    }
  }
}
