/** Nested Go maps on the heap: deepMerge as it runs, writing into the destination and grafting
    source maps into it by reference (internal/argocd/values.go). */
module GoMaps {
  import opened JsonTrees

  /** One entry: a value that is not a map, or a reference to a nested map. */
  datatype Entry = Plain(value: Json) | Nested(node: GoMap)

  class GoMap {
    var entries: map<string, Entry>

    constructor ()
      ensures entries == map[]
    {
      entries := map[];
    }
  }

  // ---------------------------------------------------------------- shapes of map trees

  /** Which map objects a nested map consists of: foot covers all of them. */
  datatype Shape = Shape(node: GoMap, foot: set<GoMap>, kids: map<string, Shape>)

  /** No map object is reached in two ways. */
  ghost predicate Distinct(s: Shape) {
    && s.node in s.foot
    && (forall k | k in s.kids :: s.kids[k].foot <= s.foot - {s.node} && Distinct(s.kids[k]))
    && (forall k, l | k in s.kids && l in s.kids && k != l :: s.kids[k].foot !! s.kids[l].foot)
  }

  /** The heap agrees with the shape. */
  ghost predicate Fits(s: Shape)
    requires Distinct(s)
    reads s.foot
    decreases s
  {
    && s.kids.Keys <= s.node.entries.Keys
    && (forall k | k in s.node.entries && k !in s.kids ::
          s.node.entries[k].Plain? && !s.node.entries[k].value.Obj?)
    && (forall k | k in s.kids :: s.node.entries[k] == Nested(s.kids[k].node) && Fits(s.kids[k]))
  }

  /** The tree a nested map stands for. */
  ghost function Tree(s: Shape): (j: Json)
    requires Distinct(s) && Fits(s)
    reads s.foot
    ensures j.Obj? && j.fields.Keys == s.node.entries.Keys
    decreases s
  {
    Obj(map k | k in s.node.entries ::
          if k in s.kids then Tree(s.kids[k]) else s.node.entries[k].value)
  }

  ghost predicate Good(s: Shape)
    reads s.foot
  {
    Distinct(s) && Fits(s)
  }

  /** The destination takes the map c under key. */
  ghost function Graft(s: Shape, key: string, c: Shape): Shape {
    Shape(s.node, s.foot + c.foot, s.kids[key := c])
  }

  /** The destination takes a plain value under key. */
  ghost function Cut(s: Shape, key: string): Shape {
    Shape(s.node, s.foot, s.kids - {key})
  }

  lemma GraftDistinct(s: Shape, key: string, c: Shape)
    requires Distinct(s) && Distinct(c) && s.node !in c.foot
    requires forall k | k in s.kids && k != key :: s.kids[k].foot !! c.foot
    ensures Distinct(Graft(s, key, c))
  {
  }

  lemma GraftKeepsOthers(s: Shape, key: string, c: Shape)
    ensures Graft(s, key, c).kids - {key} == s.kids - {key}
  {
  }

  lemma CutDistinct(s: Shape, key: string)
    requires Distinct(s)
    ensures Distinct(Cut(s, key)) && Cut(s, key).kids - {key} == s.kids - {key}
  {
  }

  /** A shape fits, and stands for the given fields, as soon as each of its entries does. */
  lemma Assemble(s: Shape, fields: map<string, Json>)
    requires Distinct(s) && s.kids.Keys <= s.node.entries.Keys == fields.Keys
    requires forall k | k in fields :: EntryIs(s, k, fields[k])
    ensures Good(s) && Tree(s) == Obj(fields)
  {
    assert Fits(s);
    assert Tree(s).fields == fields;
  }

  ghost predicate EntryIs(s: Shape, k: string, j: Json)
    requires Distinct(s) && k in s.node.entries
    reads s.foot
  {
    var e := s.node.entries[k];
    if k in s.kids then e == Nested(s.kids[k].node) && Good(s.kids[k]) && Tree(s.kids[k]) == j
    else e.Plain? && !e.value.Obj? && e.value == j
  }

  lemma EntryOf(s: Shape, k: string)
    requires Good(s) && k in s.node.entries
    ensures EntryIs(s, k, Tree(s).fields[k])
  {
  }

  // ---------------------------------------------------------------- deepMerge

  /** What the visit of one key leaves under that key. */
  ghost function MergedField(dst: Json, src: Json, key: string): Json
    requires dst.Obj? && src.Obj? && key in src.fields
  {
    if key in dst.fields then Merge(dst.fields[key], src.fields[key]) else src.fields[key]
  }

  /** acc is dst after the visits of all source keys but those in keys, in whatever order. */
  ghost predicate Visited(dst: Json, src: Json, keys: set<string>, acc: Json) {
    && dst.Obj? && src.Obj? && acc.Obj?
    && acc.fields.Keys == dst.fields.Keys + (src.fields.Keys - keys)
    && forall k | k in acc.fields ::
         acc.fields[k] == if k in src.fields && k !in keys then MergedField(dst, src, k) else dst.fields[k]
  }

  lemma VisitedStep(dst: Json, src: Json, keys: set<string>, acc: Json, key: string)
    requires Visited(dst, src, keys, acc) && key in keys && keys <= src.fields.Keys
    ensures Visited(dst, src, keys - {key}, Obj(acc.fields[key := MergedField(acc, src, key)]))
  {
    assert MergedField(acc, src, key) == MergedField(dst, src, key);
  }

  /** While the loop still has to visit keys: r keeps what d had there, and shares nothing with
      what s has there. */
  ghost predicate Pending(d: Shape, s: Shape, r: Shape, keys: set<string>) {
    && r.node == d.node && r.foot <= d.foot + s.foot
    && (forall k | k in keys :: k in r.kids <==> k in d.kids)
    && (forall k | k in keys && k in d.kids :: r.kids[k] == d.kids[k])
    && (forall k | k in keys && k in s.kids :: s.kids[k].foot !! r.foot)
  }

  lemma PendingStep(d: Shape, s: Shape, r: Shape, keys: set<string>, key: string, next: Shape)
    requires Distinct(s) && Pending(d, s, r, keys) && key in keys
    requires next.node == r.node && next.kids - {key} == r.kids - {key}
    requires next.foot <= r.foot + (if key in s.kids then s.kids[key].foot else {})
    ensures Pending(d, s, next, keys - {key})
  {
    forall k | k in keys - {key}
      ensures k in next.kids <==> k in d.kids
      ensures k in d.kids ==> next.kids[k] == d.kids[k]
    {
      assert k in next.kids - {key} <==> k in next.kids;
      assert k in next.kids ==> (next.kids - {key})[k] == next.kids[k];
    }
  }

  lemma VisitedAll(dst: Json, src: Json, acc: Json)
    requires Visited(dst, src, {}, acc)
    ensures acc == Merge(dst, src)
  {
    assert acc.fields == Merge(dst, src).fields;
  }

  lemma CutKeepsEntries(d: Shape, key: string, fields: map<string, Json>)
    requires Good(d) && Distinct(Cut(d, key)) && fields == Tree(d).fields
    ensures forall k | k in fields && k != key :: EntryIs(Cut(d, key), k, fields[k])
  {
    forall k | k in fields && k != key ensures EntryIs(Cut(d, key), k, fields[k]) {
      EntryOf(d, k);
    }
  }

  /** dst[key] = value, for a value that is not a map. */
  method StorePlain(dst: GoMap, key: string, value: Json, ghost d: Shape) returns (ghost r: Shape)
    requires d.node == dst && Good(d) && !value.Obj?
    modifies dst
    ensures r.node == dst && Good(r) && r.foot == d.foot && r.kids - {key} == d.kids - {key}
    ensures Tree(r) == Obj(old(Tree(d)).fields[key := value])
  {
    ghost var fields := Tree(d).fields[key := value];
    r := Cut(d, key);
    CutDistinct(d, key);
    CutKeepsEntries(d, key, Tree(d).fields);
    dst.entries := dst.entries[key := Plain(value)];
    forall k | k in fields && k != key ensures EntryIs(r, k, fields[k]) {
      assert old(EntryIs(r, k, fields[k]));
    }
    assert EntryIs(r, key, fields[key]);
    Assemble(r, fields);
  }

  lemma GraftKeepsEntries(d: Shape, key: string, c: Shape, fields: map<string, Json>)
    requires Good(d) && Distinct(Graft(d, key, c)) && fields == Tree(d).fields
    ensures forall k | k in fields && k != key :: EntryIs(Graft(d, key, c), k, fields[k])
  {
    forall k | k in fields && k != key ensures EntryIs(Graft(d, key, c), k, fields[k]) {
      EntryOf(d, k);
    }
  }

  /** dst[key] = value, for a map from elsewhere: only the reference is stored. */
  method StoreMap(dst: GoMap, key: string, value: GoMap, ghost d: Shape, ghost c: Shape)
    returns (ghost r: Shape)
    requires d.node == dst && Good(d)
    requires c.node == value && Good(c) && c.foot !! d.foot
    modifies dst
    ensures r.node == dst && Good(r) && r.foot == d.foot + c.foot && r.kids - {key} == d.kids - {key}
    ensures Tree(r) == Obj(old(Tree(d)).fields[key := old(Tree(c))])
  {
    ghost var fields := Tree(d).fields[key := Tree(c)];
    r := Graft(d, key, c);
    GraftDistinct(d, key, c);
    GraftKeepsOthers(d, key, c);
    GraftKeepsEntries(d, key, c, Tree(d).fields);
    dst.entries := dst.entries[key := Nested(value)];
    forall k | k in fields && k != key ensures EntryIs(r, k, fields[k]) {
      assert old(EntryIs(r, k, fields[k]));
    }
    assert EntryIs(r, key, fields[key]);
    Assemble(r, fields);
  }

  /** deepMerge: visits the source keys in an unspecified order, descends where both sides hold
      maps, and otherwise stores the source value itself, grafting nested maps by reference. */
  method DeepMerge(dst: GoMap, src: GoMap, ghost d: Shape, ghost s: Shape)
    returns (ghost r: Shape)
    requires d.node == dst && Good(d)
    requires s.node == src && Good(s)
    requires d.foot !! s.foot
    modifies d.foot
    ensures r.node == dst && r.foot <= d.foot + s.foot && Good(r)
    ensures Tree(r) == Merge(old(Tree(d)), old(Tree(s)))
    ensures Good(s) && Tree(s) == old(Tree(s))
    decreases s, 1
  {
    ghost var d0, s0 := Tree(d), Tree(s);
    var source := src.entries;
    var keys := source.Keys;
    r := d;
    while keys != {}
      invariant keys <= source.Keys
      invariant Good(r) && Pending(d, s, r, keys)
      invariant Visited(d0, s0, keys, Tree(r))
      decreases keys
    {
      var key :| key in keys;
      VisitedStep(d0, s0, keys, Tree(r), key);
      assert key in d.kids ==> d.kids[key].foot <= d.foot;
      ghost var next := VisitKey(dst, key, source[key], r, s);
      PendingStep(d, s, r, keys, key, next);
      r, keys := next, keys - {key};
    }
    VisitedAll(d0, s0, Tree(r));
  }

  /** One iteration of the loop of deepMerge. */
  method VisitKey(dst: GoMap, key: string, srcVal: Entry, ghost d: Shape, ghost s: Shape)
    returns (ghost r: Shape)
    requires d.node == dst && Good(d)
    requires Good(s) && key in s.node.entries && srcVal == s.node.entries[key]
    requires dst !in s.foot && (key in d.kids ==> d.kids[key].foot !! s.foot)
    requires key in s.kids ==> s.kids[key].foot !! d.foot
    modifies dst, if key in d.kids then d.kids[key].foot else {}
    ensures r.node == dst && Good(r)
    ensures r.foot <= d.foot + (if key in s.kids then s.kids[key].foot else {})
    ensures r.kids - {key} == d.kids - {key}
    ensures Tree(r) == Obj(old(Tree(d)).fields[key := MergedField(old(Tree(d)), old(Tree(s)), key)])
    decreases s, 0
  {
    if srcVal.Nested? {
      if key in dst.entries && dst.entries[key].Nested? {
        r := Descend(dst, key, srcVal.node, d, s.kids[key]);
      } else {
        r := StoreMap(dst, key, srcVal.node, d, s.kids[key]);
      }
    } else {
      r := StorePlain(dst, key, srcVal.value, d);
    }
  }

  /** The recursive call of deepMerge, below a key that holds maps on both sides. */
  method Descend(dst: GoMap, key: string, srcMap: GoMap, ghost d: Shape, ghost s: Shape)
    returns (ghost r: Shape)
    requires d.node == dst && Good(d) && key in d.kids
    requires s.node == srcMap && Good(s)
    requires d.foot !! s.foot
    modifies d.kids[key].foot
    ensures r.node == dst && r.foot <= d.foot + s.foot && Good(r)
    ensures r.kids - {key} == d.kids - {key}
    ensures Tree(r) == Obj(old(Tree(d)).fields[key := Merge(old(Tree(d)).fields[key], old(Tree(s)))])
    decreases s, 2
  {
    ghost var kid := d.kids[key];
    ghost var fields := Tree(d).fields;
    forall k | k in fields && k != key ensures EntryIs(d, k, fields[k]) {
      EntryOf(d, k);
    }
    ghost var c := DeepMerge(dst.entries[key].node, srcMap, kid, s);
    r := Graft(d, key, c);
    GraftDistinct(d, key, c);
    GraftKeepsOthers(d, key, c);
    fields := fields[key := Tree(c)];
    forall k | k in fields ensures EntryIs(r, k, fields[k]) {
      assert k != key ==> k in d.kids ==> d.kids[k].foot !! kid.foot;
    }
    Assemble(r, fields);
  }

  // ---------------------------------------------------------------- decoding and encoding

  /** Builds a fresh map tree, as decoding JSON or writing a map literal does. */
  method Build(j: Json) returns (m: GoMap, ghost s: Shape)
    requires j.Obj?
    ensures s.node == m && fresh(s.foot) && Good(s) && Tree(s) == j
    decreases j, 0
  {
    m := new GoMap();
    s := Shape(m, {m}, map[]);
    Assemble(s, map[]);
    ghost var nothing := Obj(map[]);
    var keys := j.fields.Keys;
    while keys != {}
      invariant keys <= j.fields.Keys
      invariant s.node == m && fresh(s.foot) && Good(s)
      invariant Visited(nothing, j, keys, Tree(s))
      decreases keys
    {
      var key :| key in keys;
      VisitedStep(nothing, j, keys, Tree(s), key);
      s := Put(m, key, j.fields[key], s);
      keys := keys - {key};
    }
    VisitedAll(nothing, j, Tree(s));
    assert Merge(nothing, j).fields == j.fields;
  }

  /** Stores a decoded value under key. */
  method Put(m: GoMap, key: string, value: Json, ghost d: Shape) returns (ghost r: Shape)
    requires d.node == m && Good(d)
    modifies m
    ensures r.node == m && Good(r) && fresh(r.foot - d.foot)
    ensures Tree(r) == Obj(old(Tree(d)).fields[key := value])
    decreases value, 1
  {
    if value.Obj? {
      var child, c := Build(value);
      r := StoreMap(m, key, child, d, c);
    } else {
      r := StorePlain(m, key, value, d);
    }
  }

  /** Reads a map tree back, as encoding it to JSON does. */
  function Encode(m: GoMap, ghost s: Shape): (j: Json)
    requires s.node == m && Good(s)
    reads s.foot
    ensures j == Tree(s)
    decreases s
  {
    var fields := map k | k in m.entries ::
                    if m.entries[k].Plain? then m.entries[k].value
                    else Encode(m.entries[k].node, s.kids[k]);
    assert fields == Tree(s).fields;
    Obj(fields)
  }
}
