/** Decoded values as immutable trees, and the right-biased merge the layering of Helm values stands for. */
module ValueTree {
  import opened Wrappers

  /** Whatever is not a map with string keys: numbers, strings, lists, null. */
  type Scalar = string

  datatype Tree = Leaf(value: Scalar) | Node(kids: map<string, Tree>)

  type Path = seq<string>

  function Merge(dst: Tree, src: Tree): Tree
    decreases src
  {
    if dst.Node? && src.Node? then
      Node(map k | k in dst.kids.Keys + src.kids.Keys ::
        if k !in src.kids then dst.kids[k]
        else if k !in dst.kids then src.kids[k]
        else Merge(dst.kids[k], src.kids[k]))
    else src
  }

  function At(t: Tree, path: Path): Option<Tree> {
    if path == [] then Some(t)
    else if t.Node? && path[0] in t.kids then At(t.kids[path[0]], path[1..])
    else None
  }

  /** A leaf of the tree lies on the way to the path, before its end. */
  predicate LeafOnTheWay(t: Tree, path: Path) {
    if t.Leaf? then path != []
    else path != [] && path[0] in t.kids && LeafOnTheWay(t.kids[path[0]], path[1..])
  }

  /** Every leaf of src wins. */
  lemma {:induction false} SourceLeafWins(dst: Tree, src: Tree, path: Path)
    requires At(src, path).Some? && At(src, path).value.Leaf?
    ensures At(Merge(dst, src), path) == At(src, path)
    decreases src
  {
    if path != [] && dst.Node? && path[0] in dst.kids {
      SourceLeafWins(dst.kids[path[0]], src.kids[path[0]], path[1..]);
    }
  }

  /** A path that src neither has nor cuts off with a leaf keeps the value of dst. */
  lemma {:induction false} UntouchedPathKeepsValue(dst: Tree, src: Tree, path: Path)
    requires dst.Node? && src.Node?
    requires At(src, path) == None && !LeafOnTheWay(src, path)
    ensures At(Merge(dst, src), path) == At(dst, path)
    decreases src
  {
    var k := path[0];
    if k in src.kids {
      if k in dst.kids && dst.kids[k].Node? {
        UntouchedPathKeepsValue(dst.kids[k], src.kids[k], path[1..]);
      } else {
        SourceSubtreeIsAll(dst, src, path);
      }
    }
  }

  /** Where dst has no map to merge into, the subtree of src is taken as it is. */
  lemma SourceSubtreeIsAll(dst: Tree, src: Tree, path: Path)
    requires dst.Node? && src.Node? && path != [] && path[0] in src.kids
    requires path[0] in dst.kids ==> dst.kids[path[0]].Leaf?
    requires At(src, path) == None
    ensures At(Merge(dst, src), path) == None
    ensures |path| > 1 ==> At(dst, path) == None
  {
  }

  /** Merging a map with a copy of itself changes nothing. */
  lemma {:induction false} MergeIsIdempotent(t: Tree)
    ensures Merge(t, t) == t
    decreases t
  {
    if t.Node? {
      forall k | k in t.kids ensures Merge(t.kids[k], t.kids[k]) == t.kids[k] {
        MergeIsIdempotent(t.kids[k]);
      }
      assert Merge(t, t).kids == t.kids;
    }
  }

  lemma MergeWithEmpty(t: Tree)
    requires t.Node?
    ensures Merge(Node(map[]), t) == t && Merge(t, Node(map[])) == t
  {
    assert Merge(Node(map[]), t).kids == t.kids;
    assert Merge(t, Node(map[])).kids == t.kids;
  }

  /** Merging `env` over `base` hides all of `base`: every key of base is in env, and maps meet only such maps. */
  predicate Hidden(base: Tree, env: Tree)
    decreases base
  {
    base.Node? && env.Node? ==>
      forall k | k in base.kids :: k in env.kids && Hidden(base.kids[k], env.kids[k])
  }

  lemma {:induction false} HiddenIff(base: Tree, env: Tree)
    ensures Hidden(base, env) <==> Merge(base, env) == env
    decreases base
  {
    if base.Node? && env.Node? {
      forall k | k in base.kids && k in env.kids
        ensures Hidden(base.kids[k], env.kids[k]) <==> Merge(base.kids[k], env.kids[k]) == env.kids[k]
      {
        HiddenIff(base.kids[k], env.kids[k]);
      }
      if Hidden(base, env) {
        assert Merge(base, env).kids == env.kids;
      } else {
        var k :| k in base.kids && !(k in env.kids && Hidden(base.kids[k], env.kids[k]));
        assert k in Merge(base, env).kids;
      }
    }
  }

  /**
   The three layers regroup: wherever release puts a leaf between two maps, the map of base adds nothing to the map
   of env.
   */
  predicate Regroup(base: Tree, release: Tree, env: Tree)
    decreases base
  {
    if base.Leaf? || env.Leaf? then true
    else if release.Leaf? then Hidden(base, env)
    else forall k | k in base.kids && k in release.kids && k in env.kids ::
           Regroup(base.kids[k], release.kids[k], env.kids[k])
  }

  /** Folding the layers in either grouping gives the same values exactly when they regroup. */
  lemma {:induction false} MergeAssociatesIff(base: Tree, release: Tree, env: Tree)
    ensures Merge(Merge(base, release), env) == Merge(base, Merge(release, env)) <==> Regroup(base, release, env)
    decreases base
  {
    if base.Node? && env.Node? {
      if release.Leaf? {
        HiddenIff(base, env);
      } else {
        var left, right := Merge(Merge(base, release), env), Merge(base, Merge(release, env));
        assert left.kids.Keys == right.kids.Keys;
        forall k | k in left.kids
          ensures left.kids[k] == right.kids[k] <==>
                  (k in base.kids && k in release.kids && k in env.kids ==>
                     Regroup(base.kids[k], release.kids[k], env.kids[k]))
        {
          if k in base.kids && k in release.kids && k in env.kids {
            MergeAssociatesIff(base.kids[k], release.kids[k], env.kids[k]);
          }
        }
        if Regroup(base, release, env) {
          assert left.kids == right.kids;
        }
      }
    }
  }

  /** No path is a map in one tree and a leaf in the other. */
  predicate SameShape(a: Tree, b: Tree)
    decreases a
  {
    a.Node? == b.Node? &&
    (a.Node? ==> forall k | k in a.kids && k in b.kids :: SameShape(a.kids[k], b.kids[k]))
  }

  /** Layers that never disagree map against leaf can be folded in either grouping. */
  lemma {:induction false} AgreeingLayersAssociate(base: Tree, release: Tree, env: Tree)
    requires SameShape(base, release) && SameShape(release, env)
    ensures Regroup(base, release, env)
    ensures Merge(Merge(base, release), env) == Merge(base, Merge(release, env))
    decreases base
  {
    if base.Node? {
      forall k | k in base.kids && k in release.kids && k in env.kids
        ensures Regroup(base.kids[k], release.kids[k], env.kids[k])
      {
        AgreeingLayersAssociate(base.kids[k], release.kids[k], env.kids[k]);
      }
    }
    MergeAssociatesIff(base, release, env);
  }

  /** A leaf of release between a map of base and another map of env: the grouping shows. */
  lemma LeafBetweenMapsBreaksGrouping()
    ensures var base := Node(map["a" := Node(map["x" := Leaf("1")])]);
            var release := Node(map["a" := Leaf("5")]);
            var env := Node(map["a" := Node(map["y" := Leaf("2")])]);
            Merge(Merge(base, release), env) != Merge(base, Merge(release, env))
  {
    var base, release, env := Node(map["x" := Leaf("1")]), Leaf("5"), Node(map["y" := Leaf("2")]);
    assert !Hidden(base, env) by {
      assert "x" in base.kids && "x" !in env.kids;
    }
    assert !Regroup(Node(map["a" := base]), Node(map["a" := release]), Node(map["a" := env])) by {
      assert !Regroup(base, release, env);
      assert "a" in map["a" := base];
    }
    MergeAssociatesIff(Node(map["a" := base]), Node(map["a" := release]), Node(map["a" := env]));
  }
}

/** The merge as it is done: on mutable maps, in place, taking over sub-maps of the source. */
module HelmMerge {
  import opened Wrappers
  import opened ValueTree

  datatype Value = ScalarValue(value: Scalar) | MapValue(m: MapObject)

  class MapObject {
    var entries: map<string, Value>

    constructor ()
      ensures entries == map[]
    {
      entries := map[];
    }
  }

  /** The objects that hold a tree, frozen: which object each map is, and what it should contain. */
  datatype Shape = LeafShape(value: Scalar) | NodeShape(obj: MapObject, kids: map<string, Shape>)

  function TreeOf(s: Shape): Tree
    decreases s
  {
    match s
    case LeafShape(v) => Leaf(v)
    case NodeShape(_, kids) => Node(map k | k in kids :: TreeOf(kids[k]))
  }

  function ValueOf(s: Shape): Value {
    match s
    case LeafShape(v) => ScalarValue(v)
    case NodeShape(obj, _) => MapValue(obj)
  }

  /** The map shapes within a shape, itself included. */
  ghost function Nodes(s: Shape): (nodes: set<Shape>)
    ensures forall n | n in nodes :: n.NodeShape?
    decreases s
  {
    match s
    case LeafShape(_) => {}
    case NodeShape(_, kids) => {s} + set k, n | k in kids && n in Nodes(kids[k]) :: n
  }

  ghost function Foot(s: Shape): set<MapObject> {
    set n | n in Nodes(s) :: n.obj
  }

  lemma FootUnfolds(s: Shape)
    requires s.NodeShape?
    ensures s.obj in Foot(s)
    ensures forall k | k in s.kids :: Foot(s.kids[k]) <= Foot(s)
    ensures forall o | o in Foot(s) :: o == s.obj || exists k :: k in s.kids && o in Foot(s.kids[k])
  {
    assert s in Nodes(s);
    forall k, o | k in s.kids && o in Foot(s.kids[k]) ensures o in Foot(s) {
      var n :| n in Nodes(s.kids[k]) && n.obj == o;
      assert n in Nodes(s);
    }
    forall o | o in Foot(s) && o != s.obj ensures exists k :: k in s.kids && o in Foot(s.kids[k]) {
      var n :| n in Nodes(s) && n.obj == o;
      var k :| k in s.kids && n in Nodes(s.kids[k]);
      assert o in Foot(s.kids[k]);
    }
  }

  /** No map object occurs twice. */
  ghost predicate Separate(s: Shape)
    decreases s
  {
    s.NodeShape? ==>
      && (forall k | k in s.kids :: s.obj !in Foot(s.kids[k]) && Separate(s.kids[k]))
      && (forall j, k | j in s.kids && k in s.kids && j != k :: Foot(s.kids[j]) !! Foot(s.kids[k]))
  }

  function EntriesOf(s: Shape): map<string, Value>
    requires s.NodeShape?
  {
    map k | k in s.kids :: ValueOf(s.kids[k])
  }

  /** The objects contain what the shape says. */
  ghost predicate Held(s: Shape)
    reads Foot(s)
  {
    forall n | n in Nodes(s) :: n.obj.entries == EntriesOf(n)
  }

  /** What the objects hold once src is merged into dst: the maps of dst stay, new sub-maps are those of src. */
  function MergeShape(d: Shape, s: Shape): Shape
    decreases s
  {
    if d.NodeShape? && s.NodeShape? then
      NodeShape(d.obj, map k | k in d.kids.Keys + s.kids.Keys ::
        if k !in s.kids then d.kids[k]
        else if k !in d.kids then s.kids[k]
        else MergeShape(d.kids[k], s.kids[k]))
    else s
  }

  /** The shape of dst while only the keys in `done` are merged. */
  function Partial(d: Shape, s: Shape, done: set<string>): Shape
    requires d.NodeShape? && s.NodeShape?
  {
    NodeShape(d.obj, map k | k in d.kids.Keys + s.kids.Keys * done ::
      if k !in s.kids || k !in done then d.kids[k]
      else if k !in d.kids then s.kids[k]
      else MergeShape(d.kids[k], s.kids[k]))
  }

  lemma PartialBounds(d: Shape, s: Shape)
    requires d.NodeShape? && s.NodeShape?
    ensures Partial(d, s, {}) == d
    ensures Partial(d, s, s.kids.Keys) == MergeShape(d, s)
  {
    assert Partial(d, s, {}).kids == d.kids;
    assert Partial(d, s, s.kids.Keys).kids == MergeShape(d, s).kids;
  }

  lemma {:induction false} FootOfMerge(d: Shape, s: Shape)
    ensures Foot(MergeShape(d, s)) <= Foot(d) + Foot(s)
    decreases s
  {
    if d.NodeShape? && s.NodeShape? {
      forall k | k in d.kids && k in s.kids
        ensures Foot(MergeShape(d.kids[k], s.kids[k])) <= Foot(d.kids[k]) + Foot(s.kids[k])
      {
        FootOfMerge(d.kids[k], s.kids[k]);
      }
      FootUnfolds(d);
      FootUnfolds(s);
      FootUnfolds(MergeShape(d, s));
    }
  }

  lemma {:induction false} TreeOfMerge(d: Shape, s: Shape)
    ensures TreeOf(MergeShape(d, s)) == Merge(TreeOf(d), TreeOf(s))
    decreases s
  {
    if d.NodeShape? && s.NodeShape? {
      forall k | k in d.kids && k in s.kids
        ensures TreeOf(MergeShape(d.kids[k], s.kids[k])) == Merge(TreeOf(d.kids[k]), TreeOf(s.kids[k]))
      {
        TreeOfMerge(d.kids[k], s.kids[k]);
      }
      assert MergeShape(d, s).NodeShape?;
      assert TreeOf(MergeShape(d, s)).kids == Merge(TreeOf(d), TreeOf(s)).kids;
    }
  }

  lemma KidIsPart(s: Shape, k: string)
    requires s.NodeShape? && k in s.kids
    ensures Foot(s.kids[k]) <= Foot(s)
  {
    FootUnfolds(s);
  }

  /** Apart from the root, what dst holds under a key comes from the two sides under that key. */
  lemma FootOfKid(d: Shape, s: Shape, done: set<string>, k: string)
    requires d.NodeShape? && s.NodeShape? && k in Partial(d, s, done).kids
    ensures Foot(Partial(d, s, done).kids[k]) <= KidFoot(d, k) + KidFoot(s, k)
    ensures k !in done ==> Foot(Partial(d, s, done).kids[k]) == KidFoot(d, k)
    ensures KidFoot(d, k) <= Foot(d) && KidFoot(s, k) <= Foot(s)
  {
    FootUnfolds(d);
    FootUnfolds(s);
    if k in d.kids && k in s.kids {
      FootOfMerge(d.kids[k], s.kids[k]);
    }
  }

  ghost function KidFoot(s: Shape, k: string): set<MapObject>
    requires s.NodeShape?
  {
    if k in s.kids then Foot(s.kids[k]) else {}
  }

  /** Different keys reach different objects, none of them the root of dst. */
  lemma KidsAreApart(d: Shape, s: Shape, done: set<string>, j: string, k: string)
    requires d.NodeShape? && s.NodeShape? && Separate(d) && Separate(s) && Foot(d) !! Foot(s)
    requires j in Partial(d, s, done).kids && j != k
    ensures d.obj !in Foot(Partial(d, s, done).kids[j])
    ensures Foot(Partial(d, s, done).kids[j]) !! KidFoot(d, k)
    ensures Foot(Partial(d, s, done).kids[j]) !! KidFoot(s, k)
  {
    FootOfKid(d, s, done, j);
    assert KidFoot(d, j) !! KidFoot(d, k) && KidFoot(s, j) !! KidFoot(s, k);
    FootUnfolds(d);
    FootUnfolds(s);
    assert KidFoot(d, k) <= Foot(d) && KidFoot(s, k) <= Foot(s);
  }

  lemma {:induction false} MergeIsSeparate(d: Shape, s: Shape)
    requires Separate(d) && Separate(s) && Foot(d) !! Foot(s)
    ensures Separate(MergeShape(d, s))
    decreases s
  {
    if d.NodeShape? && s.NodeShape? {
      var m := Partial(d, s, s.kids.Keys);
      assert m.kids == MergeShape(d, s).kids;
      forall k | k in m.kids ensures Separate(m.kids[k]) && m.obj !in Foot(m.kids[k]) {
        KidsAreApart(d, s, s.kids.Keys, k, k + "'");
        if k in d.kids && k in s.kids {
          KidIsPart(d, k);
          KidIsPart(s, k);
          MergeIsSeparate(d.kids[k], s.kids[k]);
        }
      }
      forall j, k | j in m.kids && k in m.kids && j != k ensures Foot(m.kids[j]) !! Foot(m.kids[k]) {
        KidsAreApart(d, s, s.kids.Keys, j, k);
        FootOfKid(d, s, s.kids.Keys, k);
      }
    }
  }

  lemma HeldUnfolds(s: Shape)
    requires s.NodeShape?
    ensures Held(s) <==> s.obj.entries == EntriesOf(s) && forall k | k in s.kids :: Held(s.kids[k])
  {
    assert s in Nodes(s);
    forall k, n | k in s.kids && n in Nodes(s.kids[k]) ensures n in Nodes(s) {}
    if s.obj.entries == EntriesOf(s) && forall k | k in s.kids :: Held(s.kids[k]) {
      forall n | n in Nodes(s) && n != s ensures n.obj.entries == EntriesOf(n) {
        var k :| k in s.kids && n in Nodes(s.kids[k]);
        assert Held(s.kids[k]);
      }
    }
  }

  /** Key `k` of `now` replaced by its merge with what src has there. */
  function MergedAt(now: Shape, s: Shape, k: string): Shape
    requires now.NodeShape? && s.NodeShape? && k in s.kids
  {
    now.(kids := now.kids[k := if k in now.kids then MergeShape(now.kids[k], s.kids[k]) else s.kids[k]])
  }

  /** The sub-map of dst under `k` can change without anything else being touched. */
  ghost predicate Isolated(now: Shape, s: Shape, k: string)
    requires now.NodeShape? && s.NodeShape?
  {
    && KidFoot(now, k) + {now.obj} !! Foot(s)
    && now.obj !in KidFoot(now, k)
    && forall j | j in now.kids && j != k :: now.obj !in Foot(now.kids[j]) && Foot(now.kids[j]) !! KidFoot(now, k)
  }

  predicate BothMaps(now: Shape, s: Shape, k: string)
    requires now.NodeShape? && s.NodeShape? && k in s.kids
  {
    s.kids[k].NodeShape? && k in now.kids && now.kids[k].NodeShape?
  }

  lemma EntriesAfterKey(now: Shape, s: Shape, k: string)
    requires now.NodeShape? && s.NodeShape? && k in s.kids
    ensures EntriesOf(MergedAt(now, s, k)) ==
            if BothMaps(now, s, k) then EntriesOf(now) else EntriesOf(now)[k := ValueOf(s.kids[k])]
  {
  }

  /** What has to hold for the merged key to be held: the root's entries, the new value, and the others as before. */
  lemma HeldAfterKey(now: Shape, s: Shape, k: string)
    requires now.NodeShape? && s.NodeShape? && k in s.kids
    requires now.obj.entries == EntriesOf(MergedAt(now, s, k))
    requires Held(MergedAt(now, s, k).kids[k])
    requires forall j | j in now.kids && j != k :: Held(now.kids[j])
    ensures Held(MergedAt(now, s, k))
  {
    HeldUnfolds(MergedAt(now, s, k));
  }

  /** The objects of every other key, and those of src, as a set of existing objects away from those that change. */
  ghost predicate Elsewhere(objects: set<MapObject>, now: Shape, s: Shape, k: string)
    requires now.NodeShape? && s.NodeShape?
  {
    && objects !! {now.obj} + KidFoot(now, k)
    && (forall n | n in Nodes(s) :: n.obj in objects)
    && (forall j, n | j in now.kids && j != k && n in Nodes(now.kids[j]) :: n.obj in objects)
  }

  lemma OthersAreElsewhere(now: Shape, s: Shape, k: string)
    requires now.NodeShape? && s.NodeShape? && Isolated(now, s, k)
    ensures Elsewhere(Foot(s) + (Foot(now) - {now.obj} - KidFoot(now, k)), now, s, k)
  {
  }

  /** Both sides have a map under the key: it is merged in place, the root keeps its entries. */
  method MergeSubMap(dst: MapObject, k: string, v: MapObject, ghost now: Shape, ghost s: Shape, ghost others: set<MapObject>)
    requires now.NodeShape? && now.obj == dst && s.NodeShape? && k in s.kids && BothMaps(now, s, k)
    requires v == s.kids[k].obj && Separate(s.kids[k]) && Separate(now.kids[k])
    requires Isolated(now, s, k) && Elsewhere(others, now, s, k) && Held(now) && Held(s)
    modifies KidFoot(now, k)
    ensures Held(MergedAt(now, s, k)) && Held(s)
    decreases s, 0
  {
    HeldUnfolds(now);
    HeldUnfolds(s);
    FootUnfolds(s);
    EntriesAfterKey(now, s, k);
    DeepMerge(dst.entries[k].m, v, now.kids[k], s.kids[k]);
    assert forall j | j in now.kids && j != k :: Held(now.kids[j]);
    HeldAfterKey(now, s, k);
  }

  /** Otherwise the value of src is taken over, sub-maps included. */
  method TakeValue(dst: MapObject, k: string, v: Value, ghost now: Shape, ghost s: Shape, ghost others: set<MapObject>)
    requires now.NodeShape? && now.obj == dst && s.NodeShape? && k in s.kids && !BothMaps(now, s, k)
    requires v == ValueOf(s.kids[k])
    requires Isolated(now, s, k) && Elsewhere(others, now, s, k) && Held(now) && Held(s)
    modifies dst
    ensures Held(MergedAt(now, s, k)) && Held(s)
  {
    HeldUnfolds(now);
    HeldUnfolds(s);
    EntriesAfterKey(now, s, k);
    dst.entries := dst.entries[k := v];
    assert forall j | j in now.kids && j != k :: Held(now.kids[j]);
    HeldAfterKey(now, s, k);
  }

  /** One turn of the loop: merges key `k` of src into what dst holds by now. */
  method MergeKey(dst: MapObject, src: MapObject, k: string, ghost now: Shape, ghost s: Shape)
    requires now.NodeShape? && now.obj == dst && s.NodeShape? && s.obj == src && k in s.kids
    requires Separate(s.kids[k]) && (k in now.kids ==> Separate(now.kids[k]))
    requires Isolated(now, s, k) && Held(now) && Held(s)
    modifies {dst} + KidFoot(now, k)
    ensures Held(MergedAt(now, s, k)) && Held(s)
    decreases s, 1
  {
    HeldUnfolds(now);
    HeldUnfolds(s);
    OthersAreElsewhere(now, s, k);
    // Choosing the set makes it known that its objects exist already.
    ghost var others :| others == Foot(s) + (Foot(now) - {now.obj} - KidFoot(now, k));
    var v := src.entries[k];
    if v.MapValue? && k in dst.entries && dst.entries[k].MapValue? {
      MergeSubMap(dst, k, v.m, now, s, others);
    } else {
      TakeValue(dst, k, v, now, s, others);
    }
  }

  lemma PartialGrows(d: Shape, s: Shape, done: set<string>, k: string)
    requires d.NodeShape? && s.NodeShape? && k in s.kids && k !in done
    ensures MergedAt(Partial(d, s, done), s, k) == Partial(d, s, done + {k})
  {
  }

  lemma PartialStep(d: Shape, s: Shape, done: set<string>, k: string)
    requires d.NodeShape? && s.NodeShape? && Separate(d) && Separate(s) && Foot(d) !! Foot(s)
    requires k in s.kids && k !in done
    ensures var now := Partial(d, s, done);
            && Isolated(now, s, k)
            && (k in now.kids ==> k in d.kids && now.kids[k] == d.kids[k])
            && {now.obj} + KidFoot(now, k) <= Foot(d)
  {
    var now := Partial(d, s, done);
    FootUnfolds(d);
    assert Foot(d) !! Foot(s) && {now.obj} + KidFoot(now, k) <= Foot(d);
    forall j | j in now.kids && j != k
      ensures now.obj !in Foot(now.kids[j]) && Foot(now.kids[j]) !! KidFoot(now, k)
    {
      KidsAreApart(d, s, done, j, k);
    }
  }

  /**
   Merging src into dst in place: afterwards the objects of dst, together with the sub-maps taken over from src, hold
   the merged shape, and src itself is unchanged. The keys of src are visited in any order.
   */
  method DeepMerge(dst: MapObject, src: MapObject, ghost d: Shape, ghost s: Shape)
    requires d.NodeShape? && d.obj == dst && s.NodeShape? && s.obj == src
    requires Separate(d) && Separate(s) && Foot(d) !! Foot(s)
    requires Held(d) && Held(s)
    modifies Foot(d)
    ensures Held(MergeShape(d, s)) && Held(s)
    decreases s, 2
  {
    var todo := src.entries.Keys;
    HeldUnfolds(s);
    PartialBounds(d, s);
    ghost var done := {};
    while todo != {}
      invariant todo + done == s.kids.Keys && todo !! done
      invariant Held(s)
      invariant Held(Partial(d, s, done))
      decreases todo
    {
      var k :| k in todo;
      PartialStep(d, s, done, k);
      PartialGrows(d, s, done, k);
      MergeKey(dst, src, k, Partial(d, s, done), s);
      todo, done := todo - {k}, done + {k};
    }
    assert done == s.kids.Keys;
  }

  /**
   The merge of dst and src, seen as values: dst now holds the pure merge, in objects that were dst's or src's, and is
   again a tree without sharing.
   */
  lemma MergeRefinesValues(d: Shape, s: Shape)
    requires d.NodeShape? && s.NodeShape?
    requires Separate(d) && Separate(s) && Foot(d) !! Foot(s)
    ensures TreeOf(MergeShape(d, s)) == Merge(TreeOf(d), TreeOf(s))
    ensures MergeShape(d, s).NodeShape? && MergeShape(d, s).obj == d.obj
    ensures Separate(MergeShape(d, s)) && Foot(MergeShape(d, s)) <= Foot(d) + Foot(s)
  {
    TreeOfMerge(d, s);
    MergeIsSeparate(d, s);
    FootOfMerge(d, s);
  }

  /** The layers merged one over the other, from the empty map on; a skipped file is no layer. */
  function Fold(layers: seq<Option<Tree>>): Tree {
    if layers == [] then Node(map[])
    else
      var below := Fold(layers[..|layers| - 1]);
      match layers[|layers| - 1]
      case None => below
      case Some(t) => Merge(below, t)
  }

  /** The layer has nothing at the path, and no leaf on the way to it. */
  predicate LeavesAlone(layer: Option<Tree>, path: Path) {
    layer.Some? ==> layer.value.Node? && At(layer.value, path) == None && !LeafOnTheWay(layer.value, path)
  }

  lemma {:induction false} FoldIsMap(layers: seq<Option<Tree>>)
    requires forall l | l in layers :: l.Some? ==> l.value.Node?
    ensures Fold(layers).Node?
  {
    if layers != [] {
      FoldIsMap(layers[..|layers| - 1]);
    }
  }

  /** The effective value at a path is that of the last layer with a leaf there, when no later layer touches the path. */
  lemma {:induction false} LastLayerDecides(layers: seq<Option<Tree>>, i: nat, path: Path)
    requires i < |layers| && layers[i].Some? && forall l | l in layers :: l.Some? ==> l.value.Node?
    requires At(layers[i].value, path).Some? && At(layers[i].value, path).value.Leaf?
    requires forall j | i < j < |layers| :: LeavesAlone(layers[j], path)
    ensures At(Fold(layers), path) == At(layers[i].value, path)
  {
    var last := |layers| - 1;
    var below := Fold(layers[..last]);
    if i == last {
      SourceLeafWins(below, layers[last].value, path);
    } else {
      LastLayerDecides(layers[..last], i, path);
      FoldIsMap(layers[..last]);
      assert LeavesAlone(layers[last], path);
      if layers[last].Some? {
        UntouchedPathKeepsValue(below, layers[last].value, path);
      }
    }
  }

  function TreesOf(shapes: seq<Option<Shape>>): seq<Option<Tree>> {
    seq(|shapes|, i requires 0 <= i < |shapes| => if shapes[i].Some? then Some(TreeOf(shapes[i].value)) else None)
  }

  ghost function LayerFoot(shape: Option<Shape>): set<MapObject> {
    if shape.Some? then Foot(shape.value) else {}
  }

  /** The decoded files: a map object each, or none for a file that is empty or cannot be parsed. */
  ghost predicate AreLayers(layers: seq<Option<MapObject>>, shapes: seq<Option<Shape>>, world: set<MapObject>)
    reads world
  {
    && |layers| == |shapes|
    && (forall i | 0 <= i < |layers| :: LayerFoot(shapes[i]) <= world)
    && (forall i | 0 <= i < |layers| :: layers[i].Some? == shapes[i].Some?)
    && (forall i | 0 <= i < |layers| && layers[i].Some? ::
          shapes[i].value.NodeShape? && shapes[i].value.obj == layers[i].value && Separate(shapes[i].value))
    && (forall i, j | 0 <= i < j < |layers| :: LayerFoot(shapes[i]) !! LayerFoot(shapes[j]))
  }

  lemma FoldPush(shapes: seq<Option<Shape>>, i: nat)
    requires i < |shapes|
    ensures Fold(TreesOf(shapes[..i + 1])) ==
            if shapes[i].None? then Fold(TreesOf(shapes[..i]))
            else Merge(Fold(TreesOf(shapes[..i])), TreeOf(shapes[i].value))
  {
    assert TreesOf(shapes[..i + 1])[..i] == TreesOf(shapes[..i]);
  }

  /** The values of the release: all files folded into one map that starts out empty. */
  method LayerValues(layers: seq<Option<MapObject>>, ghost shapes: seq<Option<Shape>>, ghost world: set<MapObject>)
    returns (merged: MapObject, ghost m: Shape)
    requires AreLayers(layers, shapes, world)
    requires forall i | 0 <= i < |shapes| && shapes[i].Some? :: Held(shapes[i].value)
    modifies world
    ensures fresh(merged) && m.NodeShape? && m.obj == merged && Separate(m) && Held(m)
    ensures TreeOf(m) == Fold(TreesOf(shapes))
  {
    merged := new MapObject();
    m := NodeShape(merged, map[]);
    for i := 0 to |layers|
      invariant fresh(merged) && m.NodeShape? && m.obj == merged && Separate(m) && Held(m)
      invariant Foot(m) <= {merged} + world
      invariant forall j | i <= j < |layers| :: LayerFoot(shapes[j]) !! Foot(m)
      invariant forall j | i <= j < |layers| && shapes[j].Some? :: Held(shapes[j].value)
      invariant TreeOf(m) == Fold(TreesOf(shapes[..i]))
    {
      FoldPush(shapes, i);
      if layers[i].Some? {
        MergeRefinesValues(m, shapes[i].value);
        DeepMerge(merged, layers[i].value, m, shapes[i].value);
        m := MergeShape(m, shapes[i].value);
      }
    }
    assert shapes[..|shapes|] == shapes;
  }
}
