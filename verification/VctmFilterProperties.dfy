/** What the VCTM filter keeps and what it drops, stated over the set of
    declared paths rather than over the tree. */
module VctmFilterProperties {
  import opened ClaimValues
  import opened VctmFilter
  import opened Wrappers

  /** What is declared beneath member `k`. */
  ghost function Beneath(declared: set<Path>, k: string): set<Path> {
    set path: Path | path in declared && |path| > 0 && path[0] == k :: path[1..]
  }

  lemma InBeneath(declared: set<Path>, k: string, path: Path)
    ensures path in Beneath(declared, k) <==> [k] + path in declared
  {
    assert ([k] + path)[1..] == path;
    if path in Beneath(declared, k) {
      var whole: Path :| whole in declared && |whole| > 0 && whole[0] == k && whole[1..] == path;
      assert whole == [k] + path;
    }
  }

  lemma HoldsBeneath(node: AllowNode, declared: set<Path>, k: string)
    requires Holds(node, declared)
    ensures k in node.children ==> Holds(node.children[k], Beneath(declared, k))
    ensures k !in node.children ==> Beneath(declared, k) == {}
  {
    forall path
      ensures k in node.children && LeafAt(node.children[k], path) <==> path in Beneath(declared, k)
    {
      InBeneath(declared, k, path);
      assert ([k] + path)[1..] == path;
      assert LeafAt(node, [k] + path) <==> [k] + path in declared;
    }
  }

  // ----- soundness -----

  /** `r` is `v`, up to the normalisation of a string slice. */
  ghost predicate Same(v: Value, r: Value) {
    r == v || (v.Strings? && r == Array(Items(v)))
  }

  /** `r` is what remains of `v` when members and elements are dropped, and every
      part kept whole lies at a declared path. */
  ghost predicate Justified(v: Value, declared: set<Path>, r: Value)
    decreases r, 1
  {
    || ([] in declared && Same(v, r))
    || (v.Object? && r.Object? &&
        forall k :: k in r.fields ==>
          k in v.fields && Justified(v.fields[k], Beneath(declared, k), r.fields[k]))
    || (IsArray(v) && r.Array? && JustifiedItems(Items(v), Beneath(declared, WILDCARD), r.items))
  }

  /** `rs` are justified remains of some of `vs`, in order. */
  ghost predicate JustifiedItems(vs: seq<Value>, declared: set<Path>, rs: seq<Value>)
    decreases rs, 2, |vs|
  {
    || rs == []
    || (vs != [] && JustifiedItems(vs[1..], declared, rs))
    || (vs != [] && Justified(vs[0], declared, rs[0]) && JustifiedItems(vs[1..], declared, rs[1..]))
  }

  lemma {:induction false} KeptIsJustified(v: Value, node: AllowNode, declared: set<Path>)
    requires Holds(node, declared)
    ensures match FilterValue(v, node) case Some(r) => Justified(v, declared, r) case None => true
    decreases node, 2
  {
    assert LeafAt(node, []) <==> [] in declared;
    if node.leaf && node.children == map[] {
    } else if v.Object? {
      if !node.leaf {
        KeptMembersAreJustified(v.fields, node, declared);
      }
    } else if IsArray(v) && WILDCARD in node.children {
      HoldsBeneath(node, declared, WILDCARD);
      KeptItemsAreJustified(Items(v), node.children[WILDCARD], Beneath(declared, WILDCARD));
    }
  }

  lemma {:induction false} KeptMembersAreJustified(m: Claims, node: AllowNode, declared: set<Path>)
    requires Holds(node, declared) && !node.leaf
    ensures forall k :: k in FilterMap(m, node) ==>
              k in m && Justified(m[k], Beneath(declared, k), FilterMap(m, node)[k])
    decreases node, 1
  {
    forall k | k in FilterMap(m, node)
      ensures k in m && Justified(m[k], Beneath(declared, k), FilterMap(m, node)[k])
    {
      HoldsBeneath(node, declared, k);
      KeptIsJustified(m[k], node.children[k], Beneath(declared, k));
    }
  }

  lemma {:induction false} KeptItemsAreJustified(items: seq<Value>, node: AllowNode, declared: set<Path>)
    requires Holds(node, declared)
    ensures JustifiedItems(items, declared, FilterItems(items, node))
    decreases node, 3, |items|
  {
    if items != [] {
      KeptIsJustified(items[0], node, declared);
      KeptItemsAreJustified(items[1..], node, declared);
      var first := FilterValue(items[0], node);
      if first.Some? {
        assert FilterItems(items, node)[1..] == FilterItems(items[1..], node);
      } else {
        assert FilterItems(items, node) == FilterItems(items[1..], node);
      }
    }
  }

  // ----- completeness -----

  /** `x` stands in `v` at `path`, where the wildcard stands for any array element. */
  ghost predicate Reaches(v: Value, path: Path, x: Value)
    decreases |path|
  {
    if path == [] then Same(x, v)
    else if path[0] == WILDCARD then
      IsArray(v) && exists i :: 0 <= i < |Items(v)| && Reaches(Items(v)[i], path[1..], x)
    else v.Object? && path[0] in v.fields && Reaches(v.fields[path[0]], path[1..], x)
  }

  /** The two values the filter does not keep whole although their own path is
      declared: an object without members, and an array whose elements are
      declared too, when the metadata also declares paths beneath. */
  ghost predicate KeptWhole(x: Value, declared: set<Path>) {
    declared == {[]} || (x != Object(map[]) && !(IsArray(x) && Beneath(declared, WILDCARD) != {}))
  }

  /** What is declared beneath `path`. */
  ghost function At(declared: set<Path>, path: Path): set<Path>
    decreases |path|
  {
    if path == [] then declared else At(Beneath(declared, path[0]), path[1..])
  }

  lemma LeafAlone(node: AllowNode, declared: set<Path>)
    requires Holds(node, declared)
    ensures node.leaf && node.children == map[] <==> declared == {[]}
    ensures WILDCARD in node.children <==> Beneath(declared, WILDCARD) != {}
  {
    assert LeafAt(node, []) <==> [] in declared;
    HoldsBeneath(node, declared, WILDCARD);
    if node.children == map[] {
      forall path | path in declared ensures path == [] {
        assert LeafAt(node, path);
      }
    }
    if k :| k in node.children {
      var path :| LeafAt(node.children[k], path);
      assert LeafAt(node, [k] + path) by {
        assert ([k] + path)[1..] == path;
      }
    }
    if WILDCARD in node.children {
      var path :| LeafAt(node.children[WILDCARD], path);
      assert path in Beneath(declared, WILDCARD);
    }
  }

  lemma KeptInArray(v: Value, node: AllowNode, i: nat, path: Path, x: Value)
    requires IsArray(v) && i < |Items(v)| && WILDCARD in node.children
    requires var item := FilterValue(Items(v)[i], node.children[WILDCARD]);
             item.Some? && Reaches(item.value, path, x)
    ensures FilterValue(v, node).Some? && Reaches(FilterValue(v, node).value, [WILDCARD] + path, x)
  {
    var kept := FilterItems(Items(v), node.children[WILDCARD]);
    KeptItem(Items(v), node.children[WILDCARD], i);
    var j :| 0 <= j < |kept| && kept[j] == FilterValue(Items(v)[i], node.children[WILDCARD]).value;
    assert node.children != map[];
    assert FilterValue(v, node) == Some(Array(kept));
    assert ([WILDCARD] + path)[1..] == path;
    assert Reaches(Items(Array(kept))[j], path, x);
  }

  lemma KeptInObject(v: Value, node: AllowNode, k: string, path: Path, x: Value)
    requires v.Object? && k in v.fields && k in node.children && k != WILDCARD && !node.leaf
    requires var member := FilterValue(v.fields[k], node.children[k]);
             member.Some? && Reaches(member.value, path, x)
    ensures FilterValue(v, node).Some? && Reaches(FilterValue(v, node).value, [k] + path, x)
  {
    assert k in FilterMap(v.fields, node);
    assert ([k] + path)[1..] == path;
  }

  /** Every declared path that resolves is kept, with its value unchanged. */
  lemma {:induction false} DeclaredIsKept(v: Value, node: AllowNode, declared: set<Path>, path: Path, x: Value)
    requires Holds(node, declared)
    requires path in declared
    requires Reaches(v, path, x)
    requires KeptWhole(x, At(declared, path))
    ensures FilterValue(v, node).Some? && Reaches(FilterValue(v, node).value, path, x)
    decreases |path|
  {
    LeafAlone(node, declared);
    assert LeafAt(node, path) && (LeafAt(node, []) <==> [] in declared);
    if declared != {[]} && path != [] {
      var k, rest := path[0], path[1..];
      assert path == [k] + rest;
      HoldsBeneath(node, declared, k);
      InBeneath(declared, k, rest);
      if k == WILDCARD {
        var i :| 0 <= i < |Items(v)| && Reaches(Items(v)[i], rest, x);
        DeclaredIsKept(Items(v)[i], node.children[k], Beneath(declared, k), rest, x);
        KeptInArray(v, node, i, rest, x);
      } else if !node.leaf {
        DeclaredIsKept(v.fields[k], node.children[k], Beneath(declared, k), rest, x);
        KeptInObject(v, node, k, rest, x);
      }
    }
  }

  lemma {:induction false} KeptItem(items: seq<Value>, node: AllowNode, i: nat)
    requires i < |items| && FilterValue(items[i], node).Some?
    ensures exists j :: 0 <= j < |FilterItems(items, node)| &&
                        FilterItems(items, node)[j] == FilterValue(items[i], node).value
    decreases |items|
  {
    var first := FilterValue(items[0], node);
    var rest := FilterItems(items[1..], node);
    if i == 0 {
      assert FilterItems(items, node)[0] == first.value;
    } else {
      KeptItem(items[1..], node, i - 1);
      var j :| 0 <= j < |rest| && rest[j] == FilterValue(items[i], node).value;
      var shift := if first.Some? then 1 else 0;
      assert FilterItems(items, node)[j + shift] == rest[j];
    }
  }

  // ----- when something is kept -----

  /** A declared path resolves, to a value that is kept whole. */
  ghost predicate Resolves(v: Value, declared: set<Path>) {
    exists path, x :: path in declared && Reaches(v, path, x) && KeptWhole(x, At(declared, path))
  }

  lemma ResolvesBelow(declared: set<Path>, k: string, path: Path)
    requires path in Beneath(declared, k)
    ensures [k] + path in declared && At(declared, [k] + path) == At(Beneath(declared, k), path)
  {
    InBeneath(declared, k, path);
    assert ([k] + path)[1..] == path;
  }

  lemma {:induction false} KeptResolves(v: Value, node: AllowNode, declared: set<Path>)
    requires Holds(node, declared) && FilterValue(v, node).Some?
    ensures Resolves(v, declared)
    decreases node
  {
    LeafAlone(node, declared);
    assert LeafAt(node, []) <==> [] in declared;
    if node.leaf && KeptWhole(v, declared) {
      assert [] in declared && Reaches(v, [], v);
    } else if v.Object? {
      var k :| k in FilterMap(v.fields, node);
      HoldsBeneath(node, declared, k);
      KeptResolves(v.fields[k], node.children[k], Beneath(declared, k));
      var path, x :| path in Beneath(declared, k) && Reaches(v.fields[k], path, x) && KeptWhole(x, At(Beneath(declared, k), path));
      ResolvesBelow(declared, k, path);
      assert ([k] + path)[1..] == path && Reaches(v, [k] + path, x);
    } else {
      var kept := FilterItems(Items(v), node.children[WILDCARD]);
      var i := SomeItemKept(Items(v), node.children[WILDCARD]);
      HoldsBeneath(node, declared, WILDCARD);
      KeptResolves(Items(v)[i], node.children[WILDCARD], Beneath(declared, WILDCARD));
      var path, x :| path in Beneath(declared, WILDCARD) && Reaches(Items(v)[i], path, x) &&
                     KeptWhole(x, At(Beneath(declared, WILDCARD), path));
      ResolvesBelow(declared, WILDCARD, path);
      assert ([WILDCARD] + path)[1..] == path && Reaches(v, [WILDCARD] + path, x);
    }
  }

  lemma {:induction false} SomeItemKept(items: seq<Value>, node: AllowNode) returns (i: nat)
    requires FilterItems(items, node) != []
    ensures i < |items| && FilterValue(items[i], node).Some?
    decreases |items|
  {
    if FilterValue(items[0], node).Some? {
      i := 0;
    } else {
      i := SomeItemKept(items[1..], node);
      i := i + 1;
    }
  }

  /** Of a value something is kept exactly when a declared path resolves in it; an object or an
      array of which nothing is kept does not stay behind empty. */
  lemma KeptExactly(v: Value, node: AllowNode, declared: set<Path>)
    requires Holds(node, declared)
    ensures FilterValue(v, node).Some? <==> Resolves(v, declared)
  {
    if Resolves(v, declared) {
      var path, x :| path in declared && Reaches(v, path, x) && KeptWhole(x, At(declared, path));
      DeclaredIsKept(v, node, declared, path, x);
    } else if FilterValue(v, node).Some? {
      KeptResolves(v, node, declared);
    }
  }

  /** A claim of a document stays exactly when a declared path resolves in it. */
  lemma MemberKeptExactly(m: Claims, node: AllowNode, declared: set<Path>, k: string)
    requires Holds(node, declared) && [] !in declared
    ensures k in FilterMap(m, node) <==> k in m && k != WILDCARD && Resolves(m[k], Beneath(declared, k))
  {
    assert LeafAt(node, []) <==> [] in declared;
    if k in node.children {
      HoldsBeneath(node, declared, k);
      if k in m {
        KeptExactly(m[k], node.children[k], Beneath(declared, k));
      }
    } else {
      forall path ensures path !in Beneath(declared, k) {
        InBeneath(declared, k, path);
        assert !LeafAt(node, [k] + path);
      }
    }
  }

  /** The elements that are kept stay in order, each as often as it occurs. */
  lemma {:induction false} ItemsKeptExactly(items: seq<Value>, node: AllowNode) returns (places: seq<nat>)
    ensures forall a, b :: 0 <= a < b < |places| ==> places[a] < places[b]
    ensures forall i :: 0 <= i < |items| ==> (FilterValue(items[i], node).Some? <==> i in places)
    ensures |FilterItems(items, node)| == |places|
    ensures forall a :: 0 <= a < |places| ==> places[a] < |items| && FilterValue(items[places[a]], node) == Some(FilterItems(items, node)[a])
    decreases |items|
  {
    places := [];
    if items != [] {
      var n := |items| - 1;
      places := ItemsKeptExactly(items[..n], node);
      ItemsSnoc(items[..n], items[n], node);
      assert items == items[..n] + [items[n]];
      if FilterValue(items[n], node).Some? {
        places := places + [n];
      }
    }
  }

  lemma {:induction false} ItemsSnoc(items: seq<Value>, last: Value, node: AllowNode)
    ensures FilterItems(items + [last], node) ==
            FilterItems(items, node) + if FilterValue(last, node).Some? then [FilterValue(last, node).value] else []
    decreases |items|
  {
    if items == [] {
      assert [last][1..] == [] && items + [last] == [last];
    } else {
      ItemsSnoc(items[1..], last, node);
      assert (items + [last])[1..] == items[1..] + [last];
    }
  }

  ghost predicate Unchanged(x: Value, node: AllowNode) {
    FilterValue(x, node).Some? && Same(x, FilterValue(x, node).value)
  }

  /** A declared value is kept whole whatever it is exactly when nothing is
      declared beneath it. */
  lemma KeptWholeForEveryValue(node: AllowNode, declared: set<Path>)
    requires Holds(node, declared) && [] in declared
    ensures (forall x :: Unchanged(x, node)) <==> declared == {[]}
  {
    LeafAlone(node, declared);
    assert LeafAt(node, []);
    if declared == {[]} {
      forall x ensures Unchanged(x, node) {
      }
    } else {
      assert FilterMap(map[], node) == map[];
      assert !Unchanged(Object(map[]), node);
    }
  }

  // ----- idempotence -----

  lemma {:induction false} FilterTwice(v: Value, node: AllowNode)
    ensures match FilterValue(v, node)
            case Some(r) => FilterValue(r, node) == Some(r)
            case None => true
    decreases node, 2
  {
    if node.leaf && node.children == map[] {
    } else if v.Object? {
      if !node.leaf {
        FilterMapTwice(v.fields, node);
      }
    } else if IsArray(v) && WILDCARD in node.children {
      FilterItemsTwice(Items(v), node.children[WILDCARD]);
    }
  }

  lemma {:induction false} FilterMapTwice(m: Claims, node: AllowNode)
    ensures FilterMap(FilterMap(m, node), node) == FilterMap(m, node)
    decreases node, 1
  {
    if !node.leaf {
      forall k | k in FilterMap(m, node)
        ensures FilterValue(FilterMap(m, node)[k], node.children[k]) == Some(FilterMap(m, node)[k])
      {
        FilterTwice(m[k], node.children[k]);
      }
      assert FilterMap(FilterMap(m, node), node).Keys == FilterMap(m, node).Keys;
    }
  }

  lemma {:induction false} FilterItemsTwice(items: seq<Value>, node: AllowNode)
    ensures FilterItems(FilterItems(items, node), node) == FilterItems(items, node)
    decreases node, 3, |items|
  {
    if items != [] {
      var first := FilterValue(items[0], node);
      FilterTwice(items[0], node);
      FilterItemsTwice(items[1..], node);
      if first.Some? {
        assert FilterItems(items, node)[1..] == FilterItems(items[1..], node);
      } else {
        assert FilterItems(items, node) == FilterItems(items[1..], node);
      }
    }
  }
}
