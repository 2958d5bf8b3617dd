/** The filter that keeps only the claims a credential's type metadata (VCTM)
    declares, built on a tree of allowed paths. */
module VctmFilter {
  import opened ClaimValues
  import opened Wrappers

  /** A declared claim path; `None` is the null segment, "every array element". */
  type DeclaredPath = seq<Option<string>>
  type Vctm = seq<DeclaredPath>

  const WILDCARD := "*"

  /** `leaf` says that a declared path ends here, so the whole value is allowed. */
  datatype AllowNode = AllowNode(leaf: bool, children: map<string, AllowNode>)

  function KeysOf(path: DeclaredPath): (keys: Path)
    ensures |keys| == |path|
  {
    seq(|path|, i requires 0 <= i < |path| => if path[i].None? then WILDCARD else path[i].value)
  }

  /** The paths the filter honours: an empty path, or one that starts with a
      null segment, is skipped. */
  ghost function DeclaredPaths(vctm: Vctm): set<Path> {
    set c: DeclaredPath | c in vctm && |c| > 0 && c[0].Some? :: KeysOf(c)
  }

  // ----- building the tree -----

  function Insert(node: AllowNode, keys: Path): AllowNode
    decreases |keys|
  {
    if keys == [] then node.(leaf := true)
    else
      var next := if keys[0] in node.children then node.children[keys[0]] else AllowNode(false, map[]);
      node.(children := node.children[keys[0] := Insert(next, keys[1..])])
  }

  ghost predicate LeafAt(node: AllowNode, path: Path)
    decreases |path|
  {
    if path == [] then node.leaf
    else path[0] in node.children && LeafAt(node.children[path[0]], path[1..])
  }

  /** Every branch leads to a declared path. */
  ghost predicate Pruned(node: AllowNode) {
    forall k :: k in node.children ==>
      (exists path :: LeafAt(node.children[k], path)) && Pruned(node.children[k])
  }

  /** The tree holds exactly the paths of `declared`. */
  ghost predicate Holds(node: AllowNode, declared: set<Path>) {
    Pruned(node) && forall path :: LeafAt(node, path) <==> path in declared
  }

  lemma {:induction false} InsertAddsOnePath(node: AllowNode, keys: Path, path: Path)
    ensures LeafAt(Insert(node, keys), path) <==> LeafAt(node, path) || path == keys
    decreases |keys|
  {
    if keys != [] {
      if path != [] && path[0] == keys[0] {
        var next := if keys[0] in node.children then node.children[keys[0]] else AllowNode(false, map[]);
        InsertAddsOnePath(next, keys[1..], path[1..]);
        assert path == keys <==> path[1..] == keys[1..];
        assert keys[0] !in node.children ==> !LeafAt(next, path[1..]);
      }
    }
  }

  lemma {:induction false} InsertKeepsPruned(node: AllowNode, keys: Path)
    requires Pruned(node)
    ensures Pruned(Insert(node, keys))
    decreases |keys|
  {
    if keys != [] {
      var next := if keys[0] in node.children then node.children[keys[0]] else AllowNode(false, map[]);
      InsertKeepsPruned(next, keys[1..]);
      InsertAddsOnePath(next, keys[1..], keys[1..]);
    }
  }

  method BuildAllowTree(vctm: Vctm) returns (root: AllowNode)
    ensures Holds(root, DeclaredPaths(vctm)) && !root.leaf
  {
    root := AllowNode(false, map[]);
    for i := 0 to |vctm|
      invariant Holds(root, DeclaredPaths(vctm[..i])) && !root.leaf
    {
      var c := vctm[i];
      DeclaredPathsSnoc(vctm, i);
      if |c| == 0 || c[0].None? {
        continue;
      }
      forall path {
        InsertAddsOnePath(root, KeysOf(c), path);
      }
      InsertKeepsPruned(root, KeysOf(c));
      root := Insert(root, KeysOf(c));
    }
    assert vctm[..|vctm|] == vctm;
  }

  lemma DeclaredPathsSnoc(vctm: Vctm, i: nat)
    requires i < |vctm|
    ensures DeclaredPaths(vctm[..i + 1]) ==
            DeclaredPaths(vctm[..i]) + if |vctm[i]| > 0 && vctm[i][0].Some? then {KeysOf(vctm[i])} else {}
  {
    assert vctm[..i + 1] == vctm[..i] + [vctm[i]];
  }

  /** There is one tree per set of paths, so the order in which the metadata
      lists its claims does not matter. */
  lemma {:induction false} OneTreePerPathSet(a: AllowNode, b: AllowNode)
    requires Pruned(a) && Pruned(b)
    requires forall path :: LeafAt(a, path) <==> LeafAt(b, path)
    ensures a == b
  {
    assert LeafAt(a, []) <==> LeafAt(b, []);
    forall k, path
      ensures k in a.children && LeafAt(a.children[k], path) <==> k in b.children && LeafAt(b.children[k], path)
    {
      assert LeafAt(a, [k] + path) <==> LeafAt(b, [k] + path);
      assert ([k] + path)[1..] == path;
    }
    forall k
      ensures k in a.children <==> k in b.children
      ensures k in a.children ==> a.children[k] == b.children[k]
    {
      if k in a.children && k in b.children {
        OneTreePerPathSet(a.children[k], b.children[k]);
      }
    }
    assert a.children == b.children;
  }

  // ----- filtering -----

  predicate IsArray(v: Value) {
    v.Array? || v.Strings?
  }

  function Items(v: Value): seq<Value>
    requires IsArray(v)
  {
    if v.Array? then v.items else seq(|v.texts|, i requires 0 <= i < |v.texts| => Text(v.texts[i]))
  }

  function FilterMap(m: Claims, node: AllowNode): Claims
    decreases node, 1
  {
    if node.leaf then m
    else
      map k | k in node.children && k != WILDCARD && k in m && FilterValue(m[k], node.children[k]).Some? ::
        FilterValue(m[k], node.children[k]).value
  }

  function FilterValue(v: Value, node: AllowNode): Option<Value>
    decreases node, 2
  {
    if node.leaf && node.children == map[] then Some(v)
    else if v.Object? then
      var kept := FilterMap(v.fields, node);
      if kept == map[] then None else Some(Object(kept))
    else if IsArray(v) then FilterArray(Items(v), node)
    else if node.leaf then Some(v)
    else None
  }

  function FilterArray(items: seq<Value>, node: AllowNode): Option<Value>
    decreases node, 1
  {
    if WILDCARD !in node.children then
      if node.leaf then Some(Array(items)) else None
    else
      var kept := FilterItems(items, node.children[WILDCARD]);
      if kept == [] then None else Some(Array(kept))
  }

  function FilterItems(items: seq<Value>, node: AllowNode): seq<Value>
    decreases node, 3, |items|
  {
    if items == [] then []
    else
      var first := FilterValue(items[0], node);
      (if first.Some? then [first.value] else []) + FilterItems(items[1..], node)
  }

  method FilterAgainstVctm(doc: Claims, vctm: Option<Vctm>) returns (r: Claims)
    ensures vctm.None? ==> r == map[]
    ensures vctm.Some? ==> exists tree :: Holds(tree, DeclaredPaths(vctm.value)) && r == FilterMap(doc, tree)
  {
    if vctm.None? {
      return map[];
    }
    var tree := BuildAllowTree(vctm.value);
    r := FilterMap(doc, tree);
  }
}
