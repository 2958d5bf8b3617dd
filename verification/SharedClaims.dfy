/** The objects two documents have in common. The code merges the maps of one output into both
    the outputs and the working claims, so from then on the two can have the very same map at
    a path, and what is done to it through one shows in the other. */
module SharedClaims {
  import opened ClaimMerging
  import opened ClaimValues
  import opened Wrappers

  /** The paths at which a document has an object, its root among them. */
  function Objects(m: Claims): set<Path>
    decreases Object(m)
  {
    {[]} + set k, q | k in m && m[k].Object? && q in Objects(m[k].fields) :: [k] + q
  }

  lemma {:induction false} ObjectsExactly(m: Claims, path: Path)
    ensures path in Objects(m) <==> ObjectAt(m, path)
    decreases path
  {
    if path != [] {
      var k, rest := path[0], path[1..];
      assert path == [k] + rest;
      forall j, q | [j] + q == path ensures j == k && q == rest {
        assert ([j] + q)[0] == j && ([j] + q)[1..] == q;
      }
      assert path in Objects(m) <==> k in m && m[k].Object? && rest in Objects(m[k].fields);
      if k in m && m[k].Object? {
        ObjectsExactly(m[k].fields, rest);
        assert m[k] == Object(m[k].fields);
      } else if k in m {
        assert Walk(Object(m), path) == Walk(m[k], rest);
      }
    }
  }

  /** Once `y` is merged into `x` and `z`, they have in common what they had and still have,
      and the objects of `y` where neither had one. */
  function Sharing(shared: set<Path>, x: Claims, z: Claims, y: Claims): set<Path> {
    set q | q in Objects(Merge(x, y)) && ObjectAt(Merge(z, y), q) &&
            (q in shared || (!ObjectAt(x, q) && !ObjectAt(z, q)))
  }

  lemma SharingAt(shared: set<Path>, x: Claims, z: Claims, y: Claims, q: Path)
    ensures q in Sharing(shared, x, z, y) <==>
            ObjectAt(Merge(x, y), q) && ObjectAt(Merge(z, y), q) && (q in shared || (!ObjectAt(x, q) && !ObjectAt(z, q)))
  {
    ObjectsExactly(Merge(x, y), q);
  }

  /** Pins go back into one of the two documents as copies. */
  function Unpinned(shared: set<Path>, pins: Claims): set<Path> {
    set q | q in shared && q != [] && q[0] !in pins
  }

  predicate LostAt(shared: set<Path>, working: Claims, path: Path, i: nat) {
    i < |path| - 1 && path[..i] in shared && !ObjectAt(working, path[..i + 1])
  }

  /** A copy to `path` is lost when the working claims have an object in common with the
      outputs on the way to its parent, and none at the next segment of that way. Merged into
      the outputs first, the output's own map becomes the parent in both documents, and
      clearing the path in the working claims then clears it in the output itself. */
  predicate Lost(shared: set<Path>, working: Claims, path: Path) {
    exists i: nat :: i < |path| && LostAt(shared, working, path, i)
  }

  /** What of an output is merged into the two documents. */
  function Landed(shared: set<Path>, working: Claims, y: Claims, copied: Option<Path>): Claims
    requires copied.Some? ==> |copied.value| > 0
  {
    if copied.Some? && Lost(shared, working, copied.value) then Clear(y, copied.value) else y
  }

  /** Clearing removes the objects at a path and beneath it. */
  lemma {:induction false} ObjectsCleared(m: Claims, path: Path, q: Path)
    requires |path| > 0
    ensures ObjectAt(Clear(m, path), q) <==> ObjectAt(m, q) && !(path <= q)
    decreases path
  {
    if q != [] {
      var k, rest, r := q[0], q[1..], Clear(m, path);
      assert path == [path[0]] + path[1..] && q == [k] + rest;
      assert k in m ==> Walk(Object(m), q) == Walk(m[k], rest);
      assert k in r ==> Walk(Object(r), q) == Walk(r[k], rest);
      if k == path[0] && |path| > 1 && k in m && m[k].Object? {
        ObjectsCleared(m[k].fields, path[1..], rest);
        assert r[k] == Object(Clear(m[k].fields, path[1..])) && m[k] == Object(m[k].fields);
      }
    }
  }
}
