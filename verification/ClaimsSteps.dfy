/** One step of the pipeline: a derivation's output is merged into the outputs and then into
    the working claims, each after a copy's path is cleared. The two may share maps. */
module ClaimsSteps {
  import opened ClaimMerging
  import opened ClaimsClearing
  import opened ClaimsHeap
  import opened ClaimsInPlace
  import opened ClaimsReach
  import opened ClaimsSharing
  import opened ClaimValues
  import opened CopiedClaims
  import opened Wrappers
  import D = Derivations

  // ----- the way to a copied claim -----

  lemma {:induction false} WalkConcat(v: Value, a: Path, b: Path)
    ensures Walk(v, a + b) == (if Walk(v, a).Some? then Walk(Walk(v, a).value, b) else None)
    decreases a
  {
    if a == [] {
      assert a + b == b;
    } else {
      assert (a + b)[0] == a[0] && (a + b)[1..] == a[1..] + b;
      if v.Object? && a[0] in v.fields {
        WalkConcat(v.fields[a[0]], a[1..], b);
      }
    }
  }

  lemma {:induction false} CopyHasParent(path: Path, v: Value)
    requires |path| > 0
    ensures IsObject(Walk(Object(D.Singleton(path, v)), Front(path)))
    decreases path
  {
    if |path| > 1 {
      CopyHasParent(path[1..], v);
      assert Front(path)[0] == path[0] && Front(path)[1..] == Front(path[1..]);
    } else {
      assert Front(path) == [];
    }
  }

  // ----- the moments of a step -----

  /** The maps, and the document each holds. */
  datatype Moment = Moment(heap: Heap, held: Labels)

  /** The outputs, the working claims and an output made of maps of its own. */
  ghost predicate Ready(m: Moment, out: Table, working: Table, derived: Table, own: set<Table>, still: Labels) {
    HeapLive(m.heap, m.held, still) &&
    out in m.held && working in m.held && derived in m.held && derived in own && out != working && out !in own && working !in own &&
    out.path == [] && working.path == [] && derived.path == [] &&
    Apart(m.heap, own) && Apart(m.heap, m.heap.Keys - own)
  }

  ghost predicate Clears(m: Moment, n: Moment, dst: Table, path: Path)
    requires |path| > 0
  {
    HeapCleared(m.heap, m.held, n.heap, n.held, dst, path) && dst in m.held && dst in n.held &&
    n.held[dst] == Clear(m.held[dst], path)
  }

  ghost predicate Merges(m: Moment, n: Moment, dst: Table, src: Table, pairs: map<Table, Table>) {
    HeapMerged(m.heap, n.heap, dst, src, pairs) && dst in m.held && src in m.held &&
    AllPatched(m.held, n.held, [], m.held[src]) &&
    n.held[dst] == Merge(m.held[dst], m.held[src]) && n.held[src] == m.held[src]
  }

  /** The working claims nest maps along the copy's path, and stop short of its parent at a
      map that the outputs have too. */
  ghost predicate Entangled(h: Heap, out: Table, working: Table, path: Path)
    requires |path| > 0
  {
    exists i: nat :: StopsAt(h, working, Front(path), i) && Reach(h, out, Front(path)[..i]) == Reach(h, working, Front(path)[..i])
  }

  lemma ApartCleared(h: Heap, part: set<Table>, cur: Table, k: string)
    requires Apart(h, part) && cur in h
    ensures Apart(h[cur := h[cur] - {k}], part)
  {
  }

  lemma ApartAfterClear(m: Moment, n: Moment, dst: Table, path: Path, part: set<Table>)
    requires |path| > 0 && Clears(m, n, dst, path) && Apart(m.heap, part)
    ensures n.heap.Keys == m.heap.Keys && Apart(n.heap, part)
  {
    var parent := Reach(m.heap, dst, Front(path));
    if parent.Some? {
      ApartCleared(m.heap, part, parent.value, Last(path));
    }
  }

  /** A root is cleared exactly when it has the same parent map. */
  lemma ClearedRoot(m: Moment, n: Moment, dst: Table, path: Path, t: Table)
    requires |path| > 0 && Clears(m, n, dst, path) && t in m.held && t.path == []
    ensures t in n.held
    ensures var parent := Reach(m.heap, dst, Front(path));
            n.held[t] == if parent.Some? && Reach(m.heap, t, Front(path)) == parent then Clear(m.held[t], path) else m.held[t]
  {
    assert Front(path)[0..] == Front(path) && path[0..] == path;
  }

  /** Clearing the outputs leaves the output apart and shows in the working claims at most
      as the same clearing. */
  lemma OutputsCleared(m: Moment, n: Moment, out: Table, working: Table, derived: Table, own: set<Table>, still: Labels, path: Path)
    requires Ready(m, out, working, derived, own, still) && |path| > 0 && HeapLive(n.heap, n.held, still)
    requires Clears(m, n, out, path)
    ensures Ready(n, out, working, derived, own, still) && n.held[derived] == m.held[derived]
    ensures n.held[working] == m.held[working] || n.held[working] == Clear(m.held[working], path)
  {
    ReachStays(m.heap, m.heap.Keys - own, out, Front(path));
    ReachStays(m.heap, own, derived, Front(path));
    ClearedRoot(m, n, out, path, derived);
    ClearedRoot(m, n, out, path, working);
    ApartAfterClear(m, n, out, path, own);
    ApartAfterClear(m, n, out, path, m.heap.Keys - own);
  }

  /** On the way to the parent, clearing changes nothing. */
  lemma ClearedReach(m: Moment, n: Moment, dst: Table, still: Labels, path: Path, t: Table, i: nat)
    requires HeapLive(m.heap, m.held, still) && |path| > 0 && Clears(m, n, dst, path) && dst.path == [] == t.path
    requires i <= |Front(path)|
    ensures Reach(n.heap, t, Front(path)[..i]) == Reach(m.heap, t, Front(path)[..i])
  {
    var q := Front(path);
    LiveIsPathed(m.heap, m.held, still);
    ReachedPath(m.heap, m.held, still, dst, q);
    var parent := Reach(m.heap, dst, q);
    if parent.Some? {
      assert dst.path + q == q && t.path + q[..i] == q[..i];
      ReachUncleared(m.heap, parent.value, Last(path), t, q[..i]);
    }
  }

  /** Merging into the outputs leaves the maps of the output as they are. */
  lemma OwnIsKept(m: Moment, n: Moment, out: Table, working: Table, derived: Table, own: set<Table>, still: Labels,
                  pairs: map<Table, Table>)
    requires Ready(m, out, working, derived, own, still) && Merges(m, n, out, derived, pairs)
    ensures n.heap.Keys == m.heap.Keys && forall t: Table :: t in own ==> n.heap[t] == m.heap[t]
  {
    forall t: Table | t in own ensures n.heap[t] == m.heap[t] {
      ReachStays(m.heap, m.heap.Keys - own, out, t.path);
      UnreachedStays(m.heap, n.heap, out, derived, pairs, t);
    }
  }

  lemma StopMeansNoMap(h: Heap, t: Table, path: Path, i: nat)
    requires StopsAt(h, t, path, i) && Pathed(h)
    ensures var w := Reach(h, t, path[..i]).value; !(path[i] in h[w] && h[w][path[i]].Node?)
  {
    var w := Reach(h, t, path[..i]).value;
    assert path[..i + 1] == path[..i] + [path[i]];
    if path[i] in h[w] && h[w][path[i]].Node? {
      ReachSnoc(h, t, path[..i], path[i], h[w][path[i]].table);
      assert false;
    }
  }

  lemma TakesEntry(h: Heap, now: Heap, dst: Table, src: Table, pairs: map<Table, Table>, t: Table, k: string)
    requires HeapMerged(h, now, dst, src, pairs) && t in pairs && k in h[pairs[t]] && !BothNodes(h[t], h[pairs[t]], k)
    ensures k in now[t] && now[t][k] == h[pairs[t]][k]
  {
    assert now[t] == After(h, pairs, t);
  }

  lemma NextMap(h: Heap, t: Table, q: Path, i: nat)
    requires i < |q| && Reach(h, t, q).Some?
    ensures Reach(h, t, q[..i]).Some? && Reach(h, t, q[..i + 1]).Some?
    ensures var s := Reach(h, t, q[..i]).value; q[i] in h[s] && h[s][q[i]] == Node(Reach(h, t, q[..i + 1]).value)
  {
    PrefixReached(h, t, q, i);
    PrefixReached(h, t, q, i + 1);
    assert q[..i + 1] == q[..i] + [q[i]];
    ReachConcat(h, t, q[..i], [q[i]]);
    assert [q[i]][1..] == [];
  }

  /** The map that the outputs stop at takes the next map of the output for its own. */
  lemma TakesOver(h: Heap, now: Heap, out: Table, derived: Table, pairs: map<Table, Table>, q: Path, i: nat, w: Table)
    requires HeapMerged(h, now, out, derived, pairs) && Reach(h, derived, q).Some?
    requires i < |q| && Reach(h, out, q[..i]) == Some(w) && !(q[i] in h[w] && h[w][q[i]].Node?)
    ensures Reach(h, derived, q[..i + 1]).Some? && q[i] in now[w] && now[w][q[i]] == Node(Reach(h, derived, q[..i + 1]).value)
  {
    NextMap(h, derived, q, i);
    ReachedArePaired(h, out, derived, pairs, out, q[..i]);
    TakesEntry(h, now, out, derived, pairs, w, q[i]);
  }

  /** So whoever reaches that map reaches the output's own parent of the copied claim. */
  lemma ReachesOwn(h: Heap, now: Heap, own: set<Table>, derived: Table, q: Path, i: nat, t: Table, w: Table)
    requires Apart(h, own) && derived in own && now.Keys == h.Keys && forall o: Table :: o in own ==> now[o] == h[o]
    requires i < |q| && Reach(h, derived, q).Some? && Reach(now, t, q[..i]) == Some(w)
    requires Reach(h, derived, q[..i + 1]).Some? && q[i] in now[w] && now[w][q[i]] == Node(Reach(h, derived, q[..i + 1]).value)
    ensures Reach(now, t, q) == Reach(h, derived, q) == Reach(now, derived, q)
  {
    var next := Reach(h, derived, q[..i + 1]).value;
    ReachStays(h, own, derived, q[..i + 1]);
    ReachSnoc(now, t, q[..i], q[i], next);
    assert q[..i + 1] == q[..i] + [q[i]];
    assert q == q[..i + 1] + q[i + 1..];
    ReachConcat(now, t, q[..i + 1], q[i + 1..]);
    ReachConcat(h, derived, q[..i + 1], q[i + 1..]);
    ReachUntouched(h, now, own, next, q[i + 1..]);
    ReachUntouched(h, now, own, derived, q);
  }

  /** What a merge into the outputs leaves as it was. */
  ghost predicate Undisturbed(h: Heap, now: Heap, own: set<Table>, q: Path) {
    Pathed(h) && NodesKept(h, now, q) && Apart(h, own) && forall t: Table :: t in own ==> now[t] == h[t]
  }

  lemma MergeDisturbsNothing(m: Moment, n: Moment, out: Table, working: Table, derived: Table, own: set<Table>, still: Labels,
                             pairs: map<Table, Table>, q: Path)
    requires Ready(m, out, working, derived, own, still) && Merges(m, n, out, derived, pairs) && Reach(m.heap, derived, q).Some?
    ensures Undisturbed(m.heap, n.heap, own, q)
  {
    LiveIsPathed(m.heap, m.held, still);
    OwnIsKept(m, n, out, working, derived, own, still, pairs);
    MergeKeepsNodes(m.heap, n.heap, out, derived, pairs, q);
  }

  lemma ReachesOwnToo(h: Heap, now: Heap, own: set<Table>, derived: Table, q: Path, i: nat, t: Table, w: Table)
    requires Undisturbed(h, now, own, q) && derived in own && t.path == []
    requires i < |q| && Reach(h, derived, q).Some? && Reach(h, t, q[..i]) == Some(w)
    requires Reach(h, derived, q[..i + 1]).Some? && q[i] in now[w] && now[w][q[i]] == Node(Reach(h, derived, q[..i + 1]).value)
    ensures Reach(now, t, q) == Reach(h, derived, q) == Reach(now, derived, q)
  {
    assert t.path + q[..i] == q[..i];
    ReachKept(h, now, q, t, q[..i]);
    ReachesOwn(h, now, own, derived, q, i, t, w);
  }

  lemma EntangledReaches(m: Moment, n: Moment, out: Table, working: Table, derived: Table, own: set<Table>, still: Labels,
                         pairs: map<Table, Table>, path: Path)
    requires Ready(m, out, working, derived, own, still) && Merges(m, n, out, derived, pairs) && |path| > 0
    requires Reach(m.heap, derived, Front(path)).Some? && Entangled(m.heap, out, working, path)
    ensures var q := Front(path);
            Reach(n.heap, working, q) == Reach(n.heap, derived, q) == Reach(n.heap, out, q) && Reach(n.heap, derived, q).Some?
  {
    var q := Front(path);
    MergeDisturbsNothing(m, n, out, working, derived, own, still, pairs, q);
    var i: nat :| StopsAt(m.heap, working, q, i) && Reach(m.heap, out, q[..i]) == Reach(m.heap, working, q[..i]);
    var w := Reach(m.heap, working, q[..i]).value;
    StopMeansNoMap(m.heap, working, q, i);
    TakesOver(m.heap, n.heap, out, derived, pairs, q, i, w);
    ReachesOwnToo(m.heap, n.heap, own, derived, q, i, working, w);
    ReachesOwnToo(m.heap, n.heap, own, derived, q, i, out, w);
  }

  lemma StopsAgain(h: Heap, now: Heap, q: Path, t: Table, i: nat)
    requires Pathed(h) && NodesKept(h, now, q) && t.path == [] && StopsAt(h, t, q, i)
    requires var w := Reach(h, t, q[..i]).value; now[w] == h[w]
    ensures Reach(now, t, q).None?
  {
    StopMeansNoMap(h, t, q, i);
    assert t.path + q[..i] == q[..i];
    ReachKept(h, now, q, t, q[..i]);
    assert q[..i + 1] == q[..i] + [q[i]];
    ReachConcat(now, t, q[..i], [q[i]]);
    assert Reach(now, t, q[..i + 1]).None?;
    if Reach(now, t, q).Some? {
      PrefixReached(now, t, q, i + 1);
    }
  }

  lemma StopsStill(m: Moment, n: Moment, out: Table, working: Table, derived: Table, still: Labels,
                   pairs: map<Table, Table>, path: Path)
    requires HeapLive(m.heap, m.held, still) && Merges(m, n, out, derived, pairs) && |path| > 0
    requires working in m.held && working.path == [] == out.path
    requires Pathed(m.heap) && NodesKept(m.heap, n.heap, Front(path)) && !Entangled(m.heap, out, working, path)
    requires Reach(m.heap, working, Front(path)).None?
    ensures Reach(n.heap, working, Front(path)).None?
  {
    var q := Front(path);
    assert q[..|q|] == q;
    var i := StopsSomewhere(m.heap, working, q, |q|);
    var w := Reach(m.heap, working, q[..i]).value;
    ReachedPath(m.heap, m.held, still, working, q[..i]);
    assert working.path + q[..i] == q[..i];
    UnreachedStays(m.heap, n.heap, out, derived, pairs, w);
    StopsAgain(m.heap, n.heap, q, working, i);
  }

  lemma FreeStaysAway(m: Moment, n: Moment, out: Table, working: Table, derived: Table, own: set<Table>, still: Labels,
                      pairs: map<Table, Table>, path: Path)
    requires Ready(m, out, working, derived, own, still) && Merges(m, n, out, derived, pairs) && |path| > 0
    requires Reach(m.heap, derived, Front(path)).Some? && !Entangled(m.heap, out, working, path)
    ensures Reach(n.heap, working, Front(path)) != Reach(n.heap, derived, Front(path))
  {
    var q := Front(path);
    MergeDisturbsNothing(m, n, out, working, derived, own, still, pairs, q);
    ReachUntouched(m.heap, n.heap, own, derived, q);
    ReachStays(m.heap, own, derived, q);
    if Reach(m.heap, working, q).Some? {
      assert working.path + q == q;
      ReachKept(m.heap, n.heap, q, working, q);
      ReachStays(m.heap, m.heap.Keys - own, working, q);
    } else {
      StopsStill(m, n, out, working, derived, still, pairs, path);
    }
  }

  // ----- a copy -----

  ghost predicate Rooted(m: Moment, out: Table, working: Table, derived: Table, still: Labels) {
    HeapLive(m.heap, m.held, still) && out in m.held && working in m.held && derived in m.held
  }

  /** A copy of `v` to `path`: five moments, two clearings and two merges. */
  ghost predicate CopyStep(m0: Moment, m1: Moment, m2: Moment, m3: Moment, m4: Moment, out: Table, working: Table, derived: Table, own: set<Table>, still: Labels,
                           path: Path, v: Value, pairs: map<Table, Table>, pairs': map<Table, Table>)
  {
    |path| > 0 && Ready(m0, out, working, derived, own, still) && m0.held[derived] == D.Singleton(path, v) &&
    Rooted(m0, out, working, derived, still) && Rooted(m1, out, working, derived, still) &&
    Rooted(m2, out, working, derived, still) && Rooted(m3, out, working, derived, still) &&
    Rooted(m4, out, working, derived, still) &&
    Clears(m0, m1, out, path) && Merges(m1, m2, out, derived, pairs) &&
    Clears(m2, m3, working, path) && Merges(m3, m4, working, derived, pairs')
  }

  lemma SameEntangled(m: Moment, n: Moment, out: Table, working: Table, still: Labels, path: Path)
    requires HeapLive(m.heap, m.held, still) && |path| > 0 && Clears(m, n, out, path) && out.path == [] == working.path
    ensures Entangled(m.heap, out, working, path) <==> Entangled(n.heap, out, working, path)
  {
    forall i: nat | i < |Front(path)|
      ensures StopsAt(m.heap, working, Front(path), i) <==> StopsAt(n.heap, working, Front(path), i)
      ensures Reach(m.heap, out, Front(path)[..i]) == Reach(n.heap, out, Front(path)[..i])
      ensures Reach(m.heap, working, Front(path)[..i]) == Reach(n.heap, working, Front(path)[..i])
    {
      ClearedReach(m, n, out, still, path, out, i);
      ClearedReach(m, n, out, still, path, working, i);
      ClearedReach(m, n, out, still, path, working, i + 1);
    }
  }

  lemma PatchedRoot(m: Moment, n: Moment, dst: Table, src: Table, pairs: map<Table, Table>, t: Table)
    requires Merges(m, n, dst, src, pairs) && t in m.held && t.path == []
    ensures t in n.held && Merge(n.held[t], m.held[src]) == Merge(m.held[t], m.held[src])
    ensures Merge(m.held[t], m.held[src]) == m.held[t] ==> n.held[t] == m.held[t]
  {
    assert t.path[0..] == [];
  }

  lemma CopyIsReached(m: Moment, derived: Table, still: Labels, path: Path, v: Value)
    requires HeapLive(m.heap, m.held, still) && derived in m.held && |path| > 0 && m.held[derived] == D.Singleton(path, v)
    ensures Reach(m.heap, derived, Front(path)).Some?
  {
    CopyHasParent(path, v);
    ReachedIsHeld(m.heap, m.held, still, derived, Front(path));
  }

  /** After the outputs are cleared and merged. */
  lemma FirstHalf(m0: Moment, m1: Moment, m2: Moment, m3: Moment, m4: Moment, out: Table, working: Table, derived: Table, own: set<Table>, still: Labels,
                  path: Path, v: Value, pairs: map<Table, Table>, pairs': map<Table, Table>)
    requires CopyStep(m0, m1, m2, m3, m4, out, working, derived, own, still, path, v, pairs, pairs')
    ensures derived in m2.held && m2.held[derived] == D.Singleton(path, v)
    ensures m2.held[out] == Merge(Clear(m0.held[out], path), D.Singleton(path, v))
    ensures working in m2.held &&
            (Merge(m2.held[working], D.Singleton(path, v)) == Merge(m0.held[working], D.Singleton(path, v)) ||
             Merge(m2.held[working], D.Singleton(path, v)) == Merge(Clear(m0.held[working], path), D.Singleton(path, v)))
    ensures if Entangled(m0.heap, out, working, path)
            then Reach(m2.heap, working, Front(path)) == Reach(m2.heap, derived, Front(path)) &&
                 Reach(m2.heap, out, Front(path)) == Reach(m2.heap, derived, Front(path))
            else Reach(m2.heap, working, Front(path)) != Reach(m2.heap, derived, Front(path))
  {
    OutputsCleared(m0, m1, out, working, derived, own, still, path);
    SameEntangled(m0, m1, out, working, still, path);
    CopyIsReached(m1, derived, still, path, v);
    PatchedRoot(m1, m2, out, derived, pairs, working);
    if Entangled(m1.heap, out, working, path) {
      EntangledReaches(m1, m2, out, working, derived, own, still, pairs, path);
    } else {
      FreeStaysAway(m1, m2, out, working, derived, own, still, pairs, path);
    }
  }

  lemma ClearedAlike(z: Claims, z': Claims, y: Claims, path: Path)
    requires |path| > 0 && Walk(Object(y), path).Some?
    requires Merge(z', y) == Merge(z, y) || Merge(z', y) == Merge(Clear(z, path), y)
    ensures Merge(Clear(z', path), y) == Merge(Clear(z, path), y)
  {
    ClearTwice(z, path);
    if Merge(z', y) == Merge(z, y) {
      ClearThenMerge(z', z, y, path);
    } else {
      ClearThenMerge(z', Clear(z, path), y, path);
    }
  }

  lemma SameBelowParent(a: Value, b: Value, path: Path)
    requires |path| > 0 && Walk(a, Front(path)) == Walk(b, Front(path))
    ensures Walk(a, path) == Walk(b, path)
  {
    assert path == Front(path) + [Last(path)];
    WalkConcat(a, Front(path), [Last(path)]);
    WalkConcat(b, Front(path), [Last(path)]);
  }

  /** Two roots with the same map at the parent have the same claim there. */
  lemma SameClaim(m: Moment, still: Labels, a: Table, b: Table, path: Path)
    requires HeapLive(m.heap, m.held, still) && a in m.held && b in m.held && |path| > 0
    requires Reach(m.heap, a, Front(path)).Some? && Reach(m.heap, a, Front(path)) == Reach(m.heap, b, Front(path))
    ensures Walk(Object(m.held[a]), path) == Walk(Object(m.held[b]), path)
  {
    ReachedIsHeld(m.heap, m.held, still, a, Front(path));
    ReachedIsHeld(m.heap, m.held, still, b, Front(path));
    SameBelowParent(Object(m.held[a]), Object(m.held[b]), path);
  }

  lemma MergedTogether(m: Moment, n: Moment, out: Table, working: Table, derived: Table, still: Labels,
                       q: Path, pairs: map<Table, Table>)
    requires HeapLive(m.heap, m.held, still) && Merges(m, n, working, derived, pairs) && out.path == [] == working.path
    requires Reach(m.heap, derived, q).Some? && Reach(m.heap, working, q).Some? && Reach(m.heap, out, q) == Reach(m.heap, working, q)
    ensures Reach(n.heap, out, q).Some? && Reach(n.heap, out, q) == Reach(n.heap, working, q)
  {
    assert out.path + q == q == working.path + q;
    LiveIsPathed(m.heap, m.held, still);
    MergeKeepsNodes(m.heap, n.heap, working, derived, pairs, q);
    ReachKept(m.heap, n.heap, q, out, q);
    ReachKept(m.heap, n.heap, q, working, q);
  }

  lemma ClearedTogether(l: Moment, m: Moment, out: Table, working: Table, still: Labels, path: Path)
    requires HeapLive(l.heap, l.held, still) && |path| > 0 && Clears(l, m, working, path) && out.path == [] == working.path
    requires Reach(l.heap, working, Front(path)).Some? && Reach(l.heap, out, Front(path)) == Reach(l.heap, working, Front(path))
    ensures Reach(m.heap, working, Front(path)).Some? && Reach(m.heap, out, Front(path)) == Reach(m.heap, working, Front(path))
  {
    var q := Front(path);
    assert q[..|q|] == q;
    ClearedReach(l, m, working, still, path, out, |q|);
    ClearedReach(l, m, working, still, path, working, |q|);
  }

  /** The outputs reach the same parent as the working claims, so the merge into these puts
      the claim back into both. */
  lemma OutputsRestored(l: Moment, m: Moment, n: Moment, out: Table, working: Table, derived: Table, still: Labels,
                        path: Path, v: Value, pairs: map<Table, Table>, x: Claims)
    requires HeapLive(l.heap, l.held, still) && HeapLive(m.heap, m.held, still) && HeapLive(n.heap, n.held, still)
    requires |path| > 0 && Clears(l, m, working, path) && Merges(m, n, working, derived, pairs)
    requires out in l.held && out.path == [] == working.path && derived in m.held && m.held[derived] == D.Singleton(path, v)
    requires l.held[out] == Merge(Clear(x, path), D.Singleton(path, v))
    ensures out in n.held && n.held[out] == l.held[out]
  {
    var y := D.Singleton(path, v);
    ClearedRoot(l, m, working, path, out);
    PatchedRoot(m, n, working, derived, pairs, out);
    if m.held[out] == l.held[out] {
      MergeTwice(Clear(x, path), y);
    } else {
      ClearedTogether(l, m, out, working, still, path);
      CopyIsReached(m, derived, still, path, v);
      MergedTogether(m, n, out, working, derived, still, Front(path), pairs);
      SameClaim(n, still, out, working, path);
      CopyIsThere(l.held[working], path, v);
      CopyStays(n.held[out], path, v);
      ClearAndWriteAgain(x, y, path);
    }
  }

  /** A copy that is not entangled does to both documents what clearing and merging do. */
  lemma CopyWorks(m0: Moment, m1: Moment, m2: Moment, m3: Moment, m4: Moment, out: Table, working: Table, derived: Table, own: set<Table>, still: Labels,
                  path: Path, v: Value, pairs: map<Table, Table>, pairs': map<Table, Table>)
    requires CopyStep(m0, m1, m2, m3, m4, out, working, derived, own, still, path, v, pairs, pairs')
    requires !Entangled(m0.heap, out, working, path)
    ensures var y := D.Singleton(path, v);
            m4.held[out] == Merge(Clear(m0.held[out], path), y) &&
            m4.held[working] == Merge(Clear(m0.held[working], path), y)
  {
    FirstHalf(m0, m1, m2, m3, m4, out, working, derived, own, still, path, v, pairs, pairs');
    ClearedRoot(m2, m3, working, path, derived);
    ClearedAlike(m0.held[working], m2.held[working], D.Singleton(path, v), path);
    OutputsRestored(m2, m3, m4, out, working, derived, still, path, v, pairs', m0.held[out]);
  }

  /** A copy that is entangled merges what is left of it once its claim is cleared. */
  lemma CopyIsLost(m0: Moment, m1: Moment, m2: Moment, m3: Moment, m4: Moment, out: Table, working: Table, derived: Table, own: set<Table>, still: Labels,
                   path: Path, v: Value, pairs: map<Table, Table>, pairs': map<Table, Table>)
    requires CopyStep(m0, m1, m2, m3, m4, out, working, derived, own, still, path, v, pairs, pairs')
    requires Entangled(m0.heap, out, working, path)
    ensures var y := Clear(D.Singleton(path, v), path);
            m4.held[out] == Merge(Clear(m0.held[out], path), y) &&
            m4.held[working] == Merge(Clear(m0.held[working], path), y)
  {
    FirstHalf(m0, m1, m2, m3, m4, out, working, derived, own, still, path, v, pairs, pairs');
    CopyIsReached(m2, derived, still, path, v);
    ClearedRoot(m2, m3, working, path, derived);
    ClearedRoot(m2, m3, working, path, out);
    PatchedRoot(m3, m4, working, derived, pairs', out);
    LostInOutputs(m0.held[out], D.Singleton(path, v), path);
    LostInWorking(m0.held[working], m2.held[working], D.Singleton(path, v), path);
  }

  lemma LostInOutputs(x: Claims, y: Claims, path: Path)
    requires |path| > 0
    ensures Clear(Merge(Clear(x, path), y), path) == Merge(Clear(x, path), Clear(y, path))
    ensures Merge(Clear(Merge(Clear(x, path), y), path), Clear(y, path)) == Merge(Clear(x, path), Clear(y, path))
  {
    ClearedOfMerge(Clear(x, path), y, Some(path));
    ClearTwice(x, path);
    MergeTwice(Clear(x, path), Clear(y, path));
  }

  lemma LostInWorking(z: Claims, z': Claims, y: Claims, path: Path)
    requires |path| > 0 && (Merge(z', y) == Merge(z, y) || Merge(z', y) == Merge(Clear(z, path), y))
    ensures Merge(Clear(z', path), Clear(y, path)) == Merge(Clear(z, path), Clear(y, path))
  {
    ClearedOfMerge(z', y, Some(path));
    ClearedOfMerge(z, y, Some(path));
    ClearedOfMerge(Clear(z, path), y, Some(path));
    ClearTwice(z, path);
  }

  /** A step copies as the documents say exactly when it is not entangled. */
  lemma CopiesExactly(m0: Moment, m1: Moment, m2: Moment, m3: Moment, m4: Moment, out: Table, working: Table, derived: Table, own: set<Table>, still: Labels,
                      path: Path, v: Value, pairs: map<Table, Table>, pairs': map<Table, Table>)
    requires CopyStep(m0, m1, m2, m3, m4, out, working, derived, own, still, path, v, pairs, pairs')
    ensures var y := D.Singleton(path, v);
            (m4.held[out] == Merge(Clear(m0.held[out], path), y) &&
             m4.held[working] == Merge(Clear(m0.held[working], path), y)) <==> !Entangled(m0.heap, out, working, path)
  {
    if Entangled(m0.heap, out, working, path) {
      CopyIsLost(m0, m1, m2, m3, m4, out, working, derived, own, still, path, v, pairs, pairs');
      CopyIsThere(m0.held[out], path, v);
      ClearedOfMerge(m0.held[out], D.Singleton(path, v), Some(path));
      ClearedIsGone(Merge(m0.held[out], D.Singleton(path, v)), path);
    } else {
      CopyWorks(m0, m1, m2, m3, m4, out, working, derived, own, still, path, v, pairs, pairs');
    }
  }

  // ----- a computed output -----

  /** Merged without clearing, an output does to both documents what merging does. */
  lemma ComputedWorks(l: Moment, m: Moment, n: Moment, out: Table, working: Table, derived: Table,
                      pairs: map<Table, Table>, pairs': map<Table, Table>)
    requires out in l.held && working in l.held && derived in l.held && out.path == [] == working.path
    requires Merges(l, m, out, derived, pairs) && Merges(m, n, working, derived, pairs')
    ensures out in n.held && n.held[out] == Merge(l.held[out], l.held[derived])
    ensures n.held[working] == Merge(l.held[working], l.held[derived])
  {
    PatchedRoot(l, m, out, derived, pairs, working);
    MergeTwice(l.held[out], l.held[derived]);
    PatchedRoot(m, n, working, derived, pairs', out);
  }
}
