/** The maps that the outputs and the working claims have in common: which they are after an
    output is merged into both follows from the documents and from which they were before. */
module ClaimsCommon {
  import opened ClaimMerging
  import opened ClaimsClearing
  import opened ClaimsHeap
  import opened ClaimsInPlace
  import opened ClaimsReach
  import opened ClaimsSharing
  import opened ClaimsSteps
  import opened ClaimValues
  import opened SharedClaims
  import opened Wrappers
  import D = Derivations

  /** An output is merged into one document, after a copy's path is cleared in it. */
  ghost predicate Replaced(l: Moment, m: Moment, n: Moment, dst: Table, derived: Table, still: Labels, copied: Option<Path>,
                           pairs: map<Table, Table>)
  {
    l.held.Keys == m.held.Keys == n.held.Keys && (copied.Some? ==> |copied.value| > 0) &&
    HeapLive(l.heap, l.held, still) && HeapLive(m.heap, m.held, still) && HeapLive(n.heap, n.held, still) &&
    (if copied.Some? then Clears(l, m, dst, copied.value) else m == l) && Merges(m, n, dst, derived, pairs)
  }

  ghost predicate IsCopy(y: Claims, copied: Option<Path>) {
    copied.Some? ==> |copied.value| > 0 && exists v :: y == D.Singleton(copied.value, v)
  }

  /** An output is merged into the outputs and then into the working claims. */
  ghost predicate BothMerged(m0: Moment, m1: Moment, m2: Moment, m3: Moment, m4: Moment, out: Table, working: Table, derived: Table, own: set<Table>, still: Labels,
                             copied: Option<Path>, pairs: map<Table, Table>, pairs': map<Table, Table>)
  {
    Ready(m0, out, working, derived, own, still) &&
    Replaced(m0, m1, m2, out, derived, still, copied, pairs) &&
    Replaced(m2, m3, m4, working, derived, still, copied, pairs')
  }

  lemma RootedThroughout(l: Moment, m: Moment, n: Moment, dst: Table, out: Table, working: Table, derived: Table, still: Labels,
                         copied: Option<Path>, pairs: map<Table, Table>)
    requires Replaced(l, m, n, dst, derived, still, copied, pairs) && out in l.held && working in l.held && derived in l.held
    ensures Rooted(l, out, working, derived, still) && Rooted(m, out, working, derived, still) && Rooted(n, out, working, derived, still)
  {
  }

  /** The two have the same map at `q`. */
  ghost predicate CommonMap(h: Heap, out: Table, working: Table, q: Path) {
    Reach(h, out, q).Some? && Reach(h, out, q) == Reach(h, working, q)
  }

  /** `shared` are the paths at which both have the same map. */
  ghost predicate InCommon(h: Heap, out: Table, working: Table, shared: set<Path>) {
    forall q :: q in shared <==> CommonMap(h, out, working, q)
  }

  // ----- into one document -----

  /** The document of a root has an object where the root reaches a map. */
  lemma ReachedAt(m: Moment, still: Labels, t: Table, q: Path)
    requires HeapLive(m.heap, m.held, still) && t in m.held
    ensures Reach(m.heap, t, q).Some? <==> ObjectAt(m.held[t], q)
  {
    ReachedIsHeld(m.heap, m.held, still, t, q);
  }

  lemma ClearedReachLess(h: Heap, live: Labels, after: Heap, now: Labels, dst: Table, path: Path, t: Table, q: Path)
    requires |path| > 0 && HeapCleared(h, live, after, now, dst, path)
    ensures Reach(after, t, q).Some? ==> Reach(after, t, q) == Reach(h, t, q)
  {
    var parent := Reach(h, dst, Front(path));
    if parent.Some? {
      ReachLess(h, parent.value, Last(path), t, q);
    }
  }

  /** Clearing takes maps away and adds none. */
  lemma ClearingReach(l: Moment, m: Moment, n: Moment, dst: Table, derived: Table, still: Labels, copied: Option<Path>,
                      pairs: map<Table, Table>, t: Table, q: Path)
    requires Replaced(l, m, n, dst, derived, still, copied, pairs)
    ensures Reach(m.heap, t, q).Some? ==> Reach(m.heap, t, q) == Reach(l.heap, t, q)
  {
    if copied.Some? {
      ClearedReachLess(l.heap, l.held, m.heap, m.held, dst, copied.value, t, q);
    }
  }

  /** It leaves a map that is neither at the copy's path nor beneath it. */
  lemma ClearingLeaves(l: Moment, m: Moment, n: Moment, dst: Table, derived: Table, still: Labels, copied: Option<Path>,
                       pairs: map<Table, Table>, t: Table, q: Path)
    requires Replaced(l, m, n, dst, derived, still, copied, pairs) && t in l.held && t.path == []
    requires Reach(l.heap, t, q).Some? && !(copied.Some? && copied.value <= q)
    ensures Reach(m.heap, t, q) == Reach(l.heap, t, q)
  {
    ClearingReach(l, m, n, dst, derived, still, copied, pairs, t, q);
    if copied.Some? {
      ClearedRoot(l, m, dst, copied.value, t);
      ObjectsCleared(l.held[t], copied.value, q);
      ReachedAt(l, still, t, q);
      ReachedAt(m, still, t, q);
    }
  }

  /** A map that is reached in the end was reached before, or is one of the output. */
  lemma ReplacedReach(l: Moment, m: Moment, n: Moment, dst: Table, derived: Table, still: Labels, copied: Option<Path>,
                      pairs: map<Table, Table>, t: Table, q: Path)
    requires Replaced(l, m, n, dst, derived, still, copied, pairs) && dst.path == [] && derived.path == [] && t.path == []
    ensures Reach(n.heap, t, q).Some? ==>
              Reach(n.heap, t, q) == if Reach(m.heap, t, q).Some? then Reach(l.heap, t, q) else Reach(m.heap, derived, q)
    ensures Reach(n.heap, derived, q) == Reach(m.heap, derived, q)
    ensures Reach(m.heap, derived, q).Some? ==> Reach(m.heap, derived, q) == Reach(l.heap, derived, q)
  {
    LiveIsPathed(m.heap, m.held, still);
    LiveIsPathed(n.heap, n.held, still);
    ReachMerged(m.heap, n.heap, dst, derived, pairs, t, q);
    SourceReach(m.heap, n.heap, dst, derived, pairs, q);
    ClearingReach(l, m, n, dst, derived, still, copied, pairs, t, q);
    ClearingReach(l, m, n, dst, derived, still, copied, pairs, derived, q);
  }

  lemma KeepsMap(m: Moment, n: Moment, dst: Table, derived: Table, still: Labels, pairs: map<Table, Table>, t: Table, q: Path)
    requires HeapLive(m.heap, m.held, still) && Merges(m, n, dst, derived, pairs) && dst.path == [] && t.path == []
    requires Reach(m.heap, t, q).Some? && Reach(m.heap, derived, q).Some?
    ensures Reach(n.heap, t, q) == Reach(m.heap, t, q)
  {
    assert t.path + q == q;
    LiveIsPathed(m.heap, m.held, still);
    MergeKeepsNodes(m.heap, n.heap, dst, derived, pairs, q);
    ReachKept(m.heap, n.heap, q, t, q);
  }

  /** Where the output has a map too, a map stays. */
  lemma ReplacedKeeps(l: Moment, m: Moment, n: Moment, dst: Table, derived: Table, still: Labels, copied: Option<Path>,
                      pairs: map<Table, Table>, t: Table, q: Path)
    requires Replaced(l, m, n, dst, derived, still, copied, pairs) && dst.path == [] && t.path == []
    requires Reach(m.heap, t, q).Some? && Reach(m.heap, derived, q).Some?
    ensures Reach(n.heap, t, q) == Reach(m.heap, t, q)
  {
    KeepsMap(m, n, dst, derived, still, pairs, t, q);
  }

  // ----- into both -----

  /** A map that clearing leaves to a document and that is reached in the end is its own. */
  lemma OwnMap(m0: Moment, m1: Moment, m2: Moment, m3: Moment, m4: Moment, out: Table, working: Table, derived: Table, own: set<Table>,
               still: Labels, copied: Option<Path>, pairs: map<Table, Table>, pairs': map<Table, Table>, t: Table, q: Path)
    requires BothMerged(m0, m1, m2, m3, m4, out, working, derived, own, still, copied, pairs, pairs') && (t == out || t == working)
    requires Reach(m0.heap, t, q).Some? && !(copied.Some? && copied.value <= q) && Reach(m4.heap, t, q).Some?
    ensures Reach(m4.heap, t, q) == Reach(m0.heap, t, q)
  {
    ReplacedReach(m0, m1, m2, out, derived, still, copied, pairs, t, q);
    ReplacedReach(m2, m3, m4, working, derived, still, copied, pairs', t, q);
    ClearingLeaves(m0, m1, m2, out, derived, still, copied, pairs, t, q);
    ClearingReach(m2, m3, m4, working, derived, still, copied, pairs', t, q);
    if Reach(m3.heap, t, q).None? {
      ReplacedKeeps(m0, m1, m2, out, derived, still, copied, pairs, t, q);
      ClearingLeaves(m2, m3, m4, working, derived, still, copied, pairs', t, q);
    }
  }

  /** Any other map that is reached in the end is one of the output. */
  lemma NewMap(m0: Moment, m1: Moment, m2: Moment, m3: Moment, m4: Moment, out: Table, working: Table, derived: Table, own: set<Table>,
               still: Labels, copied: Option<Path>, pairs: map<Table, Table>, pairs': map<Table, Table>, t: Table, q: Path)
    requires BothMerged(m0, m1, m2, m3, m4, out, working, derived, own, still, copied, pairs, pairs') && (t == out || t == working)
    requires Reach(m0.heap, t, q).None? || (copied.Some? && copied.value <= q)
    requires Reach(m4.heap, t, q).Some?
    ensures Reach(m4.heap, t, q) == Reach(m0.heap, derived, q)
  {
    ReplacedReach(m0, m1, m2, out, derived, still, copied, pairs, t, q);
    ReplacedReach(m2, m3, m4, working, derived, still, copied, pairs', t, q);
    ClearingReach(m0, m1, m2, out, derived, still, copied, pairs, t, q);
    ClearingReach(m2, m3, m4, working, derived, still, copied, pairs', t, q);
    if copied.Some? && copied.value <= q {
      if t == out {
        ReachedAt(m1, still, out, q);
        ObjectsCleared(m0.held[out], copied.value, q);
      } else {
        ReachedAt(m3, still, working, q);
        ObjectsCleared(m2.held[working], copied.value, q);
      }
    }
  }

  /** Where the map at a path comes from. */
  lemma MapOrigin(m0: Moment, m1: Moment, m2: Moment, m3: Moment, m4: Moment, out: Table, working: Table, derived: Table, own: set<Table>,
                  still: Labels, copied: Option<Path>, pairs: map<Table, Table>, pairs': map<Table, Table>, t: Table, q: Path)
    requires BothMerged(m0, m1, m2, m3, m4, out, working, derived, own, still, copied, pairs, pairs') && (t == out || t == working)
    requires Reach(m4.heap, t, q).Some?
    ensures Reach(m4.heap, t, q) ==
            if ObjectAt(Cleared(m0.held[t], copied), q) then Reach(m0.heap, t, q) else Reach(m0.heap, derived, q)
  {
    ReachedAt(m0, still, t, q);
    if copied.Some? {
      ObjectsCleared(m0.held[t], copied.value, q);
    }
    if ObjectAt(Cleared(m0.held[t], copied), q) {
      OwnMap(m0, m1, m2, m3, m4, out, working, derived, own, still, copied, pairs, pairs', t, q);
    } else {
      NewMap(m0, m1, m2, m3, m4, out, working, derived, own, still, copied, pairs, pairs', t, q);
    }
  }

  /** A path at which both have the same map is cleared in both or in neither. */
  lemma ClearedInBoth(m: Moment, out: Table, working: Table, still: Labels, copied: Option<Path>, q: Path)
    requires HeapLive(m.heap, m.held, still) && out in m.held && working in m.held && (copied.Some? ==> |copied.value| > 0)
    requires CommonMap(m.heap, out, working, q)
    ensures ObjectAt(Cleared(m.held[out], copied), q) <==> ObjectAt(Cleared(m.held[working], copied), q)
  {
    ReachedAt(m, still, out, q);
    ReachedAt(m, still, working, q);
    if copied.Some? {
      ObjectsCleared(m.held[out], copied.value, q);
      ObjectsCleared(m.held[working], copied.value, q);
    }
  }

  lemma LeftByClearing(m: Moment, t: Table, still: Labels, copied: Option<Path>, q: Path)
    requires HeapLive(m.heap, m.held, still) && t in m.held && (copied.Some? ==> |copied.value| > 0)
    ensures ObjectAt(Cleared(m.held[t], copied), q) ==> Reach(m.heap, t, q).Some?
  {
    ReachedAt(m, still, t, q);
    if copied.Some? {
      ObjectsCleared(m.held[t], copied.value, q);
    }
  }

  /** The same map is at a path in the end exactly as the rule on documents says. */
  lemma CommonAt(m0: Moment, m1: Moment, m2: Moment, m3: Moment, m4: Moment, out: Table, working: Table, derived: Table, own: set<Table>,
                 still: Labels, copied: Option<Path>, pairs: map<Table, Table>, pairs': map<Table, Table>, q: Path)
    requires BothMerged(m0, m1, m2, m3, m4, out, working, derived, own, still, copied, pairs, pairs')
    requires Reach(m4.heap, out, q).Some? && Reach(m4.heap, working, q).Some?
    ensures CommonMap(m4.heap, out, working, q) <==>
            CommonMap(m0.heap, out, working, q) ||
            (!ObjectAt(Cleared(m0.held[out], copied), q) && !ObjectAt(Cleared(m0.held[working], copied), q))
  {
    MapOrigin(m0, m1, m2, m3, m4, out, working, derived, own, still, copied, pairs, pairs', out, q);
    MapOrigin(m0, m1, m2, m3, m4, out, working, derived, own, still, copied, pairs, pairs', working, q);
    LeftByClearing(m0, out, still, copied, q);
    LeftByClearing(m0, working, still, copied, q);
    ReachStays(m0.heap, m0.heap.Keys - own, out, q);
    ReachStays(m0.heap, m0.heap.Keys - own, working, q);
    ReachStays(m0.heap, own, derived, q);
    if CommonMap(m0.heap, out, working, q) {
      ClearedInBoth(m0, out, working, still, copied, q);
    }
  }

  /** At `q` they have the same map in the end as the rule says. */
  ghost predicate RuleHolds(first: Heap, last: Heap, out: Table, working: Table, x: Claims, z: Claims, q: Path) {
    Reach(last, out, q).Some? && Reach(last, working, q).Some? ==>
      (CommonMap(last, out, working, q) <==> CommonMap(first, out, working, q) || (!ObjectAt(x, q) && !ObjectAt(z, q)))
  }

  lemma RuleHoldsEverywhere(m0: Moment, m1: Moment, m2: Moment, m3: Moment, m4: Moment, out: Table, working: Table, derived: Table, own: set<Table>,
                            still: Labels, copied: Option<Path>, pairs: map<Table, Table>, pairs': map<Table, Table>)
    requires BothMerged(m0, m1, m2, m3, m4, out, working, derived, own, still, copied, pairs, pairs')
    ensures forall q :: RuleHolds(m0.heap, m4.heap, out, working, Cleared(m0.held[out], copied), Cleared(m0.held[working], copied), q)
  {
    forall q ensures RuleHolds(m0.heap, m4.heap, out, working, Cleared(m0.held[out], copied), Cleared(m0.held[working], copied), q) {
      if Reach(m4.heap, out, q).Some? && Reach(m4.heap, working, q).Some? {
        CommonAt(m0, m1, m2, m3, m4, out, working, derived, own, still, copied, pairs, pairs', q);
      }
    }
  }

  lemma CommonAfter(first: Heap, n: Moment, out: Table, working: Table, still: Labels, shared: set<Path>, x: Claims, z: Claims, y: Claims)
    requires InCommon(first, out, working, shared) && HeapLive(n.heap, n.held, still) && out in n.held && working in n.held
    requires n.held[out] == Merge(x, y) && n.held[working] == Merge(z, y)
    requires forall q :: RuleHolds(first, n.heap, out, working, x, z, q)
    ensures InCommon(n.heap, out, working, Sharing(shared, x, z, y))
  {
    forall q ensures q in Sharing(shared, x, z, y) <==> CommonMap(n.heap, out, working, q) {
      SharingAt(shared, x, z, y, q);
      ReachedAt(n, still, out, q);
      ReachedAt(n, still, working, q);
      assert RuleHolds(first, n.heap, out, working, x, z, q);
    }
  }

  // ----- which copies are lost -----

  lemma LostPrefix(m: Moment, out: Table, working: Table, still: Labels, shared: set<Path>, path: Path, i: nat)
    requires HeapLive(m.heap, m.held, still) && out in m.held && working in m.held && |path| > 0
    requires InCommon(m.heap, out, working, shared)
    ensures LostAt(shared, m.held[working], path, i) <==>
            StopsAt(m.heap, working, Front(path), i) && Reach(m.heap, out, Front(path)[..i]) == Reach(m.heap, working, Front(path)[..i])
  {
    if i < |path| - 1 {
      assert Front(path)[..i] == path[..i] && Front(path)[..i + 1] == path[..i + 1];
      ReachedAt(m, still, working, path[..i + 1]);
      assert path[..i] in shared <==> CommonMap(m.heap, out, working, path[..i]);
    }
  }

  /** The copies that are entangled are those that the documents lose. */
  lemma EntangledIsLost(m: Moment, out: Table, working: Table, still: Labels, shared: set<Path>, path: Path)
    requires HeapLive(m.heap, m.held, still) && out in m.held && working in m.held && |path| > 0
    requires InCommon(m.heap, out, working, shared)
    ensures Entangled(m.heap, out, working, path) <==> Lost(shared, m.held[working], path)
  {
    forall i: nat
      ensures LostAt(shared, m.held[working], path, i) <==>
              StopsAt(m.heap, working, Front(path), i) && Reach(m.heap, out, Front(path)[..i]) == Reach(m.heap, working, Front(path)[..i])
    {
      LostPrefix(m, out, working, still, shared, path, i);
    }
  }
}
