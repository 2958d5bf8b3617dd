/** Which maps are reached at a path, before and after a merge or a removal. */
module ClaimsReach {
  import opened ClaimsClearing
  import opened ClaimsHeap
  import opened ClaimsSharing
  import opened ClaimValues
  import opened Wrappers

  /** Every nested map knows its path. */
  ghost predicate Pathed(h: Heap) {
    forall t: Table, k: string :: t in h && k in h[t] && h[t][k].Node? ==>
      h[t][k].table in h && h[t][k].table.path == t.path + [k]
  }

  lemma LiveIsPathed(h: Heap, live: Labels, still: Labels)
    requires HeapLive(h, live, still)
    ensures Pathed(h)
  {
    forall t: Table, k: string | t in h && k in h[t] && h[t][k].Node?
      ensures h[t][k].table in h && h[t][k].table.path == t.path + [k]
    {
      HeldAt(h, live, still, t, k);
    }
  }

  lemma {:induction false} ReachConcat(h: Heap, t: Table, a: Path, b: Path)
    ensures Reach(h, t, a + b) == (if Reach(h, t, a).Some? then Reach(h, Reach(h, t, a).value, b) else None)
    decreases a
  {
    if a == [] {
      assert a + b == b;
    } else if t in h && a[0] in h[t] && h[t][a[0]].Node? {
      assert (a + b)[0] == a[0] && (a + b)[1..] == a[1..] + b;
      ReachConcat(h, h[t][a[0]].table, a[1..], b);
    } else {
      assert (a + b)[0] == a[0];
    }
  }

  /** A prefix of a path that is reached is reached. */
  lemma PrefixReached(h: Heap, t: Table, path: Path, i: nat)
    requires i <= |path| && Reach(h, t, path).Some?
    ensures Reach(h, t, path[..i]).Some?
  {
    assert path == path[..i] + path[i..];
    ReachConcat(h, t, path[..i], path[i..]);
  }

  lemma ReachSnoc(h: Heap, t: Table, a: Path, k: string, c: Table)
    requires Reach(h, t, a).Some? && c in h
    requires var m := Reach(h, t, a).value; k in h[m] && h[m][k] == Node(c)
    ensures Reach(h, t, a + [k]) == Some(c)
  {
    ReachConcat(h, t, a, [k]);
    assert [k][1..] == [];
  }

  lemma ReachLast(h: Heap, t: Table, a: Path, k: string)
    requires Pathed(h)
    ensures var m := Reach(h, t, a);
            Reach(h, t, a + [k]) ==
            if m.Some? && k in h[m.value] && h[m.value][k].Node? then Some(h[m.value][k].table) else None
  {
    ReachConcat(h, t, a, [k]);
    assert [k][1..] == [];
  }

  lemma {:induction false} PathReached(h: Heap, t: Table, rest: Path)
    requires Pathed(h)
    ensures Reach(h, t, rest).Some? ==> Reach(h, t, rest).value.path == t.path + rest
    decreases |rest|
  {
    if rest == [] {
      assert t.path + rest == t.path;
    } else {
      var a, k := rest[..|rest| - 1], rest[|rest| - 1];
      assert rest == a + [k];
      PathReached(h, t, a);
      ReachLast(h, t, a, k);
      assert t.path + rest == t.path + a + [k];
    }
  }

  /** Maps of `part` nest maps of `part` only. */
  ghost predicate Apart(h: Heap, part: set<Table>) {
    part <= h.Keys && forall t: Table, k: string :: t in part && k in h[t] && h[t][k].Node? ==> h[t][k].table in part
  }

  lemma {:induction false} ReachStays(h: Heap, part: set<Table>, t: Table, rest: Path)
    requires Apart(h, part) && t in part
    ensures Reach(h, t, rest).Some? ==> Reach(h, t, rest).value in part
    decreases rest
  {
    if rest != [] && rest[0] in h[t] && h[t][rest[0]].Node? {
      ReachStays(h, part, h[t][rest[0]].table, rest[1..]);
    }
  }

  /** Where maps are untouched, so is what they reach. */
  lemma {:induction false} ReachUntouched(h: Heap, now: Heap, part: set<Table>, t: Table, rest: Path)
    requires Apart(h, part) && t in part && now.Keys == h.Keys && forall p: Table :: p in part ==> now[p] == h[p]
    ensures Reach(now, t, rest) == Reach(h, t, rest)
    decreases rest
  {
    if rest != [] && rest[0] in h[t] && h[t][rest[0]].Node? {
      ReachUntouched(h, now, part, h[t][rest[0]].table, rest[1..]);
    }
  }

  // ----- removing -----

  /** A removal from `cur` does not show on the way to it. */
  lemma {:induction false} ReachUncleared(h: Heap, cur: Table, k: string, t: Table, rest: Path)
    requires Pathed(h) && cur in h && t.path + rest <= cur.path
    ensures Reach(h[cur := h[cur] - {k}], t, rest) == Reach(h, t, rest)
    decreases rest
  {
    if t in h && rest != [] && rest[0] in h[t] && h[t][rest[0]].Node? {
      assert |t.path| < |cur.path|;
      assert t.path + rest == t.path + [rest[0]] + rest[1..];
      ReachUncleared(h, cur, k, h[t][rest[0]].table, rest[1..]);
    } else if rest != [] {
      assert |t.path| < |cur.path|;
    }
  }

  /** What is reached once a claim is removed was reached before. */
  lemma {:induction false} ReachLess(h: Heap, cur: Table, k: string, t: Table, rest: Path)
    requires cur in h
    ensures var now: Heap := h[cur := h[cur] - {k}]; Reach(now, t, rest).Some? ==> Reach(now, t, rest) == Reach(h, t, rest)
    decreases rest
  {
    var now: Heap := h[cur := h[cur] - {k}];
    if t in h && rest != [] && rest[0] in now[t] && now[t][rest[0]].Node? {
      ReachLess(h, cur, k, h[t][rest[0]].table, rest[1..]);
    }
  }

  // ----- merging -----

  /** A map that a merge writes is reached from the destination, and the map it takes
      entries from at the same path from the source. */
  lemma {:induction false} PairsAreReached(h: Heap, dst: Table, src: Table, pairs: map<Table, Table>, t: Table)
    requires Pairing(h, dst, src, pairs, {}) && dst.path == [] && t in pairs
    ensures Reach(h, dst, t.path) == Some(t) && Reach(h, src, t.path) == Some(pairs[t])
    decreases |t.path|
  {
    if t != dst {
      assert Nested(h, dst, pairs, {}, t);
      var p: Table, k: string :| p in pairs && p in h && pairs[p] in h && t.path == p.path + [k] &&
        BothNodes(h[p], h[pairs[p]], k) && h[p][k].table == t && h[pairs[p]][k].table == pairs[t];
      PairsAreReached(h, dst, src, pairs, p);
      ReachSnoc(h, dst, p.path, k, t);
      ReachSnoc(h, src, p.path, k, pairs[t]);
    }
  }

  lemma {:induction false} ReachedArePaired(h: Heap, dst: Table, src: Table, pairs: map<Table, Table>, t: Table, rest: Path)
    requires Pairing(h, dst, src, pairs, {}) && t in pairs
    requires Reach(h, t, rest).Some? && Reach(h, pairs[t], rest).Some?
    ensures Reach(h, t, rest).value in pairs && pairs[Reach(h, t, rest).value] == Reach(h, pairs[t], rest).value
    decreases rest
  {
    if rest != [] {
      assert BothNodes(h[t], h[pairs[t]], rest[0]);
      ReachedArePaired(h, dst, src, pairs, h[t][rest[0]].table, rest[1..]);
    }
  }

  /** Where the source nests a map, a nested map stays. */
  lemma NodeKept(h: Heap, now: Heap, dst: Table, src: Table, pairs: map<Table, Table>, t: Table, k: string)
    requires HeapMerged(h, now, dst, src, pairs) && dst.path == [] && t in h && k in h[t] && h[t][k].Node?
    requires Reach(h, src, t.path + [k]).Some?
    ensures k in now[t] && now[t][k] == h[t][k]
  {
    if t in pairs {
      PairsAreReached(h, dst, src, pairs, t);
      ReachConcat(h, src, t.path, [k]);
      assert BothNodes(h[t], h[pairs[t]], k);
    }
    assert now[t] == After(h, pairs, t);
  }

  /** Nested maps on the way to `goal` stay. */
  ghost predicate NodesKept(h: Heap, now: Heap, goal: Path) {
    now.Keys == h.Keys &&
    forall t: Table, k: string :: t in h && k in h[t] && h[t][k].Node? && t.path + [k] <= goal ==>
      k in now[t] && now[t][k] == h[t][k]
  }

  lemma MergeKeepsNodes(h: Heap, now: Heap, dst: Table, src: Table, pairs: map<Table, Table>, goal: Path)
    requires HeapMerged(h, now, dst, src, pairs) && dst.path == [] && Reach(h, src, goal).Some?
    ensures NodesKept(h, now, goal)
  {
    forall t: Table, k: string | t in h && k in h[t] && h[t][k].Node? && t.path + [k] <= goal
      ensures k in now[t] && now[t][k] == h[t][k]
    {
      PrefixReached(h, src, goal, |t.path + [k]|);
      assert goal[..|t.path + [k]|] == t.path + [k];
      NodeKept(h, now, dst, src, pairs, t, k);
    }
  }

  lemma {:induction false} ReachKept(h: Heap, now: Heap, goal: Path, t: Table, rest: Path)
    requires Pathed(h) && NodesKept(h, now, goal) && t.path + rest <= goal
    ensures Reach(h, t, rest).Some? ==> Reach(now, t, rest) == Reach(h, t, rest)
    decreases rest
  {
    if t in h && rest != [] && rest[0] in h[t] && h[t][rest[0]].Node? {
      var k := rest[0];
      assert t.path + rest == t.path + [k] + rest[1..];
      assert t.path + [k] <= goal;
      ReachKept(h, now, goal, h[t][k].table, rest[1..]);
    }
  }

  /** A map that the destination does not reach stays as it is. */
  lemma UnreachedStays(h: Heap, now: Heap, dst: Table, src: Table, pairs: map<Table, Table>, t: Table)
    requires HeapMerged(h, now, dst, src, pairs) && dst.path == [] && t in h && Reach(h, dst, t.path) != Some(t)
    ensures now[t] == h[t]
  {
    if t in pairs {
      PairsAreReached(h, dst, src, pairs, t);
    }
    assert t == dst ==> dst in pairs;
  }

  /** A merge leaves the maps of its source as they are. */
  lemma SourceStays(h: Heap, now: Heap, dst: Table, src: Table, pairs: map<Table, Table>, t: Table)
    requires HeapMerged(h, now, dst, src, pairs) && dst.path == [] && t in h && Reach(h, src, t.path) == Some(t)
    ensures now[t] == h[t]
  {
    if t in pairs {
      PairsAreReached(h, dst, src, pairs, t);
      OverlaidBySelf(h[t], {});
    }
    assert now[t] == After(h, pairs, t);
  }

  /** What an entry of a reached map is after a merge. */
  lemma MergedEntry(h: Heap, now: Heap, dst: Table, src: Table, pairs: map<Table, Table>, t: Table, k: string)
    requires HeapMerged(h, now, dst, src, pairs) && dst.path == [] && t in h && k in now[t]
    ensures (k in h[t] && now[t][k] == h[t][k]) ||
            (t in pairs && Reach(h, src, t.path) == Some(pairs[t]) && k in h[pairs[t]] && now[t][k] == h[pairs[t]][k] &&
             !BothNodes(h[t], h[pairs[t]], k))
  {
    assert now[t] == After(h, pairs, t);
    if t in pairs {
      PairsAreReached(h, dst, src, pairs, t);
    }
  }

  lemma {:induction false} SourceReach(h: Heap, now: Heap, dst: Table, src: Table, pairs: map<Table, Table>, rest: Path)
    requires HeapMerged(h, now, dst, src, pairs) && dst.path == [] == src.path && Pathed(h) && Pathed(now)
    ensures Reach(now, src, rest) == Reach(h, src, rest)
    decreases |rest|
  {
    if rest != [] {
      var a, k := rest[..|rest| - 1], rest[|rest| - 1];
      assert rest == a + [k];
      SourceReach(h, now, dst, src, pairs, a);
      ReachLast(h, src, a, k);
      ReachLast(now, src, a, k);
      PathReached(h, src, a);
      assert src.path + a == a;
      if Reach(h, src, a).Some? {
        SourceStays(h, now, dst, src, pairs, Reach(h, src, a).value);
      }
    }
  }

  /** What is reached after a merge was reached before, or is a map of the source. */
  lemma {:induction false} ReachMerged(h: Heap, now: Heap, dst: Table, src: Table, pairs: map<Table, Table>, t: Table, rest: Path)
    requires HeapMerged(h, now, dst, src, pairs) && dst.path == [] && src.path == [] && t.path == [] && Pathed(h) && Pathed(now)
    ensures Reach(now, t, rest).Some? ==>
              Reach(now, t, rest) == if Reach(h, t, rest).Some? then Reach(h, t, rest) else Reach(h, src, rest)
    decreases |rest|
  {
    if rest != [] {
      var a, k := rest[..|rest| - 1], rest[|rest| - 1];
      assert rest == a + [k];
      ReachMerged(h, now, dst, src, pairs, t, a);
      ReachLast(now, t, a, k);
      if Reach(now, t, rest).Some? {
        ReachMergedLast(h, now, dst, src, pairs, t, a, k, Reach(now, t, a).value);
      }
    }
  }

  lemma ReachMergedLast(h: Heap, now: Heap, dst: Table, src: Table, pairs: map<Table, Table>, t: Table, a: Path, k: string, w: Table)
    requires HeapMerged(h, now, dst, src, pairs) && dst.path == [] && src.path == [] && t.path == [] && Pathed(h)
    requires w in h && k in now[w] && now[w][k].Node? && if Reach(h, t, a).Some? then Reach(h, t, a) == Some(w) else Reach(h, src, a) == Some(w)
    ensures Some(now[w][k].table) == if Reach(h, t, a + [k]).Some? then Reach(h, t, a + [k]) else Reach(h, src, a + [k])
  {
    ReachLast(h, t, a, k);
    ReachLast(h, src, a, k);
    PathReached(h, t, a);
    PathReached(h, src, a);
    assert [] + a == a;
    if Reach(h, t, a).None? {
      SourceStays(h, now, dst, src, pairs, w);
    } else {
      MergedEntry(h, now, dst, src, pairs, w, k);
    }
  }

  // ----- where a path stops -----

  /** The maps along `path` stop after `i` segments. */
  ghost predicate StopsAt(h: Heap, t: Table, path: Path, i: nat) {
    i < |path| && Reach(h, t, path[..i]).Some? && Reach(h, t, path[..i + 1]).None?
  }

  lemma {:induction false} StopsSomewhere(h: Heap, t: Table, path: Path, n: nat) returns (i: nat)
    requires t in h && n <= |path| && Reach(h, t, path[..n]).None?
    ensures i < n && StopsAt(h, t, path, i)
    decreases n
  {
    assert path[..0] == [];
    if Reach(h, t, path[..n - 1]).Some? {
      i := n - 1;
    } else {
      i := StopsSomewhere(h, t, path, n - 1);
    }
  }
}
