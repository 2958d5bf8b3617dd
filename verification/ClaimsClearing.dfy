/** Removing the claim at a path in place, and what that removes from every map that shares
    the map it is removed from. */
module ClaimsClearing {
  import opened ClaimMerging
  import opened ClaimsHeap
  import opened ClaimsInPlace
  import opened ClaimsSharing
  import opened ClaimValues
  import opened Wrappers

  /** The labels are what a snapshot of the maps holds. */
  ghost predicate HeapLive(h: Heap, live: Labels, still: Labels) {
    h.Keys == live.Keys && forall t: Table :: t in live ==> EntriesLive(h[t], live[t], t.path, live, still)
  }

  lemma LiveIsHeapLive(live: Labels, still: Labels)
    ensures Live(live, still) <==> HeapLive(Snap(live.Keys), live, still)
  {
    assert forall t: Table :: t in live ==> (LiveTable(t, live[t], live, still) <==> EntriesLive(t.entries, live[t], t.path, live, still));
    assert forall t: Table :: t in live ==> Snap(live.Keys)[t] == t.entries;
  }

  // ----- maps and the documents they hold -----

  /** A nested map is held as an object, and nothing else is. */
  lemma HeldAt(h: Heap, live: Labels, still: Labels, t: Table, k: string)
    requires HeapLive(h, live, still) && t in live
    ensures k in h[t] <==> k in live[t]
    ensures k in h[t] ==> (h[t][k].Node? <==> live[t][k].Object?)
    ensures k in h[t] && h[t][k].Node? ==>
              h[t][k].table in live && h[t][k].table.path == t.path + [k] && live[t][k] == Object(live[h[t][k].table])
  {
    assert EntriesLive(h[t], live[t], t.path, live, still);
    assert k in h[t] ==> At(h[t][k], live[t][k], t.path + [k], live, still);
  }

  lemma NotAnObject(v: Value, rest: Path)
    requires !v.Object?
    ensures !IsObject(Walk(v, rest))
  {
  }

  ghost function HeldBy(live: Labels, t: Option<Table>): Option<Value> {
    if t.Some? && t.value in live then Some(Object(live[t.value])) else None
  }

  ghost function ObjectOnly(v: Option<Value>): Option<Value> {
    if IsObject(v) then v else None
  }

  lemma {:induction false} ReachedHolds(h: Heap, live: Labels, still: Labels, t: Table, rest: Path)
    requires HeapLive(h, live, still) && t in live
    ensures HeldBy(live, Reach(h, t, rest)) == ObjectOnly(Walk(Object(live[t]), rest))
    decreases rest
  {
    if rest != [] {
      var k, tail := rest[0], rest[1..];
      HeldAt(h, live, still, t, k);
      if k in h[t] && h[t][k].Node? {
        ReachedHolds(h, live, still, h[t][k].table, tail);
      } else if k in live[t] {
        NotAnObject(live[t][k], tail);
      }
    }
  }

  lemma {:induction false} ReachedPath(h: Heap, live: Labels, still: Labels, t: Table, rest: Path)
    requires HeapLive(h, live, still) && t in live
    ensures Reach(h, t, rest).Some? ==> Reach(h, t, rest).value.path == t.path + rest
    decreases rest
  {
    if rest == [] {
      assert t.path + rest == t.path;
    } else {
      var k, tail := rest[0], rest[1..];
      HeldAt(h, live, still, t, k);
      if k in h[t] && h[t][k].Node? {
        ReachedPath(h, live, still, h[t][k].table, tail);
        assert t.path + rest == t.path + [k] + tail;
      }
    }
  }

  lemma ReachedIsHeld(h: Heap, live: Labels, still: Labels, t: Table, rest: Path)
    requires HeapLive(h, live, still) && t in live
    ensures Reach(h, t, rest).Some? <==> IsObject(Walk(Object(live[t]), rest))
    ensures Reach(h, t, rest).Some? ==>
              Walk(Object(live[t]), rest) == Some(Object(live[Reach(h, t, rest).value])) &&
              Reach(h, t, rest).value.path == t.path + rest
  {
    ReachedHolds(h, live, still, t, rest);
    ReachedPath(h, live, still, t, rest);
  }

  lemma {:induction false} NothingToClear(m: Claims, path: Path)
    requires |path| > 0
    requires !IsObject(Walk(Object(m), path[..|path| - 1]))
    ensures Clear(m, path) == m
    decreases path
  {
    var front := path[..|path| - 1];
    if |path| > 1 && path[0] in m && m[path[0]].Object? {
      assert front[0] == path[0] && front[1..] == path[1..][..|path| - 2];
      NothingToClear(m[path[0]].fields, path[1..]);
    } else {
      assert |path| == 1 ==> front == [];
    }
  }

  // ----- clearing -----

  ghost function Front(path: Path): Path
    requires |path| > 0
  {
    path[..|path| - 1]
  }

  ghost function Last(path: Path): string
    requires |path| > 0
  {
    path[|path| - 1]
  }

  /** `t` nests `cur` at the parent of `path`. */
  ghost predicate Holds(h: Heap, t: Table, cur: Table, path: Path)
    requires |path| > 0
  {
    t.path <= Front(path) && Reach(h, t, Front(path)[|t.path|..]) == Some(cur)
  }

  ghost function ClearedLabels(h: Heap, live: Labels, cur: Table, path: Path): Labels
    requires |path| > 0
  {
    map t: Table | t in live :: if Holds(h, t, cur, path) then Clear(live[t], path[|t.path|..]) else live[t]
  }

  /** Only maps on the way to the parent hold it. */
  lemma HoldsBelow(h: Heap, live: Labels, still: Labels, t: Table, k: string, cur: Table, path: Path)
    requires HeapLive(h, live, still) && |path| > 0 && t in live && k in h[t] && h[t][k].Node?
    ensures h[t][k].table.path == t.path + [k]
    ensures Holds(h, h[t][k].table, cur, path) <==>
            |t.path| < |Front(path)| && t.path <= Front(path) && Front(path)[|t.path|] == k && Holds(h, t, cur, path)
  {
    assert EntriesLive(h[t], live[t], t.path, live, still);
    var c := h[t][k].table;
    var q := Front(path);
    assert At(h[t][k], live[t][k], t.path + [k], live, still);
    if t.path <= q && |t.path| < |q| && q[|t.path|] == k {
      assert q[..|t.path| + 1] == t.path + [k];
    }
    if t.path + [k] <= q {
      assert q[|t.path|] == (t.path + [k])[|t.path|];
      assert q[|t.path|..][1..] == q[|c.path|..];
    }
  }

  /** An entry of a map that is not `cur` fits the new label. */
  lemma ClearedFits(h: Heap, live: Labels, still: Labels, cur: Table, path: Path, t: Table, k: string)
    requires HeapLive(h, live, still) && |path| > 0 && cur in live && cur.path == Front(path)
    requires t in live && t != cur && k in h[t]
    ensures var now := ClearedLabels(h, live, cur, path);
            now[t].Keys == live[t].Keys && At(h[t][k], now[t][k], t.path + [k], now, still)
  {
    var now := ClearedLabels(h, live, cur, path);
    assert EntriesLive(h[t], live[t], t.path, live, still);
    assert At(h[t][k], live[t][k], t.path + [k], live, still);
    if Holds(h, t, cur, path) {
      OnTheWay(h, live, still, cur, path, t);
    }
    if h[t][k].Node? {
      HoldsBelow(h, live, still, t, k, cur, path);
    }
  }

  lemma OnTheWay(h: Heap, live: Labels, still: Labels, cur: Table, path: Path, t: Table)
    requires HeapLive(h, live, still) && |path| > 0 && t in live && t != cur && cur.path == Front(path) && Holds(h, t, cur, path)
    ensures |t.path| < |Front(path)|
    ensures var k := Front(path)[|t.path|];
            k in h[t] && h[t][k].Node? && k in live[t] && live[t][k].Object? &&
            Clear(live[t], path[|t.path|..]) == live[t][k := Object(Clear(live[t][k].fields, path[|t.path| + 1..]))]
  {
    var q := Front(path);
    assert EntriesLive(h[t], live[t], t.path, live, still);
    assert q[|t.path|..] != [];
    var k := q[|t.path|];
    assert q[|t.path|..][0] == k;
    assert At(h[t][k], live[t][k], t.path + [k], live, still);
    assert path[|t.path|..][0] == k && path[|t.path|..][1..] == path[|t.path| + 1..];
  }

  lemma ClearedCur(h: Heap, live: Labels, still: Labels, cur: Table, path: Path)
    requires HeapLive(h, live, still) && |path| > 0 && cur in live && cur.path == Front(path)
    ensures var now := ClearedLabels(h, live, cur, path);
            EntriesLive(h[cur] - {Last(path)}, now[cur], cur.path, now, still)
  {
    var now := ClearedLabels(h, live, cur, path);
    assert EntriesLive(h[cur], live[cur], cur.path, live, still);
    assert path[|cur.path|..] == [Last(path)];
    assert Front(path)[|cur.path|..] == [];
    forall k | k in h[cur] && k != Last(path) ensures At(h[cur][k], now[cur][k], cur.path + [k], now, still) {
      assert At(h[cur][k], live[cur][k], cur.path + [k], live, still);
      if h[cur][k].Node? {
        HoldsBelow(h, live, still, cur, k, cur, path);
      }
    }
  }

  lemma ClearedIsLive(h: Heap, live: Labels, still: Labels, cur: Table, path: Path)
    requires HeapLive(h, live, still) && |path| > 0 && cur in live && cur.path == Front(path)
    ensures HeapLive(h[cur := h[cur] - {Last(path)}], ClearedLabels(h, live, cur, path), still)
  {
    var now := ClearedLabels(h, live, cur, path);
    forall t: Table | t in live && t != cur ensures EntriesLive(h[t], now[t], t.path, now, still) {
      assert EntriesLive(h[t], live[t], t.path, live, still);
      if Holds(h, t, cur, path) {
        OnTheWay(h, live, still, cur, path, t);
      }
      forall k | k in h[t] ensures k in now[t] && At(h[t][k], now[t][k], t.path + [k], now, still) {
        ClearedFits(h, live, still, cur, path, t, k);
      }
    }
    ClearedCur(h, live, still, cur, path);
  }

  /** The claim at `path` below `dst` is removed from the map that holds it. */
  ghost predicate HeapCleared(h: Heap, live: Labels, after: Heap, now: Labels, dst: Table, path: Path)
    requires |path| > 0
  {
    var parent := Reach(h, dst, Front(path));
    if parent.None? then after == h && now == live
    else after == h[parent.value := h[parent.value] - {Last(path)}] && now == ClearedLabels(h, live, parent.value, path)
  }

  method WalkTable(root: Table, parts: Path, ghost live: Labels, ghost still: Labels) returns (r: Option<Table>)
    requires root in live && Live(live, still)
    ensures r == Reach(Snap(live.Keys), root, parts)
  {
    var cur := root;
    for i := 0 to |parts|
      invariant cur in live && Reach(Snap(live.Keys), root, parts) == Reach(Snap(live.Keys), cur, parts[i..])
    {
      assert LiveTable(cur, live[cur], live, still);
      assert parts[i..][1..] == parts[i + 1..];
      if parts[i] !in cur.entries || !cur.entries[parts[i]].Node? {
        return None;
      }
      cur := cur.entries[parts[i]].table;
    }
    r := Some(cur);
  }

  /** What clearing does, whether or not there is a parent. */
  lemma ClearedDocument(h: Heap, live: Labels, still: Labels, dst: Table, path: Path)
    requires HeapLive(h, live, still) && dst in live && dst.path == [] && |path| > 0
    ensures var parent := Reach(h, dst, Front(path));
            if parent.None? then Clear(live[dst], path) == live[dst]
            else
              var now := ClearedLabels(h, live, parent.value, path);
              now[dst] == Clear(live[dst], path) && HeapLive(h[parent.value := h[parent.value] - {Last(path)}], now, still)
  {
    ReachedIsHeld(h, live, still, dst, Front(path));
    var parent := Reach(h, dst, Front(path));
    if parent.None? {
      NothingToClear(live[dst], path);
    } else {
      assert dst.path + Front(path) == Front(path) && Front(path)[0..] == Front(path) && path[0..] == path;
      ClearedIsLive(h, live, still, parent.value, path);
    }
  }

  /** Clearing in place gives what clearing the document gives. */
  method ClearPath(dst: Table, parts: Path, ghost live: Labels, ghost still: Labels) returns (ghost now: Labels)
    requires dst in live && dst.path == [] && Live(live, still) && |parts| > 0
    modifies live.Keys
    ensures now.Keys == live.Keys && Live(now, still) && now[dst] == Clear(live[dst], parts)
    ensures HeapCleared(old(Snap(live.Keys)), live, Snap(live.Keys), now, dst, parts)
  {
    ghost var h := Snap(live.Keys);
    LiveIsHeapLive(live, still);
    ClearedDocument(h, live, still, dst, parts);
    var parent := WalkTable(dst, parts[..|parts| - 1], live, still);
    if parent.None? {
      now := live;
    } else {
      var m := parent.value;
      m.entries := m.entries - {parts[|parts| - 1]};
      now := ClearedLabels(h, live, m, parts);
      SnapOfChange(live.Keys, h, m, h[m] - {Last(parts)});
      LiveIsHeapLive(now, still);
    }
  }

  lemma SnapOfChange(tables: set<Table>, h: Heap, m: Table, entries: Entries)
    requires h.Keys == tables && m in tables && m.entries == entries
    requires forall t: Table :: t in tables && t != m ==> t.entries == h[t]
    ensures Snap(tables) == h[m := entries]
  {
  }
}
