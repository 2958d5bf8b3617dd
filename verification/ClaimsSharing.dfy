/** What a merge in place does to the maps themselves, on snapshots of the heap: which maps
    are written, and which of them come to share the maps of the source. */
module ClaimsSharing {
  import opened ClaimsHeap
  import opened ClaimValues
  import opened Wrappers

  type Entries = map<string, Cell>
  type Heap = map<Table, Entries>

  ghost function Snap(tables: set<Table>): Heap
    reads tables
  {
    map t: Table | t in tables :: t.entries
  }

  /** The map that `t` nests at `rest`. */
  ghost function Reach(h: Heap, t: Table, rest: Path): (r: Option<Table>)
    ensures r.Some? ==> r.value in h
    decreases |rest|
  {
    if t !in h then None
    else if rest == [] then Some(t)
    else if rest[0] in h[t] && h[t][rest[0]].Node? then Reach(h, h[t][rest[0]].table, rest[1..])
    else None
  }

  predicate BothNodes(a: Entries, b: Entries, k: string) {
    k in a && k in b && a[k].Node? && b[k].Node?
  }

  /** The entries of `a` with those of `b`, but where both nest a map `a` keeps its own. The
      keys of `todo` are left. */
  ghost function Overlaid(a: Entries, b: Entries, todo: set<string>): Entries {
    map k | k in a.Keys + (b.Keys - todo) :: if k in b && k !in todo && !BothNodes(a, b, k) then b[k] else a[k]
  }

  /** The maps a merge writes, each with the map it takes entries from: the two roots, and
      from any pair the maps both nest at a key. */
  ghost predicate Pairing(h: Heap, dst: Table, src: Table, pairs: map<Table, Table>, todo: set<string>) {
    dst in pairs && pairs[dst] == src &&
    (forall t: Table :: t in pairs ==> t in h && pairs[t] in h && dst.path <= t.path && pairs[t].path == t.path) &&
    (forall t: Table :: t in pairs && t != dst ==> Nested(h, dst, pairs, todo, t)) &&
    (forall t: Table, k: string {:trigger BothNodes(h[t], h[pairs[t]], k)} ::
       t in pairs && BothNodes(h[t], h[pairs[t]], k) && !(t == dst && k in todo) ==>
       h[t][k].table in pairs && pairs[h[t][k].table] == h[pairs[t]][k].table)
  }

  ghost predicate Nested(h: Heap, dst: Table, pairs: map<Table, Table>, todo: set<string>, t: Table)
    requires t in pairs
  {
    |t.path| > |dst.path| && t.path[|dst.path|] !in todo &&
    exists p: Table, k: string :: p in pairs && p in h && pairs[p] in h && t.path == p.path + [k] &&
      BothNodes(h[p], h[pairs[p]], k) && h[p][k].table == t && h[pairs[p]][k].table == pairs[t]
  }

  ghost function After(h: Heap, pairs: map<Table, Table>, t: Table): Entries
    requires t in h
  {
    if t in pairs && pairs[t] in h then Overlaid(h[t], h[pairs[t]], {}) else h[t]
  }

  /** A merge of which the keys of `todo` are left. */
  ghost predicate HeapPart(h: Heap, now: Heap, dst: Table, src: Table, pairs: map<Table, Table>, todo: set<string>) {
    dst in h && src in h && now.Keys == h.Keys && Pairing(h, dst, src, pairs, todo) &&
    (forall t: Table :: t in h && t != dst ==> now[t] == After(h, pairs, t)) &&
    now[dst] == Overlaid(h[dst], h[src], todo)
  }

  ghost predicate HeapMerged(h: Heap, now: Heap, dst: Table, src: Table, pairs: map<Table, Table>) {
    HeapPart(h, now, dst, src, pairs, {})
  }

  /** One key is merged. */
  ghost predicate HeapKey(h: Heap, now: Heap, dst: Table, src: Table, k: string, pairs: map<Table, Table>) {
    dst in h && src in h && k in h[src] && now.Keys == h.Keys &&
    if BothNodes(h[dst], h[src], k) then
      Pairing(h, h[dst][k].table, h[src][k].table, pairs, {}) && h[dst][k].table.path == dst.path + [k] &&
      forall t: Table :: t in h ==> now[t] == After(h, pairs, t)
    else
      pairs == map[] && now == h[dst := h[dst][k := h[src][k]]]
  }

  // ----- one key after another -----

  lemma OverlaidBySelf(a: Entries, todo: set<string>)
    ensures Overlaid(a, a, todo) == a
  {
  }

  lemma SourceIsKept(h: Heap, now: Heap, dst: Table, src: Table, pairs: map<Table, Table>, todo: set<string>)
    requires HeapPart(h, now, dst, src, pairs, todo) && src.path == dst.path
    ensures now[src] == h[src]
  {
    OverlaidBySelf(h[src], todo);
    assert src != dst && src in pairs ==> Nested(h, dst, pairs, todo, src);
  }

  /** Nothing below a key that is left has changed. */
  lemma LeftIsKept(h: Heap, now: Heap, dst: Table, src: Table, pairs: map<Table, Table>, todo: set<string>, k: string, t: Table)
    requires HeapPart(h, now, dst, src, pairs, todo) && k in todo && t in h && dst.path + [k] <= t.path
    ensures t !in pairs && t != dst && now[t] == h[t]
  {
    assert t.path[|dst.path|] == (dst.path + [k])[|dst.path|];
    assert t in pairs && t != dst ==> Nested(h, dst, pairs, todo, t);
  }

  lemma OverlaidMore(a: Entries, b: Entries, todo: set<string>, k: string)
    requires k in todo && k in b
    ensures BothNodes(a, b, k) ==> Overlaid(a, b, todo - {k}) == Overlaid(a, b, todo)
    ensures !BothNodes(a, b, k) ==> Overlaid(a, b, todo - {k}) == Overlaid(a, b, todo)[k := b[k]]
    ensures BothNodes(Overlaid(a, b, todo), b, k) <==> BothNodes(a, b, k)
    ensures k in a ==> k in Overlaid(a, b, todo) && Overlaid(a, b, todo)[k] == a[k]
  {
  }

  lemma StoredKey(h: Heap, now: Heap, next: Heap, dst: Table, src: Table, pairs: map<Table, Table>, todo: set<string>,
                  k: string)
    requires HeapPart(h, now, dst, src, pairs, todo) && src.path == dst.path && k in todo && k in h[src]
    requires !BothNodes(h[dst], h[src], k) && next == now[dst := now[dst][k := h[src][k]]]
    ensures HeapPart(h, next, dst, src, pairs, todo - {k})
  {
    OverlaidMore(h[dst], h[src], todo, k);
    forall t: Table | t in pairs && t != dst ensures Nested(h, dst, pairs, todo - {k}, t) {
      assert Nested(h, dst, pairs, todo, t);
    }
  }

  /** The pairs below `k` are pairs of the heap as it was at first. */
  lemma PairsBelow(h: Heap, now: Heap, dst: Table, src: Table, pairs: map<Table, Table>, todo: set<string>, k: string,
                   more: map<Table, Table>)
    requires HeapPart(h, now, dst, src, pairs, todo) && k in todo && BothNodes(h[dst], h[src], k)
    requires h[dst][k].table.path == dst.path + [k] && Pairing(now, h[dst][k].table, h[src][k].table, more, {})
    ensures Pairing(h, h[dst][k].table, h[src][k].table, more, {})
    ensures forall t: Table :: t in more ==> now[t] == h[t] && now[more[t]] == h[more[t]] && t !in pairs && t != dst
  {
    forall t: Table | t in more ensures now[t] == h[t] && now[more[t]] == h[more[t]] && t !in pairs && t != dst {
      LeftIsKept(h, now, dst, src, pairs, todo, k, t);
      LeftIsKept(h, now, dst, src, pairs, todo, k, more[t]);
    }
    var root := h[dst][k].table;
    forall t: Table | t in more && t != root ensures Nested(h, root, more, {}, t) {
      assert Nested(now, root, more, {}, t);
    }
  }

  lemma NestedMore(h: Heap, dst: Table, pairs: map<Table, Table>, todo: set<string>, t: Table, all: map<Table, Table>,
                   less: set<string>)
    requires t in pairs && Nested(h, dst, pairs, todo, t) && less <= todo
    requires forall p: Table :: p in pairs ==> p in all && all[p] == pairs[p]
    ensures Nested(h, dst, all, less, t)
  {
    var p: Table, k: string :| p in pairs && p in h && pairs[p] in h && t.path == p.path + [k] &&
      BothNodes(h[p], h[pairs[p]], k) && h[p][k].table == t && h[pairs[p]][k].table == pairs[t];
    assert p in all && all[p] == pairs[p];
  }

  /** A pair below `k` is nested in the pair of the roots. */
  lemma NestedBelow(h: Heap, dst: Table, src: Table, k: string, more: map<Table, Table>, all: map<Table, Table>, t: Table,
                    left: set<string>)
    requires dst in h && src in h && BothNodes(h[dst], h[src], k) && h[dst][k].table.path == dst.path + [k]
    requires Pairing(h, h[dst][k].table, h[src][k].table, more, {}) && t in more && k !in left
    requires dst in all && all[dst] == src && forall p: Table :: p in more ==> p in all && all[p] == more[p]
    ensures Nested(h, dst, all, left, t)
  {
    var root := h[dst][k].table;
    assert root.path <= t.path;
    assert t.path[|dst.path|] == root.path[|dst.path|] == k;
    if t == root {
      assert dst in all && all[dst] in h && t.path == dst.path + [k];
    } else {
      assert Nested(h, root, more, {}, t);
      var p: Table, j: string :| p in more && p in h && more[p] in h && t.path == p.path + [j] &&
        BothNodes(h[p], h[more[p]], j) && h[p][j].table == t && h[more[p]][j].table == more[t];
      assert p in all && all[p] == more[p];
    }
  }

  lemma JoinedPairs(h: Heap, dst: Table, src: Table, pairs: map<Table, Table>, todo: set<string>, k: string,
                    more: map<Table, Table>)
    requires dst in h && src in h && Pairing(h, dst, src, pairs, todo) && k in todo && BothNodes(h[dst], h[src], k)
    requires h[dst][k].table.path == dst.path + [k] && Pairing(h, h[dst][k].table, h[src][k].table, more, {})
    requires forall t: Table :: t in more ==> t !in pairs && t != dst
    ensures Pairing(h, dst, src, pairs + more, todo - {k})
  {
    var all := pairs + more;
    forall t: Table | t in all && t != dst ensures Nested(h, dst, all, todo - {k}, t) {
      if t in more {
        NestedBelow(h, dst, src, k, more, all, t, todo - {k});
      } else {
        NestedMore(h, dst, pairs, todo, t, all, todo - {k});
      }
    }
    forall t: Table, j: string | t in all && BothNodes(h[t], h[all[t]], j) && !(t == dst && j in todo - {k})
      ensures h[t][j].table in all && all[h[t][j].table] == h[all[t]][j].table
    {
      assert t in more ==> h[t][j].table in more && more[h[t][j].table] == h[more[t]][j].table;
    }
  }

  lemma MergedKeyOfMaps(h: Heap, now: Heap, next: Heap, dst: Table, src: Table, pairs: map<Table, Table>, todo: set<string>,
                        k: string, more: map<Table, Table>)
    requires HeapPart(h, now, dst, src, pairs, todo) && k in todo && k in h[src] && BothNodes(h[dst], h[src], k)
    requires h[dst][k].table.path == dst.path + [k] && Pairing(now, h[dst][k].table, h[src][k].table, more, {})
    requires next.Keys == now.Keys && forall t: Table :: t in now ==> next[t] == After(now, more, t)
    ensures HeapPart(h, next, dst, src, pairs + more, todo - {k})
  {
    PairsBelow(h, now, dst, src, pairs, todo, k, more);
    JoinedPairs(h, dst, src, pairs, todo, k, more);
    OverlaidMore(h[dst], h[src], todo, k);
    forall t: Table | t in h && t != dst ensures next[t] == After(h, pairs + more, t) {
      assert now[t] == After(h, pairs, t);
    }
  }

  /** Merging the keys one after another merges them all. */
  lemma HeapKeyJoins(h: Heap, now: Heap, next: Heap, dst: Table, src: Table, pairs: map<Table, Table>, todo: set<string>,
                     k: string, more: map<Table, Table>)
    requires HeapPart(h, now, dst, src, pairs, todo) && src.path == dst.path && k in todo
    requires HeapKey(now, next, dst, src, k, more)
    ensures HeapPart(h, next, dst, src, pairs + more, todo - {k})
  {
    SourceIsKept(h, now, dst, src, pairs, todo);
    OverlaidMore(h[dst], h[src], todo, k);
    if BothNodes(h[dst], h[src], k) {
      MergedKeyOfMaps(h, now, next, dst, src, pairs, todo, k, more);
    } else {
      StoredKey(h, now, next, dst, src, pairs, todo, k);
      assert pairs + more == pairs;
    }
  }

  lemma HeapAtFirst(h: Heap, dst: Table, src: Table)
    requires dst in h && src in h && src.path == dst.path
    ensures HeapPart(h, h, dst, src, map[dst := src], h[src].Keys)
  {
    assert Overlaid(h[dst], h[src], h[src].Keys) == h[dst];
  }

  lemma HeapKeyOfEntry(h: Heap, now: Heap, dst: Table, src: Table, k: string)
    requires dst in h && src in h && k in h[src] && !BothNodes(h[dst], h[src], k)
    requires now.Keys == h.Keys && now[dst] == h[dst][k := h[src][k]] && forall t: Table :: t in h && t != dst ==> now[t] == h[t]
    ensures HeapKey(h, now, dst, src, k, map[])
  {
    assert now == h[dst := h[dst][k := h[src][k]]];
  }

  /** A merge of the maps nested at `k`, seen from all maps. */
  lemma HeapKeyOfChild(h: Heap, now: Heap, inner: Heap, after: Heap, dst: Table, src: Table, k: string, pairs: map<Table, Table>)
    requires dst in h && src in h && BothNodes(h[dst], h[src], k) && h[dst][k].table.path == dst.path + [k]
    requires HeapMerged(inner, after, h[dst][k].table, h[src][k].table, pairs)
    requires now.Keys == h.Keys && inner.Keys <= h.Keys
    requires forall t: Table :: t in h ==> if t in inner then h[t] == inner[t] && now[t] == after[t] else now[t] == h[t]
    ensures HeapKey(h, now, dst, src, k, pairs)
  {
    var root := h[dst][k].table;
    forall t: Table | t in pairs && t != root ensures Nested(h, root, pairs, {}, t) {
      assert Nested(inner, root, pairs, {}, t);
    }
  }
}
