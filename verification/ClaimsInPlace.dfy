/** Merging and clearing in place, in maps that other maps share. A map that the pipeline
    makes is nested at one path only, wherever it is reached from, so a write through one
    root shows at the same path under another. */
module ClaimsInPlace {
  import opened ClaimMerging
  import opened ClaimsHeap
  import opened ClaimsSharing
  import opened ClaimValues
  import opened Wrappers

  ghost predicate Below(live: Labels, path: Path) {
    forall t: Table :: t in live ==> path <= t.path
  }

  ghost function Under(live: Labels, path: Path): Labels {
    map t: Table | t in live && path <= t.path :: live[t]
  }

  lemma UnderIsLive(live: Labels, path: Path, still: Labels)
    requires Live(live, still)
    ensures Live(Under(live, path), still)
  {
    forall t: Table | t in Under(live, path) ensures LiveTable(t, live[t], Under(live, path), still) {
      assert LiveTable(t, live[t], live, still);
    }
  }

  /** What is nested outside `inner` is as `live` says. */
  ghost predicate LiveOutside(live: Labels, inner: set<Table>, still: Labels)
    reads live.Keys - inner
  {
    forall t: Table :: t in live && t !in inner ==> LiveTable(t, live[t], live, still)
  }

  /** The labels once the maps nested at `path` and `k` hold what `inner` says. */
  ghost function Relabel(live: Labels, inner: Labels, path: Path, k: string): Labels
    reads live.Keys
  {
    map t: Table | t in live ::
      if t in inner then inner[t]
      else if t.path == path && k in t.entries && t.entries[k].Node? && t.entries[k].table in inner
      then live[t][k := Object(inner[t.entries[k].table])]
      else live[t]
  }

  lemma JustBelow(path: Path, k: string, q: Path, j: string)
    requires path <= q && path + [k] <= q + [j] && !(path + [k] <= q)
    ensures q == path && j == k
  {
    if |q| == |path| {
      assert (path + [k])[|path|] == (q + [j])[|path|];
    }
  }

  lemma RelabelAt(live: Labels, inner: Labels, path: Path, k: string, still: Labels, t: Table, j: string)
    requires Below(live, path) && inner.Keys == Under(live, path + [k]).Keys
    requires t in live && t !in inner && LiveTable(t, live[t], live, still) && j in t.entries
    ensures var now := Relabel(live, inner, path, k);
            j in now[t] && At(t.entries[j], now[t][j], t.path + [j], now, still)
  {
    var now := Relabel(live, inner, path, k);
    var c := t.entries[j];
    assert At(c, live[t][j], t.path + [j], live, still);
    if c.Node? {
      assert c.table in inner <==> path + [k] <= t.path + [j];
      if c.table in inner {
        JustBelow(path, k, t.path, j);
      }
    } else {
      assert now[t][j] == live[t][j];
    }
  }

  lemma RelabelIsLive(live: Labels, inner: Labels, path: Path, k: string, still: Labels)
    requires Below(live, path) && inner.Keys == Under(live, path + [k]).Keys
    requires Live(inner, still) && LiveOutside(live, inner.Keys, still)
    ensures Live(Relabel(live, inner, path, k), still)
  {
    var now := Relabel(live, inner, path, k);
    LiveMore(inner, still, now, still);
    forall t: Table | t in live && t !in inner ensures LiveTable(t, now[t], now, still) {
      assert LiveTable(t, live[t], live, still);
      forall j | j in t.entries ensures j in now[t] && At(t.entries[j], now[t][j], t.path + [j], now, still) {
        RelabelAt(live, inner, path, k, still, t, j);
      }
    }
  }

  // ----- merging in place -----

  /** A map at `path` below the merge may hold some of what is merged, and would hold the
      same once merged itself. What holds all of it already stays. */
  ghost predicate Patched(before: Claims, after: Claims, path: Path, y: Claims) {
    match Walk(Object(y), path)
    case Some(Object(m)) => Merge(after, m) == Merge(before, m) && (Merge(before, m) == before ==> after == before)
    case _ => after == before
  }

  ghost predicate AllPatched(live: Labels, now: Labels, path: Path, y: Claims) {
    now.Keys == live.Keys && forall t: Table :: t in live && path <= t.path ==> Patched(live[t], now[t], t.path[|path|..], y)
  }

  /** A merge of which the keys of `todo` are left. */
  ghost predicate MergedPart(x: Claims, y: Claims, todo: set<string>, r: Claims) {
    todo <= y.Keys && r.Keys == x.Keys + (y.Keys - todo) &&
    forall k :: k in r ==> r[k] == if k in todo then x[k] else Merge(x, y)[k]
  }

  ghost predicate Merging(dst: Table, src: Table, live: Labels, still: Labels)
    reads live.Keys
  {
    dst in live && src in live && dst.path == src.path && Below(live, dst.path) && Live(live, still)
  }

  lemma PatchedTwice(live: Labels, now: Labels, after: Labels, path: Path, y: Claims)
    requires AllPatched(live, now, path, y) && AllPatched(now, after, path, y)
    ensures AllPatched(live, after, path, y)
  {
    forall t: Table | t in live && path <= t.path ensures Patched(live[t], after[t], t.path[|path|..], y) {
      assert Patched(live[t], now[t], t.path[|path|..], y) && Patched(now[t], after[t], t.path[|path|..], y);
    }
  }

  ghost predicate EntriesLive(entries: map<string, Cell>, held: Claims, path: Path, live: Labels, still: Labels) {
    entries.Keys == held.Keys && forall j :: j in entries ==> At(entries[j], held[j], path + [j], live, still)
  }

  /** Only the label of `dst` changes when an entry of it does. */
  lemma StoreIsLive(dst: Table, k: string, c: Cell, v: Value, live: Labels, still: Labels, entries: map<string, Cell>)
    requires dst in live && Below(live, dst.path) && LiveOutside(live, {dst}, still)
    requires EntriesLive(entries, live[dst], dst.path, live, still)
    requires dst.entries == entries[k := c] && At(c, v, dst.path + [k], live, still)
    ensures Live(live[dst := live[dst][k := v]], still)
  {
    var now := live[dst := live[dst][k := v]];
    forall t: Table | t in now ensures LiveTable(t, now[t], now, still) {
      assert t != dst ==> LiveTable(t, live[t], live, still);
      forall j | j in t.entries ensures j in now[t] && At(t.entries[j], now[t][j], t.path + [j], now, still) {
        assert |t.path + [j]| > |dst.path|;
      }
    }
  }

  lemma StorePatches(dst: Table, live: Labels, y: Claims, k: string)
    requires dst in live && k in y && !(k in live[dst] && live[dst][k].Object? && y[k].Object?)
    ensures AllPatched(live, live[dst := live[dst][k := y[k]]], dst.path, y)
  {
    var x := live[dst];
    if y[k].Object? {
      MergeSelf(y[k].fields);
    }
    forall j ensures Field(Merge(x[k := y[k]], y), j) == Field(Merge(x, y), j) {
      MergedAt(x[k := y[k]], y, j);
      MergedAt(x, y, j);
    }
    SameFields(Merge(x[k := y[k]], y), Merge(x, y));
    MergedAt(x, y, k);
    assert Merge(x, y) == x ==> x[k := y[k]] == x;
    assert dst.path[|dst.path|..] == [];
  }

  /** One key of `src` is merged into `dst`. */
  ghost predicate KeyMerged(dst: Table, src: Table, k: string, live: Labels, now: Labels, still: Labels)
    requires dst in live && src in live && k in live[src]
    reads now.Keys
  {
    Live(now, still) && AllPatched(live, now, dst.path, live[src]) &&
    now[dst] == live[dst][k := Merge(live[dst], live[src])[k]] && now[src] == live[src]
  }

  /** An entry that replaces whatever `dst` has there. */
  lemma StoreReady(dst: Table, src: Table, k: string, live: Labels, still: Labels)
    requires Merging(dst, src, live, still) && k in src.entries
    requires !(src.entries[k].Node? && k in dst.entries && dst.entries[k].Node?)
    ensures LiveOutside(live, {dst}, still) && EntriesLive(dst.entries, live[dst], dst.path, live, still)
    ensures k in live[src] && At(src.entries[k], live[src][k], dst.path + [k], live, still)
    ensures Merge(live[dst], live[src])[k] == live[src][k] && src.entries.Keys == live[src].Keys
    ensures !(k in live[dst] && live[dst][k].Object? && live[src][k].Object?)
  {
    assert LiveTable(src, live[src], live, still) && LiveTable(dst, live[dst], live, still);
    MergedAt(live[dst], live[src], k);
  }

  lemma StoreDone(dst: Table, src: Table, k: string, c: Cell, live: Labels, still: Labels, entries: map<string, Cell>)
    requires dst in live && src in live && Below(live, dst.path) && LiveOutside(live, {dst}, still)
    requires EntriesLive(entries, live[dst], dst.path, live, still) && dst.entries == entries[k := c]
    requires k in live[src] && At(c, live[src][k], dst.path + [k], live, still)
    requires Merge(live[dst], live[src])[k] == live[src][k]
    requires !(k in live[dst] && live[dst][k].Object? && live[src][k].Object?)
    ensures KeyMerged(dst, src, k, live, live[dst := live[dst][k := live[src][k]]], still)
  {
    StoreIsLive(dst, k, c, live[src][k], live, still, entries);
    StorePatches(dst, live, live[src], k);
    StoreLabels(dst, src, k, live);
  }

  lemma StoreLabels(dst: Table, src: Table, k: string, live: Labels)
    requires dst in live && src in live && k in live[src] && Merge(live[dst], live[src])[k] == live[src][k]
    ensures var now := live[dst := live[dst][k := live[src][k]]];
            now[dst] == live[dst][k := Merge(live[dst], live[src])[k]] && now[src] == live[src]
  {
  }

  method StoreEntry(dst: Table, src: Table, k: string, ghost live: Labels, ghost still: Labels)
    returns (ghost now: Labels, ghost pairs: map<Table, Table>)
    requires Merging(dst, src, live, still) && k in src.entries
    requires !(src.entries[k].Node? && k in dst.entries && dst.entries[k].Node?)
    modifies dst
    ensures k in live[src] && KeyMerged(dst, src, k, live, now, still) && src.entries.Keys == old(src.entries.Keys)
    ensures HeapKey(old(Snap(live.Keys)), Snap(live.Keys), dst, src, k, pairs)
  {
    StoreReady(dst, src, k, live, still);
    ghost var entries := dst.entries;
    var c := src.entries[k];
    dst.entries := dst.entries[k := c];
    StoreDone(dst, src, k, c, live, still, entries);
    HeapKeyOfEntry(old(Snap(live.Keys)), Snap(live.Keys), dst, src, k);
    now, pairs := live[dst := live[dst][k := live[src][k]]], map[];
  }

  lemma ChildPatched(live: Labels, inner: Labels, path: Path, k: string, still: Labels, y: Claims, t: Table)
    requires Below(live, path) && k in y && y[k].Object? && AllPatched(Under(live, path + [k]), inner, path + [k], y[k].fields)
    requires t in live && (t !in inner ==> LiveTable(t, live[t], live, still))
    ensures Patched(live[t], Relabel(live, inner, path, k)[t], t.path[|path|..], y)
  {
    var now := Relabel(live, inner, path, k);
    var rest := t.path[|path|..];
    if t in inner {
      assert rest[0] == k && rest[1..] == t.path[|path + [k]|..];
    } else if now[t] != live[t] {
      assert rest == [];
      var c := t.entries[k].table;
      assert At(t.entries[k], live[t][k], path + [k], live, still);
      assert c.path[|path + [k]|..] == [];
      assert Patched(live[c], inner[c], [], y[k].fields);
      ReplaceInside(live[t], inner[c], y, k);
    }
  }

  /** Merging sees an object only up to what it merges into it. */
  lemma ReplaceInside(x: Claims, m: Claims, y: Claims, k: string)
    requires k in x && x[k].Object? && k in y && y[k].Object? && Merge(x[k].fields, y[k].fields) == Merge(m, y[k].fields)
    ensures Merge(x[k := Object(m)], y) == Merge(x, y)
    ensures Merge(x, y) == x ==> Merge(x[k].fields, y[k].fields) == x[k].fields
  {
    forall j ensures Field(Merge(x[k := Object(m)], y), j) == Field(Merge(x, y), j) {
      MergedAt(x[k := Object(m)], y, j);
      MergedAt(x, y, j);
    }
    SameFields(Merge(x[k := Object(m)], y), Merge(x, y));
    MergedAt(x, y, k);
  }

  lemma ChildPatches(live: Labels, inner: Labels, path: Path, k: string, still: Labels, y: Claims)
    requires Below(live, path) && k in y && y[k].Object? && AllPatched(Under(live, path + [k]), inner, path + [k], y[k].fields)
    requires LiveOutside(live, inner.Keys, still)
    ensures AllPatched(live, Relabel(live, inner, path, k), path, y)
  {
    forall t: Table | t in live ensures Patched(live[t], Relabel(live, inner, path, k)[t], t.path[|path|..], y) {
      ChildPatched(live, inner, path, k, still, y, t);
    }
  }

  /** Both maps nested at `k`, with what is below them. */
  lemma ChildReady(dst: Table, src: Table, k: string, live: Labels, still: Labels) returns (inner: Labels)
    requires Merging(dst, src, live, still)
    requires k in src.entries && src.entries[k].Node? && k in dst.entries && dst.entries[k].Node?
    ensures inner == Under(live, dst.path + [k]) && dst !in inner && src !in inner
    ensures Merging(dst.entries[k].table, src.entries[k].table, inner, still) && LiveOutside(live, inner.Keys, still)
    ensures k in live[dst] && live[dst][k] == Object(inner[dst.entries[k].table])
    ensures k in live[src] && live[src][k] == Object(inner[src.entries[k].table])
  {
    inner := Under(live, dst.path + [k]);
    UnderIsLive(live, dst.path + [k], still);
    assert LiveTable(src, live[src], live, still) && LiveTable(dst, live[dst], live, still);
  }

  lemma ChildDone(dst: Table, src: Table, k: string, live: Labels, still: Labels, inner: Labels, after: Labels)
    requires dst in live && src in live && dst.path == src.path && Below(live, dst.path)
    requires inner == Under(live, dst.path + [k]) && dst !in inner && src !in inner
    requires k in src.entries && src.entries[k].Node? && k in dst.entries && dst.entries[k].Node?
    requires dst.entries[k].table in inner && src.entries[k].table in inner
    requires k in live[dst] && live[dst][k] == Object(inner[dst.entries[k].table])
    requires k in live[src] && live[src][k] == Object(inner[src.entries[k].table])
    requires LiveOutside(live, inner.Keys, still) && Live(after, still)
    requires AllPatched(inner, after, dst.path + [k], inner[src.entries[k].table])
    requires after[dst.entries[k].table] == Merge(inner[dst.entries[k].table], inner[src.entries[k].table])
    requires after[src.entries[k].table] == inner[src.entries[k].table]
    ensures KeyMerged(dst, src, k, live, Relabel(live, after, dst.path, k), still)
  {
    RelabelIsLive(live, after, dst.path, k, still);
    ChildPatches(live, after, dst.path, k, still, live[src]);
    ChildLabels(dst, src, k, live, after);
  }

  lemma ChildLabels(dst: Table, src: Table, k: string, live: Labels, after: Labels)
    requires dst in live && src in live && dst.path == src.path && dst !in after && src !in after
    requires k in src.entries && src.entries[k].Node? && k in dst.entries && dst.entries[k].Node?
    requires dst.entries[k].table in after && src.entries[k].table in after
    requires k in live[dst] && live[dst][k].Object? && k in live[src] && live[src][k] == Object(after[src.entries[k].table])
    requires after[dst.entries[k].table] == Merge(live[dst][k].fields, live[src][k].fields)
    ensures var now := Relabel(live, after, dst.path, k);
            now[dst] == live[dst][k := Merge(live[dst], live[src])[k]] && now[src] == live[src]
  {
    ChildLabel(dst, k, live, after);
    ChildLabel(src, k, live, after);
    MergedAt(live[dst], live[src], k);
  }

  lemma ChildLabel(t: Table, k: string, live: Labels, after: Labels)
    requires t in live && t !in after && k in t.entries && t.entries[k].Node? && t.entries[k].table in after
    ensures Relabel(live, after, t.path, k)[t] == live[t][k := Object(after[t.entries[k].table])]
  {
  }

  method MergeChild(dst: Table, src: Table, k: string, ghost live: Labels, ghost still: Labels)
    returns (ghost now: Labels, ghost pairs: map<Table, Table>)
    requires Merging(dst, src, live, still)
    requires k in src.entries && src.entries[k].Node? && k in dst.entries && dst.entries[k].Node?
    modifies Under(live, dst.path + [k]).Keys
    ensures k in live[src] && KeyMerged(dst, src, k, live, now, still) && src.entries.Keys == old(src.entries.Keys)
    ensures HeapKey(old(Snap(live.Keys)), Snap(live.Keys), dst, src, k, pairs)
    decreases Object(live[src]), 0
  {
    ghost var inner := ChildReady(dst, src, k, live, still);
    ghost var after;
    after, pairs := MergeNestedClaims(dst.entries[k].table, src.entries[k].table, inner, still);
    ChildDone(dst, src, k, live, still, inner, after);
    HeapKeyOfChild(old(Snap(live.Keys)), Snap(live.Keys), old(Snap(inner.Keys)), Snap(inner.Keys), dst, src, k, pairs);
    now := Relabel(live, after, dst.path, k);
  }

  lemma MergedKey(x: Claims, y: Claims, todo: set<string>, r: Claims, k: string)
    requires MergedPart(x, y, todo, r) && k in todo
    ensures MergedPart(x, y, todo - {k}, r[k := Merge(r, y)[k]])
  {
  }

  /** A merge in place of which the keys of `todo` are left. */
  ghost predicate Partly(dst: Table, src: Table, live: Labels, now: Labels, still: Labels, todo: set<string>)
    requires dst in live && src in live
    reads now.Keys
  {
    Merging(dst, src, now, still) && AllPatched(live, now, dst.path, live[src]) && now[src] == live[src] &&
    MergedPart(live[dst], live[src], todo, now[dst])
  }

  lemma PartlyOneMore(dst: Table, src: Table, live: Labels, now: Labels, after: Labels, still: Labels, todo: set<string>, k: string)
    requires dst in live && src in live && dst.path == src.path && Below(live, dst.path)
    requires AllPatched(live, now, dst.path, live[src]) && now[src] == live[src]
    requires MergedPart(live[dst], live[src], todo, now[dst]) && k in todo && KeyMerged(dst, src, k, now, after, still)
    ensures Partly(dst, src, live, after, still, todo - {k})
  {
    PatchedTwice(live, now, after, dst.path, live[src]);
    MergedKey(live[dst], live[src], todo, now[dst], k);
  }

  method MergeKey(dst: Table, src: Table, k: string, ghost live: Labels, ghost still: Labels)
    returns (ghost now: Labels, ghost pairs: map<Table, Table>)
    requires Merging(dst, src, live, still) && k in src.entries
    modifies live.Keys
    ensures k in live[src] && KeyMerged(dst, src, k, live, now, still) && src.entries.Keys == old(src.entries.Keys)
    ensures HeapKey(old(Snap(live.Keys)), Snap(live.Keys), dst, src, k, pairs)
    decreases Object(live[src]), 1
  {
    if src.entries[k].Node? && k in dst.entries && dst.entries[k].Node? {
      now, pairs := MergeChild(dst, src, k, live, still);
    } else {
      now, pairs := StoreEntry(dst, src, k, live, still);
    }
  }

  /** Merging in place gives what merging the documents gives, and leaves the source as it
      was. */
  method MergeNestedClaims(dst: Table, src: Table, ghost live: Labels, ghost still: Labels)
    returns (ghost now: Labels, ghost pairs: map<Table, Table>)
    requires Merging(dst, src, live, still)
    modifies live.Keys
    ensures Live(now, still) && AllPatched(live, now, dst.path, live[src])
    ensures now[dst] == Merge(live[dst], live[src]) && now[src] == live[src]
    ensures HeapMerged(old(Snap(live.Keys)), Snap(live.Keys), dst, src, pairs)
    decreases Object(live[src]), 2
  {
    var todo := src.entries.Keys;
    ghost var h := Snap(live.Keys);
    now, pairs := live, map[dst := src];
    PartlyAtFirst(dst, src, live, still);
    HeapAtFirst(h, dst, src);
    while todo != {}
      invariant todo <= src.entries.Keys && now.Keys == live.Keys && Partly(dst, src, live, now, still, todo)
      invariant HeapPart(h, Snap(live.Keys), dst, src, pairs, todo)
      decreases todo
    {
      var k :| k in todo;
      ghost var before := Snap(live.Keys);
      ghost var after, more;
      after, more := MergeKey(dst, src, k, now, still);
      PartlyOneMore(dst, src, live, now, after, still, todo, k);
      HeapKeyJoins(h, before, Snap(live.Keys), dst, src, pairs, todo, k, more);
      now, pairs := after, pairs + more;
      todo := todo - {k};
    }
    PartlyAtLast(dst, src, live, now, still);
  }

  lemma PartlyAtLast(dst: Table, src: Table, live: Labels, now: Labels, still: Labels)
    requires dst in live && src in live && Partly(dst, src, live, now, still, {})
    ensures now[dst] == Merge(live[dst], live[src])
  {
  }

  lemma PartlyAtFirst(dst: Table, src: Table, live: Labels, still: Labels)
    requires Merging(dst, src, live, still)
    ensures Partly(dst, src, live, live, still, src.entries.Keys)
  {
    assert LiveTable(src, live[src], live, still);
  }
}
