/** Claims as mutable maps that refer to one another. A labelling gives every map the
    document it holds; copies are made of new maps that hold the same documents. */
module ClaimsHeap {
  import opened ClaimValues

  /** A claims map, shared by reference. A map that the pipeline makes knows the path at
      which it is nested. */
  class Table {
    var entries: map<string, Cell>
    ghost const path: Path

    constructor (entries: map<string, Cell>, ghost path: Path)
      ensures this.entries == entries && this.path == path
    {
      this.entries := entries;
      this.path := path;
    }
  }

  /** A claim value: a nested map, an array, or something immutable. */
  datatype Cell = Leaf(value: Value) | Node(table: Table) | List(items: seq<Cell>)

  type Labels = map<Table, Claims>

  /** `c` holds `v`, where every map in it, in arrays too, is one that `still` labels. */
  ghost predicate Shows(c: Cell, v: Value, still: Labels)
    decreases c
  {
    match c
    case Leaf(x) => v == x && !v.Object? && !v.Array?
    case Node(t) => t in still && v == Object(still[t])
    case List(items) =>
      v.Array? && |items| == |v.items| && forall i :: 0 <= i < |items| ==> Shows(items[i], v.items[i], still)
  }

  /** The labels are what the maps hold. */
  ghost predicate Still(still: Labels)
    reads still.Keys
  {
    forall t: Table :: t in still ==>
      t.entries.Keys == still[t].Keys && forall k :: k in t.entries ==> Shows(t.entries[k], still[t][k], still)
  }

  /** `c` holds `v` at `path`: as a map of `live`, or else with maps of `still` only. */
  ghost predicate At(c: Cell, v: Value, path: Path, live: Labels, still: Labels) {
    if c.Node? then c.table in live && c.table.path == path && v == Object(live[c.table])
    else Shows(c, v, still)
  }

  ghost predicate LiveTable(t: Table, held: Claims, live: Labels, still: Labels)
    reads t
  {
    t.entries.Keys == held.Keys && forall k :: k in t.entries ==> At(t.entries[k], held[k], t.path + [k], live, still)
  }

  /** The labels are what the maps hold, and every map nested in a map of `live` is one of
      `live` and knows its path. */
  ghost predicate Live(live: Labels, still: Labels)
    reads live.Keys
  {
    forall t: Table :: t in live ==> LiveTable(t, live[t], live, still)
  }

  // ----- more maps -----

  ghost predicate Within(a: Labels, b: Labels) {
    forall t: Table :: t in a ==> t in b && b[t] == a[t]
  }

  lemma {:induction false} ShowsMore(c: Cell, v: Value, a: Labels, b: Labels)
    requires Shows(c, v, a) && Within(a, b)
    ensures Shows(c, v, b)
    decreases c
  {
    if c.List? {
      forall i | 0 <= i < |c.items| ensures Shows(c.items[i], v.items[i], b) {
        ShowsMore(c.items[i], v.items[i], a, b);
      }
    }
  }

  lemma AtMore(c: Cell, v: Value, path: Path, live: Labels, still: Labels, live': Labels, still': Labels)
    requires At(c, v, path, live, still) && Within(live, live') && Within(still, still')
    ensures At(c, v, path, live', still')
  {
    if !c.Node? {
      ShowsMore(c, v, still, still');
    }
  }

  lemma StillJoins(a: Labels, b: Labels)
    requires Still(a) && Still(b) && Within(a, a + b)
    ensures Still(a + b)
  {
    forall t: Table, k | t in a + b && k in t.entries ensures Shows(t.entries[k], (a + b)[t][k], a + b) {
      if t in b {
        ShowsMore(t.entries[k], b[t][k], b, a + b);
      } else {
        ShowsMore(t.entries[k], a[t][k], a, a + b);
      }
    }
  }

  lemma LiveMore(live: Labels, still: Labels, live': Labels, still': Labels)
    requires Live(live, still) && Within(live, live') && Within(still, still')
    ensures forall t: Table :: t in live ==> LiveTable(t, live[t], live', still')
  {
    forall t: Table, k | t in live && k in t.entries ensures At(t.entries[k], live[t][k], t.path + [k], live', still') {
      AtMore(t.entries[k], live[t][k], t.path + [k], live, still, live', still');
    }
  }

  // ----- copies -----

  /** A copy of `v` made of the maps of `live` where it is nested in maps, and of `still`
      beneath arrays. */
  ghost predicate Copied(r: Cell, v: Value, nested: bool, path: Path, live: Labels, still: Labels)
    reads live.Keys, still.Keys
  {
    Live(live, still) && Still(still) && live.Keys !! still.Keys &&
    if nested then At(r, v, path, live, still) else live == map[] && Shows(r, v, still)
  }

  /** The entries copied so far. */
  ghost predicate EntriesCopied(entries: map<string, Cell>, v: Claims, nested: bool, path: Path, live: Labels, still: Labels) {
    entries.Keys <= v.Keys &&
    forall k :: k in entries ==>
      if nested then At(entries[k], v[k], path + [k], live, still) else Shows(entries[k], v[k], still)
  }

  lemma EntriesMore(entries: map<string, Cell>, v: Claims, nested: bool, path: Path, live: Labels, still: Labels,
                    live': Labels, still': Labels)
    requires EntriesCopied(entries, v, nested, path, live, still) && Within(live, live') && Within(still, still')
    ensures EntriesCopied(entries, v, nested, path, live', still')
  {
    forall k | k in entries
      ensures if nested then At(entries[k], v[k], path + [k], live', still') else Shows(entries[k], v[k], still')
    {
      if nested {
        AtMore(entries[k], v[k], path + [k], live, still, live', still');
      } else {
        ShowsMore(entries[k], v[k], still, still');
      }
    }
  }

  /** A copy of some of the entries, and the maps it is made of. */
  ghost predicate Copying(entries: map<string, Cell>, v: Claims, nested: bool, path: Path, live: Labels, still: Labels)
    reads live.Keys, still.Keys
  {
    Live(live, still) && Still(still) && live.Keys !! still.Keys && (!nested ==> live == map[]) &&
    EntriesCopied(entries, v, nested, path, live, still)
  }

  /** One more entry joins, with its maps. */
  lemma CopyingOneMore(entries: map<string, Cell>, v: Claims, nested: bool, path: Path, live: Labels, still: Labels,
                       k: string, c: Cell, live': Labels, still': Labels, both: Labels)
    requires Copying(entries, v, nested, path, live, still) && k in v && Copied(c, v[k], nested, path + [k], live', still')
    requires live.Keys !! live'.Keys && (live + live').Keys !! both.Keys
    requires Within(still, both) && Within(still', both) && Still(both)
    ensures Copying(entries[k := c], v, nested, path, live + live', both)
  {
    LiveMore(live, still, live + live', both);
    LiveMore(live', still', live + live', both);
    EntriesMore(entries, v, nested, path, live, still, live + live', both);
    EntriesMore(map[k := c], v, nested, path, live', still', live + live', both);
  }

  /** A deep copy through maps and arrays: it holds the same value and is made of new maps. */
  method CloneValue(c: Cell, ghost v: Value, ghost from: Labels, ghost nested: bool, ghost path: Path)
    returns (r: Cell, ghost live: Labels, ghost still: Labels)
    requires Still(from) && Shows(c, v, from)
    ensures fresh(live.Keys) && fresh(still.Keys) && Copied(r, v, nested, path, live, still)
    decreases v, 2
  {
    live, still := map[], map[];
    if c.Node? {
      var t;
      t, live, still := CloneMap(c.table, v.fields, from, nested, path);
      r := Node(t);
    } else if c.List? {
      var items;
      items, still := CloneItems(c.items, v.items, from);
      r := List(items);
    } else {
      r := c;
    }
  }

  method CloneMap(src: Table, ghost v: Claims, ghost from: Labels, ghost nested: bool, ghost path: Path)
    returns (r: Table, ghost live: Labels, ghost still: Labels)
    requires Still(from) && src in from && v == from[src]
    ensures fresh(live.Keys) && fresh(still.Keys) && Copied(Node(r), Object(v), nested, path, live, still)
    decreases Object(v), 1
  {
    var entries: map<string, Cell> := map[];
    live, still := map[], map[];
    var todo := src.entries.Keys;
    while todo != {}
      invariant todo <= v.Keys && entries.Keys == v.Keys - todo
      invariant fresh(live.Keys) && fresh(still.Keys)
      invariant Copying(entries, v, nested, path, live, still)
      decreases todo
    {
      var k :| k in todo;
      var c;
      ghost var live', still';
      c, live', still' := CloneValue(src.entries[k], v[k], from, nested, path + [k]);
      CopyingJoins(entries, v, nested, path, live, still, k, c, live', still');
      live, still := live + live', still + still';
      entries := entries[k := c];
      todo := todo - {k};
    }
    r := new Table(entries, path);
    live, still := Finished(r, v, nested, path, live, still);
  }

  lemma CopyingJoins(entries: map<string, Cell>, v: Claims, nested: bool, path: Path, live: Labels, still: Labels,
                     k: string, c: Cell, live': Labels, still': Labels)
    requires Copying(entries, v, nested, path, live, still) && k in v && Copied(c, v[k], nested, path + [k], live', still')
    requires (live.Keys + still.Keys) !! (live'.Keys + still'.Keys)
    ensures Copying(entries[k := c], v, nested, path, live + live', still + still')
  {
    StillJoins(still, still');
    CopyingOneMore(entries, v, nested, path, live, still, k, c, live', still', still + still');
  }

  /** The finished copy joins the maps it is made of. */
  lemma Finished(r: Table, v: Claims, nested: bool, path: Path, live: Labels, still: Labels)
    returns (live': Labels, still': Labels)
    requires r.path == path && r.entries.Keys == v.Keys && Copying(r.entries, v, nested, path, live, still)
    requires r !in live && r !in still
    ensures Copied(Node(r), Object(v), nested, path, live', still')
    ensures live' == (if nested then live[r := v] else live) && still' == (if nested then still else still[r := v])
  {
    live', still' := if nested then live[r := v] else live, if nested then still else still[r := v];
    EntriesMore(r.entries, v, nested, path, live, still, live', still');
    LiveMore(live, still, live', still');
    forall t: Table, k | t in still && k in t.entries ensures Shows(t.entries[k], still[t][k], still') {
      ShowsMore(t.entries[k], still[t][k], still, still');
    }
  }

  method CloneItems(items: seq<Cell>, ghost vs: seq<Value>, ghost from: Labels)
    returns (r: seq<Cell>, ghost still: Labels)
    requires Still(from) && |items| == |vs| && forall i :: 0 <= i < |items| ==> Shows(items[i], vs[i], from)
    ensures fresh(still.Keys) && Still(still)
    ensures |r| == |vs| && forall i :: 0 <= i < |r| ==> Shows(r[i], vs[i], still)
    decreases Array(vs), 0
  {
    r, still := [], map[];
    for n := 0 to |items|
      invariant |r| == n && fresh(still.Keys) && Still(still)
      invariant forall i :: 0 <= i < n ==> Shows(r[i], vs[i], still)
    {
      var c;
      ghost var none, more;
      c, none, more := CloneValue(items[n], vs[n], from, false, []);
      StillJoins(still, more);
      forall i | 0 <= i < n ensures Shows(r[i], vs[i], still + more) {
        ShowsMore(r[i], vs[i], still, still + more);
      }
      ShowsMore(c, vs[n], more, still + more);
      r, still := r + [c], still + more;
    }
  }

  /** A copy of a map and the maps nested in it, which shares the arrays. */
  method CloneNestedClaims(src: Table, ghost from: Labels, ghost path: Path) returns (r: Table, ghost live: Labels)
    requires Still(from) && src in from
    ensures fresh(live.Keys) && Live(live, from) && r in live && r.path == path && live[r] == from[src]
    decreases Object(from[src]), 0
  {
    var entries: map<string, Cell> := map[];
    live := map[];
    ghost var v := from[src];
    var todo := src.entries.Keys;
    while todo != {}
      invariant todo <= v.Keys && entries.Keys == v.Keys - todo
      invariant fresh(live.Keys) && Copying(entries, v, true, path, live, from)
      decreases todo
    {
      var k :| k in todo;
      var c;
      ghost var more;
      c, more := CloneNestedValue(src.entries[k], v[k], from, path + [k]);
      CopyingOneMore(entries, v, true, path, live, from, k, c, more, from, from);
      live := live + more;
      entries := entries[k := c];
      todo := todo - {k};
    }
    r := new Table(entries, path);
    ghost var same;
    live, same := Finished(r, v, true, path, live, from);
  }

  method CloneNestedValue(c: Cell, ghost v: Value, ghost from: Labels, ghost path: Path)
    returns (r: Cell, ghost live: Labels)
    requires Still(from) && Shows(c, v, from)
    ensures fresh(live.Keys) && Copied(r, v, true, path, live, from)
    decreases v, 1
  {
    r, live := c, map[];
    if c.Node? {
      var t;
      t, live := CloneNestedClaims(c.table, from, path);
      r := Node(t);
    }
  }
}
