/** Attribute mapping: external attributes become nested claims under dotted
    claim paths, and defaults fill the claims that are missing. */
module AttributeMapping {
  import opened ClaimValues
  import opened StringOrder
  import opened Wrappers

  datatype AttributeConfig = AttributeConfig(claim: string, required: bool, default: string, asArray: bool)
  type Mapping = map<string, AttributeConfig>

  // ----- dotted get and set -----

  /** `m` with `v` at `path`, creating the objects on the way; fails when a
      parent on the way is no object. */
  function SetAt(m: Claims, path: Path, v: Value): Result<Claims>
    requires |path| > 0
    decreases |path|
  {
    var k := path[0];
    if |path| == 1 then Ok(m[k := v])
    else if k in m && !m[k].Object? then Err
    else
      var inner := SetAt(if k in m then m[k].fields else map[], path[1..], v);
      if inner.Err? then Err else Ok(m[k := Object(inner.value)])
  }

  function SetNestedValue(doc: Claims, path: string, v: Value): Result<Claims> {
    if path == "" then Err else SetAt(doc, Split(path), v)
  }

  function GetNestedValue(doc: Claims, path: string): Option<Value> {
    if path == "" then None else Walk(Object(doc), Split(path))
  }

  /** No parent of `path` is a non-object. */
  predicate ClearWay(m: Claims, path: Path)
    requires |path| > 0
    decreases |path|
  {
    |path| == 1 || path[0] !in m || (m[path[0]].Object? && ClearWay(m[path[0]].fields, path[1..]))
  }

  /** Neither path is the other or holds it. */
  predicate Apart(p: Path, q: Path) {
    !(p <= q) && !(q <= p)
  }

  lemma {:induction false} SetSucceedsExactly(m: Claims, path: Path, v: Value)
    requires |path| > 0
    ensures SetAt(m, path, v).Ok? <==> ClearWay(m, path)
    decreases |path|
  {
    if |path| > 1 && (path[0] !in m || m[path[0]].Object?) {
      SetSucceedsExactly(if path[0] in m then m[path[0]].fields else map[], path[1..], v);
      assert ClearWay(map[], path[1..]);
    }
  }

  lemma {:induction false} SetReadsBack(m: Claims, path: Path, v: Value)
    requires |path| > 0 && SetAt(m, path, v).Ok?
    ensures Walk(Object(SetAt(m, path, v).value), path) == Some(v)
    decreases |path|
  {
    if |path| > 1 {
      SetReadsBack(if path[0] in m then m[path[0]].fields else map[], path[1..], v);
    }
  }

  lemma ApartTails(p: Path, q: Path)
    requires Apart(p, q) && p[0] == q[0]
    ensures |p| > 1 && |q| > 1 && Apart(p[1..], q[1..])
  {
    assert p == [p[0]] + p[1..] && q == [q[0]] + q[1..];
    assert p[1..] <= q[1..] ==> p <= q;
    assert q[1..] <= p[1..] ==> q <= p;
  }

  lemma {:induction false} SetLeavesOthers(m: Claims, path: Path, v: Value, other: Path)
    requires |path| > 0 && SetAt(m, path, v).Ok? && Apart(path, other)
    ensures Walk(Object(SetAt(m, path, v).value), other) == Walk(Object(m), other)
    ensures ClearWay(m, other) <==> ClearWay(SetAt(m, path, v).value, other)
    decreases |path|
  {
    if path[0] == other[0] {
      ApartTails(path, other);
      SetLeavesOthers(if path[0] in m then m[path[0]].fields else map[], path[1..], v, other[1..]);
      assert ClearWay(map[], other[1..]);
    }
  }

  /** Setting a path depends on, and changes, its first member only. */
  lemma SetTouchesHead(m: Claims, m': Claims, path: Path, v: Value)
    requires |path| > 0 && Field(m, path[0]) == Field(m', path[0])
    ensures SetAt(m, path, v).Ok? == SetAt(m', path, v).Ok?
    ensures SetAt(m, path, v).Ok? ==>
              && path[0] in SetAt(m, path, v).value
              && SetAt(m', path, v).value == m'[path[0] := SetAt(m, path, v).value[path[0]]]
  {
  }

  function Inner(m: Claims, k: string): Claims {
    if k in m && m[k].Object? then m[k].fields else map[]
  }

  lemma SetUnfolds(m: Claims, path: Path, v: Value)
    requires |path| > 1 && SetAt(m, path, v).Ok?
    ensures var inner := SetAt(Inner(m, path[0]), path[1..], v);
            inner.Ok? && SetAt(m, path, v) == Ok(m[path[0] := Object(inner.value)])
  {
  }

  lemma BothSetsSucceed(m: Claims, p: Path, v: Value, q: Path, w: Value)
    requires Apart(p, q) && ClearWay(m, p) && ClearWay(m, q)
    ensures SetAt(m, p, v).Ok? && SetAt(SetAt(m, p, v).value, q, w).Ok?
  {
    SetSucceedsExactly(m, p, v);
    SetLeavesOthers(m, p, v, q);
    SetSucceedsExactly(SetAt(m, p, v).value, q, w);
  }

  lemma CommuteUnderOneHead(m: Claims, p: Path, v: Value, q: Path, w: Value)
    requires |p| > 1 && |q| > 1 && p[0] == q[0]
    requires SetAt(m, p, v).Ok? && SetAt(SetAt(m, p, v).value, q, w).Ok?
    ensures var inner := SetAt(Inner(m, p[0]), p[1..], v);
            && inner.Ok? && SetAt(inner.value, q[1..], w).Ok?
            && SetAt(SetAt(m, p, v).value, q, w) == Ok(m[p[0] := Object(SetAt(inner.value, q[1..], w).value)])
  {
    SetUnfolds(m, p, v);
    var m1 := SetAt(m, p, v).value;
    SetUnfolds(m1, q, w);
    var both := Object(SetAt(Inner(m1, p[0]), q[1..], w).value);
    assert m1[p[0] := both] == m[p[0] := both];
  }

  lemma CommuteUnderTwoHeads(m: Claims, p: Path, v: Value, q: Path, w: Value)
    requires |p| > 0 && |q| > 0 && p[0] != q[0]
    requires SetAt(m, p, v).Ok? && SetAt(m, q, w).Ok?
    ensures SetAt(SetAt(m, p, v).value, q, w) == SetAt(SetAt(m, q, w).value, p, v)
  {
    var m1, m2 := SetAt(m, p, v).value, SetAt(m, q, w).value;
    SetTouchesHead(m, m2, p, v);
    SetTouchesHead(m, m1, q, w);
    SetTouchesHead(m, m, p, v);
    SetTouchesHead(m, m, q, w);
    assert m1[q[0] := m2[q[0]]] == m2[p[0] := m1[p[0]]];
  }

  lemma {:induction false} SetsCommute(m: Claims, p: Path, v: Value, q: Path, w: Value)
    requires Apart(p, q) && ClearWay(m, p) && ClearWay(m, q)
    ensures SetAt(m, p, v).Ok? && SetAt(m, q, w).Ok?
    ensures SetAt(SetAt(m, p, v).value, q, w) == SetAt(SetAt(m, q, w).value, p, v)
    decreases |p|
  {
    BothSetsSucceed(m, p, v, q, w);
    BothSetsSucceed(m, q, w, p, v);
    if p[0] == q[0] {
      ApartTails(p, q);
      assert ClearWay(Inner(m, p[0]), p[1..]) && ClearWay(Inner(m, p[0]), q[1..]);
      SetsCommute(Inner(m, p[0]), p[1..], v, q[1..], w);
      CommuteUnderOneHead(m, p, v, q, w);
      CommuteUnderOneHead(m, q, w, p, v);
    } else {
      CommuteUnderTwoHeads(m, p, v, q, w);
    }
  }

  // ----- applying a mapping -----

  type ClaimPath = path: Path | |path| > 0 witness [""]

  /** What one mapped attribute does: nothing, fail, or set one claim. */
  datatype Effect = Skip | Fail | Set(path: ClaimPath, value: Value)

  function WrapAsArray(v: Value): Value {
    if v.Text? then Strings([v.text]) else v
  }

  function EffectOf(cfg: AttributeConfig, attribute: Option<Value>): Effect {
    if attribute.None? && cfg.required then Fail
    else if attribute.None? && cfg.default == "" then Skip
    else
      var v := if attribute.None? then Text(cfg.default) else attribute.value;
      if !cfg.asArray && v == Strings([]) then Skip
      else if cfg.claim == "" then Fail
      else
        Set(Split(cfg.claim),
            if cfg.asArray then WrapAsArray(v) else if v.Strings? then Text(v.texts[0]) else v)
  }

  function Perform(doc: Result<Claims>, effect: Effect): Result<Claims> {
    if doc.Err? || effect.Fail? then Err
    else if effect.Skip? then doc
    else SetAt(doc.value, effect.path, effect.value)
  }

  type Effects = seq<Effect>

  function PerformAll(effects: Effects): Result<Claims> {
    if effects == [] then Ok(map[])
    else Perform(PerformAll(effects[..|effects| - 1]), effects[|effects| - 1])
  }

  function EffectAt(mapping: Mapping, attributes: Claims, id: string): Effect {
    if id in mapping then EffectOf(mapping[id], Field(attributes, id)) else Skip
  }

  function EffectsOf(mapping: Mapping, attributes: Claims, order: seq<string>): Effects {
    seq(|order|, i requires 0 <= i < |order| => EffectAt(mapping, attributes, order[i]))
  }

  /** `order` visits every attribute of the mapping once. */
  ghost predicate Visits(mapping: Mapping, order: seq<string>) {
    && multiset(order) == multiset(mapping.Keys)
    && forall i, j :: 0 <= i < j < |order| ==> order[i] != order[j]
  }

  lemma VisitOne(done: set<string>, order: seq<string>, id: string)
    requires multiset(order) == multiset(done) && id !in done
    ensures multiset(order + [id]) == multiset(done + {id})
  {
    assert multiset(done + {id}) == multiset(done) + multiset{id};
  }

  lemma EffectsSnoc(mapping: Mapping, attributes: Claims, order: seq<string>, id: string)
    ensures PerformAll(EffectsOf(mapping, attributes, order + [id])) ==
            Perform(PerformAll(EffectsOf(mapping, attributes, order)), EffectAt(mapping, attributes, id))
  {
    var before, after := EffectsOf(mapping, attributes, order), EffectsOf(mapping, attributes, order + [id]);
    assert after == before + [EffectAt(mapping, attributes, id)];
    PerformSnoc(before, EffectAt(mapping, attributes, id));
  }

  /** Applies the mapping in whatever order its map is iterated. */
  method Apply(mapping: Mapping, attributes: Claims) returns (r: Result<Claims>, ghost order: seq<string>)
    ensures Visits(mapping, order)
    ensures r == PerformAll(EffectsOf(mapping, attributes, order))
    ensures PathsApart(mapping) ==>
              forall other :: Visits(mapping, other) ==> r == PerformAll(EffectsOf(mapping, attributes, other))
  {
    var done := {};
    order := [];
    r := Ok(map[]);
    while done != mapping.Keys
      invariant done <= mapping.Keys
      invariant multiset(order) == multiset(done)
      invariant forall id :: id in order <==> id in done
      invariant forall i, j :: 0 <= i < j < |order| ==> order[i] != order[j]
      invariant r == PerformAll(EffectsOf(mapping, attributes, order))
      decreases mapping.Keys - done
    {
      assert mapping.Keys - done != {};
      var id :| id in mapping.Keys - done;
      VisitOne(done, order, id);
      EffectsSnoc(mapping, attributes, order, id);
      r := Perform(r, EffectAt(mapping, attributes, id));
      done, order := done + {id}, order + [id];
    }
    if PathsApart(mapping) {
      AnyOrder(mapping, attributes, order);
    }
  }

  lemma AnyOrder(mapping: Mapping, attributes: Claims, order: seq<string>)
    requires PathsApart(mapping) && Visits(mapping, order)
    ensures forall other :: Visits(mapping, other) ==>
              PerformAll(EffectsOf(mapping, attributes, order)) == PerformAll(EffectsOf(mapping, attributes, other))
  {
    forall other | Visits(mapping, other)
      ensures PerformAll(EffectsOf(mapping, attributes, order)) == PerformAll(EffectsOf(mapping, attributes, other))
    {
      MappingIsConfluent(mapping, attributes, order, other);
    }
  }

  // ----- confluence -----

  lemma PerformSnoc(effects: Effects, e: Effect)
    ensures PerformAll(effects + [e]) == Perform(PerformAll(effects), e)
  {
    assert (effects + [e])[..|effects|] == effects;
  }

  /** No two effects set comparable claim paths. */
  ghost predicate AllApart(effects: multiset<Effect>) {
    forall x, y :: x in effects && y in effects && x.Set? && y.Set? && (x != y || effects[x] > 1) ==>
      Apart(x.path, y.path)
  }

  ghost predicate CanSet(doc: Result<Claims>, e: Effect) {
    doc.Ok? && e.Set? ==> ClearWay(doc.value, e.path)
  }

  /** A claim apart from everything set so far can still be set. */
  lemma {:induction false} WayStaysClear(effects: Effects, e: Effect)
    requires e.Set? ==> forall x :: x in effects && x.Set? ==> Apart(x.path, e.path)
    ensures CanSet(PerformAll(effects), e)
  {
    if effects != [] && e.Set? {
      var n := |effects| - 1;
      WayStaysClear(effects[..n], e);
      if PerformAll(effects).Ok? && effects[n].Set? {
        SetLeavesOthers(PerformAll(effects[..n]).value, effects[n].path, effects[n].value, e.path);
      }
    }
  }

  lemma PerformsCommute(doc: Result<Claims>, a: Effect, b: Effect)
    requires a.Set? && b.Set? ==> Apart(a.path, b.path)
    requires CanSet(doc, a) && CanSet(doc, b)
    ensures Perform(Perform(doc, a), b) == Perform(Perform(doc, b), a)
  {
    if doc.Ok? && a.Set? && b.Set? {
      SetsCommute(doc.value, a.path, a.value, b.path, b.value);
    }
  }

  /** Two neighbouring effects may be exchanged. */
  lemma SwapLast(effects: Effects, a: Effect, b: Effect)
    requires AllApart(multiset(effects) + multiset{a} + multiset{b})
    ensures PerformAll(effects + [a] + [b]) == PerformAll(effects + [b] + [a])
  {
    var all := multiset(effects) + multiset{a} + multiset{b};
    assert a in all && b in all;
    forall x | x in effects && x.Set?
      ensures a.Set? ==> Apart(x.path, a.path)
      ensures b.Set? ==> Apart(x.path, b.path)
    {
      assert multiset(effects)[x] > 0;
    }
    WayStaysClear(effects, a);
    WayStaysClear(effects, b);
    PerformSnoc(effects, a);
    PerformSnoc(effects, b);
    PerformSnoc(effects + [a], b);
    PerformSnoc(effects + [b], a);
    PerformsCommute(PerformAll(effects), a, b);
  }

  lemma AllApartPart(effects: multiset<Effect>, whole: multiset<Effect>)
    requires effects <= whole && AllApart(whole)
    ensures AllApart(effects)
  {
  }

  lemma Regroup(before: Effects, e: Effect, init: Effects, last: Effect)
    ensures before + [e] + (init + [last]) == before + [e] + init + [last]
    ensures before + init + [last] + [e] == before + (init + [last]) + [e]
    ensures multiset(before + init) + multiset{e} + multiset{last} ==
            multiset(before) + multiset{e} + multiset(init + [last])
    ensures multiset(before) + multiset{e} + multiset(init) <=
            multiset(before) + multiset{e} + multiset(init + [last])
  {
  }

  /** Any effect may be moved to the end. */
  lemma {:induction false} MoveToEnd(before: Effects, e: Effect, after: Effects)
    requires AllApart(multiset(before) + multiset{e} + multiset(after))
    ensures PerformAll(before + [e] + after) == PerformAll(before + after + [e])
    decreases |after|
  {
    if after == [] {
      assert before + [e] + after == before + after + [e];
    } else {
      var init, last := after[..|after| - 1], after[|after| - 1];
      assert after == init + [last];
      Regroup(before, e, init, last);
      AllApartPart(multiset(before) + multiset{e} + multiset(init), multiset(before) + multiset{e} + multiset(after));
      MoveToEnd(before, e, init);
      PerformSnoc(before + [e] + init, last);
      PerformSnoc(before + init + [e], last);
      SwapLast(before + init, e, last);
    }
  }

  lemma RemoveOne<T>(a: seq<T>, x: T) returns (before: seq<T>, after: seq<T>)
    requires x in multiset(a)
    ensures a == before + [x] + after
    ensures multiset(before + after) == multiset(a) - multiset{x}
    ensures multiset(before) + multiset{x} + multiset(after) == multiset(a)
  {
    var i :| 0 <= i < |a| && a[i] == x;
    before, after := a[..i], a[i + 1..];
    assert a == before + [x] + after;
  }

  /** With claim paths pairwise apart, the outcome does not depend on the order. */
  lemma {:induction false} OrderDoesNotMatter(a: Effects, b: Effects)
    requires multiset(a) == multiset(b) && AllApart(multiset(a))
    ensures PerformAll(a) == PerformAll(b)
    decreases |b|
  {
    if b == [] {
      assert |multiset(a)| == |a|;
    } else {
      var init, e := b[..|b| - 1], b[|b| - 1];
      assert b == init + [e];
      var before, after := RemoveOne(a, e);
      MoveToEnd(before, e, after);
      AllApartPart(multiset(before + after), multiset(a));
      OrderDoesNotMatter(before + after, init);
      PerformSnoc(before + after, e);
      PerformSnoc(init, e);
    }
  }

  // ----- the mapping as a whole -----

  /** No claim path of the mapping is another one or a dotted prefix of it. */
  ghost predicate PathsApart(mapping: Mapping) {
    forall a, b :: a in mapping && b in mapping && a != b ==>
      Apart(Split(mapping[a].claim), Split(mapping[b].claim))
  }

  lemma AllApartAdd(effects: multiset<Effect>, e: Effect)
    requires AllApart(effects)
    requires e.Set? ==> forall x :: x in effects && x.Set? ==> Apart(x.path, e.path)
    ensures AllApart(effects + multiset{e})
  {
    if e.Set? {
      forall x | x in effects && x.Set? ensures x != e && Apart(e.path, x.path) {
      }
    }
  }

  lemma {:induction false} EffectsApart(mapping: Mapping, attributes: Claims, order: seq<string>)
    requires PathsApart(mapping)
    requires forall i, j :: 0 <= i < j < |order| ==> order[i] != order[j]
    ensures AllApart(multiset(EffectsOf(mapping, attributes, order)))
    decreases |order|
  {
    if order != [] {
      var n := |order| - 1;
      var init, id := order[..n], order[n];
      EffectsApart(mapping, attributes, init);
      var before, e := EffectsOf(mapping, attributes, init), EffectAt(mapping, attributes, id);
      assert EffectsOf(mapping, attributes, order) == before + [e];
      forall x: Effect | x in multiset(before) && x.Set? && e.Set? ensures Apart(x.path, e.path) {
        var i :| 0 <= i < |before| && before[i] == x;
        assert init[i] == order[i] && x == EffectAt(mapping, attributes, init[i]);
      }
      AllApartAdd(multiset(before), e);
    }
  }

  lemma EffectsConcat(mapping: Mapping, attributes: Claims, a: seq<string>, b: seq<string>)
    ensures EffectsOf(mapping, attributes, a + b) ==
            EffectsOf(mapping, attributes, a) + EffectsOf(mapping, attributes, b)
  {
  }

  lemma EffectsInsert(mapping: Mapping, attributes: Claims, before: seq<string>, id: string, after: seq<string>)
    ensures multiset(EffectsOf(mapping, attributes, before + [id] + after)) ==
            multiset(EffectsOf(mapping, attributes, before + after)) +
            multiset{EffectAt(mapping, attributes, id)}
  {
    EffectsConcat(mapping, attributes, before, after);
    EffectsConcat(mapping, attributes, before, [id]);
    EffectsConcat(mapping, attributes, before + [id], after);
    assert EffectsOf(mapping, attributes, [id]) == [EffectAt(mapping, attributes, id)];
  }

  lemma WithoutLast<T>(b: seq<T>)
    requires b != []
    ensures b == b[..|b| - 1] + [b[|b| - 1]]
    ensures multiset(b[..|b| - 1]) == multiset(b) - multiset{b[|b| - 1]} && b[|b| - 1] in multiset(b)
  {
    assert b == b[..|b| - 1] + [b[|b| - 1]];
  }

  lemma EffectsAtEnd(mapping: Mapping, attributes: Claims, init: seq<string>, id: string, b: seq<string>)
    requires b == init + [id]
    ensures multiset(EffectsOf(mapping, attributes, b)) ==
            multiset(EffectsOf(mapping, attributes, init)) + multiset{EffectAt(mapping, attributes, id)}
  {
    assert b == init + [id] + [] && init + [] == init;
    EffectsInsert(mapping, attributes, init, id, []);
  }

  lemma {:induction false} EffectsPermute(mapping: Mapping, attributes: Claims, a: seq<string>, b: seq<string>)
    requires multiset(a) == multiset(b)
    ensures multiset(EffectsOf(mapping, attributes, a)) == multiset(EffectsOf(mapping, attributes, b))
    decreases |b|
  {
    if b == [] {
      assert |multiset(a)| == |a|;
    } else {
      var init, id := b[..|b| - 1], b[|b| - 1];
      WithoutLast(b);
      var before, after := RemoveOne(a, id);
      EffectsPermute(mapping, attributes, before + after, init);
      EffectsInsert(mapping, attributes, before, id, after);
      EffectsAtEnd(mapping, attributes, init, id, b);
    }
  }

  /** The mapping gives the same document, or fails, whatever order its
      attributes are visited in. */
  lemma MappingIsConfluent(mapping: Mapping, attributes: Claims, a: seq<string>, b: seq<string>)
    requires PathsApart(mapping) && Visits(mapping, a) && Visits(mapping, b)
    ensures PerformAll(EffectsOf(mapping, attributes, a)) == PerformAll(EffectsOf(mapping, attributes, b))
  {
    EffectsApart(mapping, attributes, a);
    EffectsPermute(mapping, attributes, a, b);
    OrderDoesNotMatter(EffectsOf(mapping, attributes, a), EffectsOf(mapping, attributes, b));
  }

  // ----- defaults -----

  /** Everything `a` holds is still in `b`; only objects may have grown. */
  ghost predicate Extends(a: Claims, b: Claims)
    decreases Object(a)
  {
    forall k :: k in a ==>
      k in b && (b[k] == a[k] || (a[k].Object? && b[k].Object? && Extends(a[k].fields, b[k].fields)))
  }

  lemma {:induction false} ExtendsTransitive(a: Claims, b: Claims, c: Claims)
    requires Extends(a, b) && Extends(b, c)
    ensures Extends(a, c)
    decreases Object(a)
  {
    forall k | k in a && a[k].Object? && b[k].Object? && c[k].Object? &&
               Extends(a[k].fields, b[k].fields) && Extends(b[k].fields, c[k].fields)
      ensures Extends(a[k].fields, c[k].fields)
    {
      ExtendsTransitive(a[k].fields, b[k].fields, c[k].fields);
    }
  }

  lemma {:induction false} SetAbsentExtends(m: Claims, path: Path, v: Value)
    requires |path| > 0 && Walk(Object(m), path).None? && SetAt(m, path, v).Ok?
    ensures Extends(m, SetAt(m, path, v).value)
    decreases |path|
  {
    if |path| > 1 && path[0] in m {
      SetAbsentExtends(m[path[0]].fields, path[1..], v);
    }
  }

  /** One default path is a dotted prefix of another. */
  ghost predicate Overlapping(defaults: Claims) {
    exists p, q :: p in defaults && q in defaults && p + ['.'] <= q
  }

  /** An absent default that cannot be set: an empty path, or one whose way is
      blocked by a non-object. */
  predicate Blocked(doc: Claims, path: string) {
    path == "" || (GetNestedValue(doc, path).None? && !ClearWay(doc, Split(path)))
  }

  lemma DefaultsApart(defaults: Claims, p: string, q: string)
    requires !Overlapping(defaults) && p in defaults && q in defaults && p != q
    ensures Apart(Split(p), Split(q))
  {
    DottedPrefixIsSegmentPrefix(p, q);
    DottedPrefixIsSegmentPrefix(q, p);
  }

  /** `paths` lists every default path once. */
  ghost predicate Enumerates(defaults: Claims, paths: seq<string>) {
    && (forall p :: p in paths <==> p in defaults)
    && forall i, j :: 0 <= i < j < |paths| ==> paths[i] != paths[j]
  }

  function FillOne(doc: Claims, path: string, v: Value): Result<Claims> {
    if GetNestedValue(doc, path).Some? then Ok(doc) else SetNestedValue(doc, path, v)
  }

  /** Fills the absent paths one after the other. */
  function Fill(doc: Claims, defaults: Claims, paths: seq<string>): Result<Claims>
    requires forall p :: p in paths ==> p in defaults
  {
    if paths == [] then Ok(doc)
    else
      var last := paths[|paths| - 1];
      var before := Fill(doc, defaults, paths[..|paths| - 1]);
      if before.Err? then Err else FillOne(before.value, last, defaults[last])
  }

  lemma {:induction false} FillFailsEarly(doc: Claims, defaults: Claims, paths: seq<string>, i: nat)
    requires forall p :: p in paths ==> p in defaults
    requires i <= |paths| && Fill(doc, defaults, paths[..i]).Err?
    ensures Fill(doc, defaults, paths).Err?
    decreases |paths|
  {
    if i < |paths| {
      assert paths[..|paths| - 1][..i] == paths[..i];
      FillFailsEarly(doc, defaults, paths[..|paths| - 1], i);
    } else {
      assert paths[..i] == paths;
    }
  }

  lemma OverlapIsInOrder(paths: seq<string>, i: nat, j: nat)
    requires SortedStrings(paths) && i < |paths| && j < |paths| && paths[i] + ['.'] <= paths[j]
    ensures i < j
  {
    PrefixComesFirst(paths[i], paths[j]);
    if j < i {
      StringLeqAntisymmetric(paths[i], paths[j]);
    }
  }

  /** Only later paths are looked at, since a prefix sorts before what it begins. */
  method FindOverlap(defaults: Claims, paths: seq<string>) returns (found: bool)
    requires Enumerates(defaults, paths) && SortedStrings(paths)
    ensures found <==> Overlapping(defaults)
  {
    for i := 0 to |paths|
      invariant forall a, b :: 0 <= a < i && a < b < |paths| ==> !(paths[a] + ['.'] <= paths[b])
    {
      for j := i + 1 to |paths|
        invariant forall b :: i < b < j ==> !(paths[i] + ['.'] <= paths[b])
      {
        if paths[i] + ['.'] <= paths[j] {
          assert paths[i] in defaults && paths[j] in defaults;
          return true;
        }
      }
    }
    forall p, q | p in defaults && q in defaults ensures !(p + ['.'] <= q) {
      var a :| 0 <= a < |paths| && paths[a] == p;
      var b :| 0 <= b < |paths| && paths[b] == q;
      if p + ['.'] <= q {
        OverlapIsInOrder(paths, a, b);
      }
    }
    return false;
  }

  /** Fills in the defaults in the order given, as long as none is refused. */
  method FillInOrder(doc: Claims, defaults: Claims, paths: seq<string>) returns (r: Result<Claims>)
    requires Enumerates(defaults, paths)
    ensures r == Fill(doc, defaults, paths)
  {
    var cur := doc;
    for i := 0 to |paths|
      invariant Fill(doc, defaults, paths[..i]) == Ok(cur)
    {
      assert paths[..i + 1][..i] == paths[..i];
      if GetNestedValue(cur, paths[i]).None? {
        var next := SetNestedValue(cur, paths[i], defaults[paths[i]]);
        if next.Err? {
          FillFailsEarly(doc, defaults, paths, i + 1);
          return Err;
        }
        cur := next.value;
      }
    }
    assert paths[..|paths|] == paths;
    r := Ok(cur);
  }

  /** Fills in the defaults whose claim is absent, in sorted order. */
  method MergeDefaults(doc: Claims, defaults: Claims) returns (r: Result<Claims>)
    ensures r.Err? <==> Overlapping(defaults) || exists p :: p in defaults && Blocked(doc, p)
    ensures r.Ok? ==> Extends(doc, r.value) && forall p :: p in defaults ==> Filled(doc, defaults, r.value, p)
    ensures !Overlapping(defaults) ==>
              exists order :: Enumerates(defaults, order) && SortedStrings(order) && r == Fill(doc, defaults, order)
  {
    var paths := SortSet(defaults.Keys);
    var overlap := FindOverlap(defaults, paths);
    if overlap {
      return Err;
    }
    r := FillInOrder(doc, defaults, paths);
    FillExactly(doc, defaults, paths);
  }

  /** What the default `p` ends up as. */
  ghost predicate Filled(doc: Claims, defaults: Claims, r: Claims, p: string)
    requires p in defaults
  {
    GetNestedValue(r, p) == if GetNestedValue(doc, p).Some? then GetNestedValue(doc, p) else Some(defaults[p])
  }

  ghost predicate Untouched(doc: Claims, r: Claims, p: string) {
    GetNestedValue(r, p) == GetNestedValue(doc, p) && (Blocked(r, p) <==> Blocked(doc, p))
  }

  ghost predicate FilledAll(doc: Claims, defaults: Claims, paths: seq<string>, r: Claims)
    requires forall p :: p in paths ==> p in defaults
  {
    && Extends(doc, r)
    && (forall p :: p in paths ==> Filled(doc, defaults, r, p))
    && (forall p :: p in defaults && p !in paths ==> Untouched(doc, r, p))
    && ElsewhereSame(doc, paths, r)
  }

  /** A path apart from all of `paths` reads as before. */
  ghost predicate ElsewhereSame(doc: Claims, paths: seq<string>, r: Claims) {
    forall q: Path :: (forall p :: p in paths ==> Apart(Split(p), q)) ==> Walk(Object(r), q) == Walk(Object(doc), q)
  }

  lemma ElsewhereStaysSame(doc: Claims, init: seq<string>, last: string, v: Value, cur: Claims)
    requires ElsewhereSame(doc, init, cur) && last != "" && SetAt(cur, Split(last), v).Ok?
    ensures ElsewhereSame(doc, init + [last], SetAt(cur, Split(last), v).value)
  {
    var r := SetAt(cur, Split(last), v).value;
    forall q: Path | forall p :: p in init + [last] ==> Apart(Split(p), q)
      ensures Walk(Object(r), q) == Walk(Object(doc), q)
    {
      assert last in init + [last];
      assert forall p :: p in init ==> p in init + [last];
      SetLeavesOthers(cur, Split(last), v, q);
    }
  }

  lemma FillOneMore(doc: Claims, defaults: Claims, init: seq<string>, last: string, cur: Claims)
    requires !Overlapping(defaults) && last in defaults && last !in init && forall p :: p in init ==> p in defaults
    requires FilledAll(doc, defaults, init, cur)
    ensures var r := FillOne(cur, last, defaults[last]);
            (r.Err? <==> Blocked(doc, last)) && (r.Ok? ==> FilledAll(doc, defaults, init + [last], r.value))
  {
    assert Untouched(doc, cur, last);
    if GetNestedValue(cur, last).None? && last != "" {
      SetSucceedsExactly(cur, Split(last), defaults[last]);
      if SetAt(cur, Split(last), defaults[last]).Ok? {
        DefaultSet(doc, cur, defaults, last);
        ElsewhereStaysSame(doc, init, last, defaults[last], cur);
      }
    } else {
      forall q: Path | forall p :: p in init + [last] ==> Apart(Split(p), q)
        ensures Walk(Object(cur), q) == Walk(Object(doc), q)
      {
        assert forall p :: p in init ==> p in init + [last];
      }
    }
  }

  /** Filling fails exactly when some default is blocked; otherwise it sets the
      absent defaults, keeps the present ones and changes nothing else. */
  lemma {:induction false} FillExactly(doc: Claims, defaults: Claims, paths: seq<string>)
    requires !Overlapping(defaults)
    requires forall p :: p in paths ==> p in defaults
    requires forall i, j :: 0 <= i < j < |paths| ==> paths[i] != paths[j]
    ensures var r := Fill(doc, defaults, paths);
            && (r.Err? <==> exists p :: p in paths && Blocked(doc, p))
            && (r.Ok? ==> FilledAll(doc, defaults, paths, r.value))
  {
    if paths == [] {
      ExtendsReflexive(doc);
    } else {
      var init, last := paths[..|paths| - 1], paths[|paths| - 1];
      assert paths == init + [last];
      assert last !in init;
      FillExactly(doc, defaults, init);
      var before := Fill(doc, defaults, init);
      if before.Ok? {
        FillOneMore(doc, defaults, init, last, before.value);
      }
    }
  }

  lemma {:induction false} ExtendsReflexive(a: Claims)
    ensures Extends(a, a)
  {
  }

  lemma DefaultSet(doc: Claims, cur: Claims, defaults: Claims, path: string)
    requires !Overlapping(defaults) && path in defaults && path != ""
    requires Extends(doc, cur) && GetNestedValue(cur, path).None?
    requires SetAt(cur, Split(path), defaults[path]).Ok?
    ensures var next := SetAt(cur, Split(path), defaults[path]).value;
            && Extends(doc, next)
            && GetNestedValue(next, path) == Some(defaults[path])
            && forall p :: p in defaults && p != path ==>
                 GetNestedValue(next, p) == GetNestedValue(cur, p) && (Blocked(next, p) <==> Blocked(cur, p))
  {
    var next := SetAt(cur, Split(path), defaults[path]).value;
    SetAbsentExtends(cur, Split(path), defaults[path]);
    ExtendsTransitive(doc, cur, next);
    SetReadsBack(cur, Split(path), defaults[path]);
    forall p | p in defaults && p != path
      ensures GetNestedValue(next, p) == GetNestedValue(cur, p) && (Blocked(next, p) <==> Blocked(cur, p))
    {
      DefaultsApart(defaults, p, path);
      SetLeavesOthers(cur, Split(path), defaults[path], Split(p));
    }
  }
}
