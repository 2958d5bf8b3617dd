/** Algebra of the deep merge and of copy replacement. */
module ClaimMerging {
  import opened ClaimValues
  import opened Wrappers

  /** Merges `derived` into `dst`, first clearing the path of a copy that wrote it. */
  function MergeReplacing(dst: Claims, derived: Claims, copied: Option<Path>): Claims
    requires copied.Some? ==> |copied.value| > 0
  {
    Merge(if copied.Some? then Clear(dst, copied.value) else dst, derived)
  }

  /** Merges the outputs of a derivation run into a document, after clearing
      every path a copy replaced. */
  function MergeDerived(dst: Claims, derived: Claims, replaced: seq<string>): Claims {
    Merge(ClearAll(dst, replaced), derived)
  }

  function Below(clear: Option<Path>, k: string): Option<Path> {
    if clear.Some? && |clear.value| > 1 && clear.value[0] == k then Some(clear.value[1..]) else None
  }

  /** No object of `d` lands on a non-object of `y`, except where the copy path
      clears that value first. */
  ghost predicate Absorbs(y: Claims, d: Claims, clear: Option<Path>)
    decreases Object(d)
  {
    forall k :: k in y && k in d && d[k].Object? && clear != Some([k]) ==>
      y[k].Object? && Absorbs(y[k].fields, d[k].fields, Below(clear, k))
  }

  /** `clear`, if there is one, is a path that `d` writes. */
  ghost predicate Writes(d: Claims, clear: Option<Path>) {
    clear.Some? ==> |clear.value| > 0 && Walk(Object(d), clear.value).Some?
  }

  function Cleared(m: Claims, clear: Option<Path>): Claims
    requires clear.Some? ==> |clear.value| > 0
  {
    if clear.Some? then Clear(m, clear.value) else m
  }

  /** What clearing does to one key. */
  lemma ClearedAt(m: Claims, clear: Option<Path>, k: string)
    requires clear.Some? ==> |clear.value| > 0
    ensures clear == Some([k]) ==> k !in Cleared(m, clear)
    ensures clear != Some([k]) ==> (k in Cleared(m, clear) <==> k in m)
    ensures clear != Some([k]) && k in m ==>
              Cleared(m, clear)[k] ==
              if m[k].Object? then Object(Cleared(m[k].fields, Below(clear, k))) else m[k]
  {
    if clear.Some? && |clear.value| == 1 {
      assert clear.value == [clear.value[0]];
    }
  }

  lemma SameFields(a: Claims, b: Claims)
    requires forall k :: Field(a, k) == Field(b, k)
    ensures a == b
  {
    forall k ensures k in a <==> k in b {
      assert Field(a, k) == Field(b, k);
    }
    forall k | k in a ensures a[k] == b[k] {
      assert Field(a, k) == Field(b, k);
    }
  }

  /** Clearing a merge clears both sides of it. */
  lemma {:induction false} ClearedOfMerge(x: Claims, y: Claims, clear: Option<Path>)
    requires clear.Some? ==> |clear.value| > 0
    ensures Cleared(Merge(x, y), clear) == Merge(Cleared(x, clear), Cleared(y, clear))
    decreases clear.Some?, if clear.Some? then |clear.value| else 0
  {
    if clear.Some? {
      var k := clear.value[0];
      if k in x && k in y && x[k].Object? && y[k].Object? && |clear.value| > 1 {
        ClearedOfMerge(x[k].fields, y[k].fields, Below(clear, k));
      }
      forall j ensures Field(Cleared(Merge(x, y), clear), j) == Field(Merge(Cleared(x, clear), Cleared(y, clear)), j) {
        ClearedFieldOfMerge(x, y, clear, j);
      }
      SameFields(Cleared(Merge(x, y), clear), Merge(Cleared(x, clear), Cleared(y, clear)));
    }
  }

  lemma ClearedFieldOfMerge(x: Claims, y: Claims, clear: Option<Path>, j: string)
    requires clear.Some? && |clear.value| > 0
    requires j in x && j in y && x[j].Object? && y[j].Object? && |clear.value| > 1 && clear.value[0] == j ==>
               Cleared(Merge(x[j].fields, y[j].fields), Below(clear, j)) ==
               Merge(Cleared(x[j].fields, Below(clear, j)), Cleared(y[j].fields, Below(clear, j)))
    ensures Field(Cleared(Merge(x, y), clear), j) == Field(Merge(Cleared(x, clear), Cleared(y, clear)), j)
  {
    ClearedAt(x, clear, j);
    ClearedAt(y, clear, j);
    ClearedAt(Merge(x, y), clear, j);
    MergedAt(x, y, j);
    MergedAt(Cleared(x, clear), Cleared(y, clear), j);
  }

  lemma {:induction false} MergeAssociates(x: Claims, y: Claims, d: Claims)
    requires Absorbs(y, d, None)
    ensures Merge(Merge(x, y), d) == Merge(x, Merge(y, d))
    decreases Object(d)
  {
    forall k ensures Field(Merge(Merge(x, y), d), k) == Field(Merge(x, Merge(y, d)), k) {
      MergedAt(x, y, k);
      MergedAt(y, d, k);
      MergedAt(Merge(x, y), d, k);
      MergedAt(x, Merge(y, d), k);
      if k in x && k in y && k in d && x[k].Object? && d[k].Object? {
        MergeAssociates(x[k].fields, y[k].fields, d[k].fields);
      }
    }
    SameFields(Merge(Merge(x, y), d), Merge(x, Merge(y, d)));
  }

  lemma {:induction false} AbsorbsOnceCleared(y: Claims, d: Claims, clear: Option<Path>)
    requires (clear.Some? ==> |clear.value| > 0) && Absorbs(y, d, clear)
    ensures Absorbs(Cleared(y, clear), d, None)
    decreases Object(d)
  {
    forall k | k in Cleared(y, clear) && k in d && d[k].Object?
      ensures Cleared(y, clear)[k].Object? && Absorbs(Cleared(y, clear)[k].fields, d[k].fields, None)
    {
      ClearedAt(y, clear, k);
      AbsorbsOnceCleared(y[k].fields, d[k].fields, Below(clear, k));
    }
  }

  /** One step of a run, applied to the merged document, is the merge of the
      cleared document with the step applied to the outputs alone. */
  lemma StepCommutes(x: Claims, y: Claims, d: Claims, clear: Option<Path>)
    requires (clear.Some? ==> |clear.value| > 0) && Absorbs(y, d, clear)
    ensures Merge(Cleared(Merge(x, y), clear), d) == Merge(Cleared(x, clear), Merge(Cleared(y, clear), d))
  {
    ClearedOfMerge(x, y, clear);
    AbsorbsOnceCleared(y, d, clear);
    MergeAssociates(Cleared(x, clear), Cleared(y, clear), d);
  }

  ghost predicate Commutes(x: Claims, y: Claims, d: Claims, clear: Option<Path>)
    requires clear.Some? ==> |clear.value| > 0
  {
    Merge(Cleared(Merge(x, y), clear), d) == Merge(Cleared(x, clear), Merge(Cleared(y, clear), d))
  }

  lemma {:induction false} LongerThanAll(keys: set<string>) returns (n: nat)
    ensures forall s :: s in keys ==> |s| < n
  {
    if keys == {} {
      n := 0;
    } else {
      var s :| s in keys;
      var m := LongerThanAll(keys - {s});
      n := m + |s| + 1;
    }
  }

  lemma FreshKey(keys: set<string>) returns (k: string)
    ensures k !in keys
  {
    var n := LongerThanAll(keys);
    k := seq(n, _ => 'x');
  }

  lemma NestedWitness(y: Claims, d: Claims, clear: Option<Path>, k: string, inner: Claims)
    requires (clear.Some? ==> |clear.value| > 0) && k in y && k in d && y[k].Object? && d[k].Object? && clear != Some([k])
    requires !Commutes(inner, y[k].fields, d[k].fields, Below(clear, k))
    ensures !Commutes(map[k := Object(inner)], y, d, clear)
  {
    var x := map[k := Object(inner)];
    ClearedAt(x, clear, k);
    ClearedAt(y, clear, k);
    ClearedAt(Merge(x, y), clear, k);
    assert Merge(Cleared(Merge(x, y), clear), d)[k] != Merge(Cleared(x, clear), Merge(Cleared(y, clear), d))[k];
  }

  lemma ScalarWitness(y: Claims, d: Claims, clear: Option<Path>, k: string, unused: string)
    requires (clear.Some? ==> |clear.value| > 0) && k in y && k in d && !y[k].Object? && d[k].Object? && clear != Some([k])
    requires unused !in d[k].fields && Cleared(map[unused := Null], Below(clear, k)) == map[unused := Null]
    ensures !Commutes(map[k := Object(map[unused := Null])], y, d, clear)
  {
    var x := map[k := Object(map[unused := Null])];
    ClearedAt(x, clear, k);
    ClearedAt(y, clear, k);
    ClearedAt(Merge(x, y), clear, k);
    assert unused in Merge(map[unused := Null], d[k].fields);
    assert Merge(Cleared(Merge(x, y), clear), d)[k] != Merge(Cleared(x, clear), Merge(Cleared(y, clear), d))[k];
  }

  /** A document for which a step does not commute, whenever it is not absorbed. */
  lemma {:induction false} Counterexample(y: Claims, d: Claims, clear: Option<Path>) returns (x: Claims)
    requires clear.Some? ==> |clear.value| > 0
    requires !Absorbs(y, d, clear)
    ensures !Commutes(x, y, d, clear)
    decreases Object(d)
  {
    var k :| k in y && k in d && d[k].Object? && clear != Some([k]) &&
             !(y[k].Object? && Absorbs(y[k].fields, d[k].fields, Below(clear, k)));
    if y[k].Object? {
      var inner := Counterexample(y[k].fields, d[k].fields, Below(clear, k));
      NestedWitness(y, d, clear, k, inner);
      x := map[k := Object(inner)];
    } else {
      var below := Below(clear, k);
      var unused := FreshKey(d[k].fields.Keys + if below.Some? then {below.value[0]} else {});
      assert Cleared(map[unused := Null], Below(clear, k)) == map[unused := Null];
      ScalarWitness(y, d, clear, k, unused);
      x := map[k := Object(map[unused := Null])];
    }
  }

  /** A step commutes with the batch merge for every original document exactly
      when it never puts an object on an accumulated non-object. */
  lemma StepCommutesExactly(y: Claims, d: Claims, clear: Option<Path>)
    requires clear.Some? ==> |clear.value| > 0
    ensures (forall x :: Commutes(x, y, d, clear)) <==> Absorbs(y, d, clear)
  {
    if Absorbs(y, d, clear) {
      forall x ensures Commutes(x, y, d, clear) {
        StepCommutes(x, y, d, clear);
      }
    } else {
      var x := Counterexample(y, d, clear);
    }
  }

  /** Both maps write objects at the same paths: the pairwise condition on outputs. */
  ghost predicate SameShape(a: Claims, b: Claims)
    decreases Object(b)
  {
    forall k :: k in a && k in b ==>
      (a[k].Object? <==> b[k].Object?) && (a[k].Object? ==> SameShape(a[k].fields, b[k].fields))
  }

  lemma {:induction false} SameShapeMerges(x: Claims, y: Claims, d: Claims)
    requires SameShape(x, d) && SameShape(y, d)
    ensures SameShape(Merge(x, y), d)
    decreases Object(d)
  {
    forall k | k in Merge(x, y) && k in d && d[k].Object?
      ensures Merge(x, y)[k].Object? && SameShape(Merge(x, y)[k].fields, d[k].fields)
    {
      if k in x && k in y {
        SameShapeMerges(x[k].fields, y[k].fields, d[k].fields);
      }
    }
  }

  lemma {:induction false} SameShapeClears(x: Claims, d: Claims, clear: Option<Path>)
    requires clear.Some? ==> |clear.value| > 0
    requires SameShape(x, d)
    ensures SameShape(Cleared(x, clear), d)
    decreases Object(d)
  {
    forall k | k in Cleared(x, clear) && k in d
      ensures Cleared(x, clear)[k].Object? <==> d[k].Object?
      ensures d[k].Object? ==> SameShape(Cleared(x, clear)[k].fields, d[k].fields)
    {
      ClearedAt(x, clear, k);
      if d[k].Object? {
        SameShapeClears(x[k].fields, d[k].fields, Below(clear, k));
      }
    }
  }

  lemma {:induction false} SameShapeClearsToo(x: Claims, d: Claims, clear: Option<Path>)
    requires clear.Some? ==> |clear.value| > 0
    requires SameShape(x, d)
    ensures SameShape(x, Cleared(d, clear))
    decreases Object(d)
  {
    forall k | k in x && k in Cleared(d, clear)
      ensures x[k].Object? <==> Cleared(d, clear)[k].Object?
      ensures x[k].Object? ==> SameShape(x[k].fields, Cleared(d, clear)[k].fields)
    {
      ClearedAt(d, clear, k);
      if d[k].Object? {
        SameShapeClearsToo(x[k].fields, d[k].fields, Below(clear, k));
      }
    }
  }

  lemma {:induction false} SameShapeAbsorbs(y: Claims, d: Claims, clear: Option<Path>)
    requires SameShape(y, d)
    ensures Absorbs(y, d, clear)
    decreases Object(d)
  {
    forall k | k in y && k in d && d[k].Object? && clear != Some([k])
      ensures y[k].Object? && Absorbs(y[k].fields, d[k].fields, Below(clear, k))
    {
      SameShapeAbsorbs(y[k].fields, d[k].fields, Below(clear, k));
    }
  }

  // ----- merging the same outputs again -----

  lemma {:induction false} MergeSelf(m: Claims)
    ensures Merge(m, m) == m
    decreases Object(m)
  {
    forall k | k in m && m[k].Object? ensures Merge(m[k].fields, m[k].fields) == m[k].fields {
      MergeSelf(m[k].fields);
    }
  }

  function MergeField(a: Option<Value>, b: Option<Value>): Option<Value> {
    if b.None? then a
    else if a.Some? && a.value.Object? && b.value.Object? then Some(Object(Merge(a.value.fields, b.value.fields)))
    else b
  }

  lemma MergedAt(x: Claims, y: Claims, k: string)
    ensures Field(Merge(x, y), k) == MergeField(Field(x, k), Field(y, k))
  {
  }

  lemma MergeNothing(m: Claims)
    ensures Merge(map[], m) == m
  {
  }

  lemma ClearNothing(path: Path)
    requires |path| > 0
    ensures Clear(map[], path) == map[]
  {
  }

  /** The object at a key, or an empty one. */
  function Inside(m: Claims, k: string): Claims {
    if k in m && m[k].Object? then m[k].fields else map[]
  }

  lemma MergedAtOther(x: Claims, d: Claims, path: Path, k: string)
    requires |path| > 0 && k != path[0]
    ensures Field(Merge(Clear(x, path), d), k) == Field(Merge(x, d), k)
  {
  }

  lemma MergedAtFirst(x: Claims, d: Claims, path: Path)
    requires |path| > 1 && path[0] in d && d[path[0]].Object?
    ensures Field(Merge(Clear(x, path), d), path[0]) ==
            Some(Object(Merge(Clear(Inside(x, path[0]), path[1..]), d[path[0]].fields)))
    ensures Field(Merge(x, d), path[0]) == Some(Object(Merge(Inside(x, path[0]), d[path[0]].fields)))
  {
    ClearNothing(path[1..]);
    MergeNothing(d[path[0]].fields);
  }

  /** Documents that differ only where `d` overwrites them do so still once a path that `d`
      writes is cleared. */
  lemma {:induction false} ClearThenMerge(x: Claims, y: Claims, d: Claims, path: Path)
    requires Merge(x, d) == Merge(y, d) && |path| > 0 && Walk(Object(d), path).Some?
    ensures Merge(Clear(x, path), d) == Merge(Clear(y, path), d)
    decreases path
  {
    var k := path[0];
    if |path| > 1 {
      MergedAtFirst(x, d, path);
      MergedAtFirst(y, d, path);
      ClearThenMerge(Inside(x, k), Inside(y, k), d[k].fields, path[1..]);
    }
    forall j ensures Field(Merge(Clear(x, path), d), j) == Field(Merge(Clear(y, path), d), j) {
      if j != k {
        MergedAtOther(x, d, path, j);
        MergedAtOther(y, d, path, j);
      }
    }
    SameFields(Merge(Clear(x, path), d), Merge(Clear(y, path), d));
  }
}
