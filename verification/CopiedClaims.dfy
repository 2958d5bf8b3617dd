/** A copied claim in a document: what clearing and merging do to it, and which copies of a
    run are lost. */
module CopiedClaims {
  import opened ClaimMerging
  import opened ClaimValues
  import opened Derivations
  import opened SharedClaims
  import opened Wrappers

  lemma {:induction false} ClearTwice(m: Claims, path: Path)
    requires |path| > 0
    ensures Clear(Clear(m, path), path) == Clear(m, path)
    decreases path
  {
    if |path| > 1 && path[0] in m && m[path[0]].Object? {
      ClearTwice(m[path[0]].fields, path[1..]);
    }
  }

  lemma {:induction false} MergeTwice(m: Claims, y: Claims)
    ensures Merge(Merge(m, y), y) == Merge(m, y)
    decreases Object(y)
  {
    var once := Merge(m, y);
    forall k ensures Field(Merge(once, y), k) == Field(once, k) {
      MergedAt(m, y, k);
      MergedAt(once, y, k);
      if k in y && y[k].Object? {
        if k in m && m[k].Object? {
          MergeTwice(m[k].fields, y[k].fields);
        } else {
          MergeSelf(y[k].fields);
        }
      }
    }
    SameFields(Merge(once, y), once);
  }

  lemma {:induction false} ClearedIsGone(m: Claims, path: Path)
    requires |path| > 0
    ensures Walk(Object(Clear(m, path)), path).None?
    decreases path
  {
    if |path| > 1 && path[0] in m && m[path[0]].Object? {
      ClearedIsGone(m[path[0]].fields, path[1..]);
    } else if |path| > 1 && path[0] in m {
      assert path[1..] != [];
    }
  }

  /** Merging a copied claim in puts it there. */
  lemma {:induction false} CopyIsThere(m: Claims, path: Path, v: Value)
    requires |path| > 0
    ensures Walk(Object(Merge(Clear(m, path), Singleton(path, v))), path) == Some(v)
    decreases path
  {
    var y := Singleton(path, v);
    var k := path[0];
    MergedAt(Clear(m, path), y, k);
    if |path| > 1 && k in m && m[k].Object? {
      CopyIsThere(m[k].fields, path[1..], v);
    }
  }

  lemma {:induction false} CopyStays(m: Claims, path: Path, v: Value)
    requires |path| > 0 && Walk(Object(m), path) == Some(v)
    ensures Merge(m, Singleton(path, v)) == m
    decreases path
  {
    var y := Singleton(path, v);
    var k := path[0];
    if |path| > 1 {
      CopyStays(m[k].fields, path[1..], v);
    } else if v.Object? {
      MergeSelf(v.fields);
    }
    forall j ensures Field(Merge(m, y), j) == Field(m, j) {
      MergedAt(m, y, j);
    }
    SameFields(Merge(m, y), m);
  }

  /** Clearing again what was cleared and written gives the same. */
  lemma ClearAndWriteAgain(m: Claims, y: Claims, path: Path)
    requires |path| > 0 && Walk(Object(y), path).Some?
    ensures Merge(Clear(Merge(Clear(m, path), y), path), y) == Merge(Clear(m, path), y)
  {
    MergeTwice(Clear(m, path), y);
    ClearThenMerge(Merge(Clear(m, path), y), Clear(m, path), y, path);
    ClearTwice(m, path);
  }

  // ----- copies that are lost -----

  lemma RemainsAreGone(m: Claims, y: Claims, path: Path)
    requires |path| > 0
    ensures Walk(Object(Merge(Clear(m, path), Clear(y, path))), path).None?
  {
    ClearedOfMerge(m, y, Some(path));
    ClearedIsGone(Merge(m, y), path);
  }

  /** After the step of a copy the outputs have what was copied at its path, exactly unless the
      copy is lost. Its path is among the replaced ones either way. */
  lemma CopyLandsExactly(p: Progress, input: string, output: string, pinned: Claims)
    requires output != "" && Lookup(p.working, input).Some?
    ensures var r := Step(p, Copy(input, output), pinned);
            r.Ok? && r.value.replaced == p.replaced + [output] &&
            Walk(Object(r.value.out), Split(output)) ==
            if Lost(p.shared, p.working, Split(output)) then None else Lookup(p.working, input)
  {
    var path, v := Split(output), Lookup(p.working, input).value;
    CopyIsThere(p.out, path, v);
    RemainsAreGone(p.out, Singleton(path, v), path);
  }

  /** The roots are two maps. */
  lemma {:induction false} RootsAreApart(list: seq<Derivation>, claims: Claims, pinned: Claims)
    ensures var r := Run(list, Start(claims, pinned), pinned); r.Ok? ==> [] !in r.value.shared
  {
    if list != [] {
      RootsAreApart(list[..|list| - 1], claims, pinned);
    }
  }

  /** After whatever run, a copy to `output` is not lost. */
  ghost predicate NeverLost(output: string) {
    forall list: seq<Derivation>, claims: Claims, pinned: Claims :: Kept(list, claims, pinned, output)
  }

  ghost predicate Kept(list: seq<Derivation>, claims: Claims, pinned: Claims, output: string) {
    var r := Run(list, Start(claims, pinned), pinned);
    r.Ok? ==> !Lost(r.value.shared, r.value.working, Split(output))
  }

  lemma ObjectAtKey(m: Claims, k: string)
    ensures ObjectAt(m, [k]) <==> IsObject(Field(m, k))
  {
    assert [k][1..] == [];
    assert k in m ==> Walk(Object(m), [k]) == Walk(m[k], []);
  }

  lemma ObjectAtKeys(m: Claims, k: string, j: string)
    ensures ObjectAt(m, [k, j]) <==> IsObject(Field(m, k)) && IsObject(Field(m[k].fields, j))
  {
    assert [k, j][1..] == [j];
    if k in m {
      assert Walk(Object(m), [k, j]) == Walk(m[k], [j]);
      if m[k].Object? {
        assert m[k] == Object(m[k].fields);
        ObjectAtKey(m[k].fields, j);
      }
    }
  }

  /** An object that neither document had is the same map in both afterwards. */
  lemma SharedAfterOne(claims: Claims, earlier: Claims, k: string)
    requires IsObject(Field(earlier, k)) && !IsObject(Field(claims, k))
    ensures var r := Run([Always(earlier)], Start(claims, map[]), map[]);
            r.Ok? && [k] in r.value.shared && r.value.working == Merge(claims, earlier)
  {
    var start := Start(claims, map[]);
    assert [Always(earlier)][..0] == [];
    RunPrefix([Always(earlier)], 0, start, map[]);
    assert [Always(earlier)][..1] == [Always(earlier)];
    NoPins(claims);
    AlwaysSteps(start, earlier);
    SharingAt({}, map[], claims, earlier, [k]);
    ObjectAtKey(map[], k);
    ObjectAtKey(claims, k);
    ObjectAtKey(Merge(map[], earlier), k);
    ObjectAtKey(Merge(claims, earlier), k);
    MergedAt(map[], earlier, k);
    MergedAt(claims, earlier, k);
  }

  lemma LostAfterOne(claims: Claims, earlier: Claims, path: Path)
    requires |path| >= 3 && IsObject(Field(earlier, path[0])) && !IsObject(Field(claims, path[0]))
    requires !IsObject(Field(earlier[path[0]].fields, path[1]))
    ensures var r := Run([Always(earlier)], Start(claims, map[]), map[]);
            r.Ok? && r.value.working == Merge(claims, earlier) && Lost(r.value.shared, r.value.working, path)
  {
    var k, j := path[0], path[1];
    SharedAfterOne(claims, earlier, k);
    MergedAt(claims, earlier, k);
    ObjectAtKeys(Merge(claims, earlier), k, j);
    assert path[..1] == [k] && path[..2] == [k, j];
    var r := Run([Always(earlier)], Start(claims, map[]), map[]).value;
    assert LostAt(r.shared, r.working, path, 1);
  }

  /** For every path of three segments or more there is a run that loses what it copies there:
      an earlier output has an object at the first segment, and none below it at the second. */
  lemma LosesNestedCopy(claims: Claims, earlier: Claims, input: string, output: string)
    requires |Split(output)| >= 3 && Lookup(Merge(claims, earlier), input).Some?
    requires IsObject(Field(earlier, Split(output)[0])) && !IsObject(Field(claims, Split(output)[0]))
    requires !IsObject(Field(earlier[Split(output)[0]].fields, Split(output)[1]))
    ensures var r := Run([Always(earlier), Copy(input, output)], Start(claims, map[]), map[]);
            r.Ok? && r.value.replaced == [output] && Walk(Object(r.value.out), Split(output)).None?
  {
    var list, start := [Always(earlier), Copy(input, output)], Start(claims, map[]);
    LostAfterOne(claims, earlier, Split(output));
    assert list[..1] == [Always(earlier)] && list[..2] == list && list[..0] == [];
    RunPrefix(list, 0, start, map[]);
    RunPrefix(list, 1, start, map[]);
    AlwaysSteps(start, earlier);
    CopyLandsExactly(Run(list[..1], start, map[]).value, input, output, map[]);
  }

  /** A copy to `output` survives whatever ran before it exactly when its path has at most two
      segments. */
  lemma NeverLostExactly(output: string)
    ensures NeverLost(output) <==> |Split(output)| <= 2
  {
    var path := Split(output);
    if |path| <= 2 {
      forall list: seq<Derivation>, claims: Claims, pinned: Claims ensures Kept(list, claims, pinned, output) {
        RootsAreApart(list, claims, pinned);
        assert path[..0] == [];
      }
    } else {
      LostAfterOne(map[], map[path[0] := Object(map[])], path);
      assert !Kept([Always(map[path[0] := Object(map[])])], map[], map[], output);
    }
  }
}
