/** What one derivation does to a run, written out: when it fails, when it writes nothing, and
    what it writes where. */
module DerivationSteps {
  import opened ClaimMerging
  import opened ClaimValues
  import opened CopiedClaims
  import opened Derivations
  import opened SharedClaims
  import opened Wrappers

  // ----- reading a claim -----

  /** `v` is what a claim path reads: the literal key if there is one, or else what stands at
      the end of the dotted path. */
  ghost predicate Reads(claims: Claims, path: string, v: Option<Value>) {
    if path in claims then v == Some(claims[path]) else v == Walk(Object(claims), Split(path))
  }

  /** There is neither the literal key nor a value at the dotted path. */
  ghost predicate Missing(claims: Claims, path: string) {
    path !in claims && Walk(Object(claims), Split(path)).None?
  }

  // ----- failing -----

  /** On the way to `path` there is a value that is no object. */
  ghost predicate Obstructed(claims: Claims, path: Path) {
    exists i :: 0 < i < |path| && NoObjectAt(claims, path[..i])
  }

  ghost predicate NoObjectAt(claims: Claims, path: Path) {
    var v := Walk(Object(claims), path); v.Some? && !v.value.Object?
  }

  ghost predicate Fails(d: Derivation, claims: Claims) {
    match d
    case Compute(input, nested, fn) =>
      if nested then exists v :: Reads(claims, input, v) && fn(v).Err? else fn(Field(claims, input)).Err?
    case Copy(input, output) => !Missing(claims, input) && output == ""
    case Random(output, _, _) => output == "" || Obstructed(claims, Split(output))
    case HashCommitment => false
  }

  lemma {:induction false} ParentsExactly(v: Value, parents: Path)
    ensures ParentsAreObjects(v, parents) <==>
            forall i :: 0 <= i <= |parents| ==> var w := Walk(v, parents[..i]); w.None? || w.value.Object?
    decreases parents
  {
    if v.Object? && parents != [] && parents[0] in v.fields {
      var next, rest := v.fields[parents[0]], parents[1..];
      ParentsExactly(next, rest);
      forall i | 0 <= i < |parents| ensures Walk(v, parents[..i + 1]) == Walk(next, rest[..i]) {
        assert parents[..i + 1][1..] == rest[..i];
      }
      if ParentsAreObjects(v, parents) {
        forall i | 0 <= i <= |parents| ensures var w := Walk(v, parents[..i]); w.None? || w.value.Object? {
          if i > 0 {
            assert Walk(v, parents[..i - 1 + 1]) == Walk(next, rest[..i - 1]);
          }
        }
      } else {
        var i :| 0 <= i <= |rest| && !(var w := Walk(next, rest[..i]); w.None? || w.value.Object?);
        assert Walk(v, parents[..i + 1]) == Walk(next, rest[..i]);
      }
    } else {
      assert parents[..0] == [];
      if v.Object? {
        forall i | 0 < i <= |parents| ensures Walk(v, parents[..i]).None? {
          assert parents[..i][0] == parents[0];
        }
      }
    }
  }

  lemma ObstructedExactly(claims: Claims, path: Path)
    requires |path| > 0
    ensures ParentsAreObjects(Object(claims), path[..|path| - 1]) <==> !Obstructed(claims, path)
  {
    var parents := path[..|path| - 1];
    ParentsExactly(Object(claims), parents);
    assert forall i :: 0 <= i <= |parents| ==> parents[..i] == path[..i];
    if Obstructed(claims, path) {
      var i :| 0 < i < |path| && NoObjectAt(claims, path[..i]);
      assert parents[..i] == path[..i];
    } else {
      forall i | 0 <= i <= |parents| ensures var w := Walk(Object(claims), parents[..i]); w.None? || w.value.Object? {
        assert i > 0 ==> !NoObjectAt(claims, path[..i]);
      }
    }
  }

  /** A step fails exactly when the derivation's own function fails on the claim it reads, a
      copy that found its claim has no output, or a random value has no place. */
  lemma StepFailsExactly(p: Progress, d: Derivation, pinned: Claims)
    ensures Step(p, d, pinned).Err? <==> Fails(d, p.working)
  {
    if d.Random? {
      ObstructedExactly(p.working, Split(d.output));
    } else if d.Compute? && d.nested {
      assert Reads(p.working, d.input, Lookup(p.working, d.input));
    }
  }

  /** The derivation at `i` fails once those before it have run. */
  ghost predicate FailsAt(list: seq<Derivation>, p: Progress, pinned: Claims, i: nat)
    requires i < |list|
  {
    var before := Run(list[..i], p, pinned);
    before.Ok? && Fails(list[i], before.value.working)
  }

  /** A run fails exactly when one of its derivations does. */
  lemma {:induction false} RunFailsExactly(list: seq<Derivation>, p: Progress, pinned: Claims)
    ensures Run(list, p, pinned).Err? <==> exists i: nat :: i < |list| && FailsAt(list, p, pinned, i)
    decreases |list|
  {
    if list != [] {
      var n := |list| - 1;
      RunFailsExactly(list[..n], p, pinned);
      assert forall i: nat :: i < n ==> list[..n][..i] == list[..i];
      if Run(list[..n], p, pinned).Ok? {
        StepFailsExactly(Run(list[..n], p, pinned).value, list[n], pinned);
        forall i: nat | i < n ensures !FailsAt(list, p, pinned, i) {
          assert !FailsAt(list[..n], p, pinned, i);
        }
        assert Fails(list[n], Run(list[..n], p, pinned).value.working) ==> FailsAt(list, p, pinned, n);
      } else {
        var i: nat :| i < n && FailsAt(list[..n], p, pinned, i);
        assert FailsAt(list, p, pinned, i);
      }
    }
  }

  // ----- writing nothing -----

  /** A random value stands down for a claim that is there and not blank. */
  ghost predicate Supplied(claims: Claims, path: string) {
    exists v: Value :: Reads(claims, path, Some(v)) && v != Null && v != Text("") && v != Strings([]) && v != Array([])
  }

  /** The derivation finds nothing to do. */
  ghost predicate Idle(d: Derivation, claims: Claims) {
    match d
    case Compute(_, _, _) => false
    case Copy(input, _) => Missing(claims, input)
    case Random(output, overwrite, _) => !overwrite && Supplied(claims, output)
    case HashCommitment => true
  }

  lemma MergeOfNothing(m: Claims)
    ensures Merge(m, map[]) == m
  {
  }

  /** An idle derivation leaves the outputs, the replaced paths and, but for the pins, the
      working claims alone, and the run goes on. */
  lemma IdleChangesNothing(p: Progress, d: Derivation, pinned: Claims)
    requires Idle(d, p.working) && !Fails(d, p.working)
    ensures var r := Step(p, d, pinned);
            r.Ok? && r.value.out == p.out && r.value.replaced == p.replaced &&
            r.value.working == if d.HashCommitment? then p.working else p.working + pinned
  {
    StepFailsExactly(p, d, pinned);
    MergeOfNothing(p.out);
    MergeOfNothing(p.working);
    if d.Random? {
      var v: Value :| Reads(p.working, d.output, Some(v)) && v != Null && v != Text("") && v != Strings([]) && v != Array([]);
      assert Lookup(p.working, d.output) == Some(v);
    }
    if !d.HashCommitment? {
      assert Apply(d, p.working) == Ok(map[]);
    }
  }

  // ----- writing -----

  /** What a primitive computes from the claim it reads is merged into both documents. */
  lemma ComputedIsMerged(p: Progress, d: Derivation, pinned: Claims, v: Option<Value>)
    requires d.Compute? && if d.nested then Reads(p.working, d.input, v) else v == Field(p.working, d.input)
    requires d.fn(v).Ok?
    ensures var r := Step(p, d, pinned);
            r.Ok? && r.value.replaced == p.replaced && r.value.out == Merge(p.out, d.fn(v).value) &&
            r.value.working == Merge(p.working, d.fn(v).value) + pinned
  {
  }

  /** What stands at `path` once `v` is merged in there: an object joins the object it meets. */
  lemma {:induction false} MergedThere(m: Claims, path: Path, v: Value)
    requires |path| > 0
    ensures Walk(Object(Merge(m, Singleton(path, v))), path) == MergeField(Walk(Object(m), path), Some(v))
    decreases path
  {
    var k := path[0];
    MergedAt(m, Singleton(path, v), k);
    if |path| > 1 {
      if k in m && m[k].Object? {
        MergedThere(m[k].fields, path[1..], v);
      }
    } else {
      assert path[1..] == [];
    }
  }

  lemma {:induction false} MergedElsewhere(m: Claims, path: Path, v: Value, other: Path)
    requires |path| > 0 && !(path <= other) && !(other <= path)
    ensures Walk(Object(Merge(m, Singleton(path, v))), other) == Walk(Object(m), other)
    decreases path
  {
    var k := path[0];
    MergedAt(m, Singleton(path, v), other[0]);
    if other[0] == k {
      assert path == [k] + path[1..] && other == [k] + other[1..];
      if k in m && m[k].Object? {
        MergedElsewhere(m[k].fields, path[1..], v, other[1..]);
      } else {
        NotInSingleton(path[1..], v, other[1..]);
      }
    }
  }

  lemma {:induction false} NotInSingleton(path: Path, v: Value, other: Path)
    requires |path| > 0 && !(path <= other) && !(other <= path)
    ensures Walk(Object(Singleton(path, v)), other).None?
    decreases path
  {
    if other[0] == path[0] {
      assert path == [path[0]] + path[1..] && other == [path[0]] + other[1..];
      NotInSingleton(path[1..], v, other[1..]);
    }
  }

  /** A random value that has a place and is wanted goes to its path, in both documents, and
      every path apart from it reads as before. */
  lemma RandomIsWritten(p: Progress, d: Derivation)
    requires d.Random? && !Fails(d, p.working) && !Idle(d, p.working)
    ensures var r := Step(p, d, map[]);
            r.Ok? && r.value.replaced == p.replaced && WrittenAt(p.out, r.value.out, Split(d.output), d.value) &&
            WrittenAt(p.working, r.value.working, Split(d.output), d.value)
  {
    StepFailsExactly(p, d, map[]);
    var path := Split(d.output);
    var found := Lookup(p.working, d.output);
    assert Reads(p.working, d.output, found);
    assert Apply(d, p.working) == Ok(Singleton(path, d.value));
    NoPins(Merge(p.working, Singleton(path, d.value)));
    SingletonIsWritten(p.out, path, d.value);
    SingletonIsWritten(p.working, path, d.value);
  }

  ghost predicate WrittenAt(before: Claims, after: Claims, path: Path, v: Value) {
    (var w := Walk(Object(before), path);
     Walk(Object(after), path) == Some(if v.Object? && IsObject(w) then Object(Merge(w.value.fields, v.fields)) else v)) &&
    forall q :: !(path <= q) && !(q <= path) ==> Walk(Object(after), q) == Walk(Object(before), q)
  }

  lemma SingletonIsWritten(m: Claims, path: Path, v: Value)
    requires |path| > 0
    ensures WrittenAt(m, Merge(m, Singleton(path, v)), path, v)
  {
    MergedThere(m, path, v);
    forall q | !(path <= q) && !(q <= path) ensures Walk(Object(Merge(m, Singleton(path, v))), q) == Walk(Object(m), q) {
      MergedElsewhere(m, path, v, q);
    }
  }

  /** A copy that finds its claim and is not lost puts that value, and nothing else of its
      path, into the outputs. */
  lemma CopyIsWritten(p: Progress, input: string, output: string, pinned: Claims, v: Value)
    requires output != "" && Reads(p.working, input, Some(v)) && !Lost(p.shared, p.working, Split(output))
    ensures var r := Step(p, Copy(input, output), pinned);
            r.Ok? && r.value.replaced == p.replaced + [output] && Walk(Object(r.value.out), Split(output)) == Some(v)
  {
    CopyLandsExactly(p, input, output, pinned);
  }
}
