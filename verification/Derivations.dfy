/** The derivation pipeline: each configured derivation reads the working
    claims, its output is merged into both the outputs and the working claims,
    and pinned claims are put back after every step. */
module Derivations {
  import opened ClaimValues
  import opened ClaimMerging
  import opened SharedClaims
  import opened Wrappers

  /** One configured derivation.

      `Compute` stands for the primitives that are a function of one claim;
      `nested` tells those that resolve a dotted path from those that read one
      literal key. `Random` reads no input but looks at its own output. */
  datatype Derivation =
    | Compute(input: string, nested: bool, fn: Option<Value> -> Result<Claims>)
    | Copy(input: string, output: string)
    | Random(output: string, overwrite: bool, value: Value)
    | HashCommitment

  /** The claim path a derivation reads, or "" when it reads none. */
  function InputClaim(d: Derivation): string {
    if d.Compute? || d.Copy? then d.input else ""
  }

  // ----- one derivation -----

  /** A literal top-level key wins over walking the dotted path. */
  function Lookup(claims: Claims, path: string): Option<Value> {
    if path in claims then Some(claims[path]) else Walk(Object(claims), Split(path))
  }

  /** The claims that hold only `v`, at `path`. */
  function Singleton(path: Path, v: Value): (r: Claims)
    requires |path| > 0
    ensures Walk(Object(r), path) == Some(v)
    decreases |path|
  {
    map[path[0] := if |path| == 1 then v else Object(Singleton(path[1..], v))]
  }

  function SetClaim(path: string, v: Value): Result<Claims> {
    if path == "" then Err else Ok(Singleton(Split(path), v))
  }

  /** Every parent of an output path is an object, up to the first absent one. */
  predicate ParentsAreObjects(v: Value, parents: Path)
    decreases |parents|
  {
    v.Object? &&
    (parents == [] || parents[0] !in v.fields || ParentsAreObjects(v.fields[parents[0]], parents[1..]))
  }

  predicate Blank(v: Value) {
    v.Null? || v == Text("") || v == Strings([]) || v == Array([])
  }

  function Apply(d: Derivation, claims: Claims): Result<Claims> {
    match d
    case Compute(input, nested, fn) =>
      fn(if nested then Lookup(claims, input) else Field(claims, input))
    case Copy(input, output) =>
      var v := Lookup(claims, input);
      if v.None? then Ok(map[]) else SetClaim(output, v.value)
    case Random(output, overwrite, value) =>
      var parts := Split(output);
      if output == "" || !ParentsAreObjects(Object(claims), parts[..|parts| - 1]) then Err
      else if !overwrite && Lookup(claims, output).Some? && !Blank(Lookup(claims, output).value) then Ok(map[])
      else SetClaim(output, value)
    case HashCommitment => Err
  }

  /** The output path of a copy that wrote a value. */
  function CopyOutput(derived: Claims, d: Derivation): (r: Option<Path>)
    ensures Writes(derived, r)
  {
    if d.Copy? && Walk(Object(derived), Split(d.output)).Some? then Some(Split(d.output)) else None
  }

  // ----- a run -----

  /** `shared` are the paths at which the outputs and the working claims have one map. */
  datatype Progress = Progress(out: Claims, replaced: seq<string>, working: Claims, shared: set<Path>)

  function Start(claims: Claims, pinned: Claims): Progress {
    Progress(map[], [], claims + pinned, {})
  }

  function Advance(p: Progress, d: Derivation, derived: Claims, pinned: Claims): Progress {
    var copied := CopyOutput(derived, d);
    var landed := Landed(p.shared, p.working, derived, copied);
    Progress(
      MergeReplacing(p.out, landed, copied),
      if copied.Some? then p.replaced + [d.output] else p.replaced,
      MergeReplacing(p.working, landed, copied) + pinned,
      Unpinned(Sharing(p.shared, Cleared(p.out, copied), Cleared(p.working, copied), landed), pinned))
  }

  function Step(p: Progress, d: Derivation, pinned: Claims): Result<Progress> {
    if d.HashCommitment? then Ok(p)
    else
      var derived := Apply(d, p.working);
      if derived.Err? then Err else Ok(Advance(p, d, derived.value, pinned))
  }

  /** The run of a whole list, which stops at the first failure. */
  function Run(list: seq<Derivation>, p: Progress, pinned: Claims): Result<Progress> {
    if list == [] then Ok(p)
    else
      var before := Run(list[..|list| - 1], p, pinned);
      if before.Err? then Err else Step(before.value, list[|list| - 1], pinned)
  }

  // ----- the code, step by step -----

  /** Merges key by key, in whatever order the source map is iterated. */
  method MergeNestedClaims(dst: Claims, src: Claims) returns (r: Claims)
    ensures r == Merge(dst, src)
    decreases Object(src)
  {
    r := dst;
    var todo := src.Keys;
    while todo != {}
      invariant todo <= src.Keys
      invariant r.Keys == dst.Keys + (src.Keys - todo)
      invariant forall k :: k in r ==> r[k] == if k in todo then dst[k] else Merge(dst, src)[k]
    {
      var k :| k in todo;
      if src[k].Object? && k in r && r[k].Object? {
        var merged := MergeNestedClaims(r[k].fields, src[k].fields);
        r := r[k := Object(merged)];
      } else {
        r := r[k := src[k]];
      }
      todo := todo - {k};
    }
    assert r.Keys == Merge(dst, src).Keys;
  }

  method WalkPath(root: Claims, parts: Path) returns (r: Option<Value>)
    ensures r == Walk(Object(root), parts)
  {
    var cur := Object(root);
    for i := 0 to |parts|
      invariant Walk(Object(root), parts) == Walk(cur, parts[i..])
    {
      if !cur.Object? || parts[i] !in cur.fields {
        return None;
      }
      assert parts[i..][1..] == parts[i + 1..];
      cur := cur.fields[parts[i]];
    }
    r := Some(cur);
  }

  method ApplyDerivationsReplacing(list: seq<Derivation>, claims: Claims, pinned: Claims)
    returns (r: Result<(Claims, seq<string>)>)
    ensures r == match Run(list, Start(claims, pinned), pinned)
                 case Ok(p) => Ok((p.out, p.replaced))
                 case Err => Err
  {
    var p := Start(claims, pinned);
    for i := 0 to |list|
      invariant Run(list[..i], Start(claims, pinned), pinned) == Ok(p)
    {
      RunPrefix(list, i, Start(claims, pinned), pinned);
      var d := list[i];
      if d.HashCommitment? {
        continue;
      }
      var derived := Apply(d, p.working);
      if derived.Err? {
        RunFailsEarly(list, i + 1, Start(claims, pinned), pinned);
        return Err;
      }
      var copied := CopyOutput(derived.value, d);
      var landed := Landed(p.shared, p.working, derived.value, copied);
      var out := MergeNestedClaims(Cleared(p.out, copied), landed);
      var working := MergeNestedClaims(Cleared(p.working, copied), landed);
      var replaced := if copied.Some? then p.replaced + [d.output] else p.replaced;
      var shared := Sharing(p.shared, Cleared(p.out, copied), Cleared(p.working, copied), landed);
      p := Progress(out, replaced, working + pinned, Unpinned(shared, pinned));
    }
    assert list[..|list|] == list;
    r := Ok((p.out, p.replaced));
  }

  lemma RunPrefix(list: seq<Derivation>, i: nat, p: Progress, pinned: Claims)
    requires i < |list|
    ensures Run(list[..i + 1], p, pinned) ==
            var before := Run(list[..i], p, pinned);
            if before.Err? then Err else Step(before.value, list[i], pinned)
  {
    assert list[..i + 1][..i] == list[..i];
  }

  lemma {:induction false} RunFailsEarly(list: seq<Derivation>, i: nat, p: Progress, pinned: Claims)
    requires i <= |list| && Run(list[..i], p, pinned).Err?
    ensures Run(list, p, pinned).Err?
    decreases |list| - i
  {
    if i == |list| {
      assert list[..i] == list;
    } else {
      RunPrefix(list, i, p, pinned);
      RunFailsEarly(list, i + 1, p, pinned);
    }
  }

  // ----- batch equals incremental -----

  /** At every step what is merged lands on nothing but objects the outputs so far
      hold, or on a value the copy of the step itself clears. */
  ghost predicate EveryStepAbsorbed(list: seq<Derivation>, p: Progress) {
    list == [] ||
    var n := |list| - 1;
    EveryStepAbsorbed(list[..n], p) && StepAbsorbed(Run(list[..n], p, map[]), list[n])
  }

  ghost predicate StepAbsorbed(before: Result<Progress>, d: Derivation) {
    before.Ok? && !d.HashCommitment? && Apply(d, before.value.working).Ok? ==>
      var derived := Apply(d, before.value.working).value;
      var copied := CopyOutput(derived, d);
      Absorbs(before.value.out, Landed(before.value.shared, before.value.working, derived, copied), copied)
  }

  lemma ClearAllSnoc(m: Claims, paths: seq<string>, path: string)
    ensures ClearAll(m, paths + [path]) == Clear(ClearAll(m, paths), Split(path))
  {
    assert (paths + [path])[..|paths|] == paths;
  }

  lemma ClearAllAdvances(claims: Claims, p: Progress, d: Derivation, derived: Claims)
    ensures ClearAll(claims, Advance(p, d, derived, map[]).replaced) ==
            Cleared(ClearAll(claims, p.replaced), CopyOutput(derived, d))
  {
    if CopyOutput(derived, d).Some? {
      ClearAllSnoc(claims, p.replaced, d.output);
    }
  }

  lemma NoPins(m: Claims)
    ensures m + map[] == m
  {
  }

  lemma BatchStep(claims: Claims, p: Progress, d: Derivation, derived: Claims)
    requires p.working == MergeDerived(claims, p.out, p.replaced)
    requires var copied := CopyOutput(derived, d); Absorbs(p.out, Landed(p.shared, p.working, derived, copied), copied)
    ensures var q := Advance(p, d, derived, map[]);
            q.working == MergeDerived(claims, q.out, q.replaced)
  {
    var q, copied := Advance(p, d, derived, map[]), CopyOutput(derived, d);
    var cleared, landed := ClearAll(claims, p.replaced), Landed(p.shared, p.working, derived, copied);
    calc {
      q.working;
      { NoPins(MergeReplacing(p.working, landed, copied)); }
      Merge(Cleared(Merge(cleared, p.out), copied), landed);
      { StepCommutes(cleared, p.out, landed, copied); }
      Merge(Cleared(cleared, copied), q.out);
      { ClearAllAdvances(claims, p, d, derived); }
      MergeDerived(claims, q.out, q.replaced);
    }
  }

  /** Without pins, merging the accumulated outputs once into the original claims
      gives the working claims that were built up step by step. */
  lemma {:induction false} BatchEqualsIncremental(list: seq<Derivation>, claims: Claims)
    requires EveryStepAbsorbed(list, Start(claims, map[]))
    ensures match Run(list, Start(claims, map[]), map[])
            case Ok(p) => p.working == MergeDerived(claims, p.out, p.replaced)
            case Err => true
  {
    if list == [] {
      assert Start(claims, map[]).working == Merge(claims, map[]);
    } else {
      var n := |list| - 1;
      BatchEqualsIncremental(list[..n], claims);
      var before := Run(list[..n], Start(claims, map[]), map[]);
      if before.Ok? && !list[n].HashCommitment? {
        var derived := Apply(list[n], before.value.working);
        if derived.Ok? {
          BatchStep(claims, before.value, list[n], derived.value);
        }
      }
    }
  }

  /** A derivation that always writes `output`. */
  function Always(output: Claims): Derivation {
    Compute("", false, v => Ok(output))
  }

  lemma AlwaysSteps(p: Progress, y: Claims)
    ensures var r := Step(p, Always(y), map[]);
            r.Ok? && r.value.out == Merge(p.out, y) && r.value.replaced == p.replaced && r.value.working == Merge(p.working, y)
  {
    NoPins(Merge(p.working, y));
  }

  lemma PairRuns(y: Claims, d: Claims, claims: Claims)
    ensures var r := Run([Always(y), Always(d)], Start(claims, map[]), map[]);
            r.Ok? && r.value.out == Merge(y, d) && r.value.replaced == [] && r.value.working == Merge(Merge(claims, y), d)
  {
    var list, start := [Always(y), Always(d)], Start(claims, map[]);
    RunPrefix(list, 0, start, map[]);
    RunPrefix(list, 1, start, map[]);
    assert list[..2] == list;
    NoPins(claims);
    MergeNothing(y);
    AlwaysSteps(start, y);
    AlwaysSteps(Step(start, Always(y), map[]).value, d);
  }

  /** Batch and incremental agree on `list` for all claims. */
  ghost predicate BatchAlwaysAgrees(list: seq<Derivation>) {
    forall claims: Claims ::
      match Run(list, Start(claims, map[]), map[])
      case Ok(p) => p.working == MergeDerived(claims, p.out, p.replaced)
      case Err => true
  }

  /** On a list of two derivations with fixed outputs they agree for all claims exactly when
      no object of the second lands on a scalar of the first. */
  lemma BatchOfTwoExactly(y: Claims, d: Claims)
    ensures BatchAlwaysAgrees([Always(y), Always(d)]) <==> Absorbs(y, d, None)
  {
    var list := [Always(y), Always(d)];
    if Absorbs(y, d, None) {
      forall claims: Claims
        ensures match Run(list, Start(claims, map[]), map[])
                case Ok(p) => p.working == MergeDerived(claims, p.out, p.replaced)
                case Err => true
      {
        PairRuns(y, d, claims);
        StepCommutes(claims, y, d, None);
      }
    } else {
      var x := Counterexample(y, d, None);
      PairRuns(y, d, x);
      assert Merge(Merge(x, y), d) != MergeDerived(x, Merge(y, d), []);
    }
  }

  /** The outputs, step by step. */
  ghost function Outputs(list: seq<Derivation>, p: Progress): seq<Claims> {
    if list == [] then []
    else
      var n := |list| - 1;
      var before := Run(list[..n], p, map[]);
      Outputs(list[..n], p) +
      if before.Ok? && !list[n].HashCommitment? && Apply(list[n], before.value.working).Ok?
      then [Apply(list[n], before.value.working).value] else []
  }

  ghost predicate PairwiseSameShape(outputs: seq<Claims>) {
    forall i, j :: 0 <= i < j < |outputs| ==> SameShape(outputs[i], outputs[j])
  }

  lemma {:induction false} OutputsKeepShape(list: seq<Derivation>, p: Progress, d: Claims)
    requires p.out == map[]
    requires forall i :: 0 <= i < |Outputs(list, p)| ==> SameShape(Outputs(list, p)[i], d)
    ensures match Run(list, p, map[]) case Ok(q) => SameShape(q.out, d) case Err => true
  {
    if list != [] {
      var n := |list| - 1;
      var o, all := Outputs(list[..n], p), Outputs(list, p);
      assert forall i :: 0 <= i < |o| ==> all[i] == o[i];
      OutputsKeepShape(list[..n], p, d);
      var before := Run(list[..n], p, map[]);
      if before.Ok? && !list[n].HashCommitment? && Apply(list[n], before.value.working).Ok? {
        var derived := Apply(list[n], before.value.working).value;
        assert all[|o|] == derived;
        var copied := CopyOutput(derived, list[n]);
        SameShapeClears(before.value.out, d, copied);
        SameShapeClears(derived, d, copied);
        SameShapeMerges(Cleared(before.value.out, copied), Landed(before.value.shared, before.value.working, derived, copied), d);
      }
    }
  }

  /** The condition operators can check: no path is written as an object by one
      derivation and as a scalar by another. */
  lemma {:induction false} SameShapeSteps(list: seq<Derivation>, p: Progress)
    requires p.out == map[]
    requires PairwiseSameShape(Outputs(list, p))
    ensures EveryStepAbsorbed(list, p)
  {
    if list != [] {
      var n := |list| - 1;
      var o, all := Outputs(list[..n], p), Outputs(list, p);
      assert forall i :: 0 <= i < |o| ==> all[i] == o[i];
      SameShapeSteps(list[..n], p);
      var before := Run(list[..n], p, map[]);
      if before.Ok? && !list[n].HashCommitment? && Apply(list[n], before.value.working).Ok? {
        var derived := Apply(list[n], before.value.working).value;
        assert all[|o|] == derived;
        OutputsKeepShape(list[..n], p, derived);
        var copied := CopyOutput(derived, list[n]);
        SameShapeClearsToo(before.value.out, derived, copied);
        SameShapeAbsorbs(before.value.out, Landed(before.value.shared, before.value.working, derived, copied), copied);
      }
    }
  }

  // ----- pins -----

  /** After any number of steps the working claims hold the pinned values. */
  lemma {:induction false} PinsStayAuthoritative(list: seq<Derivation>, claims: Claims, pinned: Claims)
    ensures match Run(list, Start(claims, pinned), pinned)
            case Ok(p) => forall k :: k in pinned ==> k in p.working && p.working[k] == pinned[k]
            case Err => true
  {
    if list != [] {
      PinsStayAuthoritative(list[..|list| - 1], claims, pinned);
    }
  }
}
