/** The startup check that keeps an opening's secret claim out of a credential,
    and the proof that it does: whatever the secret is, the issued document is
    the same. */
module OpeningClaims {
  import opened ClaimValues
  import opened ClaimMerging
  import opened Derivations
  import opened SharedClaims
  import opened VctmFilter
  import opened Wrappers
  import Filter = VctmFilterProperties
  import Mapping = AttributeMapping

  // ----- the check -----

  /** One path is a prefix of the other, where a null segment matches anything. */
  predicate PathsOverlap(declared: DeclaredPath, segments: Path) {
    forall i :: 0 <= i < |declared| && i < |segments| && declared[i].Some? ==> declared[i].value == segments[i]
  }

  predicate VctmDeclares(vctm: Vctm, claim: string) {
    exists i :: 0 <= i < |vctm| && (PathsOverlap(vctm[i], Split(claim)) || PathsOverlap(vctm[i], [claim]))
  }

  predicate ClaimPathsOverlap(a: string, b: string) {
    a == b || a + ['.'] <= b || b + ['.'] <= a
  }

  predicate ClaimUnread(list: seq<Derivation>, claim: string) {
    forall i :: 0 <= i < |list| && InputClaim(list[i]) != "" ==> !ClaimPathsOverlap(InputClaim(list[i]), claim)
  }

  /** The check for a claim of a presentation that is issued as an SD-JWT VC. */
  predicate CheckClaimSecret(vctm: Vctm, list: seq<Derivation>, claim: string) {
    !VctmDeclares(vctm, claim) && ClaimUnread(list, claim)
  }

  /** What configuration loading has established for a presentation source: an
      input is never empty, and the random primitive is refused. */
  predicate PresentationDerivations(list: seq<Derivation>) {
    forall i :: 0 <= i < |list| ==>
      !list[i].Random? && ((list[i].Compute? || list[i].Copy?) ==> list[i].input != "")
  }

  // ----- what the check refuses -----

  /** One path holds the other. */
  ghost predicate Comparable(p: Path, q: Path) {
    p <= q || q <= p
  }

  /** A path that a declared one stands for: any segment may take the place of a null. */
  ghost predicate StandsFor(declared: DeclaredPath, p: Path) {
    |p| == |declared| && forall i :: 0 <= i < |declared| && declared[i].Some? ==> p[i] == declared[i].value
  }

  /** The declared path with the segments of `segments` in place of its nulls. */
  function Instance(declared: DeclaredPath, segments: Path): Path {
    seq(|declared|, i requires 0 <= i < |declared| =>
      if declared[i].Some? then declared[i].value else if i < |segments| then segments[i] else "")
  }

  lemma OverlapExactly(declared: DeclaredPath, segments: Path)
    ensures PathsOverlap(declared, segments) <==> exists p :: StandsFor(declared, p) && Comparable(p, segments)
  {
    if PathsOverlap(declared, segments) {
      var p := Instance(declared, segments);
      assert StandsFor(declared, p);
      if |p| <= |segments| {
        assert p == segments[..|p|];
      } else {
        assert segments == p[..|segments|];
      }
    } else {
      var i :| 0 <= i < |declared| && i < |segments| && declared[i].Some? && declared[i].value != segments[i];
      forall p | StandsFor(declared, p) ensures !Comparable(p, segments) {
        assert p[i] != segments[i];
      }
    }
  }

  lemma InputOverlapExactly(input: string, claim: string)
    ensures ClaimPathsOverlap(input, claim) <==> Comparable(Split(input), Split(claim))
  {
    DottedPrefixIsSegmentPrefix(input, claim);
    DottedPrefixIsSegmentPrefix(claim, input);
  }

  /** Some derivation reads the claim, an object that holds it, or part of it. */
  ghost predicate SomeReads(list: seq<Derivation>, claim: string) {
    exists i :: 0 <= i < |list| && (list[i].Compute? || list[i].Copy?) && list[i].input != "" &&
      Comparable(Split(list[i].input), Split(claim))
  }

  /** Some declared path stands for one that the claim's path, dotted or literal, holds or
      lies in. */
  ghost predicate SomeDeclares(vctm: Vctm, claim: string) {
    exists i, p :: 0 <= i < |vctm| && StandsFor(vctm[i], p) && (Comparable(p, Split(claim)) || Comparable(p, [claim]))
  }

  lemma DeclaresExactly(vctm: Vctm, claim: string)
    ensures VctmDeclares(vctm, claim) <==> SomeDeclares(vctm, claim)
  {
    forall i | 0 <= i < |vctm|
      ensures PathsOverlap(vctm[i], Split(claim)) <==> exists p :: StandsFor(vctm[i], p) && Comparable(p, Split(claim))
      ensures PathsOverlap(vctm[i], [claim]) <==> exists p :: StandsFor(vctm[i], p) && Comparable(p, [claim])
    {
      OverlapExactly(vctm[i], Split(claim));
      OverlapExactly(vctm[i], [claim]);
    }
  }

  lemma UnreadExactly(list: seq<Derivation>, claim: string)
    ensures ClaimUnread(list, claim) <==> !SomeReads(list, claim)
  {
    forall i | 0 <= i < |list|
      ensures ClaimPathsOverlap(InputClaim(list[i]), claim) <==> Comparable(Split(InputClaim(list[i])), Split(claim))
    {
      InputOverlapExactly(InputClaim(list[i]), claim);
    }
  }

  /** The check refuses a claim exactly when a derivation reads around it or the metadata
      declares something around it, and for no other reason. */
  lemma CheckRefusesExactly(vctm: Vctm, list: seq<Derivation>, claim: string)
    ensures !CheckClaimSecret(vctm, list, claim) <==> SomeReads(list, claim) || SomeDeclares(vctm, claim)
  {
    DeclaresExactly(vctm, claim);
    UnreadExactly(list, claim);
  }

  // ----- two documents that differ only at one path -----

  ghost predicate AgreeExcept(a: Option<Value>, b: Option<Value>, path: Path)
    decreases |path|
  {
    || path == []
    || a == b
    || (a.Some? && b.Some? && a.value.Object? && b.value.Object? &&
        DocumentsAgreeExcept(a.value.fields, b.value.fields, path))
  }

  ghost predicate DocumentsAgreeExcept(x: Claims, y: Claims, path: Path)
    requires |path| > 0
    decreases |path|, 0
  {
    && (forall k :: k != path[0] ==> Field(x, k) == Field(y, k))
    && AgreeExcept(Field(x, path[0]), Field(y, path[0]), path[1..])
  }

  lemma {:induction false} WalksAgree(x: Value, y: Value, path: Path, other: Path)
    requires AgreeExcept(Some(x), Some(y), path)
    requires !(path <= other) && !(other <= path)
    ensures Walk(x, other) == Walk(y, other)
    decreases |path|
  {
    if x != y {
      assert Field(x.fields, other[0]) == Field(y.fields, other[0]) || other[0] == path[0];
      if other[0] == path[0] {
        Mapping.ApartTails(path, other);
        assert AgreeExcept(Field(x.fields, path[0]), Field(y.fields, path[0]), path[1..]);
        if Field(x.fields, path[0]) != Field(y.fields, path[0]) {
          WalksAgree(x.fields[path[0]], y.fields[path[0]], path[1..], other[1..]);
        }
      }
    }
  }

  lemma {:induction false} AgreesWithSelf(x: Claims, path: Path)
    requires |path| > 0
    ensures DocumentsAgreeExcept(x, x, path)
  {
  }

  lemma {:induction false} MergesAgree(x: Claims, y: Claims, c: Claims, d: Claims, path: Path)
    requires |path| > 0 && DocumentsAgreeExcept(x, y, path) && DocumentsAgreeExcept(c, d, path)
    ensures DocumentsAgreeExcept(Merge(x, c), Merge(y, d), path)
    decreases |path|
  {
    var k := path[0];
    forall other | other != k
      ensures Field(Merge(x, c), other) == Field(Merge(y, d), other)
    {
      assert Field(x, other) == Field(y, other) && Field(c, other) == Field(d, other);
      MergedAt(x, c, other);
      MergedAt(y, d, other);
    }
    MergedAt(x, c, k);
    MergedAt(y, d, k);
    if |path| > 1 && k in x && x[k].Object? && k in c && c[k].Object? {
      assert AgreeExcept(Field(x, k), Field(y, k), path[1..]) && AgreeExcept(Field(c, k), Field(d, k), path[1..]);
      AgreesWithSelf(x[k].fields, path[1..]);
      AgreesWithSelf(c[k].fields, path[1..]);
      MergesAgree(x[k].fields, y[k].fields, c[k].fields, d[k].fields, path[1..]);
    }
  }

  lemma {:induction false} ClearsAgree(x: Claims, y: Claims, clear: Path, path: Path)
    requires |path| > 0 && |clear| > 0 && DocumentsAgreeExcept(x, y, path)
    ensures DocumentsAgreeExcept(Clear(x, clear), Clear(y, clear), path)
    decreases |path|
  {
    var k := path[0];
    forall other | other != k
      ensures Field(Clear(x, clear), other) == Field(Clear(y, clear), other)
    {
      assert Field(x, other) == Field(y, other);
    }
    assert Field(x, clear[0]) == Field(y, clear[0]) || clear[0] == k;
    if |path| > 1 && |clear| > 1 && clear[0] == k && Field(x, k) != Field(y, k) {
      ClearsAgree(x[k].fields, y[k].fields, clear[1..], path[1..]);
    }
  }

  lemma {:induction false} ClearAllAgrees(x: Claims, y: Claims, paths: seq<string>, path: Path)
    requires |path| > 0 && DocumentsAgreeExcept(x, y, path)
    ensures DocumentsAgreeExcept(ClearAll(x, paths), ClearAll(y, paths), path)
    decreases |paths|
  {
    if paths != [] {
      var init := paths[..|paths| - 1];
      ClearAllAgrees(x, y, init, path);
      ClearsAgree(ClearAll(x, init), ClearAll(y, init), Split(paths[|paths| - 1]), path);
    }
  }

  /** Clearing at or beneath a path shows nowhere else. */
  lemma {:induction false} ClearingAgrees(m: Claims, clear: Path, path: Path)
    requires |path| > 0 && path <= clear
    ensures DocumentsAgreeExcept(m, Clear(m, clear), path)
    decreases |path|
  {
    assert clear[0] == path[0];
    if |path| > 1 && path[0] in m && m[path[0]].Object? {
      assert path[1..] <= clear[1..];
      ClearingAgrees(m[path[0]].fields, clear[1..], path[1..]);
    }
  }

  /** Documents that agree except at a path have their objects outside it in common. */
  lemma {:induction false} ObjectsAgree(x: Claims, y: Claims, path: Path, q: Path)
    requires |path| > 0 && DocumentsAgreeExcept(x, y, path) && !(path <= q)
    ensures ObjectAt(x, q) == ObjectAt(y, q)
    decreases |path|
  {
    if q != [] {
      assert Field(x, q[0]) == Field(y, q[0]) || q[0] == path[0];
      if Field(x, q[0]) != Field(y, q[0]) {
        assert AgreeExcept(Field(x, path[0]), Field(y, path[0]), path[1..]);
        assert path == [path[0]] + path[1..] && q == [q[0]] + q[1..];
        ObjectsAgree(x[q[0]].fields, y[q[0]].fields, path[1..], q[1..]);
      }
    }
  }

  // ----- defaults -----

  /** Fills an absent claim, by segments. */
  function FillAt(m: Claims, path: Path, v: Value): Result<Claims>
    requires |path| > 0
  {
    if Walk(Object(m), path).Some? then Ok(m) else Mapping.SetAt(m, path, v)
  }

  lemma FillAtBelow(m: Claims, path: Path, v: Value)
    requires |path| > 1 && path[0] in m && m[path[0]].Object?
    ensures var inner := FillAt(m[path[0]].fields, path[1..], v);
            FillAt(m, path, v) == if inner.Err? then Err else Ok(m[path[0] := Object(inner.value)])
  {
    assert m[path[0] := m[path[0]]] == m;
  }

  /** Filling touches only the first member of its path. */
  lemma FillAtHead(x: Claims, y: Claims, path: Path, v: Value)
    requires |path| > 0 && Field(x, path[0]) == Field(y, path[0])
    ensures FillAt(x, path, v).Ok? == FillAt(y, path, v).Ok?
    ensures FillAt(x, path, v).Ok? ==>
              && Field(FillAt(x, path, v).value, path[0]) == Field(FillAt(y, path, v).value, path[0])
              && forall k :: k != path[0] ==> Field(FillAt(x, path, v).value, k) == Field(x, k)
  {
    Mapping.SetTouchesHead(x, y, path, v);
    Mapping.SetTouchesHead(x, x, path, v);
  }

  lemma {:induction false} FillsAgree(x: Claims, y: Claims, fill: Path, v: Value, path: Path)
    requires |path| > 0 && |fill| > 0 && DocumentsAgreeExcept(x, y, path)
    requires !(path < fill)
    ensures FillAt(x, fill, v).Ok? == FillAt(y, fill, v).Ok?
    ensures FillAt(x, fill, v).Ok? ==>
              DocumentsAgreeExcept(FillAt(x, fill, v).value, FillAt(y, fill, v).value, path)
    decreases |path|
  {
    var k := fill[0];
    FillAtHead(x, x, fill, v);
    FillAtHead(y, y, fill, v);
    if Field(x, k) == Field(y, k) {
      FillAtHead(x, y, fill, v);
    } else {
      assert k == path[0];
      assert AgreeExcept(Field(x, k), Field(y, k), path[1..]);
      if |path| == 1 {
        assert |fill| == 1 by {
          assert fill == [k] + fill[1..] && path == [k];
        }
      } else if |fill| > 1 {
        assert path == [k] + path[1..] && fill == [k] + fill[1..];
        FillsAgree(x[k].fields, y[k].fields, fill[1..], v, path[1..]);
        FillAtBelow(x, fill, v);
        FillAtBelow(y, fill, v);
      } else {
        assert fill[1..] == [] && Walk(Object(x), fill).Some? && Walk(Object(y), fill).Some?;
      }
    }
  }

  lemma {:induction false} AllFillsAgree(x: Claims, y: Claims, defaults: Claims, paths: seq<string>, path: Path)
    requires |path| > 0 && DocumentsAgreeExcept(x, y, path)
    requires forall p :: p in paths ==> p in defaults && !(path < Split(p))
    ensures var a, b := Mapping.Fill(x, defaults, paths), Mapping.Fill(y, defaults, paths);
            a.Ok? == b.Ok? && (a.Ok? ==> DocumentsAgreeExcept(a.value, b.value, path))
    decreases |paths|
  {
    if paths != [] {
      var init, last := paths[..|paths| - 1], paths[|paths| - 1];
      AllFillsAgree(x, y, defaults, init, path);
      var a, b := Mapping.Fill(x, defaults, init), Mapping.Fill(y, defaults, init);
      if a.Ok? && last != "" {
        FillsAgree(a.value, b.value, Split(last), defaults[last], path);
      }
    }
  }

  // ----- what a derivation reads -----

  /** The places a claim name can stand for: its dotted path, or one literal key. */
  ghost predicate SecretPath(claim: string, path: Path) {
    path == Split(claim) || path == [claim]
  }

  lemma {:induction false} SegmentsHaveNoDots(s: string)
    ensures Split(Split(s)[0]) == [Split(s)[0]]
  {
    if s != [] {
      SegmentsHaveNoDots(s[1..]);
      var rest := Split(s[1..]);
      if s[0] != '.' {
        assert Split(s)[0] == [s[0]] + rest[0];
        assert ([s[0]] + rest[0])[1..] == rest[0];
      }
    }
  }

  lemma InputIsApart(claim: string, path: Path, input: string)
    requires SecretPath(claim, path) && !ClaimPathsOverlap(input, claim)
    ensures input != path[0] && !(path <= Split(input)) && !(Split(input) <= path)
  {
    DottedPrefixIsSegmentPrefix(input, claim);
    DottedPrefixIsSegmentPrefix(claim, input);
    SegmentsHaveNoDots(claim);
    SegmentsHaveNoDots(input);
    JoinOfSplit(input);
    if path == [claim] {
      assert Split(input)[0] == claim ==> Split(claim) <= Split(input);
      assert Split(input) <= path ==> Split(input) == [claim];
    } else {
      assert input == path[0] ==> Split(input) <= Split(claim);
    }
  }

  lemma ApplyAgrees(d: Derivation, x: Claims, y: Claims, claim: string, path: Path)
    requires SecretPath(claim, path) && DocumentsAgreeExcept(x, y, path)
    requires !d.Random? && ((d.Compute? || d.Copy?) ==> !ClaimPathsOverlap(d.input, claim))
    ensures Apply(d, x) == Apply(d, y)
  {
    if d.Compute? || d.Copy? {
      InputIsApart(claim, path, d.input);
      assert Field(x, d.input) == Field(y, d.input);
      WalksAgree(Object(x), Object(y), path, Split(d.input));
    }
  }

  ghost predicate SharedAgree(s: set<Path>, t: set<Path>, path: Path) {
    forall q :: !(path <= q) ==> (q in s <==> q in t)
  }

  ghost predicate ProgressAgrees(p: Progress, q: Progress, path: Path)
    requires |path| > 0
  {
    p.replaced == q.replaced && SharedAgree(p.shared, q.shared, path) &&
    DocumentsAgreeExcept(p.out, q.out, path) && DocumentsAgreeExcept(p.working, q.working, path)
  }

  /** A copy that ends elsewhere than beneath the secret is lost in both runs or in neither. */
  lemma LossesAgree(p: Progress, q: Progress, path: Path, copy: Path)
    requires |path| > 0 && ProgressAgrees(p, q, path) && !(path <= copy)
    ensures Lost(p.shared, p.working, copy) <==> Lost(q.shared, q.working, copy)
  {
    forall i: nat | i < |copy| - 1
      ensures LostAt(p.shared, p.working, copy, i) <==> LostAt(q.shared, q.working, copy, i)
    {
      assert path <= copy[..i] ==> path <= copy;
      assert path <= copy[..i + 1] ==> path <= copy;
      ObjectsAgree(p.working, q.working, path, copy[..i + 1]);
    }
  }

  /** So what is merged agrees except at the secret. */
  lemma LandedAgree(p: Progress, q: Progress, derived: Claims, copied: Option<Path>, path: Path)
    requires |path| > 0 && ProgressAgrees(p, q, path) && (copied.Some? ==> |copied.value| > 0)
    ensures DocumentsAgreeExcept(Landed(p.shared, p.working, derived, copied), Landed(q.shared, q.working, derived, copied), path)
  {
    AgreesWithSelf(derived, path);
    if copied.Some? {
      AgreesWithSelf(Clear(derived, copied.value), path);
      if path <= copied.value {
        ClearingAgrees(derived, copied.value, path);
        AgreesBack(derived, Clear(derived, copied.value), path);
      } else {
        LossesAgree(p, q, path, copied.value);
      }
    }
  }

  lemma {:induction false} AgreesBack(x: Claims, y: Claims, path: Path)
    requires |path| > 0 && DocumentsAgreeExcept(x, y, path)
    ensures DocumentsAgreeExcept(y, x, path)
    decreases |path|
  {
    var k := path[0];
    if |path| > 1 && Field(x, k) != Field(y, k) {
      AgreesBack(x[k].fields, y[k].fields, path[1..]);
    }
  }

  lemma SharingAgrees(s: set<Path>, t: set<Path>, x: Claims, x': Claims, z: Claims, z': Claims, c: Claims, c': Claims, path: Path)
    requires |path| > 0 && SharedAgree(s, t, path) && DocumentsAgreeExcept(x, x', path)
    requires DocumentsAgreeExcept(z, z', path) && DocumentsAgreeExcept(c, c', path)
    ensures SharedAgree(Sharing(s, x, z, c), Sharing(t, x', z', c'), path)
  {
    MergesAgree(x, x', c, c', path);
    MergesAgree(z, z', c, c', path);
    forall q | !(path <= q) ensures q in Sharing(s, x, z, c) <==> q in Sharing(t, x', z', c') {
      SharingAt(s, x, z, c, q);
      SharingAt(t, x', z', c', q);
      ObjectsAgree(x, x', path, q);
      ObjectsAgree(z, z', path, q);
      ObjectsAgree(Merge(x, c), Merge(x', c'), path, q);
      ObjectsAgree(Merge(z, c), Merge(z', c'), path, q);
    }
  }

  lemma NothingUnpinned(s: set<Path>, t: set<Path>, path: Path)
    requires SharedAgree(s, t, path)
    ensures SharedAgree(Unpinned(s, map[]), Unpinned(t, map[]), path)
  {
  }

  lemma ReplacingAgrees(x: Claims, y: Claims, c: Claims, d: Claims, copied: Option<Path>, path: Path)
    requires |path| > 0 && (copied.Some? ==> |copied.value| > 0)
    requires DocumentsAgreeExcept(x, y, path) && DocumentsAgreeExcept(c, d, path)
    ensures DocumentsAgreeExcept(Cleared(x, copied), Cleared(y, copied), path)
    ensures DocumentsAgreeExcept(MergeReplacing(x, c, copied), MergeReplacing(y, d, copied), path)
  {
    if copied.Some? {
      ClearsAgree(x, y, copied.value, path);
    }
    MergesAgree(Cleared(x, copied), Cleared(y, copied), c, d, path);
  }

  lemma AdvanceAgrees(p: Progress, q: Progress, d: Derivation, derived: Claims, path: Path)
    requires |path| > 0 && ProgressAgrees(p, q, path)
    ensures ProgressAgrees(Advance(p, d, derived, map[]), Advance(q, d, derived, map[]), path)
  {
    var copied := CopyOutput(derived, d);
    var a, b := Landed(p.shared, p.working, derived, copied), Landed(q.shared, q.working, derived, copied);
    LandedAgree(p, q, derived, copied, path);
    ReplacingAgrees(p.out, q.out, a, b, copied, path);
    ReplacingAgrees(p.working, q.working, a, b, copied, path);
    NoPins(MergeReplacing(p.working, a, copied));
    NoPins(MergeReplacing(q.working, b, copied));
    var x, x', z, z' := Cleared(p.out, copied), Cleared(q.out, copied), Cleared(p.working, copied), Cleared(q.working, copied);
    SharingAgrees(p.shared, q.shared, x, x', z, z', a, b, path);
    NothingUnpinned(Sharing(p.shared, x, z, a), Sharing(q.shared, x', z', b), path);
  }

  lemma {:induction false} RunsAgree(list: seq<Derivation>, p: Progress, q: Progress, claim: string, path: Path)
    requires SecretPath(claim, path) && ProgressAgrees(p, q, path)
    requires PresentationDerivations(list) && ClaimUnread(list, claim)
    ensures var a, b := Run(list, p, map[]), Run(list, q, map[]);
            a.Ok? == b.Ok? && (a.Ok? ==> ProgressAgrees(a.value, b.value, path))
    decreases |list|
  {
    if list != [] {
      var init, d := list[..|list| - 1], list[|list| - 1];
      RunsAgree(init, p, q, claim, path);
      var a, b := Run(init, p, map[]), Run(init, q, map[]);
      if a.Ok? && !d.HashCommitment? {
        ApplyAgrees(d, a.value.working, b.value.working, claim, path);
        if Apply(d, a.value.working).Ok? {
          AdvanceAgrees(a.value, b.value, d, Apply(d, a.value.working).value, path);
        }
      }
    }
  }

  // ----- what the filter keeps -----

  /** No declared path is at, above or beneath `path`. */
  ghost predicate NothingDeclaredAround(declared: set<Path>, path: Path) {
    forall p :: p in declared ==> !(p <= path) && !(path <= p)
  }

  lemma NothingAroundBelow(declared: set<Path>, path: Path)
    requires |path| > 0 && NothingDeclaredAround(declared, path)
    ensures NothingDeclaredAround(Filter.Beneath(declared, path[0]), path[1..])
  {
    forall p | p in Filter.Beneath(declared, path[0])
      ensures !(p <= path[1..]) && !(path[1..] <= p)
    {
      Filter.InBeneath(declared, path[0], p);
      assert path == [path[0]] + path[1..];
    }
  }

  lemma {:induction false} FiltersAgree(x: Claims, y: Claims, node: AllowNode, declared: set<Path>, path: Path)
    requires Holds(node, declared)
    requires |path| > 0 && DocumentsAgreeExcept(x, y, path)
    requires NothingDeclaredAround(declared, path)
    ensures FilterMap(x, node) == FilterMap(y, node)
    decreases |path|
  {
    assert LeafAt(node, []) <==> [] in declared;
    var k := path[0];
    if k in node.children {
      Filter.HoldsBeneath(node, declared, k);
      NothingAroundBelow(declared, path);
      var p :| LeafAt(node.children[k], p);
      assert p in Filter.Beneath(declared, k);
      if Field(x, k) != Field(y, k) {
        FiltersAgree(x[k].fields, y[k].fields, node.children[k], Filter.Beneath(declared, k), path[1..]);
        assert LeafAt(node.children[k], []) <==> [] in Filter.Beneath(declared, k);
        assert FilterValue(x[k], node.children[k]) == FilterValue(y[k], node.children[k]);
      }
    }
    forall other
      ensures Field(FilterMap(x, node), other) == Field(FilterMap(y, node), other)
    {
      assert other != k ==> Field(x, other) == Field(y, other);
    }
    SameFields(FilterMap(x, node), FilterMap(y, node));
  }

  lemma NotDeclared(vctm: Vctm, claim: string, path: Path)
    requires SecretPath(claim, path) && !VctmDeclares(vctm, claim)
    ensures NothingDeclaredAround(DeclaredPaths(vctm), path)
  {
    forall p | p in DeclaredPaths(vctm) ensures !(p <= path) && !(path <= p) {
      var c: DeclaredPath :| c in vctm && |c| > 0 && c[0].Some? && KeysOf(c) == p;
      var i :| 0 <= i < |vctm| && vctm[i] == c;
      assert !PathsOverlap(c, path);
      var j :| 0 <= j < |c| && j < |path| && c[j].Some? && c[j].value != path[j];
      assert p[j] == c[j].value;
    }
  }

  // ----- what the filter shows -----

  /** Two documents that differ only at `path` are told apart once filtered. */
  ghost predicate Shows(tree: AllowNode, path: Path)
    requires |path| > 0
  {
    exists x, y :: DocumentsAgreeExcept(x, y, path) && FilterMap(x, tree) != FilterMap(y, tree)
  }

  /** A path with at least one segment, and neither null nor the wildcard among them. */
  predicate IsConcrete(declared: DeclaredPath) {
    |declared| > 0 && forall i :: 0 <= i < |declared| ==> declared[i].Some? && declared[i].value != WILDCARD
  }

  /** A text at a declared path, or in an object there, is kept. */
  lemma {:induction false} TextIsKept(node: AllowNode, declared: set<Path>, p: Path, r: Path, t: string)
    requires Holds(node, declared) && p in declared && p <= r && |r| > 0 && WILDCARD !in p
    ensures Walk(Object(FilterMap(Singleton(r, Text(t)), node)), r) == Some(Text(t))
    decreases |r|
  {
    assert LeafAt(node, p) && (LeafAt(node, []) <==> [] in declared);
    if !node.leaf {
      var k, child := r[0], node.children[p[0]];
      assert p[0] == k && p == [k] + p[1..];
      Filter.HoldsBeneath(node, declared, k);
      Filter.InBeneath(declared, k, p[1..]);
      assert LeafAt(child, p[1..]);
      if |r| > 1 {
        assert p[1..] <= r[1..] && forall x :: x in p[1..] ==> x in p;
        TextIsKept(child, Filter.Beneath(declared, k), p[1..], r[1..], t);
      } else {
        assert p[1..] == [];
      }
    }
  }

  lemma {:induction false} SingletonsAgreeAbove(r: Path, path: Path, v: Value, w: Value)
    requires |path| > 0 && path <= r
    ensures DocumentsAgreeExcept(Singleton(r, v), Singleton(r, w), path)
    decreases |path|
  {
    if |path| > 1 {
      assert path[1..] <= r[1..];
      SingletonsAgreeAbove(r[1..], path[1..], v, w);
    }
  }

  /** What is declared around a claim shows it. */
  lemma DeclaredShows(vctm: Vctm, tree: AllowNode, path: Path, i: nat)
    requires Holds(tree, DeclaredPaths(vctm)) && |path| > 0 && i < |vctm| && IsConcrete(vctm[i])
    requires Comparable(KeysOf(vctm[i]), path)
    ensures Shows(tree, path)
  {
    var p := KeysOf(vctm[i]);
    assert p in DeclaredPaths(vctm) && WILDCARD !in p;
    var r := if path <= p then p else path;
    var x, y := Singleton(r, Text("a")), Singleton(r, Text("b"));
    SingletonsAgreeAbove(r, path, Text("a"), Text("b"));
    TextIsKept(tree, DeclaredPaths(vctm), p, r, "a");
    TextIsKept(tree, DeclaredPaths(vctm), p, r, "b");
    assert "a"[0] != "b"[0];
  }

  lemma ConcreteStandsForItself(declared: DeclaredPath, p: Path)
    requires IsConcrete(declared)
    ensures StandsFor(declared, p) <==> p == KeysOf(declared)
  {
  }

  /** The metadata declares a claim, as the check sees it, exactly when the filter shows it. */
  lemma DeclaredExactly(vctm: Vctm, tree: AllowNode, claim: string)
    requires Holds(tree, DeclaredPaths(vctm)) && forall c :: c in vctm ==> IsConcrete(c)
    ensures VctmDeclares(vctm, claim) <==> Shows(tree, Split(claim)) || Shows(tree, [claim])
  {
    if VctmDeclares(vctm, claim) {
      DeclaresExactly(vctm, claim);
      var i, p :| 0 <= i < |vctm| && StandsFor(vctm[i], p) && (Comparable(p, Split(claim)) || Comparable(p, [claim]));
      assert vctm[i] in vctm;
      ConcreteStandsForItself(vctm[i], p);
      DeclaredShows(vctm, tree, if Comparable(p, Split(claim)) then Split(claim) else [claim], i);
    } else {
      NeverShown(vctm, tree, claim, Split(claim));
      NeverShown(vctm, tree, claim, [claim]);
    }
  }

  lemma NeverShown(vctm: Vctm, tree: AllowNode, claim: string, path: Path)
    requires Holds(tree, DeclaredPaths(vctm)) && SecretPath(claim, path) && !VctmDeclares(vctm, claim)
    ensures !Shows(tree, path)
  {
    NotDeclared(vctm, claim, path);
    forall x, y | DocumentsAgreeExcept(x, y, path) ensures FilterMap(x, tree) == FilterMap(y, tree) {
      FiltersAgree(x, y, tree, DeclaredPaths(vctm), path);
    }
  }

  // ----- the whole pipeline -----

  /** The document issued from a presentation: derivations, merge, defaults, filter. */
  function Issue(list: seq<Derivation>, claims: Claims, defaults: Claims, paths: seq<string>, tree: AllowNode)
    : Option<Claims>
    requires forall p :: p in paths ==> p in defaults
  {
    match Run(list, Start(claims, map[]), map[])
    case Err => None
    case Ok(p) =>
      match Mapping.Fill(MergeDerived(claims, p.out, p.replaced), defaults, paths)
      case Err => None
      case Ok(doc) => Some(FilterMap(doc, tree))
  }

  /** As long as no object lands on a scalar, what is issued is made from the working claims of
      the run: the defaults they lack filled in, and then filtered. */
  lemma WorkingClaimsAreIssued(list: seq<Derivation>, claims: Claims, defaults: Claims, paths: seq<string>, tree: AllowNode)
    requires (forall p :: p in paths ==> p in defaults) && EveryStepAbsorbed(list, Start(claims, map[]))
    ensures var r := Run(list, Start(claims, map[]), map[]);
            Issue(list, claims, defaults, paths, tree) ==
            if r.Err? then None
            else match Mapping.Fill(r.value.working, defaults, paths) case Err => None case Ok(doc) => Some(FilterMap(doc, tree))
  {
    BatchEqualsIncremental(list, claims);
  }

  /** If the check accepts a claim then no value of that claim shows in the
      issued document, nor in whether one is issued. */
  lemma SecretStaysOut(vctm: Vctm, list: seq<Derivation>, claim: string, path: Path,
                       x: Claims, y: Claims, defaults: Claims, paths: seq<string>, tree: AllowNode)
    requires CheckClaimSecret(vctm, list, claim) && PresentationDerivations(list)
    requires Holds(tree, DeclaredPaths(vctm))
    requires forall p :: p in paths ==> p in defaults && !(path < Split(p))
    requires SecretPath(claim, path) && DocumentsAgreeExcept(x, y, path)
    ensures Issue(list, x, defaults, paths, tree) == Issue(list, y, defaults, paths, tree)
  {
    NoPins(x);
    NoPins(y);
    AgreesWithSelf(map[], path);
    RunsAgree(list, Start(x, map[]), Start(y, map[]), claim, path);
    var a, b := Run(list, Start(x, map[]), map[]), Run(list, Start(y, map[]), map[]);
    if a.Ok? {
      var p, q := a.value, b.value;
      ClearAllAgrees(x, y, p.replaced, path);
      MergesAgree(ClearAll(x, p.replaced), ClearAll(y, p.replaced), p.out, q.out, path);
      var dx, dy := MergeDerived(x, p.out, p.replaced), MergeDerived(y, q.out, q.replaced);
      AllFillsAgree(dx, dy, defaults, paths, path);
      NotDeclared(vctm, claim, path);
      if Mapping.Fill(dx, defaults, paths).Ok? {
        FiltersAgree(Mapping.Fill(dx, defaults, paths).value, Mapping.Fill(dy, defaults, paths).value,
                     tree, DeclaredPaths(vctm), path);
      }
    }
  }

  lemma NothingDerived(x: Claims, defaults: Claims, paths: seq<string>, tree: AllowNode)
    requires forall p :: p in paths ==> p in defaults
    ensures Issue([], x, defaults, paths, tree).Some? <==> Mapping.Fill(x, defaults, paths).Ok?
  {
    NoPins(x);
    assert Merge(x, map[]) == x;
  }

  // ----- the condition on defaults is exact -----

  lemma {:induction false} EmptyObjectBlocksNothing(path: Path, q: Path)
    requires |path| > 0 && |q| > 0
    ensures Mapping.ClearWay(Singleton(path, Object(map[])), q)
    decreases |path|
  {
    if |q| > 1 && q[0] == path[0] {
      if |path| > 1 {
        EmptyObjectBlocksNothing(path[1..], q[1..]);
      } else {
        assert Mapping.ClearWay(map[], q[1..]);
      }
    }
  }

  lemma {:induction false} NullBlocksBeneath(path: Path, q: Path)
    requires |path| > 0 && path < q
    ensures !Mapping.ClearWay(Singleton(path, Null), q) && Walk(Object(Singleton(path, Null)), q) == None
    decreases |path|
  {
    if |path| > 1 {
      assert path[1..] < q[1..];
      NullBlocksBeneath(path[1..], q[1..]);
    } else {
      assert Walk(Null, q[1..]) == None;
    }
  }

  /** Defaults that the configuration accepts, listed once each. */
  ghost predicate Configured(defaults: Claims, paths: seq<string>) {
    !Mapping.Overlapping(defaults) && "" !in paths && (forall p :: p in paths ==> p in defaults) &&
    forall i, j :: 0 <= i < j < |paths| ==> paths[i] != paths[j]
  }

  /** A default beneath the secret shows it: whether the defaults can be filled in depends
      on the secret's value. */
  lemma DefaultBeneathShowsSecret(path: Path, p: string, defaults: Claims, paths: seq<string>, tree: AllowNode)
    requires |path| > 0 && Configured(defaults, paths) && p in paths && path < Split(p)
    ensures DocumentsAgreeExcept(Singleton(path, Object(map[])), Singleton(path, Null), path)
    ensures Issue([], Singleton(path, Object(map[])), defaults, paths, tree).Some?
    ensures Issue([], Singleton(path, Null), defaults, paths, tree).None?
  {
    var x, y := Singleton(path, Object(map[])), Singleton(path, Null);
    SingletonsAgreeAbove(path, path, Object(map[]), Null);
    NothingDerived(x, defaults, paths, tree);
    NothingDerived(y, defaults, paths, tree);
    Mapping.FillExactly(x, defaults, paths);
    Mapping.FillExactly(y, defaults, paths);
    forall q | q in paths ensures !Mapping.Blocked(x, q) {
      EmptyObjectBlocksNothing(path, Split(q));
    }
    NullBlocksBeneath(path, Split(p));
    assert Mapping.Blocked(y, p);
  }

  /** Without derivations, what stands at `path` never shows in the document. */
  ghost predicate NeverShows(path: Path, defaults: Claims, paths: seq<string>, tree: AllowNode)
    requires |path| > 0 && forall p :: p in paths ==> p in defaults
  {
    forall x, y | DocumentsAgreeExcept(x, y, path) ::
      Issue([], x, defaults, paths, tree) == Issue([], y, defaults, paths, tree)
  }

  lemma NoneBeneathNeverShows(vctm: Vctm, claim: string, path: Path, defaults: Claims, paths: seq<string>, tree: AllowNode)
    requires CheckClaimSecret(vctm, [], claim) && SecretPath(claim, path) && Holds(tree, DeclaredPaths(vctm))
    requires forall p :: p in paths ==> p in defaults && !(path < Split(p))
    ensures NeverShows(path, defaults, paths, tree)
  {
    forall x, y | DocumentsAgreeExcept(x, y, path)
      ensures Issue([], x, defaults, paths, tree) == Issue([], y, defaults, paths, tree)
    {
      SecretStaysOut(vctm, [], claim, path, x, y, defaults, paths, tree);
    }
  }

  lemma OneBeneathShows(path: Path, p: string, defaults: Claims, paths: seq<string>, tree: AllowNode)
    requires |path| > 0 && Configured(defaults, paths) && p in paths && path < Split(p)
    ensures !NeverShows(path, defaults, paths, tree)
  {
    DefaultBeneathShowsSecret(path, p, defaults, paths, tree);
    var x, y := Singleton(path, Object(map[])), Singleton(path, Null);
    assert DocumentsAgreeExcept(x, y, path) && Issue([], x, defaults, paths, tree) != Issue([], y, defaults, paths, tree);
  }

  /** An accepted claim stays out of the document for every pair of holders exactly when no
      default lies beneath it. */
  lemma StaysOutExactly(vctm: Vctm, claim: string, path: Path, defaults: Claims, paths: seq<string>, tree: AllowNode)
    requires CheckClaimSecret(vctm, [], claim) && SecretPath(claim, path)
    requires Holds(tree, DeclaredPaths(vctm)) && Configured(defaults, paths)
    ensures NeverShows(path, defaults, paths, tree) <==> forall p :: p in paths ==> !(path < Split(p))
  {
    if forall p :: p in paths ==> !(path < Split(p)) {
      NoneBeneathNeverShows(vctm, claim, path, defaults, paths, tree);
    } else {
      var p :| p in paths && path < Split(p);
      OneBeneathShows(path, p, defaults, paths, tree);
    }
  }
}
