/** Which claims vary with the caller: a constraint differs between two callers exactly when
    one of its strings has a hole, and the report names it exactly then, or when it holds
    the sentinel as it is. */
module ClaimsVariation {
  import opened ClaimsText
  import opened ClaimsLexer
  import opened ClaimsJson
  import opened ClaimsDocuments
  import opened ClaimsIsolation
  import opened Wrappers
  import T = Templates
  import A = TemplateAnalysis
  import Sub = TemplateSubstitution

  // ----- a longer value makes a longer string -----

  const SHORT := "z"
  const LONG := "zz"

  lemma ProbesAreSafe()
    ensures Letters(SHORT) && Letters(LONG) && Safe(Always(SHORT)) && Safe(Always(LONG))
  {
    AlwaysSafe(SHORT);
    AlwaysSafe(LONG);
  }

  /** What stands after a hole is string content of its own. */
  lemma AfterHole(c: Content, i: nat)
    requires i < |c| && c[i].Hole?
    ensures Modes(Plain, c[..i]) == Plain && Modes(Plain, c[i + 1..]) == Plain
  {
    HolePrefix(c, i);
    assert c == c[..i] + c[i..] && c[i..][1..] == c[i + 1..];
    ModesConcat(Plain, c[..i], c[i..]);
  }

  /** A filled string decodes piece by piece. */
  lemma DecodeAround(c: Content, i: nat, value: string)
    requires i < |c| && c[i].Hole? && Letters(value) && value != "" && Safe(Always(value))
    ensures Decode(Put(c, Always(value))) ==
            Decode(Put(c[..i], Always(value))) + (Codes(value) + Decode(Put(c[i + 1..], Always(value))))
  {
    var pre, post := Put(c[..i], Always(value)), Put(c[i + 1..], Always(value));
    PutAround(c, i, value);
    HolePrefix(c, i);
    PutModes(Plain, c[..i], Always(value));
    UnitsConcat(pre, Lits(value) + post);
    LettersAreContent(value);
    UnitsConcat(Lits(value), post);
    EscapeUnits(value);
    CharactersArePlain(value);
    PairedConcat(Units(pre), Codes(value) + Units(post));
    PairedPlain(Codes(value), Units(post));
  }

  lemma LengthAround(c: Content, i: nat, value: string)
    requires i < |c| && c[i].Hole? && Letters(value) && value != "" && Safe(Always(value))
    ensures |Decode(Put(c, Always(value)))| ==
            |Decode(Put(c[..i], Always(value)))| + |value| + |Decode(Put(c[i + 1..], Always(value)))|
  {
    DecodeAround(c, i, value);
  }

  lemma SomeHole(c: Text) returns (i: nat)
    requires !HoleFree(c)
    ensures i < |c| && c[i].Hole?
  {
    var x :| x in c && x.Hole?;
    i :| 0 <= i < |c| && c[i] == x;
  }

  lemma SameWithoutHoles(c: Text)
    requires HoleFree(c)
    ensures Put(c, Always(SHORT)) == c == Put(c, Always(LONG))
  {
    PutHoleFree(c, Always(SHORT));
    PutHoleFree(c, Always(LONG));
  }

  lemma {:induction false} LongerFilling(c: Content)
    requires Safe(Always(SHORT)) && Safe(Always(LONG))
    ensures |Decode(Put(c, Always(SHORT)))| <= |Decode(Put(c, Always(LONG)))|
    ensures !HoleFree(c) ==> |Decode(Put(c, Always(SHORT)))| < |Decode(Put(c, Always(LONG)))|
    decreases |c|
  {
    if HoleFree(c) {
      SameWithoutHoles(c);
    } else {
      var i := SomeHole(c);
      AfterHole(c, i);
      LengthAround(c, i, SHORT);
      LengthAround(c, i, LONG);
      LongerFilling(c[..i]);
      LongerFilling(c[i + 1..]);
    }
  }

  /** A string differs between two callers exactly when it has a hole. */
  lemma StringVariesExactly(c: Content)
    requires Safe(Always(SHORT)) && Safe(Always(LONG))
    ensures Decode(Put(c, Always(SHORT))) != Decode(Put(c, Always(LONG))) <==> !HoleFree(c)
  {
    LongerFilling(c);
    if HoleFree(c) {
      SameWithoutHoles(c);
    }
  }

  // ----- documents -----

  /** A string that is not overwritten by a later member of the same name has a hole. */
  predicate Holey(j: Json)
    decreases j
  {
    match j
    case Obj(members) => HoleyMembers(members)
    case Arr(items) => HoleyItems(items)
    case Str(content) => !HoleFree(content)
    case Atom(_) => false
  }

  predicate HoleyMembers(ms: seq<Member>)
    decreases ms
  {
    ms != [] &&
    (HoleyMembers(ms[1..]) || (Decode(ms[0].key) !in BuildMembers(ms[1..]) && Holey(ms[0].value)))
  }

  predicate HoleyItems(js: seq<Json>)
    decreases js
  {
    js != [] && (Holey(js[0]) || HoleyItems(js[1..]))
  }

  /** Every member name that is not overwritten is the same for all callers. */
  predicate FixedKeys(j: Json)
    decreases j
  {
    match j
    case Obj(members) => FixedMembers(members)
    case Arr(items) => FixedItems(items)
    case _ => true
  }

  predicate FixedMembers(ms: seq<Member>)
    decreases ms
  {
    ms == [] ||
    (HoleFree(ms[0].key) && FixedMembers(ms[1..]) && (Decode(ms[0].key) !in BuildMembers(ms[1..]) ==> FixedKeys(ms[0].value)))
  }

  predicate FixedItems(js: seq<Json>)
    decreases js
  {
    js == [] || (FixedKeys(js[0]) && FixedItems(js[1..]))
  }

  lemma {:induction false} SameNames(ms: seq<Member>, f: Filling)
    requires Safe(f) && FixedMembers(ms)
    ensures BuildMembers(PutMembers(ms, f)).Keys == BuildMembers(ms).Keys
  {
    if ms != [] {
      MembersStep(ms, f);
      SameNames(ms[1..], f);
      PutHoleFree(ms[0].key, f);
    }
  }

  lemma FixedStep(ms: seq<Member>, f: Filling)
    requires Safe(f) && FixedMembers(ms) && ms != []
    ensures BuildMembers(PutMembers(ms, f)) ==
            map[Decode(ms[0].key) := Build(PutJson(ms[0].value, f))] + BuildMembers(PutMembers(ms[1..], f))
  {
    MembersStep(ms, f);
    PutHoleFree(ms[0].key, f);
  }

  lemma SameOverlay(k: seq<int>, v: Value, w: Value, rest: map<seq<int>, Value>)
    requires k !in rest ==> v == w
    ensures map[k := v] + rest == map[k := w] + rest
  {
  }

  lemma OtherOverlay(k: seq<int>, v: Value, w: Value, a: map<seq<int>, Value>, b: map<seq<int>, Value>)
    requires a.Keys == b.Keys && (a != b || (k !in a && v != w))
    ensures map[k := v] + a != map[k := w] + b
  {
    if a != b {
      var key :| key in a && a[key] != b[key];
      assert (map[k := v] + a)[key] == a[key] && (map[k := w] + b)[key] == b[key];
    } else {
      assert (map[k := v] + a)[k] == v && (map[k := w] + b)[k] == w;
    }
  }

  /** A document checked for the marker has fixed names. */
  lemma {:induction false} UnmarkedKeysAreFixed(j: Json, marker: string)
    requires Marker(marker) && Safe(Always(marker)) && !MarkedKey(Build(PutJson(j, Always(marker))), Codes(marker))
    ensures FixedKeys(j)
    decreases j, 0
  {
    match j
    case Obj(members) => UnmarkedMembersAreFixed(members, marker);
    case Arr(items) => UnmarkedItemsAreFixed(items, marker);
    case _ =>
  }

  lemma {:induction false} UnmarkedMembersAreFixed(ms: seq<Member>, marker: string)
    requires Marker(marker) && Safe(Always(marker))
    requires !MarkedKey(Object(BuildMembers(PutMembers(ms, Always(marker)))), Codes(marker))
    ensures FixedMembers(ms)
    decreases ms, 1
  {
    if ms != [] {
      var always, mark := Always(marker), Codes(marker);
      var k := Decode(PutContent(ms[0].key, always));
      var rest := BuildMembers(PutMembers(ms[1..], always));
      MembersStep(ms, always);
      RestUnmarked(k, Build(PutJson(ms[0].value, always)), rest, mark);
      UnmarkedMembersAreFixed(ms[1..], marker);
      MarkedExactly(ms[0].key, marker);
      PutHoleFree(ms[0].key, always);
      SameNames(ms[1..], always);
      if k !in rest {
        UnmarkedKeysAreFixed(ms[0].value, marker);
      }
    }
  }

  lemma {:induction false} UnmarkedItemsAreFixed(js: seq<Json>, marker: string)
    requires Marker(marker) && Safe(Always(marker))
    requires !MarkedKey(Array(BuildItems(PutItems(js, Always(marker)))), Codes(marker))
    ensures FixedItems(js)
    decreases js, 1
  {
    if js != [] {
      var always, mark := Always(marker), Codes(marker);
      ItemsStep(js, always);
      var all, rest := BuildItems(PutItems(js, always)), BuildItems(PutItems(js[1..], always));
      assert all[0] == Build(PutJson(js[0], always)) && all[1..] == rest;
      forall i | 0 <= i < |rest| ensures !MarkedKey(rest[i], mark) {
        assert rest[i] == all[i + 1];
      }
      UnmarkedKeysAreFixed(js[0], marker);
      UnmarkedItemsAreFixed(js[1..], marker);
    }
  }

  /** Without a hole in sight, all callers get the same. */
  lemma {:induction false} HolelessIsFixed(j: Json, f: Filling)
    requires Safe(f) && FixedKeys(j) && !Holey(j)
    ensures Build(PutJson(j, f)) == Build(j)
    decreases j, 0
  {
    match j
    case Obj(members) => HolelessMembers(members, f);
    case Arr(items) => HolelessItems(items, f);
    case Str(content) => PutHoleFree(content, f);
    case Atom(_) =>
  }

  lemma {:induction false} HolelessMembers(ms: seq<Member>, f: Filling)
    requires Safe(f) && FixedMembers(ms) && !HoleyMembers(ms)
    ensures BuildMembers(PutMembers(ms, f)) == BuildMembers(ms)
    decreases ms, 1
  {
    if ms != [] {
      FixedStep(ms, f);
      HolelessMembers(ms[1..], f);
      if Decode(ms[0].key) !in BuildMembers(ms[1..]) {
        HolelessIsFixed(ms[0].value, f);
      }
      SameOverlay(Decode(ms[0].key), Build(PutJson(ms[0].value, f)), Build(ms[0].value), BuildMembers(ms[1..]));
    }
  }

  lemma {:induction false} HolelessItems(js: seq<Json>, f: Filling)
    requires Safe(f) && FixedItems(js) && !HoleyItems(js)
    ensures BuildItems(PutItems(js, f)) == BuildItems(js)
    decreases js, 1
  {
    if js != [] {
      ItemsStep(js, f);
      HolelessIsFixed(js[0], f);
      HolelessItems(js[1..], f);
    }
  }

  /** With one, two callers get different documents. */
  lemma {:induction false} HoleyVaries(j: Json)
    requires Safe(Always(SHORT)) && Safe(Always(LONG)) && FixedKeys(j) && Holey(j)
    ensures Build(PutJson(j, Always(SHORT))) != Build(PutJson(j, Always(LONG)))
    decreases j, 0
  {
    match j
    case Obj(members) => HoleyMembersVary(members);
    case Arr(items) => HoleyItemsVary(items);
    case Str(content) => StringVariesExactly(content);
    case Atom(_) =>
  }

  lemma {:induction false} HoleyMembersVary(ms: seq<Member>)
    requires Safe(Always(SHORT)) && Safe(Always(LONG)) && FixedMembers(ms) && HoleyMembers(ms)
    ensures BuildMembers(PutMembers(ms, Always(SHORT))) != BuildMembers(PutMembers(ms, Always(LONG)))
    decreases ms, 1
  {
    var f, g := Always(SHORT), Always(LONG);
    FixedStep(ms, f);
    FixedStep(ms, g);
    SameNames(ms[1..], f);
    SameNames(ms[1..], g);
    if HoleyMembers(ms[1..]) {
      HoleyMembersVary(ms[1..]);
    } else {
      HoleyVaries(ms[0].value);
    }
    OtherOverlay(Decode(ms[0].key), Build(PutJson(ms[0].value, f)), Build(PutJson(ms[0].value, g)),
                 BuildMembers(PutMembers(ms[1..], f)), BuildMembers(PutMembers(ms[1..], g)));
  }

  lemma {:induction false} HoleyItemsVary(js: seq<Json>)
    requires Safe(Always(SHORT)) && Safe(Always(LONG)) && FixedItems(js) && HoleyItems(js)
    ensures BuildItems(PutItems(js, Always(SHORT))) != BuildItems(PutItems(js, Always(LONG)))
    decreases js, 1
  {
    var f, g := Always(SHORT), Always(LONG);
    ItemsStep(js, f);
    ItemsStep(js, g);
    var a, b := BuildItems(PutItems(js, f)), BuildItems(PutItems(js, g));
    assert a[0] == Build(PutJson(js[0], f)) && b[0] == Build(PutJson(js[0], g));
    assert a[1..] == BuildItems(PutItems(js[1..], f)) && b[1..] == BuildItems(PutItems(js[1..], g));
    if Holey(js[0]) {
      HoleyVaries(js[0]);
    } else {
      HoleyItemsVary(js[1..]);
    }
  }

  // ----- what the marker shows -----

  lemma MarkedOneMore(k: seq<int>, v: Value, rest: map<seq<int>, Value>, mark: seq<int>)
    ensures Marked(Object(map[k := v] + rest), mark) <==> (k !in rest && Marked(v, mark)) || Marked(Object(rest), mark)
  {
    var all := map[k := v] + rest;
    assert k in all;
    forall key | key in rest ensures key in all && all[key] == rest[key] {
    }
  }

  lemma {:induction false} MarkedDocument(j: Json, marker: string)
    requires Marker(marker) && Safe(Always(marker)) && FixedKeys(j)
    ensures Marked(Build(PutJson(j, Always(marker))), Codes(marker)) <==> Holey(j) || Marked(Build(j), Codes(marker))
    decreases j, 0
  {
    match j
    case Obj(members) => MarkedMembers(members, marker);
    case Arr(items) => MarkedItems(items, marker);
    case Str(content) => MarkedExactly(content, marker);
    case Atom(_) =>
  }

  lemma {:induction false} MarkedMembers(ms: seq<Member>, marker: string)
    requires Marker(marker) && Safe(Always(marker)) && FixedMembers(ms)
    ensures Marked(Object(BuildMembers(PutMembers(ms, Always(marker)))), Codes(marker)) <==>
            HoleyMembers(ms) || Marked(Object(BuildMembers(ms)), Codes(marker))
    decreases ms, 1
  {
    if ms != [] {
      var always, mark := Always(marker), Codes(marker);
      var k := Decode(ms[0].key);
      MembersStep(ms, always);
      PutHoleFree(ms[0].key, always);
      SameNames(ms[1..], always);
      MarkedMembers(ms[1..], marker);
      MarkedOneMore(k, Build(PutJson(ms[0].value, always)), BuildMembers(PutMembers(ms[1..], always)), mark);
      MarkedOneMore(k, Build(ms[0].value), BuildMembers(ms[1..]), mark);
      if k !in BuildMembers(ms[1..]) {
        MarkedDocument(ms[0].value, marker);
      }
    }
  }

  lemma MarkedCons(v: Value, rest: seq<Value>, mark: seq<int>)
    ensures Marked(Array([v] + rest), mark) <==> Marked(v, mark) || Marked(Array(rest), mark)
  {
    var all := [v] + rest;
    assert all[0] == v;
    forall i | 0 <= i < |rest| ensures all[i + 1] == rest[i] {
    }
    if Marked(Array(all), mark) {
      var i :| 0 <= i < |all| && Marked(all[i], mark);
      assert i > 0 ==> rest[i - 1] == all[i];
    }
  }

  lemma {:induction false} MarkedItems(js: seq<Json>, marker: string)
    requires Marker(marker) && Safe(Always(marker)) && FixedItems(js)
    ensures Marked(Array(BuildItems(PutItems(js, Always(marker)))), Codes(marker)) <==>
            HoleyItems(js) || Marked(Array(BuildItems(js)), Codes(marker))
    decreases js, 1
  {
    if js != [] {
      var always, mark := Always(marker), Codes(marker);
      ItemsStep(js, always);
      MarkedCons(Build(PutJson(js[0], always)), BuildItems(PutItems(js[1..], always)), mark);
      MarkedCons(Build(js[0]), BuildItems(js[1..]), mark);
      MarkedDocument(js[0], marker);
      MarkedItems(js[1..], marker);
    }
  }

  // ----- the constraint on a claim -----

  /** The member of that name which counts. */
  function MemberNamed(ms: seq<Member>, k: seq<int>): Option<Json> {
    if ms == [] then None
    else
      var later := MemberNamed(ms[1..], k);
      if later.Some? then later else if Decode(ms[0].key) == k then Some(ms[0].value) else None
  }

  lemma {:induction false} MemberCounts(ms: seq<Member>, k: seq<int>, f: Filling)
    requires Safe(f) && FixedMembers(ms)
    ensures k in BuildMembers(PutMembers(ms, f)) <==> MemberNamed(ms, k).Some?
    ensures MemberNamed(ms, k).Some? ==>
              FixedKeys(MemberNamed(ms, k).value) &&
              BuildMembers(PutMembers(ms, f))[k] == Build(PutJson(MemberNamed(ms, k).value, f))
  {
    if ms != [] {
      MembersStep(ms, f);
      MemberCounts(ms[1..], k, f);
      SameNames(ms[1..], f);
      PutHoleFree(ms[0].key, f);
    }
  }

  /** The template's constraint on a claim, with the holes still in it. */
  function Constraint(j: Json, target: seq<int>, claim: seq<int>): Option<Json> {
    if !j.Obj? then None
    else
      var t := MemberNamed(j.members, target);
      if t.None? || !t.value.Obj? then None else MemberNamed(t.value.members, claim)
  }

  lemma ConstraintFilled(j: Json, target: seq<int>, claim: seq<int>, f: Filling)
    requires Safe(f) && FixedKeys(j)
    ensures var c := Constraint(j, target, claim);
            Requested(Build(PutJson(j, f)), target, claim) ==
            (if c.Some? then Some(Build(PutJson(c.value, f))) else None)
    ensures Constraint(j, target, claim).Some? ==> FixedKeys(Constraint(j, target, claim).value)
  {
    if j.Obj? {
      MemberCounts(j.members, target, f);
      var t := MemberNamed(j.members, target);
      if t.Some? && t.value.Obj? {
        MemberCounts(t.value.members, claim, f);
      }
    }
  }

  // ----- callers -----

  /** A template that the theorems are about, with a parameter in it. */
  ghost predicate Checked(w: T.World, nodes: seq<T.Node>, marker: string) {
    Marker(marker) && Readable(w, nodes) && IsStructural(w, nodes, marker) && A.ListAccess(nodes).keys != {}
  }

  function Form(w: T.World, nodes: seq<T.Node>): Json {
    var p := Parse(Lex(TextOf(w, nodes)));
    if p.Got? then p.value else Atom("")
  }

  lemma ReadFilled(s: Text, f: Filling)
    requires Safe(f) && Lex(s).At? && Read(Put(s, f)).Valid?
    ensures Parse(Lex(s)).Got? && Read(Put(s, f)) == Valid(Build(PutJson(Parse(Lex(s)).value, f)))
  {
    LexPut(s, f);
    ParsePut(Lex(s), f);
  }

  lemma FormLexes(s: Text, marker: string)
    requires Marker(marker) && !HoleInEscape(START, s) && Read(Put(s, Always(marker))).Valid?
    ensures Safe(Always(marker)) && Lex(s).At?
  {
    AlwaysSafe(marker);
    assert PutLexer(START, Always(marker)) == START;
    RenderingReflects(START, s, marker);
    FeedAllPut(START, s, Always(marker));
  }

  /** The marked request is the form filled with the marker, and its names are fixed. */
  lemma MarkedForm(w: T.World, nodes: seq<T.Node>, marker: string)
    requires Checked(w, nodes, marker)
    ensures Safe(Always(marker)) && FixedKeys(Form(w, nodes))
    ensures MarkedRequest(w, nodes, marker) == Valid(Build(PutJson(Form(w, nodes), Always(marker))))
  {
    MarkedRequestIs(w, nodes, marker);
    FormLexes(TextOf(w, nodes), marker);
    ReadFilled(TextOf(w, nodes), Always(marker));
    UnmarkedKeysAreFixed(Form(w, nodes), marker);
  }

  /** Every caller's request is the form filled with the caller's values. */
  lemma CallerForm(w: T.World, nodes: seq<T.Node>, marker: string, data: T.Params)
    requires Checked(w, nodes, marker) && T.Render(w, nodes, EscapeAll(data)).Ok?
    ensures Safe(Escaped(Values(data)))
    ensures Request(w, nodes, data) == Valid(Build(PutJson(Form(w, nodes), Escaped(Values(data)))))
  {
    RequestAgrees(w, nodes, marker, data);
    RequestIs(w, nodes, data);
    MarkedRequestIs(w, nodes, marker);
    FormLexes(TextOf(w, nodes), marker);
    EscapedIsSafe(Values(data));
    ReadFilled(TextOf(w, nodes), Escaped(Values(data)));
  }

  lemma {:induction false} FillsAlike(ps: seq<Sub.Piece>, a: T.Params, b: T.Params)
    requires a.Keys == b.Keys && Sub.FillPieces(ps, a).Ok?
    ensures Sub.FillPieces(ps, b).Ok?
  {
    if ps != [] {
      FillsAlike(ps[1..], a, b);
    }
  }

  /** Whether a template resolves depends on which parameters are given only. */
  lemma RendersAlike(w: T.World, nodes: seq<T.Node>, marker: string, value: string)
    requires Checked(w, nodes, marker) && Letters(value)
    ensures var data := MarkAll(A.ListAccess(nodes).keys, value);
            EscapeAll(data) == data && T.Render(w, nodes, data).Ok?
  {
    var keys := A.ListAccess(nodes).keys;
    LettersAreContent(value);
    Sub.AcceptedIsSubstitution(w, nodes, MarkAll(keys, marker));
    Sub.AcceptedIsSubstitution(w, nodes, MarkAll(keys, value));
    FillsAlike(Sub.ListSkeleton(w, nodes, Sub.Root).pieces, MarkAll(keys, marker), MarkAll(keys, value));
  }

  /** The request of a caller who gives the same value for every parameter. */
  lemma ProbeForm(w: T.World, nodes: seq<T.Node>, marker: string, value: string)
    requires Checked(w, nodes, marker) && Letters(value) && Safe(Always(value))
    ensures Request(w, nodes, MarkAll(A.ListAccess(nodes).keys, value)) ==
            Valid(Build(PutJson(Form(w, nodes), Always(value))))
  {
    var data := MarkAll(A.ListAccess(nodes).keys, value);
    RendersAlike(w, nodes, marker, value);
    RequestAgrees(w, nodes, marker, data);
    RenderedText(w, nodes, data);
    MarkedText(w, nodes, value);
    MarkedRequestIs(w, nodes, marker);
    FormLexes(TextOf(w, nodes), marker);
    ReadFilled(TextOf(w, nodes), Always(value));
  }

  /** Two callers get different constraints on a claim. */
  ghost predicate Varies(w: T.World, nodes: seq<T.Node>, target: seq<int>, claim: seq<int>) {
    exists a, b :: Differ(w, nodes, target, claim, a, b)
  }

  ghost predicate Differ(w: T.World, nodes: seq<T.Node>, target: seq<int>, claim: seq<int>, a: T.Params, b: T.Params) {
    Request(w, nodes, a).Valid? && Request(w, nodes, b).Valid? &&
    Requested(Request(w, nodes, a).v, target, claim) != Requested(Request(w, nodes, b).v, target, claim)
  }

  /** A constraint without a hole is the same for every caller. */
  lemma HolelessForCaller(w: T.World, nodes: seq<T.Node>, marker: string, target: seq<int>, claim: seq<int>, data: T.Params)
    requires Checked(w, nodes, marker) && Request(w, nodes, data).Valid?
    requires var c := Constraint(Form(w, nodes), target, claim); c.Some? ==> !Holey(c.value)
    ensures var c := Constraint(Form(w, nodes), target, claim);
            Requested(Request(w, nodes, data).v, target, claim) == (if c.Some? then Some(Build(c.value)) else None)
  {
    MarkedForm(w, nodes, marker);
    CallerForm(w, nodes, marker, data);
    HolelessConstraint(Form(w, nodes), target, claim, Escaped(Values(data)));
  }

  lemma HolelessConstraint(j: Json, target: seq<int>, claim: seq<int>, f: Filling)
    requires Safe(f) && FixedKeys(j)
    requires var c := Constraint(j, target, claim); c.Some? ==> !Holey(c.value)
    ensures var c := Constraint(j, target, claim);
            Requested(Build(PutJson(j, f)), target, claim) == (if c.Some? then Some(Build(c.value)) else None)
  {
    ConstraintFilled(j, target, claim, f);
    var c := Constraint(j, target, claim);
    if c.Some? {
      HolelessIsFixed(c.value, f);
    }
  }

  lemma HolelessNeverDiffers(w: T.World, nodes: seq<T.Node>, marker: string, target: seq<int>, claim: seq<int>,
                             a: T.Params, b: T.Params)
    requires Checked(w, nodes, marker) && Differ(w, nodes, target, claim, a, b)
    ensures var c := Constraint(Form(w, nodes), target, claim); c.Some? && Holey(c.value)
  {
    var c := Constraint(Form(w, nodes), target, claim);
    if !(c.Some? && Holey(c.value)) {
      HolelessForCaller(w, nodes, marker, target, claim, a);
      HolelessForCaller(w, nodes, marker, target, claim, b);
    }
  }

  lemma HoleyDiffers(w: T.World, nodes: seq<T.Node>, marker: string, target: seq<int>, claim: seq<int>)
    requires Checked(w, nodes, marker)
    requires var c := Constraint(Form(w, nodes), target, claim); c.Some? && Holey(c.value)
    ensures var keys := A.ListAccess(nodes).keys;
            Differ(w, nodes, target, claim, MarkAll(keys, SHORT), MarkAll(keys, LONG))
  {
    var j := Form(w, nodes);
    ProbesAreSafe();
    MarkedForm(w, nodes, marker);
    ProbeForm(w, nodes, marker, SHORT);
    ProbeForm(w, nodes, marker, LONG);
    ConstraintFilled(j, target, claim, Always(SHORT));
    ConstraintFilled(j, target, claim, Always(LONG));
    HoleyVaries(Constraint(j, target, claim).value);
  }

  /** The constraint on a claim varies exactly when a string of it has a hole. */
  lemma ClaimVariesExactly(w: T.World, nodes: seq<T.Node>, marker: string, target: seq<int>, claim: seq<int>)
    requires Checked(w, nodes, marker)
    ensures var c := Constraint(Form(w, nodes), target, claim);
            Varies(w, nodes, target, claim) <==> c.Some? && Holey(c.value)
  {
    var c := Constraint(Form(w, nodes), target, claim);
    if c.Some? && Holey(c.value) {
      HoleyDiffers(w, nodes, marker, target, claim);
    }
    if Varies(w, nodes, target, claim) {
      var a, b :| Differ(w, nodes, target, claim, a, b);
      HolelessNeverDiffers(w, nodes, marker, target, claim, a, b);
    }
  }

  /** A claim is reported exactly when it varies, or holds the sentinel as it is. */
  lemma ReportedExactly(w: T.World, nodes: seq<T.Node>, marker: string, target: seq<int>, claim: seq<int>)
    requires Checked(w, nodes, marker)
    ensures var c := Constraint(Form(w, nodes), target, claim);
            IsFilled(MarkedRequest(w, nodes, marker).v, target, claim, false, Codes(marker)) <==>
            Varies(w, nodes, target, claim) || (c.Some? && Marked(Build(c.value), Codes(marker)))
  {
    MarkedForm(w, nodes, marker);
    ConstraintFilled(Form(w, nodes), target, claim, Always(marker));
    ClaimVariesExactly(w, nodes, marker, target, claim);
    var c := Constraint(Form(w, nodes), target, claim);
    if c.Some? {
      MarkedDocument(c.value, marker);
    }
  }
}
