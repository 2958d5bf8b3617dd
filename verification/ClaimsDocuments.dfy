/** Decoded claims requests. Where no key of the marked document shows the marker, every
    caller's document has the same members, and differs only in the marked strings. */
module ClaimsDocuments {
  import opened ClaimsText
  import opened ClaimsLexer
  import opened ClaimsJson

  /** A decoded document. Strings are sequences of code points. */
  datatype Value =
    | Object(fields: map<seq<int>, Value>)
    | Array(elements: seq<Value>)
    | String(s: seq<int>)
    | Literal(w: string)

  /** A repeated member name keeps its last value. */
  function Build(j: Json): Value
    decreases j
  {
    match j
    case Obj(members) => Object(BuildMembers(members))
    case Arr(items) => Array(BuildItems(items))
    case Str(content) => String(Decode(content))
    case Atom(w) => Literal(w)
  }

  function BuildMembers(ms: seq<Member>): map<seq<int>, Value>
    decreases ms
  {
    if ms == [] then map[] else map[Decode(ms[0].key) := Build(ms[0].value)] + BuildMembers(ms[1..])
  }

  function BuildItems(js: seq<Json>): seq<Value>
    decreases js
  {
    if js == [] then [] else [Build(js[0])] + BuildItems(js[1..])
  }

  // ----- the two searches for the marker -----

  /** A member name anywhere in the document shows the marker. */
  predicate MarkedKey(v: Value, mark: seq<int>)
    decreases v
  {
    match v
    case Object(fields) => exists k | k in fields :: Contains(k, mark) || MarkedKey(fields[k], mark)
    case Array(elements) => exists i | 0 <= i < |elements| :: MarkedKey(elements[i], mark)
    case _ => false
  }

  /** A string value anywhere in the document shows the marker. */
  predicate Marked(v: Value, mark: seq<int>)
    decreases v
  {
    match v
    case Object(fields) => exists k | k in fields :: Marked(fields[k], mark)
    case Array(elements) => exists i | 0 <= i < |elements| :: Marked(elements[i], mark)
    case String(s) => Contains(s, mark)
    case Literal(_) => false
  }

  // ----- documents that differ only where the first is marked -----

  predicate Agree(a: Value, b: Value, mark: seq<int>)
    decreases a
  {
    match a
    case Object(fields) => b.Object? && AgreeFields(a, fields, b.fields, mark)
    case Array(elements) =>
      b.Array? && |elements| == |b.elements| &&
      forall i | 0 <= i < |elements| :: Agree(elements[i], b.elements[i], mark)
    case String(s) => b.String? && (Contains(s, mark) || s == b.s)
    case Literal(_) => a == b
  }

  predicate AgreeFields(a: Value, f: map<seq<int>, Value>, g: map<seq<int>, Value>, mark: seq<int>)
    requires a == Object(f)
    decreases a, 0
  {
    f.Keys == g.Keys && forall k | k in f :: Agree(f[k], g[k], mark)
  }

  /** The same members everywhere, whatever the strings are. */
  predicate SameShape(a: Value, b: Value)
    decreases a
  {
    match a
    case Object(fields) =>
      b.Object? && fields.Keys == b.fields.Keys && forall k | k in fields :: SameShape(fields[k], b.fields[k])
    case Array(elements) =>
      b.Array? && |elements| == |b.elements| &&
      forall i | 0 <= i < |elements| :: SameShape(elements[i], b.elements[i])
    case String(_) => b.String?
    case Literal(_) => a == b
  }

  lemma {:induction false} AgreeingShapes(m: Value, a: Value, b: Value, mark: seq<int>)
    requires Agree(m, a, mark) && Agree(m, b, mark)
    ensures SameShape(a, b)
    decreases m
  {
    match m
    case Object(fields) =>
      forall k | k in a.fields ensures SameShape(a.fields[k], b.fields[k]) {
        AgreeingShapes(fields[k], a.fields[k], b.fields[k], mark);
      }
    case Array(elements) =>
      forall i | 0 <= i < |elements| ensures SameShape(a.elements[i], b.elements[i]) {
        AgreeingShapes(elements[i], a.elements[i], b.elements[i], mark);
      }
    case _ =>
  }

  /** Where nothing is marked, nothing differs. */
  lemma {:induction false} UnmarkedIsFixed(a: Value, b: Value, mark: seq<int>)
    requires Agree(a, b, mark) && !Marked(a, mark)
    ensures a == b
    decreases a
  {
    match a
    case Object(fields) =>
      forall k | k in fields ensures fields[k] == b.fields[k] {
        UnmarkedIsFixed(fields[k], b.fields[k], mark);
      }
      assert fields == b.fields;
    case Array(elements) =>
      forall i | 0 <= i < |elements| ensures elements[i] == b.elements[i] {
        UnmarkedIsFixed(elements[i], b.elements[i], mark);
      }
      assert elements == b.elements;
    case _ =>
  }

  // ----- filling a document -----

  lemma KeyIsFixed(c: Content, marker: string, f: Filling)
    requires Marker(marker) && Safe(Always(marker)) && Safe(f)
    requires !Contains(Decode(PutContent(c, Always(marker))), Codes(marker))
    ensures PutContent(c, f) == PutContent(c, Always(marker))
  {
    MarkedExactly(c, marker);
    PutHoleFree(c, f);
    PutHoleFree(c, Always(marker));
  }

  lemma {:induction false} FillingsAgree(j: Json, marker: string, f: Filling)
    requires Marker(marker) && Safe(Always(marker)) && Safe(f)
    requires !MarkedKey(Build(PutJson(j, Always(marker))), Codes(marker))
    ensures Agree(Build(PutJson(j, Always(marker))), Build(PutJson(j, f)), Codes(marker))
    decreases j, 0
  {
    match j
    case Obj(members) => MembersAgree(members, marker, f);
    case Arr(items) => ItemsAgree(items, marker, f);
    case Str(content) =>
      if !Contains(Decode(PutContent(content, Always(marker))), Codes(marker)) {
        KeyIsFixed(content, marker, f);
      }
    case Atom(_) =>
  }

  lemma {:induction false} MembersAgree(ms: seq<Member>, marker: string, f: Filling)
    requires Marker(marker) && Safe(Always(marker)) && Safe(f)
    requires !MarkedKey(Object(BuildMembers(PutMembers(ms, Always(marker)))), Codes(marker))
    ensures Agree(Object(BuildMembers(PutMembers(ms, Always(marker)))), Object(BuildMembers(PutMembers(ms, f))), Codes(marker))
    decreases ms, 1
  {
    if ms != [] {
      var always, mark := Always(marker), Codes(marker);
      var k := Decode(PutContent(ms[0].key, always));
      var v := Build(PutJson(ms[0].value, always));
      var rest := BuildMembers(PutMembers(ms[1..], always));
      assert BuildMembers(PutMembers(ms, always)) == map[k := v] + rest by {
        MembersStep(ms, always);
      }
      MembersStep(ms, f);
      RestUnmarked(k, v, rest, mark);
      MembersAgree(ms[1..], marker, f);
      KeyIsFixed(ms[0].key, marker, f);
      if k !in rest {
        FillingsAgree(ms[0].value, marker, f);
      }
      FieldsAgree(k, v, Build(PutJson(ms[0].value, f)), rest, BuildMembers(PutMembers(ms[1..], f)), mark);
    }
  }

  lemma MembersStep(ms: seq<Member>, f: Filling)
    requires ms != [] && Safe(f)
    ensures BuildMembers(PutMembers(ms, f)) ==
            map[Decode(PutContent(ms[0].key, f)) := Build(PutJson(ms[0].value, f))] + BuildMembers(PutMembers(ms[1..], f))
  {
    assert PutMembers(ms, f)[1..] == PutMembers(ms[1..], f);
  }

  lemma RestUnmarked(k: seq<int>, v: Value, rest: map<seq<int>, Value>, mark: seq<int>)
    requires !MarkedKey(Object(map[k := v] + rest), mark)
    ensures !MarkedKey(Object(rest), mark) && !Contains(k, mark)
    ensures k !in rest ==> !MarkedKey(v, mark)
  {
    var all := map[k := v] + rest;
    assert k in all;
    forall key | key in rest ensures !Contains(key, mark) && !MarkedKey(rest[key], mark) {
      assert key in all && all[key] == rest[key];
    }
  }

  lemma FieldsAgree(k: seq<int>, v: Value, w: Value, f: map<seq<int>, Value>, g: map<seq<int>, Value>, mark: seq<int>)
    requires Agree(Object(f), Object(g), mark) && (k !in f ==> Agree(v, w, mark))
    ensures Agree(Object(map[k := v] + f), Object(map[k := w] + g), mark)
  {
    var a, b := map[k := v] + f, map[k := w] + g;
    assert a.Keys == b.Keys;
    forall key | key in a ensures Agree(a[key], b[key], mark) {
      if key in f {
        assert Agree(f[key], g[key], mark);
      }
    }
  }

  lemma {:induction false} ItemsAgree(js: seq<Json>, marker: string, f: Filling)
    requires Marker(marker) && Safe(Always(marker)) && Safe(f)
    requires !MarkedKey(Array(BuildItems(PutItems(js, Always(marker)))), Codes(marker))
    ensures Agree(Array(BuildItems(PutItems(js, Always(marker)))), Array(BuildItems(PutItems(js, f))), Codes(marker))
    decreases js, 1
  {
    if js != [] {
      var always, mark := Always(marker), Codes(marker);
      ItemsStep(js, always);
      ItemsStep(js, f);
      var a, b := BuildItems(PutItems(js, always)), BuildItems(PutItems(js, f));
      var rest := BuildItems(PutItems(js[1..], always));
      assert a[0] == Build(PutJson(js[0], always)) && a[1..] == rest;
      forall i | 0 <= i < |rest| ensures !MarkedKey(rest[i], mark) {
        assert rest[i] == a[i + 1];
      }
      FillingsAgree(js[0], marker, f);
      ItemsAgree(js[1..], marker, f);
      forall i | 0 <= i < |a| ensures |b| == |a| && Agree(a[i], b[i], mark) {
        if i > 0 {
          assert a[i] == rest[i - 1];
        }
      }
    }
  }

  lemma ItemsStep(js: seq<Json>, f: Filling)
    requires js != [] && Safe(f)
    ensures BuildItems(PutItems(js, f)) == [Build(PutJson(js[0], f))] + BuildItems(PutItems(js[1..], f))
  {
    assert PutItems(js, f)[1..] == PutItems(js[1..], f);
  }

  // ----- from the text -----

  /** What a text decodes to, when it is JSON. */
  datatype Document = Invalid | Valid(v: Value)

  function Read(s: Text): Document {
    var p := Parse(Lex(s));
    if p.Malformed? then Invalid else Valid(Build(p.value))
  }

  /** When the marked rendering is JSON with no marker in a key, every caller's rendering
      is JSON that differs from it only in marked strings. */
  lemma EveryCallerAgrees(s: Text, marker: string, values: string -> string)
    requires Marker(marker) && !HoleInEscape(START, s)
    requires var m := Read(Put(s, Always(marker))); m.Valid? && !MarkedKey(m.v, Codes(marker))
    ensures var m, r := Read(Put(s, Always(marker))), Read(Put(s, Escaped(values)));
            r.Valid? && Agree(m.v, r.v, Codes(marker))
  {
    var always, f := Always(marker), Escaped(values);
    AlwaysSafe(marker);
    EscapedIsSafe(values);
    assert Lex(s).At? by {
      assert PutLexer(START, always) == START;
      RenderingReflects(START, s, marker);
      FeedAllPut(START, s, always);
    }
    LexPut(s, always);
    LexPut(s, f);
    ParsePut(Lex(s), always);
    ParsePut(Lex(s), f);
    FillingsAgree(Parse(Lex(s)).value, marker, f);
  }
}
