/** The startup checks of a configured claims request: a template they accept asks, for
    every caller, for the same claims, and a claim they do not report as filled by the
    caller carries the same constraint for every caller. */
module ClaimsIsolation {
  import opened ClaimsText
  import opened ClaimsLexer
  import opened ClaimsJson
  import opened ClaimsDocuments
  import opened Wrappers
  import T = Templates
  import A = TemplateAnalysis
  import Sound = TemplateSoundness
  import Reads = TemplateReads
  import Sub = TemplateSubstitution

  // ----- a filled skeleton is a filled text -----

  function Symbols(ps: seq<Sub.Piece>): Text {
    if ps == [] then []
    else
      (match ps[0]
       case Fixed(text) => Lits(text)
       case Hole(key, _, shown) => if shown then [Hole(key)] else []) + Symbols(ps[1..])
  }

  function TextOf(w: T.World, nodes: seq<T.Node>): Text {
    var s := Sub.ListSkeleton(w, nodes, Sub.Root);
    if s.Broken? then [] else Symbols(s.pieces)
  }

  function ValueOf(params: T.Params, key: string): string {
    if key in params then params[key] else ""
  }

  function As(params: T.Params): Filling {
    k => Lits(ValueOf(params, k))
  }

  lemma PutLits(s: string, f: Filling)
    ensures Put(Lits(s), f) == Lits(s)
  {
    PutHoleFree(Lits(s), f);
  }

  lemma PutPiece(p: Sub.Piece, params: T.Params)
    requires Sub.FillPiece(p, params).Ok?
    ensures Lits(Sub.FillPiece(p, params).value) == Put(Symbols([p]), As(params))
  {
    assert [p][1..] == [];
    match p
    case Fixed(text) =>
      PutLits(text, As(params));
      assert Symbols([p]) == Lits(text);
    case Hole(key, _, shown) =>
      if shown {
        assert Symbols([p]) == [Hole(key)] && [Hole(key)][1..] == [];
      } else {
        assert Symbols([p]) == [];
      }
  }

  lemma SymbolsCons(ps: seq<Sub.Piece>)
    requires ps != []
    ensures Symbols(ps) == Symbols([ps[0]]) + Symbols(ps[1..])
  {
    assert [ps[0]][1..] == [] && Symbols([]) == [];
  }

  lemma {:induction false} FilledText(ps: seq<Sub.Piece>, params: T.Params)
    requires Sub.FillPieces(ps, params).Ok?
    ensures Lits(Sub.FillPieces(ps, params).value) == Put(Symbols(ps), As(params))
  {
    if ps != [] {
      PutPiece(ps[0], params);
      FilledText(ps[1..], params);
      LitsConcat(Sub.FillPiece(ps[0], params).value, Sub.FillPieces(ps[1..], params).value);
      SymbolsCons(ps);
      PutConcat(Symbols([ps[0]]), Symbols(ps[1..]), As(params));
    }
  }

  /** A rendering of an accepted template is its text with the parameters put in. */
  lemma RenderedText(w: T.World, nodes: seq<T.Node>, params: T.Params)
    requires Sub.Verbatim(w) && Sound.ListPlain(nodes) && Sub.Accepted(A.ListAccess(nodes))
    requires T.Render(w, nodes, params).Ok?
    ensures Lits(T.Render(w, nodes, params).value) == Put(TextOf(w, nodes), As(params))
  {
    Sub.AcceptedIsSubstitution(w, nodes, params);
    FilledText(Sub.ListSkeleton(w, nodes, Sub.Root).pieces, params);
  }

  // ----- the two ways a template is rendered -----

  /** Every value is escaped as JSON string content before templating. */
  function EscapeAll(data: T.Params): T.Params {
    map k | k in data :: Escape(data[k])
  }

  function MarkAll(keys: set<string>, marker: string): T.Params {
    map k | k in keys :: marker
  }

  function RenderToDocument(w: T.World, nodes: seq<T.Node>, params: T.Params): Document {
    var r := T.Render(w, nodes, params);
    if r.Err? then Invalid else Read(Lits(r.value))
  }

  /** The request sent for a caller; `Invalid` when resolving the template fails. */
  function Request(w: T.World, nodes: seq<T.Node>, data: T.Params): Document {
    RenderToDocument(w, nodes, EscapeAll(data))
  }

  /** The rendering that the checks look at. */
  function MarkedRequest(w: T.World, nodes: seq<T.Node>, marker: string): Document {
    RenderToDocument(w, nodes, MarkAll(A.ListAccess(nodes).keys, marker))
  }

  lemma {:induction false} PutSameHoles(s: Text, f: Filling, g: Filling)
    requires forall x :: x in s && x.Hole? ==> f(x.key) == g(x.key)
    ensures Put(s, f) == Put(s, g)
  {
    if s != [] {
      assert s[0] in s;
      PutSameHoles(s[1..], f, g);
    }
  }

  lemma {:induction false} SymbolHoles(ps: seq<Sub.Piece>, keys: set<string>)
    requires forall p :: p in ps && p.Hole? ==> p.key in keys
    ensures forall x :: x in Symbols(ps) && x.Hole? ==> x.key in keys
  {
    if ps != [] {
      assert ps[0] in ps;
      SymbolHoles(ps[1..], keys);
    }
  }

  lemma MarkedText(w: T.World, nodes: seq<T.Node>, marker: string)
    ensures Put(TextOf(w, nodes), As(MarkAll(A.ListAccess(nodes).keys, marker))) == Put(TextOf(w, nodes), Always(marker))
  {
    var keys := A.ListAccess(nodes).keys;
    Sub.ListHoles(w, nodes, Sub.Root);
    var s := Sub.ListSkeleton(w, nodes, Sub.Root);
    if s.Pieces? {
      SymbolHoles(s.pieces, keys);
      PutSameHoles(Symbols(s.pieces), As(MarkAll(keys, marker)), Always(marker));
    }
  }

  function Values(data: T.Params): string -> string {
    k => ValueOf(data, k)
  }

  lemma EscapedValue(data: T.Params, key: string)
    ensures ValueOf(EscapeAll(data), key) == Escape(ValueOf(data, key))
  {
  }

  lemma EscapedText(s: Text, data: T.Params)
    ensures Put(s, As(EscapeAll(data))) == Put(s, Escaped(Values(data)))
  {
    var f, g := As(EscapeAll(data)), Escaped(Values(data));
    forall k ensures f(k) == g(k) {
      EscapedValue(data, k);
    }
    PutSame(s, f, g);
  }

  lemma MarkedRequestIs(w: T.World, nodes: seq<T.Node>, marker: string)
    requires Sub.Verbatim(w) && Sound.ListPlain(nodes) && Sub.Accepted(A.ListAccess(nodes))
    requires MarkedRequest(w, nodes, marker).Valid?
    ensures MarkedRequest(w, nodes, marker) == Read(Put(TextOf(w, nodes), Always(marker)))
  {
    RenderedText(w, nodes, MarkAll(A.ListAccess(nodes).keys, marker));
    MarkedText(w, nodes, marker);
  }

  lemma RequestIs(w: T.World, nodes: seq<T.Node>, data: T.Params)
    requires Sub.Verbatim(w) && Sound.ListPlain(nodes) && Sub.Accepted(A.ListAccess(nodes))
    requires T.Render(w, nodes, EscapeAll(data)).Ok?
    ensures Request(w, nodes, data) == Read(Put(TextOf(w, nodes), Escaped(Values(data))))
  {
    RenderedText(w, nodes, EscapeAll(data));
    EscapedText(TextOf(w, nodes), data);
  }

  // ----- the structural check -----

  /** No caller value may shape the request: it decides no branch, goes through no
      function, and lands inside a string that is not a member name. */
  predicate IsStructural(w: T.World, nodes: seq<T.Node>, marker: string) {
    var access := A.ListAccess(nodes);
    (access.keys == {} && !access.unattributed) ||
    (!access.controlFlow && !access.transform &&
     var d := MarkedRequest(w, nodes, marker); d.Valid? && !MarkedKey(d.v, Codes(marker)))
  }

  /** What the theorems ask of a template beyond the check: chain-free, read by name only,
      and with no hole late in a `\u` escape. */
  ghost predicate Readable(w: T.World, nodes: seq<T.Node>) {
    Sub.Verbatim(w) && Sound.ListPlain(nodes) && !A.ListAccess(nodes).unattributed &&
    !HoleInEscape(START, TextOf(w, nodes))
  }

  lemma RequestAgrees(w: T.World, nodes: seq<T.Node>, marker: string, data: T.Params)
    requires Marker(marker) && Readable(w, nodes) && IsStructural(w, nodes, marker) && A.ListAccess(nodes).keys != {}
    requires T.Render(w, nodes, EscapeAll(data)).Ok?
    ensures Request(w, nodes, data).Valid?
    ensures Agree(MarkedRequest(w, nodes, marker).v, Request(w, nodes, data).v, Codes(marker))
  {
    MarkedRequestIs(w, nodes, marker);
    RequestIs(w, nodes, data);
    EveryCallerAgrees(TextOf(w, nodes), marker, Values(data));
  }

  lemma {:induction false} OwnShape(v: Value)
    ensures SameShape(v, v)
    decreases v
  {
    match v
    case Object(fields) =>
      forall k | k in fields ensures SameShape(fields[k], fields[k]) {
        OwnShape(fields[k]);
      }
    case Array(elements) =>
      forall i | 0 <= i < |elements| ensures SameShape(elements[i], elements[i]) {
        OwnShape(elements[i]);
      }
    case _ =>
  }

  lemma UnreadIsConstant(w: T.World, nodes: seq<T.Node>, a: T.Params, b: T.Params)
    requires Sound.ListPlain(nodes) && Sub.Empty(A.ListAccess(nodes))
    ensures T.Render(w, nodes, a) == T.Render(w, nodes, b)
  {
    Sound.AnalysisIsSound(w, nodes, a, b);
  }

  /** An accepted template asks for the same members for all callers. */
  lemma RequestsHaveOneShape(w: T.World, nodes: seq<T.Node>, marker: string, a: T.Params, b: T.Params)
    requires Marker(marker) && Readable(w, nodes) && IsStructural(w, nodes, marker)
    requires Request(w, nodes, a).Valid? && Request(w, nodes, b).Valid?
    ensures SameShape(Request(w, nodes, a).v, Request(w, nodes, b).v)
  {
    if A.ListAccess(nodes).keys == {} {
      UnreadIsConstant(w, nodes, EscapeAll(a), EscapeAll(b));
      OwnShape(Request(w, nodes, a).v);
    } else {
      RequestAgrees(w, nodes, marker, a);
      RequestAgrees(w, nodes, marker, b);
      AgreeingShapes(MarkedRequest(w, nodes, marker).v, Request(w, nodes, a).v, Request(w, nodes, b).v, Codes(marker));
    }
  }

  // ----- which claims the caller fills -----

  const ID_TOKEN := Codes("id_token")
  const USERINFO := Codes("userinfo")
  const ACR := Codes("acr")

  predicate ReadsCaller(a: A.Access) {
    a.keys != {} || a.unattributed || a.controlFlow || a.transform
  }

  /** The constraint on a claim requested in a token (OIDC Core section 5.5). */
  function Requested(d: Value, target: seq<int>, claim: seq<int>): Option<Value> {
    if d.Object? && target in d.fields && d.fields[target].Object? && claim in d.fields[target].fields
    then Some(d.fields[target].fields[claim]) else None
  }

  predicate IsFilled(d: Value, target: seq<int>, claim: seq<int>, all: bool, mark: seq<int>) {
    var c := Requested(d, target, claim);
    c.Some? && (all || Marked(c.value, mark))
  }

  predicate IsObjectOrNull(d: Document) {
    d.Valid? && (d.v.Object? || d.v == Literal("null"))
  }

  method FilledUnder(d: Value, target: seq<int>, all: bool, mark: seq<int>) returns (filled: set<seq<int>>)
    ensures forall c :: c in filled <==> IsFilled(d, target, c, all, mark)
  {
    filled := {};
    if d.Object? && target in d.fields && d.fields[target].Object? {
      var claims := d.fields[target].fields;
      var left := claims.Keys;
      while left != {}
        invariant left <= claims.Keys
        invariant forall c :: c in filled <==> c in claims && c !in left && (all || Marked(claims[c], mark))
        decreases left
      {
        var c :| c in left;
        if all || Marked(claims[c], mark) {
          filled := filled + {c};
        }
        left := left - {c};
      }
    }
  }

  /** The claims that carry a value of the caller, from one marked rendering. */
  method ClaimsFilledByCaller(w: T.World, acr: seq<T.Node>, claims: seq<T.Node>, marker: string)
    returns (ok: bool, filled: set<seq<int>>)
    ensures ok <==> !ReadsCaller(A.ListAccess(claims)) || IsObjectOrNull(MarkedRequest(w, claims, marker))
    ensures ok ==> forall c :: c in filled <==>
              (c == Codes("acr") && ReadsCaller(A.ListAccess(acr))) || FilledClaim(w, claims, marker, c)
  {
    filled := {};
    if ReadsCaller(A.ListAccess(acr)) {
      filled := {ACR};
    }
    var access := A.ListAccess(claims);
    if !ReadsCaller(access) {
      return true, filled;
    }
    var d := MarkedRequest(w, claims, marker);
    if !IsObjectOrNull(d) {
      return false, {};
    }
    var all := access.unattributed || access.controlFlow || access.transform;
    var inToken := FilledUnder(d.v, ID_TOKEN, all, Codes(marker));
    var inUserinfo := FilledUnder(d.v, USERINFO, all, Codes(marker));
    return true, filled + inToken + inUserinfo;
  }

  predicate FilledClaim(w: T.World, claims: seq<T.Node>, marker: string, claim: seq<int>) {
    var access := A.ListAccess(claims);
    var all := access.unattributed || access.controlFlow || access.transform;
    var d := MarkedRequest(w, claims, marker);
    ReadsCaller(access) && d.Valid? &&
    (IsFilled(d.v, Codes("id_token"), claim, all, Codes(marker)) || IsFilled(d.v, Codes("userinfo"), claim, all, Codes(marker)))
  }

  /** A claim is reported exactly when the template reads the caller at all and the claim is
      in the sentinel rendering, under either token, and either shows the sentinel or the
      template reads in a way that no rendering can tell: without a name, in the pipe of a
      branch or loop, or through a function. */
  lemma FilledExactly(w: T.World, claims: seq<T.Node>, marker: string, claim: seq<int>)
    ensures var d, ns := MarkedRequest(w, claims, marker), Reads.NodesIn(claims);
            var untold := Reads.VagueAt(ns) || Reads.DecisionAt(ns) || Reads.TransformAt(ns);
            FilledClaim(w, claims, marker, claim) <==>
            d.Valid? && (untold || exists k :: Reads.KeyAt(ns, k)) &&
            exists target :: (target == Codes("id_token") || target == Codes("userinfo")) &&
              Requested(d.v, target, claim).Some? && (untold || Marked(Requested(d.v, target, claim).value, Codes(marker)))
  {
    Reads.AccessExactly(claims);
    var a, ns := A.ListAccess(claims), Reads.NodesIn(claims);
    if a.keys != {} {
      var k :| k in a.keys;
      assert Reads.KeyAt(ns, k);
    }
    if k :| Reads.KeyAt(ns, k) {
      assert k in a.keys;
    }
  }

  lemma AgreeingClaims(m: Value, a: Value, target: seq<int>, claim: seq<int>, mark: seq<int>)
    requires Agree(m, a, mark) && !IsFilled(m, target, claim, false, mark)
    ensures Requested(a, target, claim) == Requested(m, target, claim)
  {
    if m.Object? && target in m.fields {
      assert Agree(m.fields[target], a.fields[target], mark);
      if m.fields[target].Object? && claim in m.fields[target].fields {
        UnmarkedIsFixed(m.fields[target].fields[claim], a.fields[target].fields[claim], mark);
      }
    }
  }

  /** A claim that is not reported carries the same constraint for all callers. */
  lemma UnfilledClaimIsFixed(w: T.World, nodes: seq<T.Node>, marker: string, a: T.Params, b: T.Params,
                             target: seq<int>, claim: seq<int>)
    requires Marker(marker) && Readable(w, nodes) && IsStructural(w, nodes, marker)
    requires Request(w, nodes, a).Valid? && Request(w, nodes, b).Valid?
    requires (target == ID_TOKEN || target == USERINFO) && !FilledClaim(w, nodes, marker, claim)
    ensures Requested(Request(w, nodes, a).v, target, claim) == Requested(Request(w, nodes, b).v, target, claim)
  {
    if A.ListAccess(nodes).keys == {} {
      UnreadIsConstant(w, nodes, EscapeAll(a), EscapeAll(b));
    } else {
      RequestAgrees(w, nodes, marker, a);
      RequestAgrees(w, nodes, marker, b);
      var m := MarkedRequest(w, nodes, marker).v;
      AgreeingClaims(m, Request(w, nodes, a).v, target, claim, Codes(marker));
      AgreeingClaims(m, Request(w, nodes, b).v, target, claim, Codes(marker));
    }
  }

  /** An unreported acr_values template asks for the same value for all callers. */
  lemma UnfilledAcrIsFixed(w: T.World, acr: seq<T.Node>, a: T.Params, b: T.Params)
    requires Sound.ListPlain(acr) && !ReadsCaller(A.ListAccess(acr))
    ensures T.Render(w, acr, a) == T.Render(w, acr, b)
  {
    UnreadIsConstant(w, acr, a, b);
  }

  // ----- the documented form -----

  /** A placeholder inside a string: "{{.key}}". */
  /** A pipe in quotes. */
  function Placeholder(p: T.Pipe): seq<T.Node> {
    [T.TextNode("\""), T.Action(p), T.TextNode("\"")]
  }

  /** The documented forms: {{.key}} and {{index . "key"}}. */
  function FieldPipe(key: string): T.Pipe {
    T.Pipe([], [T.Command([T.Field([key])])])
  }

  function IndexPipe(key: string): T.Pipe {
    T.Pipe([], [T.Command([T.Ident("index"), T.Dot, T.Str(key)])])
  }

  /** A pipe that prints one parameter, and fails without it if it is strict. */
  ghost predicate PrintsKey(w: T.World, p: T.Pipe, key: string, strict: bool) {
    A.PipeAccess(p) == A.Access({key}, false, false, false) && Sound.PipePlain(p) && p.decl == [] &&
    Sub.SymPipe(w, p, Sub.Root) == Sub.Key(key, strict)
  }

  lemma FieldPrintsKey(w: T.World, key: string)
    ensures PrintsKey(w, FieldPipe(key), key, true)
  {
    FieldAccess(key);
    assert Sub.SymArg(w, T.Field([key]), Sub.Root) == Sub.Key(key, true);
    assert Sub.SymCommand(w, FieldPipe(key).cmds[0], Sub.Root) == Sub.Key(key, true);
  }

  lemma IndexPrintsKey(w: T.World, key: string)
    ensures PrintsKey(w, IndexPipe(key), key, false)
  {
    var args := [T.Ident("index"), T.Dot, T.Str(key)];
    var c := T.Command(args);
    assert args[1..] == [T.Dot, T.Str(key)] && args[1..][1..] == [T.Str(key)] && [T.Str(key)][1..] == [] && [c][1..] == [];
    assert Sound.ArgsPlain([]) && Sound.ArgPlain(T.Str(key)) && Sound.ArgsPlain([T.Str(key)]) && Sound.ArgsPlain(args[1..]);
    assert Sound.CommandPlain(c) && Sound.CommandsPlain([]) && Sound.CommandsPlain([c]);
    assert A.CommandAccess(c) == A.Access({key}, false, false, false) && A.CommandReads(c);
    assert A.CommandsAccess([]) == A.NOTHING;
    assert A.CommandsAccess([c]) == A.Join(A.CommandAccess(c), A.NOTHING) && A.CommandsRead([c]);
    assert Sub.SymCommand(w, c, Sub.Root) == Sub.Key(key, false);
  }

  lemma FieldAccess(key: string)
    ensures A.PipeAccess(FieldPipe(key)) == A.Access({key}, false, false, false)
    ensures A.PipeReads(FieldPipe(key)) && Sound.PipePlain(FieldPipe(key))
  {
    var arg := T.Field([key]);
    var c := T.Command([arg]);
    assert [arg][1..] == [] && [c][1..] == [];
    assert A.ArgAccess(arg) == A.Access({key}, false, false, false) && A.ArgReads(arg) && Sound.ArgPlain(arg);
    assert A.ArgsAccess([]) == A.NOTHING && Sound.ArgsPlain([]);
    assert A.ArgsAccess([arg]) == A.Join(A.ArgAccess(arg), A.NOTHING) && A.ArgsRead([arg]) && Sound.ArgsPlain([arg]);
    assert A.CommandAccess(c) == A.Join(A.ArgsAccess([arg]), A.NOTHING) && A.CommandReads(c) && Sound.CommandPlain(c);
    assert A.CommandsAccess([]) == A.NOTHING && Sound.CommandsPlain([]);
    assert A.CommandsAccess([c]) == A.Join(A.CommandAccess(c), A.NOTHING) && A.CommandsRead([c]) && Sound.CommandsPlain([c]);
  }

  lemma PlaceholderAccess(w: T.World, p: T.Pipe, key: string, strict: bool)
    requires PrintsKey(w, p, key, strict)
    ensures A.ListAccess(Placeholder(p)) == A.Access({key}, false, false, false) && Sound.ListPlain(Placeholder(p))
  {
    var nodes := Placeholder(p);
    assert nodes[1..][1..] == [nodes[2]] && [nodes[2]][1..] == [];
    assert A.ListAccess([]) == A.NOTHING && Sound.ListPlain([]);
    assert A.ListAccess([nodes[2]]) == A.NOTHING && Sound.NodePlain(nodes[2]) && Sound.ListPlain([nodes[2]]);
    assert A.NodeAccess(nodes[1]) == A.PipeAccess(p) && Sound.NodePlain(nodes[1]);
    assert A.ListAccess(nodes[1..]) == A.Join(A.PipeAccess(p), A.NOTHING) && Sound.ListPlain(nodes[1..]);
    assert Sound.NodePlain(nodes[0]);
  }

  lemma PlaceholderSkeleton(w: T.World, p: T.Pipe, key: string, strict: bool)
    requires PrintsKey(w, p, key, strict)
    ensures TextOf(w, Placeholder(p)) == [Lit('"'), Hole(key), Lit('"')]
    ensures Sub.ListSkeleton(w, Placeholder(p), Sub.Root) ==
            Sub.Pieces([Sub.Fixed("\""), Sub.Hole(key, strict, true), Sub.Fixed("\"")])
  {
    var nodes := Placeholder(p);
    var quote, hole := Sub.Fixed("\""), Sub.Hole(key, strict, true);
    assert nodes[1..][1..] == [nodes[2]] && [nodes[2]][1..] == [];
    assert Sub.ListSkeleton(w, [nodes[2]], Sub.Root) == Sub.Pieces([quote] + []);
    assert Sub.ListSkeleton(w, nodes[1..], Sub.Root) == Sub.Pieces([hole] + [quote]);
    assert Sub.ListSkeleton(w, nodes, Sub.Root) == Sub.Pieces([quote] + ([hole] + [quote]));
    assert [quote] + ([hole] + [quote]) == [quote, hole, quote];
    assert [quote, hole, quote][1..] == [hole, quote] && [hole, quote][1..] == [quote] && [quote][1..] == [];
    assert Symbols([quote]) == Lits("\"") + [] == [Lit('"')];
    assert Symbols([hole, quote]) == [Hole(key)] + [Lit('"')];
    assert Symbols([quote, hole, quote]) == [Lit('"')] + ([Hole(key)] + [Lit('"')]);
  }

  lemma PlaceholderFills(key: string, strict: bool, params: T.Params)
    requires key in params
    ensures Sub.FillPieces([Sub.Fixed("\""), Sub.Hole(key, strict, true), Sub.Fixed("\"")], params).Ok?
  {
    var quote, hole := Sub.Fixed("\""), Sub.Hole(key, strict, true);
    assert [quote, hole, quote][1..] == [hole, quote] && [hole, quote][1..] == [quote] && [quote][1..] == [];
    assert Sub.FillPieces([], params).Ok?;
    assert Sub.FillPieces([quote], params).Ok?;
    assert Sub.FillPieces([hole, quote], params).Ok?;
  }

  lemma QuotedLexes(content: Content)
    ensures Lex([Lit('"')] + (content + [Lit('"')])) == At(Out, [Quoted(content)])
  {
    var s := [Lit('"')] + (content + [Lit('"')]);
    var inside := At(InString([]), []);
    assert s[0] == Lit('"') && s[1..] == content + [Lit('"')];
    assert FeedAll(START, s) == FeedAll(inside, s[1..]);
    FeedConcat(inside, content, [Lit('"')]);
    StaysInString([], [], content);
    assert [] + content == content;
    FeedOne(At(InString(content), []), Lit('"'));
  }

  lemma QuotedReads(content: Content)
    ensures Read([Lit('"')] + (content + [Lit('"')])) == Valid(String(Decode(content)))
  {
    QuotedLexes(content);
    assert [Quoted(content)][1..] == [];
  }

  lemma PlaceholderText(key: string, marker: string)
    ensures !HoleInEscape(START, [Lit('"'), Hole(key), Lit('"')])
    ensures Put([Lit('"'), Hole(key), Lit('"')], Always(marker)) == [Lit('"')] + (Lits(marker) + [Lit('"')])
  {
    var s := [Lit('"'), Hole(key), Lit('"')];
    assert s[1..] == [Hole(key), Lit('"')] && [Hole(key), Lit('"')][1..] == [Lit('"')] && [Lit('"')][1..] == [];
    var inside := At(InString([]), []);
    assert Feed(START, Lit('"')) == inside && !InLateHex(inside);
    assert !HoleInEscape(Feed(inside, Hole(key)), [Lit('"')]);
    assert !HoleInEscape(inside, [Hole(key), Lit('"')]);
    assert Put([Lit('"')], Always(marker)) == [Lit('"')] + [];
    assert Put([Hole(key), Lit('"')], Always(marker)) == Lits(marker) + [Lit('"')];
  }

  lemma PlaceholderMarked(w: T.World, p: T.Pipe, key: string, strict: bool, marker: string)
    requires Sub.Verbatim(w) && Marker(marker) && PrintsKey(w, p, key, strict)
    ensures MarkedRequest(w, Placeholder(p), marker) == Valid(String(Decode(Lits(marker))))
  {
    var nodes, params := Placeholder(p), MarkAll({key}, marker);
    PlaceholderAccess(w, p, key, strict);
    PlaceholderSkeleton(w, p, key, strict);
    PlaceholderFills(key, strict, params);
    Sub.AcceptedIsSubstitution(w, nodes, params);
    RenderedText(w, nodes, params);
    MarkedText(w, nodes, marker);
    PlaceholderText(key, marker);
    LettersAreContent(marker);
    QuotedReads(Lits(marker));
  }

  lemma KeyInQuotesIsAccepted(w: T.World, p: T.Pipe, key: string, strict: bool, marker: string)
    requires Sub.Verbatim(w) && Marker(marker) && PrintsKey(w, p, key, strict)
    ensures Readable(w, Placeholder(p)) && IsStructural(w, Placeholder(p), marker)
  {
    PlaceholderAccess(w, p, key, strict);
    PlaceholderSkeleton(w, p, key, strict);
    PlaceholderText(key, marker);
    PlaceholderMarked(w, p, key, strict, marker);
  }

  /** The documented forms, a placeholder inside a string that names its parameter as a field
      or through index, pass the check and meet what the theorems ask. */
  lemma PlaceholderIsAccepted(w: T.World, key: string, marker: string)
    requires Sub.Verbatim(w) && Marker(marker)
    ensures Readable(w, Placeholder(FieldPipe(key))) && IsStructural(w, Placeholder(FieldPipe(key)), marker)
    ensures Readable(w, Placeholder(IndexPipe(key))) && IsStructural(w, Placeholder(IndexPipe(key)), marker)
  {
    FieldPrintsKey(w, key);
    IndexPrintsKey(w, key);
    KeyInQuotesIsAccepted(w, FieldPipe(key), key, true, marker);
    KeyInQuotesIsAccepted(w, IndexPipe(key), key, false, marker);
  }
}
