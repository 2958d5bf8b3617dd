/** What the theorems about the startup checks ask of a template is needed. Each condition
    has a family of templates, one for every parameter, that the checks accept and in which
    the caller chooses the name of a requested claim that is not reported. */
module ClaimsLimits {
  import opened ClaimsText
  import opened ClaimsLexer
  import opened ClaimsJson
  import opened ClaimsDocuments
  import opened ClaimsIsolation
  import opened Wrappers
  import T = Templates
  import A = TemplateAnalysis
  import Sound = TemplateSoundness
  import Sub = TemplateSubstitution

  // ----- text that is its own JSON string content -----

  predicate Unescaped(s: string) {
    forall c :: c in s ==> EscapeChar(c) == [c]
  }

  lemma {:induction false} UnescapedIsEscaped(s: string)
    requires Unescaped(s)
    ensures Escape(s) == s
  {
    if s != "" {
      assert s[0] in s;
      UnescapedIsEscaped(s[1..]);
    }
  }

  lemma UnescapedDecodes(s: string)
    requires Unescaped(s)
    ensures Modes(Plain, Lits(s)) == Plain && Decode(Lits(s)) == Codes(s)
  {
    UnescapedIsEscaped(s);
    EscapedIsContent(s);
    EscapeDecodes(s);
  }

  // ----- a request for one claim -----

  const BEFORE := "{\"" + "id_token" + "\":{\""
  const AFTER := "\":0}}"

  function Quote(x: Content): Text {
    [Lit('"')] + (x + [Lit('"')])
  }

  lemma FeedQuote(ts: seq<Token>, x: Content)
    ensures FeedAll(At(Out, ts), Quote(x)) == At(Out, ts + [Quoted(x)])
  {
    var s := Quote(x);
    var inside := At(InString([]), ts);
    assert s[0] == Lit('"') && s[1..] == x + [Lit('"')];
    FeedConcat(inside, x, [Lit('"')]);
    StaysInString([], ts, x);
    assert [] + x == x;
    FeedOne(At(InString(x), ts), Lit('"'));
  }

  function Opening(id: Content): Text {
    [Lit('{')] + (Quote(id) + [Lit(':'), Lit('{')])
  }

  lemma FeedOpening(id: Content)
    ensures FeedAll(START, Opening(id)) == At(Out, [Mark('{'), Quoted(id), Mark(':'), Mark('{')])
  {
    var one := At(Out, [Mark('{')]);
    var two := At(Out, [Mark('{')] + [Quoted(id)]);
    FeedOne(START, Lit('{'));
    assert Feed(START, Lit('{')) == one;
    FeedConcat(START, [Lit('{')], Quote(id) + [Lit(':'), Lit('{')]);
    FeedConcat(one, Quote(id), [Lit(':'), Lit('{')]);
    FeedQuote([Mark('{')], id);
    assert [Lit(':'), Lit('{')] == [Lit(':')] + [Lit('{')];
    FeedConcat(two, [Lit(':')], [Lit('{')]);
    FeedOne(two, Lit(':'));
    FeedOne(Feed(two, Lit(':')), Lit('{'));
    assert [Mark('{')] + [Quoted(id)] + [Mark(':')] + [Mark('{')] == [Mark('{'), Quoted(id), Mark(':'), Mark('{')];
  }

  lemma FeedClosing(ts: seq<Token>)
    ensures FeedAll(At(Out, ts), Lits(":0}}")) == At(Out, ts + [Mark(':'), Word("0"), Mark('}'), Mark('}')])
  {
    var s := Lits(":0}}");
    assert s == [Lit(':'), Lit('0'), Lit('}'), Lit('}')];
    assert s[1..] == [Lit('0'), Lit('}'), Lit('}')] && s[1..][1..] == [Lit('}'), Lit('}')];
    assert [Lit('}'), Lit('}')][1..] == [Lit('}')] && [Lit('}')][1..] == [];
    var a := At(Out, ts + [Mark(':')]);
    var b := At(InWord("0"), ts + [Mark(':')]);
    var c := At(Out, ts + [Mark(':')] + [Word("0")] + [Mark('}')]);
    var d := At(Out, ts + [Mark(':')] + [Word("0")] + [Mark('}')] + [Mark('}')]);
    assert Feed(At(Out, ts), s[0]) == a && Feed(a, Lit('0')) == b && Feed(b, Lit('}')) == c && Feed(c, Lit('}')) == d;
    assert FeedAll(c, [Lit('}')]) == d;
    assert FeedAll(b, [Lit('}'), Lit('}')]) == d;
    assert FeedAll(a, s[1..]) == d;
    assert d.tokens == ts + [Mark(':'), Word("0"), Mark('}'), Mark('}')];
  }

  lemma LexClaim(id: Content, x: Content)
    ensures Lex(Opening(id) + (Quote(x) + Lits(":0}}"))) ==
            At(Out, [Mark('{'), Quoted(id), Mark(':'), Mark('{'), Quoted(x), Mark(':'), Word("0"), Mark('}'), Mark('}')])
  {
    var ts := [Mark('{'), Quoted(id), Mark(':'), Mark('{')];
    FeedConcat(START, Opening(id), Quote(x) + Lits(":0}}"));
    FeedOpening(id);
    FeedConcat(At(Out, ts), Quote(x), Lits(":0}}"));
    FeedQuote(ts, x);
    FeedClosing(ts + [Quoted(x)]);
  }

  lemma ParseInner(x: Content)
    ensures ParseValue([Mark('{'), Quoted(x), Mark(':'), Word("0"), Mark('}'), Mark('}')]) ==
            Got(Obj([Member(x, Atom("0"))]), [Mark('}')])
  {
    var ts := [Mark('{'), Quoted(x), Mark(':'), Word("0"), Mark('}'), Mark('}')];
    var ms := ts[1..];
    assert ms == [Quoted(x), Mark(':'), Word("0"), Mark('}'), Mark('}')];
    assert ms[2..] == [Word("0"), Mark('}'), Mark('}')] && ms[2..][1..] == [Mark('}'), Mark('}')];
    assert IsNumber("0");
    assert ParseValue(ms[2..]) == Got(Atom("0"), [Mark('}'), Mark('}')]);
    assert [Mark('}'), Mark('}')][1..] == [Mark('}')];
    assert ParseMembers(ms) == Got([Member(x, Atom("0"))], [Mark('}')]);
  }

  lemma ParseClaim(id: Content, x: Content)
    ensures ParseValue([Mark('{'), Quoted(id), Mark(':'), Mark('{'), Quoted(x), Mark(':'), Word("0"), Mark('}'), Mark('}')]) ==
            Got(Obj([Member(id, Obj([Member(x, Atom("0"))]))]), [])
  {
    var ts := [Mark('{'), Quoted(id), Mark(':'), Mark('{'), Quoted(x), Mark(':'), Word("0"), Mark('}'), Mark('}')];
    var ms := ts[1..];
    assert ms[2..] == [Mark('{'), Quoted(x), Mark(':'), Word("0"), Mark('}'), Mark('}')];
    ParseInner(x);
    assert [Mark('}')][1..] == [];
    assert ParseMembers(ms) == Got([Member(id, Obj([Member(x, Atom("0"))]))], []);
  }

  /** The request for one claim in the identity token. */
  function OneClaim(claim: seq<int>): Value {
    Object(map[ID_TOKEN := Object(map[claim := Literal("0")])])
  }

  lemma BuildOne(key: Content, j: Json)
    ensures BuildMembers([Member(key, j)]) == map[Decode(key) := Build(j)]
  {
    assert [Member(key, j)][1..] == [] && BuildMembers([]) == map[];
  }

  lemma ReadContent(id: Content, x: Content)
    ensures Read(Opening(id) + (Quote(x) + Lits(":0}}"))) ==
            Valid(Object(map[Decode(id) := Object(map[Decode(x) := Literal("0")])]))
  {
    LexClaim(id, x);
    ParseClaim(id, x);
    BuildOne(x, Atom("0"));
    BuildOne(id, Obj([Member(x, Atom("0"))]));
  }

  const NAME := Lits("id_token")

  lemma NameDecodes()
    ensures Modes(Plain, NAME) == Plain && Decode(NAME) == ID_TOKEN
  {
    var name := "id_token";
    forall c | c in name ensures EscapeChar(c) == [c] {
      assert c == 'i' || c == 'd' || c == '_' || c == 't' || c == 'o' || c == 'k' || c == 'e' || c == 'n';
    }
    UnescapedDecodes(name);
  }

  lemma BeforeIsOpening()
    requires Modes(Plain, NAME) == Plain
    ensures Lits(BEFORE) == Opening(NAME) + [Lit('"')]
  {
    LitsConcat("{\"" + "id_token", "\":{\"");
    LitsConcat("{\"", "id_token");
    assert Lits("{\"") == [Lit('{'), Lit('"')];
    assert Lits("\":{\"") == [Lit('"'), Lit(':'), Lit('{'), Lit('"')];
    SplitOpening(NAME);
  }

  lemma SplitOpening(id: Content)
    ensures Opening(id) + [Lit('"')] == [Lit('{'), Lit('"')] + id + [Lit('"'), Lit(':'), Lit('{'), Lit('"')]
  {
  }

  lemma AfterIsClosing()
    ensures Lits(AFTER) == [Lit('"')] + Lits(":0}}")
  {
  }

  lemma ClaimText(x: string)
    requires Modes(Plain, Lits(x)) == Plain && Modes(Plain, NAME) == Plain
    requires Lits(BEFORE) == Opening(NAME) + [Lit('"')] && Lits(AFTER) == [Lit('"')] + Lits(":0}}")
    ensures Lits(BEFORE + x + AFTER) == Opening(NAME) + (Quote(Lits(x)) + Lits(":0}}"))
  {
    LitsConcat(BEFORE + x, AFTER);
    LitsConcat(BEFORE, x);
  }

  lemma ReadClaim(x: string)
    requires Modes(Plain, Lits(x)) == Plain
    ensures Read(Lits(BEFORE + x + AFTER)) == Valid(OneClaim(Decode(Lits(x))))
  {
    NameDecodes();
    BeforeIsOpening();
    AfterIsClosing();
    ClaimText(x);
    ReadContent(NAME, Lits(x));
  }

  // ----- a template around one action -----

  function Around(before: string, p: T.Pipe, after: string): seq<T.Node> {
    [T.TextNode(before), T.Action(p), T.TextNode(after)]
  }

  function EnvOf(params: T.Params): T.Env {
    T.Env(T.Caller(params), map["$" := T.Caller(params)])
  }

  lemma RenderAround(w: T.World, before: string, p: T.Pipe, after: string, params: T.Params, v: T.Value)
    requires p.decl == [] && T.EvalPipe(w, p, EnvOf(params)) == Ok(v)
    ensures T.Render(w, Around(before, p, after), params) == Ok(before + w.show(v) + after)
  {
    var env := EnvOf(params);
    var nodes := Around(before, p, after);
    assert nodes[1..] == [T.Action(p), T.TextNode(after)] && nodes[1..][1..] == [T.TextNode(after)];
    assert [T.TextNode(after)][1..] == [];
    assert T.ExecList(w, [], env) == Ok(T.Output("", env.vars));
    assert T.ExecList(w, [T.TextNode(after)], env) == Ok(T.Output(after + "", env.vars));
    assert after + "" == after;
    assert T.Declare(env.vars, p.decl, v) == env.vars;
    assert T.ExecNode(w, T.Action(p), env) == Ok(T.Output(w.show(v), env.vars));
    assert T.ExecList(w, nodes[1..], env) == Ok(T.Output(w.show(v) + after, env.vars));
    assert T.ExecList(w, nodes, env) == Ok(T.Output(before + (w.show(v) + after), env.vars));
    assert before + (w.show(v) + after) == before + w.show(v) + after;
  }

  lemma AccessAround(before: string, p: T.Pipe, after: string)
    ensures A.ListAccess(Around(before, p, after)) == A.PipeAccess(p)
  {
    var nodes := Around(before, p, after);
    assert nodes[1..][1..] == [nodes[2]] && [nodes[2]][1..] == [];
    assert A.ListAccess([]) == A.NOTHING && A.ListAccess([nodes[2]]) == A.NOTHING;
    assert A.ListAccess(nodes[1..]) == A.Join(A.PipeAccess(p), A.NOTHING);
  }

  // ----- what a caller then decides -----

  /** Two callers' requests ask for different claims, and the first one's is not reported. */
  ghost predicate CallerNamesClaim(w: T.World, nodes: seq<T.Node>, marker: string, a: T.Params, b: T.Params) {
    Request(w, nodes, a).Valid? && Request(w, nodes, b).Valid? && !SameShape(Request(w, nodes, a).v, Request(w, nodes, b).v) &&
    exists claim :: !FilledClaim(w, nodes, marker, claim) &&
      Requested(Request(w, nodes, a).v, ID_TOKEN, claim) != Requested(Request(w, nodes, b).v, ID_TOKEN, claim)
  }

  lemma ClaimsDiffer(a: seq<int>, b: seq<int>)
    requires a != b
    ensures !SameShape(OneClaim(a), OneClaim(b))
    ensures Requested(OneClaim(a), ID_TOKEN, a).Some? && Requested(OneClaim(b), ID_TOKEN, a).None?
  {
    var x, y := OneClaim(a).fields[ID_TOKEN], OneClaim(b).fields[ID_TOKEN];
    assert a in x.fields && a !in y.fields;
    assert !SameShape(x, y);
    assert ID_TOKEN in OneClaim(a).fields;
  }

  /** What a template renders to as the request for a claim. */
  ghost predicate Asks(w: T.World, nodes: seq<T.Node>, params: T.Params, x: string) {
    Modes(Plain, Lits(x)) == Plain && T.Render(w, nodes, params) == Ok(BEFORE + x + AFTER)
  }

  lemma AsksReads(w: T.World, nodes: seq<T.Node>, params: T.Params, x: string)
    requires Asks(w, nodes, params, x)
    ensures RenderToDocument(w, nodes, params) == Valid(OneClaim(Decode(Lits(x))))
  {
    ReadClaim(x);
  }

  /** A claim of another name than the marked rendering asks for is not reported. */
  lemma OtherIsUnreported(w: T.World, nodes: seq<T.Node>, marker: string, marked: seq<int>, claim: seq<int>)
    requires !ReadsCaller(A.ListAccess(nodes)) || (MarkedRequest(w, nodes, marker) == Valid(OneClaim(marked)) && claim != marked)
    ensures !FilledClaim(w, nodes, marker, claim)
  {
    assert ID_TOKEN != USERINFO by {
      assert |ID_TOKEN| == 8 && |USERINFO| == 8 && ID_TOKEN[0] != USERINFO[0];
    }
  }

  lemma CallerNames(w: T.World, nodes: seq<T.Node>, marker: string, a: T.Params, b: T.Params, x: string, y: string, marked: seq<int>)
    requires Asks(w, nodes, EscapeAll(a), x) && Asks(w, nodes, EscapeAll(b), y) && Decode(Lits(x)) != Decode(Lits(y))
    requires !ReadsCaller(A.ListAccess(nodes)) ||
             (MarkedRequest(w, nodes, marker) == Valid(OneClaim(marked)) && Decode(Lits(x)) != marked)
    ensures CallerNamesClaim(w, nodes, marker, a, b)
  {
    AsksReads(w, nodes, EscapeAll(a), x);
    AsksReads(w, nodes, EscapeAll(b), y);
    var claim := Decode(Lits(x));
    ClaimsDiffer(claim, Decode(Lits(y)));
    OtherIsUnreported(w, nodes, marker, marked, claim);
  }

  /** The claim asked for, when it does not show the marker, passes the check. */
  lemma UnmarkedPasses(w: T.World, nodes: seq<T.Node>, marker: string, marked: seq<int>)
    requires !A.ListAccess(nodes).controlFlow && !A.ListAccess(nodes).transform
    requires MarkedRequest(w, nodes, marker) == Valid(OneClaim(marked)) && Marker(marker) && !Contains(marked, Codes(marker))
    ensures IsStructural(w, nodes, marker)
  {
    var mark := Codes(marker);
    var inner := OneClaim(marked).fields[ID_TOKEN];
    assert !MarkedKey(Literal("0"), mark);
    assert !MarkedKey(inner, mark);
    FirstOccurs(ID_TOKEN, mark);
    NoSuchLetter();
    assert !MarkedKey(OneClaim(marked), mark);
  }

  lemma NoSuchLetter()
    ensures 'c' as int !in ID_TOKEN
  {
    var name := "id_token";
    assert 'c' !in name;
    forall i | 0 <= i < |ID_TOKEN| ensures ID_TOKEN[i] != 'c' as int {
      assert name[i] in name;
    }
  }

  lemma {:induction false} FirstOccurs(s: seq<int>, t: seq<int>)
    requires t != []
    ensures Contains(s, t) ==> t[0] in s
  {
    if s != [] {
      FirstOccurs(s[1..], t);
    }
  }

  lemma {:induction false} ShortContains(s: seq<int>, t: seq<int>)
    ensures Contains(s, t) ==> |t| <= |s|
  {
    if s != [] {
      ShortContains(s[1..], t);
    }
  }

  lemma Given(key: string, v: string)
    requires Unescaped(v)
    ensures EscapeAll(map[key := v]) == map[key := v] && Modes(Plain, Lits(v)) == Plain && Decode(Lits(v)) == Codes(v)
  {
    UnescapedIsEscaped(v);
    UnescapedDecodes(v);
  }

  // ----- chains: the name is read through (.).key -----

  function ChainPipe(key: string): T.Pipe {
    T.Pipe([], [T.Command([T.Chain(T.Pipe([], [T.Command([T.Dot])]), [key])])])
  }

  function ChainClaim(key: string): seq<T.Node> {
    Around(BEFORE, ChainPipe(key), AFTER)
  }

  lemma ChainAsks(w: T.World, key: string, v: string)
    requires Sub.Verbatim(w) && Unescaped(v)
    ensures Asks(w, ChainClaim(key), EscapeAll(map[key := v]), v) && Decode(Lits(v)) == Codes(v)
  {
    var params := map[key := v];
    Given(key, v);
    Sound.ChainValue(w, key, EnvOf(params));
    RenderAround(w, BEFORE, ChainPipe(key), AFTER, params, T.Text(v));
  }

  lemma ChainPipeUnseen(key: string)
    ensures A.PipeAccess(ChainPipe(key)) == A.NOTHING
  {
    Sound.ChainUnseen(key);
    var nodes := Sound.ChainOn(key);
    assert nodes == [T.Action(ChainPipe(key))] && nodes[1..] == [] && A.ListAccess([]) == A.NOTHING;
    assert A.ListAccess(nodes) == A.Join(A.PipeAccess(ChainPipe(key)), A.NOTHING);
  }

  /** Chains must be excluded. */
  lemma ChainsNameClaims(w: T.World, key: string, marker: string, u: string, v: string)
    requires Sub.Verbatim(w) && Unescaped(u) && Unescaped(v) && u != v
    ensures IsStructural(w, ChainClaim(key), marker)
    ensures CallerNamesClaim(w, ChainClaim(key), marker, map[key := u], map[key := v])
  {
    ChainPipeUnseen(key);
    AccessAround(BEFORE, ChainPipe(key), AFTER);
    ChainAsks(w, key, u);
    ChainAsks(w, key, v);
    DifferentCodes(u, v);
    CallerNames(w, ChainClaim(key), marker, map[key := u], map[key := v], u, v, []);
  }

  lemma DifferentCodes(a: string, b: string)
    requires a != b
    ensures Codes(a) != Codes(b)
  {
    if |a| == |b| {
      var i :| 0 <= i < |a| && a[i] != b[i];
      assert Codes(a)[i] != Codes(b)[i];
    }
  }

  // ----- the whole map: the name is {{.}} -----

  function DotPipe(): T.Pipe {
    T.Pipe([], [T.Command([T.Dot])])
  }

  function DotClaim(): seq<T.Node> {
    Around(BEFORE, DotPipe(), AFTER)
  }

  function Printed(key: string, v: string): string {
    "map[" + key + ":" + v + "]"
  }

  /** How the engine prints a map of at most one entry. */
  ghost predicate PrintsMaps(w: T.World, key: string) {
    w.show(T.Caller(map[])) == "map[]" && forall v :: w.show(T.Caller(map[key := v])) == Printed(key, v)
  }

  lemma DotAccess()
    ensures A.PipeAccess(DotPipe()) == A.Access({}, true, false, false)
  {
    var arg, c := T.Dot, T.Command([T.Dot]);
    assert [arg][1..] == [] && [c][1..] == [];
    assert A.ArgsAccess([]) == A.NOTHING && A.ArgAccess(arg) == A.Access({}, true, false, false);
    assert A.ArgsAccess([arg]) == A.Join(A.ArgAccess(arg), A.NOTHING);
    assert A.CommandAccess(c) == A.Join(A.ArgsAccess([arg]), A.NOTHING);
    assert A.CommandsAccess([]) == A.NOTHING && A.CommandsAccess([c]) == A.Join(A.CommandAccess(c), A.NOTHING);
  }

  lemma DotAsks(w: T.World, params: T.Params)
    requires Unescaped(w.show(T.Caller(params)))
    ensures Asks(w, DotClaim(), params, w.show(T.Caller(params)))
    ensures Decode(Lits(w.show(T.Caller(params)))) == Codes(w.show(T.Caller(params)))
  {
    Sound.OneCommand(w, T.Command([T.Dot]), EnvOf(params));
    assert T.EvalPipe(w, DotPipe(), EnvOf(params)) == Ok(T.Caller(params));
    RenderAround(w, BEFORE, DotPipe(), AFTER, params, T.Caller(params));
    UnescapedDecodes(w.show(T.Caller(params)));
  }

  lemma UnescapedConcat(a: string, b: string)
    requires Unescaped(a) && Unescaped(b)
    ensures Unescaped(a + b)
  {
    forall c | c in a + b ensures EscapeChar(c) == [c] {
      assert c in a || c in b;
    }
  }

  lemma MapBrackets()
    ensures Unescaped("map[") && Unescaped(":") && Unescaped("]")
  {
    forall c | c in "map[" ensures EscapeChar(c) == [c] {
      assert c == 'm' || c == 'a' || c == 'p' || c == '[';
    }
  }

  lemma PrintedMap(key: string, v: string)
    requires Unescaped(key) && Unescaped(v)
    ensures Unescaped(Printed(key, v))
  {
    MapBrackets();
    var opening, middle, closing := "map[", ":", "]";
    UnescapedConcat(opening, key);
    UnescapedConcat(opening + key, middle);
    UnescapedConcat(opening + key + middle, v);
    UnescapedConcat(opening + key + middle + v, closing);
  }

  lemma PrintedDiffer(key: string, u: string, v: string)
    requires u != v
    ensures Codes(Printed(key, u)) != Codes(Printed(key, v)) && Codes(Printed(key, u)) != Codes("map[]")
  {
    var x, y := Printed(key, u), Printed(key, v);
    assert x[|key| + 5..|x| - 1] == u && y[|key| + 5..|y| - 1] == v;
    DifferentCodes(x, y);
    DifferentCodes(x, "map[]");
  }

  lemma DotCaller(w: T.World, key: string, v: string)
    requires Unescaped(key) && Unescaped(v) && PrintsMaps(w, key)
    ensures Asks(w, DotClaim(), EscapeAll(map[key := v]), Printed(key, v))
    ensures Decode(Lits(Printed(key, v))) == Codes(Printed(key, v))
  {
    Given(key, v);
    PrintedMap(key, v);
    DotAsks(w, map[key := v]);
  }

  lemma DotMarked(w: T.World, marker: string)
    requires Marker(marker) && w.show(T.Caller(map[])) == "map[]"
    ensures A.ListAccess(DotClaim()) == A.Access({}, true, false, false)
    ensures MarkedRequest(w, DotClaim(), marker) == Valid(OneClaim(Codes("map[]")))
    ensures IsStructural(w, DotClaim(), marker)
  {
    DotAccess();
    AccessAround(BEFORE, DotPipe(), AFTER);
    EmptyMapText(marker);
    DotAsks(w, map[]);
    assert MarkAll({}, marker) == map[];
    AsksReads(w, DotClaim(), map[], "map[]");
    UnmarkedPasses(w, DotClaim(), marker, Codes("map[]"));
  }

  lemma EmptyMapText(marker: string)
    requires Marker(marker)
    ensures Unescaped("map[]") && !Contains(Codes("map[]"), Codes(marker))
  {
    forall c | c in "map[]" ensures EscapeChar(c) == [c] {
      assert c == 'm' || c == 'a' || c == 'p' || c == '[' || c == ']';
    }
    FirstOccurs(Codes("map[]"), Codes(marker));
  }

  /** A template must read its parameters by name. */
  lemma WholeMapNamesClaims(w: T.World, key: string, marker: string, u: string, v: string)
    requires Marker(marker) && Unescaped(key) && PrintsMaps(w, key) && Unescaped(u) && Unescaped(v) && u != v
    ensures IsStructural(w, DotClaim(), marker)
    ensures CallerNamesClaim(w, DotClaim(), marker, map[key := u], map[key := v])
  {
    DotMarked(w, marker);
    DotCaller(w, key, u);
    DotCaller(w, key, v);
    PrintedDiffer(key, u, v);
    CallerNames(w, DotClaim(), marker, map[key := u], map[key := v], Printed(key, u), Printed(key, v), Codes("map[]"));
  }

  // ----- late escapes: the name is \u00 and then {{.key}} -----

  const LATE := "\\u00"

  function LateClaim(key: string): seq<T.Node> {
    Around(BEFORE + LATE, FieldPipe(key), AFTER)
  }

  lemma FieldValue(w: T.World, key: string, v: string)
    ensures T.EvalPipe(w, FieldPipe(key), EnvOf(map[key := v])) == Ok(T.Text(v))
  {
    var env := EnvOf(map[key := v]);
    Sound.OneField(w, env.dot, key);
    Sound.OneCommand(w, T.Command([T.Field([key])]), env);
  }

  lemma LateRenders(w: T.World, key: string, v: string)
    requires Sub.Verbatim(w)
    ensures T.Render(w, LateClaim(key), map[key := v]) == Ok(BEFORE + (LATE + v) + AFTER)
  {
    FieldValue(w, key, v);
    RenderAround(w, BEFORE + LATE, FieldPipe(key), AFTER, map[key := v], T.Text(v));
    assert BEFORE + LATE + v == BEFORE + (LATE + v);
  }

  /** The character of two hex digits. */
  function Unit2(v: string): int
    requires |v| >= 2
  {
    0x10 * HexValue(Lit(v[0])) + HexValue(Lit(v[1]))
  }

  lemma LateHead(v: string)
    requires |v| == 2 && IsHex(v[0]) && IsHex(v[1])
    ensures Modes(Plain, Lits(LATE + v)) == Plain && Units(Lits(LATE + v)) == [Unit2(v)] && !IsSurrogate(Unit2(v))
  {
    var head := LATE + v;
    assert head == ['\\', 'u', '0', '0', v[0], v[1]];
    UnicodeEscapeIsPlain('0', '0', v[0], v[1]);
    assert Lits(head)[6..] == [];
    Unfold(Lits(head), [Unit2(v)], 6, []);
  }

  lemma TailUnits(tail: string)
    requires Unescaped(tail)
    ensures Modes(Plain, Lits(tail)) == Plain && Units(Lits(tail)) == Codes(tail)
    ensures forall i :: 0 <= i < |tail| ==> !IsSurrogate(Codes(tail)[i])
  {
    UnescapedDecodes(tail);
    UnescapedIsEscaped(tail);
    EscapeUnits(tail);
    CharactersArePlain(tail);
  }

  lemma HeadThenTail(head: string, u: int, tail: string)
    requires Modes(Plain, Lits(head)) == Plain && Units(Lits(head)) == [u] && !IsSurrogate(u) && Unescaped(tail)
    ensures Modes(Plain, Lits(head + tail)) == Plain && Decode(Lits(head + tail)) == [u] + Codes(tail)
  {
    LitsConcat(head, tail);
    TailUnits(tail);
    ModesConcat(Plain, Lits(head), Lits(tail));
    UnitsConcat(Lits(head), Lits(tail));
    PlainUnits([u] + Codes(tail));
  }

  /** Two hex digits complete the escape. */
  lemma LateDecodes(v: string)
    requires |v| >= 2 && IsHex(v[0]) && IsHex(v[1]) && Unescaped(v[2..])
    ensures Modes(Plain, Lits(LATE + v)) == Plain && Decode(Lits(LATE + v)) == [Unit2(v)] + Codes(v[2..])
  {
    LateHead(v[..2]);
    HeadThenTail(LATE + v[..2], Unit2(v[..2]), v[2..]);
    assert LATE + v == LATE + v[..2] + v[2..];
  }

  lemma PlainUnits(all: seq<int>)
    requires forall i :: 0 <= i < |all| ==> !IsSurrogate(all[i])
    ensures Paired(all) == all
  {
    PairedPlain(all, []);
    assert all + [] == all;
  }

  lemma MarkerDecodes(marker: string)
    requires Marker(marker)
    ensures Modes(Plain, Lits(LATE + marker)) == Plain && Decode(Lits(LATE + marker)) == [0xCA] + Codes(marker[2..])
    ensures !Contains([0xCA] + Codes(marker[2..]), Codes(marker))
  {
    var tail := marker[2..];
    forall c | c in tail ensures EscapeChar(c) == [c] {
      var i :| 0 <= i < |tail| && tail[i] == c;
      assert tail[i] == marker[i + 2];
    }
    LateDecodes(marker);
    ShortContains([0xCA] + Codes(tail), Codes(marker));
  }

  lemma LateMarked(w: T.World, key: string, marker: string)
    requires Sub.Verbatim(w) && Marker(marker)
    ensures A.ListAccess(LateClaim(key)) == A.Access({key}, false, false, false)
    ensures MarkedRequest(w, LateClaim(key), marker) == Valid(OneClaim([0xCA] + Codes(marker[2..])))
    ensures IsStructural(w, LateClaim(key), marker)
  {
    FieldAccess(key);
    AccessAround(BEFORE + LATE, FieldPipe(key), AFTER);
    LateRenders(w, key, marker);
    assert MarkAll({key}, marker) == map[key := marker];
    MarkerDecodes(marker);
    AsksReads(w, LateClaim(key), map[key := marker], LATE + marker);
    UnmarkedPasses(w, LateClaim(key), marker, [0xCA] + Codes(marker[2..]));
  }

  predicate HexPair(v: string) {
    |v| == 2 && IsHex(v[0]) && IsHex(v[1])
  }

  lemma LateCaller(w: T.World, key: string, v: string)
    requires Sub.Verbatim(w) && HexPair(v)
    ensures Asks(w, LateClaim(key), EscapeAll(map[key := v]), LATE + v) && Decode(Lits(LATE + v)) == [Unit2(v)]
  {
    forall c | c in v ensures EscapeChar(c) == [c] {
    }
    Given(key, v);
    LateRenders(w, key, v);
    assert v[2..] == "" && Codes("") == [];
    LateDecodes(v);
  }

  /** No hole may stand late in an escape. */
  lemma LateEscapesNameClaims(w: T.World, key: string, marker: string, u: string, v: string)
    requires Sub.Verbatim(w) && Marker(marker) && HexPair(u) && HexPair(v) && Unit2(u) != Unit2(v)
    ensures IsStructural(w, LateClaim(key), marker)
    ensures CallerNamesClaim(w, LateClaim(key), marker, map[key := u], map[key := v])
  {
    LateMarked(w, key, marker);
    LateCaller(w, key, u);
    LateCaller(w, key, v);
    assert |[0xCA] + Codes(marker[2..])| > 1;
    CallerNames(w, LateClaim(key), marker, map[key := u], map[key := v], LATE + u, LATE + v, [0xCA] + Codes(marker[2..]));
  }
}
