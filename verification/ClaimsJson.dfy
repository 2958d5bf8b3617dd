/** JSON documents over text with holes: the parser commutes with filling the holes,
    and a marked hole shows in the decoded string. */
module ClaimsJson {
  import opened ClaimsText
  import opened ClaimsLexer

  datatype Json =
    | Obj(members: seq<Member>)
    | Arr(items: seq<Json>)
    | Str(content: Content)
    | Atom(w: string)

  datatype Member = Member(key: Content, value: Json)

  datatype Parsed<T> = Malformed | Got(value: T, rest: seq<Token>)

  // ----- literals -----

  predicate IsDigit(c: char) {
    '0' <= c <= '9'
  }

  function SkipDigits(s: string): string {
    if s != "" && IsDigit(s[0]) then SkipDigits(s[1..]) else s
  }

  predicate IsExponent(s: string) {
    s == "" || ((s[0] == 'e' || s[0] == 'E') &&
      var t := if |s| > 1 && (s[1] == '+' || s[1] == '-') then s[2..] else s[1..];
      t != "" && SkipDigits(t) == "")
  }

  predicate IsFraction(s: string) {
    if s != "" && s[0] == '.' then |s| > 1 && IsDigit(s[1]) && IsExponent(SkipDigits(s[1..])) else IsExponent(s)
  }

  predicate IsNumber(w: string) {
    var s := if w != "" && w[0] == '-' then w[1..] else w;
    s != "" && IsDigit(s[0]) && IsFraction(if s[0] == '0' then s[1..] else SkipDigits(s))
  }

  predicate IsLiteral(w: string) {
    w == "true" || w == "false" || w == "null" || IsNumber(w)
  }

  // ----- the parser -----

  function ParseValue(ts: seq<Token>): (r: Parsed<Json>)
    ensures r.Got? ==> |r.rest| < |ts|
    decreases |ts|, 0
  {
    if ts == [] then Malformed
    else match ts[0]
      case Quoted(content) => Got(Str(content), ts[1..])
      case Word(w) => if IsLiteral(w) then Got(Atom(w), ts[1..]) else Malformed
      case Mark(c) =>
        if c == '{' then
          if |ts| > 1 && ts[1] == Mark('}') then Got(Obj([]), ts[2..])
          else var m := ParseMembers(ts[1..]); if m.Malformed? then Malformed else Got(Obj(m.value), m.rest)
        else if c == '[' then
          if |ts| > 1 && ts[1] == Mark(']') then Got(Arr([]), ts[2..])
          else var m := ParseItems(ts[1..]); if m.Malformed? then Malformed else Got(Arr(m.value), m.rest)
        else Malformed
  }

  function ParseMembers(ts: seq<Token>): (r: Parsed<seq<Member>>)
    ensures r.Got? ==> |r.rest| < |ts|
    decreases |ts|, 1
  {
    if |ts| < 2 || !ts[0].Quoted? || ts[1] != Mark(':') then Malformed
    else
      var v := ParseValue(ts[2..]);
      if v.Malformed? || v.rest == [] then Malformed
      else
        var m := Member(ts[0].content, v.value);
        if v.rest[0] == Mark('}') then Got([m], v.rest[1..])
        else if v.rest[0] != Mark(',') then Malformed
        else
          var more := ParseMembers(v.rest[1..]);
          if more.Malformed? then Malformed else Got([m] + more.value, more.rest)
  }

  function ParseItems(ts: seq<Token>): (r: Parsed<seq<Json>>)
    ensures r.Got? ==> |r.rest| < |ts|
    decreases |ts|, 1
  {
    var v := ParseValue(ts);
    if v.Malformed? || v.rest == [] then Malformed
    else if v.rest[0] == Mark(']') then Got([v.value], v.rest[1..])
    else if v.rest[0] != Mark(',') then Malformed
    else
      var more := ParseItems(v.rest[1..]);
      if more.Malformed? then Malformed else Got([v.value] + more.value, more.rest)
  }

  /** One value and nothing after it. */
  function Parse(l: Lexer): Parsed<Json> {
    if l.Fail? then Malformed
    else
      var v := ParseValue(l.tokens);
      if v.Got? && v.rest == [] then v else Malformed
  }

  // ----- filling the holes -----

  function PutJson(j: Json, f: Filling): Json
    requires Safe(f)
  {
    match j
    case Obj(members) => Obj(PutMembers(members, f))
    case Arr(items) => Arr(PutItems(items, f))
    case Str(content) => Str(PutContent(content, f))
    case Atom(w) => Atom(w)
  }

  function PutMembers(ms: seq<Member>, f: Filling): seq<Member>
    requires Safe(f)
  {
    if ms == [] then []
    else [Member(PutContent(ms[0].key, f), PutJson(ms[0].value, f))] + PutMembers(ms[1..], f)
  }

  function PutItems(js: seq<Json>, f: Filling): seq<Json>
    requires Safe(f)
  {
    if js == [] then [] else [PutJson(js[0], f)] + PutItems(js[1..], f)
  }

  lemma PutMembersCons(m: Member, ms: seq<Member>, f: Filling)
    requires Safe(f)
    ensures PutMembers([m] + ms, f) == [Member(PutContent(m.key, f), PutJson(m.value, f))] + PutMembers(ms, f)
  {
    assert ([m] + ms)[1..] == ms;
  }

  lemma PutItemsCons(j: Json, js: seq<Json>, f: Filling)
    requires Safe(f)
    ensures PutItems([j] + js, f) == [PutJson(j, f)] + PutItems(js, f)
  {
    assert ([j] + js)[1..] == js;
  }

  lemma PutOneMember(m: Member, f: Filling)
    requires Safe(f)
    ensures PutMembers([m], f) == [Member(PutContent(m.key, f), PutJson(m.value, f))]
  {
    assert [m][1..] == [] && PutMembers([], f) == [];
  }

  lemma PutOneItem(j: Json, f: Filling)
    requires Safe(f)
    ensures PutItems([j], f) == [PutJson(j, f)]
  {
    assert [j][1..] == [] && PutItems([], f) == [];
  }

  lemma PutDrop(ts: seq<Token>, n: nat, f: Filling)
    requires Safe(f) && n <= |ts|
    ensures PutTokens(ts, f)[n..] == PutTokens(ts[n..], f)
  {
  }

  function PutValue(r: Parsed<Json>, f: Filling): Parsed<Json>
    requires Safe(f)
  {
    if r.Malformed? then Malformed else Got(PutJson(r.value, f), PutTokens(r.rest, f))
  }

  lemma {:induction false} ParseValuePut(ts: seq<Token>, f: Filling)
    requires Safe(f)
    ensures ParseValue(PutTokens(ts, f)) == PutValue(ParseValue(ts), f)
    decreases |ts|, 1
  {
    if ts != [] {
      PutDrop(ts, 1, f);
      if ts[0] == Mark('{') {
        if |ts| > 1 && ts[1] == Mark('}') {
          PutDrop(ts, 2, f);
        } else {
          ParseMembersPut(ts[1..], f);
        }
      } else if ts[0] == Mark('[') {
        if |ts| > 1 && ts[1] == Mark(']') {
          PutDrop(ts, 2, f);
        } else {
          ParseItemsPut(ts[1..], f);
        }
      }
    }
  }

  lemma {:induction false} ParseMembersPut(ts: seq<Token>, f: Filling)
    requires Safe(f)
    ensures ParseMembers(PutTokens(ts, f)) ==
            (var r := ParseMembers(ts); if r.Malformed? then Malformed else Got(PutMembers(r.value, f), PutTokens(r.rest, f)))
    decreases |ts|, 2
  {
    if |ts| >= 2 && ts[0].Quoted? && ts[1] == Mark(':') {
      PutDrop(ts, 2, f);
      ParseValuePut(ts[2..], f);
      var v := ParseValue(ts[2..]);
      if v.Got? && v.rest != [] {
        PutDrop(v.rest, 1, f);
        var m := Member(ts[0].content, v.value);
        if v.rest[0] == Mark('}') {
          PutOneMember(m, f);
        } else if v.rest[0] == Mark(',') {
          ParseMembersPut(v.rest[1..], f);
          var more := ParseMembers(v.rest[1..]);
          if more.Got? {
            PutMembersCons(m, more.value, f);
          }
        }
      }
    }
  }

  lemma {:induction false} ParseItemsPut(ts: seq<Token>, f: Filling)
    requires Safe(f)
    ensures ParseItems(PutTokens(ts, f)) ==
            (var r := ParseItems(ts); if r.Malformed? then Malformed else Got(PutItems(r.value, f), PutTokens(r.rest, f)))
    decreases |ts|, 2
  {
    ParseValuePut(ts, f);
    var v := ParseValue(ts);
    if v.Got? && v.rest != [] {
      PutDrop(v.rest, 1, f);
      if v.rest[0] == Mark(']') {
        PutOneItem(v.value, f);
      } else if v.rest[0] == Mark(',') {
        ParseItemsPut(v.rest[1..], f);
        var more := ParseItems(v.rest[1..]);
        if more.Got? {
          PutItemsCons(v.value, more.value, f);
        }
      }
    }
  }

  /** The document of a filled text is the filled document. */
  lemma ParsePut(l: Lexer, f: Filling)
    requires Safe(f)
    ensures Parse(PutLexer(l, f)) == PutValue(Parse(l), f)
  {
    if l.At? {
      ParseValuePut(l.tokens, f);
    }
  }

  // ----- decoding a string -----

  function Codes(s: string): seq<int> {
    seq(|s|, i requires 0 <= i < |s| => s[i] as int)
  }

  function HexValue(x: Symbol): int {
    if x.Hole? then 0
    else if '0' <= x.c <= '9' then x.c as int - '0' as int
    else if 'a' <= x.c <= 'f' then x.c as int - 'a' as int + 10
    else if 'A' <= x.c <= 'F' then x.c as int - 'A' as int + 10 else 0
  }

  predicate IsUnicodeEscape(s: Text) {
    |s| >= 6 && s[0] == Lit('\\') && s[1] == Lit('u')
  }

  /** The code unit of a leading `\u` escape, or -1. */
  function Unit(s: Text): int {
    if IsUnicodeEscape(s) then
      0x1000 * HexValue(s[2]) + 0x100 * HexValue(s[3]) + 0x10 * HexValue(s[4]) + HexValue(s[5])
    else -1
  }

  function Simple(x: Symbol): int {
    if x.Hole? then 0
    else if x.c == 'b' then 8 else if x.c == 'f' then 12 else if x.c == 'n' then 10
    else if x.c == 'r' then 13 else if x.c == 't' then 9 else x.c as int
  }

  /** How much of the text the first code unit takes. */
  function Width(s: Text): (n: nat)
    requires s != []
    ensures 1 <= n <= |s|
  {
    if s[0] != Lit('\\') || |s| == 1 then 1 else if IsUnicodeEscape(s) then 6 else 2
  }

  function First(s: Text): seq<int>
    requires s != []
  {
    if s[0].Hole? then []
    else if s[0].c != '\\' then [s[0].c as int]
    else if |s| == 1 then []
    else if IsUnicodeEscape(s) then [Unit(s)] else [Simple(s[1])]
  }

  /** The code units of a string, escapes undone one by one. */
  function Units(s: Text): seq<int>
    decreases |s|
  {
    if s == [] then [] else First(s) + Units(s[Width(s)..])
  }

  predicate IsSurrogate(u: int) {
    0xD800 <= u < 0xE000
  }

  predicate IsPair(u: int, v: int) {
    0xD800 <= u < 0xDC00 <= v < 0xE000
  }

  /** A high surrogate joins the low one after it; any other surrogate becomes U+FFFD. */
  function Paired(u: seq<int>): seq<int> {
    if u == [] then []
    else if |u| > 1 && IsPair(u[0], u[1]) then
      [0x10000 + (u[0] - 0xD800) * 0x400 + (u[1] - 0xDC00)] + Paired(u[2..])
    else [if IsSurrogate(u[0]) then 0xFFFD else u[0]] + Paired(u[1..])
  }

  function Decode(s: Text): seq<int> {
    Paired(Units(s))
  }

  lemma Unfold(s: Text, head: seq<int>, n: nat, rest: Text)
    requires s != [] && First(s) == head && Width(s) == n && s[n..] == rest
    ensures Units(s) == head + Units(rest)
  {
  }

  lemma DropConcat(a: Text, b: Text, n: nat)
    requires n <= |a|
    ensures (a + b)[n..] == a[n..] + b
  {
  }

  lemma Reassociate(a: seq<int>, b: seq<int>, c: seq<int>)
    ensures a + (b + c) == (a + b) + c
  {
  }

  lemma HexTail(s: Text, n: nat)
    requires n <= 3 && Modes(Hex(n), s) == Plain
    ensures |s| >= 4 - n && Modes(Plain, s[4 - n..]) == Plain
    decreases 4 - n
  {
    if IsHex(if s[0].Lit? then s[0].c else ' ') {
      if n < 3 {
        HexTail(s[1..], n + 1);
        assert s[1..][3 - n..] == s[4 - n..];
      }
    } else {
      BadStays(s[1..]);
    }
  }

  /** A closed string has no escape cut short. */
  lemma EscapeEnds(s: Text)
    requires s != [] && s[0] == Lit('\\') && Modes(Plain, s) == Plain
    ensures |s| >= 2
    ensures if s[1] == Lit('u') then |s| >= 6 && Modes(Plain, s[6..]) == Plain else Modes(Plain, s[2..]) == Plain
  {
    assert Modes(Slash, s[1..]) == Plain;
    assert s[1..][1..] == s[2..];
    if s[1] == Lit('u') {
      HexTail(s[2..], 0);
      assert s[2..][4..] == s[6..];
    } else if Next(Slash, s[1]) == Bad {
      BadStays(s[2..]);
    }
  }

  lemma FirstEnds(s: Text)
    requires s != [] && Modes(Plain, s) == Plain
    ensures Modes(Plain, s[Width(s)..]) == Plain
  {
    if s[0] != Lit('\\') {
      if Next(Plain, s[0]) == Bad {
        BadStays(s[1..]);
      }
    } else {
      EscapeEnds(s);
    }
  }

  lemma FirstConcat(a: Text, b: Text)
    requires a != [] && Modes(Plain, a) == Plain
    ensures First(a + b) == First(a) && Width(a + b) == Width(a)
  {
    if a[0] == Lit('\\') {
      EscapeEnds(a);
    }
  }

  lemma {:induction false} UnitsConcat(a: Text, b: Text)
    requires Modes(Plain, a) == Plain
    ensures Units(a + b) == Units(a) + Units(b)
    decreases |a|
  {
    if a == [] {
      assert a + b == b;
    } else {
      FirstEnds(a);
      FirstConcat(a, b);
      DropConcat(a, b, Width(a));
      UnitsConcat(a[Width(a)..], b);
      Reassociate(First(a), Units(a[Width(a)..]), Units(b));
    }
  }

  lemma {:induction false} PairedConcat(u: seq<int>, v: seq<int>)
    requires v == [] || !IsSurrogate(v[0])
    ensures Paired(u + v) == Paired(u) + Paired(v)
  {
    if u == [] {
      assert u + v == v;
    } else if |u| > 1 && IsPair(u[0], u[1]) {
      assert (u + v)[2..] == u[2..] + v;
      PairedConcat(u[2..], v);
    } else {
      assert (u + v)[1..] == u[1..] + v;
      PairedConcat(u[1..], v);
    }
  }

  lemma {:induction false} PairedPlain(u: seq<int>, v: seq<int>)
    requires forall i :: 0 <= i < |u| ==> !IsSurrogate(u[i])
    ensures Paired(u + v) == u + Paired(v)
  {
    if u == [] {
      assert u + v == v;
    } else {
      assert (u + v)[1..] == u[1..] + v && u == [u[0]] + u[1..];
      PairedPlain(u[1..], v);
    }
  }

  // ----- escaping and decoding -----

  lemma UnicodeEscapeUnit(c: char)
    requires |EscapeChar(c)| == 6
    ensures IsUnicodeEscape(Lits(EscapeChar(c))) && Unit(Lits(EscapeChar(c))) == c as int
  {
  }

  lemma EscapeCharUnits(c: char)
    ensures Units(Lits(EscapeChar(c))) == [c as int]
  {
    var e := Lits(EscapeChar(c));
    if |e| == 6 {
      UnicodeEscapeUnit(c);
    }
    assert e[|e|..] == [];
    Unfold(e, [c as int], |e|, []);
  }

  lemma {:induction false} EscapeUnits(v: string)
    ensures Units(Lits(Escape(v))) == Codes(v)
  {
    if v != "" {
      EscapeUnits(v[1..]);
      LitsConcat(EscapeChar(v[0]), Escape(v[1..]));
      EscapeCharIsPlain(v[0]);
      UnitsConcat(Lits(EscapeChar(v[0])), Lits(Escape(v[1..])));
      EscapeCharUnits(v[0]);
      assert Codes(v) == [v[0] as int] + Codes(v[1..]);
    }
  }

  lemma CharactersArePlain(v: string)
    ensures forall i :: 0 <= i < |v| ==> !IsSurrogate(Codes(v)[i])
  {
  }

  /** Decoding undoes escaping. */
  lemma EscapeDecodes(v: string)
    ensures Decode(Lits(Escape(v))) == Codes(v)
  {
    EscapeUnits(v);
    CharactersArePlain(v);
    PairedPlain(Codes(v), []);
    assert Codes(v) + [] == Codes(v);
  }

  // ----- a marked hole shows -----

  predicate Contains(s: seq<int>, t: seq<int>) {
    t <= s || (s != [] && Contains(s[1..], t))
  }

  lemma {:induction false} ContainsMiddle(a: seq<int>, b: seq<int>, c: seq<int>)
    ensures Contains(a + (b + c), b)
  {
    if a == [] {
      assert a + (b + c) == b + c;
    } else {
      ContainsMiddle(a[1..], b, c);
      assert (a + (b + c))[1..] == a[1..] + (b + c);
    }
  }

  lemma HolePrefix(c: Content, i: nat)
    requires i < |c| && c[i].Hole?
    ensures Modes(Plain, c[..i]) == Plain
  {
    ModesConcat(Plain, c[..i], c[i..]);
    assert c == c[..i] + c[i..];
    if Modes(Plain, c[..i]) != Plain {
      BadStays(c[i..][1..]);
    }
  }

  lemma PutAround(c: Text, i: nat, marker: string)
    requires i < |c| && c[i].Hole?
    ensures Put(c, Always(marker)) == Put(c[..i], Always(marker)) + (Lits(marker) + Put(c[i + 1..], Always(marker)))
  {
    var rest := [c[i]] + c[i + 1..];
    assert c == c[..i] + rest && rest[1..] == c[i + 1..];
    PutConcat(c[..i], rest, Always(marker));
  }

  lemma HoleShows(c: Content, i: nat, marker: string)
    requires i < |c| && c[i].Hole? && Marker(marker) && Safe(Always(marker))
    ensures Contains(Decode(Put(c, Always(marker))), Codes(marker))
  {
    var pre, post := Put(c[..i], Always(marker)), Put(c[i + 1..], Always(marker));
    PutAround(c, i, marker);
    HolePrefix(c, i);
    PutModes(Plain, c[..i], Always(marker));
    UnitsConcat(pre, Lits(marker) + post);
    LettersAreContent(marker);
    UnitsConcat(Lits(marker), post);
    EscapeUnits(marker);
    MarkedUnits(Units(pre), marker, Units(post));
  }

  lemma MarkedUnits(pre: seq<int>, marker: string, post: seq<int>)
    requires marker != ""
    ensures Contains(Paired(pre + (Codes(marker) + post)), Codes(marker))
  {
    CharactersArePlain(marker);
    PairedConcat(pre, Codes(marker) + post);
    PairedPlain(Codes(marker), post);
    ContainsMiddle(Paired(pre), Codes(marker), Paired(post));
  }

  /** A string is marked exactly when it has a hole, or holds the marker as it is. */
  lemma MarkedExactly(c: Content, marker: string)
    requires Marker(marker) && Safe(Always(marker))
    ensures Contains(Decode(Put(c, Always(marker))), Codes(marker)) <==>
            !HoleFree(c) || Contains(Decode(c), Codes(marker))
  {
    if HoleFree(c) {
      PutHoleFree(c, Always(marker));
    } else {
      var x :| x in c && x.Hole?;
      var i :| 0 <= i < |c| && c[i] == x;
      HoleShows(c, i, marker);
    }
  }
}
