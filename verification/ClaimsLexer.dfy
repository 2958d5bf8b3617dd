/** The JSON lexer, run over text with holes. When it accepts, every caller's text
    lexes to the same tokens with the holes of their strings filled. */
module ClaimsLexer {
  import opened ClaimsText

  datatype Token = Mark(c: char) | Word(w: string) | Quoted(content: Content)

  /** String content that is still open. */
  type Unfinished = c: Text | Modes(Plain, c) != Bad witness []

  datatype State = Out | InWord(w: string) | InString(content: Unfinished)

  datatype Lexer = Fail | At(state: State, tokens: seq<Token>)

  const START := At(Out, [])

  /** The characters of `true`, `false`, `null` and the numbers. */
  predicate InAlphabet(c: char) {
    '0' <= c <= '9' || c in "truefalsn" || c in "+-.E"
  }

  predicate IsMark(c: char) {
    c in "{}[]:,"
  }

  predicate IsSpace(c: char) {
    c in " \t\r\n"
  }

  function Flushed(state: State, tokens: seq<Token>): seq<Token> {
    if state.InWord? then tokens + [Word(state.w)] else tokens
  }

  function FeedOutside(state: State, tokens: seq<Token>, x: Symbol): Lexer {
    match x
    case Hole(_) => Fail
    case Lit(c) =>
      var done := Flushed(state, tokens);
      if c == '"' then At(InString([]), done)
      else if IsMark(c) then At(Out, done + [Mark(c)])
      else if IsSpace(c) then At(Out, done)
      else if InAlphabet(c) then At(InWord((if state.InWord? then state.w else "") + [c]), tokens)
      else Fail
  }

  function FeedString(content: Unfinished, tokens: seq<Token>, x: Symbol): Lexer {
    var m := Modes(Plain, content);
    ModesSnoc(Plain, content, x);
    if x == Lit('"') && m == Plain then At(Out, tokens + [Quoted(content)])
    else if Next(m, x) == Bad then Fail
    else At(InString(content + [x]), tokens)
  }

  function Feed(l: Lexer, x: Symbol): Lexer {
    if l.Fail? then Fail
    else if l.state.InString? then FeedString(l.state.content, l.tokens, x)
    else FeedOutside(l.state, l.tokens, x)
  }

  function FeedAll(l: Lexer, s: Text): Lexer
    decreases s
  {
    if s == [] then l else FeedAll(Feed(l, s[0]), s[1..])
  }

  /** The tokens, unless the text ends inside a string. */
  function Tokens(l: Lexer): Lexer {
    if l.Fail? || l.state.InString? then Fail else At(Out, Flushed(l.state, l.tokens))
  }

  function Lex(s: Text): Lexer {
    Tokens(FeedAll(START, s))
  }

  lemma {:induction false} FeedConcat(l: Lexer, a: Text, b: Text)
    ensures FeedAll(l, a + b) == FeedAll(FeedAll(l, a), b)
    decreases a
  {
    if a == [] {
      assert a + b == b;
    } else {
      FeedConcat(Feed(l, a[0]), a[1..], b);
      assert (a + b)[0] == a[0] && (a + b)[1..] == a[1..] + b;
    }
  }

  lemma FeedOne(l: Lexer, x: Symbol)
    ensures FeedAll(l, [x]) == Feed(l, x)
  {
    assert [x][1..] == [];
  }

  lemma {:induction false} FailStays(s: Text)
    ensures FeedAll(Fail, s) == Fail
  {
    if s != [] {
      FailStays(s[1..]);
    }
  }

  // ----- filling the holes -----

  function PutContent(c: Content, f: Filling): Content
    requires Safe(f)
  {
    PutModes(Plain, c, f);
    Put(c, f)
  }

  function PutToken(t: Token, f: Filling): Token
    requires Safe(f)
  {
    if t.Quoted? then Quoted(PutContent(t.content, f)) else t
  }

  function PutTokens(ts: seq<Token>, f: Filling): seq<Token>
    requires Safe(f)
  {
    seq(|ts|, i requires 0 <= i < |ts| => PutToken(ts[i], f))
  }

  function PutState(state: State, f: Filling): State
    requires Safe(f)
  {
    if state.InString? then
      PutModes(Plain, state.content, f);
      InString(Put(state.content, f))
    else state
  }

  function PutLexer(l: Lexer, f: Filling): Lexer
    requires Safe(f)
  {
    if l.Fail? then Fail else At(PutState(l.state, f), PutTokens(l.tokens, f))
  }

  lemma PutTokensSnoc(ts: seq<Token>, t: Token, f: Filling)
    requires Safe(f)
    ensures PutTokens(ts + [t], f) == PutTokens(ts, f) + [PutToken(t, f)]
  {
  }

  lemma PutFlushed(state: State, ts: seq<Token>, f: Filling)
    requires Safe(f) && !state.InString?
    ensures PutTokens(Flushed(state, ts), f) == Flushed(state, PutTokens(ts, f))
  {
    if state.InWord? {
      PutTokensSnoc(ts, Word(state.w), f);
    }
  }

  /** Content goes into an open string whole. */
  lemma {:induction false} StaysInString(content: Unfinished, tokens: seq<Token>, s: Text)
    requires Modes(Modes(Plain, content), s) != Bad
    ensures Modes(Plain, content + s) != Bad
    ensures FeedAll(At(InString(content), tokens), s) == At(InString(content + s), tokens)
    decreases s
  {
    ModesConcat(Plain, content, s);
    if s == [] {
      assert content + s == content;
    } else {
      ModesSnoc(Plain, content, s[0]);
      if Next(Modes(Plain, content), s[0]) == Bad {
        BadStays(s[1..]);
      } else {
        StaysInString(content + [s[0]], tokens, s[1..]);
        assert (content + [s[0]]) + s[1..] == content + s;
      }
    }
  }

  lemma FeedOutsidePut(state: State, tokens: seq<Token>, x: Symbol, f: Filling)
    requires Safe(f) && !state.InString? && FeedOutside(state, tokens, x).At?
    ensures FeedOutside(state, PutTokens(tokens, f), x) == PutLexer(FeedOutside(state, tokens, x), f)
  {
    PutFlushed(state, tokens, f);
    PutTokensSnoc(Flushed(state, tokens), Mark(x.c), f);
  }

  lemma FeedStringPut(content: Unfinished, tokens: seq<Token>, x: Symbol, f: Filling)
    requires Safe(f) && FeedString(content, tokens, x).At?
    ensures FeedAll(PutLexer(At(InString(content), tokens), f), PutOne(x, f)) ==
            PutLexer(FeedString(content, tokens, x), f)
  {
    PutModes(Plain, content, f);
    PutSnoc(content, x, f);
    if x == Lit('"') && Modes(Plain, content) == Plain {
      FeedOne(PutLexer(At(InString(content), tokens), f), x);
      PutTokensSnoc(tokens, Quoted(content), f);
    } else {
      if x.Lit? {
        assert [x][1..] == [];
      }
      StaysInString(Put(content, f), PutTokens(tokens, f), PutOne(x, f));
    }
  }

  lemma FeedPut(l: Lexer, x: Symbol, f: Filling)
    requires Safe(f) && Feed(l, x).At?
    ensures FeedAll(PutLexer(l, f), PutOne(x, f)) == PutLexer(Feed(l, x), f)
  {
    if l.state.InString? {
      FeedStringPut(l.state.content, l.tokens, x, f);
    } else {
      FeedOutsidePut(l.state, l.tokens, x, f);
      FeedOne(PutLexer(l, f), x);
    }
  }

  lemma {:induction false} FeedAllPut(l: Lexer, s: Text, f: Filling)
    requires Safe(f) && FeedAll(l, s).At?
    ensures FeedAll(PutLexer(l, f), Put(s, f)) == PutLexer(FeedAll(l, s), f)
    decreases s
  {
    if s != [] {
      if Feed(l, s[0]).Fail? {
        FailStays(s[1..]);
      } else {
        FeedPut(l, s[0], f);
        FeedAllPut(Feed(l, s[0]), s[1..], f);
        FeedConcat(PutLexer(l, f), PutOne(s[0], f), Put(s[1..], f));
      }
    }
  }

  /** Every caller's text has the tokens of the template, filled in. */
  lemma LexPut(s: Text, f: Filling)
    requires Safe(f) && Lex(s).At?
    ensures Lex(Put(s, f)) == PutLexer(Lex(s), f)
  {
    FeedAllPut(START, s, f);
    assert PutLexer(START, f) == START;
    var l := FeedAll(START, s);
    PutFlushed(l.state, l.tokens, f);
  }

  // ----- what one rendering says about all of them -----

  const SENTINEL := "caller-supplied-value-sentinel"

  /** All that the arguments use of the sentinel: how it begins, and that it is of
      lower-case letters and dashes. */
  predicate Marker(value: string) {
    |value| > 3 && value[0] == 'c' && value[1] == 'a' && value[2] == 'l' && Letters(value)
  }

  predicate Letters(value: string) {
    forall i :: 0 <= i < |value| ==> 'a' <= value[i] <= 'z' || value[i] == '-'
  }

  /** A value that no place but the inside of a string admits. */
  const PROBE := "z"

  lemma SentinelIsMarker()
    ensures Marker(SENTINEL)
  {
  }

  function Always(value: string): Filling {
    k => Lits(value)
  }

  /** Two or three digits of a `\u` escape have been read. */
  predicate InLateHex(l: Lexer) {
    l.At? && l.state.InString? && (Modes(Plain, l.state.content) == Hex(2) || Modes(Plain, l.state.content) == Hex(3))
  }

  /** A hole stands after the second or third digit of a `\u` escape. */
  predicate HoleInEscape(l: Lexer, s: Text)
    decreases s
  {
    s != [] && ((s[0].Hole? && InLateHex(l)) || HoleInEscape(Feed(l, s[0]), s[1..]))
  }

  lemma {:induction false} LettersAreContent(value: string)
    requires Letters(value)
    ensures Escape(value) == value && Modes(Plain, Lits(value)) == Plain
  {
    if value != "" {
      LettersAreContent(value[1..]);
      assert Lits(value)[1..] == Lits(value[1..]);
      assert EscapeChar(value[0]) == [value[0]];
    }
  }

  lemma AlwaysSafe(value: string)
    requires Letters(value)
    ensures Safe(Always(value))
  {
    LettersAreContent(value);
  }

  lemma FeedThree(l: Lexer, marker: string)
    requires Marker(marker)
    ensures FeedAll(l, Lits(marker)) ==
            FeedAll(Feed(Feed(Feed(l, Lit('c')), Lit('a')), Lit('l')), Lits(marker)[3..])
  {
    var s := Lits(marker);
    assert s[1..][0] == Lit('a') && s[1..][1..] == s[2..] && s[2..][0] == Lit('l') && s[2..][1..] == s[3..];
    assert FeedAll(l, s) == FeedAll(Feed(Feed(l, Lit('c')), Lit('a')), s[2..]);
  }

  lemma HexThenLetters(l: Lexer)
    requires l.At? && l.state.InString? && (Modes(Plain, l.state.content) == Hex(0) || Modes(Plain, l.state.content) == Hex(1))
    ensures Feed(Feed(Feed(l, Lit('c')), Lit('a')), Lit('l')).Fail?
  {
    ModesSnoc(Plain, l.state.content, Lit('c'));
    ModesSnoc(Plain, l.state.content + [Lit('c')], Lit('a'));
  }

  lemma HexDigitCount(s: Text)
    requires Modes(Plain, s).Hex?
    ensures Modes(Plain, s).digits <= 3
  {
    HexBound(Plain, s);
  }

  lemma {:induction false} HexBound(m: Mode, s: Text)
    requires m.Hex? ==> m.digits <= 3
    ensures Modes(m, s).Hex? ==> Modes(m, s).digits <= 3
    decreases s
  {
    if s != [] {
      HexBound(Next(m, s[0]), s[1..]);
    }
  }

  /** A value that shows wherever a hole is refused: the probe always does, and a marker
      does unless two or three hex digits stand before it. */
  predicate Shows(value: string, l: Lexer) {
    value == PROBE || (Marker(value) && !InLateHex(l))
  }

  lemma ShowsThenTrips(l: Lexer, key: string, value: string)
    requires l.At? && Feed(l, Hole(key)).Fail? && Shows(value, l)
    ensures FeedAll(l, Lits(value)).Fail?
  {
    if value == PROBE {
      assert Lits(value) == [Lit('z')];
      FeedOne(l, Lit('z'));
    } else {
      FeedThree(l, value);
      if l.state.InString? && Modes(Plain, l.state.content).Hex? {
        HexDigitCount(l.state.content);
        HexThenLetters(l);
      } else {
        assert Feed(l, Lit('c')).Fail?;
      }
      FailStays(Lits(value)[3..]);
    }
  }

  lemma RefusedThenTrips(l: Lexer, x: Symbol, value: string)
    requires Letters(value) && Safe(Always(value)) && l.At? && Feed(l, x).Fail?
    requires x.Hole? ==> Shows(value, l)
    ensures FeedAll(PutLexer(l, Always(value)), PutOne(x, Always(value))).Fail?
  {
    var f := Always(value);
    if l.state.InString? {
      PutModes(Plain, l.state.content, f);
    }
    if x.Lit? {
      FeedOne(PutLexer(l, f), x);
    } else {
      ShowsThenTrips(PutLexer(l, f), x.key, value);
    }
  }

  /** When the rendering with such a value is accepted, so is the text with its holes. */
  lemma {:induction false} RenderingReflects(l: Lexer, s: Text, value: string)
    requires Letters(value) && Safe(Always(value)) && l.At?
    requires value == PROBE || (Marker(value) && !HoleInEscape(l, s))
    requires FeedAll(PutLexer(l, Always(value)), Put(s, Always(value))).At?
    ensures FeedAll(l, s).At?
    decreases s
  {
    if s != [] {
      var f := Always(value);
      FeedConcat(PutLexer(l, f), PutOne(s[0], f), Put(s[1..], f));
      if Feed(l, s[0]).At? {
        FeedPut(l, s[0], f);
        RenderingReflects(Feed(l, s[0]), s[1..], value);
      } else {
        RefusedThenTrips(l, s[0], value);
        FailStays(Put(s[1..], f));
      }
    }
  }

  lemma {:induction false} HoleInEscapeFails(l: Lexer, s: Text)
    requires HoleInEscape(l, s)
    ensures FeedAll(l, s).Fail?
    decreases s
  {
    if s[0].Hole? && InLateHex(l) {
      FailStays(s[1..]);
    } else {
      HoleInEscapeFails(Feed(l, s[0]), s[1..]);
    }
  }

  lemma {:induction false} PutSame(s: Text, f: Filling, g: Filling)
    requires forall k :: f(k) == g(k)
    ensures Put(s, f) == Put(s, g)
  {
    if s != [] {
      PutSame(s[1..], f, g);
    }
  }

  /** One accepted rendering vouches for every caller exactly when no hole stands after
      the second or third digit of a `\u` escape. */
  lemma EveryCallerLexesExactly(s: Text, marker: string)
    requires Marker(marker) && FeedAll(START, Put(s, Always(marker))).At?
    ensures (forall values: string -> string :: FeedAll(START, Put(s, Escaped(values))).At?) <==>
            !HoleInEscape(START, s)
  {
    AlwaysSafe(marker);
    if HoleInEscape(START, s) {
      HoleInEscapeFails(START, s);
      var values: string -> string := k => PROBE;
      AlwaysSafe(PROBE);
      LettersAreContent(PROBE);
      PutSame(s, Always(PROBE), Escaped(values));
      if FeedAll(START, Put(s, Escaped(values))).At? {
        assert PutLexer(START, Always(PROBE)) == START;
        RenderingReflects(START, s, PROBE);
      }
    } else {
      assert PutLexer(START, Always(marker)) == START;
      RenderingReflects(START, s, marker);
      forall values: string -> string
        ensures FeedAll(START, Put(s, Escaped(values))).At?
      {
        EscapedIsSafe(values);
        FeedAllPut(START, s, Escaped(values));
        assert PutLexer(START, Escaped(values)) == START;
      }
    }
  }
}
