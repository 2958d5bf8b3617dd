/** The canonical form reads back as the attributes it was printed from exactly when no
    attribute but the last ends inside an escape. On such names it is stable, and two names
    share it exactly when they hold the same attributes, whatever their order and spelling. */
module NameEquivalence {
  import opened NameOrder
  import opened DistinguishedNames

  // ----- escapes -----

  /** Whether the character after `c` is escaped. */
  predicate Next(c: char, escaped: bool) {
    !escaped && c == '\\'
  }

  /** Whether a text ends inside an escape. */
  predicate Ends(s: string, escaped: bool)
    decreases s
  {
    if s == "" then escaped else Ends(s[1..], Next(s[0], escaped))
  }

  predicate Cuts(c: char, separators: set<char>, escaped: bool) {
    !escaped && c != '\\' && c in separators
  }

  /** No unescaped separator. */
  predicate Free(s: string, separators: set<char>, escaped: bool)
    decreases s
  {
    s == "" || (!Cuts(s[0], separators, escaped) && Free(s[1..], separators, Next(s[0], escaped)))
  }

  lemma {:induction false} ScanConcat(a: string, b: string, separators: set<char>, escaped: bool)
    ensures Ends(a + b, escaped) == Ends(b, Ends(a, escaped))
    ensures Free(a + b, separators, escaped) <==>
            Free(a, separators, escaped) && Free(b, separators, Ends(a, escaped))
    decreases a
  {
    if a == "" {
      assert a + b == b;
    } else {
      assert (a + b)[0] == a[0] && (a + b)[1..] == a[1..] + b;
      ScanConcat(a[1..], b, separators, Next(a[0], escaped));
    }
  }

  lemma {:induction false} PlainIsFree(s: string, separators: set<char>)
    requires forall c :: c in s ==> c != '\\' && c !in separators
    ensures Free(s, separators, false) && !Ends(s, false)
  {
    if s != "" {
      assert s[0] in s && forall c :: c in s[1..] ==> c in s;
      PlainIsFree(s[1..], separators);
    }
  }

  /** Only what can separate. */
  predicate Separating(separators: set<char>) {
    separators <= SEPARATORS
  }

  lemma {:induction false} LowerScans(u: Charset, s: string, escaped: bool)
    requires Sane(u)
    ensures Ends(Lower(u, s), escaped) == Ends(s, escaped)
    ensures Free(Lower(u, s), SEPARATORS, escaped) == Free(s, SEPARATORS, escaped)
    decreases s
  {
    if s != "" {
      assert Special(s[0]) || Special(u.lower(s[0])) ==> u.lower(s[0]) == s[0];
      assert Lower(u, s)[1..] == Lower(u, s[1..]);
      LowerScans(u, s[1..], Next(s[0], escaped));
    }
  }

  lemma {:induction false} TrimLeftIsFree(u: Charset, s: string)
    requires Sane(u) && Free(s, SEPARATORS, false)
    ensures Free(TrimLeft(u, s), SEPARATORS, false)
  {
    if s != "" && u.space(s[0]) {
      SpaceIsNoSeparator(u, s[0], SEPARATORS);
      TrimLeftIsFree(u, s[1..]);
    }
  }

  lemma TrimIsFree(u: Charset, s: string)
    requires Sane(u) && Free(s, SEPARATORS, false)
    ensures Free(Trim(u, s), SEPARATORS, false)
  {
    var t := TrimLeft(u, s);
    var r := TrimRight(u, t);
    TrimLeftIsFree(u, s);
    TrimRightIsPrefix(u, t);
    assert t == r + t[|r|..];
    ScanConcat(r, t[|r|..], SEPARATORS, false);
  }

  // ----- all attributes at once -----

  function Flat(u: Charset, dn: string): seq<Attribute> {
    PartAttributes(u, dn, SEPARATORS, false, "")
  }

  function PartAttributes(u: Charset, s: string, separators: set<char>, escaped: bool, current: string): seq<Attribute> {
    AttributesOf(u, Pieces(s, separators, escaped, current))
  }

  // ----- spaces at the ends -----

  lemma SpaceIsNoSeparator(u: Charset, c: char, separators: set<char>)
    requires Sane(u) && Separating(separators) && u.space(c)
    ensures c !in separators && c != '\\' && c != '='
  {
    assert Special(c) ==> u.lower(c) == c && !u.space(c);
  }

  lemma PartsCons(u: Charset, part: string, rest: seq<string>)
    ensures AttributesOf(u, [part] + rest) == AttributeOf(u, part) + AttributesOf(u, rest)
  {
    assert ([part] + rest)[1..] == rest;
  }

  lemma SpacesHaveNoAttribute(u: Charset)
    ensures AttributeOf(u, "") == []
  {
    assert Trim(u, "") == "";
  }

  lemma LeadingSpace(u: Charset, c: char, part: string)
    requires u.space(c)
    ensures AttributeOf(u, [c] + part) == AttributeOf(u, part)
  {
    TrimIgnoresLeft(u, c, part);
  }

  lemma TrailingSpace(u: Charset, part: string, c: char)
    requires u.space(c)
    ensures AttributeOf(u, part + [c]) == AttributeOf(u, part)
  {
    TrimIgnoresRight(u, part, c);
  }

  lemma LastPiece(u: Charset, separators: set<char>, escaped: bool, current: string)
    ensures PartAttributes(u, "", separators, escaped, current) == AttributeOf(u, current)
  {
    SpacesHaveNoAttribute(u);
    if current != "" {
      OneAttribute(u, current);
    }
  }

  lemma {:induction false} SpaceFirst(u: Charset, c: char, s: string, separators: set<char>, escaped: bool, current: string)
    requires u.space(c)
    ensures PartAttributes(u, s, separators, escaped, [c] + current) == PartAttributes(u, s, separators, escaped, current)
    decreases s
  {
    if s == "" {
      LastPiece(u, separators, escaped, [c] + current);
      LastPiece(u, separators, escaped, current);
      LeadingSpace(u, c, current);
    } else if Cuts(s[0], separators, escaped) {
      LeadingSpace(u, c, current);
      PartsCons(u, [c] + current, Pieces(s[1..], separators, false, ""));
      PartsCons(u, current, Pieces(s[1..], separators, false, ""));
    } else {
      SpaceFirst(u, c, s[1..], separators, Next(s[0], escaped), current + [s[0]]);
      assert ([c] + current) + [s[0]] == [c] + (current + [s[0]]);
    }
  }

  lemma {:induction false} TrimLeftParts(u: Charset, s: string, separators: set<char>)
    requires Sane(u) && Separating(separators)
    ensures PartAttributes(u, TrimLeft(u, s), separators, false, "") == PartAttributes(u, s, separators, false, "")
  {
    if s != "" && u.space(s[0]) {
      SpaceIsNoSeparator(u, s[0], separators);
      assert "" + [s[0]] == [s[0]] + "";
      SpaceFirst(u, s[0], s[1..], separators, false, "");
      TrimLeftParts(u, s[1..], separators);
    }
  }

  lemma {:induction false} SpaceLast(u: Charset, s: string, c: char, separators: set<char>, escaped: bool, current: string)
    requires Sane(u) && Separating(separators) && u.space(c)
    ensures PartAttributes(u, s + [c], separators, escaped, current) == PartAttributes(u, s, separators, escaped, current)
    decreases s
  {
    if s == "" {
      SpaceIsNoSeparator(u, c, separators);
      assert s + [c] == [c] && [c][1..] == "";
      LastPiece(u, separators, Next(c, escaped), current + [c]);
      LastPiece(u, separators, escaped, current);
      TrailingSpace(u, current, c);
    } else {
      assert (s + [c])[0] == s[0] && (s + [c])[1..] == s[1..] + [c];
      if Cuts(s[0], separators, escaped) {
        SpaceLast(u, s[1..], c, separators, false, "");
        PartsCons(u, current, Pieces(s[1..] + [c], separators, false, ""));
        PartsCons(u, current, Pieces(s[1..], separators, false, ""));
      } else {
        SpaceLast(u, s[1..], c, separators, Next(s[0], escaped), current + [s[0]]);
      }
    }
  }

  lemma {:induction false} TrimRightParts(u: Charset, s: string, separators: set<char>)
    requires Sane(u) && Separating(separators)
    ensures PartAttributes(u, TrimRight(u, s), separators, false, "") == PartAttributes(u, s, separators, false, "")
  {
    if s != "" && u.space(s[|s| - 1]) {
      var front := s[..|s| - 1];
      assert s == front + [s[|s| - 1]];
      SpaceLast(u, front, s[|s| - 1], separators, false, "");
      TrimRightParts(u, front, separators);
    }
  }

  lemma TrimParts(u: Charset, s: string, separators: set<char>)
    requires Sane(u) && Separating(separators)
    ensures PartAttributes(u, Trim(u, s), separators, false, "") == PartAttributes(u, s, separators, false, "")
  {
    TrimLeftParts(u, s, separators);
    TrimLeftIsSuffix(u, s);
    TrimRightParts(u, TrimLeft(u, s), separators);
  }

  // ----- two levels of splitting are one -----

  lemma {:induction false} PartsAtSeparator(u: Charset, a: string, c: char, b: string, separators: set<char>, escaped: bool,
                                            current: string)
    requires !Ends(a, escaped) && c in separators && c != '\\'
    ensures PartAttributes(u, a + ([c] + b), separators, escaped, current) ==
            PartAttributes(u, a, separators, escaped, current) + PartAttributes(u, b, separators, false, "")
    decreases a
  {
    var s := a + ([c] + b);
    if a == "" {
      assert s == [c] + b && s[1..] == b;
      PartsCons(u, current, Pieces(b, separators, false, ""));
      LastPiece(u, separators, escaped, current);
    } else {
      assert s[0] == a[0] && s[1..] == a[1..] + ([c] + b);
      if Cuts(a[0], separators, escaped) {
        PartsAtSeparator(u, a[1..], c, b, separators, false, "");
        PartsCons(u, current, Pieces(s[1..], separators, false, ""));
        PartsCons(u, current, Pieces(a[1..], separators, false, ""));
        Regroup(AttributeOf(u, current), PartAttributes(u, a[1..], separators, false, ""),
                PartAttributes(u, b, separators, false, ""));
      } else {
        PartsAtSeparator(u, a[1..], c, b, separators, Next(a[0], escaped), current + [a[0]]);
      }
    }
  }

  lemma {:induction false} FewerSeparators(s: string, escaped: bool, current: string)
    requires Free(s, COMPONENT_SEPARATORS, escaped)
    ensures Pieces(s, PART_SEPARATORS, escaped, current) == Pieces(s, SEPARATORS, escaped, current)
    decreases s
  {
    if s != "" {
      if Cuts(s[0], PART_SEPARATORS, escaped) {
        FewerSeparators(s[1..], false, "");
      } else {
        FewerSeparators(s[1..], Next(s[0], escaped), current + [s[0]]);
      }
    }
  }

  lemma ComponentIsFlat(u: Charset, component: string)
    requires Sane(u) && Free(component, COMPONENT_SEPARATORS, false)
    ensures ComponentAttributes(u, component) == Flat(u, component)
  {
    TrimParts(u, component, PART_SEPARATORS);
    FewerSeparators(component, false, "");
  }

  lemma ParseOne(u: Charset, component: string)
    ensures ParseComponents(u, [component]) == ComponentAttributes(u, component)
  {
    assert [component][1..] == [];
  }

  lemma ParseCons(u: Charset, component: string, rest: seq<string>)
    ensures ParseComponents(u, [component] + rest) == ComponentAttributes(u, component) + ParseComponents(u, rest)
  {
    assert ([component] + rest)[1..] == rest;
  }

  lemma LastComponentIsFlat(u: Charset, escaped: bool, current: string)
    requires Sane(u) && Free(current, COMPONENT_SEPARATORS, false)
    ensures ParseComponents(u, Pieces("", COMPONENT_SEPARATORS, escaped, current)) == Flat(u, current)
  {
    ComponentIsFlat(u, current);
    if current == "" {
      assert Flat(u, "") == [];
    } else {
      ParseOne(u, current);
    }
  }

  lemma ComponentThenRest(u: Charset, current: string, c: char, rest: string, whole: string)
    requires Sane(u) && Free(current, COMPONENT_SEPARATORS, false) && !Ends(current, false)
    requires c in COMPONENT_SEPARATORS && whole == current + ([c] + rest)
    requires ParseComponents(u, Pieces(rest, COMPONENT_SEPARATORS, false, "")) == Flat(u, rest)
    ensures ParseComponents(u, [current] + Pieces(rest, COMPONENT_SEPARATORS, false, "")) == Flat(u, whole)
  {
    ComponentIsFlat(u, current);
    ParseCons(u, current, Pieces(rest, COMPONENT_SEPARATORS, false, ""));
    PartsAtSeparator(u, current, c, rest, SEPARATORS, false, "");
  }

  /** A split of `whole` that has read `current` of the present component. */
  predicate Splitting(s: string, current: string, whole: string, pieces: seq<string>) {
    Free(current, COMPONENT_SEPARATORS, false) && whole == current + s &&
    pieces == Pieces(s, COMPONENT_SEPARATORS, Ends(current, false), current)
  }

  lemma NextCharacter(s: string, current: string, whole: string, pieces: seq<string>)
    requires Splitting(s, current, whole, pieces)
    requires s != "" && !Cuts(s[0], COMPONENT_SEPARATORS, Ends(current, false))
    ensures Splitting(s[1..], current + [s[0]], whole, pieces)
  {
    ScanConcat(current, [s[0]], COMPONENT_SEPARATORS, false);
    assert [s[0]][1..] == "";
  }

  lemma NextComponent(s: string, current: string, whole: string, pieces: seq<string>) returns (rest: seq<string>)
    requires Splitting(s, current, whole, pieces)
    requires s != "" && Cuts(s[0], COMPONENT_SEPARATORS, Ends(current, false))
    ensures Splitting(s[1..], "", s[1..], rest) && pieces == [current] + rest
    ensures whole == current + ([s[0]] + s[1..])
  {
    rest := Pieces(s[1..], COMPONENT_SEPARATORS, false, "");
  }

  lemma {:induction false} ComponentsAreFlat(u: Charset, s: string, current: string, whole: string, pieces: seq<string>)
    requires Sane(u) && Splitting(s, current, whole, pieces)
    ensures ParseComponents(u, pieces) == Flat(u, whole)
    decreases s
  {
    if s == "" {
      assert whole == current;
      LastComponentIsFlat(u, Ends(current, false), current);
    } else if Cuts(s[0], COMPONENT_SEPARATORS, Ends(current, false)) {
      var rest := NextComponent(s, current, whole, pieces);
      ComponentsAreFlat(u, s[1..], "", s[1..], rest);
      ComponentThenRest(u, current, s[0], s[1..], whole);
    } else {
      NextCharacter(s, current, whole, pieces);
      ComponentsAreFlat(u, s[1..], current + [s[0]], whole, pieces);
    }
  }

  /** The canonical form is the sorted list of all attributes. */
  lemma CanonicalIsFlat(u: Charset, dn: string)
    requires Sane(u)
    ensures Canonical(u, dn) == Print(Sort(Flat(u, dn)))
  {
    TrimParts(u, dn, SEPARATORS);
    var t := Trim(u, dn);
    TrimTrims(u, dn);
    ComponentsAreFlat(u, t, "", t, Pieces(t, COMPONENT_SEPARATORS, false, ""));
  }

  // ----- attributes that stay as they are -----

  ghost predicate Normal(u: Charset, a: Attribute) {
    '=' !in a.kind && Free(a.kind, SEPARATORS, false) && NormalType(u, a.kind) == a.kind &&
    Free(a.value, SEPARATORS, false) && Trim(u, a.value) == a.value && Lower(u, a.value) == a.value
  }

  ghost predicate AllNormal(u: Charset, attrs: seq<Attribute>) {
    forall a :: a in attrs ==> Normal(u, a)
  }

  lemma LowerKeeps(u: Charset, s: string)
    requires Sane(u)
    ensures Lower(u, Lower(u, s)) == Lower(u, s)
    ensures IsTrim(u, s) ==> IsTrim(u, Lower(u, s))
    ensures '=' !in s ==> '=' !in Lower(u, s)
  {
    var l := Lower(u, s);
    forall i | 0 <= i < |s|
      ensures u.lower(l[i]) == l[i] && u.space(l[i]) == u.space(s[i]) && (Special(l[i]) ==> l[i] == s[i])
    {
      assert l[i] == u.lower(s[i]);
    }
  }

  lemma NamesAreFixed(u: Charset, name: string)
    requires Sane(u) && forall c :: c in name ==> NameChar(c)
    ensures Lower(u, name) == name && IsTrim(u, name) && '=' !in name && Free(name, SEPARATORS, false)
  {
    forall i | 0 <= i < |name| ensures u.lower(name[i]) == name[i] && !u.space(name[i]) {
      assert name[i] in name;
    }
    PlainIsFree(name, SEPARATORS);
  }

  lemma NormalTypeIsStable(u: Charset, kind: string)
    requires Sane(u) && '=' !in kind && Free(kind, SEPARATORS, false)
    ensures var n := NormalType(u, kind);
            NormalType(u, n) == n && Lower(u, n) == n && IsTrim(u, n) && '=' !in n && Free(n, SEPARATORS, false)
  {
    var t := Trim(u, kind);
    var l := Lower(u, t);
    TrimTrims(u, kind);
    TrimIsFree(u, kind);
    LowerKeeps(u, t);
    LowerScans(u, t, false);
    ShortNameIsStable(l);
    var n := ShortName(l);
    if n != l {
      NamesAreFixed(u, n);
    }
    TrimmedStays(u, n);
  }

  lemma ValueIsNormal(u: Charset, after: string)
    requires Sane(u) && Free(after, SEPARATORS, false)
    ensures var v := Lower(u, Trim(u, after));
            Free(v, SEPARATORS, false) && Trim(u, v) == v && Lower(u, v) == v &&
            Ends(v, false) == Ends(Trim(u, after), false)
  {
    var t := Trim(u, after);
    TrimTrims(u, after);
    TrimIsFree(u, after);
    LowerKeeps(u, t);
    LowerScans(u, t, false);
    TrimmedStays(u, Lower(u, t));
  }

  lemma SidesAreFree(p: string, i: nat)
    requires Free(p, SEPARATORS, false) && i < |p| && p[i] == '='
    ensures Free(p[..i], SEPARATORS, false) && Free(p[i + 1..], SEPARATORS, false)
  {
    assert p == p[..i] + p[i..] && p[i..][1..] == p[i + 1..];
    ScanConcat(p[..i], p[i..], SEPARATORS, false);
  }

  lemma SidesAreNormal(u: Charset, before: string, after: string)
    requires Sane(u) && '=' !in before && Free(before, SEPARATORS, false) && Free(after, SEPARATORS, false)
    ensures Normal(u, Attribute(NormalType(u, Trim(u, before)), Lower(u, Trim(u, after))))
  {
    TrimTrims(u, before);
    TrimIsFree(u, before);
    NormalTypeIsStable(u, Trim(u, before));
    ValueIsNormal(u, after);
  }

  lemma AttributeIsNormal(u: Charset, part: string)
    requires Sane(u) && Free(part, SEPARATORS, false)
    ensures AllNormal(u, AttributeOf(u, part))
  {
    var p := Trim(u, part);
    TrimIsFree(u, part);
    var i := EqualsAt(p);
    if i < |p| {
      SidesAreFree(p, i);
      SidesAreNormal(u, p[..i], p[i + 1..]);
    }
  }

  lemma {:induction false} FlatIsNormal(u: Charset, s: string, current: string)
    requires Sane(u) && Free(current, SEPARATORS, false)
    ensures AllNormal(u, PartAttributes(u, s, SEPARATORS, Ends(current, false), current))
    decreases s
  {
    if s == "" {
      LastPiece(u, SEPARATORS, Ends(current, false), current);
      AttributeIsNormal(u, current);
    } else if Cuts(s[0], SEPARATORS, Ends(current, false)) {
      FlatIsNormal(u, s[1..], "");
      PartsCons(u, current, Pieces(s[1..], SEPARATORS, false, ""));
      AttributeIsNormal(u, current);
    } else {
      assert [s[0]][1..] == "";
      ScanConcat(current, [s[0]], SEPARATORS, false);
      FlatIsNormal(u, s[1..], current + [s[0]]);
    }
  }

  // ----- names written out -----

  /** One attribute as someone may write it: any spelling and spacing around the equals
      sign, and the separator that follows it. */
  datatype Entry = Entry(before: string, after: string, separator: char)

  predicate WellWritten(e: Entry) {
    '=' !in e.before && Free(e.before, SEPARATORS, false) && Free(e.after, SEPARATORS, false) &&
    (e.separator == ',' || e.separator == ';' || e.separator == '+')
  }

  /** Every entry but the last ends outside an escape. */
  predicate Separated(es: seq<Entry>) {
    forall i :: 0 <= i < |es| - 1 ==> !Ends(es[i].after, false)
  }

  function Meaning(u: Charset, e: Entry): Attribute {
    Attribute(NormalType(u, e.before), Lower(u, Trim(u, e.after)))
  }

  function Body(e: Entry): string {
    e.before + "=" + e.after
  }

  function Written(es: seq<Entry>): string {
    if es == [] then ""
    else if |es| == 1 then Body(es[0])
    else Body(es[0]) + ([es[0].separator] + Written(es[1..]))
  }

  function Meanings(u: Charset, es: seq<Entry>): seq<Attribute> {
    seq(|es|, i requires 0 <= i < |es| => Meaning(u, es[i]))
  }

  lemma {:induction false} TrimLeftOfBody(u: Charset, before: string, rest: string)
    requires Sane(u)
    ensures TrimLeft(u, before + ("=" + rest)) == TrimLeft(u, before) + ("=" + rest)
  {
    if before == "" {
      assert Special('=');
      assert before + ("=" + rest) == "=" + rest;
    } else {
      assert (before + ("=" + rest))[1..] == before[1..] + ("=" + rest);
      TrimLeftOfBody(u, before[1..], rest);
    }
  }

  lemma {:induction false} TrimRightOfBody(u: Charset, front: string, after: string)
    requires Sane(u)
    ensures TrimRight(u, (front + "=") + after) == (front + "=") + TrimRight(u, after)
    decreases after
  {
    if after == "" {
      assert Special('=');
      assert (front + "=") + after == front + "=";
    } else {
      var rest := after[..|after| - 1];
      assert ((front + "=") + after)[..|front + "="| + |after| - 1] == (front + "=") + rest;
      TrimRightOfBody(u, front, rest);
    }
  }

  lemma {:induction false} TrimOfTrimLeft(u: Charset, s: string)
    ensures Trim(u, TrimLeft(u, s)) == Trim(u, s)
  {
    if s != "" && u.space(s[0]) {
      TrimOfTrimLeft(u, s[1..]);
    }
  }

  lemma {:induction false} TrimOfTrimRight(u: Charset, s: string)
    ensures Trim(u, TrimRight(u, s)) == Trim(u, s)
  {
    if s != "" && u.space(s[|s| - 1]) {
      var front := s[..|s| - 1];
      TrimOfTrimRight(u, front);
      TrimIgnoresRight(u, front, s[|s| - 1]);
      assert s == front + [s[|s| - 1]];
    }
  }

  lemma TrimTwice(u: Charset, s: string)
    ensures Trim(u, Trim(u, s)) == Trim(u, s)
  {
    TrimTrims(u, s);
    TrimmedStays(u, Trim(u, s));
  }

  lemma {:induction false} EqualsAfter(before: string, after: string)
    requires '=' !in before
    ensures EqualsAt(before + "=" + after) == |before|
  {
    var s := before + "=" + after;
    if before != "" {
      assert before[0] in before && s[0] == before[0];
      EqualsAfter(before[1..], after);
      assert s[1..] == before[1..] + "=" + after;
    }
  }

  lemma BodyTrims(u: Charset, e: Entry)
    requires Sane(u)
    ensures Trim(u, Body(e)) == TrimLeft(u, e.before) + "=" + TrimRight(u, e.after)
  {
    var b := TrimLeft(u, e.before);
    TrimLeftOfBody(u, e.before, e.after);
    assert Body(e) == e.before + ("=" + e.after);
    TrimRightOfBody(u, b, e.after);
    assert b + ("=" + e.after) == (b + "=") + e.after;
  }

  lemma SplitAtEquals(u: Charset, part: string, b: string, a: string)
    requires Trim(u, part) == b + "=" + a && '=' !in b
    ensures AttributeOf(u, part) == [Attribute(NormalType(u, Trim(u, b)), Lower(u, Trim(u, a)))]
  {
    EqualsAfter(b, a);
    assert Trim(u, part)[..|b|] == b && Trim(u, part)[|b| + 1..] == a;
  }

  lemma BodyMeans(u: Charset, e: Entry)
    requires Sane(u) && WellWritten(e)
    ensures AttributeOf(u, Body(e)) == [Meaning(u, e)]
  {
    var b, a := TrimLeft(u, e.before), TrimRight(u, e.after);
    BodyTrims(u, e);
    TrimLeftIsSuffix(u, e.before);
    assert forall c :: c in b ==> c in e.before;
    SplitAtEquals(u, Body(e), b, a);
    TrimOfTrimLeft(u, e.before);
    TrimTwice(u, e.before);
    TrimOfTrimRight(u, e.after);
  }

  lemma {:induction false} WholePart(u: Charset, s: string, escaped: bool, current: string)
    requires Free(s, SEPARATORS, escaped)
    ensures PartAttributes(u, s, SEPARATORS, escaped, current) == AttributeOf(u, current + s)
    decreases s
  {
    if s == "" {
      assert current + s == current;
      LastPiece(u, SEPARATORS, escaped, current);
    } else {
      WholePart(u, s[1..], Next(s[0], escaped), current + [s[0]]);
      assert (current + [s[0]]) + s[1..] == current + s;
    }
  }

  lemma BodyScans(before: string, after: string)
    requires Free(before, SEPARATORS, false) && Free(after, SEPARATORS, false)
    ensures Free(before + "=" + after, SEPARATORS, false)
    ensures Ends(before + "=" + after, false) == Ends(after, false)
  {
    assert before + "=" + after == before + ("=" + after) && ("=" + after)[1..] == after;
    ScanConcat(before, "=" + after, SEPARATORS, false);
  }

  lemma BodyIsFlat(u: Charset, e: Entry)
    requires Sane(u) && WellWritten(e)
    ensures Flat(u, Body(e)) == [Meaning(u, e)] && Ends(Body(e), false) == Ends(e.after, false)
  {
    BodyScans(e.before, e.after);
    WholePart(u, Body(e), false, "");
    assert "" + Body(e) == Body(e);
    BodyMeans(u, e);
  }

  lemma EntryThenRest(u: Charset, e: Entry, rest: string, attrs: seq<Attribute>)
    requires Sane(u) && WellWritten(e) && !Ends(e.after, false) && Flat(u, rest) == attrs
    ensures Flat(u, Body(e) + ([e.separator] + rest)) == [Meaning(u, e)] + attrs
  {
    BodyIsFlat(u, e);
    PartsAtSeparator(u, Body(e), e.separator, rest, SEPARATORS, false, "");
  }

  /** A name reads as what its entries mean. */
  lemma {:induction false} WrittenIsFlat(u: Charset, es: seq<Entry>)
    requires Sane(u) && (forall e :: e in es ==> WellWritten(e)) && Separated(es)
    ensures Flat(u, Written(es)) == Meanings(u, es)
  {
    if es == [] {
    } else if |es| == 1 {
      assert es[0] in es;
      BodyIsFlat(u, es[0]);
    } else {
      assert es[0] in es;
      WrittenIsFlat(u, es[1..]);
      EntryThenRest(u, es[0], Written(es[1..]), Meanings(u, es[1..]));
      assert Meanings(u, es) == [Meaning(u, es[0])] + Meanings(u, es[1..]);
    }
  }

  // ----- the canonical form -----

  function AsEntries(attrs: seq<Attribute>): seq<Entry> {
    seq(|attrs|, i requires 0 <= i < |attrs| => Entry(attrs[i].kind, attrs[i].value, ','))
  }

  lemma {:induction false} PrintIsWritten(attrs: seq<Attribute>)
    ensures Print(attrs) == Written(AsEntries(attrs))
  {
    if |attrs| > 1 {
      PrintIsWritten(attrs[1..]);
      assert AsEntries(attrs)[1..] == AsEntries(attrs[1..]);
      assert PrintOne(attrs[0]) + "," + Print(attrs[1..]) == PrintOne(attrs[0]) + ([','] + Print(attrs[1..]));
    }
  }

  /** Every attribute but the last ends outside an escape. */
  predicate Readable(attrs: seq<Attribute>) {
    forall i :: 0 <= i < |attrs| - 1 ==> !Ends(attrs[i].value, false)
  }

  lemma PrintReadsBack(u: Charset, attrs: seq<Attribute>)
    requires Sane(u) && AllNormal(u, attrs) && Readable(attrs)
    ensures Flat(u, Print(attrs)) == attrs
  {
    var es := AsEntries(attrs);
    forall i | 0 <= i < |es| ensures WellWritten(es[i]) && Meaning(u, es[i]) == attrs[i] {
      assert attrs[i] in attrs;
    }
    PrintIsWritten(attrs);
    WrittenIsFlat(u, es);
    assert Meanings(u, es) == attrs;
  }

  /** How many separators stand outside an escape. */
  function Cutting(s: string, escaped: bool): nat
    decreases s
  {
    if s == "" then 0
    else (if Cuts(s[0], SEPARATORS, escaped) then 1 else 0) + Cutting(s[1..], Next(s[0], escaped))
  }

  lemma {:induction false} CuttingConcat(a: string, b: string, escaped: bool)
    requires Free(a, SEPARATORS, escaped)
    ensures Cutting(a + b, escaped) == Cutting(b, Ends(a, escaped))
    decreases a
  {
    if a == "" {
      assert a + b == b;
    } else {
      assert (a + b)[0] == a[0] && (a + b)[1..] == a[1..] + b;
      CuttingConcat(a[1..], b, Next(a[0], escaped));
    }
  }

  lemma {:induction false} AttributesAreCut(u: Charset, s: string, escaped: bool, current: string)
    ensures |PartAttributes(u, s, SEPARATORS, escaped, current)| <= Cutting(s, escaped) + 1
    decreases s
  {
    if s == "" {
      LastPiece(u, SEPARATORS, escaped, current);
    } else if Cuts(s[0], SEPARATORS, escaped) {
      AttributesAreCut(u, s[1..], false, "");
      PartsCons(u, current, Pieces(s[1..], SEPARATORS, false, ""));
    } else {
      AttributesAreCut(u, s[1..], Next(s[0], escaped), current + [s[0]]);
    }
  }

  lemma {:induction false} PrintIsCut(u: Charset, attrs: seq<Attribute>)
    requires AllNormal(u, attrs) && attrs != []
    ensures Cutting(Print(attrs), false) <= |attrs| - 1
    ensures !Readable(attrs) ==> Cutting(Print(attrs), false) < |attrs| - 1
  {
    var first := PrintOne(attrs[0]);
    assert attrs[0] in attrs;
    BodyScans(attrs[0].kind, attrs[0].value);
    if |attrs| == 1 {
      assert first + "" == first;
      CuttingConcat(first, "", false);
    } else {
      var rest := Print(attrs[1..]);
      PrintIsCut(u, attrs[1..]);
      assert Print(attrs) == first + ("," + rest) && ("," + rest)[1..] == rest;
      CuttingConcat(first, "," + rest, false);
      assert (forall i :: 0 <= i < |attrs[1..]| - 1 ==> attrs[1..][i] == attrs[i + 1]);
    }
  }

  /** Printed attributes read back exactly when all but the last end outside an escape. */
  lemma PrintReadsBackExactly(u: Charset, attrs: seq<Attribute>)
    requires Sane(u) && AllNormal(u, attrs)
    ensures Flat(u, Print(attrs)) == attrs <==> Readable(attrs)
  {
    if Readable(attrs) {
      PrintReadsBack(u, attrs);
    } else {
      PrintIsCut(u, attrs);
      AttributesAreCut(u, Print(attrs), false, "");
    }
  }

  lemma SortedAttributes(u: Charset, dn: string) returns (attrs: seq<Attribute>)
    requires Sane(u)
    ensures attrs == Sort(Flat(u, dn)) && Canonical(u, dn) == Print(attrs) && AllNormal(u, attrs)
  {
    attrs := Sort(Flat(u, dn));
    CanonicalIsFlat(u, dn);
    FlatIsNormal(u, dn, "");
    SortPermutes(Flat(u, dn));
    forall a | a in attrs ensures Normal(u, a) {
      assert a in multiset(attrs);
    }
  }

  /** A name whose attributes, once sorted, all end outside an escape but for the last. */
  predicate Printable(u: Charset, dn: string) {
    Readable(Sort(Flat(u, dn)))
  }

  /** Canonicalising twice is canonicalising once. */
  lemma CanonicalIsStable(u: Charset, dn: string)
    requires Sane(u) && Printable(u, dn)
    ensures Canonical(u, Canonical(u, dn)) == Canonical(u, dn)
  {
    var attrs := SortedAttributes(u, dn);
    PrintReadsBack(u, attrs);
    CanonicalIsFlat(u, Print(attrs));
    SortTwice(Flat(u, dn));
  }

  /** Two names share a canonical form exactly when they hold the same attributes. */
  lemma SameCanonicalExactly(u: Charset, a: string, b: string)
    requires Sane(u) && Printable(u, a) && Printable(u, b)
    ensures Canonical(u, a) == Canonical(u, b) <==> multiset(Flat(u, a)) == multiset(Flat(u, b))
  {
    var x := SortedAttributes(u, a);
    var y := SortedAttributes(u, b);
    PrintReadsBack(u, x);
    PrintReadsBack(u, y);
    SortForgetsOrder(Flat(u, a), Flat(u, b));
  }

  // ----- an attribute that ends inside an escape -----

  lemma LowerConcat(u: Charset, a: string, b: string)
    ensures Lower(u, a + b) == Lower(u, a) + Lower(u, b)
  {
  }

  lemma PrintedIsLower(u: Charset, a: Attribute)
    requires Sane(u) && Normal(u, a)
    ensures Lower(u, PrintOne(a)) == PrintOne(a) && IsTrim(u, PrintOne(a))
  {
    NormalTypeIsStable(u, a.kind);
    assert Special('=');
    LowerConcat(u, a.kind + "=", a.value);
    LowerConcat(u, a.kind, "=");
    TrimTrims(u, a.value);
  }

  lemma JoinedIsLower(u: Charset, v: string, t: string)
    requires Sane(u) && v != "" && t != "" && IsTrim(u, v) && IsTrim(u, t) && Lower(u, v) == v && Lower(u, t) == t
    ensures Lower(u, v + "," + t) == v + "," + t && Trim(u, v + "," + t) == v + "," + t
  {
    assert Special(',');
    LowerConcat(u, v + ",", t);
    LowerConcat(u, v, ",");
    TrimmedStays(u, v + "," + t);
  }

  lemma EscapedComma(v: string, t: string)
    requires Ends(v, false) && Free(v, SEPARATORS, false) && Free(t, SEPARATORS, false)
    ensures v != "" && Free(v + "," + t, SEPARATORS, false)
  {
    assert v + "," + t == v + ("," + t) && ("," + t)[1..] == t;
    ScanConcat(v, "," + t, SEPARATORS, false);
  }

  lemma PrintOfTwo(x: Attribute, y: Attribute)
    ensures Print([x, y]) == x.kind + "=" + (x.value + "," + PrintOne(y))
  {
    assert [x, y][1..] == [y];
  }

  lemma SwallowedValue(u: Charset, x: Attribute, y: Attribute)
    requires Sane(u) && Normal(u, x) && Normal(u, y) && Ends(x.value, false)
    ensures var value := x.value + "," + PrintOne(y);
            Free(value, SEPARATORS, false) && Lower(u, value) == value && Trim(u, value) == value
  {
    BodyScans(y.kind, y.value);
    EscapedComma(x.value, PrintOne(y));
    PrintedIsLower(u, y);
    TrimTrims(u, x.value);
    JoinedIsLower(u, x.value, PrintOne(y));
  }

  /** The comma behind an open value is escaped, so the next attribute is swallowed. */
  lemma OpenSwallows(u: Charset, x: Attribute, y: Attribute)
    requires Sane(u) && Normal(u, x) && Normal(u, y) && Ends(x.value, false)
    ensures Flat(u, Print([x, y])) == [Attribute(x.kind, x.value + "," + PrintOne(y))]
  {
    SwallowedValue(u, x, y);
    PrintOfTwo(x, y);
    BodyIsFlat(u, Entry(x.kind, x.value + "," + PrintOne(y), ','));
  }

  lemma SortOfTwo(x: Attribute, y: Attribute)
    requires Leq(x, y)
    ensures Sort([y, x]) == [x, y]
  {
    SortSorts([y, x]);
    SortPermutes([y, x]);
    SortedIsUnique(Sort([y, x]), [x, y]);
  }

  lemma TwoClosed(u: Charset, x: Attribute, y: Attribute)
    requires Sane(u) && Normal(u, x) && Normal(u, y) && Leq(x, y) && !Ends(y.value, false)
    ensures Canonical(u, Print([y, x])) == Print([x, y]) && |multiset(Flat(u, Print([y, x])))| == 2
  {
    PrintReadsBack(u, [y, x]);
    CanonicalIsFlat(u, Print([y, x]));
    SortOfTwo(x, y);
  }

  lemma OneOpen(u: Charset, x: Attribute, y: Attribute)
    requires Sane(u) && Normal(u, x) && Normal(u, y) && Ends(x.value, false)
    ensures Canonical(u, Print([x, y])) == Print([x, y]) && |multiset(Flat(u, Print([x, y])))| == 1
  {
    var z := Attribute(x.kind, x.value + "," + PrintOne(y));
    OpenSwallows(u, x, y);
    PrintOfTwo(x, y);
    CanonicalIsFlat(u, Print([x, y]));
    assert [z][..0] == [] && Sort([z]) == [z];
  }

  /** A name with an open attribute before another shares its canonical form with a name of
      one attribute. */
  lemma OpenCollides(u: Charset, x: Attribute, y: Attribute)
    requires Sane(u) && Normal(u, x) && Normal(u, y) && Leq(x, y)
    requires Ends(x.value, false) && !Ends(y.value, false)
    ensures Canonical(u, Print([y, x])) == Canonical(u, Print([x, y]))
    ensures multiset(Flat(u, Print([y, x]))) != multiset(Flat(u, Print([x, y])))
  {
    TwoClosed(u, x, y);
    OneOpen(u, x, y);
  }

  lemma ExampleValue(u: Charset)
    requires Sane(u)
    ensures Trim(u, "a\\") == "a\\" == Lower(u, "a\\") && Ends("a\\", false) && Free("a\\", SEPARATORS, false)
  {
    assert "a\\"[1..] == "\\" && "\\"[1..] == "";
    assert NameChar('a') && Special('\\');
    assert Lower(u, "a\\") == "a\\";
    TrimmedStays(u, "a\\");
  }

  lemma ExampleType(u: Charset, name: string)
    requires Sane(u) && name in ALIASES && ALIASES[name] == name && forall c :: c in name ==> NameChar(c)
    ensures '=' !in name && Free(name, SEPARATORS, false) && NormalType(u, name) == name
  {
    NamesAreFixed(u, name);
    TrimmedStays(u, name);
  }

  lemma ExampleIsNormal(u: Charset)
    requires Sane(u)
    ensures Normal(u, Attribute("cn", "a\\")) && Normal(u, Attribute("o", "b")) && !Ends("b", false)
  {
    ExampleValue(u);
    ExampleType(u, "cn");
    ExampleType(u, "o");
    NamesAreFixed(u, "b");
    PlainIsFree("b", SEPARATORS);
    TrimmedStays(u, "b");
  }

  /** For instance the names `o=b,cn=a\` and `cn=a\,o=b`. */
  lemma NamesCollide(u: Charset)
    requires Sane(u)
    ensures Canonical(u, "o=b,cn=a\\") == Canonical(u, "cn=a\\,o=b")
    ensures multiset(Flat(u, "o=b,cn=a\\")) != multiset(Flat(u, "cn=a\\,o=b"))
  {
    var x, y := Attribute("cn", "a\\"), Attribute("o", "b");
    PrintOfTwo(x, y);
    PrintOfTwo(y, x);
    assert Print([x, y]) == "cn=a\\,o=b";
    assert Print([y, x]) == "o=b,cn=a\\";
    ExampleValue(u);
    ExampleIsNormal(u);
    OpenCollides(u, x, y);
  }

  // ----- names as written -----

  /** An entry whose value ends outside an escape, before and after its spaces are cut. */
  predicate Complete(u: Charset, e: Entry) {
    WellWritten(e) && !Ends(e.after, false) && !Ends(Trim(u, e.after), false)
  }

  lemma CompleteIsPrintable(u: Charset, es: seq<Entry>)
    requires Sane(u) && forall e :: e in es ==> Complete(u, e)
    ensures Flat(u, Written(es)) == Meanings(u, es) && Printable(u, Written(es))
  {
    forall i | 0 <= i < |es| ensures Complete(u, es[i]) {
      assert es[i] in es;
    }
    WrittenIsFlat(u, es);
    var attrs := Sort(Meanings(u, es));
    SortPermutes(Meanings(u, es));
    forall i | 0 <= i < |attrs| ensures !Ends(attrs[i].value, false) {
      assert attrs[i] in multiset(attrs);
      var j :| 0 <= j < |es| && Meaning(u, es[j]) == attrs[i];
      assert es[j] in es;
      ValueIsNormal(u, es[j].after);
    }
  }

  /** Reordering, respelling, spacing and change of separator make no difference, and
      nothing but the meaning of the entries makes one. */
  lemma SpellingMakesNoDifference(u: Charset, es: seq<Entry>, fs: seq<Entry>)
    requires Sane(u) && (forall e :: e in es ==> Complete(u, e)) && (forall e :: e in fs ==> Complete(u, e))
    ensures Canonical(u, Written(es)) == Canonical(u, Written(fs)) <==>
            multiset(Meanings(u, es)) == multiset(Meanings(u, fs))
  {
    CompleteIsPrintable(u, es);
    CompleteIsPrintable(u, fs);
    SameCanonicalExactly(u, Written(es), Written(fs));
  }

  // ----- parts without an equals sign -----

  lemma TrimAddsNothing(u: Charset, s: string, c: char)
    requires c in Trim(u, s)
    ensures c in s
  {
    TrimIsSlice(u, s);
  }

  lemma {:induction false} TrimIsSlice(u: Charset, s: string)
    ensures exists i, j :: 0 <= i <= j <= |s| && Trim(u, s) == s[i..j]
  {
    var i := LeftSlice(u, s);
    var j := RightSlice(u, s[i..]);
    assert s[i..][..j] == s[i..i + j];
  }

  lemma {:induction false} LeftSlice(u: Charset, s: string) returns (i: nat)
    ensures i <= |s| && TrimLeft(u, s) == s[i..]
  {
    if s == "" || !u.space(s[0]) {
      i := 0;
    } else {
      i := LeftSlice(u, s[1..]);
      assert s[1..][i..] == s[i + 1..];
      i := i + 1;
    }
  }

  lemma {:induction false} RightSlice(u: Charset, s: string) returns (j: nat)
    ensures j <= |s| && TrimRight(u, s) == s[..j]
  {
    if s == "" || !u.space(s[|s| - 1]) {
      j := |s|;
    } else {
      j := RightSlice(u, s[..|s| - 1]);
      assert s[..|s| - 1][..j] == s[..j];
    }
  }

  lemma NoEqualsNoAttribute(u: Charset, part: string)
    requires '=' !in part
    ensures AttributeOf(u, part) == []
  {
    var p := Trim(u, part);
    var i := EqualsAt(p);
    if i < |p| {
      assert p[i] in p;
      TrimAddsNothing(u, part, '=');
    }
  }

  lemma MalformedIsFlat(u: Charset, junk: string, separator: char, rest: string)
    requires '=' !in junk && Free(junk, SEPARATORS, false) && !Ends(junk, false)
    requires separator == ',' || separator == ';' || separator == '+'
    ensures Flat(u, junk + ([separator] + rest)) == Flat(u, rest)
  {
    WholePart(u, junk, false, "");
    assert "" + junk == junk;
    NoEqualsNoAttribute(u, junk);
    PartsAtSeparator(u, junk, separator, rest, SEPARATORS, false, "");
    assert [] + Flat(u, rest) == Flat(u, rest);
  }

  /** A part that has no equals sign is passed over, wherever it stands first in what is left. */
  lemma MalformedIsSkipped(u: Charset, junk: string, separator: char, rest: string)
    requires Sane(u) && '=' !in junk && Free(junk, SEPARATORS, false) && !Ends(junk, false)
    requires separator == ',' || separator == ';' || separator == '+'
    ensures Canonical(u, junk + ([separator] + rest)) == Canonical(u, rest)
  {
    var name := junk + ([separator] + rest);
    MalformedIsFlat(u, junk, separator, rest);
    CanonicalIsFlat(u, name);
    CanonicalIsFlat(u, rest);
  }

  // ----- rewriting a name -----

  /** The same text but for case and the spaces around it. */
  predicate Alike(u: Charset, s: string, t: string) {
    Lower(u, Trim(u, s)) == Lower(u, Trim(u, t))
  }

  /** Another way to write an entry: alike, or with an alias or OID of its type. */
  predicate Respells(u: Charset, e: Entry, f: Entry) {
    Alike(u, e.after, f.after) &&
    ShortName(Lower(u, Trim(u, e.before))) == ShortName(Lower(u, Trim(u, f.before)))
  }

  lemma {:induction false} PaddingIsTrimmed(u: Charset, left: string, s: string, right: string)
    requires forall c :: c in left + right ==> u.space(c)
    ensures Trim(u, left + s + right) == Trim(u, s)
    decreases |left| + |right|
  {
    if left != "" {
      assert left[0] in left + right;
      assert left + s + right == [left[0]] + (left[1..] + s + right);
      TrimIgnoresLeft(u, left[0], left[1..] + s + right);
      PaddingIsTrimmed(u, left[1..], s, right);
    } else if right != "" {
      var c := right[|right| - 1];
      assert c in left + right;
      var front := right[..|right| - 1];
      assert left + s + right == (left + s + front) + [c];
      TrimIgnoresRight(u, left + s + front, c);
      PaddingIsTrimmed(u, left, s, front);
    } else {
      assert left + s + right == s;
    }
  }

  lemma {:induction false} LowerThenTrimLeft(u: Charset, s: string)
    requires Sane(u)
    ensures TrimLeft(u, Lower(u, s)) == Lower(u, TrimLeft(u, s))
  {
    if s != "" && u.space(s[0]) {
      assert Lower(u, s)[1..] == Lower(u, s[1..]);
      LowerThenTrimLeft(u, s[1..]);
    }
  }

  lemma {:induction false} LowerThenTrimRight(u: Charset, s: string)
    requires Sane(u)
    ensures TrimRight(u, Lower(u, s)) == Lower(u, TrimRight(u, s))
  {
    if s != "" && u.space(s[|s| - 1]) {
      assert Lower(u, s)[..|s| - 1] == Lower(u, s[..|s| - 1]);
      LowerThenTrimRight(u, s[..|s| - 1]);
    }
  }

  /** A change of case and any padding leave a text alike. */
  lemma PaddingAndCaseAreAlike(u: Charset, s: string, t: string, left: string, right: string)
    requires Sane(u) && Lower(u, s) == Lower(u, t) && forall c :: c in left + right ==> u.space(c)
    ensures Alike(u, s, left + t + right)
  {
    PaddingIsTrimmed(u, left, t, right);
    LowerThenTrimLeft(u, s);
    LowerThenTrimRight(u, TrimLeft(u, s));
    LowerThenTrimLeft(u, t);
    LowerThenTrimRight(u, TrimLeft(u, t));
  }

  lemma Without(u: Charset, fs: seq<Entry>, e: Entry) returns (rest: seq<Entry>)
    requires e in fs
    ensures |rest| == |fs| - 1 && multiset(rest) == multiset(fs) - multiset{e}
    ensures multiset(Meanings(u, fs)) == multiset(Meanings(u, rest)) + multiset{Meaning(u, e)}
  {
    var j :| 0 <= j < |fs| && fs[j] == e;
    rest := fs[..j] + fs[j + 1..];
    assert fs == fs[..j] + [e] + fs[j + 1..];
    assert Meanings(u, fs) == Meanings(u, fs[..j]) + [Meaning(u, e)] + Meanings(u, fs[j + 1..]);
    assert Meanings(u, rest) == Meanings(u, fs[..j]) + Meanings(u, fs[j + 1..]);
  }

  lemma {:induction false} MeaningsPermute(u: Charset, es: seq<Entry>, fs: seq<Entry>)
    requires multiset(es) == multiset(fs)
    ensures multiset(Meanings(u, es)) == multiset(Meanings(u, fs))
    decreases |es|
  {
    assert |es| == |multiset(es)| == |multiset(fs)| == |fs|;
    if es != [] {
      assert es[0] in multiset(fs);
      var a := Without(u, es, es[0]);
      var b := Without(u, fs, es[0]);
      MeaningsPermute(u, a, b);
    }
  }

  /** A name rewritten entry by entry and then put in any order, with any separators, has
      the same canonical form. */
  lemma RewritingMakesNoDifference(u: Charset, es: seq<Entry>, rewritten: seq<Entry>, fs: seq<Entry>)
    requires Sane(u) && (forall e :: e in es ==> Complete(u, e)) && (forall e :: e in fs ==> Complete(u, e))
    requires |es| == |rewritten| && forall i :: 0 <= i < |es| ==> Respells(u, es[i], rewritten[i])
    requires multiset(fs) == multiset(rewritten)
    ensures Canonical(u, Written(es)) == Canonical(u, Written(fs))
  {
    assert Meanings(u, es) == Meanings(u, rewritten);
    MeaningsPermute(u, rewritten, fs);
    SpellingMakesNoDifference(u, es, fs);
  }
}
