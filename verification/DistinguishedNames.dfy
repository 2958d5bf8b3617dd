/** Distinguished names compared in a canonical form: split into attributes, normalised,
    sorted and printed. */
module DistinguishedNames {
  import opened NameOrder

  // ----- characters -----

  /** The Unicode tables the program uses. */
  datatype Charset = Charset(lower: char -> char, space: char -> bool)

  predicate Special(c: char) {
    c == ',' || c == ';' || c == '+' || c == '=' || c == '\\'
  }

  predicate NameChar(c: char) {
    'a' <= c <= 'z' || '0' <= c <= '9' || c == '.'
  }

  /** Lower case is stable, makes and unmakes no space and no special character, and
      leaves the characters of the canonical type names alone. */
  ghost predicate Sane(u: Charset) {
    (forall c :: u.lower(u.lower(c)) == u.lower(c)) &&
    (forall c :: u.space(u.lower(c)) == u.space(c)) &&
    (forall c :: Special(c) || Special(u.lower(c)) ==> u.lower(c) == c && !u.space(c)) &&
    (forall c :: NameChar(c) ==> u.lower(c) == c && !u.space(c))
  }

  function Lower(u: Charset, s: string): (r: string)
    ensures |r| == |s|
  {
    seq(|s|, i requires 0 <= i < |s| => u.lower(s[i]))
  }

  function TrimLeft(u: Charset, s: string): string {
    if s != "" && u.space(s[0]) then TrimLeft(u, s[1..]) else s
  }

  function TrimRight(u: Charset, s: string): string {
    if s != "" && u.space(s[|s| - 1]) then TrimRight(u, s[..|s| - 1]) else s
  }

  function Trim(u: Charset, s: string): string {
    TrimRight(u, TrimLeft(u, s))
  }

  /** No space at either end. */
  predicate IsTrim(u: Charset, s: string) {
    s != "" ==> !u.space(s[0]) && !u.space(s[|s| - 1])
  }

  lemma {:induction false} TrimLeftIsSuffix(u: Charset, s: string)
    ensures var t := TrimLeft(u, s); |t| <= |s| && t == s[|s| - |t|..] && (t != "" ==> !u.space(t[0]))
  {
    if s != "" && u.space(s[0]) {
      TrimLeftIsSuffix(u, s[1..]);
    }
  }

  lemma {:induction false} TrimRightIsPrefix(u: Charset, s: string)
    ensures var t := TrimRight(u, s); |t| <= |s| && t == s[..|t|] && (t != "" ==> !u.space(t[|t| - 1]))
  {
    if s != "" && u.space(s[|s| - 1]) {
      TrimRightIsPrefix(u, s[..|s| - 1]);
    }
  }

  lemma TrimTrims(u: Charset, s: string)
    ensures IsTrim(u, Trim(u, s))
    ensures forall c :: c in Trim(u, s) ==> c in s
  {
    TrimLeftIsSuffix(u, s);
    TrimRightIsPrefix(u, TrimLeft(u, s));
  }

  lemma TrimmedStays(u: Charset, s: string)
    requires IsTrim(u, s)
    ensures Trim(u, s) == s
  {
  }

  /** A space at either end makes no difference. */
  lemma TrimIgnoresLeft(u: Charset, c: char, s: string)
    requires u.space(c)
    ensures Trim(u, [c] + s) == Trim(u, s)
  {
    assert ([c] + s)[1..] == s;
  }

  lemma {:induction false} TrimIgnoresRight(u: Charset, s: string, c: char)
    requires u.space(c)
    ensures Trim(u, s + [c]) == Trim(u, s)
  {
    if s == "" {
      assert "" + [c] == [c] && [c][1..] == "";
      assert TrimLeft(u, [c]) == TrimLeft(u, "");
    } else if u.space(s[0]) {
      TrimIgnoresRight(u, s[1..], c);
      assert (s + [c])[1..] == s[1..] + [c];
    } else {
      assert (s + [c])[..|s|] == s;
    }
  }

  // ----- attribute types -----

  const OIDS: map<string, string> := map[
    "2.5.4.3" := "cn", "2.5.4.5" := "serialnumber", "2.5.4.6" := "c", "2.5.4.7" := "l", "2.5.4.8" := "st",
    "2.5.4.9" := "street", "2.5.4.10" := "o", "2.5.4.11" := "ou", "2.5.4.17" := "postalcode"]

  const ALIASES: map<string, string> := map[
    "cn" := "cn", "commonname" := "cn", "c" := "c", "countryname" := "c", "o" := "o", "organizationname" := "o",
    "ou" := "ou", "organizationalunitname" := "ou", "l" := "l", "localityname" := "l", "st" := "st", "state" := "st",
    "stateorprovincename" := "st", "street" := "street", "streetaddress" := "street", "postalcode" := "postalcode",
    "serialnumber" := "serialnumber"]

  /** The short name of a lower-case type name, alias or OID. */
  function ShortName(name: string): string {
    if name in ALIASES then ALIASES[name] else if name in OIDS then OIDS[name] else name
  }

  function NormalType(u: Charset, kind: string): string {
    ShortName(Lower(u, Trim(u, kind)))
  }

  /** A type name that stands for itself. */
  predicate Short(name: string) {
    name in ALIASES && ALIASES[name] == name && forall c :: c in name ==> NameChar(c)
  }

  lemma AliasIsShort(name: string)
    requires name in ALIASES
    ensures Short(ALIASES[name])
  {
  }

  lemma OidIsShort(name: string)
    requires name in OIDS
    ensures Short(OIDS[name])
  {
  }

  /** The lower-case names and OIDs of an attribute type (RFC 4519, with serialNumber). */
  function Spellings(short: string): set<string> {
    if short == "cn" then {"cn", "commonname", "2.5.4.3"}
    else if short == "c" then {"c", "countryname", "2.5.4.6"}
    else if short == "o" then {"o", "organizationname", "2.5.4.10"}
    else if short == "ou" then {"ou", "organizationalunitname", "2.5.4.11"}
    else if short == "l" then {"l", "localityname", "2.5.4.7"}
    else if short == "st" then {"st", "state", "stateorprovincename", "2.5.4.8"}
    else if short == "street" then {"street", "streetaddress", "2.5.4.9"}
    else if short == "postalcode" then {"postalcode", "2.5.4.17"}
    else if short == "serialnumber" then {"serialnumber", "2.5.4.5"}
    else {}
  }

  lemma AliasIsSpelled(name: string)
    requires name in ALIASES
    ensures name in Spellings(ALIASES[name])
  {
  }

  lemma OidIsSpelled(name: string)
    requires name in OIDS
    ensures name !in ALIASES && name in Spellings(OIDS[name])
  {
  }

  lemma PersonIsShort(short: string, name: string)
    requires (short == "cn" || short == "c" || short == "serialnumber") && name in Spellings(short)
    ensures ShortName(name) == short && short in Spellings(short)
  {
  }

  lemma OrganisationIsShort(short: string, name: string)
    requires (short == "o" || short == "ou" || short == "l") && name in Spellings(short)
    ensures ShortName(name) == short && short in Spellings(short)
  {
  }

  lemma AddressIsShort(short: string, name: string)
    requires (short == "st" || short == "street" || short == "postalcode") && name in Spellings(short)
    ensures ShortName(name) == short && short in Spellings(short)
  {
  }

  lemma SpellingIsShort(short: string, name: string)
    requires name in Spellings(short)
    ensures ShortName(name) == short && short in Spellings(short)
  {
    if short == "cn" || short == "c" || short == "serialnumber" {
      PersonIsShort(short, name);
    } else if short == "o" || short == "ou" || short == "l" {
      OrganisationIsShort(short, name);
    } else {
      AddressIsShort(short, name);
    }
  }

  /** A name has the short form of exactly the type it spells. */
  lemma ShortNameExactly(name: string, short: string)
    requires Spellings(short) != {}
    ensures ShortName(name) == short <==> name in Spellings(short)
  {
    if name in Spellings(short) {
      SpellingIsShort(short, name);
    } else if name in ALIASES {
      AliasIsSpelled(name);
    } else if name in OIDS {
      OidIsSpelled(name);
    } else {
      var some :| some in Spellings(short);
      SpellingIsShort(short, some);
    }
  }

  lemma ShortNameIsStable(name: string)
    ensures ShortName(ShortName(name)) == ShortName(name)
    ensures ShortName(name) == name || forall c :: c in ShortName(name) ==> NameChar(c)
  {
    if name in ALIASES {
      AliasIsShort(name);
    } else if name in OIDS {
      OidIsShort(name);
    }
  }

  // ----- splitting -----

  /** The pieces between unescaped separators; an empty last piece is dropped. */
  function Pieces(s: string, separators: set<char>, escaped: bool, current: string): seq<string>
    decreases s
  {
    if s == "" then (if current == "" then [] else [current])
    else if escaped then Pieces(s[1..], separators, false, current + [s[0]])
    else if s[0] == '\\' then Pieces(s[1..], separators, true, current + [s[0]])
    else if s[0] in separators then [current] + Pieces(s[1..], separators, false, "")
    else Pieces(s[1..], separators, false, current + [s[0]])
  }

  method SplitUnescaped(s: string, separators: set<char>) returns (parts: seq<string>)
    ensures parts == Pieces(s, separators, false, "")
  {
    parts := [];
    var current, escaped := "", false;
    for i := 0 to |s|
      invariant parts + Pieces(s[i..], separators, escaped, current) == Pieces(s, separators, false, "")
    {
      assert s[i..][1..] == s[i + 1..];
      if escaped {
        current, escaped := current + [s[i]], false;
      } else if s[i] == '\\' {
        current, escaped := current + [s[i]], true;
      } else if s[i] in separators {
        assert parts + ([current] + Pieces(s[i + 1..], separators, false, "")) ==
               (parts + [current]) + Pieces(s[i + 1..], separators, false, "");
        parts, current := parts + [current], "";
      } else {
        current := current + [s[i]];
      }
    }
    if |current| > 0 {
      parts := parts + [current];
    }
  }

  // ----- attributes -----

  const COMPONENT_SEPARATORS := {',', ';'}
  const PART_SEPARATORS := {'+'}
  const SEPARATORS := {',', ';', '+'}

  /** Where the first equals sign stands, or the length. */
  function EqualsAt(s: string): (i: nat)
    ensures i <= |s| && (i < |s| ==> s[i] == '=') && '=' !in s[..i]
  {
    if s == "" || s[0] == '=' then 0 else
      var i := EqualsAt(s[1..]);
      assert s[..i + 1] == [s[0]] + s[1..][..i];
      i + 1
  }

  /** The attribute of one part, or nothing when it has no equals sign. */
  function AttributeOf(u: Charset, part: string): seq<Attribute> {
    var p := Trim(u, part);
    var i := EqualsAt(p);
    if i == |p| then []
    else [Attribute(NormalType(u, Trim(u, p[..i])), Lower(u, Trim(u, p[i + 1..])))]
  }

  function AttributesOf(u: Charset, parts: seq<string>): seq<Attribute> {
    if parts == [] then [] else AttributeOf(u, parts[0]) + AttributesOf(u, parts[1..])
  }

  function ComponentAttributes(u: Charset, component: string): seq<Attribute> {
    var c := Trim(u, component);
    if c == "" then [] else AttributesOf(u, Pieces(c, PART_SEPARATORS, false, ""))
  }

  function ParseComponents(u: Charset, components: seq<string>): seq<Attribute> {
    if components == [] then []
    else ComponentAttributes(u, components[0]) + ParseComponents(u, components[1..])
  }

  function Parse(u: Charset, dn: string): seq<Attribute> {
    ParseComponents(u, Pieces(dn, COMPONENT_SEPARATORS, false, ""))
  }

  lemma {:induction false} ParseComponentsSnoc(u: Charset, components: seq<string>, c: string)
    ensures ParseComponents(u, components + [c]) == ParseComponents(u, components) + ComponentAttributes(u, c)
  {
    if components == [] {
      assert [] + [c] == [c] && [c][1..] == [];
      assert ParseComponents(u, [c]) == ComponentAttributes(u, c) + [];
    } else {
      ParseComponentsSnoc(u, components[1..], c);
      assert (components + [c])[1..] == components[1..] + [c];
      Regroup(ComponentAttributes(u, components[0]), ParseComponents(u, components[1..]), ComponentAttributes(u, c));
    }
  }

  lemma Regroup(a: seq<Attribute>, b: seq<Attribute>, c: seq<Attribute>)
    ensures a + (b + c) == (a + b) + c
  {
  }

  lemma {:induction false} AttributesOfConcat(u: Charset, a: seq<string>, b: seq<string>)
    ensures AttributesOf(u, a + b) == AttributesOf(u, a) + AttributesOf(u, b)
  {
    if a == [] {
      assert a + b == b;
    } else {
      AttributesOfConcat(u, a[1..], b);
      assert (a + b)[0] == a[0] && (a + b)[1..] == a[1..] + b;
      assert AttributesOf(u, a + b) == AttributeOf(u, a[0]) + AttributesOf(u, a[1..] + b);
      Regroup(AttributeOf(u, a[0]), AttributesOf(u, a[1..]), AttributesOf(u, b));
    }
  }

  lemma OneAttribute(u: Charset, part: string)
    ensures AttributesOf(u, [part]) == AttributeOf(u, part)
  {
    assert [part][1..] == [];
  }

  method ParseParts(u: Charset, component: string) returns (attrs: seq<Attribute>)
    ensures attrs == AttributesOf(u, Pieces(component, PART_SEPARATORS, false, ""))
  {
    attrs := [];
    var parts := SplitUnescaped(component, PART_SEPARATORS);
    for i := 0 to |parts|
      invariant attrs == AttributesOf(u, parts[..i])
    {
      AttributesOfConcat(u, parts[..i], [parts[i]]);
      OneAttribute(u, parts[i]);
      assert parts[..i + 1] == parts[..i] + [parts[i]];
      var part := Trim(u, parts[i]);
      var at := EqualsAt(part);
      if at < |part| {
        attrs := attrs + [Attribute(NormalType(u, Trim(u, part[..at])), Lower(u, Trim(u, part[at + 1..])))];
      }
    }
    assert parts[..|parts|] == parts;
  }

  method ParseComponent(u: Charset, part: string) returns (attrs: seq<Attribute>)
    ensures attrs == ComponentAttributes(u, part)
  {
    attrs := [];
    var component := Trim(u, part);
    if component != "" {
      attrs := ParseParts(u, component);
    }
  }

  method ParseAll(u: Charset, components: seq<string>) returns (attrs: seq<Attribute>)
    ensures attrs == ParseComponents(u, components)
  {
    attrs := [];
    for i := 0 to |components|
      invariant attrs == ParseComponents(u, components[..i])
    {
      ParseComponentsSnoc(u, components[..i], components[i]);
      assert components[..i + 1] == components[..i] + [components[i]];
      var more := ParseComponent(u, components[i]);
      attrs := attrs + more;
    }
    assert components[..|components|] == components;
  }

  method ParseDnString(u: Charset, dn: string) returns (attrs: seq<Attribute>)
    ensures attrs == Parse(u, dn)
  {
    var components := SplitUnescaped(dn, COMPONENT_SEPARATORS);
    attrs := ParseAll(u, components);
  }

  // ----- printing -----

  function PrintOne(a: Attribute): string {
    a.kind + "=" + a.value
  }

  function Print(attrs: seq<Attribute>): string {
    if attrs == [] then ""
    else if |attrs| == 1 then PrintOne(attrs[0])
    else PrintOne(attrs[0]) + "," + Print(attrs[1..])
  }

  function Canonical(u: Charset, dn: string): string {
    var t := Trim(u, dn);
    if t == "" then "" else Print(Sort(Parse(u, t)))
  }

  method CanonicalFromAttrs(attrs: array<Attribute>) returns (r: string)
    modifies attrs
    ensures r == Print(Sort(old(attrs[..])))
  {
    SortInPlace(attrs);
    r := "";
    var i := attrs.Length;
    while i > 0
      invariant 0 <= i <= attrs.Length
      invariant attrs[..] == Sort(old(attrs[..]))
      invariant r == Print(attrs[i..])
    {
      i := i - 1;
      assert attrs[i..][1..] == attrs[i + 1..];
      r := if i == attrs.Length - 1 then PrintOne(attrs[i]) else PrintOne(attrs[i]) + "," + r;
    }
    assert attrs[0..] == attrs[..];
  }

  method CanonicalizeDn(u: Charset, dn: string) returns (r: string)
    ensures r == Canonical(u, dn)
  {
    var t := Trim(u, dn);
    if t == "" {
      return "";
    }
    var attrs := ParseDnString(u, t);
    var a := new Attribute[|attrs|](i requires 0 <= i < |attrs| => attrs[i]);
    assert a[..] == attrs;
    r := CanonicalFromAttrs(a);
  }
}
