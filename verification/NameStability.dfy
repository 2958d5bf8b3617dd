/** Reading a canonical name back, for every name: an attribute that ends inside an escape
    takes the separator behind it and the next attribute into its value. */
module NameStability {
  import opened DistinguishedNames
  import opened NameEquivalence
  import opened NameOrder
  import opened StringOrder

  /** `y` becomes part of the value of `x`. */
  function Swallow(x: Attribute, y: Attribute): Attribute {
    Attribute(x.kind, x.value + "," + PrintOne(y))
  }

  /** The attributes as they read back once printed. */
  function Joined(attrs: seq<Attribute>): (r: seq<Attribute>)
    ensures r == [] <==> attrs == []
    decreases |attrs|
  {
    if |attrs| <= 1 then attrs
    else if Ends(attrs[0].value, false) then Joined([Swallow(attrs[0], attrs[1])] + attrs[2..])
    else [attrs[0]] + Joined(attrs[1..])
  }

  lemma SwallowPrints(x: Attribute, y: Attribute, rest: seq<Attribute>)
    ensures Print([Swallow(x, y)] + rest) == Print([x, y] + rest)
  {
    var s := [Swallow(x, y)] + rest;
    var t := [x, y] + rest;
    assert s[1..] == rest && t[1..] == [y] + rest && ([y] + rest)[1..] == rest;
    assert PrintOne(Swallow(x, y)) == PrintOne(x) + "," + PrintOne(y);
    if rest != [] {
      assert Print(t) == PrintOne(x) + "," + (PrintOne(y) + "," + Print(rest));
    }
  }

  lemma SwallowIsNormal(u: Charset, x: Attribute, y: Attribute)
    requires Sane(u) && Normal(u, x) && Normal(u, y) && Ends(x.value, false)
    ensures Normal(u, Swallow(x, y))
  {
    SwallowedValue(u, x, y);
  }

  lemma {:induction false} JoinedIsReadable(u: Charset, attrs: seq<Attribute>)
    requires Sane(u) && AllNormal(u, attrs)
    ensures AllNormal(u, Joined(attrs)) && Readable(Joined(attrs)) && Print(Joined(attrs)) == Print(attrs)
    decreases |attrs|
  {
    if |attrs| > 1 {
      var x, y := attrs[0], attrs[1];
      assert x in attrs && y in attrs;
      if Ends(x.value, false) {
        SwallowIsNormal(u, x, y);
        SwallowPrints(x, y, attrs[2..]);
        assert attrs == [x, y] + attrs[2..];
        JoinedIsReadable(u, [Swallow(x, y)] + attrs[2..]);
      } else {
        JoinedIsReadable(u, attrs[1..]);
        var r := Joined(attrs);
        assert r[1..] == Joined(attrs[1..]);
        assert forall i :: 0 < i < |r| ==> r[i] == Joined(attrs[1..])[i - 1];
      }
    }
  }

  /** What a canonical name holds. */
  lemma CanonicalHolds(u: Charset, dn: string)
    requires Sane(u)
    ensures var r := Joined(Sort(Flat(u, dn)));
            Flat(u, Canonical(u, dn)) == r && Canonical(u, dn) == Print(r) && AllNormal(u, r) && Readable(r)
  {
    var attrs := SortedAttributes(u, dn);
    JoinedIsReadable(u, attrs);
    PrintReadsBack(u, Joined(attrs));
  }

  /** Two names share a canonical form exactly when their sorted attributes join up alike. */
  lemma SameFormExactly(u: Charset, a: string, b: string)
    requires Sane(u)
    ensures Canonical(u, a) == Canonical(u, b) <==> Joined(Sort(Flat(u, a))) == Joined(Sort(Flat(u, b)))
  {
    CanonicalHolds(u, a);
    CanonicalHolds(u, b);
  }

  lemma SortedAlready(attrs: seq<Attribute>)
    ensures Sort(attrs) == attrs <==> IsSorted(attrs)
  {
    SortSorts(attrs);
    SortPermutes(attrs);
    if IsSorted(attrs) {
      SortedIsUnique(Sort(attrs), attrs);
    }
  }

  /** Attributes that read back are told apart by how they print from any order of them. */
  lemma PrintTellsOrder(u: Charset, attrs: seq<Attribute>)
    requires Sane(u) && AllNormal(u, attrs) && Readable(attrs)
    ensures Print(Sort(attrs)) == Print(attrs) <==> Sort(attrs) == attrs
  {
    var s := Sort(attrs);
    SortPermutes(attrs);
    forall a | a in s ensures Normal(u, a) {
      assert a in multiset(s);
    }
    PrintReadsBack(u, attrs);
    if Print(s) == Print(attrs) {
      assert |s| == |multiset(s)| == |multiset(attrs)| == |attrs|;
      if !Readable(s) {
        PrintIsCut(u, s);
        AttributesAreCut(u, Print(s), false, "");
        assert false;
      }
      PrintReadsBack(u, s);
    }
  }

  /** Canonicalising twice is canonicalising once exactly when the sorted attributes are still
      in order once they have joined up. */
  lemma StableExactly(u: Charset, dn: string)
    requires Sane(u)
    ensures Canonical(u, Canonical(u, dn)) == Canonical(u, dn) <==> IsSorted(Joined(Sort(Flat(u, dn))))
  {
    var r := Joined(Sort(Flat(u, dn)));
    CanonicalHolds(u, dn);
    CanonicalIsFlat(u, Canonical(u, dn));
    PrintTellsOrder(u, r);
    SortedAlready(r);
  }

  // ----- a name that changes when it is canonicalised again -----

  lemma EscapedPlus(u: Charset)
    requires Sane(u)
    ensures Normal(u, Attribute("cn", "a\\+")) && !Ends("a\\+", false)
  {
    assert "a\\+"[1..] == "\\+" && "\\+"[1..] == "+" && "+"[1..] == "";
    assert NameChar('a') && Special('\\') && Special('+');
    assert Lower(u, "a\\+") == "a\\+";
    TrimmedStays(u, "a\\+");
    ExampleType(u, "cn");
  }

  lemma SameFirst(c: char, a: string, b: string)
    ensures StringLeq([c] + a, [c] + b) == StringLeq(a, b)
  {
    assert ([c] + a)[1..] == a && ([c] + b)[1..] == b;
  }

  lemma CommaAfterPlus(rest: string)
    ensures StringLeq("a\\", "a\\+") && !StringLeq("a\\," + rest, "a\\+")
  {
    PrefixComesFirst("a\\", "a\\+");
    assert "a\\," + rest == ['a'] + (['\\'] + ("," + rest)) && "a\\+" == ['a'] + (['\\'] + "+");
    SameFirst('a', ['\\'] + ("," + rest), ['\\'] + "+");
    SameFirst('\\', "," + rest, "+");
    assert ("," + rest)[0] == ',';
  }

  lemma SortOfThree(x: Attribute, y: Attribute)
    requires Leq(x, y)
    ensures Sort([y, y, x]) == [x, y, y]
  {
    var s, t := [y, y, x], [x, y, y];
    LeqTotal(y, y);
    assert t[0] == x && t[1] == y && t[2] == y;
    assert IsSorted(t);
    assert s == [y, y] + [x] && t == [x] + [y, y];
    assert multiset(s) == multiset(t);
    SortSorts(s);
    SortPermutes(s);
    SortedIsUnique(Sort(s), t);
  }

  lemma SwallowedClosed(x: Attribute, y: Attribute)
    requires Ends(x.value, false) && !Ends(PrintOne(y), false) && Free(x.value, SEPARATORS, false)
    ensures !Ends(Swallow(x, y).value, false)
  {
    var t := "," + PrintOne(y);
    assert Swallow(x, y).value == x.value + t && t[1..] == PrintOne(y);
    ScanConcat(x.value, t, SEPARATORS, false);
  }

  lemma JoinedOfThree(u: Charset, x: Attribute, y: Attribute)
    requires Normal(u, x) && Normal(u, y) && Ends(x.value, false) && !Ends(y.value, false)
    ensures Joined([x, y, y]) == [Swallow(x, y), y]
  {
    BodyScans(y.kind, y.value);
    SwallowedClosed(x, y);
    var s := [Swallow(x, y), y];
    assert [x, y, y][2..] == [y] && [Swallow(x, y)] + [y] == s && s[1..] == [y];
    assert Joined(s) == [s[0]] + Joined([y]);
  }

  /** A name is not stable when an open attribute takes in the next one and then belongs
      behind the third. */
  lemma OpenChangesAgain(u: Charset, x: Attribute, y: Attribute)
    requires Sane(u) && Normal(u, x) && Normal(u, y) && Leq(x, y) && !Leq(Swallow(x, y), y)
    requires Ends(x.value, false) && !Ends(y.value, false)
    ensures var dn := Print([y, y, x]); Canonical(u, Canonical(u, dn)) != Canonical(u, dn)
  {
    var dn := Print([y, y, x]);
    PrintReadsBack(u, [y, y, x]);
    SortOfThree(x, y);
    JoinedOfThree(u, x, y);
    StableExactly(u, dn);
    var r := [Swallow(x, y), y];
    assert !Leq(r[0], r[1]);
  }

  lemma PrintOfThree(x: Attribute, y: Attribute, z: Attribute)
    ensures Print([x, y, z]) == PrintOne(x) + "," + (PrintOne(y) + "," + PrintOne(z))
  {
    assert [x, y, z][1..] == [y, z] && [y, z][1..] == [z];
    assert Print([y, z]) == PrintOne(y) + "," + Print([z]);
  }

  lemma ExampleOrder(u: Charset)
    requires Sane(u)
    ensures var x, y := Attribute("cn", "a\\"), Attribute("cn", "a\\+");
            Normal(u, x) && Normal(u, y) && Leq(x, y) && !Leq(Swallow(x, y), y) && Ends(x.value, false) && !Ends(y.value, false)
  {
    var x, y := Attribute("cn", "a\\"), Attribute("cn", "a\\+");
    ExampleIsNormal(u);
    ExampleValue(u);
    EscapedPlus(u);
    CommaAfterPlus(PrintOne(y));
    assert Swallow(x, y).value == "a\\," + PrintOne(y);
  }

  lemma ExampleText()
    ensures Print([Attribute("cn", "a\\+"), Attribute("cn", "a\\+"), Attribute("cn", "a\\")]) == "cn=a\\+,cn=a\\+,cn=a\\"
  {
    var x, y := Attribute("cn", "a\\"), Attribute("cn", "a\\+");
    PrintOfThree(y, y, x);
    assert PrintOne(y) == "cn=a\\+" && PrintOne(x) == "cn=a\\";
  }

  /** For instance the name `cn=a\+,cn=a\+,cn=a\`. */
  lemma NameChangesAgain(u: Charset)
    requires Sane(u)
    ensures var dn := "cn=a\\+,cn=a\\+,cn=a\\"; Canonical(u, Canonical(u, dn)) != Canonical(u, dn)
  {
    ExampleOrder(u);
    ExampleText();
    OpenChangesAgain(u, Attribute("cn", "a\\"), Attribute("cn", "a\\+"));
  }
}
