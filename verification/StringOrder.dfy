/** Strings in the order in which they sort. */
module StringOrder {
  predicate StringLeq(a: string, b: string) {
    a == "" || (b != "" && (a[0] < b[0] || (a[0] == b[0] && StringLeq(a[1..], b[1..]))))
  }

  /** `a` comes first: it is a beginning of `b`, or smaller where they first differ. */
  lemma {:induction false} StringLeqExactly(a: string, b: string)
    ensures StringLeq(a, b) <==>
            a <= b || exists i :: 0 <= i < |a| && i < |b| && a[..i] == b[..i] && a[i] < b[i]
  {
    if a != "" && b != "" && a[0] == b[0] {
      StringLeqExactly(a[1..], b[1..]);
      assert a == [a[0]] + a[1..] && b == [a[0]] + b[1..];
      if i :| 0 <= i < |a| && i < |b| && a[..i] == b[..i] && a[i] < b[i] {
        assert a[1..][..i - 1] == a[..i][1..] && b[1..][..i - 1] == b[..i][1..];
        assert a[1..][i - 1] < b[1..][i - 1];
      }
      if i :| 0 <= i < |a[1..]| && i < |b[1..]| && a[1..][..i] == b[1..][..i] && a[1..][i] < b[1..][i] {
        assert a[..i + 1] == [a[0]] + a[1..][..i] && b[..i + 1] == [a[0]] + b[1..][..i];
        assert a[i + 1] < b[i + 1];
      }
    } else if a != "" && b != "" {
      assert a[..0] == b[..0];
      forall i | 0 < i < |a| && i < |b| ensures a[..i] != b[..i] {
        assert a[..i][0] == a[0] && b[..i][0] == b[0];
      }
    }
  }

  lemma {:induction false} StringLeqTotal(a: string, b: string)
    ensures StringLeq(a, b) || StringLeq(b, a)
  {
    if a != "" && b != "" {
      StringLeqTotal(a[1..], b[1..]);
    }
  }

  lemma {:induction false} StringLeqAntisymmetric(a: string, b: string)
    requires StringLeq(a, b) && StringLeq(b, a)
    ensures a == b
  {
    if a != "" && b != "" {
      StringLeqAntisymmetric(a[1..], b[1..]);
      assert a == [a[0]] + a[1..] && b == [b[0]] + b[1..];
    }
  }

  lemma {:induction false} StringLeqTransitive(a: string, b: string, c: string)
    requires StringLeq(a, b) && StringLeq(b, c)
    ensures StringLeq(a, c)
  {
    if a != "" && a[0] == b[0] && b[0] == c[0] {
      StringLeqTransitive(a[1..], b[1..], c[1..]);
    }
  }

  lemma {:induction false} PrefixComesFirst(a: string, b: string)
    requires a <= b
    ensures StringLeq(a, b)
  {
    if a != "" {
      PrefixComesFirst(a[1..], b[1..]);
    }
  }

  predicate SortedStrings(s: seq<string>) {
    forall i, j :: 0 <= i < j < |s| ==> StringLeq(s[i], s[j])
  }

  predicate DistinctStrings(s: seq<string>) {
    forall i, j :: 0 <= i < j < |s| ==> s[i] != s[j]
  }

  /** Where a string goes in a sorted list. */
  method Position(s: seq<string>, x: string) returns (i: nat)
    requires SortedStrings(s)
    ensures i <= |s| && (forall j :: 0 <= j < i ==> StringLeq(s[j], x)) && forall j :: i <= j < |s| ==> StringLeq(x, s[j])
  {
    i := 0;
    while i < |s| && StringLeq(s[i], x)
      invariant i <= |s| && forall j :: 0 <= j < i ==> StringLeq(s[j], x)
    {
      i := i + 1;
    }
    forall j | i <= j < |s| ensures StringLeq(x, s[j]) {
      StringLeqTotal(s[i], x);
      if i < j {
        StringLeqTransitive(x, s[i], s[j]);
      }
    }
  }

  /** The members of a set in order. */
  method SortSet(members: set<string>) returns (s: seq<string>)
    ensures SortedStrings(s) && DistinctStrings(s) && forall x :: x in s <==> x in members
  {
    s := [];
    var left := members;
    while left != {}
      invariant left <= members && SortedStrings(s) && DistinctStrings(s)
      invariant forall x :: x in s <==> x in members - left
      decreases left
    {
      var x :| x in left;
      var i := Position(s, x);
      ghost var t := s[..i] + [x] + s[i..];
      InsertKeepsOrder(s, x, i);
      forall y ensures y in t <==> y in s || y == x {
        assert y in s <==> y in s[..i] || y in s[i..] by {
          assert s == s[..i] + s[i..];
        }
      }
      s, left := s[..i] + [x] + s[i..], left - {x};
    }
  }

  lemma InsertKeepsOrder(s: seq<string>, x: string, i: nat)
    requires SortedStrings(s) && DistinctStrings(s) && x !in s && i <= |s|
    requires (forall j :: 0 <= j < i ==> StringLeq(s[j], x)) && forall j :: i <= j < |s| ==> StringLeq(x, s[j])
    ensures SortedStrings(s[..i] + [x] + s[i..]) && DistinctStrings(s[..i] + [x] + s[i..])
  {
    var t := s[..i] + [x] + s[i..];
    forall k ensures 0 <= k < |t| ==> t[k] == if k < i then s[k] else if k == i then x else s[k - 1] {
    }
  }
}
