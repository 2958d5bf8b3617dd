/** Name attributes in order: by type, then by value, compared as strings. */
module NameOrder {
  import opened StringOrder

  datatype Attribute = Attribute(kind: string, value: string)

  predicate Leq(a: Attribute, b: Attribute) {
    if a.kind != b.kind then StringLeq(a.kind, b.kind) else StringLeq(a.value, b.value)
  }

  lemma LeqTotal(a: Attribute, b: Attribute)
    ensures Leq(a, b) || Leq(b, a)
  {
    StringLeqTotal(a.kind, b.kind);
    StringLeqTotal(a.value, b.value);
  }

  lemma LeqAntisymmetric(a: Attribute, b: Attribute)
    requires Leq(a, b) && Leq(b, a)
    ensures a == b
  {
    if a.kind != b.kind {
      StringLeqAntisymmetric(a.kind, b.kind);
    } else {
      StringLeqAntisymmetric(a.value, b.value);
    }
  }

  lemma LeqTransitive(a: Attribute, b: Attribute, c: Attribute)
    requires Leq(a, b) && Leq(b, c)
    ensures Leq(a, c)
  {
    if a.kind == b.kind == c.kind {
      StringLeqTransitive(a.value, b.value, c.value);
    } else if a.kind != b.kind && b.kind != c.kind {
      StringLeqTransitive(a.kind, b.kind, c.kind);
      if a.kind == c.kind {
        StringLeqAntisymmetric(a.kind, b.kind);
      }
    }
  }

  // ----- sorting -----

  predicate IsSorted(s: seq<Attribute>) {
    forall i, j :: 0 <= i < j < |s| ==> Leq(s[i], s[j])
  }

  /** Attributes are in order when their types are, and the values of one type are. */
  lemma SortedExactly(s: seq<Attribute>)
    ensures IsSorted(s) <==>
            forall i, j :: 0 <= i < j < |s| ==>
              StringLeq(s[i].kind, s[j].kind) && (s[i].kind == s[j].kind ==> StringLeq(s[i].value, s[j].value))
  {
    forall i, j | 0 <= i < j < |s| ensures s[i].kind == s[j].kind ==> StringLeq(s[i].kind, s[j].kind) {
      StringLeqTotal(s[i].kind, s[j].kind);
    }
  }

  function Insert(s: seq<Attribute>, x: Attribute): seq<Attribute>
    decreases |s|
  {
    if s == [] || Leq(s[|s| - 1], x) then s + [x]
    else Insert(s[..|s| - 1], x) + [s[|s| - 1]]
  }

  function Sort(s: seq<Attribute>): seq<Attribute> {
    if s == [] then [] else Insert(Sort(s[..|s| - 1]), s[|s| - 1])
  }

  lemma {:induction false} InsertAdds(s: seq<Attribute>, x: Attribute)
    ensures multiset(Insert(s, x)) == multiset(s) + multiset{x}
    decreases |s|
  {
    if s != [] && !Leq(s[|s| - 1], x) {
      InsertAdds(s[..|s| - 1], x);
      assert s == s[..|s| - 1] + [s[|s| - 1]];
    }
  }

  lemma {:induction false} SortPermutes(s: seq<Attribute>)
    ensures multiset(Sort(s)) == multiset(s)
  {
    if s != [] {
      SortPermutes(s[..|s| - 1]);
      InsertAdds(Sort(s[..|s| - 1]), s[|s| - 1]);
      assert s == s[..|s| - 1] + [s[|s| - 1]];
    }
  }

  lemma {:induction false} InsertSorts(s: seq<Attribute>, x: Attribute)
    requires IsSorted(s)
    ensures IsSorted(Insert(s, x))
    decreases |s|
  {
    if s == [] {
    } else if Leq(s[|s| - 1], x) {
      forall i | 0 <= i < |s| ensures Leq(s[i], x) {
        if i < |s| - 1 {
          LeqTransitive(s[i], s[|s| - 1], x);
        }
      }
    } else {
      var rest, last := s[..|s| - 1], s[|s| - 1];
      InsertSorts(rest, x);
      InsertAdds(rest, x);
      LeqTotal(x, last);
      var t := Insert(rest, x);
      forall i | 0 <= i < |t| ensures Leq(t[i], last) {
        assert t[i] in multiset(t);
        if t[i] != x {
          assert t[i] in rest;
        }
      }
    }
  }

  lemma {:induction false} SortSorts(s: seq<Attribute>)
    ensures IsSorted(Sort(s))
  {
    if s != [] {
      SortSorts(s[..|s| - 1]);
      InsertSorts(Sort(s[..|s| - 1]), s[|s| - 1]);
    }
  }

  lemma LastIsGreatest(s: seq<Attribute>, x: Attribute)
    requires IsSorted(s) && x in s
    ensures s != [] && Leq(x, s[|s| - 1])
  {
    var i :| 0 <= i < |s| && s[i] == x;
    if i == |s| - 1 {
      LeqTotal(x, x);
    }
  }

  lemma WithoutLast(s: seq<Attribute>) returns (front: seq<Attribute>)
    requires s != [] && IsSorted(s)
    ensures s == front + [s[|s| - 1]] && IsSorted(front)
    ensures multiset(front) == multiset(s) - multiset{s[|s| - 1]}
  {
    front := s[..|s| - 1];
    assert s == front + [s[|s| - 1]];
  }

  lemma SameLast(s: seq<Attribute>, t: seq<Attribute>)
    requires s != [] && t != [] && IsSorted(s) && IsSorted(t) && multiset(s) == multiset(t)
    ensures s[|s| - 1] == t[|t| - 1]
  {
    assert s[|s| - 1] in multiset(t) && t[|t| - 1] in multiset(s);
    LastIsGreatest(t, s[|s| - 1]);
    LastIsGreatest(s, t[|t| - 1]);
    LeqAntisymmetric(s[|s| - 1], t[|t| - 1]);
  }

  /** A collection has one sorted order. */
  lemma {:induction false} SortedIsUnique(s: seq<Attribute>, t: seq<Attribute>)
    requires IsSorted(s) && IsSorted(t) && multiset(s) == multiset(t)
    ensures s == t
    decreases |s|
  {
    assert |s| == |multiset(s)| == |multiset(t)| == |t|;
    if s != [] {
      SameLast(s, t);
      var front := WithoutLast(s);
      var other := WithoutLast(t);
      SortedIsUnique(front, other);
    }
  }

  /** Sorting depends on the collection only. */
  lemma SortForgetsOrder(s: seq<Attribute>, t: seq<Attribute>)
    ensures Sort(s) == Sort(t) <==> multiset(s) == multiset(t)
  {
    SortPermutes(s);
    SortPermutes(t);
    SortSorts(s);
    SortSorts(t);
    if multiset(s) == multiset(t) {
      SortedIsUnique(Sort(s), Sort(t));
    }
  }

  lemma SortTwice(s: seq<Attribute>)
    ensures Sort(Sort(s)) == Sort(s)
  {
    SortPermutes(s);
    SortForgetsOrder(Sort(s), s);
  }

  lemma InsertStep(s: seq<Attribute>, x: Attribute, j: nat)
    requires 0 < j <= |s| && !Leq(s[j - 1], x)
    ensures Insert(s[..j], x) + s[j..] == Insert(s[..j - 1], x) + s[j - 1..]
  {
    assert s[..j][..j - 1] == s[..j - 1];
    assert [s[j - 1]] + s[j..] == s[j - 1..];
    assert (Insert(s[..j - 1], x) + [s[j - 1]]) + s[j..] == Insert(s[..j - 1], x) + ([s[j - 1]] + s[j..]);
  }

  lemma InsertStop(s: seq<Attribute>, x: Attribute, j: nat)
    requires j <= |s| && (j == 0 || Leq(s[j - 1], x))
    ensures Insert(s[..j], x) == s[..j] + [x]
  {
  }

  /** The attributes of a name sorted in place. */
  method SortInPlace(a: array<Attribute>)
    modifies a
    ensures a[..] == Sort(old(a[..]))
  {
    var i := 0;
    while i < a.Length
      invariant 0 <= i <= a.Length
      invariant a[..i] == Sort(old(a[..])[..i])
      invariant forall k :: i <= k < a.Length ==> a[k] == old(a[k])
    {
      ghost var before := a[..i];
      var x := a[i];
      ghost var after := a[i + 1..];
      InsertInPlace(a, i, x);
      assert forall k :: i < k < a.Length ==> a[k] == after[k - i - 1];
      assert old(a[..])[..i + 1][..i] == old(a[..])[..i];
      i := i + 1;
    }
    assert a[..] == a[..i] && old(a[..])[..i] == old(a[..]);
  }

  lemma Swapped(s: seq<Attribute>, x: Attribute, j: nat)
    requires 0 < j <= |s|
    ensures var t := s[..j] + [x] + s[j..];
            t[j - 1] == s[j - 1] && t[j] == x && t[j := s[j - 1]][j - 1 := x] == s[..j - 1] + [x] + s[j - 1..]
  {
  }

  method InsertInPlace(a: array<Attribute>, i: nat, x: Attribute)
    requires i < a.Length && a[i] == x
    modifies a
    ensures a[..i + 1] == Insert(old(a[..i]), x)
    ensures a[i + 1..] == old(a[i + 1..])
  {
    ghost var s := a[..i];
    var j := i;
    assert s[..j] == s && s[j..] == [] && Insert(s, x) + [] == Insert(s, x);
    while j > 0 && !Leq(a[j - 1], x)
      invariant 0 <= j <= i
      invariant a[..i + 1] == s[..j] + [x] + s[j..]
      invariant a[i + 1..] == old(a[i + 1..])
      invariant Insert(s, x) == Insert(s[..j], x) + s[j..]
    {
      Swapped(s, x, j);
      ghost var t := a[..i + 1];
      assert a[j - 1] == t[j - 1] && a[j] == t[j];
      InsertStep(s, x, j);
      a[j - 1], a[j] := a[j], a[j - 1];
      assert a[..i + 1] == t[j := s[j - 1]][j - 1 := x];
      j := j - 1;
    }
    assert j > 0 ==> a[..i + 1][j - 1] == s[j - 1];
    InsertStop(s, x, j);
  }
}
