/** Claim documents: nested JSON-like values, dotted claim paths and the
    path operations that the derivation, filter and mapping code share. */
module ClaimValues {
  import opened Wrappers

  /** A claim value. `Strings` is the concrete string slice that attribute
      mapping produces, which the filter treats as an array; `Other` stands for
      numbers and booleans. */
  datatype Value =
    | Object(fields: map<string, Value>)
    | Array(items: seq<Value>)
    | Strings(texts: seq<string>)
    | Text(text: string)
    | Other(code: int)
    | Null

  type Claims = map<string, Value>
  type Path = seq<string>

  /** `x[k]` as an option. */
  function Field(m: Claims, k: string): Option<Value> {
    if k in m then Some(m[k]) else None
  }

  // ----- dotted paths -----

  /** Splits a dotted claim path into its segments; the empty string has one
      empty segment. */
  function Split(s: string): (parts: Path)
    ensures |parts| > 0
  {
    if s == [] then [""] else Push(s[0], Split(s[1..]))
  }

  /** Puts one more character in front of a split path. */
  function Push(c: char, rest: Path): (parts: Path)
    requires |rest| > 0
    ensures |parts| > 0
  {
    if c == '.' then [""] + rest else [[c] + rest[0]] + rest[1..]
  }

  function Join(parts: Path): string
    requires |parts| > 0
  {
    if |parts| == 1 then parts[0] else parts[0] + ['.'] + Join(parts[1..])
  }

  lemma PushOfConcat(c: char, x: Path, y: Path)
    requires |x| > 0
    ensures Push(c, x + y) == Push(c, x) + y
  {
    assert (x + y)[1..] == x[1..] + y;
  }

  lemma {:induction false} SplitOfConcat(a: string, b: string)
    ensures Split(a + ['.'] + b) == Split(a) + Split(b)
  {
    var s := a + ['.'] + b;
    if a == [] {
      assert s[0] == '.' && s[1..] == b;
      assert Split(s) == Push('.', Split(b));
    } else {
      SplitOfConcat(a[1..], b);
      assert s[0] == a[0] && s[1..] == a[1..] + ['.'] + b;
      PushOfConcat(a[0], Split(a[1..]), Split(b));
    }
  }

  lemma {:induction false} JoinOfPush(c: char, rest: Path)
    requires |rest| > 0
    ensures Join(Push(c, rest)) == [c] + Join(rest)
  {
    var parts := Push(c, rest);
    if c == '.' {
      assert parts[1..] == rest;
    } else {
      assert parts[1..] == rest[1..];
    }
  }

  lemma {:induction false} JoinOfSplit(s: string)
    ensures Join(Split(s)) == s
  {
    if s != [] {
      JoinOfSplit(s[1..]);
      JoinOfPush(s[0], Split(s[1..]));
    }
  }

  lemma {:induction false} JoinOfConcat(x: Path, y: Path)
    requires |x| > 0 && |y| > 0
    ensures Join(x + y) == Join(x) + ['.'] + Join(y)
  {
    if |x| == 1 {
      assert (x + y)[1..] == y;
    } else {
      JoinOfConcat(x[1..], y);
      assert (x + y)[1..] == x[1..] + y;
    }
  }

  /** The textual test for "one dotted path holds the other" is the prefix
      order on segments. */
  lemma DottedPrefixIsSegmentPrefix(a: string, b: string)
    ensures (a == b || a + ['.'] <= b) <==> Split(a) <= Split(b)
  {
    if a + ['.'] <= b {
      var rest := b[|a| + 1..];
      assert b == a + ['.'] + rest;
      SplitOfConcat(a, rest);
    }
    if Split(a) <= Split(b) {
      JoinOfSplit(a);
      JoinOfSplit(b);
      var rest := Split(b)[|Split(a)|..];
      assert Split(b) == Split(a) + rest;
      if rest == [] {
        assert Split(a) == Split(b);
      } else {
        JoinOfConcat(Split(a), rest);
      }
    }
  }

  // ----- reading, clearing, merging -----

  /** The value at `path` below `v`, walking through objects only. */
  function Walk(v: Value, path: Path): Option<Value>
    decreases |path|
  {
    if path == [] then Some(v)
    else if v.Object? && path[0] in v.fields then Walk(v.fields[path[0]], path[1..])
    else None
  }

  predicate IsObject(v: Option<Value>) {
    v.Some? && v.value.Object?
  }

  predicate ObjectAt(m: Claims, path: Path) {
    IsObject(Walk(Object(m), path))
  }

  /** `m` without the claim at `path`; unchanged when its parent is no object. */
  function Clear(m: Claims, path: Path): (r: Claims)
    requires |path| > 0
    decreases |path|
  {
    if |path| == 1 then m - {path[0]}
    else if path[0] in m && m[path[0]].Object? then
      m[path[0] := Object(Clear(m[path[0]].fields, path[1..]))]
    else m
  }

  function ClearAll(m: Claims, paths: seq<string>): Claims {
    if paths == [] then m
    else Clear(ClearAll(m, paths[..|paths| - 1]), Split(paths[|paths| - 1]))
  }

  /** Deep merge: where both sides hold an object they are merged, otherwise
      the source replaces the destination. */
  function Merge(dst: Claims, src: Claims): (r: Claims)
    ensures r.Keys == dst.Keys + src.Keys
    decreases Object(src)
  {
    map k | k in dst.Keys + src.Keys ::
      if k !in src then dst[k]
      else if k in dst && dst[k].Object? && src[k].Object? then Object(Merge(dst[k].fields, src[k].fields))
      else src[k]
  }
}
