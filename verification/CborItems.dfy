/** What one well-formed CBOR item is (RFC 8949, section 3), apart from how it is skipped: numbers,
    strings whole or in chunks, arrays and maps of definite or indefinite length, tags, simple
    values and floating-point numbers. */
module CborItems {
  import opened Cbor
  import opened Octets
  import opened Wrappers

  /** Every item carries the octets of its head, or the one octet that opens an indefinite
      form. */
  datatype Item =
    | Number(head: Bytes)
    | Str(head: Bytes, content: Bytes)
    | Chunks(first: Byte, chunks: seq<Item>)
    | Group(head: Bytes, items: seq<Item>)
    | Open(first: Byte, items: seq<Item>)

  /** The octets of a head: the type and five more bits, and the argument, which is those bits
      or stands in the 1, 2, 4 or 8 octets behind. */
  predicate IsHead(head: Bytes, major: Major, info: nat, n: nat) {
    if info < 24 then n == info && head == [32 * major + info]
    else 24 <= info <= 27 && |head| == 1 + Width(info) && head[0] == 32 * major + info && Octets.Number(head[1..]) == n
  }

  predicate HasHead(head: Bytes, major: Major, n: nat) {
    exists info :: 0 <= info < 28 && IsHead(head, major, info, n)
  }

  /** Numbers of both signs, simple values and floating-point numbers have no content; a simple
      value in a second octet is not one of the first 32. */
  predicate IsNumber(head: Bytes) {
    |head| > 0 &&
    var major, info := head[0] / 32, head[0] % 32;
    info < 28 && (major == 0 || major == 1 || major == 7) && |head| == 1 + (if info < 24 then 0 else Width(info)) &&
    !(major == 7 && info == 24 && head[1] < 32)
  }

  predicate IsStr(i: Item, major: Major) {
    i.Str? && HasHead(i.head, major, |i.content|)
  }

  /** An array has as many items as its head says, a map twice as many, and a tag one. */
  ghost predicate Counts(head: Bytes, count: nat) {
    HasHead(head, 4, count) || (count % 2 == 0 && HasHead(head, 5, count / 2)) || (count == 1 && exists n: nat :: HasHead(head, 6, n))
  }

  ghost predicate IsSound(i: Item)
    decreases i
  {
    match i
    case Number(head) => IsNumber(head)
    case Str(_, _) => IsStr(i, 2) || IsStr(i, 3)
    case Chunks(first, chunks) =>
      (first == 0x5f && forall c :: c in chunks ==> IsStr(c, 2)) || (first == 0x7f && forall c :: c in chunks ==> IsStr(c, 3))
    case Group(head, items) => Counts(head, |items|) && forall x :: x in items ==> IsSound(x)
    case Open(first, items) =>
      (first == 0x9f || (first == 0xbf && |items| % 2 == 0)) && forall x :: x in items ==> IsSound(x)
  }

  function Write(i: Item): Bytes
    decreases i, 0
  {
    match i
    case Number(head) => head
    case Str(head, content) => head + content
    case Chunks(first, chunks) => [first] + (WriteAll(chunks) + [0xff])
    case Group(head, items) => head + WriteAll(items)
    case Open(first, items) => [first] + (WriteAll(items) + [0xff])
  }

  function WriteAll(items: seq<Item>): Bytes
    decreases items, 1
  {
    if items == [] then [] else Write(items[0]) + WriteAll(items[1..])
  }

  // ----- an item is skipped -----

  /** One item is read off the front. */
  ghost predicate SkipsTo(bs: Bytes, rest: Bytes) {
    Skip(bs + rest) == Some(rest) && bs != [] && bs[0] != 0xff
  }

  lemma Append(a: Bytes, b: Bytes, c: Bytes)
    ensures a + b + c == a + (b + c)
  {
  }

  lemma HeadIsRead(head: Bytes, major: Major, info: nat, n: nat, rest: Bytes)
    requires IsHead(head, major, info, n)
    ensures ReadHead(head + rest) == Some(Opening(major, info, Some(n), rest)) && head[0] != 0xff
  {
    HeadByte(major, info);
    if info < 24 {
      assert (head + rest)[1..] == rest;
    } else {
      assert head == [head[0]] + head[1..];
      Slices(head[0], head[1..], rest);
    }
  }

  lemma NumberIsSkipped(head: Bytes, rest: Bytes)
    requires IsNumber(head)
    ensures SkipsTo(head, rest)
  {
    var major, info := head[0] / 32, head[0] % 32;
    assert head == [head[0]] + head[1..];
    var n := if info < 24 then info else Octets.Number(head[1..]);
    HeadIsRead(head, major, info, n, rest);
    if major == 7 && info == 24 {
      assert head[1..] == [head[1]] && Octets.Number([head[1]]) == head[1];
    }
  }

  lemma StrIsSkipped(i: Item, major: Major, rest: Bytes)
    requires IsStr(i, major) && (major == 2 || major == 3)
    ensures SkipsTo(Write(i), rest)
  {
    var n := |i.content|;
    var info :| 0 <= info < 28 && IsHead(i.head, major, info, n);
    HeadIsRead(i.head, major, info, n, i.content + rest);
    Append(i.head, i.content, rest);
    assert (i.content + rest)[n..] == rest;
  }

  lemma OpenIsRead(major: Major, first: Byte, rest: Bytes)
    requires first == 32 * major + 31
    ensures ReadHead([first] + rest) == Some(Opening(major, 31, None, rest))
  {
    HeadByte(major, 31);
    assert ([first] + rest)[1..] == rest;
  }

  lemma {:induction false} ChunksAreSkipped(major: Major, chunks: seq<Item>, rest: Bytes)
    requires (major == 2 || major == 3) && forall c :: c in chunks ==> IsStr(c, major)
    ensures SkipChunks(WriteAll(chunks) + ([0xff] + rest), major) == Some(rest)
    decreases chunks
  {
    var end := [0xff] + rest;
    if chunks == [] {
      assert [] + end == end && end[1..] == rest;
    } else {
      var c, more := chunks[0], WriteAll(chunks[1..]) + end;
      assert c in chunks;
      Append(Write(c), WriteAll(chunks[1..]), end);
      Append(c.head, c.content, more);
      var info :| 0 <= info < 28 && IsHead(c.head, major, info, |c.content|);
      HeadIsRead(c.head, major, info, |c.content|, c.content + more);
      assert (c.content + more)[|c.content|..] == more;
      ChunksAreSkipped(major, chunks[1..], rest);
    }
  }

  lemma ChunkedIsSkipped(i: Item, major: Major, rest: Bytes)
    requires i.Chunks? && (major == 2 || major == 3) && i.first == 32 * major + 31 && forall c :: c in i.chunks ==> IsStr(c, major)
    ensures SkipsTo(Write(i), rest)
  {
    Append([i.first], WriteAll(i.chunks) + [0xff], rest);
    Append(WriteAll(i.chunks), [0xff], rest);
    OpenIsRead(major, i.first, WriteAll(i.chunks) + ([0xff] + rest));
    ChunksAreSkipped(major, i.chunks, rest);
  }

  lemma HeadAsks(head: Bytes, major: Major, n: nat, rest: Bytes)
    requires HasHead(head, major, n) && 4 <= major <= 6
    ensures Skip(head + rest) == SkipItems(rest, if major == 4 then n else if major == 5 then 2 * n else 1)
    ensures head != [] && head[0] != 0xff
  {
    var info :| 0 <= info < 28 && IsHead(head, major, info, n);
    HeadIsRead(head, major, info, n, rest);
  }

  /** The head of a group, whatever it is, asks for its items. */
  lemma GroupHead(head: Bytes, count: nat, rest: Bytes)
    requires Counts(head, count)
    ensures Skip(head + rest) == SkipItems(rest, count) && head != [] && head[0] != 0xff
  {
    if HasHead(head, 4, count) {
      HeadAsks(head, 4, count, rest);
    } else if count % 2 == 0 && HasHead(head, 5, count / 2) {
      HeadAsks(head, 5, count / 2, rest);
      assert 2 * (count / 2) == count;
    } else {
      var n: nat :| HasHead(head, 6, n);
      HeadAsks(head, 6, n, rest);
    }
  }

  lemma {:induction false} WrittenIsSkipped(i: Item, rest: Bytes)
    requires IsSound(i)
    ensures SkipsTo(Write(i), rest)
    decreases i, 0
  {
    if i.Number? {
      NumberIsSkipped(i.head, rest);
    } else if i.Str? {
      StrIsSkipped(i, if IsStr(i, 2) then 2 else 3, rest);
    } else if i.Chunks? {
      ChunkedIsSkipped(i, if i.first == 0x5f then 2 else 3, rest);
    } else if i.Group? {
      Append(i.head, WriteAll(i.items), rest);
      GroupHead(i.head, |i.items|, WriteAll(i.items) + rest);
      AllAreSkipped(i.items, rest);
    } else {
      var paired := i.first == 0xbf;
      Append([i.first], WriteAll(i.items) + [0xff], rest);
      Append(WriteAll(i.items), [0xff], rest);
      OpenIsRead(if paired then 5 else 4, i.first, WriteAll(i.items) + ([0xff] + rest));
      AllAreSkippedToBreak(i.items, paired, false, rest);
    }
  }

  lemma {:induction false} AllAreSkipped(items: seq<Item>, rest: Bytes)
    requires forall x :: x in items ==> IsSound(x)
    ensures SkipItems(WriteAll(items) + rest, |items|) == Some(rest)
    decreases items, 1
  {
    if items == [] {
      assert [] + rest == rest;
    } else {
      assert items[0] in items;
      Append(Write(items[0]), WriteAll(items[1..]), rest);
      WrittenIsSkipped(items[0], WriteAll(items[1..]) + rest);
      AllAreSkipped(items[1..], rest);
    }
  }

  lemma {:induction false} AllAreSkippedToBreak(items: seq<Item>, paired: bool, half: bool, rest: Bytes)
    requires (forall x :: x in items ==> IsSound(x)) && (paired ==> |items| % 2 == if half then 1 else 0) && (half ==> paired)
    ensures SkipToBreak(WriteAll(items) + ([0xff] + rest), paired, half) == Some(rest)
    decreases items, 1
  {
    var end := [0xff] + rest;
    if items == [] {
      assert [] + end == end && end[1..] == rest;
    } else {
      assert items[0] in items;
      Append(Write(items[0]), WriteAll(items[1..]), end);
      WrittenIsSkipped(items[0], WriteAll(items[1..]) + end);
      AllAreSkippedToBreak(items[1..], paired, paired && !half, rest);
    }
  }

  // ----- what is skipped is an item -----

  /** A definite head that is read stands at the front. */
  lemma ReadIsHead(bs: Bytes) returns (head: Bytes)
    requires ReadHead(bs).Some? && ReadHead(bs).value.argument.Some?
    ensures var o := ReadHead(bs).value;
            o.info < 28 && IsHead(head, o.major, o.info, o.argument.value) && bs == head + o.rest
  {
    var o := ReadHead(bs).value;
    head := bs[..|bs| - |o.rest|];
    HeadByte(o.major, o.info);
    assert bs[0] == 32 * o.major + o.info;
    if o.info >= 24 {
      assert head[1..] == bs[1..1 + Width(o.info)];
    }
  }

  lemma ReadIsOpen(bs: Bytes)
    requires ReadHead(bs).Some? && ReadHead(bs).value.argument.None?
    ensures var o := ReadHead(bs).value; bs == [32 * o.major + 31] + o.rest && o.info == 31
  {
    HeadByte(bs[0] / 32, bs[0] % 32);
    assert bs == [bs[0]] + bs[1..];
  }

  lemma {:induction false} SkippedIsWritten(bs: Bytes) returns (i: Item)
    requires Skip(bs).Some?
    ensures IsSound(i) && bs == Write(i) + Skip(bs).value
    decreases |bs|, 0
  {
    var o := ReadHead(bs).value;
    if o.argument.None? {
      ReadIsOpen(bs);
      i := OpenIsWritten(bs, o.major, o.rest);
    } else {
      var head := ReadIsHead(bs);
      i := DefiniteIsWritten(bs, head, o.major, o.info, o.argument.value, o.rest);
    }
  }

  lemma {:induction false} OpenIsWritten(bs: Bytes, major: Major, rest: Bytes) returns (i: Item)
    requires Skip(bs).Some? && ReadHead(bs) == Some(Opening(major, 31, None, rest)) && bs == [32 * major + 31] + rest
    ensures IsSound(i) && bs == Write(i) + Skip(bs).value
    decreases |rest|, 3
  {
    var left := Skip(bs).value;
    if major == 2 || major == 3 {
      var chunks := ChunksAreWritten(rest, major);
      i := Chunks(32 * major + 31, chunks);
      Append(WriteAll(chunks), [0xff], left);
      Append([32 * major + 31], WriteAll(chunks) + [0xff], left);
    } else {
      var items := ItemsToBreakAreWritten(rest, major == 5, false);
      i := Open(32 * major + 31, items);
      Append(WriteAll(items), [0xff], left);
      Append([32 * major + 31], WriteAll(items) + [0xff], left);
    }
  }

  lemma {:induction false} DefiniteIsWritten(bs: Bytes, head: Bytes, major: Major, info: nat, n: nat, rest: Bytes) returns (i: Item)
    requires Skip(bs).Some? && ReadHead(bs) == Some(Opening(major, info, Some(n), rest))
    requires info < 28 && IsHead(head, major, info, n) && bs == head + rest
    ensures IsSound(i) && bs == Write(i) + Skip(bs).value
    decreases |rest|, 3
  {
    var left := Skip(bs).value;
    assert HasHead(head, major, n);
    if major <= 1 || major == 7 {
      i := Number(head);
      HeadByte(major, info);
      if major == 7 && info == 24 {
        assert head[1..] == [head[1]] && Octets.Number([head[1]]) == head[1];
      }
    } else if major <= 3 {
      i := Str(head, rest[..n]);
      assert rest == rest[..n] + rest[n..];
      Append(head, rest[..n], left);
    } else {
      var count := if major == 4 then n else if major == 5 then 2 * n else 1;
      assert Counts(head, count);
      var items := ItemsAreWritten(rest, count);
      i := Group(head, items);
      Append(head, WriteAll(items), left);
    }
  }

  lemma {:induction false} ItemsAreWritten(bs: Bytes, n: nat) returns (items: seq<Item>)
    requires SkipItems(bs, n).Some?
    ensures |items| == n && (forall x :: x in items ==> IsSound(x)) && bs == WriteAll(items) + SkipItems(bs, n).value
    decreases |bs|, 1
  {
    if n == 0 {
      items := [];
      assert [] + bs == bs;
    } else {
      var first := SkippedIsWritten(bs);
      var more := ItemsAreWritten(Skip(bs).value, n - 1);
      items := [first] + more;
      OneMoreWritten(first, more, SkipItems(bs, n).value);
    }
  }

  lemma OneMoreWritten(first: Item, more: seq<Item>, left: Bytes)
    ensures WriteAll([first] + more) + left == Write(first) + (WriteAll(more) + left)
  {
    assert ([first] + more)[1..] == more;
    Append(Write(first), WriteAll(more), left);
  }

  lemma OneMoreIsOther(n: nat, half: bool)
    requires n % 2 == if half then 0 else 1
    ensures (n + 1) % 2 == if half then 1 else 0
  {
  }

  lemma {:induction false} ItemsToBreakAreWritten(bs: Bytes, paired: bool, half: bool) returns (items: seq<Item>)
    requires SkipToBreak(bs, paired, half).Some? && (half ==> paired)
    ensures (forall x :: x in items ==> IsSound(x)) && (paired ==> |items| % 2 == if half then 1 else 0)
    ensures bs == WriteAll(items) + ([0xff] + SkipToBreak(bs, paired, half).value)
    decreases |bs|, 1
  {
    if bs[0] == BREAK {
      items := [];
      assert bs == [0xff] + bs[1..] && [] + bs == bs;
    } else {
      var first := SkippedIsWritten(bs);
      var more := ItemsToBreakAreWritten(Skip(bs).value, paired, paired && !half);
      items := [first] + more;
      if paired {
        OneMoreIsOther(|more|, half);
      }
      OneMoreWritten(first, more, [0xff] + SkipToBreak(bs, paired, half).value);
    }
  }

  lemma {:induction false} ChunksAreWritten(bs: Bytes, major: Major) returns (chunks: seq<Item>)
    requires SkipChunks(bs, major).Some?
    ensures (forall c :: c in chunks ==> IsStr(c, major)) && bs == WriteAll(chunks) + ([0xff] + SkipChunks(bs, major).value)
    decreases |bs|, 1
  {
    if bs[0] == BREAK {
      chunks := [];
      assert bs == [0xff] + bs[1..] && [] + bs == bs;
    } else {
      var o := ReadHead(bs).value;
      var head := ReadIsHead(bs);
      var n := o.argument.value;
      var first := Str(head, o.rest[..n]);
      assert HasHead(head, major, n) && o.rest == o.rest[..n] + o.rest[n..];
      var more := ChunksAreWritten(o.rest[n..], major);
      chunks := [first] + more;
      OneMoreWritten(first, more, [0xff] + SkipChunks(bs, major).value);
      Append(head, o.rest[..n], o.rest[n..]);
    }
  }

  /** Octets are one item exactly when they are those of a well-formed one. */
  lemma IsItemExactly(bs: Bytes)
    ensures IsItem(bs) <==> exists i :: IsSound(i) && bs == Write(i)
  {
    if IsItem(bs) {
      var i := SkippedIsWritten(bs);
      assert bs == Write(i) + [] == Write(i);
    }
    if i :| IsSound(i) && bs == Write(i) {
      WrittenIsSkipped(i, []);
      assert Write(i) + [] == Write(i);
    }
  }
}
