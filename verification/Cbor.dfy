/** CBOR data items (RFC 8949): heads in their shortest form, and what one well-formed
    item is (appendix C). */
module Cbor {
  import opened Octets
  import opened Wrappers

  // ----- heads -----

  type Major = m: int | 0 <= m < 8

  /** The shortest head of a major type and argument. */
  function Head(major: Major, n: nat): Bytes {
    if n < 24 then [32 * major + n]
    else if n < Power(1) then [32 * major + 24] + Fixed(n, 1)
    else if n < Power(2) then [32 * major + 25] + Fixed(n, 2)
    else if n < Power(4) then [32 * major + 26] + Fixed(n, 4)
    else [32 * major + 27] + Fixed(n, 8)
  }

  /** The octets of a head (section 3 of RFC 8949): the type in the first three bits, a small
      argument in the other five, and a larger one in 1, 2, 4 or 8 octets behind it, as few as
      hold it, most significant first. */
  lemma HeadExactly(major: Major, n: nat)
    requires n < Power(8)
    ensures n < 24 ==> Head(major, n) == [32 * major + n]
    ensures 24 <= n < 0x100 ==> Head(major, n) == [32 * major + 24, n]
    ensures 0x100 <= n < 0x1_0000 ==> Head(major, n) == [32 * major + 25, n / 0x100, n % 0x100]
    ensures 0x1_0000 <= n < 0x1_0000_0000 ==>
              |Head(major, n)| == 5 && Head(major, n)[0] == 32 * major + 26 && Number(Head(major, n)[1..]) == n
    ensures 0x1_0000_0000 <= n ==>
              |Head(major, n)| == 9 && Head(major, n)[0] == 32 * major + 27 && Number(Head(major, n)[1..]) == n
  {
    assert Power(1) == 0x100 && Power(2) == 0x1_0000;
    assert Power(3) == 0x100_0000 && Power(4) == 0x1_0000_0000;
    if 24 <= n < 0x1_0000 {
      assert Fixed(n, 1) == [n % 256] && Fixed(n, 2) == Fixed(n / 256, 1) + [n % 256];
    }
    if n >= 0x1_0000 {
      var k := if n < 0x1_0000_0000 then 4 else 8;
      NumberOfFixed(n, k);
      assert Head(major, n)[1..] == Fixed(n, k);
    }
  }

  /** A head read back: `argument` is None for the indefinite form. */
  datatype Opening = Opening(major: Major, info: nat, argument: Option<nat>, rest: Bytes)

  function Width(info: nat): nat {
    if info == 24 then 1 else if info == 25 then 2 else if info == 26 then 4 else 8
  }

  function ReadHead(bs: Bytes): (r: Option<Opening>)
    ensures r.Some? ==> |r.value.rest| < |bs|
  {
    if bs == [] then None
    else
      var major, info := bs[0] / 32, bs[0] % 32;
      if info < 24 then Some(Opening(major, info, Some(info), bs[1..]))
      else if info == 31 then Some(Opening(major, info, None, bs[1..]))
      else if info > 27 || |bs| < 1 + Width(info) then None
      else Some(Opening(major, info, Some(Number(bs[1..1 + Width(info)])), bs[1 + Width(info)..]))
  }

  lemma HeadByte(major: Major, info: nat)
    requires info < 32
    ensures (32 * major + info) / 32 == major && (32 * major + info) % 32 == info
  {
  }

  lemma Slices(b: Byte, middle: Bytes, rest: Bytes)
    ensures var bs := [b] + middle + rest;
            bs[0] == b && bs[1..1 + |middle|] == middle && bs[1 + |middle|..] == rest
  {
  }

  lemma LongHeadReads(major: Major, info: nat, n: nat, rest: Bytes)
    requires 24 <= info <= 27 && n < Power(Width(info))
    ensures ReadHead([32 * major + info] + Fixed(n, Width(info)) + rest) == Some(Opening(major, info, Some(n), rest))
  {
    NumberOfFixed(n, Width(info));
    HeadByte(major, info);
    Slices(32 * major + info, Fixed(n, Width(info)), rest);
  }

  lemma ShortHeadReads(major: Major, n: nat, rest: Bytes)
    requires n < 24
    ensures ReadHead([32 * major + n] + rest) == Some(Opening(major, n, Some(n), rest))
  {
    HeadByte(major, n);
    assert ([32 * major + n] + rest)[1..] == rest;
  }

  /** Reading a head gives back what was written, and what follows it. */
  lemma HeadReads(major: Major, n: nat, rest: Bytes)
    requires n < Power(8)
    ensures var r := ReadHead(Head(major, n) + rest);
            r.Some? && r.value.major == major && r.value.argument == Some(n) && r.value.rest == rest
  {
    if n < 24 {
      ShortHeadReads(major, n, rest);
    } else if n < Power(1) {
      LongHeadReads(major, 24, n, rest);
    } else if n < Power(2) {
      LongHeadReads(major, 25, n, rest);
    } else if n < Power(4) {
      LongHeadReads(major, 26, n, rest);
    } else {
      LongHeadReads(major, 27, n, rest);
    }
  }

  lemma ReadHeadExtends(bs: Bytes, x: Bytes)
    requires ReadHead(bs).Some?
    ensures var a, b := ReadHead(bs).value, ReadHead(bs + x);
            b == Some(a.(rest := a.rest + x))
  {
    var info := bs[0] % 32;
    assert (bs + x)[0] == bs[0];
    if info < 24 || info == 31 {
      assert (bs + x)[1..] == bs[1..] + x;
    } else {
      var w := Width(info);
      assert (bs + x)[1..1 + w] == bs[1..1 + w] && (bs + x)[1 + w..] == bs[1 + w..] + x;
    }
  }

  // ----- one well-formed item -----

  const BREAK: Byte := 0xff

  /** What is left after the first item, if it is well-formed. */
  function Skip(bs: Bytes): (r: Option<Bytes>)
    ensures r.Some? ==> |r.value| < |bs|
    decreases |bs|, 0
  {
    var h := ReadHead(bs);
    if h.None? then None
    else
      var Opening(major, info, argument, rest) := h.value;
      if argument.None? then
        if major == 2 || major == 3 then SkipChunks(rest, major)
        else if major == 4 || major == 5 then SkipToBreak(rest, major == 5, false)
        else None
      else
        var n := argument.value;
        if major <= 1 then Some(rest)
        else if major <= 3 then (if n <= |rest| then Some(rest[n..]) else None)
        else if major == 4 then SkipItems(rest, n)
        else if major == 5 then SkipItems(rest, 2 * n)
        else if major == 6 then SkipItems(rest, 1)
        else if info == 24 && n < 32 then None else Some(rest)
  }

  function SkipItems(bs: Bytes, n: nat): (r: Option<Bytes>)
    ensures r.Some? ==> |r.value| <= |bs|
    decreases |bs|, 1
  {
    if n == 0 then Some(bs)
    else
      var r := Skip(bs);
      if r.None? then None else SkipItems(r.value, n - 1)
  }

  /** Items up to a break; in a map, keys and values alternate. */
  function SkipToBreak(bs: Bytes, paired: bool, half: bool): (r: Option<Bytes>)
    ensures r.Some? ==> |r.value| < |bs|
    decreases |bs|, 1
  {
    if bs != [] && bs[0] == BREAK then (if half then None else Some(bs[1..]))
    else
      var r := Skip(bs);
      if r.None? then None else SkipToBreak(r.value, paired, paired && !half)
  }

  /** The chunks of an indefinite string are definite strings of the same type. */
  function SkipChunks(bs: Bytes, major: Major): (r: Option<Bytes>)
    ensures r.Some? ==> |r.value| < |bs|
    decreases |bs|, 1
  {
    if bs != [] && bs[0] == BREAK then Some(bs[1..])
    else
      var h := ReadHead(bs);
      if h.None? || h.value.major != major || h.value.argument.None? || h.value.argument.value > |h.value.rest| then None
      else SkipChunks(h.value.rest[h.value.argument.value..], major)
  }

  predicate IsItem(bs: Bytes) {
    Skip(bs) == Some([])
  }

  // ----- items delimit themselves -----

  lemma {:induction false} SkipExtends(bs: Bytes, x: Bytes)
    requires Skip(bs).Some?
    ensures Skip(bs + x) == Some(Skip(bs).value + x)
    decreases |bs|, 0
  {
    ReadHeadExtends(bs, x);
    var Opening(major, info, argument, rest) := ReadHead(bs).value;
    if argument.None? {
      if major <= 3 {
        SkipChunksExtends(rest, major, x);
      } else {
        SkipToBreakExtends(rest, major == 5, false, x);
      }
    } else {
      var n := argument.value;
      if 2 <= major <= 3 {
        assert (rest + x)[n..] == rest[n..] + x;
      } else if major == 4 {
        SkipItemsExtends(rest, n, x);
      } else if major == 5 {
        SkipItemsExtends(rest, 2 * n, x);
      } else if major == 6 {
        SkipItemsExtends(rest, 1, x);
      }
    }
  }

  lemma {:induction false} SkipItemsExtends(bs: Bytes, n: nat, x: Bytes)
    requires SkipItems(bs, n).Some?
    ensures SkipItems(bs + x, n) == Some(SkipItems(bs, n).value + x)
    decreases |bs|, 1
  {
    if n > 0 {
      SkipExtends(bs, x);
      SkipItemsExtends(Skip(bs).value, n - 1, x);
    }
  }

  lemma {:induction false} SkipToBreakExtends(bs: Bytes, paired: bool, half: bool, x: Bytes)
    requires SkipToBreak(bs, paired, half).Some?
    ensures SkipToBreak(bs + x, paired, half) == Some(SkipToBreak(bs, paired, half).value + x)
    decreases |bs|, 1
  {
    if bs[0] == BREAK {
      assert (bs + x)[1..] == bs[1..] + x;
    } else {
      SkipExtends(bs, x);
      SkipToBreakExtends(Skip(bs).value, paired, paired && !half, x);
    }
  }

  lemma {:induction false} SkipChunksExtends(bs: Bytes, major: Major, x: Bytes)
    requires SkipChunks(bs, major).Some?
    ensures SkipChunks(bs + x, major) == Some(SkipChunks(bs, major).value + x)
    decreases |bs|, 1
  {
    if bs[0] == BREAK {
      assert (bs + x)[1..] == bs[1..] + x;
    } else {
      ReadHeadExtends(bs, x);
      var h := ReadHead(bs).value;
      var n := h.argument.value;
      assert (h.rest + x)[n..] == h.rest[n..] + x;
      SkipChunksExtends(h.rest[n..], major, x);
    }
  }

  // ----- strings -----

  function ByteString(bs: Bytes): Bytes {
    Head(2, |bs|) + bs
  }

  function TextString(bs: Bytes): Bytes {
    Head(3, |bs|) + bs
  }

  /** A definite string of a major type, and what follows it. */
  function ReadString(bs: Bytes, major: Major): Option<(Bytes, Bytes)> {
    var h := ReadHead(bs);
    if h.None? || h.value.major != major || h.value.argument.None? || h.value.argument.value > |h.value.rest| then None
    else Some((h.value.rest[..h.value.argument.value], h.value.rest[h.value.argument.value..]))
  }

  lemma StringReads(major: Major, bs: Bytes, rest: Bytes)
    requires |bs| < Power(8)
    ensures ReadString((Head(major, |bs|) + bs) + rest, major) == Some((bs, rest))
  {
    HeadReads(major, |bs|, bs + rest);
    assert Head(major, |bs|) + (bs + rest) == (Head(major, |bs|) + bs) + rest;
    assert (bs + rest)[..|bs|] == bs && (bs + rest)[|bs|..] == rest;
  }
}
