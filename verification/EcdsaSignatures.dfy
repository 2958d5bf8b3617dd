/** ECDSA signatures for JWS (section 3.4 of RFC 7518): a DER pair becomes two
    fixed-width integers. */
module EcdsaSignatures {
  import opened Octets
  import opened Wrappers

  // ----- the fewest octets -----

  function Minimal(n: nat): Bytes {
    if n == 0 then [] else Minimal(n / 256) + [n % 256]
  }

  lemma {:induction false} MinimalFitsExactly(n: nat, k: nat)
    ensures |Minimal(n)| <= k <==> n < Power(k)
    decreases n
  {
    if n > 0 {
      if k > 0 {
        MinimalFitsExactly(n / 256, k - 1);
      }
    } else {
      PowerGrows(0, k);
    }
  }

  lemma {:induction false} NumberOfMinimal(n: nat)
    ensures Number(Minimal(n)) == n
    ensures n > 0 ==> Minimal(n)[0] > 0
  {
    if n > 0 {
      NumberOfMinimal(n / 256);
      assert Minimal(n)[..|Minimal(n)| - 1] == Minimal(n / 256);
      if n < 256 {
        assert Minimal(n / 256) == [];
      }
    }
  }

  /** Padding to k octets. */
  lemma {:induction false} FixedIsPadded(n: nat, k: nat)
    requires |Minimal(n)| <= k
    ensures Fixed(n, k) == Fixed(0, k - |Minimal(n)|) + Minimal(n)
    decreases n
  {
    if n > 0 {
      FixedIsPadded(n / 256, k - 1);
    }
  }

  lemma {:induction false} ZeroOctets(z: nat, i: nat)
    requires i < z
    ensures Fixed(0, z)[i] == 0
  {
    if i < z - 1 {
      ZeroOctets(z - 1, i);
    }
  }

  // ----- DER -----

  const SEQUENCE: Byte := 0x30
  const INTEGER: Byte := 0x02

  /** A non-negative INTEGER's contents: a zero octet keeps the sign bit clear. */
  function Contents(n: nat): Bytes {
    var m := Minimal(n);
    if m == [] || m[0] >= 0x80 then [0] + m else m
  }

  function Length(n: nat): Bytes {
    if n < 0x80 then [n] else [0x80 + (|Minimal(n)| % 0x80)] + Minimal(n)
  }

  function Element(tag: Byte, contents: Bytes): Bytes {
    [tag] + (Length(|contents|) + contents)
  }

  function Der(r: nat, s: nat): Bytes {
    Element(SEQUENCE, Element(INTEGER, Contents(r)) + Element(INTEGER, Contents(s)))
  }

  /** Lengths are read only in their shortest form, and below 2^31. */
  function ReadLength(bs: Bytes): Option<(nat, Bytes)> {
    if bs == [] || bs[0] == 0x80 then None
    else if bs[0] < 0x80 then Some((bs[0], bs[1..]))
    else
      var w := bs[0] - 0x80;
      if w > 4 || |bs| < 1 + w || bs[1] == 0 then None
      else
        var n := Number(bs[1..1 + w]);
        if n < 0x80 || n >= 0x8000_0000 then None else Some((n, bs[1 + w..]))
  }

  /** An element with a given tag: its contents, and what follows. */
  function ReadElement(tag: Byte, bs: Bytes): Option<(Bytes, Bytes)> {
    if bs == [] || bs[0] != tag then None
    else
      var l := ReadLength(bs[1..]);
      if l.None? || l.value.0 > |l.value.1| then None
      else Some((l.value.1[..l.value.0], l.value.1[l.value.0..]))
  }

  /** Two's complement, refused when a shorter form exists. */
  function ReadInteger(contents: Bytes): Option<int> {
    if contents == [] then None
    else if |contents| > 1 && ((contents[0] == 0 && contents[1] < 0x80) || (contents[0] == 0xff && contents[1] >= 0x80)) then None
    else if contents[0] < 0x80 then Some(Number(contents))
    else Some(Number(contents) - Power(|contents|))
  }

  /** Further elements after the second are ignored. */
  function ReadPair(body: Bytes): Option<(int, int)> {
    var first := ReadElement(INTEGER, body);
    if first.None? then None
    else
      var second := ReadElement(INTEGER, first.value.1);
      if second.None? then None
      else
        var r, s := ReadInteger(first.value.0), ReadInteger(second.value.0);
        if r.None? || s.None? then None else Some((r.value, s.value))
  }

  /** A whole DER pair with nothing after it. */
  function ReadDer(bs: Bytes): Option<(int, int)> {
    var seqn := ReadElement(SEQUENCE, bs);
    if seqn.None? || seqn.value.1 != [] then None else ReadPair(seqn.value.0)
  }

  lemma ContentsRead(n: nat)
    ensures ReadInteger(Contents(n)) == Some(n)
  {
    NumberOfMinimal(n);
    var m := Minimal(n);
    if m == [] || m[0] >= 0x80 {
      assert Fixed(0, 1) == [0];
      ZerosAddNothing(1, m);
    }
  }

  lemma LengthReads(n: nat, rest: Bytes)
    requires n < 0x8000_0000
    ensures ReadLength(Length(n) + rest) == Some((n, rest))
  {
    if n < 0x80 {
      assert (Length(n) + rest)[1..] == rest;
    } else {
      LongLengthReads(n, rest);
    }
  }

  lemma LongLengthReads(n: nat, rest: Bytes)
    requires 0x80 <= n < 0x8000_0000
    ensures ReadLength(Length(n) + rest) == Some((n, rest))
  {
    LongLengthOctets(n);
    NumberOfMinimal(n);
    LongLengthSlices(n, rest);
  }

  lemma LongLengthOctets(n: nat)
    requires 0x80 <= n < 0x8000_0000
    ensures 0 < |Minimal(n)| <= 4
  {
    MinimalFitsExactly(n, 4);
    assert Power(4) == 256 * Power(3) && Power(3) == 256 * Power(2) && Power(2) == 256 * Power(1) && Power(1) == 256;
  }

  lemma LongLengthSlices(n: nat, rest: Bytes)
    requires n >= 0x80 && 0 < |Minimal(n)| <= 4
    ensures var bs := Length(n) + rest; var w := |Minimal(n)|;
            bs[0] == 0x80 + w && |bs| >= 1 + w && bs[1..1 + w] == Minimal(n) && bs[1 + w..] == rest
  {
  }

  lemma ElementReads(tag: Byte, contents: Bytes, rest: Bytes)
    requires |contents| < 0x8000_0000
    ensures ReadElement(tag, Element(tag, contents) + rest) == Some((contents, rest))
  {
    var bs := Element(tag, contents) + rest;
    assert bs[1..] == Length(|contents|) + (contents + rest);
    LengthReads(|contents|, contents + rest);
    assert (contents + rest)[..|contents|] == contents && (contents + rest)[|contents|..] == rest;
  }

  lemma LastElementReads(tag: Byte, contents: Bytes)
    requires |contents| < 0x8000_0000
    ensures ReadElement(tag, Element(tag, contents)) == Some((contents, []))
  {
    ElementReads(tag, contents, []);
    assert Element(tag, contents) + [] == Element(tag, contents);
  }

  lemma LengthIsShort(n: nat)
    requires n < 0x8000_0000
    ensures 1 <= |Length(n)| <= 5
  {
    MinimalFitsExactly(n, 4);
  }

  lemma ContentsSize(n: nat, k: nat)
    requires n < Power(k)
    ensures 1 <= |Contents(n)| <= k + 1
  {
    MinimalFitsExactly(n, k);
  }

  /** Reading a DER pair gives back the two numbers. */
  lemma DerReads(r: nat, s: nat, k: nat)
    requires r < Power(k) && s < Power(k) && k < 0x1000_0000
    ensures ReadDer(Der(r, s)) == Some((r, s))
  {
    var a, b := Contents(r), Contents(s);
    ContentsSize(r, k);
    ContentsSize(s, k);
    LengthIsShort(|a|);
    LengthIsShort(|b|);
    var body := Element(INTEGER, a) + Element(INTEGER, b);
    LastElementReads(SEQUENCE, body);
    ElementReads(INTEGER, a, Element(INTEGER, b));
    LastElementReads(INTEGER, b);
    ContentsRead(r);
    ContentsRead(s);
  }

  // ----- what reads as a pair -----

  lemma {:induction false} MinimalOfNumber(bs: Bytes)
    requires bs == [] || bs[0] > 0
    ensures Minimal(Number(bs)) == bs && (bs != [] ==> Number(bs) > 0)
    decreases |bs|
  {
    if bs != [] {
      var init, last := bs[..|bs| - 1], bs[|bs| - 1];
      assert bs == init + [last];
      MinimalOfNumber(init);
      assert Number(bs) == 256 * Number(init) + last;
      assert Number(bs) / 256 == Number(init) && Number(bs) % 256 == last;
      if init == [] {
        assert Number(init) == 0;
      }
    }
  }

  /** A length is read from its own encoding only. */
  lemma LengthIsRead(bs: Bytes)
    requires ReadLength(bs).Some?
    ensures var (n, rest) := ReadLength(bs).value; bs == Length(n) + rest && n < 0x8000_0000
  {
    if bs[0] < 0x80 {
      assert bs == [bs[0]] + bs[1..];
    } else {
      var w := bs[0] - 0x80;
      var x := bs[1..1 + w];
      MinimalOfNumber(x);
      assert bs == [bs[0]] + x + bs[1 + w..];
    }
  }

  lemma Rejoin(tag: Byte, length: Bytes, contents: Bytes, rest: Bytes)
    ensures [tag] + (length + (contents + rest)) == [tag] + (length + contents) + rest
  {
  }

  lemma ElementIsRead(tag: Byte, bs: Bytes)
    requires ReadElement(tag, bs).Some?
    ensures var (contents, rest) := ReadElement(tag, bs).value;
            bs == Element(tag, contents) + rest && |contents| < 0x8000_0000
  {
    LengthIsRead(bs[1..]);
    var (n, after) := ReadLength(bs[1..]).value;
    var contents, rest := after[..n], after[n..];
    assert after == contents + rest && bs == [tag] + bs[1..];
    Rejoin(tag, Length(n), contents, rest);
  }

  lemma ContentsAreRead(contents: Bytes)
    requires ReadInteger(contents).Some? && ReadInteger(contents).value >= 0
    ensures contents == Contents(ReadInteger(contents).value)
  {
    var n := ReadInteger(contents).value;
    if contents[0] >= 0x80 {
      NumberFits(contents);
      assert false;
    }
    if contents[0] == 0 {
      var m := contents[1..];
      assert contents == Fixed(0, 1) + m;
      ZerosAddNothing(1, m);
      MinimalOfNumber(m);
    } else {
      MinimalOfNumber(contents);
    }
  }

  lemma {:induction false} NumberFits(bs: Bytes)
    ensures Number(bs) < Power(|bs|)
    decreases |bs|
  {
    if bs != [] {
      NumberFits(bs[..|bs| - 1]);
    }
  }

  /** The body of a sequence of two integers, and whatever follows them in it. */
  function Body(r: nat, s: nat, extra: Bytes): Bytes {
    Element(INTEGER, Contents(r)) + (Element(INTEGER, Contents(s)) + extra)
  }

  lemma PairIsRead(body: Bytes, r: nat, s: nat) returns (extra: Bytes)
    requires ReadPair(body) == Some((r, s))
    ensures body == Body(r, s, extra)
  {
    ElementIsRead(INTEGER, body);
    var (a, rest) := ReadElement(INTEGER, body).value;
    ElementIsRead(INTEGER, rest);
    var (b, more) := ReadElement(INTEGER, rest).value;
    ContentsAreRead(a);
    ContentsAreRead(b);
    extra := more;
  }

  lemma BodyReads(r: nat, s: nat, extra: Bytes)
    requires |Body(r, s, extra)| < 0x8000_0000
    ensures ReadPair(Body(r, s, extra)) == Some((r, s))
  {
    ElementReads(INTEGER, Contents(r), Element(INTEGER, Contents(s)) + extra);
    ElementReads(INTEGER, Contents(s), extra);
    ContentsRead(r);
    ContentsRead(s);
  }

  /** Exactly the octets that read as a pair of numbers: its DER form, with perhaps more after
      the two numbers inside the sequence, and nothing after it. */
  lemma ReadDerExactly(bs: Bytes, r: nat, s: nat)
    ensures ReadDer(bs) == Some((r, s)) <==>
            exists extra :: |Body(r, s, extra)| < 0x8000_0000 && bs == Element(SEQUENCE, Body(r, s, extra))
  {
    if ReadDer(bs) == Some((r, s)) {
      ElementIsRead(SEQUENCE, bs);
      var body := ReadElement(SEQUENCE, bs).value.0;
      var extra := PairIsRead(body, r, s);
      assert bs == Element(SEQUENCE, body) + [] == Element(SEQUENCE, body);
    }
    if extra :| |Body(r, s, extra)| < 0x8000_0000 && bs == Element(SEQUENCE, Body(r, s, extra)) {
      LastElementReads(SEQUENCE, Body(r, s, extra));
      BodyReads(r, s, extra);
    }
  }

  // ----- fixed width -----

  function Magnitude(n: int): nat {
    if n < 0 then -n else n
  }

  /** Both numbers side by side, each in k octets; the sign is not kept. */
  method EncodeFixedSize(r: int, s: int, k: nat) returns (res: Result<Bytes>)
    ensures res == if Magnitude(r) < Power(k) && Magnitude(s) < Power(k)
                   then Ok(Fixed(Magnitude(r), k) + Fixed(Magnitude(s), k)) else Err
  {
    var rBytes, sBytes := Minimal(Magnitude(r)), Minimal(Magnitude(s));
    MinimalFitsExactly(Magnitude(r), k);
    MinimalFitsExactly(Magnitude(s), k);
    if |rBytes| > k || |sBytes| > k {
      return Err;
    }
    var sig := new Byte[2 * k](i => 0);
    CopyInto(sig, k - |rBytes|, rBytes);
    CopyInto(sig, 2 * k - |sBytes|, sBytes);
    SideBySide(sig[..], Magnitude(r), Magnitude(s), k);
    return Ok(sig[..]);
  }

  /** `half` is zeros and then the octets of `n`. */
  ghost predicate Padded(half: Bytes, n: nat, k: nat) {
    |half| == k && |Minimal(n)| <= k &&
    forall i :: 0 <= i < k ==> half[i] == if i < k - |Minimal(n)| then 0 else Minimal(n)[i - (k - |Minimal(n)|)]
  }

  lemma PaddedIsFixed(half: Bytes, n: nat, k: nat)
    requires Padded(half, n, k)
    ensures half == Fixed(n, k)
  {
    MinimalFitsExactly(n, k);
    FixedIsPadded(n, k);
    forall i | 0 <= i < k - |Minimal(n)| ensures Fixed(n, k)[i] == 0 {
      ZeroOctets(k - |Minimal(n)|, i);
    }
  }

  lemma SideBySide(sig: Bytes, r: nat, s: nat, k: nat)
    requires |sig| == 2 * k && Padded(sig[..k], r, k) && Padded(sig[k..], s, k)
    ensures sig == Fixed(r, k) + Fixed(s, k)
  {
    PaddedIsFixed(sig[..k], r, k);
    PaddedIsFixed(sig[k..], s, k);
  }

  method CopyInto(to: array<Byte>, at: nat, from: Bytes)
    requires at + |from| <= to.Length
    modifies to
    ensures forall i :: 0 <= i < |from| ==> to[at + i] == from[i]
    ensures forall i :: 0 <= i < to.Length && !(at <= i < at + |from|) ==> to[i] == old(to[i])
  {
    for j := 0 to |from|
      invariant forall i :: 0 <= i < j ==> to[at + i] == from[i]
      invariant forall i :: 0 <= i < to.Length && !(at <= i < at + j) ==> to[i] == old(to[i])
    {
      to[at + j] := from[j];
    }
  }

  function KeySize(algorithm: string): Option<nat> {
    if algorithm == "ES256" then Some(32) else if algorithm == "ES384" then Some(48)
    else if algorithm == "ES512" then Some(66) else None
  }

  /** The octets of a number, by algorithm (section 3.4 of RFC 7518); no other algorithm is
      converted. */
  lemma SizesExactly(algorithm: string, signature: Bytes)
    ensures KeySize(algorithm) == Some(32) <==> algorithm == "ES256"
    ensures KeySize(algorithm) == Some(48) <==> algorithm == "ES384"
    ensures KeySize(algorithm) == Some(66) <==> algorithm == "ES512"
    ensures algorithm !in {"ES256", "ES384", "ES512"} ==> Normalised(signature, algorithm) == Ok(signature)
  {
  }

  /** What a signature is normalised to. */
  function Normalised(signature: Bytes, algorithm: string): Result<Bytes> {
    var size := KeySize(algorithm);
    if size.None? || |signature| == 2 * size.value then Ok(signature)
    else
      var k, pair := size.value, ReadDer(signature);
      if pair.None? || Magnitude(pair.value.0) >= Power(k) || Magnitude(pair.value.1) >= Power(k) then Err
      else Ok(Fixed(Magnitude(pair.value.0), k) + Fixed(Magnitude(pair.value.1), k))
  }

  method EnsureJwsSignature(signature: Bytes, algorithm: string) returns (res: Result<Bytes>)
    ensures res == Normalised(signature, algorithm)
  {
    var size := KeySize(algorithm);
    if size.None? {
      return Ok(signature);
    }
    if |signature| == 2 * size.value {
      return Ok(signature);
    }
    var pair := ReadDer(signature);
    if pair.None? {
      return Err;
    }
    res := EncodeFixedSize(pair.value.0, pair.value.1, size.value);
  }

  /** Two fixed-width numbers read back. */
  function Halves(signature: Bytes, k: nat): (nat, nat)
    requires |signature| == 2 * k
  {
    (Number(signature[..k]), Number(signature[k..]))
  }

  lemma HalvesOfFixed(r: nat, s: nat, k: nat)
    requires r < Power(k) && s < Power(k)
    ensures Halves(Fixed(r, k) + Fixed(s, k), k) == (r, s)
  {
    NumberOfFixed(r, k);
    NumberOfFixed(s, k);
    var sig := Fixed(r, k) + Fixed(s, k);
    assert sig[..k] == Fixed(r, k) && sig[k..] == Fixed(s, k);
  }

  /** Every accepted ECDSA signature has the fixed width. */
  lemma AlwaysFixedWidth(signature: Bytes, algorithm: string)
    requires KeySize(algorithm).Some?
    ensures var res := Normalised(signature, algorithm);
            res.Ok? ==> |res.value| == 2 * KeySize(algorithm).value
    ensures Normalised(signature, algorithm).Ok? ==>
            Normalised(Normalised(signature, algorithm).value, algorithm) == Normalised(signature, algorithm)
  {
  }

  lemma {:induction false} FullWidthFirst(n: nat, k: nat)
    requires k > 0 && n < Power(k) && Fixed(n, k)[0] > 0
    ensures |Minimal(n)| == k
  {
    MinimalFitsExactly(n, k);
    FixedIsPadded(n, k);
    if |Minimal(n)| < k {
      ZeroOctets(k - |Minimal(n)|, 0);
    }
  }

  lemma PaddingIsZero(n: nat, k: nat, i: nat)
    requires i + |Minimal(n)| < k
    ensures Fixed(n, k)[i] == 0
  {
    FixedIsPadded(n, k);
    ZeroOctets(k - |Minimal(n)|, i);
  }

  /** Where the tag of the second number stands. */
  function TagAt(r: nat, s: nat): int {
    |Der(r, s)| - |Contents(s)| - |Length(|Contents(s)|)| - 1
  }

  lemma TagBeforeLast(r: nat, s: nat)
    ensures |Contents(r)| + 3 <= TagAt(r, s) < |Der(r, s)| - |Contents(s)|
    ensures Der(r, s)[TagAt(r, s)] == INTEGER && Der(r, s)[0] == SEQUENCE
  {
    var first, last := Element(INTEGER, Contents(r)), Element(INTEGER, Contents(s));
    var der := Der(r, s);
    assert |Length(|Contents(r)|)| >= 1 && |Length(|first + last|)| >= 1;
    assert der == ([SEQUENCE] + (Length(|first + last|) + first)) + last;
    assert der[|der| - |last|] == last[0];
  }

  lemma NotFixed(der: Bytes, r: nat, s: nat, k: nat, at: int)
    requires k > 0 && r < Power(k) && s < Power(k) && |der| == 2 * k
    requires der[0] > 0 && |Minimal(r)| <= at < 2 * k - |Minimal(s)| && der[at] > 0
    ensures der != Fixed(r, k) + Fixed(s, k)
  {
    var raw := Fixed(r, k) + Fixed(s, k);
    if der == raw {
      assert raw[0] == Fixed(r, k)[0];
      FullWidthFirst(r, k);
      MinimalFitsExactly(s, k);
      assert raw[at] == Fixed(s, k)[at - k];
      PaddingIsZero(s, k, at - k);
    }
  }

  /** A DER pair is never its own fixed-width form: the tag of its second number would
      stand in the padding. */
  lemma DerIsNotFixed(r: nat, s: nat, k: nat)
    requires k > 0 && r < Power(k) && s < Power(k) && |Der(r, s)| == 2 * k
    ensures Der(r, s) != Fixed(r, k) + Fixed(s, k)
  {
    TagBeforeLast(r, s);
    NotFixed(Der(r, s), r, s, k, TagAt(r, s));
  }

  lemma HalvesIdentify(signature: Bytes, r: nat, s: nat, k: nat)
    requires |signature| == 2 * k && Halves(signature, k) == (r, s)
    ensures signature == Fixed(r, k) + Fixed(s, k)
  {
    FixedOfNumber(signature[..k]);
    FixedOfNumber(signature[k..]);
    assert signature == signature[..k] + signature[k..];
  }

  lemma CoincidenceFails(r: nat, s: nat, k: nat)
    requires k > 0 && r < Power(k) && s < Power(k) && |Der(r, s)| == 2 * k
    ensures Halves(Der(r, s), k) != (r, s)
  {
    DerIsNotFixed(r, s, k);
    if Halves(Der(r, s), k) == (r, s) {
      HalvesIdentify(Der(r, s), r, s, k);
    }
  }

  lemma PairNormalises(signature: Bytes, r: nat, s: nat, algorithm: string)
    requires KeySize(algorithm).Some? && r < Power(KeySize(algorithm).value) && s < Power(KeySize(algorithm).value)
    requires ReadDer(signature) == Some((r, s)) && |signature| != 2 * KeySize(algorithm).value
    ensures var res := Normalised(signature, algorithm);
            res.Ok? && |res.value| == 2 * KeySize(algorithm).value &&
            Halves(res.value, KeySize(algorithm).value) == (r, s)
  {
    HalvesOfFixed(r, s, KeySize(algorithm).value);
  }

  /** The DER form of (r, s) is turned into octets that decode back to (r, s) exactly
      when it is not already 2k octets long. */
  lemma DerNormalisesExactly(r: nat, s: nat, algorithm: string)
    requires KeySize(algorithm).Some? && r < Power(KeySize(algorithm).value) && s < Power(KeySize(algorithm).value)
    ensures var k := KeySize(algorithm).value; var res := Normalised(Der(r, s), algorithm);
            res.Ok? && |res.value| == 2 * k &&
            (Halves(res.value, k) == (r, s) <==> |Der(r, s)| != 2 * k)
  {
    var k := KeySize(algorithm).value;
    if |Der(r, s)| == 2 * k {
      CoincidenceFails(r, s, k);
    } else {
      DerReads(r, s, k);
      PairNormalises(Der(r, s), r, s, algorithm);
    }
  }

  lemma MinimalOfOne(n: nat)
    requires 0 < n < 256
    ensures Minimal(n) == [n]
  {
    assert n / 256 == 0 && n % 256 == n;
    assert Minimal(0) == [];
  }

  /** The DER form of a pair of small numbers, octet by octet: a sequence of two integers. */
  lemma SmallPair(r: nat, s: nat)
    requires 0 < r < 128 && 0 < s < 128
    ensures Der(r, s) == [0x30, 6, 0x02, 1, r, 0x02, 1, s]
  {
    MinimalOfOne(r);
    MinimalOfOne(s);
    assert Contents(r) == [r] && Contents(s) == [s];
    assert Element(INTEGER, [r]) == [0x02, 1, r] && Element(INTEGER, [s]) == [0x02, 1, s];
  }

  // ----- when the two forms have one length -----

  /** How many octets of numbers make a DER pair as long as the fixed-width form. */
  function Coincidence(algorithm: string): nat {
    if algorithm == "ES256" then 58 else if algorithm == "ES384" then 90 else 125
  }

  lemma ElementLength(tag: Byte, contents: Bytes)
    requires |contents| < 256
    ensures |Element(tag, contents)| == |contents| + if |contents| < 0x80 then 2 else 3
  {
    if |contents| >= 0x80 {
      MinimalFitsExactly(|contents|, 0);
      MinimalFitsExactly(|contents|, 1);
      assert Power(1) == 256 * Power(0);
    }
  }

  lemma DerLength(r: nat, s: nat)
    requires |Contents(r)| < 0x80 && |Contents(s)| < 0x80 && |Contents(r)| + |Contents(s)| < 0xf0
    ensures var n := |Contents(r)| + |Contents(s)|;
            |Der(r, s)| == n + if n < 0x7c then 6 else 7
  {
    ElementLength(INTEGER, Contents(r));
    ElementLength(INTEGER, Contents(s));
    ElementLength(SEQUENCE, Element(INTEGER, Contents(r)) + Element(INTEGER, Contents(s)));
  }

  /** So which pairs are passed on unconverted shows in the octets of their numbers. */
  lemma CoincidesExactly(r: nat, s: nat, algorithm: string)
    requires KeySize(algorithm).Some? && r < Power(KeySize(algorithm).value) && s < Power(KeySize(algorithm).value)
    ensures |Der(r, s)| == 2 * KeySize(algorithm).value <==> |Contents(r)| + |Contents(s)| == Coincidence(algorithm)
  {
    var k := KeySize(algorithm).value;
    ContentsSize(r, k);
    ContentsSize(s, k);
    DerLength(r, s);
  }

  lemma {:induction false} PowerContents(n: nat)
    ensures |Contents(Power(n))| == n + 1
  {
    var m := Minimal(Power(n));
    MinimalFitsExactly(Power(n), n);
    MinimalFitsExactly(Power(n), n + 1);
    PowerStartsWithOne(n);
  }

  lemma {:induction false} PowerStartsWithOne(n: nat)
    ensures Minimal(Power(n)) != [] && Minimal(Power(n))[0] == 1
  {
    if n == 0 {
      assert Minimal(0) == [];
      assert Minimal(1) == [] + [1];
    } else {
      assert Power(n) / 256 == Power(n - 1) && Power(n) % 256 == 0;
      PowerStartsWithOne(n - 1);
    }
  }

  lemma {:induction false} PowerRises(j: nat, k: nat)
    requires j < k
    ensures Power(j) < Power(k)
  {
    PowerGrows(j + 1, k);
    assert Power(j + 1) == 256 * Power(j);
  }

  /** For each algorithm there is a pair whose DER form is passed on as it is, and then reads
      as other numbers. */
  lemma SomePairIsUnconverted(algorithm: string) returns (r: nat, s: nat)
    requires KeySize(algorithm).Some?
    ensures var k := KeySize(algorithm).value;
            r < Power(k) && s < Power(k) && |Der(r, s)| == 2 * k && Normalised(Der(r, s), algorithm) == Ok(Der(r, s)) &&
            Halves(Der(r, s), k) != (r, s)
  {
    var k := KeySize(algorithm).value;
    var n := Coincidence(algorithm) / 2 - 1;
    var m := Coincidence(algorithm) - 2 - n;
    r, s := Power(n), Power(m);
    PowerRises(n, k);
    PowerRises(m, k);
    PowerContents(n);
    PowerContents(m);
    CoincidesExactly(r, s, algorithm);
    CoincidenceFails(r, s, k);
  }

  /** A pair is refused exactly when a number needs more than k octets and the whole is not
      2k octets long. Elements of 2^28 octets and more are not considered. */
  lemma OverlongIsRefused(r: nat, s: nat, algorithm: string)
    requires KeySize(algorithm).Some? && |Minimal(r)| < 0x1000_0000 && |Minimal(s)| < 0x1000_0000
    ensures var k := KeySize(algorithm).value;
            Normalised(Der(r, s), algorithm).Err? <==> |Der(r, s)| != 2 * k && (|Minimal(r)| > k || |Minimal(s)| > k)
  {
    var k := KeySize(algorithm).value;
    var w := if |Minimal(r)| > |Minimal(s)| then |Minimal(r)| else |Minimal(s)|;
    MinimalFitsExactly(r, w);
    MinimalFitsExactly(s, w);
    DerReads(r, s, w);
    MinimalFitsExactly(r, k);
    MinimalFitsExactly(s, k);
  }
}
