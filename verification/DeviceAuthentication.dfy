/** DeviceAuthenticationBytes (ISO 18013-5, section 9.1.3.4): what a device signs over.
    The encoding can be read back, so no two inputs share one. */
module DeviceAuthentication {
  import opened Octets
  import opened Cbor
  import opened Wrappers

  /** "DeviceAuthentication" in UTF-8. */
  const CONTEXT: Bytes :=
    [0x44, 0x65, 0x76, 0x69, 0x63, 0x65, 0x41, 0x75, 0x74, 0x68,
     0x65, 0x6e, 0x74, 0x69, 0x63, 0x61, 0x74, 0x69, 0x6f, 0x6e]

  /** The head of an array of four. */
  const ARRAY: Bytes := [0x84]

  /** Tag 24, an encoded CBOR data item. */
  const ENCODED_ITEM: Bytes := [0xd8, 0x18]

  const EMPTY_MAP: Bytes := [0xa0]

  /** Absent namespaces stand for the encoded empty map; present but empty ones are
      refused. */
  function Normalised(nameSpaces: Option<Bytes>): Option<Bytes> {
    if nameSpaces.None? then Some(EMPTY_MAP)
    else if nameSpaces.value == [] then None
    else nameSpaces
  }

  function Inner(transcript: Bytes, docType: Bytes, nameSpaces: Bytes): Bytes {
    ARRAY + (TextString(CONTEXT) + (transcript + (TextString(docType) + (ENCODED_ITEM + ByteString(nameSpaces)))))
  }

  /** The bytes to sign, or None when the namespaces or the transcript are refused. */
  function Build(transcript: Bytes, docType: Bytes, nameSpaces: Option<Bytes>): Option<Bytes> {
    var ns := Normalised(nameSpaces);
    if ns.None? || transcript == [] || !IsItem(transcript) then None
    else Some(ENCODED_ITEM + ByteString(Inner(transcript, docType, ns.value)))
  }

  /** The shape of older builds: nothing tagged, the transcript a byte string. */
  function BuildLegacy(transcript: Bytes, docType: Bytes, nameSpaces: Option<Bytes>): Option<Bytes> {
    var ns := Normalised(nameSpaces);
    if ns.None? then None
    else Some(ARRAY + (TextString(CONTEXT) + (ByteString(transcript) + (TextString(docType) + ByteString(ns.value)))))
  }

  /** The context is the text "DeviceAuthentication". */
  lemma ContextIsText()
    ensures |CONTEXT| == |"DeviceAuthentication"|
    ensures forall i :: 0 <= i < |CONTEXT| ==> CONTEXT[i] == "DeviceAuthentication"[i] as int
  {
  }

  /** What is signed, in CBOR heads: a byte string under tag 24 of an array of four, the context
      as text, the transcript as it is, the document type as text, and the namespaces as a byte
      string under tag 24. */
  lemma LayoutExactly(transcript: Bytes, docType: Bytes, nameSpaces: Option<Bytes>)
    requires Build(transcript, docType, nameSpaces).Some?
    ensures var ns := if nameSpaces.None? then Head(5, 0) else nameSpaces.value;
            var inner := Head(4, 4) + ((Head(3, 20) + CONTEXT) + (transcript + ((Head(3, |docType|) + docType) +
                         (Head(6, 24) + (Head(2, |ns|) + ns)))));
            Build(transcript, docType, nameSpaces).value == Head(6, 24) + (Head(2, |inner|) + inner)
  {
    FixedHeads();
  }

  lemma FixedHeads()
    ensures Head(4, 4) == ARRAY && Head(6, 24) == ENCODED_ITEM && Head(5, 0) == EMPTY_MAP && |CONTEXT| == 20
  {
    PowerGrows(1, 8);
    HeadExactly(6, 24);
    HeadExactly(4, 4);
    HeadExactly(5, 0);
  }

  // ----- reading it back -----

  datatype Parts = Parts(transcript: Bytes, docType: Bytes, nameSpaces: Bytes)

  function Strip(prefix: Bytes, bs: Bytes): Option<Bytes> {
    if prefix <= bs then Some(bs[|prefix|..]) else None
  }

  function ReadNameSpaces(transcript: Bytes, docType: Bytes, bs: Bytes): Option<Parts> {
    var tagged := Strip(ENCODED_ITEM, bs);
    if tagged.None? then None
    else
      var ns := ReadString(tagged.value, 2);
      if ns.None? || ns.value.1 != [] then None else Some(Parts(transcript, docType, ns.value.0))
  }

  function ReadDocType(transcript: Bytes, bs: Bytes): Option<Parts> {
    var docType := ReadString(bs, 3);
    if docType.None? then None else ReadNameSpaces(transcript, docType.value.0, docType.value.1)
  }

  function ReadTranscript(bs: Bytes): Option<Parts> {
    var rest := Skip(bs);
    if rest.None? then None else ReadDocType(bs[..|bs| - |rest.value|], rest.value)
  }

  function ReadInner(bs: Bytes): Option<Parts> {
    var items := Strip(ARRAY, bs);
    if items.None? then None
    else
      var context := ReadString(items.value, 3);
      if context.None? || context.value.0 != CONTEXT then None else ReadTranscript(context.value.1)
  }

  function Read(bs: Bytes): Option<Parts> {
    var tagged := Strip(ENCODED_ITEM, bs);
    if tagged.None? then None
    else
      var inner := ReadString(tagged.value, 2);
      if inner.None? || inner.value.1 != [] then None else ReadInner(inner.value.0)
  }

  lemma StripConcat(prefix: Bytes, bs: Bytes)
    ensures Strip(prefix, prefix + bs) == Some(bs)
  {
  }

  lemma LastStringReads(major: Major, bs: Bytes)
    requires |bs| < Power(8)
    ensures ReadString(Head(major, |bs|) + bs, major) == Some((bs, []))
  {
    StringReads(major, bs, []);
    assert (Head(major, |bs|) + bs) + [] == Head(major, |bs|) + bs;
  }

  lemma NameSpacesRead(p: Parts)
    requires |p.nameSpaces| < Power(8)
    ensures ReadNameSpaces(p.transcript, p.docType, ENCODED_ITEM + ByteString(p.nameSpaces)) == Some(p)
  {
    StripConcat(ENCODED_ITEM, ByteString(p.nameSpaces));
    LastStringReads(2, p.nameSpaces);
  }

  lemma DocTypeReads(p: Parts)
    requires |p.docType| < Power(8) && |p.nameSpaces| < Power(8)
    ensures ReadDocType(p.transcript, TextString(p.docType) + (ENCODED_ITEM + ByteString(p.nameSpaces))) == Some(p)
  {
    StringReads(3, p.docType, ENCODED_ITEM + ByteString(p.nameSpaces));
    NameSpacesRead(p);
  }

  lemma TranscriptReads(p: Parts)
    requires IsItem(p.transcript) && |p.docType| < Power(8) && |p.nameSpaces| < Power(8)
    ensures ReadTranscript(p.transcript + (TextString(p.docType) + (ENCODED_ITEM + ByteString(p.nameSpaces)))) == Some(p)
  {
    var rest := TextString(p.docType) + (ENCODED_ITEM + ByteString(p.nameSpaces));
    SkipExtends(p.transcript, rest);
    assert [] + rest == rest && (p.transcript + rest)[..|p.transcript|] == p.transcript;
    DocTypeReads(p);
  }

  lemma InnerReads(p: Parts)
    requires IsItem(p.transcript) && |Inner(p.transcript, p.docType, p.nameSpaces)| < Power(8)
    ensures ReadInner(Inner(p.transcript, p.docType, p.nameSpaces)) == Some(p)
  {
    var rest := p.transcript + (TextString(p.docType) + (ENCODED_ITEM + ByteString(p.nameSpaces)));
    StripConcat(ARRAY, TextString(CONTEXT) + rest);
    PowerGrows(1, 8);
    StringReads(3, CONTEXT, rest);
    TranscriptReads(p);
  }

  /** Its length fits a CBOR head. */
  predicate Fits(transcript: Bytes, docType: Bytes, nameSpaces: Option<Bytes>) {
    Normalised(nameSpaces).Some? ==> |Inner(transcript, docType, Normalised(nameSpaces).value)| < Power(8)
  }

  /** The transcript, the document type and the namespaces can be read back. */
  lemma BuildReads(transcript: Bytes, docType: Bytes, nameSpaces: Option<Bytes>)
    requires Build(transcript, docType, nameSpaces).Some? && Fits(transcript, docType, nameSpaces)
    ensures Read(Build(transcript, docType, nameSpaces).value) ==
            Some(Parts(transcript, docType, Normalised(nameSpaces).value))
  {
    var p := Parts(transcript, docType, Normalised(nameSpaces).value);
    var inner := Inner(p.transcript, p.docType, p.nameSpaces);
    StripConcat(ENCODED_ITEM, ByteString(inner));
    LastStringReads(2, inner);
    InnerReads(p);
  }

  /** Absent namespaces coincide with the encoded empty map and nothing else. */
  lemma NormalisedExactly(n: Option<Bytes>, n': Option<Bytes>)
    requires n != Some([]) && n' != Some([])
    ensures Normalised(n) == Normalised(n') <==>
            n == n' || (n.None? && n' == Some(EMPTY_MAP)) || (n == Some(EMPTY_MAP) && n'.None?)
  {
  }

  /** Two inputs give the same bytes exactly when they are the same, absent namespaces
      counting as the encoded empty map. */
  lemma BuildIsInjective(t: Bytes, d: Bytes, n: Option<Bytes>, t': Bytes, d': Bytes, n': Option<Bytes>)
    requires Build(t, d, n).Some? && Fits(t, d, n) && Build(t', d', n').Some? && Fits(t', d', n')
    ensures Build(t, d, n) == Build(t', d', n') <==> Parts(t, d, Normalised(n).value) == Parts(t', d', Normalised(n').value)
  {
    var a, b := Build(t, d, n).value, Build(t', d', n').value;
    assert Read(a) == Some(Parts(t, d, Normalised(n).value)) by {
      BuildReads(t, d, n);
    }
    assert Read(b) == Some(Parts(t', d', Normalised(n').value)) by {
      BuildReads(t', d', n');
    }
  }

  /** Exactly these inputs are refused. */
  lemma BuildRefusesExactly(t: Bytes, d: Bytes, n: Option<Bytes>)
    ensures Build(t, d, n).None? <==> n == Some([]) || !IsItem(t)
  {
    assert Skip([]) == None;
  }

  /** No output is one of the older shape. */
  lemma NeverLegacy(t: Bytes, d: Bytes, n: Option<Bytes>, t': Bytes, d': Bytes, n': Option<Bytes>)
    requires Build(t, d, n).Some? && BuildLegacy(t', d', n').Some?
    ensures Build(t, d, n) != BuildLegacy(t', d', n')
  {
    assert Build(t, d, n).value[0] == 0xd8;
    assert BuildLegacy(t', d', n').value[0] == 0x84;
  }
}
