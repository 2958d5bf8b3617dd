/** How a context is stored as BSON, with its DCQL query written twice, and when
    resuming it in MongoDB gives the document the memory store would give. */
module ResumeBackends {
  import opened AuthDocuments
  import opened Wrappers

  /** A stored document. A field that may be left out is an option; `dcqlQuery` is
      the structured copy of the query and `dcqlQueryExact` its JSON text. */
  datatype Stored = Stored(
    sessionID: string,
    createdAt: Option<int>,
    expiresAt: int,
    requestURI: Option<string>,
    code: Option<string>,
    state: Option<string>,
    verifierResponseCode: Option<string>,
    ephemeralKeyID: Option<string>,
    requestObjectID: Option<string>,
    authSession: Option<string>,
    issuerState: Option<string>,
    token: Option<Token>,
    accessToken: Option<string>,
    refreshToken: Option<string>,
    forfeited: Option<bool>,
    redeemedBy: Option<seq<string>>,
    txCodeAttempts: Option<int>,
    consent: Option<bool>,
    authenticSource: Option<string>,
    identifier: Option<string>,
    authProvider: Option<string>,
    dataSource: Option<string>,
    remoteName: Option<string>,
    dpopThumbprint: Option<string>,
    walletClientID: Option<string>,
    walletURI: Option<string>,
    codeChallenge: Option<string>,
    codeChallengeMethod: Option<string>,
    dcqlQuery: Option<Dcql>,
    dcqlQueryExact: Option<Dcql>,
    rest: int)

  /** How BSON stores a number literal: possibly rounded, or not at all. */
  type Rounding = real -> Option<real>

  const NANOS_PER_MILLI := 1000000

  // ----- numbers and times -----

  function RoundAll(round: Rounding, numbers: seq<real>): Option<seq<real>> {
    if numbers == [] then Some([])
    else
      var first, rest := round(numbers[0]), RoundAll(round, numbers[1..]);
      if first.None? || rest.None? then None else Some([first.value] + rest.value)
  }

  /** The query as BSON holds it, if it can. */
  function RoundQuery(round: Rounding, q: Dcql): Option<Dcql> {
    var numbers := RoundAll(round, q.numbers);
    if numbers.None? then None else Some(Dcql(q.shape, numbers.value))
  }

  function Rounded(round: Rounding, q: Option<Dcql>): Option<Dcql> {
    if q.None? then None else RoundQuery(round, q.value)
  }

  /** A query comes back as it was exactly when BSON holds each number exactly. */
  lemma {:induction false} RoundsExactly(round: Rounding, numbers: seq<real>)
    ensures RoundAll(round, numbers) == Some(numbers) <==>
            forall i :: 0 <= i < |numbers| ==> round(numbers[i]) == Some(numbers[i])
  {
    if numbers != [] {
      RoundsExactly(round, numbers[1..]);
      assert numbers == [numbers[0]] + numbers[1..];
      var first, rest := round(numbers[0]), RoundAll(round, numbers[1..]);
      if first.Some? && rest.Some? {
        assert ([first.value] + rest.value)[0] == first.value && ([first.value] + rest.value)[1..] == rest.value;
      }
      if forall i :: 0 <= i < |numbers| ==> round(numbers[i]) == Some(numbers[i]) {
        forall i | 0 <= i < |numbers[1..]| ensures round(numbers[1..][i]) == Some(numbers[1..][i]) {
          assert numbers[1..][i] == numbers[i + 1];
        }
      }
    }
  }

  /** A BSON time has milliseconds. */
  function Millis(t: int): int {
    t / NANOS_PER_MILLI
  }

  predicate MilliExact(t: int) {
    t % 1_000_000 == 0
  }

  // ----- encoding and decoding -----

  function Opt(s: string): Option<string> {
    if s == "" then None else Some(s)
  }

  function Or<T>(v: Option<T>, empty: T): T {
    if v.None? then empty else v.value
  }

  /** The stored fields, with the two copies of the query given; an empty value is left
      out. */
  function Fields(d: Doc, structured: Option<Dcql>, exact: Option<Dcql>): Stored {
    Stored(
      d.sessionID,
      if d.createdAt == 0 then None else Some(Millis(d.createdAt)),
      d.expiresAt,
      Opt(d.requestURI), Opt(d.code), Opt(d.state), Opt(d.verifierResponseCode), Opt(d.ephemeralKeyID),
      Opt(d.requestObjectID), Opt(d.authSession), Opt(d.issuerState),
      d.token, Opt(d.accessToken), Opt(d.refreshToken),
      if d.forfeited then Some(true) else None,
      if d.redeemedBy == [] then None else Some(d.redeemedBy),
      if d.txCodeAttempts == 0 then None else Some(d.txCodeAttempts),
      if d.consent then Some(true) else None,
      Opt(d.authenticSource), Opt(d.identifier), Opt(d.authProvider), Opt(d.dataSource), Opt(d.remoteName),
      Opt(d.dpopThumbprint), Opt(d.walletClientID), Opt(d.walletURI), Opt(d.codeChallenge),
      Opt(d.codeChallengeMethod),
      structured,
      exact,
      d.rest)
  }

  /** A document as this build stores it: the query as BSON holds it, and its exact text. */
  function Encode(round: Rounding, d: Doc): Stored {
    Fields(d, Rounded(round, d.dcqlQuery), d.dcqlQuery)
  }

  /** The exact copy of the query is preferred to the rounded one. */
  function Decode(m: Stored): Doc {
    Doc(
      m.sessionID,
      Or(m.createdAt, 0) * NANOS_PER_MILLI,
      m.expiresAt,
      Or(m.requestURI, ""), Or(m.code, ""), Or(m.state, ""), Or(m.verifierResponseCode, ""),
      Or(m.ephemeralKeyID, ""), Or(m.requestObjectID, ""), Or(m.authSession, ""), Or(m.issuerState, ""),
      m.token, Or(m.accessToken, ""), Or(m.refreshToken, ""),
      Or(m.forfeited, false), Or(m.redeemedBy, []), Or(m.txCodeAttempts, 0), Or(m.consent, false),
      Or(m.authenticSource, ""), Or(m.identifier, ""), Or(m.authProvider, ""), Or(m.dataSource, ""),
      Or(m.remoteName, ""), Or(m.dpopThumbprint, ""), Or(m.walletClientID, ""), Or(m.walletURI, ""),
      Or(m.codeChallenge, ""), Or(m.codeChallengeMethod, ""),
      if m.dcqlQueryExact.Some? then m.dcqlQueryExact else m.dcqlQuery,
      m.rest)
  }

  /** The document as a build without the exact copy reads it. */
  function DecodeOld(m: Stored): Doc {
    Decode(m.(dcqlQueryExact := None))
  }

  /** What BSON can hold: how it stores a number, and whether it takes the fields besides
      the query. */
  datatype Bson = Bson(round: Rounding, holds: Doc -> bool)

  predicate HoldsRest(bson: Bson, d: Doc) {
    bson.holds(d.(dcqlQuery := None))
  }

  /** Marshalling the plain document: it fails when a field, or a number of the structured
      query, cannot be held. `exact` is the text copy it carries. */
  function MarshalPlain(bson: Bson, d: Doc, exact: Option<Dcql>): Result<Stored> {
    if !HoldsRest(bson, d) || (d.dcqlQuery.Some? && RoundQuery(bson.round, d.dcqlQuery.value).None?) then Err
    else Ok(Fields(d, Rounded(bson.round, d.dcqlQuery), exact))
  }

  /** `carried` is the text copy the context was loaded with. It is cleared, rebuilt from
      the query, and the document is tried again without the structured query if that
      cannot be stored. */
  method MarshalBson(bson: Bson, d: Doc, carried: Option<Dcql>) returns (res: Result<Stored>)
    // It fails exactly when something besides the query cannot be stored.
    ensures res.Err? <==> !HoldsRest(bson, d)
    // What was stored reads back as it was, whatever the context carried before.
    ensures res.Ok? ==> Decode(res.value) == d.(createdAt := Millis(d.createdAt) * NANOS_PER_MILLI)
    // An older build reads the query as BSON rounds it, or none, and never another.
    ensures res.Ok? ==> DecodeOld(res.value).dcqlQuery == Rounded(bson.round, d.dcqlQuery)
    ensures res.Ok? ==> res.value == Encode(bson.round, d)
  {
    var document, exact := d, carried;
    exact := None;
    if d.dcqlQuery.Some? {
      exact := d.dcqlQuery;
    }
    RoundTrip(bson.round, d);
    res := MarshalPlain(bson, document, exact);
    if res.Ok? {
      return;
    }
    if document.dcqlQuery.None? {
      return;
    }
    document := document.(dcqlQuery := None);
    var retried := MarshalPlain(bson, document, exact);
    if retried.Err? {
      return;
    }
    assert retried.value == Fields(d, None, d.dcqlQuery);
    return retried;
  }

  /** A document written by this build comes back as it was, whatever numbers its
      query holds; only a creation time loses what is below a millisecond. */
  lemma RoundTrip(round: Rounding, d: Doc)
    ensures Decode(Encode(round, d)) == d.(createdAt := Millis(d.createdAt) * NANOS_PER_MILLI)
  {
  }

  // ----- resuming -----

  /** The update is refused when BSON cannot hold the new query at all. */
  predicate MongoAccepts(round: Rounding, r: Resume) {
    r.dcqlQuery.Some? ==> RoundQuery(round, r.dcqlQuery.value).Some?
  }

  /** The update: the handle unset and ten fields set. The exact copy of the query
      is not among them. */
  function MongoResume(round: Rounding, m: Stored, r: Resume): Stored {
    m.(issuerState := None,
       authSession := Some(r.authSession),
       dpopThumbprint := Some(r.dpopThumbprint),
       walletClientID := Some(r.walletClientID),
       walletURI := Some(r.walletURI),
       codeChallenge := Some(r.codeChallenge),
       codeChallengeMethod := Some(r.codeChallengeMethod),
       dcqlQuery := Rounded(round, r.dcqlQuery),
       ephemeralKeyID := Some(r.ephemeralKeyID),
       expiresAt := r.expiresAt,
       createdAt := Some(Millis(r.createdAt)))
  }

  /** The memory store's resume. */
  function MemoryResume(d: Doc, r: Resume): Doc {
    ApplyResume(r, Unprepared(d))
  }

  /** What MongoDB holds after a resume, read back. */
  function ResumedDoc(round: Rounding, d: Doc, r: Resume): Doc {
    Decode(MongoResume(round, Encode(round, d), r))
  }

  /** A new query is exact in BSON when none was stored before; otherwise it must
      be the one that was stored, and BSON must be able to hold it. */
  predicate QueryAgrees(round: Rounding, before: Option<Dcql>, after: Option<Dcql>) {
    && (after.Some? ==> RoundQuery(round, after.value).Some?)
    && (if before.Some? then before == after else Rounded(round, after) == after)
  }

  /** Everything but the query and the fraction of a millisecond. */
  lemma ResumedFields(round: Rounding, d: Doc, r: Resume)
    ensures ResumedDoc(round, d, r).(dcqlQuery := None) ==
            MemoryResume(d, r).(dcqlQuery := None, createdAt := Millis(r.createdAt) * NANOS_PER_MILLI)
    ensures ResumedDoc(round, d, r).dcqlQuery ==
            if d.dcqlQuery.Some? then d.dcqlQuery else Rounded(round, r.dcqlQuery)
  {
  }

  /** Resuming in MongoDB and reading back gives the memory store's document
      exactly when the query agrees and the creation time is in whole milliseconds. */
  lemma ResumeAgreesExactly(round: Rounding, d: Doc, r: Resume)
    ensures MongoAccepts(round, r) && ResumedDoc(round, d, r) == MemoryResume(d, r) <==>
            QueryAgrees(round, d.dcqlQuery, r.dcqlQuery) && MilliExact(r.createdAt)
  {
    ResumedFields(round, d, r);
    assert MemoryResume(d, r).dcqlQuery == r.dcqlQuery && MemoryResume(d, r).createdAt == r.createdAt;
    assert ResumedDoc(round, d, r).createdAt == Millis(r.createdAt) * NANOS_PER_MILLI;
  }

  /** A resume over a document that already held another query brings the old
      query back when it is next read. */
  lemma OldQueryComesBack(round: Rounding, d: Doc, r: Resume)
    requires d.dcqlQuery.Some? && r.dcqlQuery != d.dcqlQuery
    ensures ResumedDoc(round, d, r).dcqlQuery == d.dcqlQuery != MemoryResume(d, r).dcqlQuery
  {
    ResumedFields(round, d, r);
    assert MemoryResume(d, r).dcqlQuery == r.dcqlQuery;
  }
}
