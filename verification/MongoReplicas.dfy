/** Many replicas over one MongoDB collection. Each operation is one or several
    atomic steps on single documents, and the steps of different replicas
    interleave freely. */
module MongoReplicas {
  import opened AuthDocuments
  import opened AuthStore
  import opened Wrappers

  // ----- filters -----

  /** The handles a query may name, in the order the filter builder tries them:
      issuer_state comes before auth_session here. */
  function FilterOrder(q: Doc): seq<Handle> {
    [Handle(RequestURI, q.requestURI), Handle(Code, q.code), Handle(State, q.state),
     Handle(VerifierResponseCode, q.verifierResponseCode), Handle(EphemeralKeyID, q.ephemeralKeyID),
     Handle(RequestObjectID, q.requestObjectID), Handle(IssuerState, q.issuerState),
     Handle(AuthSession, q.authSession)]
  }

  function BuildFilter(q: Doc): Target {
    TargetOf(q, FilterOrder(q))
  }

  predicate Matches(d: Doc, filter: Target) {
    match filter
    case Session(id) => d.sessionID == id
    case ByHandle(h) => Carries(d, h)
    case Unset => false
  }

  // ----- the system -----

  /** Where a replica is inside an operation of several steps. */
  datatype Local =
    | Idle
    | ForfeitChecked(filter: Target)
    | AttemptMissed(code: string)
    | AttemptExhausted(code: string)

  /** What an operation reported, or did to a document. `Taken` is a claimed auth_session,
      `Resumed` and `Opened` are the two ways to claim an issuer_state, and `Replaced` is a
      write of the whole document. */
  datatype Event =
    | Forfeited(id: string)
    | LockedOut(id: string)
    | Redeemed(id: string, thumbprint: string)
    | Attempted(id: string)
    | Extended(id: string, expiresAt: int)
    | Taken(id: string, handle: string)
    | Resumed(id: string, handle: string, resume: Resume)
    | Opened(id: string, handle: string, doc: Doc)
    | Replaced(id: string, doc: Doc)
    | Exceeded(code: string)

  datatype System = System(docs: map<string, Doc>, replicas: map<nat, Local>, log: seq<Event>)

  /** One atomic step. Where a filter may match several documents the step names
      the one the server picked; `None` says that none matched. */
  datatype Action =
    | ForfeitFind(replica: nat, query: Doc, picked: Option<string>)
    | ForfeitCommit(replica: nat, picked: Option<string>)
    | Mark(id: string)
    | RedeemCode(code: string, thumbprint: string, picked: Option<string>)
    | AttemptCount(replica: nat, code: string, picked: Option<string>)
    | AttemptLook(replica: nat, picked: Option<string>)
    | AttemptLock(replica: nat, picked: Option<string>)
    | Extend(query: Doc, expiresAt: int, picked: Option<string>)
    | ClaimSession(handle: string, picked: Option<string>)
    | ResumeIssuer(handle: string, resume: Resume, picked: Option<string>)
    | ClaimIssuer(handle: string, claimant: Doc, picked: Option<string>)
      // Writes of whole documents.
    | SaveDoc(doc: Doc)
    | UpdateDoc(doc: Doc)
    | RotateDoc(oldToken: string, doc: Doc)
      // A targeted update of fields that nothing here depends on, the removal of a
      // document by its TTL or a deletion, and a replica that stops half-way.
    | Touch(id: string, doc: Doc)
    | Vanish(id: string)
    | Crash(replica: nat)

  predicate CanRedeem(d: Doc, code: string, thumbprint: string) {
    d.code == code && !d.forfeited && thumbprint !in d.redeemedBy && |d.redeemedBy| < MAX_PRE_AUTH_REDEEMERS
  }

  predicate CanCount(d: Doc, code: string) {
    d.code == code && !d.forfeited && d.txCodeAttempts < MAX_TX_CODE_ATTEMPTS
  }

  /** A document that matches is picked, and none only when none matches. */
  ghost predicate Picks(docs: map<string, Doc>, filter: Doc -> bool, picked: Option<string>) {
    match picked
    case Some(id) => id in docs && filter(docs[id])
    case None => forall id :: id in docs ==> !filter(docs[id])
  }

  function At(s: System, replica: nat): Local {
    if replica in s.replicas then s.replicas[replica] else Idle
  }

  /** Alike in session, code, budgets and one-shot handles. */
  predicate SameGuards(a: Doc, b: Doc) {
    a.sessionID == b.sessionID && a.code == b.code && a.forfeited == b.forfeited &&
    a.redeemedBy == b.redeemedBy && a.txCodeAttempts == b.txCodeAttempts && a.expiresAt == b.expiresAt &&
    a.authSession == b.authSession && a.issuerState == b.issuerState
  }

  ghost predicate Enabled(s: System, a: Action) {
    match a
    case ForfeitFind(r, query, picked) =>
      At(s, r).Idle? && !BuildFilter(query).Unset? && Picks(s.docs, d => Matches(d, BuildFilter(query)), picked)
    case ForfeitCommit(r, picked) =>
      At(s, r).ForfeitChecked? &&
      var filter := At(s, r).filter; Picks(s.docs, (d: Doc) => Matches(d, filter) && !d.forfeited, picked)
    case Mark(id) => true
    case RedeemCode(code, thumbprint, picked) =>
      code != "" && 0 < |thumbprint| <= MAX_THUMBPRINT_LENGTH &&
      Picks(s.docs, d => CanRedeem(d, code, thumbprint), picked)
    case AttemptCount(r, code, picked) =>
      At(s, r).Idle? && code != "" && Picks(s.docs, d => CanCount(d, code), picked)
    case AttemptLook(r, picked) =>
      At(s, r).AttemptMissed? &&
      var code := At(s, r).code; Picks(s.docs, (d: Doc) => d.code == code, picked)
    case AttemptLock(r, picked) =>
      At(s, r).AttemptExhausted? &&
      var code := At(s, r).code; Picks(s.docs, (d: Doc) => d.code == code && !d.forfeited, picked)
    case Extend(query, _, picked) =>
      !BuildFilter(query).Unset? && Picks(s.docs, d => Matches(d, BuildFilter(query)), picked)
    case ClaimSession(handle, picked) =>
      handle != "" && Picks(s.docs, (d: Doc) => d.authSession == handle, picked)
    case ResumeIssuer(handle, _, picked) =>
      handle != "" && Picks(s.docs, (d: Doc) => d.issuerState == handle, picked)
    case ClaimIssuer(handle, claimant, picked) =>
      handle != "" && claimant.sessionID != "" &&
      Picks(s.docs, (d: Doc) => d.issuerState == handle && d.sessionID == claimant.sessionID, picked)
    case SaveDoc(doc) => doc.sessionID != ""
    case UpdateDoc(doc) => doc.sessionID != ""
    case RotateDoc(oldToken, doc) => oldToken != "" && doc.sessionID != ""
    case Touch(id, doc) => id in s.docs && SameGuards(doc, s.docs[id])
    case Vanish(id) => true
    case Crash(r) => true
  }

  function Goto(s: System, r: nat, l: Local): System {
    s.(replicas := s.replicas[r := l])
  }

  /** Writes one document and records what happened. */
  function Write(s: System, id: string, d: Doc, e: Event): System {
    s.(docs := s.docs[id := d], log := s.log + [e])
  }

  ghost function Next(s: System, a: Action): System
    requires Enabled(s, a)
  {
    match a
    case ForfeitFind(r, query, picked) =>
      if picked.Some? && !s.docs[picked.value].forfeited then Goto(s, r, ForfeitChecked(BuildFilter(query))) else s
    case ForfeitCommit(r, picked) =>
      var s' := Goto(s, r, Idle);
      if picked.None? then s'
      else Write(s', picked.value, Spent(s.docs[picked.value]), Forfeited(picked.value))
    case Mark(id) =>
      if id in s.docs && !s.docs[id].forfeited then Write(s, id, Spent(s.docs[id]), Forfeited(id)) else s
    case RedeemCode(_, thumbprint, picked) =>
      if picked.None? then s
      else
        var d := s.docs[picked.value];
        Write(s, picked.value, RedeemedAlso(d, thumbprint), Redeemed(picked.value, thumbprint))
    case AttemptCount(r, code, picked) =>
      if picked.None? then Goto(s, r, AttemptMissed(code))
      else
        var d := s.docs[picked.value];
        Write(s, picked.value, Counted(d), Attempted(picked.value))
    case AttemptLook(r, picked) =>
      if picked.Some? && !s.docs[picked.value].forfeited &&
         s.docs[picked.value].txCodeAttempts >= MAX_TX_CODE_ATTEMPTS
      then Goto(s, r, AttemptExhausted(At(s, r).code)) else Goto(s, r, Idle)
    case AttemptLock(r, picked) =>
      var s' := Goto(s, r, Idle);
      var locked :=
        if picked.None? then s'
        else Write(s', picked.value, Spent(s.docs[picked.value]), LockedOut(picked.value));
      locked.(log := locked.log + [Exceeded(At(s, r).code)])
    case Extend(_, expiresAt, picked) =>
      if picked.None? then s
      else
        var d := s.docs[picked.value];
        Write(s, picked.value, ExtendedTo(d, expiresAt), Extended(picked.value, expiresAt))
    case ClaimSession(handle, picked) =>
      if picked.None? then s
      else Write(s, picked.value, Claimed(s.docs[picked.value]), Taken(picked.value, handle))
    case ResumeIssuer(handle, resume, picked) =>
      if picked.None? then s
      else
        var d := ApplyResume(resume, Unprepared(s.docs[picked.value]));
        Write(s, picked.value, d, Resumed(picked.value, handle, resume))
    case ClaimIssuer(handle, claimant, picked) =>
      if picked.None? then s
      else
        var d := Unprepared(claimant);
        Write(s, picked.value, d, Opened(picked.value, handle, d))
    case SaveDoc(doc) => Write(s, doc.sessionID, doc, Replaced(doc.sessionID, doc))
    case UpdateDoc(doc) =>
      if doc.sessionID in s.docs then Write(s, doc.sessionID, doc, Replaced(doc.sessionID, doc)) else s
    case RotateDoc(oldToken, doc) =>
      if doc.sessionID in s.docs && s.docs[doc.sessionID].refreshToken == oldToken
      then Write(s, doc.sessionID, doc, Replaced(doc.sessionID, doc)) else s
    case Touch(id, doc) => s.(docs := s.docs[id := doc])
    case Vanish(id) => s.(docs := s.docs - {id})
    case Crash(r) => Goto(s, r, Idle)
  }

  ghost predicate Steps(s: System, s': System) {
    exists a :: Enabled(s, a) && s' == Next(s, a)
  }

  /** A run: each state follows from the one before by some replica's step. */
  ghost predicate IsRun(states: seq<System>) {
    |states| > 0 && forall i :: 0 <= i < |states| - 1 ==> Steps(states[i], states[i + 1])
  }

  ghost predicate Initial(s: System) {
    s.log == [] && (forall r :: At(s, r).Idle?) && KeyedBySession(s.docs)
  }

  /** The collection has a unique index on session_id. */
  ghost predicate KeyedBySession(docs: map<string, Doc>) {
    forall id :: id in docs ==> docs[id].sessionID == id
  }

  ghost predicate UniqueCodes(docs: map<string, Doc>) {
    forall a, b :: a in docs && b in docs && docs[a].code == docs[b].code && docs[a].code != "" ==> a == b
  }
}
