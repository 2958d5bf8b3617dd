/** The in-memory authorization-context store as a state machine: documents by
    session, handle indices, and the eviction callbacks that have been scheduled
    but have not run yet. Every operation is atomic. */
module AuthStore {
  import opened AuthDocuments
  import opened Wrappers

  datatype Error =
    | InvalidArgument
    | NoDocuments
    | AlreadyForfeited
    | AlreadyRedeemed
    | TooManyRedeemers
    | AttemptsExceeded
    | SessionMismatch

  datatype Reply = Done | Found(doc: Doc) | Failed(error: Error)

  type Index = map<Handle, string>

  /** `callbacks` holds one entry for each document that has left the cache,
      expired or deleted, and whose eviction callback is still to run. */
  datatype Store = Store(live: map<string, Doc>, indices: Index, callbacks: multiset<Doc>)

  const EMPTY := Store(map[], map[], multiset{})

  datatype Operation =
    | Save(doc: Doc, valid: bool, now: int)
    | Update(doc: Doc, valid: bool)
    | Delete(id: string)
    | Forfeit(query: Doc)
    | MarkForfeited(id: string)
    | Redeem(code: string, thumbprint: string)
    | Attempt(code: string)
    | Consent(query: Doc)
    | ExtendExpiry(query: Doc, expiresAt: int)
    | AddToken(code: string, token: Option<Token>)
    | Rotate(oldToken: string, updated: Doc)
    | SetAuthenticSource(query: Doc, source: string)
    | SetIdentifier(query: Doc, identifier: string)
    | SetAuthProvider(id: string, fields: ProviderFields)
    | ClaimAuthSession(handle: string)
    | ClaimIssuerState(handle: string, claimant: Doc, valid: bool)
    | ResumeIssuerState(handle: string, resume: Resume)
      // The environment: the cache drops a document, a scheduled callback runs,
      // and a caller writes through the pointer a read handed out.
    | Expire(id: string)
    | Callback(evicted: Doc)
    | CallerWrites(id: string, doc: Doc)

  // ----- indices -----

  function AddIndices(indices: Index, d: Doc): Index {
    indices + map h | h in HandlesOf(d) :: d.sessionID
  }

  function DropIndices(indices: Index, d: Doc): Index {
    indices - HandlesOf(d)
  }

  /** The live document an index entry leads to. */
  function Lookup(s: Store, h: Handle): Option<string> {
    if h in s.indices && s.indices[h] in s.live then Some(s.indices[h]) else None
  }

  // ----- queries -----

  /** The handles a query may name, in the order the memory store tries them. */
  function QueryOrder(q: Doc): seq<Handle> {
    [Handle(RequestURI, q.requestURI), Handle(Code, q.code), Handle(State, q.state),
     Handle(VerifierResponseCode, q.verifierResponseCode), Handle(EphemeralKeyID, q.ephemeralKeyID),
     Handle(RequestObjectID, q.requestObjectID), Handle(AuthSession, q.authSession),
     Handle(IssuerState, q.issuerState)]
  }

  function FirstSet(handles: seq<Handle>): (r: Option<Handle>)
    ensures r.Some? ==> r.value in handles && r.value.value != ""
  {
    if handles == [] then None
    else if handles[0].value != "" then Some(handles[0])
    else FirstSet(handles[1..])
  }

  lemma FirstSetOfConcat(a: seq<Handle>, b: seq<Handle>)
    ensures FirstSet(a + b) == if FirstSet(a).Some? then FirstSet(a) else FirstSet(b)
  {
    if a == [] {
      assert a + b == b;
    } else {
      FirstSetOfConcat(a[1..], b);
      assert (a + b)[1..] == a[1..] + b;
    }
  }

  datatype Target = Session(id: string) | ByHandle(handle: Handle) | Unset

  function TargetOf(q: Doc, order: seq<Handle>): Target {
    if q.sessionID != "" then Session(q.sessionID)
    else match FirstSet(order)
      case Some(h) => ByHandle(h)
      case None => Unset
  }

  /** Where a query leads, in the memory store. */
  function Resolve(s: Store, q: Doc): (r: Reply)
    ensures !r.Done?
  {
    match TargetOf(q, QueryOrder(q))
    case Session(id) => if id in s.live then Found(s.live[id]) else Failed(NoDocuments)
    case ByHandle(h) => Reach(s, h)
    case Unset => Failed(InvalidArgument)
  }

  /** The document a handle leads to. */
  function Reach(s: Store, h: Handle): (r: Reply)
    ensures !r.Done?
  {
    if Lookup(s, h).Some? then Found(s.live[Lookup(s, h).value]) else Failed(NoDocuments)
  }

  // ----- writes -----

  /** Stores `d` at its session without touching the indices. */
  function Keep(s: Store, id: string, d: Doc): Store {
    s.(live := s.live[id := d])
  }

  function KeepAndIndex(s: Store, id: string, d: Doc): Store {
    s.(live := s.live[id := d], indices := AddIndices(s.indices, d))
  }

  /** Takes the index entries of the old document away before storing the new one. */
  function Replace(s: Store, id: string, previous: Doc, d: Doc): Store {
    s.(live := s.live[id := d], indices := AddIndices(DropIndices(s.indices, previous), d))
  }

  function Anchored(s: Store, d: Doc, now: int): Doc {
    if d.createdAt != 0 then d
    else if d.sessionID in s.live && s.live[d.sessionID].createdAt != 0
    then d.(createdAt := s.live[d.sessionID].createdAt)
    else d.(createdAt := now)
  }

  function ForfeitHandle(q: Doc): Option<Handle> {
    if q.code != "" then Some(Handle(Code, q.code))
    else if q.requestURI != "" then Some(Handle(RequestURI, q.requestURI))
    else None
  }

  function Redeemed(d: Doc, thumbprint: string): Reply {
    if d.forfeited then Failed(AlreadyForfeited)
    else if thumbprint in d.redeemedBy then Failed(AlreadyRedeemed)
    else if |d.redeemedBy| >= MAX_PRE_AUTH_REDEEMERS then Failed(TooManyRedeemers)
    else Found(RedeemedAlso(d, thumbprint))
  }

  predicate Refused(op: Operation) {
    match op
    case Save(doc, valid, _) => doc.sessionID == "" || !valid
    case Update(doc, valid) => doc.sessionID == "" || !valid
    case Delete(id) => id == ""
    case Forfeit(query) => ForfeitHandle(query).None?
    case MarkForfeited(id) => id == ""
    case Redeem(code, thumbprint) => code == "" || thumbprint == "" || |thumbprint| > MAX_THUMBPRINT_LENGTH
    case Attempt(code) => code == ""
    case Consent(query) => query.requestURI == ""
    case ExtendExpiry(query, _) => TargetOf(query, QueryOrder(query)).Unset?
    case AddToken(code, _) => code == ""
    case Rotate(oldToken, updated) => oldToken == "" || updated.sessionID == ""
    case SetAuthenticSource(query, source) => source == "" || query.sessionID == ""
    case SetIdentifier(query, identifier) => identifier == "" || query.sessionID == ""
    case SetAuthProvider(id, _) => id == ""
    case ClaimAuthSession(handle) => handle == ""
    case ClaimIssuerState(handle, claimant, valid) => handle == "" || claimant.sessionID == "" || !valid
    case ResumeIssuerState(handle, _) => handle == ""
    case Expire(_) => false
    case Callback(_) => false
    case CallerWrites(_, _) => false
  }

  /** The session an operation acts on, when it is live. */
  function Subject(s: Store, op: Operation): Option<string> {
    match op
    case Save(doc, _, _) => Live(s, doc.sessionID)
    case Update(doc, _) => Live(s, doc.sessionID)
    case Delete(id) => Live(s, id)
    case Forfeit(query) =>
      var h := ForfeitHandle(query); if h.Some? then Lookup(s, h.value) else None
    case MarkForfeited(id) => Live(s, id)
    case Redeem(code, _) => Lookup(s, Handle(Code, code))
    case Attempt(code) => Lookup(s, Handle(Code, code))
    case Consent(query) => Lookup(s, Handle(RequestURI, query.requestURI))
    case ExtendExpiry(query, _) =>
      (match TargetOf(query, QueryOrder(query))
       case Session(id) => Live(s, id)
       case ByHandle(h) => Lookup(s, h)
       case Unset => None)
    case AddToken(code, _) => Lookup(s, Handle(Code, code))
    case Rotate(oldToken, _) => Lookup(s, Handle(RefreshToken, oldToken))
    case SetAuthenticSource(query, _) => Live(s, query.sessionID)
    case SetIdentifier(query, _) => Live(s, query.sessionID)
    case SetAuthProvider(id, _) => Live(s, id)
    case ClaimAuthSession(handle) => Lookup(s, Handle(AuthSession, handle))
    case ClaimIssuerState(handle, _, _) => Lookup(s, Handle(IssuerState, handle))
    case ResumeIssuerState(handle, _) => Lookup(s, Handle(IssuerState, handle))
    case Expire(id) => Live(s, id)
    case Callback(_) => None
    case CallerWrites(id, _) => Live(s, id)
  }

  function Live(s: Store, id: string): Option<string> {
    if id in s.live then Some(id) else None
  }

  /** A claim that finds its session gone also drops the index entry it followed. */
  function WithoutDangling(s: Store, h: Handle): Store {
    if h in s.indices && s.indices[h] !in s.live then s.(indices := s.indices - {h}) else s
  }

  /** One operation: the new state and the reply. */
  function Step(s: Store, op: Operation): (Store, Reply) {
    if Refused(op) then (s, Failed(InvalidArgument))
    else match op
      case Save(doc, _, now) => (KeepAndIndex(s, doc.sessionID, Anchored(s, doc, now)), Done)
      case Delete(id) =>
        if id !in s.live then (s, Done)
        else
          (Store(s.live - {id}, DropIndices(s.indices, s.live[id]), s.callbacks + multiset{s.live[id]}), Done)
      case Callback(evicted) =>
        if evicted !in s.callbacks then (s, Done)
        else (s.(indices := DropIndices(s.indices, evicted), callbacks := s.callbacks - multiset{evicted}), Done)
      case ClaimIssuerState(handle, claimant, _) =>
        var h := Handle(IssuerState, handle);
        if h in s.indices && s.indices[h] != claimant.sessionID then (s, Failed(NoDocuments))
        else if Subject(s, op).None? then (WithoutDangling(s, h), Failed(NoDocuments))
        else
          var id := Subject(s, op).value;
          if s.live[id].issuerState != handle then (s, Failed(NoDocuments))
          else
            var stored := Unprepared(claimant);
            (Replace(s.(indices := s.indices - {h}), id, s.live[id], stored), Found(stored))
      case ClaimAuthSession(handle) =>
        var h := Handle(AuthSession, handle);
        if Subject(s, op).None? then (WithoutDangling(s, h), Failed(NoDocuments))
        else
          var id := Subject(s, op).value;
          if s.live[id].authSession != handle then (s, Failed(NoDocuments))
          else
            var claimed := Claimed(s.live[id]);
            (Keep(s, id, claimed).(indices := s.indices - {h}), Found(claimed))
      case ResumeIssuerState(handle, resume) =>
        var h := Handle(IssuerState, handle);
        if Subject(s, op).None? then (WithoutDangling(s, h), Failed(NoDocuments))
        else
          var id := Subject(s, op).value;
          if s.live[id].issuerState != handle then (s, Failed(NoDocuments))
          else
            var resumed := ApplyResume(resume, Unprepared(s.live[id]));
            (Replace(s, id, s.live[id], resumed), Found(resumed))
      case Rotate(oldToken, updated) =>
        var h := Handle(RefreshToken, oldToken);
        if h in s.indices && s.indices[h] != updated.sessionID then (s, Failed(SessionMismatch))
        else if Subject(s, op).None? then (s, Failed(NoDocuments))
        else
          var id := Subject(s, op).value;
          if s.live[id].refreshToken != oldToken then (s, Failed(NoDocuments))
          else (Replace(s, id, s.live[id], updated), Done)
      case _ =>
        if Subject(s, op).None? then (s, if op.Expire? || op.CallerWrites? then Done else Failed(NoDocuments))
        else OnLive(s, op, Subject(s, op).value)
  }

  /** The operations that act on one live document. */
  function OnLive(s: Store, op: Operation, id: string): (Store, Reply)
    requires id in s.live
  {
    var d := s.live[id];
    match op
    case Update(doc, _) => (Replace(s, id, d, doc), Done)
    case Forfeit(_) =>
      if d.forfeited then (s, Failed(AlreadyForfeited))
      else (KeepAndIndex(s, id, Spent(d)), Found(Spent(d)))
    case MarkForfeited(_) =>
      if d.forfeited then (s, Failed(AlreadyForfeited)) else (Keep(s, id, Spent(d)), Done)
    case Redeem(_, thumbprint) =>
      var r := Redeemed(d, thumbprint);
      (if r.Found? then Keep(s, id, r.doc) else s, r)
    case Attempt(_) =>
      if d.forfeited then (s, Failed(AlreadyForfeited))
      else if d.txCodeAttempts >= MAX_TX_CODE_ATTEMPTS then
        (Keep(s, id, Spent(d)), Failed(AttemptsExceeded))
      else
        (Keep(s, id, Counted(d)), Found(Counted(d)))
    case Consent(_) => (KeepAndIndex(s, id, Consented(d)), Done)
    case ExtendExpiry(_, expiresAt) =>
      if d.expiresAt >= expiresAt then (s, Done) else (KeepAndIndex(s, id, ExtendedTo(d, expiresAt)), Done)
    case AddToken(_, token) => (KeepAndIndex(s, id, WithToken(d, token)), Done)
    case SetAuthenticSource(_, source) => (Keep(s, id, FromSource(d, source)), Done)
    case SetIdentifier(_, identifier) => (Keep(s, id, Identified(d, identifier)), Done)
    case SetAuthProvider(_, f) =>
      (KeepAndIndex(s, id, ServedBy(d, f)), Done)
    case Expire(_) => (s.(live := s.live - {id}, callbacks := s.callbacks + multiset{d}), Done)
    case CallerWrites(_, doc) => (Keep(s, id, doc), Done)
    case _ => (s, Done)
  }

  // ----- runs -----

  function Run(s: Store, ops: seq<Operation>): Store {
    if ops == [] then s else Step(Run(s, ops[..|ops| - 1]), ops[|ops| - 1]).0
  }
}
