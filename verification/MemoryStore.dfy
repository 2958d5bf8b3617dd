/** The in-memory store as it is written: a cache and an index map that every
    method updates in place while it holds the lock. */
module MemoryStore {
  import opened AuthDocuments
  import opened AuthStore
  import opened Wrappers

  lemma CallbackStep(s: Store, evicted: Doc)
    ensures Step(s, Callback(evicted)).0 ==
            if evicted in s.callbacks
            then Store(s.live, DropIndices(s.indices, evicted), s.callbacks - multiset{evicted}) else s
  {
  }

  function One(k: Kind, v: string): set<Handle> {
    if v == "" then {} else {Handle(k, v)}
  }

  /** The first eight fields, visited one after the other. */
  function Plain(d: Doc): set<Handle> {
    {} + One(RequestURI, d.requestURI) + One(Code, d.code) + One(State, d.state) +
    One(VerifierResponseCode, d.verifierResponseCode) + One(EphemeralKeyID, d.ephemeralKeyID) +
    One(RequestObjectID, d.requestObjectID) + One(AuthSession, d.authSession) + One(IssuerState, d.issuerState)
  }

  predicate IsTokenKind(k: Kind) {
    k == AccessToken || k == RefreshToken
  }

  lemma InPlain(d: Doc, h: Handle)
    ensures h in Plain(d) <==> h.value != "" && FieldIs(d, h) && !IsTokenKind(h.kind)
  {
  }

  /** All fields, visited one after the other, give the handles of the document. */
  lemma AllFields(d: Doc, done: set<Handle>)
    requires done ==
             Plain(d) + (if d.token.Some? then One(AccessToken, d.token.value.accessToken) else {}) +
             One(AccessToken, d.accessToken) + One(RefreshToken, d.refreshToken)
    ensures done == HandlesOf(d)
  {
    forall h ensures h in done <==> h in HandlesOf(d) {
      FieldsAt(d, h);
    }
  }

  lemma FieldsAt(d: Doc, h: Handle)
    ensures h in HandlesOf(d) <==>
            h in Plain(d) || (d.token.Some? && h in One(AccessToken, d.token.value.accessToken)) ||
            h in One(AccessToken, d.accessToken) || h in One(RefreshToken, d.refreshToken)
  {
    CarriesExactly(d, h);
    InPlain(d, h);
  }

  class MemoryStore {
    var cache: map<string, Doc>
    var indices: Index
    /** Eviction callbacks the cache library has scheduled. */
    var callbacks: multiset<Doc>
    /** The struct-tag validation of a document. */
    const validate: Doc -> bool

    constructor (validate: Doc -> bool)
      ensures Contents() == EMPTY && this.validate == validate
    {
      this.validate := validate;
      cache, indices, callbacks := map[], map[], multiset{};
    }

    function Contents(): Store
      reads this
    {
      Store(cache, indices, callbacks)
    }

    // ----- indices -----

    /** Adds one entry; `done` are the handles added to `before` so far. */
    method SetIndex(kind: Kind, value: string, id: string, ghost before: Index, ghost done: set<Handle>)
      returns (ghost more: set<Handle>)
      requires indices == before + map h | h in done :: id
      modifies this`indices
      ensures more == done + One(kind, value)
      ensures indices == before + map h | h in more :: id
    {
      if value != "" {
        indices := indices[Handle(kind, value) := id];
      }
      more := done + One(kind, value);
    }

    /** Removes one entry; `done` are the handles removed from `before` so far. */
    method RemoveIndex(kind: Kind, value: string, ghost before: Index, ghost done: set<Handle>)
      returns (ghost more: set<Handle>)
      requires indices == before - done
      modifies this`indices
      ensures more == done + One(kind, value)
      ensures indices == before - more
    {
      if value != "" {
        indices := indices - {Handle(kind, value)};
      }
      more := done + One(kind, value);
    }

    method UpdateIndices(d: Doc)
      modifies this`indices
      ensures indices == AddIndices(old(indices), d)
    {
      ghost var before, done := indices, {};
      done := SetIndex(RequestURI, d.requestURI, d.sessionID, before, done);
      done := SetIndex(Code, d.code, d.sessionID, before, done);
      done := SetIndex(State, d.state, d.sessionID, before, done);
      done := SetIndex(VerifierResponseCode, d.verifierResponseCode, d.sessionID, before, done);
      done := SetIndex(EphemeralKeyID, d.ephemeralKeyID, d.sessionID, before, done);
      done := SetIndex(RequestObjectID, d.requestObjectID, d.sessionID, before, done);
      done := SetIndex(AuthSession, d.authSession, d.sessionID, before, done);
      done := SetIndex(IssuerState, d.issuerState, d.sessionID, before, done);
      assert done == Plain(d);
      if d.token.Some? {
        done := SetIndex(AccessToken, d.token.value.accessToken, d.sessionID, before, done);
      }
      done := SetIndex(AccessToken, d.accessToken, d.sessionID, before, done);
      done := SetIndex(RefreshToken, d.refreshToken, d.sessionID, before, done);
      AllFields(d, done);
    }

    method DeleteIndices(d: Doc)
      modifies this`indices
      ensures indices == DropIndices(old(indices), d)
    {
      ghost var before, done := indices, {};
      done := RemoveIndex(RequestURI, d.requestURI, before, done);
      done := RemoveIndex(Code, d.code, before, done);
      done := RemoveIndex(State, d.state, before, done);
      done := RemoveIndex(VerifierResponseCode, d.verifierResponseCode, before, done);
      done := RemoveIndex(EphemeralKeyID, d.ephemeralKeyID, before, done);
      done := RemoveIndex(RequestObjectID, d.requestObjectID, before, done);
      done := RemoveIndex(AuthSession, d.authSession, before, done);
      done := RemoveIndex(IssuerState, d.issuerState, before, done);
      assert done == Plain(d);
      if d.token.Some? {
        done := RemoveIndex(AccessToken, d.token.value.accessToken, before, done);
      }
      done := RemoveIndex(AccessToken, d.accessToken, before, done);
      done := RemoveIndex(RefreshToken, d.refreshToken, before, done);
      AllFields(d, done);
    }

    // ----- reads -----

    method Find(kind: Kind, value: string) returns (id: Option<string>)
      ensures id == Lookup(Contents(), Handle(kind, value))
    {
      var h := Handle(kind, value);
      if h !in indices || indices[h] !in cache {
        return None;
      }
      return Some(indices[h]);
    }

    method ResolveSessionID(query: Doc) returns (target: Target)
      ensures target == TargetOf(query, QueryOrder(query))
    {
      if query.sessionID != "" {
        return Session(query.sessionID);
      }
      var order := QueryOrder(query);
      for i := 0 to |order|
        invariant FirstSet(order) == FirstSet(order[i..])
      {
        assert order[i..][1..] == order[i + 1..];
        if order[i].value != "" {
          return ByHandle(order[i]);
        }
      }
      return Unset;
    }

    method Get(query: Doc) returns (reply: Reply)
      ensures reply == Resolve(Contents(), query)
    {
      var target := ResolveSessionID(query);
      if target.Unset? {
        return Failed(InvalidArgument);
      }
      if target.ByHandle? && target.handle !in indices {
        return Failed(NoDocuments);
      }
      var id := if target.Session? then target.id else indices[target.handle];
      if id !in cache {
        return Failed(NoDocuments);
      }
      return Found(cache[id]);
    }

    /** The single-handle reads: by code, access token or refresh token. */
    method GetByHandle(kind: Kind, value: string) returns (reply: Reply)
      ensures reply == if value == "" then Failed(InvalidArgument) else Reach(Contents(), Handle(kind, value))
    {
      if value == "" {
        return Failed(InvalidArgument);
      }
      var id := Find(kind, value);
      if id.None? {
        return Failed(NoDocuments);
      }
      return Found(cache[id.value]);
    }

    // ----- whole-document writes -----

    method Save(doc: Doc, now: int) returns (reply: Reply)
      modifies this
      ensures (Contents(), reply) == Step(old(Contents()), Operation.Save(doc, validate(doc), now))
    {
      if doc.sessionID == "" || !validate(doc) {
        return Failed(InvalidArgument);
      }
      var d := doc;
      if d.createdAt == 0 {
        if d.sessionID in cache && cache[d.sessionID].createdAt != 0 {
          d := d.(createdAt := cache[d.sessionID].createdAt);
        } else {
          d := d.(createdAt := now);
        }
      }
      cache := cache[d.sessionID := d];
      UpdateIndices(d);
      reply := Done;
    }

    method Update(doc: Doc) returns (reply: Reply)
      modifies this
      ensures (Contents(), reply) == Step(old(Contents()), Operation.Update(doc, validate(doc)))
    {
      if doc.sessionID == "" || !validate(doc) {
        return Failed(InvalidArgument);
      }
      if doc.sessionID !in cache {
        return Failed(NoDocuments);
      }
      DeleteIndices(cache[doc.sessionID]);
      cache := cache[doc.sessionID := doc];
      UpdateIndices(doc);
      reply := Done;
    }

    method Delete(id: string) returns (reply: Reply)
      modifies this
      ensures (Contents(), reply) == Step(old(Contents()), Operation.Delete(id))
    {
      if id == "" {
        return Failed(InvalidArgument);
      }
      if id in cache {
        DeleteIndices(cache[id]);
        callbacks := callbacks + multiset{cache[id]};
        cache := cache - {id};
      }
      reply := Done;
    }

    method RotateRefreshToken(oldToken: string, updated: Doc) returns (reply: Reply)
      modifies this
      ensures (Contents(), reply) == Step(old(Contents()), Rotate(oldToken, updated))
    {
      if oldToken == "" || updated.sessionID == "" {
        return Failed(InvalidArgument);
      }
      var h := Handle(RefreshToken, oldToken);
      if h !in indices {
        return Failed(NoDocuments);
      }
      var id := indices[h];
      if updated.sessionID != id {
        return Failed(SessionMismatch);
      }
      if id !in cache {
        return Failed(NoDocuments);
      }
      if cache[id].refreshToken != oldToken {
        return Failed(NoDocuments);
      }
      DeleteIndices(cache[id]);
      cache := cache[id := updated];
      UpdateIndices(updated);
      reply := Done;
    }

    // ----- codes -----

    method ForfeitAuthorizationCode(query: Doc) returns (reply: Reply)
      modifies this
      ensures (Contents(), reply) == Step(old(Contents()), Forfeit(query))
    {
      var id: Option<string>;
      if query.code != "" {
        id := Find(Code, query.code);
      } else if query.requestURI != "" {
        id := Find(RequestURI, query.requestURI);
      } else {
        return Failed(InvalidArgument);
      }
      if id.None? {
        return Failed(NoDocuments);
      }
      var d := cache[id.value];
      if d.forfeited {
        return Failed(AlreadyForfeited);
      }
      d := Spent(d);
      cache := cache[id.value := d];
      UpdateIndices(d);
      reply := Found(d);
    }

    method MarkCodeAsForfeited(id: string) returns (reply: Reply)
      modifies this
      ensures (Contents(), reply) == Step(old(Contents()), MarkForfeited(id))
    {
      if id == "" {
        return Failed(InvalidArgument);
      }
      if id !in cache {
        return Failed(NoDocuments);
      }
      if cache[id].forfeited {
        return Failed(AlreadyForfeited);
      }
      cache := cache[id := Spent(cache[id])];
      reply := Done;
    }

    method RedeemPreAuthorizedCode(code: string, thumbprint: string) returns (reply: Reply)
      modifies this
      ensures (Contents(), reply) == Step(old(Contents()), Redeem(code, thumbprint))
    {
      if code == "" || thumbprint == "" || |thumbprint| > MAX_THUMBPRINT_LENGTH {
        return Failed(InvalidArgument);
      }
      var id := Find(Code, code);
      if id.None? {
        return Failed(NoDocuments);
      }
      var d := cache[id.value];
      if d.forfeited {
        return Failed(AlreadyForfeited);
      }
      if thumbprint in d.redeemedBy {
        return Failed(AlreadyRedeemed);
      }
      if |d.redeemedBy| >= MAX_PRE_AUTH_REDEEMERS {
        return Failed(TooManyRedeemers);
      }
      d := RedeemedAlso(d, thumbprint);
      cache := cache[id.value := d];
      reply := Found(d);
    }

    method ConsumeTXCodeAttempt(code: string) returns (reply: Reply)
      modifies this
      ensures (Contents(), reply) == Step(old(Contents()), Attempt(code))
    {
      if code == "" {
        return Failed(InvalidArgument);
      }
      var id := Find(Code, code);
      if id.None? {
        return Failed(NoDocuments);
      }
      var d := cache[id.value];
      if d.forfeited {
        return Failed(AlreadyForfeited);
      }
      if d.txCodeAttempts >= MAX_TX_CODE_ATTEMPTS {
        cache := cache[id.value := Spent(d)];
        return Failed(AttemptsExceeded);
      }
      d := Counted(d);
      cache := cache[id.value := d];
      reply := Found(d);
    }

    // ----- targeted updates -----

    method Consent(query: Doc) returns (reply: Reply)
      modifies this
      ensures (Contents(), reply) == Step(old(Contents()), Operation.Consent(query))
    {
      if query.requestURI == "" {
        return Failed(InvalidArgument);
      }
      var id := Find(RequestURI, query.requestURI);
      if id.None? {
        return Failed(NoDocuments);
      }
      var d := Consented(cache[id.value]);
      cache := cache[id.value := d];
      UpdateIndices(d);
      reply := Done;
    }

    method ExtendExpiry(query: Doc, expiresAt: int) returns (reply: Reply)
      modifies this
      ensures (Contents(), reply) == Step(old(Contents()), Operation.ExtendExpiry(query, expiresAt))
    {
      var target := ResolveSessionID(query);
      if target.Unset? {
        return Failed(InvalidArgument);
      }
      if target.ByHandle? && target.handle !in indices {
        return Failed(NoDocuments);
      }
      var id := if target.Session? then target.id else indices[target.handle];
      if id !in cache {
        return Failed(NoDocuments);
      }
      if cache[id].expiresAt >= expiresAt {
        return Done;
      }
      var d := ExtendedTo(cache[id], expiresAt);
      cache := cache[id := d];
      UpdateIndices(d);
      reply := Done;
    }

    method AddToken(code: string, token: Option<Token>) returns (reply: Reply)
      modifies this
      ensures (Contents(), reply) == Step(old(Contents()), Operation.AddToken(code, token))
    {
      if code == "" {
        return Failed(InvalidArgument);
      }
      var id := Find(Code, code);
      if id.None? {
        return Failed(NoDocuments);
      }
      var d := WithToken(cache[id.value], token);
      cache := cache[id.value := d];
      UpdateIndices(d);
      reply := Done;
    }

    method SetAuthenticSource(query: Doc, source: string) returns (reply: Reply)
      modifies this
      ensures (Contents(), reply) == Step(old(Contents()), Operation.SetAuthenticSource(query, source))
    {
      if source == "" || query.sessionID == "" {
        return Failed(InvalidArgument);
      }
      if query.sessionID !in cache {
        return Failed(NoDocuments);
      }
      cache := cache[query.sessionID := FromSource(cache[query.sessionID], source)];
      reply := Done;
    }

    method SetIdentifier(query: Doc, identifier: string) returns (reply: Reply)
      modifies this
      ensures (Contents(), reply) == Step(old(Contents()), Operation.SetIdentifier(query, identifier))
    {
      if identifier == "" || query.sessionID == "" {
        return Failed(InvalidArgument);
      }
      if query.sessionID !in cache {
        return Failed(NoDocuments);
      }
      cache := cache[query.sessionID := Identified(cache[query.sessionID], identifier)];
      reply := Done;
    }

    method SetAuthProvider(id: string, f: ProviderFields) returns (reply: Reply)
      modifies this
      ensures (Contents(), reply) == Step(old(Contents()), Operation.SetAuthProvider(id, f))
    {
      if id == "" {
        return Failed(InvalidArgument);
      }
      if id !in cache {
        return Failed(NoDocuments);
      }
      var d := ServedBy(cache[id], f);
      cache := cache[id := d];
      UpdateIndices(d);
      reply := Done;
    }

    // ----- one-shot handles -----

    method ClaimAuthSession(handle: string) returns (reply: Reply)
      modifies this
      ensures (Contents(), reply) == Step(old(Contents()), Operation.ClaimAuthSession(handle))
    {
      if handle == "" {
        return Failed(InvalidArgument);
      }
      var h := Handle(AuthSession, handle);
      if h !in indices {
        return Failed(NoDocuments);
      }
      var id := indices[h];
      if id !in cache {
        indices := indices - {h};
        return Failed(NoDocuments);
      }
      if cache[id].authSession != handle {
        return Failed(NoDocuments);
      }
      var claimed := Claimed(cache[id]);
      indices := indices - {h};
      cache := cache[id := claimed];
      reply := Found(claimed);
    }

    method ClaimIssuerState(handle: string, claimant: Doc) returns (reply: Reply)
      modifies this
      ensures (Contents(), reply) ==
              Step(old(Contents()),
                   Operation.ClaimIssuerState(handle, claimant, validate(Unprepared(claimant))))
    {
      var stored := Unprepared(claimant);
      if handle == "" || claimant.sessionID == "" || !validate(stored) {
        return Failed(InvalidArgument);
      }
      var h := Handle(IssuerState, handle);
      if h !in indices || indices[h] != claimant.sessionID {
        return Failed(NoDocuments);
      }
      var id := indices[h];
      if id !in cache {
        indices := indices - {h};
        return Failed(NoDocuments);
      }
      if cache[id].issuerState != handle {
        return Failed(NoDocuments);
      }
      ghost var before := indices;
      var previous := cache[id];
      DeleteIndices(previous);
      indices := indices - {h};
      assert indices == before - {h} - HandlesOf(previous);
      cache := cache[id := stored];
      UpdateIndices(stored);
      reply := Found(stored);
    }

    method ResumeIssuerState(handle: string, resume: Resume) returns (reply: Reply)
      modifies this
      ensures (Contents(), reply) == Step(old(Contents()), Operation.ResumeIssuerState(handle, resume))
    {
      if handle == "" {
        return Failed(InvalidArgument);
      }
      var h := Handle(IssuerState, handle);
      if h !in indices {
        return Failed(NoDocuments);
      }
      var id := indices[h];
      if id !in cache {
        indices := indices - {h};
        return Failed(NoDocuments);
      }
      var stored := cache[id];
      if stored.issuerState != handle {
        return Failed(NoDocuments);
      }
      DeleteIndices(stored);
      stored := ApplyResume(resume, Unprepared(stored));
      cache := cache[id := stored];
      UpdateIndices(stored);
      reply := Found(stored);
    }

    // ----- the cache library -----

    method Expire(id: string)
      modifies this
      ensures Contents() == Step(old(Contents()), Operation.Expire(id)).0
    {
      if id in cache {
        callbacks := callbacks + multiset{cache[id]};
        cache := cache - {id};
      }
    }

    method OnEviction(evicted: Doc)
      modifies this
      ensures Contents() == Step(old(Contents()), Callback(evicted)).0
    {
      CallbackStep(Contents(), evicted);
      if evicted in callbacks {
        callbacks := callbacks - multiset{evicted};
        DeleteIndices(evicted);
      }
    }
  }
}
