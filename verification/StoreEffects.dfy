/** What every operation of the memory store does, as reads see it afterwards: which document
    each session has, which session each handle leads to, which eviction callbacks are pending,
    and what is replied, for all arguments and all states. */
module StoreEffects {
  import opened AuthDocuments
  import opened AuthStore
  import opened Wrappers

  // ----- what reads see -----

  /** Nothing changes, and the reply is an error. */
  ghost predicate Rejected(s: Store, r: (Store, Reply), e: Error) {
    r == (s, Failed(e))
  }

  /** One session has another document. */
  ghost predicate Rewritten(s: Store, r: Store, id: string, d: Doc) {
    r.live == s.live[id := d] && r.callbacks == s.callbacks
  }

  ghost predicate LookupsStay(s: Store, r: Store) {
    forall h :: Lookup(r, h) == Lookup(s, h)
  }

  /** The handles of `d` lead to its session, and all others where they led. */
  ghost predicate LookupsGain(s: Store, r: Store, d: Doc) {
    forall h :: Lookup(r, h) ==
      if Carries(d, h) then Live(r, d.sessionID) else if h in s.indices then Live(r, s.indices[h]) else None
  }

  /** The handles of `gone` lead nowhere, unless `d` has them too. */
  ghost predicate LookupsTrade(s: Store, r: Store, gone: Doc, d: Doc) {
    forall h :: Lookup(r, h) ==
      if Carries(d, h) then Live(r, d.sessionID) else if Carries(gone, h) then None else Lookup(s, h)
  }

  // ----- documents that leave -----

  lemma DeleteRemoves(s: Store, id: string)
    ensures var r := Step(s, Delete(id));
            if id == "" then Rejected(s, r, InvalidArgument)
            else if id !in s.live then r == (s, Done)
            else
              r.1 == Done && id !in r.0.live && (forall other :: other != id ==> Live(r.0, other) == Live(s, other)) &&
              (forall other :: other in r.0.live ==> r.0.live[other] == s.live[other]) &&
              (forall h :: Lookup(r.0, h) == if Carries(s.live[id], h) || Lookup(s, h) == Some(id) then None else Lookup(s, h)) &&
              r.0.callbacks == s.callbacks + multiset{s.live[id]}
  {
  }

  /** A document that expires leaves its handles behind, and they lead nowhere. */
  lemma ExpiryRemoves(s: Store, id: string)
    ensures var r := Step(s, Expire(id));
            r.1 == Done && if id !in s.live then r.0 == s
            else
              id !in r.0.live && (forall other :: other != id ==> Live(r.0, other) == Live(s, other)) &&
              (forall other :: other in r.0.live ==> r.0.live[other] == s.live[other]) &&
              (forall h :: Lookup(r.0, h) == if Lookup(s, h) == Some(id) then None else Lookup(s, h)) &&
              r.0.callbacks == s.callbacks + multiset{s.live[id]}
  {
  }

  /** A pending callback runs once, and takes the handles of its document away from whoever
      has them by then. */
  lemma CallbackDrops(s: Store, evicted: Doc)
    ensures var r := Step(s, Callback(evicted));
            r.1 == Done && r.0.live == s.live && if evicted !in s.callbacks then r.0 == s
            else
              r.0.callbacks == s.callbacks - multiset{evicted} &&
              forall h :: Lookup(r.0, h) == if Carries(evicted, h) then None else Lookup(s, h)
  {
  }

  // ----- whole documents -----

  /** A document with a creation time is saved as it is; another gets that of the session, or
      else the present time. */
  lemma SaveStores(s: Store, doc: Doc, valid: bool, now: int)
    ensures var r := Step(s, Save(doc, valid, now));
            if doc.sessionID == "" || !valid then Rejected(s, r, InvalidArgument)
            else
              var id := doc.sessionID;
              var since := if doc.createdAt != 0 then doc.createdAt
                           else if id in s.live && s.live[id].createdAt != 0 then s.live[id].createdAt else now;
              r.1 == Done && Rewritten(s, r.0, id, doc.(createdAt := since)) && LookupsGain(s, r.0, doc)
  {
  }

  lemma UpdateReplaces(s: Store, doc: Doc, valid: bool)
    ensures var r := Step(s, Update(doc, valid));
            if doc.sessionID == "" || !valid then Rejected(s, r, InvalidArgument)
            else if doc.sessionID !in s.live then Rejected(s, r, NoDocuments)
            else
              r.1 == Done && Rewritten(s, r.0, doc.sessionID, doc) &&
              LookupsTrade(s, r.0, s.live[doc.sessionID], doc)
  {
  }

  /** A rotation needs the session that the token is indexed under and its current token. */
  lemma RotationReplaces(s: Store, oldToken: string, doc: Doc)
    ensures var r := Step(s, Rotate(oldToken, doc));
            var h := Handle(RefreshToken, oldToken);
            if oldToken == "" || doc.sessionID == "" then Rejected(s, r, InvalidArgument)
            else if h !in s.indices then Rejected(s, r, NoDocuments)
            else if s.indices[h] != doc.sessionID then Rejected(s, r, SessionMismatch)
            else if doc.sessionID !in s.live || s.live[doc.sessionID].refreshToken != oldToken then Rejected(s, r, NoDocuments)
            else
              r.1 == Done && Rewritten(s, r.0, doc.sessionID, doc) &&
              LookupsTrade(s, r.0, s.live[doc.sessionID], doc)
  {
  }

  // ----- codes -----

  lemma ForfeitSpends(s: Store, query: Doc)
    ensures var r := Step(s, Forfeit(query));
            if query.code == "" && query.requestURI == "" then Rejected(s, r, InvalidArgument)
            else
              var found := Lookup(s, if query.code != "" then Handle(Code, query.code) else Handle(RequestURI, query.requestURI));
              if found.None? then Rejected(s, r, NoDocuments)
              else
                var d := s.live[found.value];
                if d.forfeited then Rejected(s, r, AlreadyForfeited)
                else
                  r.1 == Found(d.(forfeited := true)) && Rewritten(s, r.0, found.value, d.(forfeited := true)) &&
                  LookupsGain(s, r.0, d)
  {
  }

  lemma MarkSpends(s: Store, id: string)
    ensures var r := Step(s, MarkForfeited(id));
            if id == "" then Rejected(s, r, InvalidArgument)
            else if id !in s.live then Rejected(s, r, NoDocuments)
            else if s.live[id].forfeited then Rejected(s, r, AlreadyForfeited)
            else r.1 == Done && Rewritten(s, r.0, id, s.live[id].(forfeited := true)) && LookupsStay(s, r.0)
  {
  }

  /** Ten clients at most redeem a code, each once; a thumbprint has at most 128 characters. */
  lemma RedeemAdds(s: Store, code: string, thumbprint: string)
    ensures var r := Step(s, Redeem(code, thumbprint));
            if code == "" || thumbprint == "" || |thumbprint| > 128 then Rejected(s, r, InvalidArgument)
            else if Lookup(s, Handle(Code, code)).None? then Rejected(s, r, NoDocuments)
            else
              var id := Lookup(s, Handle(Code, code)).value;
              var d := s.live[id];
              if d.forfeited then Rejected(s, r, AlreadyForfeited)
              else if thumbprint in d.redeemedBy then Rejected(s, r, AlreadyRedeemed)
              else if |d.redeemedBy| >= 10 then Rejected(s, r, TooManyRedeemers)
              else
                var d' := d.(redeemedBy := d.redeemedBy + [thumbprint]);
                r.1 == Found(d') && Rewritten(s, r.0, id, d') && LookupsStay(s, r.0)
  {
  }

  /** Five attempts, and the sixth forfeits the code. */
  lemma AttemptCounts(s: Store, code: string)
    ensures var r := Step(s, Attempt(code));
            if code == "" then Rejected(s, r, InvalidArgument)
            else if Lookup(s, Handle(Code, code)).None? then Rejected(s, r, NoDocuments)
            else
              var id := Lookup(s, Handle(Code, code)).value;
              var d := s.live[id];
              if d.forfeited then Rejected(s, r, AlreadyForfeited)
              else if d.txCodeAttempts >= 5 then
                r.1 == Failed(AttemptsExceeded) && Rewritten(s, r.0, id, d.(forfeited := true)) && LookupsStay(s, r.0)
              else
                var d' := d.(txCodeAttempts := d.txCodeAttempts + 1);
                r.1 == Found(d') && Rewritten(s, r.0, id, d') && LookupsStay(s, r.0)
  {
  }

  // ----- single fields -----

  lemma ConsentSets(s: Store, query: Doc)
    ensures var r := Step(s, Consent(query));
            if query.requestURI == "" then Rejected(s, r, InvalidArgument)
            else
              var found := Lookup(s, Handle(RequestURI, query.requestURI));
              if found.None? then Rejected(s, r, NoDocuments)
              else
                var d := s.live[found.value];
                r.1 == Done && Rewritten(s, r.0, found.value, d.(consent := true)) && LookupsGain(s, r.0, d)
  {
  }

  /** The session a query names: its own, or that of the first handle it sets. */
  ghost function Named(s: Store, q: Doc): Option<string> {
    if q.sessionID != "" then Live(s, q.sessionID)
    else if q.requestURI != "" then Lookup(s, Handle(RequestURI, q.requestURI))
    else if q.code != "" then Lookup(s, Handle(Code, q.code))
    else if q.state != "" then Lookup(s, Handle(State, q.state))
    else if q.verifierResponseCode != "" then Lookup(s, Handle(VerifierResponseCode, q.verifierResponseCode))
    else if q.ephemeralKeyID != "" then Lookup(s, Handle(EphemeralKeyID, q.ephemeralKeyID))
    else if q.requestObjectID != "" then Lookup(s, Handle(RequestObjectID, q.requestObjectID))
    else if q.authSession != "" then Lookup(s, Handle(AuthSession, q.authSession))
    else if q.issuerState != "" then Lookup(s, Handle(IssuerState, q.issuerState))
    else None
  }

  predicate NamesNothing(q: Doc) {
    q.sessionID == "" && q.requestURI == "" && q.code == "" && q.state == "" && q.verifierResponseCode == "" &&
    q.ephemeralKeyID == "" && q.requestObjectID == "" && q.authSession == "" && q.issuerState == ""
  }

  lemma TargetIs(s: Store, q: Doc)
    ensures TargetOf(q, QueryOrder(q)).Unset? <==> NamesNothing(q)
    ensures Named(s, q) == match TargetOf(q, QueryOrder(q)) case Session(id) => Live(s, id) case ByHandle(h) => Lookup(s, h) case Unset => None
  {
    var o := QueryOrder(q);
    assert o == [o[0], o[1], o[2], o[3]] + [o[4], o[5], o[6], o[7]];
    FirstSetOfConcat([o[0], o[1], o[2], o[3]], [o[4], o[5], o[6], o[7]]);
    FirstOfFour(o[0], o[1], o[2], o[3]);
    FirstOfFour(o[4], o[5], o[6], o[7]);
  }

  lemma FirstOfFour(a: Handle, b: Handle, c: Handle, d: Handle)
    ensures FirstSet([a, b, c, d]) ==
            if a.value != "" then Some(a) else if b.value != "" then Some(b)
            else if c.value != "" then Some(c) else if d.value != "" then Some(d) else None
  {
    assert [a, b, c, d][1..] == [b, c, d] && [b, c, d][1..] == [c, d] && [c, d][1..] == [d] && [d][1..] == [];
    assert FirstSet([c, d]) == if c.value != "" then Some(c) else if d.value != "" then Some(d) else None;
  }

  /** A read by query finds the document of the session it names. */
  lemma ReadFinds(s: Store, q: Doc)
    ensures Resolve(s, q) ==
            if NamesNothing(q) then Failed(InvalidArgument)
            else if Named(s, q).None? then Failed(NoDocuments) else Found(s.live[Named(s, q).value])
  {
    TargetIs(s, q);
  }

  /** A deadline moves out and never in. */
  lemma ExtensionMovesOut(s: Store, q: Doc, expiresAt: int)
    ensures var r := Step(s, ExtendExpiry(q, expiresAt));
            if NamesNothing(q) then Rejected(s, r, InvalidArgument)
            else if Named(s, q).None? then Rejected(s, r, NoDocuments)
            else
              var d := s.live[Named(s, q).value];
              r.1 == Done &&
              if d.expiresAt >= expiresAt then r.0 == s
              else Rewritten(s, r.0, Named(s, q).value, d.(expiresAt := expiresAt)) && LookupsGain(s, r.0, d)
  {
    TargetIs(s, q);
  }

  lemma TokenIsAdded(s: Store, code: string, token: Option<Token>)
    ensures var r := Step(s, AddToken(code, token));
            if code == "" then Rejected(s, r, InvalidArgument)
            else
              var found := Lookup(s, Handle(Code, code));
              if found.None? then Rejected(s, r, NoDocuments)
              else
                var d := s.live[found.value].(token := token);
                r.1 == Done && Rewritten(s, r.0, found.value, d) && LookupsGain(s, r.0, d)
  {
  }

  lemma SourceIsSet(s: Store, query: Doc, source: string)
    ensures var r := Step(s, SetAuthenticSource(query, source));
            if source == "" || query.sessionID == "" then Rejected(s, r, InvalidArgument)
            else if query.sessionID !in s.live then Rejected(s, r, NoDocuments)
            else
              r.1 == Done && LookupsStay(s, r.0) &&
              Rewritten(s, r.0, query.sessionID, s.live[query.sessionID].(authenticSource := source))
  {
  }

  lemma IdentifierIsSet(s: Store, query: Doc, identifier: string)
    ensures var r := Step(s, SetIdentifier(query, identifier));
            if identifier == "" || query.sessionID == "" then Rejected(s, r, InvalidArgument)
            else if query.sessionID !in s.live then Rejected(s, r, NoDocuments)
            else
              r.1 == Done && LookupsStay(s, r.0) &&
              Rewritten(s, r.0, query.sessionID, s.live[query.sessionID].(identifier := identifier))
  {
  }

  lemma ProviderIsSet(s: Store, id: string, f: ProviderFields)
    ensures var r := Step(s, SetAuthProvider(id, f));
            if id == "" then Rejected(s, r, InvalidArgument)
            else if id !in s.live then Rejected(s, r, NoDocuments)
            else
              var d := s.live[id];
              var d' := d.(authProvider := f.authProvider, dataSource := f.dataSource, remoteName := f.remoteName,
                           authenticSource := f.authenticSource);
              r.1 == Done && Rewritten(s, r.0, id, d') && LookupsGain(s, r.0, d)
  {
  }

  // ----- one-shot handles -----

  /** No document is found, and reads find what they found. */
  ghost predicate Missed(s: Store, r: (Store, Reply)) {
    r.1 == Failed(NoDocuments) && r.0.live == s.live && r.0.callbacks == s.callbacks && LookupsStay(s, r.0)
  }

  /** A claim finds the session of its handle, whose document still has it, and takes it off. */
  lemma AuthSessionIsClaimed(s: Store, handle: string)
    ensures var r := Step(s, ClaimAuthSession(handle));
            var h := Handle(AuthSession, handle);
            if handle == "" then Rejected(s, r, InvalidArgument)
            else if Lookup(s, h).None? || s.live[Lookup(s, h).value].authSession != handle then Missed(s, r)
            else
              var id := Lookup(s, h).value;
              var d := s.live[id].(authSession := "");
              r.1 == Found(d) && Rewritten(s, r.0, id, d) &&
              forall other :: Lookup(r.0, other) == if other == h then None else Lookup(s, other)
  {
  }

  lemma IssuerStateIsClaimed(s: Store, handle: string, claimant: Doc, valid: bool)
    ensures var r := Step(s, ClaimIssuerState(handle, claimant, valid));
            if handle == "" || claimant.sessionID == "" || !valid then Rejected(s, r, InvalidArgument)
            else if Lookup(s, Handle(IssuerState, handle)) != Some(claimant.sessionID) ||
                    s.live[claimant.sessionID].issuerState != handle then Missed(s, r)
            else
              var d := claimant.(issuerState := "");
              r.1 == Found(d) && Rewritten(s, r.0, claimant.sessionID, d) &&
              LookupsTrade(s, r.0, s.live[claimant.sessionID], d)
  {
    var h, d := Handle(IssuerState, handle), claimant.(issuerState := "");
    CarriesExactly(d, h);
    if claimant.sessionID in s.live {
      var old' := s.live[claimant.sessionID];
      CarriesExactly(old', h);
      TradeAlsoDrops(s, h, old', d);
    }
  }

  lemma TradeAlsoDrops(s: Store, h: Handle, previous: Doc, d: Doc)
    requires d.sessionID in s.live && !Carries(d, h)
    ensures Carries(previous, h) ==>
              LookupsTrade(s, Replace(s.(indices := s.indices - {h}), d.sessionID, previous, d), previous, d)
  {
  }

  /** A resume puts its ten fields in the place of the issuer_state and leaves the others. */
  lemma IssuerStateIsResumed(s: Store, handle: string, f: Resume)
    ensures var r := Step(s, ResumeIssuerState(handle, f));
            var h := Handle(IssuerState, handle);
            if handle == "" then Rejected(s, r, InvalidArgument)
            else if Lookup(s, h).None? || s.live[Lookup(s, h).value].issuerState != handle then Missed(s, r)
            else
              var id := Lookup(s, h).value;
              var d := s.live[id].(
                issuerState := "", authSession := f.authSession, dpopThumbprint := f.dpopThumbprint,
                walletClientID := f.walletClientID, walletURI := f.walletURI, codeChallenge := f.codeChallenge,
                codeChallengeMethod := f.codeChallengeMethod, dcqlQuery := f.dcqlQuery, ephemeralKeyID := f.ephemeralKeyID,
                expiresAt := f.expiresAt, createdAt := f.createdAt);
              r.1 == Found(d) && Rewritten(s, r.0, id, d) && LookupsTrade(s, r.0, s.live[id], d)
  {
  }
}
