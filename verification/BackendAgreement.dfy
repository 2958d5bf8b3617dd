/** Where the memory store and the MongoDB store answer alike, and the queries on
    which they do not. */
module BackendAgreement {
  import opened AuthDocuments
  import opened AuthStore
  import opened AuthStoreIndex
  import opened MongoReplicas
  import opened Wrappers
  import T = IndexTables

  // ----- reads -----

  /** What a MongoDB read may answer: some matching document. */
  ghost predicate MongoAnswers(docs: map<string, Doc>, q: Doc, reply: Reply) {
    match BuildFilter(q)
    case Unset => reply == Failed(InvalidArgument)
    case _ =>
      || (reply == Failed(NoDocuments) && forall id :: id in docs ==> !Matches(docs[id], BuildFilter(q)))
      || (reply.Found? && exists id :: id in docs && docs[id] == reply.doc && Matches(docs[id], BuildFilter(q)))
  }

  /** Both one-shot handles are set and nothing that comes before them is. */
  predicate Ambiguous(q: Doc) {
    q.sessionID == "" && q.requestURI == "" && q.code == "" && q.state == "" && q.verifierResponseCode == "" &&
    q.ephemeralKeyID == "" && q.requestObjectID == "" && q.authSession != "" && q.issuerState != ""
  }

  function Common(q: Doc): seq<Handle> {
    [Handle(RequestURI, q.requestURI), Handle(Code, q.code), Handle(State, q.state),
     Handle(VerifierResponseCode, q.verifierResponseCode), Handle(EphemeralKeyID, q.ephemeralKeyID),
     Handle(RequestObjectID, q.requestObjectID)]
  }

  lemma {:induction false} FirstSetNone(handles: seq<Handle>)
    ensures FirstSet(handles).None? <==> forall i :: 0 <= i < |handles| ==> handles[i].value == ""
  {
    if handles != [] {
      FirstSetNone(handles[1..]);
      assert handles == [handles[0]] + handles[1..];
    }
  }

  lemma CommonUnset(q: Doc)
    ensures FirstSet(Common(q)).None? <==>
            q.requestURI == "" && q.code == "" && q.state == "" && q.verifierResponseCode == "" &&
            q.ephemeralKeyID == "" && q.requestObjectID == ""
  {
    FirstSetNone(Common(q));
    var c := Common(q);
    assert c[0].value == q.requestURI && c[1].value == q.code && c[2].value == q.state;
    assert c[3].value == q.verifierResponseCode && c[4].value == q.ephemeralKeyID && c[5].value == q.requestObjectID;
  }

  lemma PairTargets(a: Handle, b: Handle)
    ensures FirstSet([a, b]) == if a.value != "" then Some(a) else if b.value != "" then Some(b) else None
  {
    assert [a, b][1..] == [b] && [b][1..] == [];
  }

  /** The two backends follow the same field of a query exactly when it is not
      ambiguous between the one-shot handles. */
  lemma SameTargetExactly(q: Doc)
    ensures TargetOf(q, QueryOrder(q)) == BuildFilter(q) <==> !Ambiguous(q)
  {
    var a, i := Handle(AuthSession, q.authSession), Handle(IssuerState, q.issuerState);
    assert QueryOrder(q) == Common(q) + [a, i] && FilterOrder(q) == Common(q) + [i, a];
    FirstSetOfConcat(Common(q), [a, i]);
    FirstSetOfConcat(Common(q), [i, a]);
    PairTargets(a, i);
    PairTargets(i, a);
    CommonUnset(q);
  }

  /** On every query that is not ambiguous the memory store gives the one answer
      MongoDB can give. */
  lemma ReadsAgree(s: Store, q: Doc, reply: Reply)
    requires Inv(s) && !Ambiguous(q)
    ensures MongoAnswers(s.live, q, reply) <==> reply == Resolve(s, q)
  {
    SameTargetExactly(q);
    match BuildFilter(q)
    case Unset =>
    case Session(id) =>
      assert forall other :: other in s.live ==> s.live[other].sessionID == other;
    case ByHandle(h) =>
      LookupIsScan(s, h);
  }

  function Prepared(id: string, authSession: string, issuerState: string): Doc {
    Doc(id, 1, 0, "", "", "", "", "", "", authSession, issuerState, None, "", "", false, [], 0, false,
        "", "", "", "", "", "", "", "", "", "", None, 0)
  }

  lemma PreparedHandles(id: string, authSession: string, issuerState: string)
    requires (authSession == "") != (issuerState == "")
    ensures HandlesOf(Prepared(id, authSession, issuerState)) ==
            {if authSession != "" then Handle(AuthSession, authSession) else Handle(IssuerState, issuerState)}
  {
    var d := Prepared(id, authSession, issuerState);
    var only := if authSession != "" then Handle(AuthSession, authSession) else Handle(IssuerState, issuerState);
    forall h ensures h in HandlesOf(d) <==> h == only {
      CarriesExactly(d, h);
    }
  }

  lemma AmbiguousTargets(q: Doc)
    requires Ambiguous(q)
    ensures TargetOf(q, QueryOrder(q)) == ByHandle(Handle(AuthSession, q.authSession))
    ensures BuildFilter(q) == ByHandle(Handle(IssuerState, q.issuerState))
  {
    var ha, hb := Handle(AuthSession, q.authSession), Handle(IssuerState, q.issuerState);
    assert FilterOrder(q) == Common(q) + [hb, ha] && QueryOrder(q) == Common(q) + [ha, hb];
    FirstSetOfConcat(Common(q), [hb, ha]);
    FirstSetOfConcat(Common(q), [ha, hb]);
    PairTargets(ha, hb);
    PairTargets(hb, ha);
    CommonUnset(q);
  }

  /** For every ambiguous query there is a store on which the backends differ. */
  lemma AmbiguousReadsDiffer(q: Doc) returns (s: Store)
    requires Ambiguous(q)
    ensures Inv(s) && !MongoAnswers(s.live, q, Resolve(s, q))
  {
    var a, b := Prepared("a", q.authSession, ""), Prepared("b", "", q.issuerState);
    var ha, hb := Handle(AuthSession, q.authSession), Handle(IssuerState, q.issuerState);
    PreparedHandles("a", q.authSession, "");
    PreparedHandles("b", "", q.issuerState);
    s := Store(map["a" := a, "b" := b], map[ha := "a", hb := "b"], multiset{});
    TwoDocuments(s, a, b, ha, hb);
    AmbiguousTargets(q);
    assert Resolve(s, q) == Found(a) && !Carries(a, hb);
  }

  lemma TwoDocuments(s: Store, a: Doc, b: Doc, ha: Handle, hb: Handle)
    requires s == Store(map["a" := a, "b" := b], map[ha := "a", hb := "b"], multiset{}) && ha != hb
    requires a.sessionID == "a" && b.sessionID == "b" && HandlesOf(a) == {ha} && HandlesOf(b) == {hb}
    ensures Inv(s)
  {
    assert "a" != "b" by {
      assert "a"[0] != "b"[0];
    }
    var t := View(s);
    HeldAt(s, "a");
    HeldAt(s, "b");
    assert t.held.Keys == {"a", "b"};
    assert ReservedBy(multiset{}) == {};
    T.EntriesRefine(t);
  }

  // ----- an uninterrupted attempt -----

  /** The three steps of one attempt with nothing in between, and its reply. */
  ghost predicate AttemptAlone(s: System, r: nat, code: string, s': System, reply: Reply) {
    exists p ::
      Enabled(s, AttemptCount(r, code, p)) &&
      var s1 := Next(s, AttemptCount(r, code, p));
      match p
      case Some(id) => s' == s1 && reply == Found(s1.docs[id])
      case None => MissedAlone(s1, r, s', reply)
  }

  ghost predicate MissedAlone(s: System, r: nat, s': System, reply: Reply) {
    exists p ::
      Enabled(s, AttemptLook(r, p)) &&
      var s2 := Next(s, AttemptLook(r, p));
      match p
      case None => s' == s2 && reply == Failed(NoDocuments)
      case Some(id) =>
        if s.docs[id].forfeited then s' == s2 && reply == Failed(AlreadyForfeited)
        else if s.docs[id].txCodeAttempts >= MAX_TX_CODE_ATTEMPTS then LockedAlone(s2, r, s', reply)
        else s' == s2 && reply == Failed(InvalidArgument)
  }

  ghost predicate LockedAlone(s: System, r: nat, s': System, reply: Reply) {
    exists p :: Enabled(s, AttemptLock(r, p)) && s' == Next(s, AttemptLock(r, p)) && reply == Failed(AttemptsExceeded)
  }

  lemma CodeHandle(d: Doc, code: string)
    requires code != ""
    ensures Carries(d, Handle(Code, code)) <==> d.code == code
  {
    CarriesExactly(d, Handle(Code, code));
  }

  /** The one document with a code, as the memory store finds it. */
  lemma ByCode(m: Store, code: string)
    requires Inv(m) && code != ""
    ensures match Lookup(m, Handle(Code, code))
            case Some(id) => id in m.live && forall other :: other in m.live && m.live[other].code == code <==> other == id
            case None => forall other :: other in m.live ==> m.live[other].code != code
  {
    LookupIsScan(m, Handle(Code, code));
    forall other | other in m.live
      ensures Carries(m.live[other], Handle(Code, code)) <==> m.live[other].code == code
    {
      CodeHandle(m.live[other], code);
    }
  }

  lemma LockAlone(m: Store, s: System, r: nat, s': System, reply: Reply, id: string)
    requires At(s, r).AttemptExhausted? && s.docs == m.live && id in m.live && !m.live[id].forfeited
    requires forall other :: other in m.live && m.live[other].code == At(s, r).code <==> other == id
    requires LockedAlone(s, r, s', reply)
    ensures s'.docs == m.live[id := Spent(m.live[id])] && reply == Failed(AttemptsExceeded)
  {
    var p :| Enabled(s, AttemptLock(r, p)) && s' == Next(s, AttemptLock(r, p)) && reply == Failed(AttemptsExceeded);
    assert p == Some(id);
  }

  lemma AttemptStep(m: Store, code: string)
    requires code != ""
    ensures var (m', reply) := Step(m, Attempt(code));
            match Lookup(m, Handle(Code, code))
            case None => m'.live == m.live && reply == Failed(NoDocuments)
            case Some(id) =>
              var d := m.live[id];
              if d.forfeited then m'.live == m.live && reply == Failed(AlreadyForfeited)
              else if d.txCodeAttempts >= MAX_TX_CODE_ATTEMPTS
              then m'.live == m.live[id := Spent(d)] && reply == Failed(AttemptsExceeded)
              else m'.live == m.live[id := Counted(d)] && reply == Found(Counted(d))
  {
  }

  /** An attempt that no other replica interrupts does to MongoDB what the memory
      store's attempt does, and gives the same reply. */
  lemma AttemptsAgree(m: Store, s: System, r: nat, code: string, s': System, reply: Reply)
    requires Inv(m) && s.docs == m.live && AttemptAlone(s, r, code, s', reply)
    ensures s'.docs == Step(m, Attempt(code)).0.live && reply == Step(m, Attempt(code)).1
  {
    var p :| Enabled(s, AttemptCount(r, code, p)) &&
             var s1 := Next(s, AttemptCount(r, code, p));
             match p
             case Some(id) => s' == s1 && reply == Found(s1.docs[id])
             case None => MissedAlone(s1, r, s', reply);
    ByCode(m, code);
    AttemptStep(m, code);
    var found := Lookup(m, Handle(Code, code));
    if p.None? {
      var s1 := Next(s, AttemptCount(r, code, p));
      MissedAgrees(m, s1, r, code, s', reply);
      if found.Some? {
        assert !CanCount(m.live[found.value], code);
      }
    } else {
      assert found == p;
    }
  }

  lemma MissedAgrees(m: Store, s: System, r: nat, code: string, s': System, reply: Reply)
    requires Inv(m) && code != "" && s.docs == m.live && At(s, r) == AttemptMissed(code)
    requires MissedAlone(s, r, s', reply)
    ensures match Lookup(m, Handle(Code, code))
            case None => s'.docs == m.live && reply == Failed(NoDocuments)
            case Some(id) =>
              var d := m.live[id];
              if d.forfeited then s'.docs == m.live && reply == Failed(AlreadyForfeited)
              else if d.txCodeAttempts >= MAX_TX_CODE_ATTEMPTS
              then s'.docs == m.live[id := Spent(d)] && reply == Failed(AttemptsExceeded)
              else true
  {
    ByCode(m, code);
    var p :| Enabled(s, AttemptLook(r, p)) &&
             var s2 := Next(s, AttemptLook(r, p));
             match p
             case None => s' == s2 && reply == Failed(NoDocuments)
             case Some(id) =>
               if s.docs[id].forfeited then s' == s2 && reply == Failed(AlreadyForfeited)
               else if s.docs[id].txCodeAttempts >= MAX_TX_CODE_ATTEMPTS then LockedAlone(s2, r, s', reply)
               else s' == s2 && reply == Failed(InvalidArgument);
    assert p == Lookup(m, Handle(Code, code));
    if p.Some? && !s.docs[p.value].forfeited && s.docs[p.value].txCodeAttempts >= MAX_TX_CODE_ATTEMPTS {
      LockAlone(m, Next(s, AttemptLook(r, p)), r, s', reply, p.value);
    }
  }

  // ----- redeeming -----

  /** A redemption and, if it matched nothing, the read that tells why. */
  ghost predicate RedeemAlone(s: System, code: string, thumbprint: string, s': System, reply: Reply) {
    exists p ::
      Enabled(s, RedeemCode(code, thumbprint, p)) && s' == Next(s, RedeemCode(code, thumbprint, p)) &&
      match p
      case Some(id) => reply == Found(s'.docs[id])
      case None => ReasonRead(s, code, thumbprint, reply)
  }

  ghost predicate PicksCode(s: System, code: string, p: Option<string>) {
    Picks(s.docs, (d: Doc) => d.code == code, p)
  }

  ghost predicate ReasonRead(s: System, code: string, thumbprint: string, reply: Reply) {
    exists p ::
      PicksCode(s, code, p) &&
      match p
      case None => reply == Failed(NoDocuments)
      case Some(id) =>
        reply == if s.docs[id].forfeited then Failed(AlreadyForfeited)
                 else if thumbprint in s.docs[id].redeemedBy then Failed(AlreadyRedeemed)
                 else if |s.docs[id].redeemedBy| >= MAX_PRE_AUTH_REDEEMERS then Failed(TooManyRedeemers)
                 else Failed(InvalidArgument)
  }

  lemma RedeemStep(m: Store, code: string, thumbprint: string)
    requires !Refused(Redeem(code, thumbprint))
    ensures var (m', reply) := Step(m, Redeem(code, thumbprint));
            match Lookup(m, Handle(Code, code))
            case None => m'.live == m.live && reply == Failed(NoDocuments)
            case Some(id) =>
              var d := m.live[id];
              if CanRedeem(d, d.code, thumbprint)
              then m'.live == m.live[id := RedeemedAlso(d, thumbprint)] && reply == Found(RedeemedAlso(d, thumbprint))
              else m'.live == m.live && reply == AuthStore.Redeemed(d, thumbprint) && reply.Failed?
  {
  }

  /** An uninterrupted redemption leaves the same documents and gives the same reply, the
      reason for a refusal included. */
  lemma RedeemsAgree(m: Store, s: System, code: string, thumbprint: string, s': System, reply: Reply)
    requires Inv(m) && s.docs == m.live && RedeemAlone(s, code, thumbprint, s', reply)
    ensures s'.docs == Step(m, Redeem(code, thumbprint)).0.live && reply == Step(m, Redeem(code, thumbprint)).1
  {
    var p :| Enabled(s, RedeemCode(code, thumbprint, p)) && s' == Next(s, RedeemCode(code, thumbprint, p)) &&
             match p
             case Some(id) => reply == Found(s'.docs[id])
             case None => ReasonRead(s, code, thumbprint, reply);
    ByCode(m, code);
    RedeemStep(m, code, thumbprint);
    var found := Lookup(m, Handle(Code, code));
    if p.Some? {
      assert CanRedeem(m.live[p.value], code, thumbprint);
      assert found == p;
    } else {
      NoneRedeems(m, s, code, thumbprint);
      ReasonsAgree(m, s, code, thumbprint, reply);
    }
  }

  lemma NoneRedeems(m: Store, s: System, code: string, thumbprint: string)
    requires Inv(m) && s.docs == m.live && code != "" && Enabled(s, RedeemCode(code, thumbprint, None))
    ensures var found := Lookup(m, Handle(Code, code));
            found.Some? ==> found.value in m.live && !CanRedeem(m.live[found.value], m.live[found.value].code, thumbprint)
  {
    ByCode(m, code);
    var found := Lookup(m, Handle(Code, code));
    if found.Some? {
      assert m.live[found.value].code == code;
      assert !CanRedeem(m.live[found.value], code, thumbprint);
    }
  }

  lemma ReasonsAgree(m: Store, s: System, code: string, thumbprint: string, reply: Reply)
    requires Inv(m) && code != "" && s.docs == m.live && ReasonRead(s, code, thumbprint, reply)
    ensures match Lookup(m, Handle(Code, code))
            case None => reply == Failed(NoDocuments)
            case Some(id) => !CanRedeem(m.live[id], code, thumbprint) ==> reply == AuthStore.Redeemed(m.live[id], thumbprint)
  {
    ByCode(m, code);
    var p :| PicksCode(s, code, p) &&
             match p
             case None => reply == Failed(NoDocuments)
             case Some(id) =>
               reply == if s.docs[id].forfeited then Failed(AlreadyForfeited)
                        else if thumbprint in s.docs[id].redeemedBy then Failed(AlreadyRedeemed)
                        else if |s.docs[id].redeemedBy| >= MAX_PRE_AUTH_REDEEMERS then Failed(TooManyRedeemers)
                        else Failed(InvalidArgument);
    assert p == Lookup(m, Handle(Code, code));
  }

  // ----- marking -----

  /** What marking by session replies. */
  function MarkReply(s: System, id: string): Reply {
    if id !in s.docs then Failed(NoDocuments)
    else if s.docs[id].forfeited then Failed(AlreadyForfeited)
    else Done
  }

  lemma MarksAgree(m: Store, s: System, id: string)
    requires s.docs == m.live && id != ""
    ensures Next(s, Mark(id)).docs == Step(m, MarkForfeited(id)).0.live
    ensures Step(m, MarkForfeited(id)).1 == MarkReply(s, id)
  {
    assert Enabled(s, Mark(id));
  }

  // ----- saving -----

  /** A document as the MongoDB store saves it: an unset creation time becomes now. */
  function Stamped(doc: Doc, now: int): Doc {
    if doc.createdAt != 0 then doc else doc.(createdAt := now)
  }

  /** The saved session keeps its creation time in memory and gets a new one in MongoDB. */
  predicate Restarted(docs: map<string, Doc>, doc: Doc, now: int) {
    doc.createdAt == 0 && doc.sessionID in docs && docs[doc.sessionID].createdAt != 0 && docs[doc.sessionID].createdAt != now
  }

  /** A save leaves the same documents in both exactly when it does not restart a session:
      a document without a creation time that replaces one with an earlier one. */
  lemma SavesAgreeExactly(m: Store, s: System, doc: Doc, now: int)
    requires s.docs == m.live && doc.sessionID != ""
    ensures Next(s, SaveDoc(Stamped(doc, now))).docs == Step(m, Save(doc, true, now)).0.live <==> !Restarted(s.docs, doc, now)
    ensures Step(m, Save(doc, true, now)).1 == Done
  {
    var saved, kept := Stamped(doc, now), Anchored(m, doc, now);
    assert Enabled(s, SaveDoc(saved));
    assert Next(s, SaveDoc(saved)).docs[doc.sessionID] == saved;
    assert Step(m, Save(doc, true, now)).0.live[doc.sessionID] == kept;
  }

  // ----- rotating -----

  /** A rotation leaves the same documents in both, and succeeds in both or in neither. */
  lemma RotationsAgree(m: Store, s: System, oldToken: string, doc: Doc)
    requires Inv(m) && s.docs == m.live && oldToken != "" && doc.sessionID != ""
    ensures Next(s, RotateDoc(oldToken, doc)).docs == Step(m, Rotate(oldToken, doc)).0.live
    ensures Step(m, Rotate(oldToken, doc)).1.Done? <==>
            doc.sessionID in s.docs && s.docs[doc.sessionID].refreshToken == oldToken
  {
    var h, id := Handle(RefreshToken, oldToken), doc.sessionID;
    assert Enabled(s, RotateDoc(oldToken, doc));
    LookupIsScan(m, h);
    if id in m.live {
      CarriesExactly(m.live[id], h);
    }
  }

  // ----- extending -----

  /** The session a query leads to, when the backends follow the same field. */
  lemma FilterFinds(m: Store, target: Target, p: Option<string>)
    requires Inv(m) && !target.Unset? && Picks(m.live, d => Matches(d, target), p)
    ensures p == (match target case Session(id) => Live(m, id) case ByHandle(h) => Lookup(m, h))
  {
    match target
    case Session(id) =>
      if id in m.live {
        assert Matches(m.live[id], target);
      }
    case ByHandle(h) =>
      LookupIsScan(m, h);
      if Lookup(m, h).Some? {
        assert Matches(m.live[Lookup(m, h).value], target);
      }
  }

  /** An extension leaves the same deadline in both, and fails in both or in neither. */
  lemma ExtensionsAgree(m: Store, s: System, q: Doc, expiresAt: int, p: Option<string>)
    requires Inv(m) && s.docs == m.live && !Ambiguous(q) && Enabled(s, Extend(q, expiresAt, p))
    ensures Next(s, Extend(q, expiresAt, p)).docs == Step(m, Operation.ExtendExpiry(q, expiresAt)).0.live
    ensures Step(m, Operation.ExtendExpiry(q, expiresAt)).1 == if p.Some? then Done else Failed(NoDocuments)
  {
    SameTargetExactly(q);
    FilterFinds(m, BuildFilter(q), p);
    if p.Some? && m.live[p.value].expiresAt >= expiresAt {
      assert ExtendedTo(m.live[p.value], expiresAt) == m.live[p.value];
      assert m.live[p.value := m.live[p.value]] == m.live;
    }
  }

  // ----- forfeiting -----

  /** A forfeit follows the same field in both exactly when the query names no session and
      not both a code and a request URI. */
  lemma SameForfeitExactly(q: Doc)
    requires ForfeitHandle(q).Some?
    ensures BuildFilter(q) == ByHandle(ForfeitHandle(q).value) <==> q.sessionID == "" && (q.code == "" || q.requestURI == "")
  {
    var order := FilterOrder(q);
    assert order[0] == Handle(RequestURI, q.requestURI) && order[1..][0] == Handle(Code, q.code);
    if q.requestURI == "" {
      assert FirstSet(order) == FirstSet(order[1..]) == Some(Handle(Code, q.code));
    } else {
      assert FirstSet(order) == Some(Handle(RequestURI, q.requestURI));
    }
  }

  /** The two steps of one forfeit with nothing in between, and its reply. */
  ghost predicate ForfeitAlone(s: System, r: nat, q: Doc, s': System, reply: Reply) {
    exists p ::
      Enabled(s, ForfeitFind(r, q, p)) &&
      var s1 := Next(s, ForfeitFind(r, q, p));
      if p.None? then s' == s1 && reply == Failed(NoDocuments)
      else if s.docs[p.value].forfeited then s' == s1 && reply == Failed(AlreadyForfeited)
      else CommitAlone(s1, r, s', reply)
  }

  ghost predicate CommitAlone(s: System, r: nat, s': System, reply: Reply) {
    exists p ::
      Enabled(s, ForfeitCommit(r, p)) && s' == Next(s, ForfeitCommit(r, p)) &&
      reply == if p.Some? then Found(s'.docs[p.value]) else Failed(AlreadyForfeited)
  }

  lemma CommitAgrees(m: Store, s: System, r: nat, h: Handle, id: string, s': System, reply: Reply)
    requires Inv(m) && s.docs == m.live && At(s, r) == ForfeitChecked(ByHandle(h)) && CommitAlone(s, r, s', reply)
    requires Lookup(m, h) == Some(id) && !m.live[id].forfeited
    ensures s'.docs == m.live[id := Spent(m.live[id])] && reply == Found(Spent(m.live[id]))
  {
    var p :| Enabled(s, ForfeitCommit(r, p)) && s' == Next(s, ForfeitCommit(r, p)) &&
             reply == if p.Some? then Found(s'.docs[p.value]) else Failed(AlreadyForfeited);
    LookupIsScan(m, h);
    assert Matches(m.live[id], ByHandle(h)) && !m.live[id].forfeited;
    assert p == Some(id);
  }

  lemma ForfeitStep(m: Store, q: Doc, h: Handle)
    requires ForfeitHandle(q) == Some(h)
    ensures var (m', reply) := Step(m, Forfeit(q));
            match Lookup(m, h)
            case None => m'.live == m.live && reply == Failed(NoDocuments)
            case Some(id) =>
              var d := m.live[id];
              if d.forfeited then m'.live == m.live && reply == Failed(AlreadyForfeited)
              else m'.live == m.live[id := Spent(d)] && reply == Found(Spent(d))
  {
  }

  lemma FindStep(s: System, r: nat, q: Doc, p: Option<string>, h: Handle)
    requires Enabled(s, ForfeitFind(r, q, p)) && BuildFilter(q) == ByHandle(h)
    ensures Next(s, ForfeitFind(r, q, p)).docs == s.docs
    ensures p.Some? && !s.docs[p.value].forfeited ==>
              At(Next(s, ForfeitFind(r, q, p)), r) == ForfeitChecked(ByHandle(h))
    ensures Picks(s.docs, d => Matches(d, ByHandle(h)), p)
  {
  }

  /** An uninterrupted forfeit leaves the same documents and gives the same reply. */
  lemma ForfeitsAgree(m: Store, s: System, r: nat, q: Doc, s': System, reply: Reply)
    requires Inv(m) && s.docs == m.live && ForfeitAlone(s, r, q, s', reply)
    requires ForfeitHandle(q).Some? && q.sessionID == "" && (q.code == "" || q.requestURI == "")
    ensures s'.docs == Step(m, Forfeit(q)).0.live && reply == Step(m, Forfeit(q)).1
  {
    SameForfeitExactly(q);
    var h := ForfeitHandle(q).value;
    var p :| Enabled(s, ForfeitFind(r, q, p)) &&
             var s1 := Next(s, ForfeitFind(r, q, p));
             if p.None? then s' == s1 && reply == Failed(NoDocuments)
             else if s.docs[p.value].forfeited then s' == s1 && reply == Failed(AlreadyForfeited)
             else CommitAlone(s1, r, s', reply);
    FindStep(s, r, q, p, h);
    FilterFinds(m, ByHandle(h), p);
    ForfeitStep(m, q, h);
    if p.Some? && !m.live[p.value].forfeited {
      CommitAgrees(m, Next(s, ForfeitFind(r, q, p)), r, h, p.value, s', reply);
    }
  }
}
