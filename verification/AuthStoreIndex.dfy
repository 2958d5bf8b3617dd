/** The indices of the store refine a scan of its documents: which operations
    keep that, and exactly what a caller must respect for the others to. */
module AuthStoreIndex {
  import opened AuthDocuments
  import opened AuthStore
  import opened IndexTables
  import opened Wrappers

  function HeldBy(live: map<string, Doc>): map<string, set<Handle>> {
    map id | id in live :: HandlesOf(live[id])
  }

  function ReservedBy(callbacks: multiset<Doc>): set<Handle> {
    set g, h | g in callbacks && h in HandlesOf(g) :: h
  }

  function View(s: Store): Table<Handle> {
    Table(HeldBy(s.live), s.indices, ReservedBy(s.callbacks))
  }

  ghost predicate KeysAgree(s: Store) {
    forall id :: id in s.live ==> s.live[id].sessionID == id
  }

  /** Following the index equals scanning, and no pending callback can change that. */
  ghost predicate Inv(s: Store) {
    KeysAgree(s) && Safe(View(s))
  }

  /** A lookup by one handle gives the session a scan for that field would give. */
  lemma LookupIsScan(s: Store, h: Handle)
    requires Inv(s)
    ensures match Lookup(s, h)
            case Some(id) => id in s.live && (forall other :: other in s.live && Carries(s.live[other], h) <==> other == id)
            case None => forall other :: other in s.live ==> !Carries(s.live[other], h)
  {
    var t := View(s);
    assert Follow(t, h) == Scan(t, h);
    forall other ensures other in s.live && Carries(s.live[other], h) <==> other in Follow(t, h) {
      assert other in Scan(t, h) <==> other in t.held && h in t.held[other];
    }
  }

  // ----- what a write must respect -----

  /** No other live document, and none whose callback is pending, has a handle of `d`. */
  ghost predicate FreshHandles(s: Store, id: string, d: Doc) {
    FreshFor(View(s), id, HandlesOf(d))
  }

  /** `d` still has every handle whose entry leads to session `id`. */
  ghost predicate DropsNothing(s: Store, id: string, d: Doc) {
    KeepsEntries(View(s), id, {}, HandlesOf(d))
  }

  lemma HeldAfter(live: map<string, Doc>, id: string, d: Doc)
    ensures HeldBy(live[id := d]) == HeldBy(live)[id := HandlesOf(d)]
  {
  }

  lemma HeldWithout(live: map<string, Doc>, id: string)
    ensures HeldBy(live - {id}) == HeldBy(live) - {id}
  {
  }

  lemma ReservedAfter(callbacks: multiset<Doc>, d: Doc)
    ensures ReservedBy(callbacks + multiset{d}) == ReservedBy(callbacks) + HandlesOf(d)
  {
    var before, after := ReservedBy(callbacks), ReservedBy(callbacks + multiset{d});
    forall h ensures h in after <==> h in before || h in HandlesOf(d) {
      if h in before {
        var g :| g in callbacks && h in HandlesOf(g);
        assert g in callbacks + multiset{d};
      }
      if h in HandlesOf(d) {
        assert d in callbacks + multiset{d};
      }
    }
  }

  lemma KeepAndIndexView(s: Store, id: string, d: Doc)
    requires d.sessionID == id
    ensures View(KeepAndIndex(s, id, d)) == Put(View(s), id, {}, HandlesOf(d))
  {
    HeldAfter(s.live, id, d);
    assert s.indices - {} == s.indices;
  }

  lemma ReplaceView(s: Store, id: string, before: Doc, d: Doc)
    requires d.sessionID == id
    ensures View(Replace(s, id, before, d)) == Put(View(s), id, HandlesOf(before), HandlesOf(d))
  {
    HeldAfter(s.live, id, d);
  }

  lemma KeepAndIndexExactly(s: Store, id: string, d: Doc)
    requires Inv(s)
    ensures Inv(KeepAndIndex(s, id, d)) <==> d.sessionID == id && FreshHandles(s, id, d) && DropsNothing(s, id, d)
  {
    assert KeepAndIndex(s, id, d).live[id] == d;
    if d.sessionID == id {
      KeepAndIndexView(s, id, d);
      PutExactly(View(s), id, {}, HandlesOf(d));
    }
  }

  lemma ReplaceExactly(s: Store, id: string, d: Doc)
    requires Inv(s) && id in s.live
    ensures Inv(Replace(s, id, s.live[id], d)) <==> d.sessionID == id && FreshHandles(s, id, d)
  {
    assert Replace(s, id, s.live[id], d).live[id] == d;
    if d.sessionID == id {
      var removed := HandlesOf(s.live[id]);
      assert View(s).held[id] == removed;
      ReplaceView(s, id, s.live[id], d);
      ReplaceKeepsEntries(View(s), id, HandlesOf(d));
      PutExactly(View(s), id, removed, HandlesOf(d));
    }
  }

  lemma HeldAt(s: Store, id: string)
    requires id in s.live
    ensures id in View(s).held && View(s).held[id] == HandlesOf(s.live[id])
  {
  }

  lemma KeepView(s: Store, id: string, d: Doc, handles: set<Handle>)
    requires handles == HandlesOf(d)
    ensures View(Keep(s, id, d)) == View(s).(held := View(s).held[id := handles])
  {
    HeldAfter(s.live, id, d);
  }

  lemma KeepKeys(s: Store, id: string, d: Doc)
    requires KeysAgree(s)
    ensures KeysAgree(Keep(s, id, d)) <==> d.sessionID == id
  {
    assert Keep(s, id, d).live[id] == d;
  }

  lemma KeepExactly(s: Store, id: string, d: Doc)
    requires Inv(s) && id in s.live
    ensures Inv(Keep(s, id, d)) <==> d.sessionID == id && HandlesOf(d) == HandlesOf(s.live[id])
  {
    var t, handles := View(s), HandlesOf(d);
    HeldAt(s, id);
    KeepKeys(s, id, d);
    KeepView(s, id, d, handles);
    OverwriteExactly(t, id, handles);
  }

  /** Writes that leave the handles alone keep the refinement. */
  lemma SameHandles(s: Store, id: string, d: Doc)
    requires Inv(s) && id in s.live && d.sessionID == s.live[id].sessionID && HandlesOf(d) == HandlesOf(s.live[id])
    ensures Inv(Keep(s, id, d)) && Inv(KeepAndIndex(s, id, d))
  {
    KeepExactly(s, id, d);
    assert View(s).held[id] == HandlesOf(d);
    OwnHandlesFresh(View(s), id);
    SupersetKeepsEntries(View(s), id, HandlesOf(d));
    KeepAndIndexExactly(s, id, d);
  }

  lemma AddTokenExactly(s: Store, id: string, d: Doc)
    requires Inv(s) && id in s.live && d.sessionID == id
    ensures Inv(KeepAndIndex(s, id, d)) <==> FreshHandles(s, id, d) && HandlesOf(s.live[id]) <= HandlesOf(d)
  {
    assert View(s).held[id] == HandlesOf(s.live[id]);
    SupersetKeepsEntries(View(s), id, HandlesOf(d));
    KeepAndIndexExactly(s, id, d);
  }

  // ----- the other changes of state -----

  lemma DanglingKeeps(s: Store, h: Handle)
    requires Inv(s)
    ensures Inv(WithoutDangling(s, h))
  {
    if h in s.indices && s.indices[h] !in s.live {
      var t := View(s);
      RefinesEntries(t);
      forall id | id in t.held ensures t.held[id] !! {h} {
        assert h in t.index && t.index[h] != id;
      }
      DropUnheldKeeps(t, {h}, t.reserved);
    }
  }

  lemma LeaveView(s: Store, id: string, indices: Index)
    requires id in s.live
    ensures View(Store(s.live - {id}, indices, s.callbacks + multiset{s.live[id]})) ==
            Table(View(s).held - {id}, indices, View(s).reserved + HandlesOf(s.live[id]))
  {
    HeldWithout(s.live, id);
    ReservedAfter(s.callbacks, s.live[id]);
  }

  lemma LeavingKeeps(s: Store, id: string, dropped: set<Handle>)
    requires Inv(s) && id in s.live && dropped <= HandlesOf(s.live[id])
    ensures Inv(Store(s.live - {id}, s.indices - dropped, s.callbacks + multiset{s.live[id]}))
  {
    HeldAt(s, id);
    LeaveView(s, id, s.indices - dropped);
    LeaveKeeps(View(s), id, dropped);
  }

  lemma CallbackKeeps(s: Store, g: Doc)
    requires Inv(s) && g in s.callbacks
    ensures Inv(s.(indices := DropIndices(s.indices, g), callbacks := s.callbacks - multiset{g}))
  {
    var t, rest := View(s), s.callbacks - multiset{g};
    forall h | h in HandlesOf(g) ensures h in t.reserved {
    }
    forall h | h in ReservedBy(rest) ensures h in t.reserved {
      var g' :| g' in rest && h in HandlesOf(g');
      assert g' in s.callbacks;
    }
    DropUnheldKeeps(t, HandlesOf(g), ReservedBy(rest));
  }

  lemma ClaimedHandles(d: Doc)
    requires d.authSession != ""
    ensures HandlesOf(Claimed(d)) == HandlesOf(d) - {Handle(AuthSession, d.authSession)}
    ensures Handle(AuthSession, d.authSession) in HandlesOf(d)
  {
    var d', claimed := Claimed(d), Handle(AuthSession, d.authSession);
    CarriesExactly(d, claimed);
    forall h ensures h in HandlesOf(d') <==> h in HandlesOf(d) - {claimed} {
      CarriesExactly(d, h);
      CarriesExactly(d', h);
    }
  }

  lemma ClaimKeeps(s: Store, id: string)
    requires Inv(s) && id in s.live && s.live[id].authSession != ""
    ensures var d := s.live[id];
            Inv(Keep(s, id, Claimed(d)).(indices := s.indices - {Handle(AuthSession, d.authSession)}))
  {
    var t, d := View(s), s.live[id];
    var h, claimed := Handle(AuthSession, d.authSession), Claimed(d);
    HeldAt(s, id);
    ClaimedHandles(d);
    KeepKeys(s, id, claimed);
    KeepView(s, id, claimed, t.held[id] - {h});
    GiveUpKeeps(t, id, h);
  }

  // ----- the discipline of each operation -----

  /** The document a successful claim or rotation stores in place of the old one. */
  function Replacement(s: Store, op: Operation, id: string): Doc
    requires id in s.live
  {
    match op
    case Update(doc, _) => doc
    case Rotate(_, updated) => updated
    case ClaimIssuerState(_, claimant, _) => Unprepared(claimant)
    case ResumeIssuerState(_, resume) => ApplyResume(resume, Unprepared(s.live[id]))
    case _ => s.live[id]
  }

  /** What a caller must respect. Deletions, claims, forfeits, redemptions,
      attempts, targeted updates, expiry and callbacks need nothing. */
  ghost predicate Disciplined(s: Store, op: Operation) {
    Refused(op) ||
    match op
    case Save(doc, _, _) => FreshHandles(s, doc.sessionID, doc) && DropsNothing(s, doc.sessionID, doc)
    case AddToken(_, token) =>
      Subject(s, op).Some? ==>
        var id := Subject(s, op).value;
        var d := WithToken(s.live[id], token);
        FreshHandles(s, id, d) && HandlesOf(s.live[id]) <= HandlesOf(d)
    case CallerWrites(id, doc) =>
      id in s.live ==> doc.sessionID == id && HandlesOf(doc) == HandlesOf(s.live[id])
    case _ =>
      Replaces(s, op) ==> FreshHandles(s, Subject(s, op).value, Replacement(s, op, Subject(s, op).value))
  }

  /** `op` succeeds and stores a whole replacement. */
  predicate Replaces(s: Store, op: Operation)
    ensures Replaces(s, op) ==> Subject(s, op).Some? && Subject(s, op).value in s.live
  {
    && (op.Update? || op.Rotate? || op.ClaimIssuerState? || op.ResumeIssuerState?)
    && !Refused(op)
    && Subject(s, op).Some?
    && var d := s.live[Subject(s, op).value];
       match op
       case Update(_, _) => true
       case Rotate(oldToken, updated) => updated.sessionID == Subject(s, op).value && d.refreshToken == oldToken
       case ClaimIssuerState(handle, claimant, _) =>
         claimant.sessionID == Subject(s, op).value && d.issuerState == handle
       case ResumeIssuerState(handle, _) => d.issuerState == handle
       case _ => false
  }

  lemma IssuerStateHandle(d: Doc)
    requires d.issuerState != ""
    ensures Handle(IssuerState, d.issuerState) in HandlesOf(d)
  {
    CarriesExactly(d, Handle(IssuerState, d.issuerState));
  }

  /** A replacing operation is a replacement, and otherwise no document changes. */
  lemma ReplacingStep(s: Store, op: Operation)
    requires op.Update? || op.Rotate? || op.ClaimIssuerState? || op.ResumeIssuerState?
    ensures Replaces(s, op) ==>
              var id := Subject(s, op).value;
              Step(s, op).0 == Replace(s, id, s.live[id], Replacement(s, op, id))
    ensures !Replaces(s, op) ==> Step(s, op).0 == s || exists h :: Step(s, op).0 == WithoutDangling(s, h)
  {
    if op.ClaimIssuerState? && Replaces(s, op) {
      var id := Subject(s, op).value;
      var d := s.live[id];
      IssuerStateHandle(d);
      assert s.indices - {Handle(IssuerState, op.handle)} - HandlesOf(d) == s.indices - HandlesOf(d);
    }
  }

  lemma ReplacingKeeps(s: Store, op: Operation)
    requires Inv(s) && (op.Update? || op.Rotate? || op.ClaimIssuerState? || op.ResumeIssuerState?)
    ensures Inv(Step(s, op).0) <==> Disciplined(s, op)
  {
    ReplacingStep(s, op);
    if Replaces(s, op) {
      var id := Subject(s, op).value;
      ReplaceExactly(s, id, Replacement(s, op, id));
      assert Replacement(s, op, id).sessionID == id;
    } else if h :| Step(s, op).0 == WithoutDangling(s, h) {
      DanglingKeeps(s, h);
    }
  }

  /** Two documents that differ in no field an index covers. */
  ghost predicate SameIndexed(a: Doc, b: Doc) {
    && a.sessionID == b.sessionID && a.requestURI == b.requestURI && a.code == b.code && a.state == b.state
    && a.verifierResponseCode == b.verifierResponseCode && a.ephemeralKeyID == b.ephemeralKeyID
    && a.requestObjectID == b.requestObjectID && a.authSession == b.authSession && a.issuerState == b.issuerState
    && a.token == b.token && a.accessToken == b.accessToken && a.refreshToken == b.refreshToken
  }

  lemma SameIndexedKeeps(s: Store, id: string, d: Doc)
    requires Inv(s) && id in s.live && SameIndexed(d, s.live[id])
    ensures Inv(Keep(s, id, d)) && Inv(KeepAndIndex(s, id, d))
  {
    SameHandles(s, id, d);
  }

  predicate Targeted(op: Operation) {
    op.Forfeit? || op.MarkForfeited? || op.Redeem? || op.Attempt? || op.Consent? || op.ExtendExpiry? ||
    op.SetAuthenticSource? || op.SetIdentifier? || op.SetAuthProvider?
  }

  lemma UnindexedOnLive(s: Store, op: Operation, id: string)
    requires op.MarkForfeited? || op.Redeem? || op.Attempt? || op.SetAuthenticSource? || op.SetIdentifier?
    requires id in s.live
    ensures var s' := OnLive(s, op, id).0;
            id in s'.live && SameIndexed(s'.live[id], s.live[id]) && (s' == s || s' == Keep(s, id, s'.live[id]))
  {
  }

  lemma ReindexedOnLive(s: Store, op: Operation, id: string)
    requires op.Forfeit? || op.Consent? || op.ExtendExpiry? || op.SetAuthProvider?
    requires id in s.live
    ensures var s' := OnLive(s, op, id).0;
            id in s'.live && SameIndexed(s'.live[id], s.live[id]) && (s' == s || s' == KeepAndIndex(s, id, s'.live[id]))
  {
  }

  lemma TargetedIsOnLive(s: Store, op: Operation)
    requires Targeted(op)
    ensures Step(s, op).0 == s || (Subject(s, op).Some? && Subject(s, op).value in s.live &&
                                   Step(s, op) == OnLive(s, op, Subject(s, op).value))
  {
  }

  /** A targeted operation changes at most one document, and no indexed field of it. */
  lemma TargetedStep(s: Store, op: Operation)
    requires Targeted(op)
    ensures Step(s, op).0 == s ||
            (Subject(s, op).Some? && Subject(s, op).value in s.live &&
             var id := Subject(s, op).value;
             exists d :: SameIndexed(d, s.live[id]) &&
                         (Step(s, op).0 == Keep(s, id, d) || Step(s, op).0 == KeepAndIndex(s, id, d)))
  {
    TargetedIsOnLive(s, op);
    if Step(s, op).0 != s {
      if op.MarkForfeited? || op.Redeem? || op.Attempt? || op.SetAuthenticSource? || op.SetIdentifier? {
        UnindexedOnLive(s, op, Subject(s, op).value);
      } else {
        ReindexedOnLive(s, op, Subject(s, op).value);
      }
    }
  }

  lemma TargetedKeeps(s: Store, op: Operation)
    requires Inv(s) && Targeted(op)
    ensures Inv(Step(s, op).0)
  {
    TargetedStep(s, op);
    if Step(s, op).0 != s {
      var id := Subject(s, op).value;
      var d :| SameIndexed(d, s.live[id]) &&
               (Step(s, op).0 == Keep(s, id, d) || Step(s, op).0 == KeepAndIndex(s, id, d));
      SameIndexedKeeps(s, id, d);
    }
  }

  lemma SaveExactly(s: Store, op: Operation)
    requires Inv(s) && op.Save?
    ensures Inv(Step(s, op).0) <==> Disciplined(s, op)
  {
    if !Refused(op) {
      var d := Anchored(s, op.doc, op.now);
      assert HandlesOf(d) == HandlesOf(op.doc) && d.sessionID == op.doc.sessionID;
      KeepAndIndexExactly(s, op.doc.sessionID, d);
    }
  }

  lemma DeleteKeeps(s: Store, id: string)
    requires Inv(s)
    ensures Inv(Step(s, Delete(id)).0)
  {
    if id != "" && id in s.live {
      LeavingKeeps(s, id, HandlesOf(s.live[id]));
    }
  }

  lemma ExpireKeeps(s: Store, id: string)
    requires Inv(s)
    ensures Inv(Step(s, Expire(id)).0)
  {
    if id in s.live {
      assert s.indices - {} == s.indices;
      LeavingKeeps(s, id, {});
    }
  }

  lemma CallbackStepKeeps(s: Store, evicted: Doc)
    requires Inv(s)
    ensures Inv(Step(s, Callback(evicted)).0)
  {
    if evicted in s.callbacks {
      CallbackKeeps(s, evicted);
    }
  }

  lemma CallerWritesExactly(s: Store, id: string, doc: Doc)
    requires Inv(s)
    ensures Inv(Step(s, CallerWrites(id, doc)).0) <==> Disciplined(s, CallerWrites(id, doc))
  {
    if id in s.live {
      KeepExactly(s, id, doc);
    }
  }

  lemma ClaimStepKeeps(s: Store, handle: string)
    requires Inv(s)
    ensures Inv(Step(s, ClaimAuthSession(handle)).0)
  {
    if handle != "" {
      DanglingKeeps(s, Handle(AuthSession, handle));
      var subject := Lookup(s, Handle(AuthSession, handle));
      if subject.Some? && s.live[subject.value].authSession == handle {
        ClaimKeeps(s, subject.value);
      }
    }
  }

  lemma AddTokenStep(s: Store, op: Operation)
    requires Inv(s) && op.AddToken?
    ensures Inv(Step(s, op).0) <==> Disciplined(s, op)
  {
    if !Refused(op) && Subject(s, op).Some? {
      var id := Subject(s, op).value;
      AddTokenExactly(s, id, WithToken(s.live[id], op.token));
    }
  }

  /** An operation keeps the refinement exactly when its caller is disciplined. */
  lemma StepExactly(s: Store, op: Operation)
    requires Inv(s)
    ensures Inv(Step(s, op).0) <==> Disciplined(s, op)
  {
    if op.Save? {
      SaveExactly(s, op);
    } else if op.AddToken? {
      AddTokenStep(s, op);
    } else if Targeted(op) {
      TargetedKeeps(s, op);
    } else if op.Update? || op.Rotate? || op.ClaimIssuerState? || op.ResumeIssuerState? {
      ReplacingKeeps(s, op);
    } else {
      match op
      case Delete(id) => DeleteKeeps(s, id);
      case Expire(id) => ExpireKeeps(s, id);
      case Callback(evicted) => CallbackStepKeeps(s, evicted);
      case CallerWrites(id, doc) => CallerWritesExactly(s, id, doc);
      case ClaimAuthSession(handle) => ClaimStepKeeps(s, handle);
    }
  }

  // ----- runs -----

  ghost predicate DisciplinedRun(s: Store, ops: seq<Operation>) {
    ops == [] ||
    var n := |ops| - 1;
    DisciplinedRun(s, ops[..n]) && Disciplined(Run(s, ops[..n]), ops[n])
  }

  /** In every state a disciplined run reaches, lookups equal scans. */
  lemma {:induction false} ReachableStatesRefine(s: Store, ops: seq<Operation>)
    requires Inv(s) && DisciplinedRun(s, ops)
    ensures Inv(Run(s, ops))
  {
    if ops != [] {
      var n := |ops| - 1;
      ReachableStatesRefine(s, ops[..n]);
      StepExactly(Run(s, ops[..n]), ops[n]);
    }
  }

  lemma EmptyStoreRefines()
    ensures Inv(EMPTY)
  {
    assert forall h :: Follow(View(EMPTY), h) == Scan(View(EMPTY), h);
  }

  // ----- the two undisciplined habits -----

  lemma AddLeaves(indices: Index, d: Doc, h: Handle)
    requires !Carries(d, h)
    ensures h in AddIndices(indices, d) <==> h in indices
    ensures h in indices ==> AddIndices(indices, d)[h] == indices[h]
  {
  }

  lemma EntryOf(s: Store, id: string, h: Handle)
    requires Inv(s) && id in s.live && Carries(s.live[id], h)
    ensures h in s.indices && s.indices[h] == id
  {
    HeldAt(s, id);
    EntriesOfSession(View(s), id, h);
  }

  lemma AnchoredCarries(s: Store, doc: Doc, now: int, h: Handle)
    ensures Anchored(s, doc, now).sessionID == doc.sessionID
    ensures Carries(Anchored(s, doc, now), h) <==> Carries(doc, h)
  {
  }

  lemma SaveStep(s: Store, doc: Doc, now: int)
    requires doc.sessionID != ""
    ensures Step(s, Save(doc, true, now)).0 == KeepAndIndex(s, doc.sessionID, Anchored(s, doc, now))
  {
  }

  /** A re-save that drops a handle leaves it resolving to the session. */
  lemma DroppedHandleStillResolves(s: Store, doc: Doc, now: int, h: Handle)
    requires Inv(s) && doc.sessionID != "" && doc.sessionID in s.live
    requires Carries(s.live[doc.sessionID], h) && !Carries(doc, h)
    ensures var s' := Step(s, Save(doc, true, now)).0;
            Lookup(s', h) == Some(doc.sessionID) && !Carries(s'.live[doc.sessionID], h)
  {
    AnchoredCarries(s, doc, now, h);
    EntryOf(s, doc.sessionID, h);
    AddLeaves(s.indices, Anchored(s, doc, now), h);
    SaveStep(s, doc, now);
  }

  lemma RunOfTwo(s: Store, a: Operation, b: Operation)
    ensures Run(s, [a, b]) == Step(Step(s, a).0, b).0
  {
    assert [a, b][..1] == [a] && [a][..0] == [];
    assert Run(s, []) == s;
    assert Run(s, [a]) == Step(s, a).0;
  }

  lemma WriteThenUpdate(s: Store, doc: Doc)
    requires doc.sessionID != "" && doc.sessionID in s.live
    ensures Step(s, CallerWrites(doc.sessionID, doc)).0 == Keep(s, doc.sessionID, doc)
    ensures Step(Keep(s, doc.sessionID, doc), Update(doc, true)).0 ==
            Replace(Keep(s, doc.sessionID, doc), doc.sessionID, doc, doc)
  {
  }

  /** Writing through a handed-out pointer and then calling Update with it leaves
      the rotated handle resolving. Update alone removes it. */
  lemma RotationThroughPointerStillResolves(s: Store, doc: Doc, h: Handle)
    requires Inv(s) && doc.sessionID != "" && doc.sessionID in s.live
    requires Carries(s.live[doc.sessionID], h) && !Carries(doc, h)
    ensures var s' := Run(s, [CallerWrites(doc.sessionID, doc), Update(doc, true)]);
            Lookup(s', h) == Some(doc.sessionID) && !Carries(s'.live[doc.sessionID], h)
    ensures Lookup(Step(s, Update(doc, true)).0, h) == None
  {
    var id := doc.sessionID;
    EntryOf(s, id, h);
    RunOfTwo(s, CallerWrites(id, doc), Update(doc, true));
    WriteThenUpdate(s, doc);
    AddLeaves(DropIndices(s.indices, doc), doc, h);
    AddLeaves(DropIndices(s.indices, s.live[id]), doc, h);
  }
}
