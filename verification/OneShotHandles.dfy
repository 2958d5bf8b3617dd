/** One-shot handles over whole runs: an auth_session or issuer_state is claimed
    once, a failed claim costs nothing, and a prepared issuance never loses both. */
module OneShotHandles {
  import opened AuthDocuments
  import opened AuthStore
  import opened AuthStoreIndex
  import opened Wrappers

  lemma HoldsIsCarries(d: Doc, h: Handle)
    requires OneShot(h)
    ensures Holds(d, h) <==> Carries(d, h)
  {
    CarriesExactly(d, h);
  }

  ghost predicate HeldByNone(s: Store, h: Handle)
    requires OneShot(h)
  {
    forall id :: id in s.live ==> !Holds(s.live[id], h)
  }

  /** `op` asks for the handle `h`. */
  predicate Claims(op: Operation, h: Handle) {
    (op.ClaimAuthSession? && h == Handle(AuthSession, op.handle)) ||
    ((op.ClaimIssuerState? || op.ResumeIssuerState?) && h == Handle(IssuerState, op.handle))
  }

  /** `op` writes a document that holds `h`. */
  predicate Reinstalls(op: Operation, h: Handle)
    requires OneShot(h)
  {
    match op
    case Save(doc, _, _) => Holds(doc, h)
    case Update(doc, _) => Holds(doc, h)
    case Rotate(_, updated) => Holds(updated, h)
    case ClaimIssuerState(_, claimant, _) => Holds(Unprepared(claimant), h)
    case ResumeIssuerState(_, resume) => h == Handle(AuthSession, resume.authSession)
    case CallerWrites(_, doc) => Holds(doc, h)
    case _ => false
  }

  /** No operation makes a handle appear, unless it writes a document that has it. */
  lemma NothingAppears(s: Store, op: Operation, h: Handle, id: string)
    requires OneShot(h) && !Reinstalls(op, h)
    requires id in Step(s, op).0.live && Holds(Step(s, op).0.live[id], h)
    ensures id in s.live && Holds(s.live[id], h)
  {
    if Targeted(op) {
      TargetedAppears(s, op, h, id);
    } else if op.Update? || op.Rotate? || op.ClaimIssuerState? || op.ResumeIssuerState? {
      ReplacementAppears(s, op, h, id);
    } else if op.Save? || op.AddToken? || op.ClaimAuthSession? {
      WrittenAppears(s, op, h, id);
    } else {
      RestAppears(s, op, h, id);
    }
  }

  /** A targeted operation leaves the two handles of every document alone. */
  lemma TargetedKeepsHandles(s: Store, op: Operation, id: string)
    requires Targeted(op) && id in Step(s, op).0.live
    ensures id in s.live
    ensures Step(s, op).0.live[id].authSession == s.live[id].authSession
    ensures Step(s, op).0.live[id].issuerState == s.live[id].issuerState
  {
    TargetedStep(s, op);
  }

  lemma TargetedAppears(s: Store, op: Operation, h: Handle, id: string)
    requires OneShot(h) && Targeted(op)
    requires id in Step(s, op).0.live && Holds(Step(s, op).0.live[id], h)
    ensures id in s.live && Holds(s.live[id], h)
  {
    TargetedKeepsHandles(s, op, id);
  }

  lemma ReplacementAppears(s: Store, op: Operation, h: Handle, id: string)
    requires OneShot(h) && !Reinstalls(op, h)
    requires op.Update? || op.Rotate? || op.ClaimIssuerState? || op.ResumeIssuerState?
    requires id in Step(s, op).0.live && Holds(Step(s, op).0.live[id], h)
    ensures id in s.live && Holds(s.live[id], h)
  {
    ReplacingStep(s, op);
    if Replaces(s, op) {
      ReplacementLacks(s, op, h);
    }
  }

  lemma ReplacementLacks(s: Store, op: Operation, h: Handle)
    requires OneShot(h) && !Reinstalls(op, h) && Replaces(s, op)
    ensures !Holds(Replacement(s, op, Subject(s, op).value), h)
  {
  }

  lemma RestAppears(s: Store, op: Operation, h: Handle, id: string)
    requires OneShot(h) && !Reinstalls(op, h)
    requires op.Delete? || op.Expire? || op.Callback? || op.CallerWrites?
    requires id in Step(s, op).0.live && Holds(Step(s, op).0.live[id], h)
    ensures id in s.live && Holds(s.live[id], h)
  {
  }

  lemma WrittenAppears(s: Store, op: Operation, h: Handle, id: string)
    requires OneShot(h) && !Reinstalls(op, h) && (op.Save? || op.AddToken? || op.ClaimAuthSession?)
    requires id in Step(s, op).0.live && Holds(Step(s, op).0.live[id], h)
    ensures id in s.live && Holds(s.live[id], h)
  {
  }

  lemma StaysUnheld(s: Store, op: Operation, h: Handle)
    requires OneShot(h) && HeldByNone(s, h) && !Reinstalls(op, h)
    ensures HeldByNone(Step(s, op).0, h)
  {
    var s' := Step(s, op).0;
    forall id | id in s'.live ensures !Holds(s'.live[id], h) {
      if Holds(s'.live[id], h) {
        NothingAppears(s, op, h, id);
      }
    }
  }

  /** A successful claim is of a handle that a live document holds. */
  lemma ClaimNeedsHolder(s: Store, op: Operation, h: Handle)
    requires OneShot(h) && Claims(op, h) && Step(s, op).1.Found?
    ensures !HeldByNone(s, h)
  {
    assert Subject(s, op).value in s.live && Holds(s.live[Subject(s, op).value], h);
  }

  lemma OneHolder(s: Store, h: Handle, a: string, b: string)
    requires Inv(s) && OneShot(h) && a in s.live && b in s.live && Holds(s.live[a], h) && Holds(s.live[b], h)
    ensures a == b && Lookup(s, h) == Some(a)
  {
    HoldsIsCarries(s.live[a], h);
    HoldsIsCarries(s.live[b], h);
    LookupIsScan(s, h);
  }

  lemma ClaimTakesAway(s: Store, op: Operation, h: Handle)
    requires Inv(s) && OneShot(h) && Claims(op, h) && Step(s, op).1.Found?
    ensures HeldByNone(Step(s, op).0, h)
  {
    var s', subject := Step(s, op).0, Subject(s, op).value;
    assert Holds(s.live[subject], h) && !Holds(s'.live[subject], h);
    forall id | id in s'.live ensures !Holds(s'.live[id], h) {
      if Holds(s'.live[id], h) {
        NothingAppears(s, op, h, id);
        OneHolder(s, h, id, subject);
      }
    }
  }

  // ----- at most one claim -----

  /** The reply to the operation at `i` of a run. */
  function ReplyAt(s: Store, ops: seq<Operation>, i: nat): Reply
    requires i < |ops|
  {
    Step(Run(s, ops[..i]), ops[i]).1
  }

  lemma RunTo(s: Store, ops: seq<Operation>, i: nat)
    requires i < |ops|
    ensures Run(s, ops[..i + 1]) == Step(Run(s, ops[..i]), ops[i]).0
  {
    assert ops[..i + 1][..i] == ops[..i];
  }

  lemma {:induction false} DisciplinedPrefix(s: Store, ops: seq<Operation>, i: nat)
    requires DisciplinedRun(s, ops) && i <= |ops|
    ensures DisciplinedRun(s, ops[..i])
    decreases |ops|
  {
    if i == |ops| {
      assert ops[..i] == ops;
    } else {
      assert ops[..|ops| - 1][..i] == ops[..i];
      DisciplinedPrefix(s, ops[..|ops| - 1], i);
    }
  }

  /** `op` writes a document that holds `h`, which no document held before. */
  ghost predicate PutsBack(s: Store, op: Operation, h: Handle)
    requires OneShot(h)
  {
    Reinstalls(op, h) && HeldByNone(s, h) && !HeldByNone(Step(s, op).0, h)
  }

  lemma PutsBackHere(s: Store, op: Operation, h: Handle)
    requires OneShot(h) && HeldByNone(s, h) && !HeldByNone(Step(s, op).0, h)
    ensures PutsBack(s, op, h)
  {
    if !Reinstalls(op, h) {
      StaysUnheld(s, op, h);
    }
  }

  /** No document holds `h` after the first `i` operations. */
  ghost predicate UnheldAfter(s: Store, ops: seq<Operation>, h: Handle, i: nat)
    requires OneShot(h) && i <= |ops|
  {
    HeldByNone(Run(s, ops[..i]), h)
  }

  lemma {:induction false} FirstHeld(s: Store, ops: seq<Operation>, h: Handle, i: nat, j: nat) returns (k: nat)
    requires OneShot(h) && i <= j <= |ops| && UnheldAfter(s, ops, h, i) && !UnheldAfter(s, ops, h, j)
    ensures i <= k < j && UnheldAfter(s, ops, h, k) && !UnheldAfter(s, ops, h, k + 1)
    decreases j - i
  {
    if UnheldAfter(s, ops, h, i + 1) {
      k := FirstHeld(s, ops, h, i + 1, j);
    } else {
      k := i;
    }
  }

  lemma PutBackBetween(s: Store, ops: seq<Operation>, h: Handle, i: nat, j: nat) returns (k: nat)
    requires OneShot(h) && i <= j <= |ops| && UnheldAfter(s, ops, h, i) && !UnheldAfter(s, ops, h, j)
    ensures i <= k < j && PutsBack(Run(s, ops[..k]), ops[k], h)
  {
    k := FirstHeld(s, ops, h, i, j);
    RunTo(s, ops, k);
    PutsBackHere(Run(s, ops[..k]), ops[k], h);
  }

  /** Between two successful claims of one handle, an operation took effect that wrote a
      document which holds it again. */
  lemma ClaimedOnce(s: Store, ops: seq<Operation>, h: Handle, i: nat, j: nat)
    requires Inv(s) && DisciplinedRun(s, ops)
    requires OneShot(h) && i < j < |ops| && Claims(ops[i], h) && Claims(ops[j], h)
    requires ReplyAt(s, ops, i).Found? && ReplyAt(s, ops, j).Found?
    ensures exists k :: i < k < j && PutsBack(Run(s, ops[..k]), ops[k], h)
  {
    DisciplinedPrefix(s, ops, i);
    ReachableStatesRefine(s, ops[..i]);
    ClaimTakesAway(Run(s, ops[..i]), ops[i], h);
    RunTo(s, ops, i);
    ClaimNeedsHolder(Run(s, ops[..j]), ops[j], h);
    var k := PutBackBetween(s, ops, h, i + 1, j);
  }

  // ----- a failed claim costs nothing -----

  lemma HolderIsSubject(s: Store, op: Operation, h: Handle)
    requires OneShot(h) && Claims(op, h) && (op.ClaimAuthSession? || op.ResumeIssuerState?)
    requires Lookup(s, h).Some? && Holds(s.live[Lookup(s, h).value], h)
    ensures Step(s, op).1.Found?
  {
  }

  /** A claim succeeds exactly when a live document holds the handle. */
  lemma ClaimSucceedsExactly(s: Store, op: Operation, h: Handle)
    requires Inv(s) && OneShot(h) && Claims(op, h) && (op.ClaimAuthSession? || op.ResumeIssuerState?)
    ensures Step(s, op).1.Found? <==> !HeldByNone(s, h)
  {
    if Step(s, op).1.Found? {
      ClaimNeedsHolder(s, op, h);
    }
    if !HeldByNone(s, h) {
      var id :| id in s.live && Holds(s.live[id], h);
      OneHolder(s, h, id, id);
      HolderIsSubject(s, op, h);
    }
  }

  /** Claiming with a whole document succeeds exactly when that document is valid
      and belongs to the session that holds the handle. */
  lemma ClaimWithDocumentExactly(s: Store, op: Operation, h: Handle)
    requires Inv(s) && OneShot(h) && Claims(op, h) && op.ClaimIssuerState?
    ensures Step(s, op).1.Found? <==>
            op.valid && op.claimant.sessionID != "" &&
            op.claimant.sessionID in s.live && Holds(s.live[op.claimant.sessionID], h)
  {
    var id := op.claimant.sessionID;
    if id in s.live && Holds(s.live[id], h) {
      OneHolder(s, h, id, id);
    }
  }

  /** A claim that fails changes no document, so what was claimable still is. */
  lemma FailedClaimCostsNothing(s: Store, op: Operation, h: Handle)
    requires Inv(s) && Claims(op, h) && Step(s, op).1.Failed?
    ensures Step(s, op).0.live == s.live && Inv(Step(s, op).0)
  {
    if op.ClaimAuthSession? {
      ClaimStepKeeps(s, op.handle);
    } else {
      ReplacingStep(s, op);
      FailedReplacesNothing(s, op);
      ReplacingKeeps(s, op);
    }
  }

  lemma FailedReplacesNothing(s: Store, op: Operation)
    requires (op.ClaimIssuerState? || op.ResumeIssuerState?) && Step(s, op).1.Failed?
    ensures !Replaces(s, op)
  {
  }

  // ----- never losing both handles -----

  predicate Reachable(d: Doc) {
    d.authSession != "" || d.issuerState != ""
  }

  /** What `op` makes of session `id`, when it succeeds, can still be reached: a document
      written there has a handle, an auth_session claimed from it leaves an issuer_state, and
      what takes the place of its issuer_state brings an auth_session. */
  predicate Spares(s: Store, op: Operation, id: string) {
    Step(s, op).1.Failed? ||
    match op
    case Save(doc, _, _) => doc.sessionID == id ==> Reachable(doc)
    case Update(doc, _) => doc.sessionID == id ==> Reachable(doc)
    case Rotate(_, updated) => updated.sessionID == id ==> Reachable(updated)
    case CallerWrites(session, doc) => session == id ==> Reachable(doc)
    case ClaimAuthSession(_) => Subject(s, op) == Some(id) && id in s.live ==> s.live[id].issuerState != ""
    case ClaimIssuerState(_, claimant, _) => claimant.sessionID == id ==> claimant.authSession != ""
    case ResumeIssuerState(_, resume) => Subject(s, op) == Some(id) ==> resume.authSession != ""
    case _ => true
  }

  /** The session, if it is live, can be reached. */
  predicate NotLost(s: Store, id: string) {
    id in s.live ==> Reachable(s.live[id])
  }

  lemma TargetedSpares(s: Store, op: Operation, id: string)
    requires Targeted(op) && id in s.live && id in Step(s, op).0.live
    ensures Reachable(Step(s, op).0.live[id]) <==> Reachable(s.live[id])
  {
    TargetedKeepsHandles(s, op, id);
  }

  lemma ReplacementSpares(s: Store, op: Operation, id: string)
    requires op.Update? || op.Rotate? || op.ClaimIssuerState? || op.ResumeIssuerState?
    requires id in s.live && Reachable(s.live[id]) && id in Step(s, op).0.live
    ensures Reachable(Step(s, op).0.live[id]) <==> Spares(s, op, id)
  {
    ReplacingStep(s, op);
  }

  lemma OtherSpares(s: Store, op: Operation, id: string)
    requires op.Save? || op.CallerWrites? || op.ClaimAuthSession? || op.AddToken? || op.Delete? || op.Expire? || op.Callback?
    requires id in s.live && Reachable(s.live[id]) && id in Step(s, op).0.live
    ensures Reachable(Step(s, op).0.live[id]) <==> Spares(s, op, id)
  {
  }

  /** An operation leaves a session that it does not remove reachable exactly when it
      spares it. */
  lemma StepSparesExactly(s: Store, op: Operation, id: string)
    requires id in s.live && Reachable(s.live[id]) && id in Step(s, op).0.live
    ensures Reachable(Step(s, op).0.live[id]) <==> Spares(s, op, id)
  {
    if Targeted(op) {
      TargetedSpares(s, op, id);
    } else if op.Update? || op.Rotate? || op.ClaimIssuerState? || op.ResumeIssuerState? {
      ReplacementSpares(s, op, id);
    } else {
      OtherSpares(s, op, id);
    }
  }

  lemma NewSessionSpares(s: Store, op: Operation, id: string)
    requires id !in s.live && id in Step(s, op).0.live && Spares(s, op, id)
    ensures Reachable(Step(s, op).0.live[id])
  {
    if Targeted(op) {
      TargetedKeepsHandles(s, op, id);
    } else if op.Update? || op.Rotate? || op.ClaimIssuerState? || op.ResumeIssuerState? {
      ReplacingStep(s, op);
    }
  }

  /** A resume keeps the document reachable exactly when it brings an auth_session. */
  lemma ResumeKeepsReachableExactly(s: Store, op: Operation)
    requires op.ResumeIssuerState? && Step(s, op).1.Found?
    ensures var id := Subject(s, op).value;
            Subject(s, op).Some? && id in Step(s, op).0.live &&
            (Reachable(Step(s, op).0.live[id]) <==> op.resume.authSession != "")
  {
  }

  /** Every operation of the run spares the session. */
  ghost predicate SparedThroughout(s: Store, ops: seq<Operation>, id: string) {
    forall i :: 0 <= i < |ops| ==> Spares(Run(s, ops[..i]), ops[i], id)
  }

  lemma {:induction false} SparedRunKeepsReachable(s: Store, ops: seq<Operation>, id: string)
    requires SparedThroughout(s, ops, id) && NotLost(s, id)
    ensures NotLost(Run(s, ops), id)
  {
    if ops != [] {
      var n := |ops| - 1;
      forall i | 0 <= i < n ensures Spares(Run(s, ops[..n][..i]), ops[..n][i], id) {
        assert ops[..n][..i] == ops[..i];
      }
      SparedRunKeepsReachable(s, ops[..n], id);
      var before := Run(s, ops[..n]);
      assert Spares(before, ops[n], id);
      if id in Run(s, ops).live {
        if id in before.live {
          StepSparesExactly(before, ops[n], id);
        } else {
          NewSessionSpares(before, ops[n], id);
        }
      }
    }
  }

  /** No run that spares a prepared issuance leaves it alive and unreachable, whatever happens
      to other sessions: one of its two handles still leads to it. */
  lemma NeverLosesBothHandles(s: Store, ops: seq<Operation>, id: string)
    requires Inv(s) && DisciplinedRun(s, ops) && SparedThroughout(s, ops, id)
    requires NotLost(s, id) && id in Run(s, ops).live
    ensures exists h :: OneShot(h) && Lookup(Run(s, ops), h) == Some(id)
  {
    var s' := Run(s, ops);
    ReachableStatesRefine(s, ops);
    SparedRunKeepsReachable(s, ops, id);
    var d := s'.live[id];
    var h := if d.authSession != "" then Handle(AuthSession, d.authSession) else Handle(IssuerState, d.issuerState);
    OneHolder(s', h, id, id);
  }
}
