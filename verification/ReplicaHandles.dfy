/** One-shot handles over any number of replicas: between two successful claims of one
    handle some write of a whole document, or a resume, put it back; and a prepared
    issuance never loses both of its handles. */
module ReplicaHandles {
  import opened AuthDocuments
  import opened AuthStore
  import opened MongoReplicas
  import opened ReplicaBudgets
  import opened Wrappers

  ghost predicate HeldByNone(docs: map<string, Doc>, h: Handle) {
    forall id :: id in docs ==> !Holds(docs[id], h)
  }

  ghost predicate HeldAtMostOnce(docs: map<string, Doc>, h: Handle) {
    forall a, b :: a in docs && b in docs && Holds(docs[a], h) && Holds(docs[b], h) ==> a == b
  }

  /** A successful claim of `h`. */
  predicate Takes(e: Event, h: Handle) {
    (e.Taken? && h == Handle(AuthSession, e.handle)) || ((e.Resumed? || e.Opened?) && h == Handle(IssuerState, e.handle))
  }

  /** A write that leaves a document holding `h`. */
  predicate Installs(e: Event, h: Handle) {
    (e.Resumed? && h == Handle(AuthSession, e.resume.authSession) && OneShot(h)) || ((e.Opened? || e.Replaced?) && Holds(e.doc, h))
  }

  predicate NoneInstalls(log: seq<Event>, from: int, until: int, h: Handle)
    requires 0 <= from && until <= |log|
  {
    forall k :: from <= k < until ==> !Installs(log[k], h)
  }

  // ----- the invariant -----

  /** Claims of `h` alternate with writes that install it. */
  ghost predicate Alternates(log: seq<Event>, h: Handle) {
    forall i, j :: 0 <= i < j < |log| && Takes(log[i], h) && Takes(log[j], h) ==> !NoneInstalls(log, i + 1, j, h)
  }

  /** A handle that was claimed and not installed again is held by no document. */
  ghost predicate ClaimedIsGone(s: System, h: Handle) {
    forall i :: 0 <= i < |s.log| && Takes(s.log[i], h) && NoneInstalls(s.log, i + 1, |s.log|, h) ==> HeldByNone(s.docs, h)
  }

  ghost predicate OneShotInv(s: System, h: Handle) {
    Alternates(s.log, h) && ClaimedIsGone(s, h)
  }

  /** A step that neither claims nor installs `h`, and makes no document hold it. */
  lemma QuietKeeps(s: System, s': System, h: Handle)
    requires OneShotInv(s, h) && s.log <= s'.log
    requires forall k :: |s.log| <= k < |s'.log| ==> !Takes(s'.log[k], h) && !Installs(s'.log[k], h)
    requires forall id :: id in s'.docs && Holds(s'.docs[id], h) ==> id in s.docs && Holds(s.docs[id], h)
    ensures OneShotInv(s', h)
  {
    var n := |s.log|;
    forall i, j | 0 <= i < j < |s'.log| && Takes(s'.log[i], h) && Takes(s'.log[j], h)
      ensures !NoneInstalls(s'.log, i + 1, j, h)
    {
      assert j < n && s'.log[i] == s.log[i] && s'.log[j] == s.log[j];
      assert !NoneInstalls(s.log, i + 1, j, h);
      var k :| i + 1 <= k < j && Installs(s.log[k], h);
      assert Installs(s'.log[k], h);
    }
    forall i | 0 <= i < |s'.log| && Takes(s'.log[i], h) && NoneInstalls(s'.log, i + 1, |s'.log|, h)
      ensures HeldByNone(s'.docs, h)
    {
      assert i < n && s'.log[i] == s.log[i];
      assert forall k :: 0 <= k < n ==> s'.log[k] == s.log[k];
      assert NoneInstalls(s.log, i + 1, n, h);
    }
  }

  lemma InstallKeeps(s: System, s': System, e: Event, h: Handle)
    requires OneShotInv(s, h) && s'.log == s.log + [e] && Installs(e, h) && !Takes(e, h)
    ensures OneShotInv(s', h)
  {
    var n := |s.log|;
    assert s'.log[n] == e;
    forall i, j | 0 <= i < j < |s'.log| && Takes(s'.log[i], h) && Takes(s'.log[j], h)
      ensures !NoneInstalls(s'.log, i + 1, j, h)
    {
      assert j < n && s'.log[i] == s.log[i] && s'.log[j] == s.log[j];
      assert !NoneInstalls(s.log, i + 1, j, h);
      var k :| i + 1 <= k < j && Installs(s.log[k], h);
      assert Installs(s'.log[k], h);
    }
    forall i | 0 <= i < |s'.log| && Takes(s'.log[i], h) ensures !NoneInstalls(s'.log, i + 1, |s'.log|, h) {
      assert i != n && Installs(s'.log[n], h);
    }
  }

  lemma TakeKeeps(s: System, s': System, e: Event, h: Handle)
    requires OneShotInv(s, h) && s'.log == s.log + [e] && Takes(e, h)
    requires !HeldByNone(s.docs, h) && HeldByNone(s'.docs, h)
    ensures OneShotInv(s', h)
  {
    var n := |s.log|;
    assert s'.log[n] == e;
    forall i, j | 0 <= i < j < |s'.log| && Takes(s'.log[i], h) && Takes(s'.log[j], h)
      ensures !NoneInstalls(s'.log, i + 1, j, h)
    {
      assert s'.log[i] == s.log[i];
      var until := if j < n then j else n;
      assert !NoneInstalls(s.log, i + 1, until, h);
      var k :| i + 1 <= k < until && Installs(s.log[k], h);
      assert Installs(s'.log[k], h);
    }
  }

  // ----- steps -----

  /** One document is written; no other comes to hold `h`. */
  lemma WriteKeeps(s: System, id: string, d: Doc, e: Event, h: Handle)
    requires OneShotInv(s, h) && HeldAtMostOnce(s.docs, h)
    requires Takes(e, h) ==> id in s.docs && Holds(s.docs[id], h) && !Holds(d, h)
    requires !Takes(e, h) && Holds(d, h) ==> Installs(e, h) || (id in s.docs && Holds(s.docs[id], h))
    ensures OneShotInv(Write(s, id, d, e), h)
  {
    var s' := Write(s, id, d, e);
    if Takes(e, h) {
      forall other | other in s'.docs ensures !Holds(s'.docs[other], h) {
      }
      TakeKeeps(s, s', e, h);
    } else if Installs(e, h) {
      InstallKeeps(s, s', e, h);
    } else {
      QuietKeeps(s, s', h);
    }
  }

  /** What one step does to documents that hold `h`. */
  lemma ClaimStep(s: System, a: Action, h: Handle)
    requires OneShotInv(s, h) && HeldAtMostOnce(s.docs, h) && Enabled(s, a)
    requires a.ClaimSession? || a.ResumeIssuer? || a.ClaimIssuer?
    ensures OneShotInv(Next(s, a), h)
  {
    if a.picked.Some? {
      var id := a.picked.value;
      var d := s.docs[id];
      match a
      case ClaimSession(handle, _) => WriteKeeps(s, id, Claimed(d), Taken(id, handle), h);
      case ResumeIssuer(handle, resume, _) =>
        WriteKeeps(s, id, ApplyResume(resume, Unprepared(d)), Resumed(id, handle, resume), h);
      case ClaimIssuer(handle, claimant, _) =>
        WriteKeeps(s, id, Unprepared(claimant), Opened(id, handle, Unprepared(claimant)), h);
    }
  }

  lemma ReplaceStep(s: System, a: Action, h: Handle)
    requires OneShotInv(s, h) && HeldAtMostOnce(s.docs, h) && Enabled(s, a)
    requires a.SaveDoc? || a.UpdateDoc? || a.RotateDoc?
    ensures OneShotInv(Next(s, a), h)
  {
    if Next(s, a) != s {
      WriteKeeps(s, a.doc.sessionID, a.doc, Replaced(a.doc.sessionID, a.doc), h);
    }
  }

  /** Nothing of the two handles changes, in the documents or in the log. */
  ghost predicate IsQuiet(s: System, s': System, h: Handle) {
    && s.log <= s'.log
    && (forall k :: |s.log| <= k < |s'.log| ==> !Takes(s'.log[k], h) && !Installs(s'.log[k], h))
    && (forall id :: id in s'.docs ==> id in s.docs && (Holds(s'.docs[id], h) <==> Holds(s.docs[id], h)))
  }

  predicate TouchesHandles(a: Action) {
    a.ClaimSession? || a.ResumeIssuer? || a.ClaimIssuer? || a.SaveDoc? || a.UpdateDoc? || a.RotateDoc?
  }

  /** The document keeps both handles. */
  predicate SameHandles(a: Doc, b: Doc) {
    a.authSession == b.authSession && a.issuerState == b.issuerState
  }

  lemma QuietGoto(s: System, r: nat, l: Local, h: Handle)
    ensures IsQuiet(s, Goto(s, r, l), h)
  {
  }

  /** A write that leaves both handles alone and is neither a claim nor a whole write. */
  lemma QuietWrite(s: System, at: System, id: string, d: Doc, e: Event, h: Handle)
    requires at.docs == s.docs && at.log == s.log && id in s.docs && SameHandles(d, s.docs[id])
    requires !e.Taken? && !e.Resumed? && !e.Opened? && !e.Replaced?
    ensures IsQuiet(s, Write(at, id, d, e), h)
  {
  }

  lemma QuietLock(s: System, s': System, code: string, h: Handle)
    requires IsQuiet(s, s', h)
    ensures IsQuiet(s, s'.(log := s'.log + [Exceeded(code)]), h)
  {
  }

  lemma AttemptIsQuiet(s: System, a: Action, h: Handle)
    requires Enabled(s, a) && (a.AttemptCount? || a.AttemptLook?)
    ensures IsQuiet(s, Next(s, a), h)
  {
    match a
    case AttemptCount(r, code, picked) =>
      if picked.Some? {
        QuietWrite(s, s, picked.value, Counted(s.docs[picked.value]), Attempted(picked.value), h);
      } else {
        QuietGoto(s, r, AttemptMissed(code), h);
      }
    case AttemptLook(r, picked) =>
      QuietGoto(s, r, Idle, h);
      QuietGoto(s, r, AttemptExhausted(At(s, r).code), h);
  }

  lemma LockIsQuiet(s: System, a: Action, h: Handle)
    requires Enabled(s, a) && a.AttemptLock?
    ensures IsQuiet(s, Next(s, a), h)
  {
    var gone := Goto(s, a.replica, Idle);
    var code := At(s, a.replica).code;
    if a.picked.Some? {
      var d := Spent(s.docs[a.picked.value]);
      QuietWrite(s, gone, a.picked.value, d, LockedOut(a.picked.value), h);
      QuietLock(s, Write(gone, a.picked.value, d, LockedOut(a.picked.value)), code, h);
    } else {
      QuietGoto(s, a.replica, Idle, h);
      QuietLock(s, gone, code, h);
    }
  }

  lemma ForfeitIsQuiet(s: System, a: Action, h: Handle)
    requires Enabled(s, a) && (a.ForfeitFind? || a.ForfeitCommit? || a.Mark?)
    ensures IsQuiet(s, Next(s, a), h)
  {
    match a
    case ForfeitFind(r, query, _) => QuietGoto(s, r, ForfeitChecked(BuildFilter(query)), h);
    case ForfeitCommit(r, picked) =>
      if picked.Some? {
        QuietWrite(s, Goto(s, r, Idle), picked.value, Spent(s.docs[picked.value]), Forfeited(picked.value), h);
      } else {
        QuietGoto(s, r, Idle, h);
      }
    case Mark(id) =>
      if id in s.docs {
        QuietWrite(s, s, id, Spent(s.docs[id]), Forfeited(id), h);
      }
  }

  lemma CodeIsQuiet(s: System, a: Action, h: Handle)
    requires Enabled(s, a) && (a.RedeemCode? || a.Extend?)
    ensures IsQuiet(s, Next(s, a), h)
  {
    if a.picked.Some? {
      var id := a.picked.value;
      match a
      case RedeemCode(_, thumbprint, _) =>
        QuietWrite(s, s, id, RedeemedAlso(s.docs[id], thumbprint), Redeemed(id, thumbprint), h);
      case Extend(_, expiresAt, _) =>
        QuietWrite(s, s, id, ExtendedTo(s.docs[id], expiresAt), Extended(id, expiresAt), h);
    }
  }

  lemma RestIsQuiet(s: System, a: Action, h: Handle)
    requires Enabled(s, a) && (a.Touch? || a.Vanish? || a.Crash?)
    ensures IsQuiet(s, Next(s, a), h)
  {
  }

  /** Every other step leaves the two handles of every document as they are. */
  lemma QuietStep(s: System, a: Action, h: Handle)
    requires Enabled(s, a) && !TouchesHandles(a)
    ensures IsQuiet(s, Next(s, a), h)
  {
    if a.AttemptCount? || a.AttemptLook? {
      AttemptIsQuiet(s, a, h);
    } else if a.AttemptLock? {
      LockIsQuiet(s, a, h);
    } else if a.ForfeitFind? || a.ForfeitCommit? || a.Mark? {
      ForfeitIsQuiet(s, a, h);
    } else if a.RedeemCode? || a.Extend? {
      CodeIsQuiet(s, a, h);
    } else {
      RestIsQuiet(s, a, h);
    }
  }

  lemma StepKeeps(s: System, a: Action, h: Handle)
    requires OneShotInv(s, h) && HeldAtMostOnce(s.docs, h) && Enabled(s, a)
    ensures OneShotInv(Next(s, a), h)
  {
    if a.ClaimSession? || a.ResumeIssuer? || a.ClaimIssuer? {
      ClaimStep(s, a, h);
    } else if a.SaveDoc? || a.UpdateDoc? || a.RotateDoc? {
      ReplaceStep(s, a, h);
    } else {
      QuietStep(s, a, h);
      QuietKeeps(s, Next(s, a), h);
    }
  }

  /** No two documents hold `h` at once, at any point of the run. */
  ghost predicate UniqueThroughout(states: seq<System>, h: Handle) {
    forall i :: 0 <= i < |states| ==> HeldAtMostOnce(states[i].docs, h)
  }

  lemma {:induction false} RunAlternates(states: seq<System>, h: Handle)
    requires IsRun(states) && states[0].log == [] && UniqueThroughout(states, h)
    ensures OneShotInv(states[|states| - 1], h)
    decreases |states|
  {
    var n := |states| - 1;
    if n > 0 {
      RunPrefix(states);
      assert HeldAtMostOnce(states[n - 1].docs, h);
      RunAlternates(states[..n], h);
      var a :| Enabled(states[n - 1], a) && states[n] == Next(states[n - 1], a);
      StepKeeps(states[n - 1], a, h);
    }
  }

  /** Over every interleaving in which no two documents hold `h` at once: between two
      successful claims of `h`, some resume or whole write installed it. */
  lemma ClaimedOnce(states: seq<System>, h: Handle, i: nat, j: nat)
    requires IsRun(states) && states[0].log == [] && UniqueThroughout(states, h)
    requires var log := states[|states| - 1].log; i < j < |log| && Takes(log[i], h) && Takes(log[j], h)
    ensures var log := states[|states| - 1].log; exists k :: i < k < j && Installs(log[k], h)
  {
    RunAlternates(states, h);
    var log := states[|states| - 1].log;
    assert !NoneInstalls(log, i + 1, j, h);
  }

  /** The condition on handles is kept by every step that installs a fresh one. */
  ghost predicate InstallsFresh(s: System, a: Action, h: Handle)
    requires Enabled(s, a)
  {
    var s' := Next(s, a);
    forall k :: |s.log| <= k < |s'.log| && Installs(s'.log[k], h) ==>
      forall id :: id in s.docs && id != s'.log[k].id ==> !Holds(s.docs[id], h)
  }

  lemma WriteKeepsUnique(docs: map<string, Doc>, id: string, d: Doc, h: Handle)
    requires HeldAtMostOnce(docs, h)
    requires Holds(d, h) ==> (id in docs && Holds(docs[id], h)) || forall other :: other in docs && other != id ==> !Holds(docs[other], h)
    ensures HeldAtMostOnce(docs[id := d], h)
  {
  }

  /** A write that installs no handle takes none from elsewhere. */
  lemma WriteInstallsFresh(s: System, id: string, d: Doc, e: Event, h: Handle)
    requires HeldAtMostOnce(s.docs, h) && !e.Exceeded? && e.id == id
    requires Holds(d, h) ==> Installs(e, h) || (id in s.docs && Holds(s.docs[id], h))
    requires Installs(e, h) ==> forall other :: other in s.docs && other != id ==> !Holds(s.docs[other], h)
    ensures HeldAtMostOnce(Write(s, id, d, e).docs, h)
  {
    WriteKeepsUnique(s.docs, id, d, h);
  }

  lemma ClaimKeepsUnique(s: System, a: Action, h: Handle)
    requires Enabled(s, a) && HeldAtMostOnce(s.docs, h) && InstallsFresh(s, a, h)
    requires a.ClaimSession? || a.ResumeIssuer? || a.ClaimIssuer?
    ensures HeldAtMostOnce(Next(s, a).docs, h)
  {
    if a.picked.Some? {
      var id := a.picked.value;
      var d := Next(s, a).docs[id];
      var e := Next(s, a).log[|s.log|];
      assert Next(s, a) == Write(s, id, d, e) && e.id == id;
      WriteInstallsFresh(s, id, d, e, h);
    }
  }

  lemma ReplaceKeepsUnique(s: System, a: Action, h: Handle)
    requires Enabled(s, a) && HeldAtMostOnce(s.docs, h) && InstallsFresh(s, a, h)
    requires a.SaveDoc? || a.UpdateDoc? || a.RotateDoc?
    ensures HeldAtMostOnce(Next(s, a).docs, h)
  {
    if Next(s, a) != s {
      var id, e := a.doc.sessionID, Replaced(a.doc.sessionID, a.doc);
      assert Next(s, a) == Write(s, id, a.doc, e) && Next(s, a).log[|s.log|] == e;
      WriteInstallsFresh(s, id, a.doc, e, h);
    }
  }

  lemma FreshKeepsUnique(s: System, a: Action, h: Handle)
    requires Enabled(s, a) && HeldAtMostOnce(s.docs, h) && InstallsFresh(s, a, h)
    ensures HeldAtMostOnce(Next(s, a).docs, h)
  {
    if a.ClaimSession? || a.ResumeIssuer? || a.ClaimIssuer? {
      ClaimKeepsUnique(s, a, h);
    } else if a.SaveDoc? || a.UpdateDoc? || a.RotateDoc? {
      ReplaceKeepsUnique(s, a, h);
    } else {
      QuietStep(s, a, h);
    }
  }

  // ----- a failed claim costs nothing -----

  /** A claim fails exactly when no document holds the handle, and then changes nothing. */
  lemma ClaimFailsExactly(s: System, a: Action)
    requires Enabled(s, a) && (a.ClaimSession? || a.ResumeIssuer?)
    ensures var h := if a.ClaimSession? then Handle(AuthSession, a.handle) else Handle(IssuerState, a.handle);
            (a.picked.None? <==> HeldByNone(s.docs, h)) && (a.picked.None? <==> Next(s, a) == s)
  {
    var h := if a.ClaimSession? then Handle(AuthSession, a.handle) else Handle(IssuerState, a.handle);
    if a.picked.Some? {
      assert Holds(s.docs[a.picked.value], h);
    }
  }

  // ----- never losing both handles -----

  predicate Reachable(b: Budget) {
    b.authSession != "" || b.issuerState != ""
  }

  /** The event leaves a reachable document reachable: it is no claim of an auth_session, a
      resume brings one, and a whole write has a handle. */
  predicate Gentle(e: Event, id: string) {
    Concerns(e, id) ==>
      match e
      case Taken(_, _) => false
      case Resumed(_, _, resume) => resume.authSession != ""
      case Opened(_, _, doc) => Reachable(BudgetOf(doc))
      case Replaced(_, doc) => Reachable(BudgetOf(doc))
      case _ => true
  }

  predicate AllGentle(log: seq<Event>, id: string) {
    forall i :: 0 <= i < |log| ==> Gentle(log[i], id)
  }

  lemma {:induction false} GentleLog(b: Budget, log: seq<Event>, id: string)
    requires Reachable(b) && AllGentle(log, id)
    ensures Reachable(Replay(b, log, id))
  {
    if log != [] {
      GentleLog(b, log[..|log| - 1], id);
    }
  }

  /** Over every interleaving a prepared issuance keeps one of its two handles, as long as
      its auth_session is not claimed and nobody writes it without a handle. */
  lemma NeverLosesBothHandles(states: seq<System>, id: string)
    requires IsRun(states) && Initial(states[0])
    requires id in states[0].docs && Reachable(BudgetOf(states[0].docs[id]))
    requires AllGentle(states[|states| - 1].log, id) && id in states[|states| - 1].docs
    ensures var d := states[|states| - 1].docs[id];
            Holds(d, Handle(AuthSession, d.authSession)) || Holds(d, Handle(IssuerState, d.issuerState))
  {
    var s := states[|states| - 1];
    RunKeeps(states);
    assert Tracked(states[0], s, id);
    GentleLog(Start(states[0], id), s.log, id);
    assert BudgetOf(s.docs[id]) == Replay(Start(states[0], id), s.log, id);
  }
}
