/** Lockouts: as long as codes are unique and no document is written as a whole, a code is
    locked out only after its attempts were used up, and one that was reported as exceeded
    is forfeited. */
module ReplicaLockouts {
  import opened AuthDocuments
  import opened AuthStore
  import opened MongoReplicas
  import opened ReplicaBudgets
  import opened Wrappers

  predicate Overwritten(log: seq<Event>) {
    exists i :: 0 <= i < |log| && (log[i].Replaced? || log[i].Opened?)
  }

  /** A replica that goes on to lock a code out has seen its attempts used up. */
  ghost predicate LocalsHonest(s: System) {
    forall r :: At(s, r).AttemptExhausted? ==> UsedUp(s, At(s, r).code)
  }

  ghost predicate UsedUp(s: System, code: string) {
    forall id :: id in s.docs && s.docs[id].code == code ==> s.docs[id].txCodeAttempts >= MAX_TX_CODE_ATTEMPTS
  }

  /** A code whose attempts were reported exceeded is forfeited. */
  ghost predicate ExceededMeansForfeited(s: System) {
    forall e :: e in s.log && e.Exceeded? ==> AllForfeited(s, e.code)
  }

  ghost predicate AllForfeited(s: System, code: string) {
    forall id :: id in s.docs && s.docs[id].code == code ==> s.docs[id].forfeited
  }

  ghost predicate CodesKnown(s: System) {
    forall r :: (At(s, r).AttemptMissed? || At(s, r).AttemptExhausted?) ==> At(s, r).code != ""
  }

  ghost predicate Strict(s0: System, s: System) {
    UniqueCodes(s.docs) && CodesKnown(s) && LocalsHonest(s) && ExceededMeansForfeited(s) &&
    forall id :: Earned(Start(s0, id), s.log, id)
  }

  // ----- steps -----

  lemma GotoStrict(s0: System, s: System, r: nat, l: Local)
    requires Strict(s0, s)
    requires l.AttemptMissed? || l.AttemptExhausted? ==> l.code != ""
    requires l.AttemptExhausted? ==> UsedUp(s, l.code)
    ensures Strict(s0, Goto(s, r, l))
  {
    var s' := Goto(s, r, l);
    forall q ensures At(s', q) == if q == r then l else At(s, q) {
    }
    forall q | At(s', q).AttemptExhausted? ensures UsedUp(s', At(s', q).code) {
      assert UsedUp(s, At(s', q).code);
    }
    forall e | e in s'.log && e.Exceeded? ensures AllForfeited(s', e.code) {
      assert AllForfeited(s, e.code);
    }
  }

  /** A write leaves the code alone and moves its guards one way. */
  ghost predicate OnlySpends(d: Doc, d': Doc) {
    d'.code == d.code && (d.forfeited ==> d'.forfeited) && d'.txCodeAttempts >= d.txCodeAttempts
  }

  lemma SpendingKeepsUsedUp(s: System, s': System, code: string, id: string, d: Doc)
    requires id in s.docs && OnlySpends(s.docs[id], d) && s'.docs == s.docs[id := d]
    ensures UsedUp(s, code) ==> UsedUp(s', code)
    ensures AllForfeited(s, code) ==> AllForfeited(s', code)
  {
    forall other | other in s'.docs && s'.docs[other].code == code
      ensures UsedUp(s, code) ==> s'.docs[other].txCodeAttempts >= MAX_TX_CODE_ATTEMPTS
      ensures AllForfeited(s, code) ==> s'.docs[other].forfeited
    {
      assert s.docs[other].code == code;
    }
  }

  lemma SpendingKeeps(s: System, s': System, id: string, d: Doc)
    requires UniqueCodes(s.docs) && CodesKnown(s) && LocalsHonest(s)
    requires id in s.docs && OnlySpends(s.docs[id], d) && s'.docs == s.docs[id := d] && s'.replicas == s.replicas
    ensures UniqueCodes(s'.docs) && CodesKnown(s') && LocalsHonest(s')
  {
    forall q ensures At(s', q) == At(s, q) {
    }
    forall q | At(s', q).AttemptExhausted? ensures UsedUp(s', At(s', q).code) {
      SpendingKeepsUsedUp(s, s', At(s, q).code, id, d);
    }
  }

  lemma SpendingKeepsExceeded(s: System, s': System, id: string, d: Doc)
    requires ExceededMeansForfeited(s) && (forall x :: x in s'.log && x.Exceeded? ==> x in s.log)
    requires id in s.docs && OnlySpends(s.docs[id], d) && s'.docs == s.docs[id := d]
    ensures ExceededMeansForfeited(s')
  {
    forall x | x in s'.log && x.Exceeded? ensures AllForfeited(s', x.code) {
      SpendingKeepsUsedUp(s, s', x.code, id, d);
    }
  }

  lemma WriteStrict(s0: System, s: System, id: string, d: Doc, e: Event)
    requires Strict(s0, s) && id in s.docs && OnlySpends(s.docs[id], d) && !e.Exceeded?
    requires e.LockedOut? ==> e.id == id && Tracked(s0, s, id) && s.docs[id].txCodeAttempts >= MAX_TX_CODE_ATTEMPTS
    ensures Strict(s0, Write(s, id, d, e))
  {
    var s' := Write(s, id, d, e);
    SpendingKeeps(s, s', id, d);
    SpendingKeepsExceeded(s, s', id, d);
    forall other ensures Earned(Start(s0, other), s'.log, other) {
      Snoc(Start(s0, other), s.log, e, other);
    }
  }

  lemma TouchStrict(s0: System, s: System, id: string, d: Doc)
    requires Strict(s0, s) && id in s.docs && SameGuards(d, s.docs[id])
    ensures Strict(s0, s.(docs := s.docs[id := d]))
  {
    SpendingKeeps(s, s.(docs := s.docs[id := d]), id, d);
    SpendingKeepsExceeded(s, s.(docs := s.docs[id := d]), id, d);
  }

  lemma VanishStrict(s0: System, s: System, id: string)
    requires Strict(s0, s)
    ensures Strict(s0, s.(docs := s.docs - {id}))
  {
    var s' := s.(docs := s.docs - {id});
    forall q ensures At(s', q) == At(s, q) {
    }
    forall q | At(s', q).AttemptExhausted? ensures UsedUp(s', At(s', q).code) {
      assert UsedUp(s, At(s, q).code);
    }
    forall x | x in s'.log && x.Exceeded? ensures AllForfeited(s', x.code) {
      assert AllForfeited(s, x.code);
    }
  }

  lemma ReportStrict(s0: System, s: System, code: string)
    requires Strict(s0, s) && AllForfeited(s, code)
    ensures Strict(s0, s.(log := s.log + [Exceeded(code)]))
  {
    var s' := s.(log := s.log + [Exceeded(code)]);
    forall q ensures At(s', q) == At(s, q) {
    }
    forall q | At(s', q).AttemptExhausted? ensures UsedUp(s', At(s', q).code) {
      assert UsedUp(s, At(s, q).code);
    }
    forall x | x in s'.log && x.Exceeded? ensures AllForfeited(s', x.code) {
      assert x in s.log || x == Exceeded(code);
      assert AllForfeited(s, x.code);
    }
    forall id ensures Earned(Start(s0, id), s'.log, id) {
      Snoc(Start(s0, id), s.log, Exceeded(code), id);
    }
  }

  lemma LockStrict(s0: System, s: System, r: nat, picked: Option<string>)
    requires Inv(s0, s) && Strict(s0, s) && Enabled(s, AttemptLock(r, picked))
    ensures Strict(s0, Next(s, AttemptLock(r, picked)))
  {
    var code, idle := At(s, r).code, Goto(s, r, Idle);
    assert UsedUp(s, code);
    GotoStrict(s0, s, r, Idle);
    if picked.None? {
      assert AllForfeited(idle, code);
      ReportStrict(s0, idle, code);
    } else {
      var id := picked.value;
      var d := Spent(s.docs[id]);
      assert Tracked(s0, s, id);
      WriteStrict(s0, idle, id, d, LockedOut(id));
      var locked := Write(idle, id, d, LockedOut(id));
      forall other | other in locked.docs && locked.docs[other].code == code ensures locked.docs[other].forfeited {
        assert other in s.docs && s.docs[other].code == code;
      }
      ReportStrict(s0, locked, code);
    }
  }

  lemma LookStrict(s0: System, s: System, r: nat, picked: Option<string>)
    requires Strict(s0, s) && Enabled(s, AttemptLook(r, picked))
    ensures Strict(s0, Next(s, AttemptLook(r, picked)))
  {
    var code := At(s, r).code;
    assert code != "";
    if picked.Some? && s.docs[picked.value].txCodeAttempts >= MAX_TX_CODE_ATTEMPTS {
      assert UsedUp(s, code);
      GotoStrict(s0, s, r, AttemptExhausted(code));
    }
    GotoStrict(s0, s, r, Idle);
  }

  lemma AttemptStrict(s0: System, s: System, a: Action)
    requires Strict(s0, s) && Enabled(s, a) && a.AttemptCount?
    ensures Strict(s0, Next(s, a))
  {
    if a.picked.Some? {
      WriteStrict(s0, s, a.picked.value, Counted(s.docs[a.picked.value]), Attempted(a.picked.value));
    } else {
      GotoStrict(s0, s, a.replica, AttemptMissed(a.code));
    }
  }

  lemma ForfeitStrict(s0: System, s: System, a: Action)
    requires Strict(s0, s) && Enabled(s, a) && (a.ForfeitFind? || a.ForfeitCommit? || a.Mark?)
    ensures Strict(s0, Next(s, a))
  {
    match a
    case ForfeitFind(r, query, _) => GotoStrict(s0, s, r, ForfeitChecked(BuildFilter(query)));
    case ForfeitCommit(r, picked) =>
      GotoStrict(s0, s, r, Idle);
      if picked.Some? {
        WriteStrict(s0, Goto(s, r, Idle), picked.value, Spent(s.docs[picked.value]), Forfeited(picked.value));
      }
    case Mark(id) =>
      if id in s.docs && !s.docs[id].forfeited {
        WriteStrict(s0, s, id, Spent(s.docs[id]), Forfeited(id));
      }
  }

  lemma TargetedStrict(s0: System, s: System, a: Action)
    requires Strict(s0, s) && Enabled(s, a) && (a.RedeemCode? || a.Extend? || a.ClaimSession? || a.ResumeIssuer?)
    ensures Strict(s0, Next(s, a))
  {
    if a.picked.Some? {
      var id := a.picked.value;
      var d := s.docs[id];
      match a
      case RedeemCode(_, thumbprint, _) => WriteStrict(s0, s, id, RedeemedAlso(d, thumbprint), Redeemed(id, thumbprint));
      case Extend(_, expiresAt, _) => WriteStrict(s0, s, id, ExtendedTo(d, expiresAt), Extended(id, expiresAt));
      case ClaimSession(handle, _) => WriteStrict(s0, s, id, Claimed(d), Taken(id, handle));
      case ResumeIssuer(handle, resume, _) =>
        WriteStrict(s0, s, id, ApplyResume(resume, Unprepared(d)), Resumed(id, handle, resume));
    }
  }

  /** The step writes a whole document. */
  ghost predicate WritesWhole(s: System, a: Action)
    requires Enabled(s, a)
  {
    (a.ClaimIssuer? || a.SaveDoc? || a.UpdateDoc? || a.RotateDoc?) && Next(s, a) != s
  }

  lemma StepStrict(s0: System, s: System, a: Action)
    requires Inv(s0, s) && Strict(s0, s) && Enabled(s, a) && !WritesWhole(s, a)
    ensures Strict(s0, Next(s, a))
  {
    match a
    case ForfeitFind(_, _, _) => ForfeitStrict(s0, s, a);
    case ForfeitCommit(_, _) => ForfeitStrict(s0, s, a);
    case Mark(_) => ForfeitStrict(s0, s, a);
    case RedeemCode(_, _, _) => TargetedStrict(s0, s, a);
    case Extend(_, _, _) => TargetedStrict(s0, s, a);
    case ClaimSession(_, _) => TargetedStrict(s0, s, a);
    case ResumeIssuer(_, _, _) => TargetedStrict(s0, s, a);
    case AttemptCount(_, _, _) => AttemptStrict(s0, s, a);
    case AttemptLook(r, picked) => LookStrict(s0, s, r, picked);
    case AttemptLock(r, picked) => LockStrict(s0, s, r, picked);
    case Touch(id, doc) => TouchStrict(s0, s, id, doc);
    case Vanish(id) => VanishStrict(s0, s, id);
    case Crash(r) => GotoStrict(s0, s, r, Idle);
    case _ =>
  }

  // ----- runs -----

  /** The log only grows, and a whole write shows in it. */
  lemma LogGrows(s: System, a: Action)
    requires Enabled(s, a)
    ensures s.log <= Next(s, a).log
    ensures WritesWhole(s, a) ==> Overwritten(Next(s, a).log)
  {
    var s' := Next(s, a);
    if WritesWhole(s, a) {
      assert s'.log[|s'.log| - 1].Replaced? || s'.log[|s'.log| - 1].Opened?;
    }
  }

  lemma OverwrittenGrows(a: seq<Event>, b: seq<Event>)
    requires a <= b && Overwritten(a)
    ensures Overwritten(b)
  {
    var i :| 0 <= i < |a| && (a[i].Replaced? || a[i].Opened?);
    assert b[i] == a[i];
  }

  lemma {:induction false} RunStrict(states: seq<System>)
    requires IsRun(states) && Initial(states[0]) && UniqueCodes(states[0].docs)
    requires !Overwritten(states[|states| - 1].log)
    ensures Strict(states[0], states[|states| - 1])
    decreases |states|
  {
    var n := |states| - 1;
    if n > 0 {
      RunPrefix(states);
      var s := states[n - 1];
      var a :| Enabled(s, a) && states[n] == Next(s, a);
      LogGrows(s, a);
      if Overwritten(s.log) {
        OverwrittenGrows(s.log, states[n].log);
      }
      RunStrict(states[..n]);
      RunKeeps(states[..n]);
      StepStrict(states[0], s, a);
    }
  }

  /** Over every interleaving of targeted operations, claims and resumes among them, each
      lockout followed five attempts and each code reported as exceeded is forfeited. */
  lemma LockoutsAreEarned(states: seq<System>)
    requires IsRun(states) && Initial(states[0]) && UniqueCodes(states[0].docs)
    requires !Overwritten(states[|states| - 1].log)
    ensures ExceededMeansForfeited(states[|states| - 1])
    ensures forall id :: Earned(Start(states[0], id), states[|states| - 1].log, id)
  {
    RunStrict(states);
  }

  /** The attempt that comes after the budget is used up locks the code out. */
  lemma NextAttemptLocksOut(s: System, r: nat, code: string, id: string)
    requires At(s, r).Idle? && code != "" && UniqueCodes(s.docs) && id in s.docs && s.docs[id].code == code
    requires !s.docs[id].forfeited && s.docs[id].txCodeAttempts >= MAX_TX_CODE_ATTEMPTS
    ensures Enabled(s, AttemptCount(r, code, None))
    ensures var s1 := Next(s, AttemptCount(r, code, None));
            Enabled(s1, AttemptLook(r, Some(id))) &&
            var s2 := Next(s1, AttemptLook(r, Some(id)));
            Enabled(s2, AttemptLock(r, Some(id))) &&
            Next(s2, AttemptLock(r, Some(id))).docs == s.docs[id := Spent(s.docs[id])]
  {
    var s1 := Next(s, AttemptCount(r, code, None));
    assert At(s1, r) == AttemptMissed(code);
    var s2 := Next(s1, AttemptLook(r, Some(id)));
    assert At(s2, r) == AttemptExhausted(code);
  }
}
