/** The in-memory store keeps the budgets of the replicas: each of its operations is a few
    steps of one replica, so a run of the store is a run of the replicated system. */
module MemoryBudgets {
  import opened AuthDocuments
  import opened AuthStore
  import opened AuthStoreIndex
  import opened MongoReplicas
  import opened Wrappers
  import Budgets = ReplicaBudgets
  import Lockouts = ReplicaLockouts
  import Backends = BackendAgreement

  /** What the reply to an operation tells of the document. */
  function Reported(m: Store, op: Operation): seq<Event> {
    var reply := Step(m, op).1;
    match op
    case Forfeit(_) => if reply.Found? then [Forfeited(reply.doc.sessionID)] else []
    case MarkForfeited(id) => if reply.Done? then [Forfeited(id)] else []
    case Redeem(_, thumbprint) => if reply.Found? then [Event.Redeemed(reply.doc.sessionID, thumbprint)] else []
    case Attempt(code) =>
      if reply.Found? then [Attempted(reply.doc.sessionID)]
      else if reply == Failed(AttemptsExceeded) && Subject(m, op).Some? then [LockedOut(Subject(m, op).value), Exceeded(code)]
      else []
    case ExtendExpiry(_, expiresAt) =>
      if reply.Done? && Subject(m, op).Some? then [Extended(Subject(m, op).value, expiresAt)] else []
    case ClaimAuthSession(handle) => if reply.Found? then [Taken(reply.doc.sessionID, handle)] else []
    case ClaimIssuerState(handle, _, _) => if reply.Found? then [Opened(reply.doc.sessionID, handle, reply.doc)] else []
    case ResumeIssuerState(handle, resume) => if reply.Found? then [Resumed(reply.doc.sessionID, handle, resume)] else []
    case Save(doc, _, now) => if reply.Done? then [Replaced(doc.sessionID, Anchored(m, doc, now))] else []
    case Update(doc, _) => if reply.Done? then [Replaced(doc.sessionID, doc)] else []
    case Rotate(_, updated) => if reply.Done? then [Replaced(updated.sessionID, updated)] else []
    case CallerWrites(id, doc) => if id in m.live then [Replaced(id, doc)] else []
    case _ => []
  }

  function ReportedBy(m: Store, ops: seq<Operation>): seq<Event> {
    if ops == [] then []
    else ReportedBy(m, ops[..|ops| - 1]) + Reported(Run(m, ops[..|ops| - 1]), ops[|ops| - 1])
  }

  // ----- the steps of one operation -----

  ghost predicate AllIdle(s: System) {
    forall r | r in s.replicas :: s.replicas[r].Idle?
  }

  /** The collection holds what the store holds, and no replica is at work. */
  ghost predicate Mirrors(m: Store, s: System) {
    Inv(m) && "" !in m.live && s.docs == m.live && AllIdle(s)
  }

  ghost predicate Simulates(states: seq<System>, s: System, m: Store, op: Operation) {
    IsRun(states) && states[0] == s &&
    var last := states[|states| - 1];
    last.docs == Step(m, op).0.live && last.log == s.log + Reported(m, op) && AllIdle(last)
  }

  lemma OneMore(states: seq<System>, a: Action) returns (more: seq<System>)
    requires IsRun(states) && Enabled(states[|states| - 1], a)
    ensures IsRun(more) && more[0] == states[0] && more[|more| - 1] == Next(states[|states| - 1], a)
  {
    more := states + [Next(states[|states| - 1], a)];
    forall i | 0 <= i < |more| - 1 ensures Steps(more[i], more[i + 1]) {
      if i < |states| - 1 {
        assert more[i] == states[i] && more[i + 1] == states[i + 1];
      }
    }
  }

  lemma NoStep(m: Store, s: System, op: Operation) returns (states: seq<System>)
    requires Mirrors(m, s) && Step(m, op).0.live == m.live && Reported(m, op) == []
    ensures Simulates(states, s, m, op)
  {
    states := [s];
    assert s.log + [] == s.log;
  }

  lemma OneStep(m: Store, s: System, op: Operation, a: Action) returns (states: seq<System>)
    requires Mirrors(m, s) && Enabled(s, a)
    requires var t := Next(s, a); t.docs == Step(m, op).0.live && t.log == s.log + Reported(m, op) && AllIdle(t)
    ensures Simulates(states, s, m, op)
  {
    states := OneMore([s], a);
  }

  /** A query for one session. */
  lemma SessionFilter(m: Store, s: System, id: string)
    requires Mirrors(m, s) && id in m.live
    ensures BuildFilter(m.live[id]) == Session(id) && m.live[id].sessionID == id
  {
  }

  lemma SimulateRedeem(m: Store, s: System, code: string, thumbprint: string) returns (states: seq<System>)
    requires Mirrors(m, s)
    ensures Simulates(states, s, m, Redeem(code, thumbprint))
  {
    var op := Redeem(code, thumbprint);
    if Step(m, op).1.Found? {
      var id := Subject(m, op).value;
      Backends.ByCode(m, code);
      var a := RedeemCode(code, thumbprint, Some(id));
      assert CanRedeem(s.docs[id], code, thumbprint);
      states := OneStep(m, s, op, a);
    } else {
      states := NoStep(m, s, op);
    }
  }

  lemma SimulateMark(m: Store, s: System, id: string) returns (states: seq<System>)
    requires Mirrors(m, s)
    ensures Simulates(states, s, m, MarkForfeited(id))
  {
    var op := MarkForfeited(id);
    if Step(m, op).1.Done? {
      states := OneStep(m, s, op, Mark(id));
    } else {
      states := NoStep(m, s, op);
    }
  }

  lemma ExtendStep(m: Store, query: Doc, expiresAt: int, id: string)
    requires !Refused(Operation.ExtendExpiry(query, expiresAt)) && Subject(m, Operation.ExtendExpiry(query, expiresAt)) == Some(id)
    requires id in m.live
    ensures Step(m, Operation.ExtendExpiry(query, expiresAt)).0.live == m.live[id := ExtendedTo(m.live[id], expiresAt)]
    ensures Step(m, Operation.ExtendExpiry(query, expiresAt)).1 == Done
  {
    var d := m.live[id];
    if d.expiresAt >= expiresAt {
      assert ExtendedTo(d, expiresAt) == d && m.live[id := d] == m.live;
    }
  }

  lemma SimulateExtend(m: Store, s: System, query: Doc, expiresAt: int) returns (states: seq<System>)
    requires Mirrors(m, s)
    ensures Simulates(states, s, m, Operation.ExtendExpiry(query, expiresAt))
  {
    var op := Operation.ExtendExpiry(query, expiresAt);
    if !Refused(op) && Subject(m, op).Some? {
      var id := Subject(m, op).value;
      var d := m.live[id];
      SessionFilter(m, s, id);
      ExtendStep(m, query, expiresAt, id);
      states := OneStep(m, s, op, Extend(d, expiresAt, Some(id)));
    } else {
      states := NoStep(m, s, op);
    }
  }

  lemma SimulateForfeit(m: Store, s: System, query: Doc) returns (states: seq<System>)
    requires Mirrors(m, s)
    ensures Simulates(states, s, m, Forfeit(query))
  {
    var op := Forfeit(query);
    if Step(m, op).1.Found? {
      var id := Subject(m, op).value;
      var d := m.live[id];
      SessionFilter(m, s, id);
      states := OneMore([s], ForfeitFind(0, d, Some(id)));
      var found := states[|states| - 1];
      assert At(found, 0) == ForfeitChecked(Session(id)) && found.docs == m.live;
      states := OneMore(states, ForfeitCommit(0, Some(id)));
    } else {
      states := NoStep(m, s, op);
    }
  }

  lemma SimulateLockout(m: Store, s: System, code: string, id: string) returns (states: seq<System>)
    requires Mirrors(m, s) && code != "" && Lookup(m, Handle(Code, code)) == Some(id)
    requires !m.live[id].forfeited && m.live[id].txCodeAttempts >= MAX_TX_CODE_ATTEMPTS
    ensures IsRun(states) && states[0] == s
    ensures var last := states[|states| - 1];
            last.docs == m.live[id := Spent(m.live[id])] && AllIdle(last) &&
            last.log == s.log + [LockedOut(id)] + [Exceeded(code)]
  {
    Backends.ByCode(m, code);
    states := OneMore([s], AttemptCount(0, code, None));
    var missed := states[|states| - 1];
    assert At(missed, 0) == AttemptMissed(code) && missed.docs == m.live && missed.log == s.log;
    states := OneMore(states, AttemptLook(0, Some(id)));
    var looked := states[|states| - 1];
    assert At(looked, 0) == AttemptExhausted(code) && looked.docs == m.live && looked.log == s.log;
    states := OneMore(states, AttemptLock(0, Some(id)));
  }

  lemma SimulateAttempt(m: Store, s: System, code: string) returns (states: seq<System>)
    requires Mirrors(m, s)
    ensures Simulates(states, s, m, Attempt(code))
  {
    var op := Attempt(code);
    var reply := Step(m, op).1;
    if reply.Found? {
      var id := Subject(m, op).value;
      Backends.ByCode(m, code);
      var a := AttemptCount(0, code, Some(id));
      assert CanCount(s.docs[id], code);
      states := OneStep(m, s, op, a);
    } else if reply == Failed(AttemptsExceeded) {
      var id := Subject(m, op).value;
      states := SimulateLockout(m, s, code, id);
      assert s.log + [LockedOut(id)] + [Exceeded(code)] == s.log + [LockedOut(id), Exceeded(code)];
    } else {
      states := NoStep(m, s, op);
    }
  }

  /** Operations on fields that nothing here depends on. */
  lemma SimulateTouch(m: Store, s: System, op: Operation) returns (states: seq<System>)
    requires Mirrors(m, s)
    requires op.Consent? || op.SetAuthenticSource? || op.SetIdentifier? || op.SetAuthProvider? || op.AddToken?
    ensures Simulates(states, s, m, op)
  {
    var m' := Step(m, op).0;
    if m'.live == m.live {
      states := NoStep(m, s, op);
    } else {
      var id := Subject(m, op).value;
      assert m'.live == m.live[id := m'.live[id]] && SameGuards(m'.live[id], m.live[id]);
      assert Next(s, Touch(id, m'.live[id])).log == s.log + [];
      states := OneStep(m, s, op, Touch(id, m'.live[id]));
    }
  }

  lemma SimulateVanish(m: Store, s: System, op: Operation) returns (states: seq<System>)
    requires Mirrors(m, s) && (op.Delete? || op.Expire? || op.Callback?)
    ensures Simulates(states, s, m, op)
  {
    var m' := Step(m, op).0;
    if m'.live == m.live {
      states := NoStep(m, s, op);
    } else {
      assert m'.live == m.live - {op.id};
      assert Next(s, Vanish(op.id)).log == s.log + [];
      states := OneStep(m, s, op, Vanish(op.id));
    }
  }

  lemma SimulateClaim(m: Store, s: System, op: Operation) returns (states: seq<System>)
    requires Mirrors(m, s) && (op.ClaimAuthSession? || op.ResumeIssuerState?)
    ensures Simulates(states, s, m, op)
  {
    if Step(m, op).1.Found? {
      var id := Subject(m, op).value;
      assert m.live[id].sessionID == id;
      if op.ClaimAuthSession? {
        states := OneStep(m, s, op, ClaimSession(op.handle, Some(id)));
      } else {
        states := OneStep(m, s, op, ResumeIssuer(op.handle, op.resume, Some(id)));
      }
    } else {
      states := NoStep(m, s, op);
    }
  }

  lemma SimulateOpen(m: Store, s: System, handle: string, claimant: Doc, valid: bool) returns (states: seq<System>)
    requires Mirrors(m, s)
    ensures Simulates(states, s, m, ClaimIssuerState(handle, claimant, valid))
  {
    var op := ClaimIssuerState(handle, claimant, valid);
    if Step(m, op).1.Found? {
      var id := Subject(m, op).value;
      assert m.live[id].sessionID == id == claimant.sessionID;
      states := OneStep(m, s, op, ClaimIssuer(handle, claimant, Some(id)));
    } else {
      states := NoStep(m, s, op);
    }
  }

  lemma SimulateSave(m: Store, s: System, doc: Doc, valid: bool, now: int) returns (states: seq<System>)
    requires Mirrors(m, s)
    ensures Simulates(states, s, m, Save(doc, valid, now))
  {
    var op := Save(doc, valid, now);
    if Refused(op) {
      states := NoStep(m, s, op);
    } else {
      states := OneStep(m, s, op, SaveDoc(Anchored(m, doc, now)));
    }
  }

  lemma SimulateReplace(m: Store, s: System, op: Operation) returns (states: seq<System>)
    requires Mirrors(m, s) && Disciplined(m, op) && (op.Update? || op.Rotate? || op.CallerWrites?)
    ensures Simulates(states, s, m, op)
  {
    if Reported(m, op) == [] {
      states := NoStep(m, s, op);
    } else if op.Update? {
      states := OneStep(m, s, op, UpdateDoc(op.doc));
    } else if op.Rotate? {
      states := OneStep(m, s, op, RotateDoc(op.oldToken, op.updated));
    } else {
      states := OneStep(m, s, op, UpdateDoc(op.doc));
    }
  }

  lemma Simulate(m: Store, s: System, op: Operation) returns (states: seq<System>)
    requires Mirrors(m, s) && Disciplined(m, op)
    ensures Simulates(states, s, m, op)
  {
    match op
    case Forfeit(query) => states := SimulateForfeit(m, s, query);
    case MarkForfeited(id) => states := SimulateMark(m, s, id);
    case Redeem(code, thumbprint) => states := SimulateRedeem(m, s, code, thumbprint);
    case Attempt(code) => states := SimulateAttempt(m, s, code);
    case ExtendExpiry(query, expiresAt) => states := SimulateExtend(m, s, query, expiresAt);
    case ClaimAuthSession(_) => states := SimulateClaim(m, s, op);
    case ResumeIssuerState(_, _) => states := SimulateClaim(m, s, op);
    case ClaimIssuerState(handle, claimant, valid) => states := SimulateOpen(m, s, handle, claimant, valid);
    case Save(doc, valid, now) => states := SimulateSave(m, s, doc, valid, now);
    case Update(_, _) => states := SimulateReplace(m, s, op);
    case Rotate(_, _) => states := SimulateReplace(m, s, op);
    case CallerWrites(_, _) => states := SimulateReplace(m, s, op);
    case Delete(_) => states := SimulateVanish(m, s, op);
    case Expire(_) => states := SimulateVanish(m, s, op);
    case Callback(_) => states := SimulateVanish(m, s, op);
    case _ => states := SimulateTouch(m, s, op);
  }

  // ----- whole runs -----

  lemma RunsJoin(a: seq<System>, b: seq<System>)
    requires IsRun(a) && IsRun(b) && a[|a| - 1] == b[0]
    ensures IsRun(a + b[1..]) && (a + b[1..])[0] == a[0] && (a + b[1..])[|a + b[1..]| - 1] == b[|b| - 1]
  {
    var c := a + b[1..];
    forall i | 0 <= i < |c| - 1 ensures Steps(c[i], c[i + 1]) {
      if i < |a| - 1 {
        assert c[i] == a[i] && c[i + 1] == a[i + 1];
      } else {
        assert c[i] == b[i - |a| + 1] && c[i + 1] == b[i - |a| + 2];
      }
    }
  }

  lemma NoEmptySession(m: Store, op: Operation)
    requires "" !in m.live
    ensures "" !in Step(m, op).0.live
  {
  }

  /** Every disciplined run of the store is a run of the replicas that reports the same
      events. */
  lemma {:induction false} RunIsReplicaRun(m: Store, ops: seq<Operation>) returns (states: seq<System>)
    requires Inv(m) && "" !in m.live && DisciplinedRun(m, ops)
    ensures IsRun(states) && states[0] == System(m.live, map[], [])
    ensures Mirrors(Run(m, ops), states[|states| - 1]) && states[|states| - 1].log == ReportedBy(m, ops)
    decreases |ops|
  {
    if ops == [] {
      states := [System(m.live, map[], [])];
    } else {
      var front, op := ops[..|ops| - 1], ops[|ops| - 1];
      var before := RunIsReplicaRun(m, front);
      var step := Simulate(Run(m, front), before[|before| - 1], op);
      RunsJoin(before, step);
      states := before + step[1..];
      ReachableStatesRefine(m, ops);
      NoEmptySession(Run(m, front), op);
    }
  }

  /** So over every run of the store, and for every document since it was last written as a
      whole, the budgets are kept and the store holds what it reported. */
  lemma MemoryBudgetsHold(m: Store, ops: seq<Operation>, id: string)
    requires Inv(m) && "" !in m.live && DisciplinedRun(m, ops)
    ensures var log := ReportedBy(m, ops);
            var b := Budgets.Base(Budgets.Start(System(m.live, map[], []), id), log, id);
            && Budgets.WithinBudget(b, Budgets.Since(log, id), id)
            && (id in Run(m, ops).live ==>
                  Budgets.StoredAsLogged(b, Run(m, ops).live[id], Budgets.Since(log, id), id))
  {
    var states := RunIsReplicaRun(m, ops);
    Budgets.BudgetsHold(states, id);
  }

  lemma CodesAreUnique(m: Store)
    requires Inv(m)
    ensures UniqueCodes(m.live)
  {
    forall a, b | a in m.live && b in m.live && m.live[a].code == m.live[b].code && m.live[a].code != "" ensures a == b {
      Backends.ByCode(m, m.live[a].code);
    }
  }

  /** And without whole writes, lockouts come after five attempts. */
  lemma MemoryLockoutsAreEarned(m: Store, ops: seq<Operation>, id: string)
    requires Inv(m) && "" !in m.live && DisciplinedRun(m, ops) && !Lockouts.Overwritten(ReportedBy(m, ops))
    ensures Budgets.Earned(Budgets.Start(System(m.live, map[], []), id), ReportedBy(m, ops), id)
  {
    CodesAreUnique(m);
    var states := RunIsReplicaRun(m, ops);
    Lockouts.LockoutsAreEarned(states);
  }
}
