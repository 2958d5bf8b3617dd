/** Budgets over every interleaving: since the last write of a whole document, its code is
    forfeited once, redeemed and tried within its limits and never after it was forfeited,
    and its deadline is the latest since the last resume. */
module ReplicaBudgets {
  import opened AuthDocuments
  import opened AuthStore
  import opened MongoReplicas
  import opened Wrappers

  /** The fields that guard a document's use. */
  datatype Budget = Budget(
    forfeited: bool, redeemedBy: seq<string>, attempts: int, expiresAt: int, authSession: string, issuerState: string)

  function BudgetOf(d: Doc): Budget {
    Budget(d.forfeited, d.redeemedBy, d.txCodeAttempts, d.expiresAt, d.authSession, d.issuerState)
  }

  // ----- a document's budget, replayed from the log -----

  predicate Concerns(e: Event, id: string) {
    !e.Exceeded? && e.id == id
  }

  /** The whole document was written. */
  predicate Overwrites(e: Event, id: string) {
    (e.Replaced? || e.Opened?) && e.id == id
  }

  function Spend(b: Budget, e: Event, id: string): Budget {
    if !Concerns(e, id) then b
    else match e
      case Forfeited(_) => b.(forfeited := true)
      case LockedOut(_) => b.(forfeited := true)
      case Redeemed(_, thumbprint) => b.(redeemedBy := b.redeemedBy + [thumbprint])
      case Attempted(_) => b.(attempts := b.attempts + 1)
      case Extended(_, expiresAt) => b.(expiresAt := Max(b.expiresAt, expiresAt))
      case Taken(_, _) => b.(authSession := "")
      case Resumed(_, _, resume) =>
        b.(issuerState := "", authSession := resume.authSession, expiresAt := resume.expiresAt)
      case Opened(_, _, doc) => BudgetOf(doc)
      case Replaced(_, doc) => BudgetOf(doc)
      case Exceeded(_) => b
  }

  predicate Allowed(b: Budget, e: Event, id: string) {
    Concerns(e, id) ==>
      match e
      case Forfeited(_) => !b.forfeited
      case LockedOut(_) => !b.forfeited
      case Redeemed(_, thumbprint) =>
        !b.forfeited && thumbprint !in b.redeemedBy && |b.redeemedBy| < MAX_PRE_AUTH_REDEEMERS
      case Attempted(_) => !b.forfeited && b.attempts < MAX_TX_CODE_ATTEMPTS
      case Taken(_, handle) => handle != "" && b.authSession == handle
      case Resumed(_, handle, _) => handle != "" && b.issuerState == handle
      case Opened(_, handle, _) => handle != "" && b.issuerState == handle
      case _ => true
  }

  function Replay(b: Budget, log: seq<Event>, id: string): Budget {
    if log == [] then b else Spend(Replay(b, log[..|log| - 1], id), log[|log| - 1], id)
  }

  /** Every event of `id` was within the budget when it happened. */
  predicate Legal(b: Budget, log: seq<Event>, id: string) {
    log == [] ||
    var n := |log| - 1;
    Legal(b, log[..n], id) && Allowed(Replay(b, log[..n], id), log[n], id)
  }

  /** A lockout came after the attempts were used up. */
  predicate Earned(b: Budget, log: seq<Event>, id: string) {
    log == [] ||
    var n := |log| - 1;
    Earned(b, log[..n], id) &&
    (log[n] == LockedOut(id) ==> Replay(b, log[..n], id).attempts >= MAX_TX_CODE_ATTEMPTS)
  }

  lemma Snoc(b: Budget, log: seq<Event>, e: Event, id: string)
    ensures Replay(b, log + [e], id) == Spend(Replay(b, log, id), e, id)
    ensures Legal(b, log + [e], id) <==> Legal(b, log, id) && Allowed(Replay(b, log, id), e, id)
    ensures Earned(b, log + [e], id) <==>
            Earned(b, log, id) && (e == LockedOut(id) ==> Replay(b, log, id).attempts >= MAX_TX_CODE_ATTEMPTS)
  {
    assert (log + [e])[..|log|] == log;
  }

  // ----- the invariant -----

  /** What a document starts with; one that is not there yet starts with nothing. */
  function Start(s0: System, id: string): Budget {
    if id in s0.docs then BudgetOf(s0.docs[id]) else Budget(false, [], 0, 0, "", "")
  }

  /** The document is what the log makes of its start. */
  ghost predicate Tracked(s0: System, s: System, id: string) {
    Legal(Start(s0, id), s.log, id) &&
    (id in s.docs ==> BudgetOf(s.docs[id]) == Replay(Start(s0, id), s.log, id))
  }

  ghost predicate Inv(s0: System, s: System) {
    KeyedBySession(s.docs) && forall id :: Tracked(s0, s, id)
  }

  lemma InitialInv(s: System)
    requires Initial(s)
    ensures Inv(s, s)
  {
  }

  // ----- steps -----

  lemma SameDocsKeep(s0: System, s: System, s': System)
    requires Inv(s0, s) && s'.docs == s.docs && s'.log == s.log
    ensures Inv(s0, s')
  {
    forall id ensures Tracked(s0, s', id) {
      assert Tracked(s0, s, id);
    }
  }

  lemma WriteKeeps(s0: System, s: System, id: string, d: Doc, e: Event)
    requires Inv(s0, s) && d.sessionID == id && Concerns(e, id)
    requires id in s.docs || Overwrites(e, id)
    requires Overwrites(e, id) ==> d == e.doc
    requires id in s.docs ==> Allowed(BudgetOf(s.docs[id]), e, id) && BudgetOf(d) == Spend(BudgetOf(s.docs[id]), e, id)
    requires e.Opened? ==> id in s.docs
    ensures Inv(s0, Write(s, id, d, e))
  {
    var s' := Write(s, id, d, e);
    forall other ensures Tracked(s0, s', other) {
      assert Tracked(s0, s, other);
      Snoc(Start(s0, other), s.log, e, other);
    }
  }

  lemma TouchKeeps(s0: System, s: System, id: string, d: Doc)
    requires Inv(s0, s) && id in s.docs && SameGuards(d, s.docs[id])
    ensures Inv(s0, s.(docs := s.docs[id := d]))
  {
    var s' := s.(docs := s.docs[id := d]);
    forall other ensures Tracked(s0, s', other) {
      assert Tracked(s0, s, other);
    }
  }

  lemma VanishKeeps(s0: System, s: System, id: string)
    requires Inv(s0, s)
    ensures Inv(s0, s.(docs := s.docs - {id}))
  {
    var s' := s.(docs := s.docs - {id});
    forall other ensures Tracked(s0, s', other) {
      assert Tracked(s0, s, other);
    }
  }

  lemma ReportKeeps(s0: System, s: System, code: string)
    requires Inv(s0, s)
    ensures Inv(s0, s.(log := s.log + [Exceeded(code)]))
  {
    var s' := s.(log := s.log + [Exceeded(code)]);
    forall id ensures Tracked(s0, s', id) {
      assert Tracked(s0, s, id);
      Snoc(Start(s0, id), s.log, Exceeded(code), id);
    }
  }

  lemma ForfeitKeeps(s0: System, s: System, a: Action)
    requires Inv(s0, s) && Enabled(s, a) && (a.ForfeitFind? || a.ForfeitCommit? || a.Mark?)
    ensures Inv(s0, Next(s, a))
  {
    match a
    case ForfeitFind(r, query, picked) => SameDocsKeep(s0, s, Next(s, a));
    case ForfeitCommit(r, picked) =>
      SameDocsKeep(s0, s, Goto(s, r, Idle));
      if picked.Some? {
        var id := picked.value;
        WriteKeeps(s0, Goto(s, r, Idle), id, Spent(s.docs[id]), Forfeited(id));
      }
    case Mark(id) =>
      if id in s.docs && !s.docs[id].forfeited {
        WriteKeeps(s0, s, id, Spent(s.docs[id]), Forfeited(id));
      }
  }

  lemma RedeemKeeps(s0: System, s: System, a: Action)
    requires Inv(s0, s) && Enabled(s, a) && a.RedeemCode? && a.picked.Some?
    ensures Inv(s0, Next(s, a))
  {
    var id := a.picked.value;
    WriteKeeps(s0, s, id, RedeemedAlso(s.docs[id], a.thumbprint), Redeemed(id, a.thumbprint));
  }

  lemma ExtendKeeps(s0: System, s: System, a: Action)
    requires Inv(s0, s) && Enabled(s, a) && a.Extend? && a.picked.Some?
    ensures Inv(s0, Next(s, a))
  {
    var id := a.picked.value;
    WriteKeeps(s0, s, id, ExtendedTo(s.docs[id], a.expiresAt), Extended(id, a.expiresAt));
  }

  lemma AttemptKeeps(s0: System, s: System, a: Action)
    requires Inv(s0, s) && Enabled(s, a) && (a.AttemptCount? || a.AttemptLook?)
    ensures Inv(s0, Next(s, a))
  {
    if a.AttemptCount? && a.picked.Some? {
      var id := a.picked.value;
      WriteKeeps(s0, s, id, Counted(s.docs[id]), Attempted(id));
    } else {
      SameDocsKeep(s0, s, Next(s, a));
    }
  }

  lemma LockKeeps(s0: System, s: System, r: nat, picked: Option<string>)
    requires Inv(s0, s) && Enabled(s, AttemptLock(r, picked))
    ensures Inv(s0, Next(s, AttemptLock(r, picked)))
  {
    var idle, code := Goto(s, r, Idle), At(s, r).code;
    SameDocsKeep(s0, s, idle);
    if picked.None? {
      ReportKeeps(s0, idle, code);
    } else {
      var id := picked.value;
      WriteKeeps(s0, idle, id, Spent(s.docs[id]), LockedOut(id));
      ReportKeeps(s0, Write(idle, id, Spent(s.docs[id]), LockedOut(id)), code);
    }
  }

  lemma ClaimKeeps(s0: System, s: System, a: Action)
    requires Inv(s0, s) && Enabled(s, a) && (a.ClaimSession? || a.ResumeIssuer? || a.ClaimIssuer?) && a.picked.Some?
    ensures Inv(s0, Next(s, a))
  {
    var id := a.picked.value;
    var d := s.docs[id];
    match a
    case ClaimSession(handle, _) => WriteKeeps(s0, s, id, Claimed(d), Taken(id, handle));
    case ResumeIssuer(handle, resume, _) =>
      WriteKeeps(s0, s, id, ApplyResume(resume, Unprepared(d)), Resumed(id, handle, resume));
    case ClaimIssuer(handle, claimant, _) =>
      WriteKeeps(s0, s, id, Unprepared(claimant), Opened(id, handle, Unprepared(claimant)));
  }

  lemma ReplaceKeeps(s0: System, s: System, a: Action)
    requires Inv(s0, s) && Enabled(s, a) && (a.SaveDoc? || a.UpdateDoc? || a.RotateDoc?)
    ensures Inv(s0, Next(s, a))
  {
    if Next(s, a) != s {
      WriteKeeps(s0, s, a.doc.sessionID, a.doc, Replaced(a.doc.sessionID, a.doc));
    }
  }

  lemma StepKeeps(s0: System, s: System, a: Action)
    requires Inv(s0, s) && Enabled(s, a)
    ensures Inv(s0, Next(s, a))
  {
    match a
    case ForfeitFind(_, _, _) => ForfeitKeeps(s0, s, a);
    case ForfeitCommit(_, _) => ForfeitKeeps(s0, s, a);
    case Mark(_) => ForfeitKeeps(s0, s, a);
    case RedeemCode(_, _, picked) => if picked.Some? { RedeemKeeps(s0, s, a); }
    case AttemptCount(_, _, _) => AttemptKeeps(s0, s, a);
    case AttemptLook(_, _) => AttemptKeeps(s0, s, a);
    case AttemptLock(r, picked) => LockKeeps(s0, s, r, picked);
    case Extend(_, _, picked) => if picked.Some? { ExtendKeeps(s0, s, a); }
    case ClaimSession(_, picked) => if picked.Some? { ClaimKeeps(s0, s, a); }
    case ResumeIssuer(_, _, picked) => if picked.Some? { ClaimKeeps(s0, s, a); }
    case ClaimIssuer(_, _, picked) => if picked.Some? { ClaimKeeps(s0, s, a); }
    case SaveDoc(_) => ReplaceKeeps(s0, s, a);
    case UpdateDoc(_) => ReplaceKeeps(s0, s, a);
    case RotateDoc(_, _) => ReplaceKeeps(s0, s, a);
    case Touch(id, doc) => TouchKeeps(s0, s, id, doc);
    case Vanish(id) => VanishKeeps(s0, s, id);
    case Crash(r) => SameDocsKeep(s0, s, Next(s, a));
  }

  lemma RunPrefix(states: seq<System>)
    requires IsRun(states) && |states| > 1
    ensures IsRun(states[..|states| - 1])
    ensures Steps(states[|states| - 2], states[|states| - 1])
  {
    var n := |states| - 1;
    var init := states[..n];
    forall i | 0 <= i < |init| - 1 ensures Steps(init[i], init[i + 1]) {
      assert Steps(states[i], states[i + 1]);
    }
    assert Steps(states[n - 1], states[n - 1 + 1]);
  }

  lemma StepsKeep(s0: System, s: System, s': System)
    requires Inv(s0, s) && Steps(s, s')
    ensures Inv(s0, s')
  {
    var a :| Enabled(s, a) && s' == Next(s, a);
    StepKeeps(s0, s, a);
  }

  lemma {:induction false} RunKeeps(states: seq<System>)
    requires IsRun(states) && Initial(states[0])
    ensures Inv(states[0], states[|states| - 1])
    decreases |states|
  {
    var n := |states| - 1;
    if n == 0 {
      InitialInv(states[0]);
    } else {
      RunPrefix(states);
      RunKeeps(states[..n]);
      StepsKeep(states[0], states[n - 1], states[n]);
    }
  }

  // ----- since the last write of the whole document -----

  /** What that write stored, or what the document started with. */
  function Base(b: Budget, log: seq<Event>, id: string): Budget {
    if log == [] then b
    else if Overwrites(log[|log| - 1], id) then BudgetOf(log[|log| - 1].doc)
    else Base(b, log[..|log| - 1], id)
  }

  /** What happened after it. */
  function Since(log: seq<Event>, id: string): seq<Event> {
    if log == [] || Overwrites(log[|log| - 1], id) then []
    else Since(log[..|log| - 1], id) + [log[|log| - 1]]
  }

  predicate Untouched(log: seq<Event>, id: string) {
    forall i :: 0 <= i < |log| ==> !Overwrites(log[i], id)
  }

  lemma {:induction false} SinceIsLegal(b: Budget, log: seq<Event>, id: string)
    requires Legal(b, log, id)
    ensures Legal(Base(b, log, id), Since(log, id), id) && Untouched(Since(log, id), id)
    ensures Replay(Base(b, log, id), Since(log, id), id) == Replay(b, log, id)
  {
    if log != [] && !Overwrites(log[|log| - 1], id) {
      var n := |log| - 1;
      SinceIsLegal(b, log[..n], id);
      Snoc(Base(b, log[..n], id), Since(log[..n], id), log[n], id);
    }
  }

  lemma {:induction false} SinceOfUntouched(b: Budget, log: seq<Event>, id: string)
    requires Untouched(log, id)
    ensures Base(b, log, id) == b && Since(log, id) == log
  {
    if log != [] {
      var n := |log| - 1;
      SinceOfUntouched(b, log[..n], id);
      assert log == log[..n] + [log[n]];
    }
  }

  // ----- what a legal log means -----

  function Count(log: seq<Event>, p: Event -> bool): nat {
    if log == [] then 0 else Count(log[..|log| - 1], p) + if p(log[|log| - 1]) then 1 else 0
  }

  /** The thumbprints that redeemed `id`, in order. */
  function Redeemers(log: seq<Event>, id: string): seq<string> {
    if log == [] then []
    else
      var e := log[|log| - 1];
      Redeemers(log[..|log| - 1], id) + if e.Redeemed? && e.id == id then [e.thumbprint] else []
  }

  /** The deadline: a resume sets it, an extension moves it out. */
  function Latest(start: int, log: seq<Event>, id: string): int {
    if log == [] then start
    else
      var e := log[|log| - 1];
      var before := Latest(start, log[..|log| - 1], id);
      if e.Resumed? && e.id == id then e.resume.expiresAt
      else if e.Extended? && e.id == id then Max(before, e.expiresAt) else before
  }

  predicate Ends(e: Event, id: string) {
    (e.Forfeited? || e.LockedOut?) && e.id == id
  }

  predicate Tries(e: Event, id: string) {
    e.Attempted? && e.id == id
  }

  /** Uses up some of the budget of a code. */
  predicate Uses(e: Event, id: string) {
    (e.Forfeited? || e.LockedOut? || e.Redeemed? || e.Attempted?) && e.id == id
  }

  lemma {:induction false} LegalBudget(b: Budget, log: seq<Event>, id: string)
    requires Legal(b, log, id) && Untouched(log, id)
    ensures var r := Replay(b, log, id);
            && Count(log, e => Ends(e, id)) == (if r.forfeited && !b.forfeited then 1 else 0)
            && (b.forfeited ==> r.forfeited)
            && r.redeemedBy == b.redeemedBy + Redeemers(log, id)
            && r.attempts == b.attempts + Count(log, e => Tries(e, id))
            && r.expiresAt == Latest(b.expiresAt, log, id)
  {
    if log != [] {
      LegalBudget(b, log[..|log| - 1], id);
    }
  }

  predicate Distinct(xs: seq<string>) {
    forall i, j :: 0 <= i < j < |xs| ==> xs[i] != xs[j]
  }

  lemma {:induction false} LegalRedeemers(b: Budget, log: seq<Event>, id: string)
    requires Legal(b, log, id) && Untouched(log, id)
    ensures Distinct(Redeemers(log, id))
    ensures forall t :: t in Redeemers(log, id) ==> t !in b.redeemedBy
    ensures Redeemers(log, id) != [] ==> |b.redeemedBy + Redeemers(log, id)| <= MAX_PRE_AUTH_REDEEMERS
  {
    if log != [] {
      var n := |log| - 1;
      LegalRedeemers(b, log[..n], id);
      LegalBudget(b, log[..n], id);
    }
  }

  lemma {:induction false} LegalAttempts(b: Budget, log: seq<Event>, id: string)
    requires Legal(b, log, id) && Untouched(log, id)
    ensures Count(log, e => Tries(e, id)) > 0 ==>
              b.attempts + Count(log, e => Tries(e, id)) <= MAX_TX_CODE_ATTEMPTS
  {
    if log != [] {
      var n := |log| - 1;
      LegalAttempts(b, log[..n], id);
      LegalBudget(b, log[..n], id);
    }
  }

  lemma {:induction false} ForfeitedStays(b: Budget, log: seq<Event>, id: string, i: nat)
    requires i < |log| && Ends(log[i], id) && Untouched(log, id)
    ensures Replay(b, log, id).forfeited
  {
    if i < |log| - 1 {
      ForfeitedStays(b, log[..|log| - 1], id, i);
    }
  }

  /** After a code has been forfeited nothing redeems, tries or forfeits it. */
  lemma {:induction false} NothingAfterForfeit(b: Budget, log: seq<Event>, id: string, i: nat, j: nat)
    requires Legal(b, log, id) && Untouched(log, id) && i < j < |log| && Ends(log[i], id)
    ensures !Uses(log[j], id)
    decreases |log|
  {
    var n := |log| - 1;
    if j < n {
      NothingAfterForfeit(b, log[..n], id, i, j);
    } else {
      ForfeitedStays(b, log[..n], id, i);
    }
  }

  // ----- the theorem -----

  /** What holds of the events since the document was last written as a whole. */
  ghost predicate WithinBudget(b: Budget, log: seq<Event>, id: string) {
    && Count(log, e => Ends(e, id)) <= (if b.forfeited then 0 else 1)
    && Distinct(Redeemers(log, id)) && (forall t :: t in Redeemers(log, id) ==> t !in b.redeemedBy)
    && (Redeemers(log, id) != [] ==> |b.redeemedBy + Redeemers(log, id)| <= MAX_PRE_AUTH_REDEEMERS)
    && (Count(log, e => Tries(e, id)) > 0 ==>
          b.attempts + Count(log, e => Tries(e, id)) <= MAX_TX_CODE_ATTEMPTS)
    && (forall i, j :: 0 <= i < j < |log| && Ends(log[i], id) ==> !Uses(log[j], id))
  }

  /** The stored document is what was written with exactly the logged changes. */
  ghost predicate StoredAsLogged(b: Budget, after: Doc, log: seq<Event>, id: string) {
    && (after.forfeited <==> b.forfeited || Count(log, e => Ends(e, id)) == 1)
    && after.redeemedBy == b.redeemedBy + Redeemers(log, id)
    && after.txCodeAttempts == b.attempts + Count(log, e => Tries(e, id))
    && after.expiresAt == Latest(b.expiresAt, log, id)
    && after.authSession == Replay(b, log, id).authSession && after.issuerState == Replay(b, log, id).issuerState
  }

  lemma LegalIsWithinBudget(b: Budget, log: seq<Event>, id: string)
    requires Legal(b, log, id) && Untouched(log, id)
    ensures WithinBudget(b, log, id)
    ensures forall d: Doc :: BudgetOf(d) == Replay(b, log, id) ==> StoredAsLogged(b, d, log, id)
  {
    LegalBudget(b, log, id);
    LegalRedeemers(b, log, id);
    LegalAttempts(b, log, id);
    forall i, j | 0 <= i < j < |log| && Ends(log[i], id) ensures !Uses(log[j], id) {
      NothingAfterForfeit(b, log, id, i, j);
    }
  }

  /** Over every interleaving of any number of replicas, and for every document since it
      was last written as a whole, every budget is kept and what is stored is what was
      reported. Claims and resumes are among the steps. */
  lemma BudgetsHold(states: seq<System>, id: string)
    requires IsRun(states) && Initial(states[0])
    ensures var s := states[|states| - 1]; var b := Base(Start(states[0], id), s.log, id);
            && WithinBudget(b, Since(s.log, id), id)
            && (id in s.docs ==> StoredAsLogged(b, s.docs[id], Since(s.log, id), id))
  {
    var s := states[|states| - 1];
    RunKeeps(states);
    assert Tracked(states[0], s, id);
    SinceIsLegal(Start(states[0], id), s.log, id);
    LegalIsWithinBudget(Base(Start(states[0], id), s.log, id), Since(s.log, id), id);
  }

  // ----- the deadline -----

  /** What the last resume of `id` set, or the start. */
  function Deadline(start: int, log: seq<Event>, id: string): int {
    if log == [] then start
    else if log[|log| - 1].Resumed? && log[|log| - 1].id == id then log[|log| - 1].resume.expiresAt
    else Deadline(start, log[..|log| - 1], id)
  }

  /** No resume of `id` comes after position `i`. */
  predicate LastResumed(log: seq<Event>, id: string, i: nat) {
    forall k :: i < k < |log| ==> !(log[k].Resumed? && log[k].id == id)
  }

  /** An extension that no later resume undid. */
  predicate Extends(log: seq<Event>, id: string, i: nat)
    requires i < |log|
  {
    log[i].Extended? && log[i].id == id && LastResumed(log, id, i)
  }

  /** The deadline is the largest of what the last resume set and the extensions since. */
  lemma {:induction false} LatestIsMaximum(start: int, log: seq<Event>, id: string)
    ensures var m := Latest(start, log, id);
            && m >= Deadline(start, log, id)
            && (forall i :: 0 <= i < |log| && Extends(log, id, i) ==> log[i].expiresAt <= m)
            && (m == Deadline(start, log, id) || exists i :: 0 <= i < |log| && Extends(log, id, i) && log[i].expiresAt == m)
  {
    if log != [] {
      var n := |log| - 1;
      var front := log[..n];
      LatestIsMaximum(start, front, id);
      if !(log[n].Resumed? && log[n].id == id) {
        forall i | 0 <= i < n ensures Extends(log, id, i) <==> Extends(front, id, i) {
          LastResumedSnoc(log, id, i);
        }
        var m := Latest(start, front, id);
        if m != Deadline(start, front, id) {
          var i :| 0 <= i < n && Extends(front, id, i) && front[i].expiresAt == m;
          assert Extends(log, id, i) && log[i].expiresAt == m;
        }
        if log[n].Extended? && log[n].id == id {
          assert Extends(log, id, n);
        }
      }
    }
  }

  lemma LastResumedSnoc(log: seq<Event>, id: string, i: nat)
    requires i < |log| - 1 && !(log[|log| - 1].Resumed? && log[|log| - 1].id == id)
    ensures LastResumed(log, id, i) <==> LastResumed(log[..|log| - 1], id, i)
  {
  }

  /** A resume may move the deadline in: it stores its own, whatever stood there. */
  lemma ResumeSetsDeadline(s: System, handle: string, resume: Resume, id: string)
    requires handle != "" && id in s.docs && s.docs[id].issuerState == handle
    ensures var a := ResumeIssuer(handle, resume, Some(id));
            Enabled(s, a) && id in Next(s, a).docs && Next(s, a).docs[id].expiresAt == resume.expiresAt &&
            (resume.expiresAt < s.docs[id].expiresAt <==> Next(s, a).docs[id].expiresAt < s.docs[id].expiresAt)
  {
    assert Enabled(s, ResumeIssuer(handle, resume, Some(id)));
  }
}
