/** Many replicas start at once, want the same expiry and migrate the one shared
    TTL index. Every server call is a step, and the steps interleave freely. */
module TtlMigration {
  import opened TtlIndexes
  import opened Wrappers

  /** Where a replica is in its startup code. `Recreating` remembers whether this
      replica's own drop removed an index. */
  datatype Stage =
    | Begin
    | ReadingState
    | Modifying(name: string)
    | Dropping(name: string)
    | Recreating(dropped: bool)
    | ReadingBack
    | Retrying
    | Succeeded
    | Stopped

  /** `request` is the name under which the replica's batch asks for the index. */
  datatype Replica = Replica(stage: Stage, request: string)

  datatype System = System(indexes: Indexes, replicas: map<nat, Replica>)

  /** What the environment adds to a call: a conflict on another index of the
      batch, or a failure of the call itself. */
  datatype Call = Call(otherConflict: bool, fault: Option<Outcome>)

  function At(s: System, r: nat): Replica {
    if r in s.replicas then s.replicas[r] else Replica(Begin, GENERATED)
  }

  /** A replica that has dropped the index is not denied its recreation. */
  predicate Enabled(s: System, r: nat, call: Call) {
    At(s, r).stage == Recreating(true) ==> call.fault.None?
  }

  function Many(indexes: Indexes, request: string, ttl: int, call: Call): (Indexes, Outcome) {
    if call.otherConflict then (indexes, OptionsConflict) else Created(indexes, request, ttl)
  }

  ghost function AfterReading(replica: Replica, reading: Reading): Replica {
    var request := if reading.name == "" then replica.request else reading.name;
    match reading.state
    case Matches => Replica(Retrying, request)
    case Absent => Replica(Recreating(false), request)
    case NotTTL => Replica(Dropping(reading.name), request)
    case ExpiryChanged => Replica(Modifying(reading.name), request)
  }

  /** One call of one replica: the indexes and where the replica is afterwards. */
  ghost function Advance(indexes: Indexes, replica: Replica, ttl: int, call: Call): (Indexes, Replica) {
    var request := replica.request;
    var stopped := (indexes, Replica(Stopped, request));
    match replica.stage
    case Begin =>
      if call.fault.Some? then stopped
      else
        var (after, outcome) := Many(indexes, request, ttl, call);
        (after, Replica(if outcome == Accepted then Succeeded
                        else if outcome == OptionsConflict then ReadingState else Stopped, request))
    case ReadingState =>
      if call.fault.Some? then stopped else (indexes, AfterReading(replica, StateOf(indexes, ttl)))
    case Modifying(name) =>
      if call.fault == Some(Denied) then (indexes, Replica(Dropping(name), request))
      else if call.fault.Some? then stopped
      else
        var (after, outcome) := Modified(indexes, name, ttl);
        (after, Replica(if outcome == Accepted then Retrying
                        else if outcome == NotFound then Dropping(name) else Stopped, request))
    case Dropping(name) =>
      if call.fault.Some? then stopped
      else (Dropped(indexes, name).0, Replica(Recreating(name in indexes), request))
    case Recreating(_) =>
      if call.fault.Some? then stopped
      else
        var (after, outcome) := Created(indexes, request, ttl);
        (after, Replica(if outcome == Accepted then Retrying
                        else if outcome == OptionsConflict then ReadingBack else Stopped, request))
    case ReadingBack =>
      var reading := StateOf(indexes, ttl);
      if call.fault.Some? || reading.state != Matches then stopped else (indexes, Replica(Retrying, reading.name))
    case Retrying =>
      if call.fault.Some? then stopped
      else
        var (after, outcome) := Many(indexes, request, ttl, call);
        (after, Replica(if outcome == Accepted then Succeeded else Stopped, request))
    case Succeeded => (indexes, replica)
    case Stopped => (indexes, replica)
  }

  ghost function Next(s: System, r: nat, ttl: int, call: Call): System {
    var (indexes, replica) := Advance(s.indexes, At(s, r), ttl, call);
    System(indexes, s.replicas[r := replica])
  }

  ghost predicate Steps(s: System, s': System, ttl: int) {
    exists r, call :: Enabled(s, r, call) && s' == Next(s, r, ttl, call)
  }

  ghost predicate IsRun(states: seq<System>, ttl: int) {
    |states| > 0 && forall i :: 0 <= i < |states| - 1 ==> Steps(states[i], states[i + 1], ttl)
  }

  ghost predicate Initial(s: System) {
    WellFormed(s.indexes) && forall r :: At(s, r) == Replica(Begin, GENERATED)
  }

  // ----- what holds throughout -----

  /** The generated name, or the name of an index that was there at the start and
      expired already. */
  ghost predicate Known(before: Indexes, name: string) {
    name == GENERATED || (name in Plain(before) && before[name].expiry.Some?)
  }

  /** A replica only names indexes that are ours, and drops what it then requests. */
  ghost predicate Honest(before: Indexes, replica: Replica) {
    && Known(before, replica.request)
    && (replica.stage.Modifying? || replica.stage.Dropping? ==>
          replica.stage.name == replica.request && replica.request !in Foreign(before))
    && (replica.stage == Recreating(true) ==> replica.request !in Foreign(before))
  }

  ghost predicate Sound(before: Indexes, indexes: Indexes) {
    && WellFormed(indexes)
    && Foreign(indexes) == Foreign(before)
    && (forall n :: n in Plain(indexes) ==> n == GENERATED || n in Plain(before))
    && (forall n :: n in Plain(before) && !Known(before, n) ==> n in Plain(indexes) && indexes[n] == before[n])
  }

  /** Every index of ours expires. */
  ghost predicate AllExpire(indexes: Indexes) {
    forall n :: n in Plain(indexes) ==> indexes[n].expiry.Some?
  }

  /** Every index of ours expires as wanted. */
  ghost predicate Converged(indexes: Indexes, ttl: int) {
    forall n :: n in Plain(indexes) ==> indexes[n] == Wanted(ttl)
  }

  /** The index is there, or a replica stands between its drop and its recreation. */
  ghost predicate Protected(s: System) {
    Plain(s.indexes) != {} || exists r :: At(s, r).stage == Recreating(true)
  }

  ghost predicate SomeoneSucceeded(s: System) {
    exists r :: At(s, r).stage.Succeeded?
  }

  ghost predicate Inv(s0: System, s: System, ttl: int) {
    && Sound(s0.indexes, s.indexes)
    && (forall r :: Honest(s0.indexes, At(s, r)))
    && (Protected(s0) ==> Protected(s))
    && (AllExpire(s0.indexes) ==> AllExpire(s.indexes))
    && (Converged(s0.indexes, ttl) || SomeoneSucceeded(s) ==> Converged(s.indexes, ttl))
  }

  // ----- one call on the indexes -----

  lemma PlainOrForeign(before: Indexes, indexes: Indexes, name: string)
    requires Foreign(indexes) == Foreign(before) && name !in Foreign(before) && name in indexes
    ensures name in Plain(indexes)
  {
  }

  lemma CreateSound(before: Indexes, indexes: Indexes, name: string, ttl: int)
    requires Sound(before, indexes) && Known(before, name) && name != ""
    ensures Sound(before, Created(indexes, name, ttl).0)
    ensures AllExpire(indexes) ==> AllExpire(Created(indexes, name, ttl).0)
    ensures Converged(indexes, ttl) ==> Converged(Created(indexes, name, ttl).0, ttl)
    ensures Created(indexes, name, ttl).1 == Accepted ==>
              Converged(Created(indexes, name, ttl).0, ttl) && Plain(Created(indexes, name, ttl).0) != {}
    ensures Created(indexes, name, ttl).1 == OptionsConflict ==> Plain(indexes) != {}
    ensures Plain(indexes) != {} ==> Plain(Created(indexes, name, ttl).0) != {}
  {
    CreateKeepsForeign(indexes, name, ttl);
    CreateKeepsWellFormed(indexes, name, ttl);
    var after := Created(indexes, name, ttl).0;
    if after != indexes {
      assert forall n :: n in Plain(after) ==> n == name;
    }
    if Created(indexes, name, ttl).1 == Accepted {
      assert name in Plain(after);
    }
    if name in indexes && Ours(indexes[name]) {
      assert name in Plain(indexes);
    }
  }

  lemma ModifySound(before: Indexes, indexes: Indexes, name: string, ttl: int)
    requires Sound(before, indexes) && Known(before, name) && name !in Foreign(before)
    ensures Sound(before, Modified(indexes, name, ttl).0)
    ensures AllExpire(indexes) ==> AllExpire(Modified(indexes, name, ttl).0)
    ensures Converged(indexes, ttl) ==> Converged(Modified(indexes, name, ttl).0, ttl)
    ensures Plain(Modified(indexes, name, ttl).0) == Plain(indexes)
  {
    ModifyKeepsForeign(indexes, name, ttl);
    ModifyKeepsPlain(indexes, name, ttl);
  }

  lemma DropSound(before: Indexes, indexes: Indexes, name: string)
    requires Sound(before, indexes) && Known(before, name) && name !in Foreign(before)
    ensures Sound(before, Dropped(indexes, name).0)
    ensures AllExpire(indexes) ==> AllExpire(Dropped(indexes, name).0)
    ensures forall ttl :: Converged(indexes, ttl) ==> Converged(Dropped(indexes, name).0, ttl)
    ensures name !in indexes ==> Dropped(indexes, name).0 == indexes
  {
    DropKeepsForeign(indexes, name);
    DropKeepsWellFormed(indexes, name);
    forall n | n in Plain(Dropped(indexes, name).0) ensures n in Plain(indexes) {
    }
  }

  lemma ReadHonest(before: Indexes, indexes: Indexes, ttl: int, replica: Replica)
    requires Sound(before, indexes) && Honest(before, replica)
    ensures Honest(before, AfterReading(replica, StateOf(indexes, ttl)))
    ensures StateOf(indexes, ttl).state == Matches ==> Known(before, StateOf(indexes, ttl).name)
  {
    ReadingMeans(indexes, ttl);
    var reading := StateOf(indexes, ttl);
    if reading.state != Absent {
      assert reading.name in Plain(indexes) && reading.name !in Foreign(indexes);
    }
  }

  lemma KnownNamed(before: Indexes, name: string)
    requires WellFormed(before) && Known(before, name)
    ensures name != ""
  {
    assert GENERATED != "";
  }

  // ----- one call of one replica -----

  ghost predicate AdvanceKeeps(before: Indexes, indexes: Indexes, replica: Replica, ttl: int, call: Call) {
    var (indexes', replica') := Advance(indexes, replica, ttl, call);
    && Sound(before, indexes') && Honest(before, replica')
    && (AllExpire(indexes) ==> AllExpire(indexes'))
    && (Converged(indexes, ttl) || (replica'.stage.Succeeded? && !replica.stage.Succeeded?) ==> Converged(indexes', ttl))
    && (Plain(indexes) != {} || replica.stage == Recreating(true) ==>
          Plain(indexes') != {} || replica'.stage == Recreating(true))
  }

  lemma ManySound(before: Indexes, indexes: Indexes, request: string, ttl: int, call: Call)
    requires Sound(before, indexes) && Known(before, request) && WellFormed(before)
    ensures var (after, outcome) := Many(indexes, request, ttl, call);
            && Sound(before, after)
            && (AllExpire(indexes) ==> AllExpire(after))
            && (Converged(indexes, ttl) || outcome == Accepted ==> Converged(after, ttl))
            && (Plain(indexes) != {} ==> Plain(after) != {})
  {
    KnownNamed(before, request);
    CreateSound(before, indexes, request, ttl);
  }

  lemma BatchKeeps(before: Indexes, indexes: Indexes, replica: Replica, ttl: int, call: Call)
    requires Sound(before, indexes) && Honest(before, replica) && WellFormed(before)
    requires replica.stage.Begin? || replica.stage.Retrying?
    ensures AdvanceKeeps(before, indexes, replica, ttl, call)
  {
    ManySound(before, indexes, replica.request, ttl, call);
  }

  lemma ModifyingKeeps(before: Indexes, indexes: Indexes, replica: Replica, ttl: int, call: Call)
    requires Sound(before, indexes) && Honest(before, replica) && replica.stage.Modifying?
    ensures AdvanceKeeps(before, indexes, replica, ttl, call)
  {
    ModifySound(before, indexes, replica.request, ttl);
  }

  lemma DroppingKeeps(before: Indexes, indexes: Indexes, replica: Replica, ttl: int, call: Call)
    requires Sound(before, indexes) && Honest(before, replica) && replica.stage.Dropping?
    ensures AdvanceKeeps(before, indexes, replica, ttl, call)
  {
    DropSound(before, indexes, replica.request);
  }

  lemma RecreatingKeeps(before: Indexes, indexes: Indexes, replica: Replica, ttl: int, call: Call)
    requires Sound(before, indexes) && Honest(before, replica) && WellFormed(before) && replica.stage.Recreating?
    requires replica.stage == Recreating(true) ==> call.fault.None?
    ensures AdvanceKeeps(before, indexes, replica, ttl, call)
  {
    var name := replica.request;
    KnownNamed(before, name);
    CreateSound(before, indexes, name, ttl);
    if replica.stage == Recreating(true) && name in indexes {
      PlainOrForeign(before, indexes, name);
    }
  }

  lemma ReadsKeep(before: Indexes, indexes: Indexes, replica: Replica, ttl: int, call: Call)
    requires Sound(before, indexes) && Honest(before, replica) && WellFormed(before)
    requires replica.stage.ReadingState? || replica.stage.ReadingBack? || replica.stage.Succeeded? || replica.stage.Stopped?
    ensures AdvanceKeeps(before, indexes, replica, ttl, call)
  {
    ReadHonest(before, indexes, ttl, replica);
  }

  lemma StepKeeps(s0: System, s: System, r: nat, ttl: int, call: Call)
    requires WellFormed(s0.indexes) && Inv(s0, s, ttl) && Enabled(s, r, call)
    ensures Inv(s0, Next(s, r, ttl, call), ttl)
  {
    var replica := At(s, r);
    assert Honest(s0.indexes, replica);
    if replica.stage.Begin? || replica.stage.Retrying? {
      BatchKeeps(s0.indexes, s.indexes, replica, ttl, call);
    } else if replica.stage.Modifying? {
      ModifyingKeeps(s0.indexes, s.indexes, replica, ttl, call);
    } else if replica.stage.Dropping? {
      DroppingKeeps(s0.indexes, s.indexes, replica, ttl, call);
    } else if replica.stage.Recreating? {
      RecreatingKeeps(s0.indexes, s.indexes, replica, ttl, call);
    } else {
      ReadsKeep(s0.indexes, s.indexes, replica, ttl, call);
    }
    NextKeeps(s0, s, r, ttl, call);
  }

  lemma NextKeeps(s0: System, s: System, r: nat, ttl: int, call: Call)
    requires Inv(s0, s, ttl) && AdvanceKeeps(s0.indexes, s.indexes, At(s, r), ttl, call)
    ensures Inv(s0, Next(s, r, ttl, call), ttl)
  {
    var s' := Next(s, r, ttl, call);
    forall q ensures q != r ==> At(s', q) == At(s, q) {
    }
    assert At(s', r) == Advance(s.indexes, At(s, r), ttl, call).1;
    if Protected(s) {
      if Plain(s.indexes) == {} {
        var q :| At(s, q).stage == Recreating(true);
        assert q != r ==> At(s', q).stage == Recreating(true);
      }
      assert Protected(s');
    }
    if SomeoneSucceeded(s') {
      var q :| At(s', q).stage.Succeeded?;
      assert q != r ==> At(s, q).stage.Succeeded?;
    }
  }

  // ----- runs -----

  lemma RunPrefix(states: seq<System>, ttl: int)
    requires IsRun(states, ttl) && |states| > 1
    ensures IsRun(states[..|states| - 1], ttl)
  {
    var init := states[..|states| - 1];
    forall i | 0 <= i < |init| - 1 ensures Steps(init[i], init[i + 1], ttl) {
      assert Steps(states[i], states[i + 1], ttl);
    }
  }

  lemma StepsKeep(s0: System, s: System, s': System, ttl: int)
    requires WellFormed(s0.indexes) && Inv(s0, s, ttl) && Steps(s, s', ttl)
    ensures Inv(s0, s', ttl)
  {
    var r, call :| Enabled(s, r, call) && s' == Next(s, r, ttl, call);
    StepKeeps(s0, s, r, ttl, call);
  }

  lemma {:induction false} RunKeeps(states: seq<System>, ttl: int)
    requires IsRun(states, ttl) && Initial(states[0])
    ensures Inv(states[0], states[|states| - 1], ttl)
    decreases |states|
  {
    var n := |states| - 1;
    if n > 0 {
      RunPrefix(states, ttl);
      RunKeeps(states[..n], ttl);
      assert Steps(states[n - 1], states[n - 1 + 1], ttl);
      StepsKeep(states[0], states[n - 1], states[n], ttl);
    }
  }

  /** In every reachable state, if the collection expired documents at the start:
      it still does, or some replica stands between its drop and its recreation.
      Once a replica has succeeded, whatever index there is has the new expiry. */
  lemma NeverSilentlyUnexpired(states: seq<System>, ttl: int)
    requires IsRun(states, ttl) && Initial(states[0])
    requires Plain(states[0].indexes) != {} && AllExpire(states[0].indexes)
    ensures var s := states[|states| - 1];
            && ((exists n :: n in Plain(s.indexes) && s.indexes[n].expiry.Some?) ||
                exists r :: At(s, r).stage == Recreating(true))
            && (SomeoneSucceeded(s) ==> Converged(s.indexes, ttl))
  {
    RunKeeps(states, ttl);
    var s := states[|states| - 1];
    assert Protected(states[0]);
    if Plain(s.indexes) != {} {
      var n :| n in Plain(s.indexes);
      assert s.indexes[n].expiry.Some?;
    }
  }

  /** No index of anybody else is dropped or modified, nor one on our key whose name
      is neither the generated one nor that of an index that already expired. */
  lemma OthersUntouched(states: seq<System>, ttl: int, name: string)
    requires IsRun(states, ttl) && Initial(states[0])
    requires name in states[0].indexes
    requires Ours(states[0].indexes[name]) ==> name != GENERATED && states[0].indexes[name].expiry.None?
    ensures var s := states[|states| - 1];
            name in s.indexes && s.indexes[name] == states[0].indexes[name]
  {
    RunKeeps(states, ttl);
    var s0, s := states[0], states[|states| - 1];
    if Ours(s0.indexes[name]) {
      assert name in Plain(s0.indexes) && !Known(s0.indexes, name);
    } else {
      assert name in Foreign(s0.indexes) && name in Foreign(s.indexes);
    }
  }

  /** An index that a call removes or changes is one of ours, and the replica had
      read its name; a call that fails changes nothing. */
  lemma ChangesAreDeliberate(s0: System, s: System, r: nat, ttl: int, call: Call, name: string)
    requires WellFormed(s0.indexes) && Inv(s0, s, ttl) && name in s.indexes
    requires var s' := Next(s, r, ttl, call); name !in s'.indexes || s'.indexes[name] != s.indexes[name]
    ensures call.fault.None? && name in Plain(s.indexes) && Known(s0.indexes, name)
    ensures At(s, r).stage == Dropping(name) || At(s, r).stage == Modifying(name)
  {
    assert Honest(s0.indexes, At(s, r));
    PlainOrForeign(s0.indexes, s.indexes, At(s, r).request);
  }

  // ----- the assumption on recreation is needed -----

  lemma StoppedUnexpires(s: System, r: nat, ttl: int, call: Call)
    requires Plain(s.indexes) == {} && At(s, r).stage == Recreating(true) && call.fault.Some?
    requires forall q :: q != r ==> At(s, q).stage != Recreating(true)
    ensures !Protected(Next(s, r, ttl, call))
  {
    var s' := Next(s, r, ttl, call);
    assert At(s', r) == Advance(s.indexes, At(s, r), ttl, call).1;
    assert At(s', r).stage.Stopped?;
    forall q | q != r ensures At(s', q) == At(s, q) {
    }
  }

  const QUIET := Call(false, None)

  /** Only our index, with the generated name and an older expiry. */
  function OldIndex(before: int): Indexes {
    map[GENERATED := Wanted(before)]
  }

  function Alone(indexes: Indexes, stage: Stage): System {
    System(indexes, map[0 := Replica(stage, GENERATED)])
  }

  lemma AloneSteps(indexes: Indexes, stage: Stage, ttl: int, call: Call)
    requires stage == Recreating(true) ==> call.fault.None?
    ensures var (after, replica) := Advance(indexes, Replica(stage, GENERATED), ttl, call);
            replica.request == GENERATED ==> Steps(Alone(indexes, stage), Alone(after, replica.stage), ttl)
  {
    var s := Alone(indexes, stage);
    var (after, replica) := Advance(indexes, Replica(stage, GENERATED), ttl, call);
    assert Enabled(s, 0, call);
    assert s.replicas[0 := replica] == map[0 := replica];
    if replica.request == GENERATED {
      assert Next(s, 0, ttl, call) == Alone(after, replica.stage);
    }
  }

  /** The steps of a lone replica that is denied the change of expiry, up to its drop. */
  function DeniedRun(before: int): seq<System> {
    [Alone(OldIndex(before), Begin), Alone(OldIndex(before), ReadingState), Alone(OldIndex(before), Modifying(GENERATED)),
     Alone(OldIndex(before), Dropping(GENERATED)), Alone(map[], Recreating(true))]
  }

  lemma DeniedRunIsRun(before: int, ttl: int)
    requires before != ttl
    ensures IsRun(DeniedRun(before), ttl) && Initial(DeniedRun(before)[0])
  {
    var was, states := OldIndex(before), DeniedRun(before);
    assert GENERATED in Plain(was) && StateOf(was, ttl) == Reading(ExpiryChanged, GENERATED);
    AloneSteps(was, Begin, ttl, QUIET);
    AloneSteps(was, ReadingState, ttl, QUIET);
    AloneSteps(was, Modifying(GENERATED), ttl, Call(false, Some(Denied)));
    AloneSteps(was, Dropping(GENERATED), ttl, QUIET);
    assert was - {GENERATED} == map[];
    forall i | 0 <= i < |states| - 1 ensures Steps(states[i], states[i + 1], ttl) {
      assert i == 0 || i == 1 || i == 2 || i == 3;
    }
  }

  /** A reachable state from which one failed recreation leaves a collection that expired
      its documents without expiry, for every pair of different expiries. */
  lemma FailedRecreationUnexpires(before: int, ttl: int, fault: Outcome) returns (states: seq<System>)
    requires before != ttl
    ensures IsRun(states, ttl) && Initial(states[0]) && Plain(states[0].indexes) != {} && AllExpire(states[0].indexes)
    ensures At(states[|states| - 1], 0).stage == Recreating(true)
    ensures !Protected(Next(states[|states| - 1], 0, ttl, Call(false, Some(fault))))
  {
    states := DeniedRun(before);
    DeniedRunIsRun(before, ttl);
    assert GENERATED in Plain(states[0].indexes);
    StoppedUnexpires(states[|states| - 1], 0, ttl, Call(false, Some(fault)));
  }
}
