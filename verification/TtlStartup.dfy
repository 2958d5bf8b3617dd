/** A replica that migrates alone, call by call, does what the startup code of one replica does
    as a whole. */
module TtlStartup {
  import opened TtlIndexes
  import opened TtlMigration
  import opened Wrappers

  /** How the server answers a replica at a stage, with no other fault than that of collMod. */
  function Answer(server: Server, stage: Stage): Call {
    Call(server.otherConflict, if stage.Modifying? && server.collMod != Accepted then Some(server.collMod) else None)
  }

  ghost function Course(indexes: Indexes, replica: Replica, ttl: int, server: Server, steps: nat): (Indexes, Replica)
    decreases steps
  {
    if steps == 0 then (indexes, replica)
    else
      var (after, next) := Advance(indexes, replica, ttl, Answer(server, replica.stage));
      Course(after, next, ttl, server, steps - 1)
  }

  lemma {:induction false} Finished(indexes: Indexes, replica: Replica, ttl: int, server: Server, steps: nat)
    requires replica.stage.Succeeded? || replica.stage.Stopped?
    ensures Course(indexes, replica, ttl, server, steps) == (indexes, replica)
    decreases steps
  {
    if steps > 0 {
      Finished(indexes, replica, ttl, server, steps - 1);
    }
  }

  lemma OneStep(indexes: Indexes, replica: Replica, ttl: int, server: Server, steps: nat)
    requires steps > 0
    ensures var (after, next) := Advance(indexes, replica, ttl, Answer(server, replica.stage));
            Course(indexes, replica, ttl, server, steps) == Course(after, next, ttl, server, steps - 1)
  {
  }

  /** What a replica comes to that retries with the index there, as wanted. */
  lemma RetryingAlone(indexes: Indexes, request: string, ttl: int, server: Server, steps: nat)
    requires steps > 0 && request in indexes && indexes[request] == Wanted(ttl)
    ensures Course(indexes, Replica(Retrying, request), ttl, server, steps) ==
            (indexes, Replica(if server.otherConflict then Stopped else Succeeded, request))
  {
    var end := Replica(if server.otherConflict then Stopped else Succeeded, request);
    OneStep(indexes, Replica(Retrying, request), ttl, server, steps);
    Finished(indexes, end, ttl, server, steps - 1);
  }

  lemma DroppingAlone(indexes: Indexes, n: string, ttl: int, server: Server, steps: nat)
    requires steps >= 3 && WellFormed(indexes) && n in Plain(indexes)
    ensures Course(indexes, Replica(Dropping(n), n), ttl, server, steps) ==
            (indexes[n := Wanted(ttl)], Replica(if server.otherConflict then Stopped else Succeeded, n))
  {
    OneStep(indexes, Replica(Dropping(n), n), ttl, server, steps);
    DropKeepsWellFormed(indexes, n);
    var dropped := indexes - {n};
    OneStep(dropped, Replica(Recreating(true), n), ttl, server, steps - 1);
    assert dropped[n := Wanted(ttl)] == indexes[n := Wanted(ttl)];
    RetryingAlone(indexes[n := Wanted(ttl)], n, ttl, server, steps - 2);
  }

  /** What a replica comes to that has read the state. */
  lemma MigratingAlone(indexes: Indexes, ttl: int, server: Server, steps: nat)
    requires steps >= 5 && WellFormed(indexes) && server.collMod != NotFound
    ensures var (after, replica) := Course(indexes, Replica(ReadingState, GENERATED), ttl, server, steps);
            (replica.stage.Succeeded? <==> Bringable(indexes, ttl, server) && !server.otherConflict) &&
            if Bringable(indexes, ttl, server) then Brought(indexes, after, ttl) else after == indexes
  {
    ReadingOfOne(indexes, ttl);
    OneStep(indexes, Replica(ReadingState, GENERATED), ttl, server, steps);
    var reading := StateOf(indexes, ttl);
    if Plain(indexes) == {} {
      RecreatingAlone(indexes, ttl, server, steps - 1);
    } else {
      var n :| n in Plain(indexes);
      OnePlain(indexes, n);
      match reading.state
      case Matches =>
        assert indexes == indexes[n := Wanted(ttl)];
        RetryingAlone(indexes, n, ttl, server, steps - 1);
      case NotTTL => DroppingAlone(indexes, n, ttl, server, steps - 1);
      case ExpiryChanged => ModifyingAlone(indexes, n, ttl, server, steps - 1);
      case Absent => RecreatingAlone(indexes, ttl, server, steps - 1);
    }
  }

  lemma ModifyingAlone(indexes: Indexes, n: string, ttl: int, server: Server, steps: nat)
    requires steps >= 4 && WellFormed(indexes) && n in Plain(indexes) && indexes[n].expiry.Some? && server.collMod != NotFound
    ensures Course(indexes, Replica(Modifying(n), n), ttl, server, steps) ==
            if Migrates(server)
            then (indexes[n := Wanted(ttl)], Replica(if server.otherConflict then Stopped else Succeeded, n))
            else (indexes, Replica(Stopped, n))
  {
    OneStep(indexes, Replica(Modifying(n), n), ttl, server, steps);
    if server.collMod == Accepted {
      assert indexes[n].(expiry := Some(ttl)) == Wanted(ttl);
      RetryingAlone(indexes[n := Wanted(ttl)], n, ttl, server, steps - 1);
    } else if server.collMod == Denied {
      DroppingAlone(indexes, n, ttl, server, steps - 1);
    } else {
      Finished(indexes, Replica(Stopped, n), ttl, server, steps - 1);
    }
  }

  /** Nothing was read: the index is created under the generated name, or it stays away. */
  lemma RecreatingAlone(indexes: Indexes, ttl: int, server: Server, steps: nat)
    requires steps >= 3 && WellFormed(indexes) && StateOf(indexes, ttl) == NOTHING
    ensures var (after, replica) := Course(indexes, Replica(Recreating(false), GENERATED), ttl, server, steps);
            if GENERATED !in indexes && Plain(indexes) == {}
            then after == indexes[GENERATED := Wanted(ttl)] && (replica.stage.Succeeded? <==> !server.otherConflict)
            else after == indexes && replica.stage.Stopped?
  {
    OneStep(indexes, Replica(Recreating(false), GENERATED), ttl, server, steps);
    ReadingOfOne(indexes, ttl);
    var (after, outcome) := Created(indexes, GENERATED, ttl);
    if outcome == Accepted {
      OnlyNew(indexes, ttl);
      RetryingAlone(after, GENERATED, ttl, server, steps - 1);
    } else if outcome == OptionsConflict {
      OneStep(indexes, Replica(ReadingBack, GENERATED), ttl, server, steps - 1);
      Finished(indexes, Replica(Stopped, GENERATED), ttl, server, steps - 2);
    } else {
      Finished(indexes, Replica(Stopped, GENERATED), ttl, server, steps - 1);
    }
  }

  lemma OnlyNew(indexes: Indexes, ttl: int)
    requires WellFormed(indexes) && StateOf(indexes, ttl) == NOTHING && Created(indexes, GENERATED, ttl).1 == Accepted
    ensures GENERATED !in indexes && Plain(indexes) == {}
  {
    ReadingOfOne(indexes, ttl);
    if GENERATED in indexes {
      OneOurs(indexes, GENERATED, ttl);
    }
  }

  /** One replica alone does what the startup code of one replica does: it succeeds exactly
      when that does, and leaves the same indexes. */
  lemma AloneExactly(indexes: Indexes, ttl: int, server: Server)
    requires WellFormed(indexes) && server.collMod != NotFound
    ensures var (after, replica) := Course(indexes, Replica(Begin, GENERATED), ttl, server, 6);
            (replica.stage.Succeeded? <==> Succeeds(indexes, ttl, server)) &&
            if Changes(indexes, ttl, server) then Brought(indexes, after, ttl) else after == indexes
  {
    FirstAnswer(indexes, ttl);
    OneStep(indexes, Replica(Begin, GENERATED), ttl, server, 6);
    var (after, outcome) := Many(indexes, GENERATED, ttl, Answer(server, Begin));
    if outcome == Accepted {
      AcceptedAtOnce(indexes, ttl, server);
      Finished(after, Replica(Succeeded, GENERATED), ttl, server, 5);
    } else if outcome == OptionsConflict {
      MigratingAlone(indexes, ttl, server, 5);
    } else {
      Finished(indexes, Replica(Stopped, GENERATED), ttl, server, 5);
    }
  }
}
