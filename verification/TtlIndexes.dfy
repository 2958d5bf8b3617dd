/** The TTL index of a collection, the rules by which MongoDB accepts or refuses
    an index, and the startup code that moves the index to a new expiry. */
module TtlIndexes {
  import opened Wrappers

  /** The name MongoDB gives an index on {created_at: 1}. */
  const GENERATED := "created_at_1"

  /** One index: whether its key is {created_at: 1}, whether it has no option
      besides an expiry, and that expiry. */
  datatype Spec = Spec(onKey: bool, plain: bool, expiry: Option<int>)

  type Indexes = map<string, Spec>

  /** Could be the index this code defines. */
  predicate Ours(spec: Spec) {
    spec.onKey && spec.plain
  }

  function Wanted(ttl: int): Spec {
    Spec(true, true, Some(ttl))
  }

  /** The rest of the collection's indexes, which belong to others. */
  function Foreign(indexes: Indexes): Indexes {
    map n | n in indexes && !Ours(indexes[n]) :: indexes[n]
  }

  function Plain(indexes: Indexes): set<string> {
    set n | n in indexes && Ours(indexes[n])
  }

  /** MongoDB keeps at most one plain index on a key, and every index has a name. */
  ghost predicate WellFormed(indexes: Indexes) {
    "" !in indexes && forall a, b :: a in Plain(indexes) && b in Plain(indexes) ==> a == b
  }

  // ----- the server -----

  datatype Outcome = Accepted | OptionsConflict | NameTaken | NotFound | Denied | Transient

  /** An identical index is no change; the same key under another name or expiry
      conflicts; a name that a different index has is taken. */
  function Created(indexes: Indexes, name: string, ttl: int): (Indexes, Outcome) {
    if name in indexes then
      (indexes, if indexes[name] == Wanted(ttl) then Accepted
                else if Ours(indexes[name]) then OptionsConflict else NameTaken)
    else if Plain(indexes) != {} then (indexes, OptionsConflict)
    else (indexes[name := Wanted(ttl)], Accepted)
  }

  /** Changes the expiry of a TTL index in place; an expiry cannot be added. */
  function Modified(indexes: Indexes, name: string, ttl: int): (Indexes, Outcome) {
    if name !in indexes then (indexes, NotFound)
    else if indexes[name].expiry.None? then (indexes, Transient)
    else (indexes[name := indexes[name].(expiry := Some(ttl))], Accepted)
  }

  function Dropped(indexes: Indexes, name: string): (Indexes, Outcome) {
    if name !in indexes then (indexes, NotFound) else (indexes - {name}, Accepted)
  }

  // ----- reading the state -----

  datatype State = Absent | Matches | ExpiryChanged | NotTTL

  function Classify(spec: Spec, ttl: int): State {
    if spec.expiry.None? then NotTTL
    else if spec.expiry.value == ttl then Matches
    else ExpiryChanged
  }

  datatype Reading = Reading(state: State, name: string)

  const NOTHING := Reading(Absent, "")

  /** A single index under a custom name counts only when it already expires. */
  function FromCandidate(spec: Spec, name: string, ttl: int): Reading {
    var custom := if name == "" then GENERATED else name;
    if Classify(spec, ttl) == NotTTL then NOTHING else Reading(Classify(spec, ttl), custom)
  }

  /** The state of the TTL index: the one with the generated name, or else the only
      candidate, or else none. */
  ghost function StateOf(indexes: Indexes, ttl: int): Reading {
    if GENERATED in Plain(indexes) then Reading(Classify(indexes[GENERATED], ttl), GENERATED)
    else if exists n :: Plain(indexes) == {n} then
      var n :| Plain(indexes) == {n};
      FromCandidate(indexes[n], n, ttl)
    else NOTHING
  }

  /** `listing` lists every index once. */
  ghost predicate Lists(indexes: Indexes, listing: seq<string>) {
    && (forall n :: n in listing <==> n in indexes)
    && forall i, j :: 0 <= i < j < |listing| ==> listing[i] != listing[j]
  }

  /** Reads the state off a listing, in whatever order the server returns it. */
  method ReadState(indexes: Indexes, listing: seq<string>, ttl: int) returns (reading: Reading)
    requires Lists(indexes, listing)
    ensures reading == StateOf(indexes, ttl)
  {
    var candidates: seq<string> := [];
    for i := 0 to |listing|
      invariant forall n :: n in candidates <==> n in listing[..i] && n in Plain(indexes)
      invariant forall a, b :: 0 <= a < b < |candidates| ==> candidates[a] != candidates[b]
      invariant GENERATED !in candidates
    {
      var name := listing[i];
      assert listing[..i + 1] == listing[..i] + [name];
      if !Ours(indexes[name]) {
        continue;
      }
      if name == GENERATED {
        return Reading(Classify(indexes[name], ttl), GENERATED);
      }
      assert name !in candidates;
      candidates := candidates + [name];
    }
    assert listing[..|listing|] == listing;
    assert forall n :: n in candidates <==> n in Plain(indexes);
    if |candidates| != 1 {
      NotSingle(candidates, Plain(indexes));
      return NOTHING;
    }
    assert Plain(indexes) == {candidates[0]};
    reading := FromCandidate(indexes[candidates[0]], candidates[0], ttl);
  }

  lemma NotSingle(candidates: seq<string>, names: set<string>)
    requires forall n :: n in candidates <==> n in names
    requires forall a, b :: 0 <= a < b < |candidates| ==> candidates[a] != candidates[b]
    requires |candidates| != 1
    ensures !exists n :: names == {n}
  {
    if |candidates| > 1 {
      assert candidates[0] in names && candidates[1] in names && candidates[0] != candidates[1];
    }
  }

  /** A reading that found an index names one that is plain on the key, and either
      has the generated name or is the only one and already expires. */
  lemma ReadingMeans(indexes: Indexes, ttl: int)
    requires "" !in indexes
    ensures var r := StateOf(indexes, ttl);
            r.state == Absent || (
              && r.name in Plain(indexes) && r.state == Classify(indexes[r.name], ttl)
              && (r.name == GENERATED || (Plain(indexes) == {r.name} && indexes[r.name].expiry.Some?)))
    ensures StateOf(indexes, ttl).state == Absent ==> StateOf(indexes, ttl).name == ""
  {
  }

  /** The plain index `n` expires after `e`, and either has the generated name or is the only
      plain index. */
  ghost predicate Expires(indexes: Indexes, n: string, e: int) {
    n in indexes && indexes[n] == Spec(true, true, Some(e)) && (n == GENERATED || Plain(indexes) == {n}) &&
    (GENERATED in Plain(indexes) ==> n == GENERATED)
  }

  /** What is read, from the indexes alone: an index that expires as wanted, one that expires
      otherwise, one with the generated name that does not expire, or none of these. */
  lemma ReadingExactly(indexes: Indexes, ttl: int)
    requires "" !in indexes
    ensures forall n, e | Expires(indexes, n, e) ::
              StateOf(indexes, ttl) == Reading(if e == ttl then Matches else ExpiryChanged, n)
    ensures StateOf(indexes, ttl) == Reading(NotTTL, GENERATED) <==>
            GENERATED in indexes && indexes[GENERATED] == Spec(true, true, None)
    ensures StateOf(indexes, ttl) == Reading(Absent, "") <==>
            !(GENERATED in indexes && indexes[GENERATED] == Spec(true, true, None)) && !exists n, e :: Expires(indexes, n, e)
  {
    forall n, e | Expires(indexes, n, e)
      ensures StateOf(indexes, ttl) == Reading(if e == ttl then Matches else ExpiryChanged, n)
    {
      if GENERATED !in Plain(indexes) {
        var m :| Plain(indexes) == {m};
        assert m in {n};
      }
    }
    if StateOf(indexes, ttl).state != Absent && StateOf(indexes, ttl).state != NotTTL {
      ReadingMeans(indexes, ttl);
      var n := StateOf(indexes, ttl).name;
      assert Expires(indexes, n, indexes[n].expiry.value);
    }
    if GENERATED in Plain(indexes) && indexes[GENERATED].expiry.Some? {
      assert Expires(indexes, GENERATED, indexes[GENERATED].expiry.value);
    }
  }

  lemma DropKeepsForeign(indexes: Indexes, name: string)
    requires name !in Foreign(indexes)
    ensures Foreign(Dropped(indexes, name).0) == Foreign(indexes)
  {
  }

  lemma CreateKeepsForeign(indexes: Indexes, name: string, ttl: int)
    ensures Foreign(Created(indexes, name, ttl).0) == Foreign(indexes)
  {
  }

  lemma ModifyKeepsForeign(indexes: Indexes, name: string, ttl: int)
    requires name !in Foreign(indexes)
    ensures Foreign(Modified(indexes, name, ttl).0) == Foreign(indexes)
  {
    var after := Modified(indexes, name, ttl).0;
    assert name in indexes ==> Ours(indexes[name]);
    forall n ensures n in Foreign(after) <==> n in Foreign(indexes) {
    }
  }

  lemma CreateKeepsWellFormed(indexes: Indexes, name: string, ttl: int)
    requires WellFormed(indexes) && name != ""
    ensures WellFormed(Created(indexes, name, ttl).0)
  {
    if name !in indexes && Plain(indexes) == {} {
      assert Plain(Created(indexes, name, ttl).0) == {name};
    }
  }

  lemma OneOurs(indexes: Indexes, name: string, ttl: int)
    requires WellFormed(indexes) && name in indexes && indexes[name] == Wanted(ttl)
    ensures Plain(indexes) == {name}
  {
    assert name in Plain(indexes);
  }

  lemma DropKeepsWellFormed(indexes: Indexes, name: string)
    requires WellFormed(indexes)
    ensures WellFormed(Dropped(indexes, name).0)
    ensures name in Plain(indexes) ==> Plain(Dropped(indexes, name).0) == {}
  {
    var after := Dropped(indexes, name).0;
    forall n | n in Plain(after) ensures n in Plain(indexes) && n != name {
      assert n in after && after[n] == indexes[n] && n != name;
    }
  }

  lemma ModifyKeepsPlain(indexes: Indexes, name: string, ttl: int)
    ensures Plain(Modified(indexes, name, ttl).0) == Plain(indexes)
  {
  }

  // ----- the startup code of one replica -----

  /** What the server answers besides what its state makes it answer: whether some
      other index of the batch conflicts, and how collMod fails, if it does. */
  datatype Server = Server(otherConflict: bool, collMod: Outcome)

  // ----- what startup comes to -----

  /** The server lets the expiry of an index be changed, in place or by rebuilding it. */
  predicate Migrates(server: Server) {
    server.collMod == Accepted || server.collMod == Denied || server.collMod == NotFound
  }

  /** The plain index `n` can be brought to the wanted expiry: it has it, it has the generated
      name and does not expire, or it expires and the server lets it be changed. */
  predicate CanExpire(n: string, spec: Spec, ttl: int, server: Server) {
    spec.expiry == Some(ttl) || (spec.expiry.None? && n == GENERATED) || (spec.expiry.Some? && Migrates(server))
  }

  /** The wanted index can be brought in: there is no plain one and the generated name is free,
      or the plain one can be brought to the wanted expiry. */
  ghost predicate Bringable(indexes: Indexes, ttl: int, server: Server) {
    (Plain(indexes) == {} ==> GENERATED !in indexes) &&
    forall n :: n in Plain(indexes) ==> CanExpire(n, indexes[n], ttl, server)
  }

  /** Startup of one replica gets to bring it in: a foreign index that has the generated name
      is in the way, unless another conflict comes first. */
  ghost predicate Changes(indexes: Indexes, ttl: int, server: Server) {
    Bringable(indexes, ttl, server) && (GENERATED in Foreign(indexes) ==> server.otherConflict)
  }

  ghost predicate Succeeds(indexes: Indexes, ttl: int, server: Server) {
    Bringable(indexes, ttl, server) && GENERATED !in Foreign(indexes) && !server.otherConflict
  }

  /** `after` is `before` with the wanted index, under the name that the plain index had, or
      else the generated one. */
  ghost predicate Brought(before: Indexes, after: Indexes, ttl: int) {
    if Plain(before) == {} then after == before["created_at_1" := Wanted(ttl)]
    else forall n :: n in Plain(before) ==> after == before[n := Wanted(ttl)]
  }

  lemma OnePlain(indexes: Indexes, n: string)
    requires WellFormed(indexes) && n in Plain(indexes)
    ensures Plain(indexes) == {n} && n != ""
    ensures forall other :: other in Foreign(indexes) <==> other in indexes && other != n
  {
    forall other | other in indexes && other != n ensures other in Foreign(indexes) {
      assert other !in Plain(indexes);
    }
  }

  /** What the first batch answers when no other index conflicts. */
  lemma FirstAnswer(indexes: Indexes, ttl: int)
    requires WellFormed(indexes)
    ensures GENERATED in Foreign(indexes) ==> Created(indexes, GENERATED, ttl) == (indexes, NameTaken)
    ensures GENERATED !in Foreign(indexes) && Plain(indexes) == {} ==>
              Created(indexes, GENERATED, ttl) == (indexes[GENERATED := Wanted(ttl)], Accepted)
    ensures forall n :: n in Plain(indexes) && GENERATED !in Foreign(indexes) ==>
              Created(indexes, GENERATED, ttl) ==
              (indexes, if n == GENERATED && indexes[n].expiry == Some(ttl) then Accepted else OptionsConflict)
  {
    assert GENERATED in indexes ==> GENERATED in Foreign(indexes) || GENERATED in Plain(indexes);
    forall n | n in Plain(indexes) && GENERATED !in Foreign(indexes)
      ensures Created(indexes, GENERATED, ttl) ==
              (indexes, if n == GENERATED && indexes[n].expiry == Some(ttl) then Accepted else OptionsConflict)
    {
      OnePlain(indexes, n);
    }
  }

  /** What is read of the one plain index, or of none. */
  lemma ReadingOfOne(indexes: Indexes, ttl: int)
    requires WellFormed(indexes)
    ensures Plain(indexes) == {} ==> StateOf(indexes, ttl) == NOTHING
    ensures forall n :: n in Plain(indexes) ==>
              StateOf(indexes, ttl) ==
              match indexes[n].expiry
              case None => if n == GENERATED then Reading(NotTTL, GENERATED) else NOTHING
              case Some(e) => Reading(if e == ttl then Matches else ExpiryChanged, n)
  {
    ReadingExactly(indexes, ttl);
    forall n | n in Plain(indexes)
      ensures StateOf(indexes, ttl) ==
              match indexes[n].expiry
              case None => if n == GENERATED then Reading(NotTTL, GENERATED) else NOTHING
              case Some(e) => Reading(if e == ttl then Matches else ExpiryChanged, n)
    {
      OnePlain(indexes, n);
      if indexes[n].expiry.Some? {
        assert Expires(indexes, n, indexes[n].expiry.value);
      }
    }
  }

  class Collection {
    var indexes: Indexes

    constructor (indexes: Indexes)
      ensures this.indexes == indexes
    {
      this.indexes := indexes;
    }

    method List() returns (listing: seq<string>)
      ensures Lists(indexes, listing)
    {
      listing := [];
      var todo := indexes.Keys;
      while todo != {}
        invariant todo <= indexes.Keys
        invariant forall n :: n in listing <==> n in indexes.Keys && n !in todo
        invariant forall i, j :: 0 <= i < j < |listing| ==> listing[i] != listing[j]
      {
        var n :| n in todo;
        assert n !in listing;
        listing, todo := listing + [n], todo - {n};
      }
    }

    method CreateOne(request: string, ttl: int) returns (outcome: Outcome)
      modifies this
      ensures (indexes, outcome) == Created(old(indexes), request, ttl)
    {
      if request in indexes {
        if indexes[request] == Wanted(ttl) {
          return Accepted;
        }
        return if Ours(indexes[request]) then OptionsConflict else NameTaken;
      }
      if Plain(indexes) != {} {
        return OptionsConflict;
      }
      indexes := indexes[request := Wanted(ttl)];
      outcome := Accepted;
    }

    /** The batch stops at the first conflict; the TTL index comes last in it. */
    method CreateMany(request: string, ttl: int, server: Server) returns (outcome: Outcome)
      modifies this
      ensures (indexes, outcome) ==
              if server.otherConflict then (old(indexes), OptionsConflict)
              else Created(old(indexes), request, ttl)
    {
      if server.otherConflict {
        return OptionsConflict;
      }
      outcome := CreateOne(request, ttl);
    }

    /** Drops the index by name, if there is a name, and recreates it on its own.
        A conflict is accepted only if the index now present expires as wanted. */
    method RebuildTtlIndex(name: string, request: string, ttl: int) returns (ok: bool, renamed: string)
      requires WellFormed(indexes) && request != "" && name !in Foreign(indexes)
      modifies this
      ensures WellFormed(indexes) && Foreign(indexes) == Foreign(old(indexes)) && renamed != ""
      ensures ok ==> renamed in indexes && indexes[renamed] == Wanted(ttl)
      ensures name == request && name in Plain(old(indexes)) ==>
                ok && renamed == name && Plain(indexes) == Plain(old(indexes)) && indexes == old(indexes)[name := Wanted(ttl)]
      ensures name == "" && StateOf(old(indexes), ttl).state == Absent ==>
                (ok <==> Created(old(indexes), request, ttl).1 == Accepted) && (ok ==> renamed == request) &&
                indexes == Created(old(indexes), request, ttl).0
    {
      renamed := request;
      if name != "" {
        DropKeepsForeign(indexes, name);
        DropKeepsWellFormed(indexes, name);
        indexes := Dropped(indexes, name).0;
      }
      CreateKeepsForeign(indexes, request, ttl);
      CreateKeepsWellFormed(indexes, request, ttl);
      var outcome := CreateOne(request, ttl);
      if outcome == Accepted {
        OneOurs(indexes, request, ttl);
        return true, request;
      }
      if outcome != OptionsConflict {
        return false, request;
      }
      var listing := List();
      var reading := ReadState(indexes, listing, ttl);
      ReadingMeans(indexes, ttl);
      if reading.state != Matches {
        return false, request;
      }
      return true, reading.name;
    }

    /** Brings the index that was read to the wanted expiry, and tells its name. */
    method Migrate(reading: Reading, ttl: int, server: Server) returns (ok: bool, request: string)
      requires WellFormed(indexes) && reading == StateOf(indexes, ttl)
      modifies this
      ensures WellFormed(indexes) && Foreign(indexes) == Foreign(old(indexes))
      ensures ok <==> Bringable(old(indexes), ttl, server)
      ensures ok ==> Brought(old(indexes), indexes, ttl) && request in indexes && indexes[request] == Wanted(ttl)
      ensures !ok ==> indexes == old(indexes)
    {
      ReadingMeans(indexes, ttl);
      ReadingOfOne(indexes, ttl);
      FirstAnswer(indexes, ttl);
      ok, request := true, if reading.name == "" then GENERATED else reading.name;
      match reading.state {
        case Matches =>
          OnePlain(indexes, request);
          assert indexes == indexes[request := Wanted(ttl)];
        case Absent =>
          assert forall n :: n in Plain(indexes) ==> n != GENERATED && indexes[n].expiry.None?;
          ok, request := RebuildTtlIndex("", request, ttl);
        case NotTTL =>
          OnePlain(indexes, request);
          ok, request := RebuildTtlIndex(reading.name, request, ttl);
        case ExpiryChanged =>
          OnePlain(indexes, request);
          if server.collMod == Accepted {
            ModifyKeepsForeign(indexes, reading.name, ttl);
            ModifyKeepsPlain(indexes, reading.name, ttl);
            indexes := Modified(indexes, reading.name, ttl).0;
          } else if server.collMod == Denied || server.collMod == NotFound {
            ok, request := RebuildTtlIndex(reading.name, request, ttl);
          } else {
            ok := false;
          }
      }
    }

    /** The startup code of one replica that no other interrupts. */
    method EnsureIndexes(ttl: int, server: Server) returns (ok: bool)
      requires WellFormed(indexes)
      modifies this
      // Nobody else's index is touched, and success means the expiry is in force.
      ensures WellFormed(indexes) && Foreign(indexes) == Foreign(old(indexes))
      ensures ok ==> exists n :: n in indexes && indexes[n] == Wanted(ttl)
      // It succeeds exactly when it can, and then has brought in the wanted index and changed
      // nothing else; so it has, behind another conflict, whenever it can.
      ensures ok <==> Succeeds(old(indexes), ttl, server)
      ensures if Changes(old(indexes), ttl, server) then Brought(old(indexes), indexes, ttl) else indexes == old(indexes)
    {
      FirstAnswer(indexes, ttl);
      CreateKeepsForeign(indexes, GENERATED, ttl);
      CreateKeepsWellFormed(indexes, GENERATED, ttl);
      ghost var was := indexes;
      var outcome := CreateMany(GENERATED, ttl, server);
      if outcome == Accepted {
        assert indexes[GENERATED] == Wanted(ttl);
        AcceptedAtOnce(was, ttl, server);
        return true;
      }
      if outcome != OptionsConflict {
        return false;
      }
      var listing := List();
      var reading := ReadState(indexes, listing, ttl);
      var request;
      ok, request := Migrate(reading, ttl, server);
      if !ok {
        return;
      }
      CreateKeepsForeign(indexes, request, ttl);
      CreateKeepsWellFormed(indexes, request, ttl);
      outcome := CreateMany(request, ttl, server);
      ok := outcome == Accepted;
    }
  }

  lemma AcceptedAtOnce(indexes: Indexes, ttl: int, server: Server)
    requires WellFormed(indexes) && !server.otherConflict && Created(indexes, GENERATED, ttl).1 == Accepted
    ensures Succeeds(indexes, ttl, server) && Changes(indexes, ttl, server)
    ensures Brought(indexes, Created(indexes, GENERATED, ttl).0, ttl)
  {
    FirstAnswer(indexes, ttl);
    forall n | n in Plain(indexes) ensures n == GENERATED && indexes == indexes[n := Wanted(ttl)] && indexes[n].expiry == Some(ttl) {
      OnePlain(indexes, n);
    }
  }
}
