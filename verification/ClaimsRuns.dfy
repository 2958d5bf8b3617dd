/** Whole runs of the pipeline over mutable maps. No map that existed before is written, pins
    go back in as new copies, and every run gives what the run on documents gives. */
module ClaimsRuns {
  import opened ClaimMerging
  import opened ClaimsClearing
  import opened ClaimsCommon
  import opened ClaimsHeap
  import opened ClaimsInPlace
  import opened ClaimsPipeline
  import opened ClaimsReach
  import opened ClaimsSharing
  import opened ClaimsSteps
  import opened ClaimValues
  import opened SharedClaims
  import opened Wrappers
  import D = Derivations

  // ----- pins -----

  /** `pinned` are cells that hold `pins`. */
  ghost predicate Pins(pinned: Entries, pins: Claims, from: Labels) {
    pinned.Keys == pins.Keys && forall name :: name in pinned ==> Shows(pinned[name], pins[name], from)
  }

  /** The working claims hold every pin, as a copy made of the maps of `made`, and of
      `below` beneath arrays. */
  ghost predicate PinsCopied(entries: Entries, pins: Claims, made: Labels, below: Labels)
    reads made.Keys, below.Keys
  {
    Live(made, below) && Still(below) && made.Keys !! below.Keys &&
    forall name :: name in pins ==> name in entries && At(entries[name], pins[name], [name], made, below)
  }

  /** The pins go back in as new copies, never as themselves. */
  method Restore(working: Table, pinned: Entries, ghost pins: Claims, ghost from: Labels)
    returns (copies: Entries, ghost made: Labels, ghost below: Labels)
    requires Still(from) && working !in from && Pins(pinned, pins, from)
    modifies working
    ensures fresh(made.Keys) && fresh(below.Keys) && copies.Keys == pins.Keys
    ensures working.entries == old(working.entries) + copies && Copying(copies, pins, true, [], made, below)
  {
    copies, made, below := ClonePins(pinned, pins, from);
    working.entries := working.entries + copies;
  }

  method ClonePins(pinned: Entries, ghost pins: Claims, ghost from: Labels)
    returns (copies: Entries, ghost made: Labels, ghost below: Labels)
    requires Still(from) && Pins(pinned, pins, from)
    ensures fresh(made.Keys) && fresh(below.Keys) && copies.Keys == pins.Keys
    ensures Copying(copies, pins, true, [], made, below)
  {
    copies, made, below := map[], map[], map[];
    var todo := pinned.Keys;
    while todo != {}
      invariant todo <= pinned.Keys && copies.Keys == pinned.Keys - todo
      invariant fresh(made.Keys) && fresh(below.Keys) && Copying(copies, pins, true, [], made, below)
      decreases todo
    {
      var name :| name in todo;
      var c;
      ghost var l, s;
      c, l, s := CloneValue(pinned[name], pins[name], from, true, [] + [name]);
      CopyingJoins(copies, pins, true, [], made, below, name, c, l, s);
      copies, made, below := copies[name := c], made + l, below + s;
      todo := todo - {name};
    }
  }

  lemma CopiesArePins(entries: Entries, copies: Entries, pins: Claims, made: Labels, below: Labels)
    requires Copying(copies, pins, true, [], made, below) && copies.Keys == pins.Keys
    ensures PinsCopied(entries + copies, pins, made, below)
  {
    forall name | name in pins ensures At((entries + copies)[name], pins[name], [name], made, below) {
      assert [] + [name] == [name];
    }
  }

  ghost function Restored(working: Table, live: Labels, pins: Claims, made: Labels): Labels
    requires working in live
  {
    (live + made)[working := live[working] + pins]
  }

  /** A root is nested nowhere, so its label is of no account to what is. */
  lemma AtBeside(c: Cell, v: Value, path: Path, live: Labels, still: Labels, now: Labels, kept: Labels, root: Table)
    requires At(c, v, path, live, still) && path != [] && root.path == [] && Within(still, kept)
    requires forall t: Table :: t in live && t != root ==> t in now && now[t] == live[t]
    ensures At(c, v, path, now, kept)
  {
    if !c.Node? {
      ShowsMore(c, v, still, kept);
    }
  }

  lemma EntriesBeside(entries: Entries, held: Claims, path: Path, live: Labels, still: Labels, now: Labels, kept: Labels, root: Table)
    requires EntriesLive(entries, held, path, live, still) && root.path == [] && Within(still, kept)
    requires forall t: Table :: t in live && t != root ==> t in now && now[t] == live[t]
    ensures EntriesLive(entries, held, path, now, kept)
  {
    forall k | k in entries ensures At(entries[k], held[k], path + [k], now, kept) {
      AtBeside(entries[k], held[k], path + [k], live, still, now, kept, root);
    }
  }

  lemma TableBeside(t: Table, live: Labels, still: Labels, now: Labels, kept: Labels, root: Table)
    requires t in live && LiveTable(t, live[t], live, still) && root.path == [] && Within(still, kept) && t != root
    requires forall o: Table :: o in live && o != root ==> o in now && now[o] == live[o]
    ensures LiveTable(t, now[t], now, kept)
  {
    EntriesBeside(t.entries, live[t], t.path, live, still, now, kept, root);
  }

  /** The copies join the maps of the run. */
  lemma RestoredIsLive(working: Table, live: Labels, still: Labels, entries: Entries, copies: Entries, pins: Claims,
                       made: Labels, below: Labels)
    requires working in live && working.path == [] && LiveOutside(live, {working}, still)
    requires EntriesLive(entries, live[working], [], live, still) && working.entries == entries + copies
    requires copies.Keys == pins.Keys && Copying(copies, pins, true, [], made, below)
    requires live.Keys !! made.Keys && still.Keys !! below.Keys
    ensures Live(Restored(working, live, pins, made), still + below)
  {
    var now, kept := Restored(working, live, pins, made), still + below;
    assert EntriesLive(copies, pins, [], made, below);
    EntriesBeside(copies, pins, [], made, below, now, kept, working);
    EntriesBeside(entries, live[working], [], live, still, now, kept, working);
    forall t: Table | t in now && t != working ensures LiveTable(t, now[t], now, kept) {
      if t in made {
        TableBeside(t, made, below, now, kept, working);
      } else {
        TableBeside(t, live, still, now, kept, working);
      }
    }
  }

  /** Nothing below the roots has changed. */
  ghost predicate OnlyRoot(h: Heap, now: Heap, root: Table) {
    Pathed(h) && root.path == [] && forall t: Table :: t in h && t != root ==> t in now && now[t] == h[t]
  }

  lemma {:induction false} ReachBesideRoot(h: Heap, now: Heap, root: Table, t: Table, rest: Path)
    requires OnlyRoot(h, now, root) && t in h && t != root
    ensures Reach(now, t, rest) == Reach(h, t, rest)
    decreases rest
  {
    if rest != [] && rest[0] in h[t] && h[t][rest[0]].Node? {
      assert h[t][rest[0]].table.path == t.path + [rest[0]];
      ReachBesideRoot(h, now, root, h[t][rest[0]].table, rest[1..]);
    }
  }

  /** A pinned claim of the working claims is in maps of the copies. */
  lemma PinnedMap(now: Heap, working: Table, copies: Entries, made: set<Table>, q: Path)
    requires working in now && q != [] && q[0] in copies && q[0] in now[working] && now[working][q[0]] == copies[q[0]]
    requires (copies[q[0]].Node? ==> copies[q[0]].table in made) && Apart(now, made)
    ensures Reach(now, working, q).Some? ==> Reach(now, working, q).value in made
  {
    if copies[q[0]].Node? {
      ReachStays(now, made, copies[q[0]].table, q[1..]);
    }
  }

  lemma UnpinnedMap(h: Heap, now: Heap, working: Table, copies: Entries, q: Path)
    requires OnlyRoot(h, now, working) && working in h && working in now && now[working] == h[working] + copies
    requires q != [] && q[0] !in copies
    ensures Reach(now, working, q) == Reach(h, working, q)
  {
    if q[0] in h[working] && h[working][q[0]].Node? {
      assert h[working][q[0]].table.path == working.path + [q[0]];
      ReachBesideRoot(h, now, working, h[working][q[0]].table, q[1..]);
    }
  }

  /** Where a claim is pinned the two documents have nothing in common any more. */
  lemma PinsUnshare(h: Heap, now: Heap, out: Table, working: Table, copies: Entries, pins: Claims, made: set<Table>, shared: set<Path>)
    requires OnlyRoot(h, now, working) && out in h && working in h && out != working && InCommon(h, out, working, shared)
    requires working in now && now[working] == h[working] + copies && copies.Keys == pins.Keys
    requires made !! h.Keys && Apart(now, made) && forall k :: k in copies && copies[k].Node? ==> copies[k].table in made
    ensures InCommon(now, out, working, Unpinned(shared, pins))
  {
    forall q ensures q in Unpinned(shared, pins) <==> CommonMap(now, out, working, q) {
      ReachBesideRoot(h, now, working, out, q);
      if q != [] {
        if q[0] in pins {
          PinnedMap(now, working, copies, made, q);
        } else {
          UnpinnedMap(h, now, working, copies, q);
          assert q in shared <==> CommonMap(h, out, working, q);
        }
      }
    }
  }

  /** The copies nest maps of the copies only. */
  lemma CopiesAreApart(now: Heap, copies: Entries, pins: Claims, made: Labels, below: Labels)
    requires Copying(copies, pins, true, [], made, below) && copies.Keys == pins.Keys
    requires forall t: Table :: t in made ==> t in now && now[t] == t.entries
    ensures Apart(now, made.Keys) && forall k :: k in copies && copies[k].Node? ==> copies[k].table in made
  {
    LiveIsHeapLive(made, below);
    LiveIsPathed(Snap(made.Keys), made, below);
    forall t: Table, k: string | t in made && k in now[t] && now[t][k].Node? ensures now[t][k].table in made {
      assert Snap(made.Keys)[t] == now[t];
    }
    forall k | k in copies && copies[k].Node? ensures copies[k].table in made {
      assert At(copies[k], pins[k], [] + [k], made, below);
    }
  }

  lemma PinsBackUnshare(h: Heap, live: Labels, still: Labels, now: Heap, out: Table, working: Table, copies: Entries, pins: Claims,
                        made: Labels, below: Labels, shared: set<Path>)
    requires HeapLive(h, live, still) && out in live && working in live && out != working && working.path == []
    requires made.Keys !! live.Keys && now.Keys == live.Keys + made.Keys && InCommon(h, out, working, shared)
    requires now[working] == h[working] + copies && forall t: Table :: t in live && t != working ==> now[t] == h[t]
    requires (forall t: Table :: t in made ==> now[t] == t.entries) && Copying(copies, pins, true, [], made, below)
    requires copies.Keys == pins.Keys
    ensures InCommon(now, out, working, Unpinned(shared, pins))
  {
    LiveIsPathed(h, live, still);
    CopiesAreApart(now, copies, pins, made, below);
    PinsUnshare(h, now, out, working, copies, pins, made.Keys, shared);
  }

  /** Puts the pins back, and says which maps that takes. */
  method PutBack(out: Table, working: Table, pinned: Entries, ghost pins: Claims, ghost from: Labels, ghost live: Labels,
                 ghost still: Labels)
    returns (copies: Entries, ghost now: Labels, ghost kept: Labels, ghost made: Labels, ghost below: Labels)
    requires Running(out, working, live, still) && Still(from) && from.Keys !! live.Keys && Pins(pinned, pins, from)
    modifies working
    ensures Running(out, working, now, kept) && fresh(kept.Keys - still.Keys)
    ensures now.Keys == live.Keys + made.Keys && now[out] == live[out] && now[working] == live[working] + pins
    ensures working.entries == old(working.entries) + copies
    ensures copies.Keys == pins.Keys && Copying(copies, pins, true, [], made, below)
    ensures fresh(made.Keys) && fresh(below.Keys) && PinsCopied(working.entries, pins, made, below)
  {
    ghost var entries := working.entries;
    assert LiveTable(working, live[working], live, still);
    assert EntriesLive(entries, live[working], [], live, still) && LiveOutside(live, {working}, still);
    copies, made, below := Restore(working, pinned, pins, from);
    RestoredIsLive(working, live, still, entries, copies, pins, made, below);
    CopiesArePins(entries, copies, pins, made, below);
    NewStill(still, below);
    now, kept := Restored(working, live, pins, made), still + below;
  }

  method PutPinsBack(out: Table, working: Table, pinned: Entries, ghost pins: Claims, ghost from: Labels, ghost live: Labels,
                     ghost still: Labels, ghost shared: set<Path>)
    returns (ghost now: Labels, ghost kept: Labels, ghost made: Labels, ghost below: Labels)
    requires Running(out, working, live, still) && Still(from) && from.Keys !! live.Keys && Pins(pinned, pins, from)
    requires InCommon(Snap(live.Keys), out, working, shared)
    modifies working
    ensures Running(out, working, now, kept) && fresh(now.Keys - live.Keys) && fresh(kept.Keys - still.Keys)
    ensures now[out] == live[out] && now[working] == live[working] + pins
    ensures InCommon(Snap(now.Keys), out, working, Unpinned(shared, pins))
    ensures fresh(made.Keys) && fresh(below.Keys) && PinsCopied(working.entries, pins, made, below)
  {
    ghost var h := Snap(live.Keys);
    LiveIsHeapLive(live, still);
    var copies;
    copies, now, kept, made, below := PutBack(out, working, pinned, pins, from, live, still);
    assert forall t: Table :: t in made ==> t !in live;
    PinsBackUnshare(h, live, still, Snap(now.Keys), out, working, copies, pins, made, below, shared);
  }

  // ----- runs -----

  /** What one configured derivation came to: passed over, a failure, or an output and the
      path it replaces when it is a copy that wrote. */
  datatype Outcome = Skipped | Failed | Written(output: Table, copied: Option<Path>)

  ghost predicate Fits(o: Outcome, from: Labels) {
    o.Written? ==> o.output in from && IsCopy(from[o.output], o.copied)
  }

  datatype Documents = Documents(out: Claims, working: Claims, shared: set<Path>)

  /** One outcome, on documents. */
  ghost function Replayed(before: Documents, o: Outcome, from: Labels, pins: Claims): Result<Documents>
    requires Fits(o, from)
  {
    match o
    case Skipped => Ok(before)
    case Failed => Err
    case Written(output, copied) =>
      var landed := Landed(before.shared, before.working, from[output], copied);
      Ok(Documents(
        ClaimMerging.MergeReplacing(before.out, landed, copied),
        ClaimMerging.MergeReplacing(before.working, landed, copied) + pins,
        Unpinned(Sharing(before.shared, Cleared(before.out, copied), Cleared(before.working, copied), landed), pins)))
  }

  /** The run on documents. */
  ghost function Replay(outcomes: seq<Outcome>, from: Labels, claims: Claims, pins: Claims): Result<Documents>
    requires forall o :: o in outcomes ==> Fits(o, from)
  {
    if outcomes == [] then Ok(Documents(map[], claims + pins, {}))
    else
      var before := Replay(outcomes[..|outcomes| - 1], from, claims, pins);
      var o := outcomes[|outcomes| - 1];
      assert o in outcomes && Fits(o, from);
      if before.Err? then Err else Replayed(before.value, o, from, pins)
  }

  /** The maps hold the two documents, and share what these have in common. */
  ghost predicate Holding(h: Heap, live: Labels, out: Table, working: Table, d: Documents) {
    out in live && working in live && live[out] == d.out && live[working] == d.working && InCommon(h, out, working, d.shared)
  }

  /** A run on its way: the pins are in the working claims as new copies. */
  ghost predicate Underway(out: Table, working: Table, live: Labels, still: Labels, pins: Claims, made: Labels, below: Labels, d: Documents)
    reads live.Keys, still.Keys, working, made.Keys, below.Keys
  {
    Running(out, working, live, still) && PinsCopied(working.entries, pins, made, below) &&
    Holding(Snap(live.Keys), live, out, working, d)
  }

  lemma NothingInCommon(h: Heap, out: Table, working: Table)
    requires out in h && out != working && h[out] == map[]
    ensures InCommon(h, out, working, {})
  {
    forall q ensures !CommonMap(h, out, working, q) {
    }
  }

  method Begin(claims: Table, pinned: Entries, ghost pins: Claims, ghost from: Labels)
    returns (out: Table, working: Table, ghost live: Labels, ghost still: Labels, ghost made: Labels, ghost below: Labels)
    requires Still(from) && claims in from && Pins(pinned, pins, from)
    ensures Underway(out, working, live, still, pins, made, below, Documents(map[], from[claims] + pins, {}))
    ensures fresh(live.Keys) && fresh(made.Keys) && fresh(below.Keys)
  {
    out := new Table(map[], []);
    ghost var cloned;
    working, cloned := CloneNestedClaims(claims, from, []);
    ghost var first := cloned[out := map[]];
    LiveMore(cloned, from, first, from);
    NothingInCommon(Snap(first.Keys), out, working);
    live, still, made, below := PutPinsBack(out, working, pinned, pins, from, first, from, {});
    assert Unpinned({}, pins) == {};
  }

  lemma ReplayOneMore(outcomes: seq<Outcome>, from: Labels, claims: Claims, pins: Claims, i: nat, d: Documents)
    requires (forall o :: o in outcomes ==> Fits(o, from)) && i < |outcomes| && Replay(outcomes[..i], from, claims, pins) == Ok(d)
    ensures Fits(outcomes[i], from) && Replay(outcomes[..i + 1], from, claims, pins) == Replayed(d, outcomes[i], from, pins)
  {
    assert outcomes[i] in outcomes;
    assert outcomes[..i + 1][..i] == outcomes[..i];
  }

  lemma ReplayAll(outcomes: seq<Outcome>, from: Labels, claims: Claims, pins: Claims)
    requires forall o :: o in outcomes ==> Fits(o, from)
    ensures Replay(outcomes[..|outcomes|], from, claims, pins) == Replay(outcomes, from, claims, pins)
  {
    assert outcomes[..|outcomes|] == outcomes;
  }

  lemma {:induction false} FailureStays(outcomes: seq<Outcome>, from: Labels, claims: Claims, pins: Claims, i: nat)
    requires (forall o :: o in outcomes ==> Fits(o, from)) && i < |outcomes| && outcomes[i].Failed?
    ensures Replay(outcomes, from, claims, pins).Err?
    decreases outcomes
  {
    var front := outcomes[..|outcomes| - 1];
    if i < |front| {
      assert front[i] == outcomes[i];
      FailureStays(front, from, claims, pins, i);
    }
  }

  /** Merging an output and putting the pins back is one outcome on documents. */
  lemma SteppedReplays(live: Labels, mid: Labels, now: Labels, h: Heap, out: Table, working: Table, output: Table,
                       copied: Option<Path>, from: Labels, pins: Claims, before: Documents)
    requires Fits(Written(output, copied), from) && out in live && working in live && out in mid && working in mid
    requires Applied(live, mid, out, working, from[output], copied, before.shared)
    requires live[out] == before.out && live[working] == before.working
    requires out in now && working in now && now[out] == mid[out] && now[working] == mid[working] + pins
    requires InCommon(h, out, working, Unpinned(SharedNext(live, out, working, from[output], copied, before.shared), pins))
    ensures Holding(h, now, out, working, Replayed(before, Written(output, copied), from, pins).value)
  {
  }

  /** An output is merged, and the pins are put back. */
  method AdvanceWritten(out: Table, working: Table, output: Table, copied: Option<Path>, pinned: Entries, ghost pins: Claims,
                        ghost from: Labels, ghost live: Labels, ghost still: Labels, ghost before: Documents)
    returns (ghost now: Labels, ghost kept: Labels, ghost made: Labels, ghost below: Labels)
    requires Running(out, working, live, still) && Still(from) && from.Keys !! live.Keys && Pins(pinned, pins, from)
    requires Holding(Snap(live.Keys), live, out, working, before) && Fits(Written(output, copied), from)
    modifies live.Keys
    ensures Running(out, working, now, kept) && PinsCopied(working.entries, pins, made, below)
    ensures Holding(Snap(now.Keys), now, out, working, Replayed(before, Written(output, copied), from, pins).value)
    ensures fresh(now.Keys - live.Keys) && fresh(made.Keys) && fresh(below.Keys)
  {
    ghost var mid, k;
    mid, k := Step(out, working, output, copied, from, live, still, before.shared);
    assert from.Keys !! mid.Keys;
    ghost var shared := SharedNext(live, out, working, from[output], copied, before.shared);
    now, kept, made, below := PutPinsBack(out, working, pinned, pins, from, mid, k, shared);
    SteppedReplays(live, mid, now, Snap(now.Keys), out, working, output, copied, from, pins, before);
  }

  method Advance(out: Table, working: Table, o: Outcome, pinned: Entries, ghost pins: Claims, ghost from: Labels,
                 ghost live: Labels, ghost still: Labels, ghost made: Labels, ghost below: Labels, ghost before: Documents)
    returns (ghost live': Labels, ghost still': Labels, ghost made': Labels, ghost below': Labels)
    requires Underway(out, working, live, still, pins, made, below, before) && Still(from) && from.Keys !! live.Keys
    requires Pins(pinned, pins, from) && Fits(o, from) && !o.Failed?
    modifies live.Keys
    ensures Underway(out, working, live', still', pins, made', below', Replayed(before, o, from, pins).value)
    ensures fresh(live'.Keys - live.Keys) && fresh(made'.Keys - made.Keys) && fresh(below'.Keys - below.Keys)
  {
    live', still', made', below' := live, still, made, below;
    if o.Written? {
      live', still', made', below' := AdvanceWritten(out, working, o.output, o.copied, pinned, pins, from, live, still, before);
    }
  }

  /** Whatever the derivations compute, no map that existed before is written, neither the
      caller's claims nor one inside the pins: there is no modifies clause. The run fails
      exactly when the run on documents does, and otherwise its maps hold the documents of
      that run and share what these have in common. The pins are in the working claims as
      new copies. */
  method ApplyDerivationsReplacing(outcomes: seq<Outcome>, claims: Table, pinned: Entries, ghost pins: Claims, ghost from: Labels)
    returns (ok: bool, out: Table, working: Table, ghost live: Labels, ghost still: Labels, ghost made: Labels, ghost below: Labels)
    requires Still(from) && claims in from && Pins(pinned, pins, from) && forall o :: o in outcomes ==> Fits(o, from)
    ensures fresh(live.Keys) && fresh(made.Keys) && fresh(below.Keys)
    ensures ok == Replay(outcomes, from, from[claims], pins).Ok?
    ensures ok ==> Underway(out, working, live, still, pins, made, below, Replay(outcomes, from, from[claims], pins).value)
  {
    ghost var d := Documents(map[], from[claims] + pins, {});
    out, working, live, still, made, below := Begin(claims, pinned, pins, from);
    for i := 0 to |outcomes|
      invariant fresh(live.Keys) && fresh(made.Keys) && fresh(below.Keys)
      invariant Replay(outcomes[..i], from, from[claims], pins) == Ok(d)
      invariant Underway(out, working, live, still, pins, made, below, d)
    {
      if outcomes[i].Failed? {
        FailureStays(outcomes, from, from[claims], pins, i);
        ok := false;
        return;
      }
      ReplayOneMore(outcomes, from, from[claims], pins, i, d);
      live, still, made, below := Advance(out, working, outcomes[i], pinned, pins, from, live, still, made, below, d);
      d := Replayed(d, outcomes[i], from, pins).value;
    }
    ok := true;
    ReplayAll(outcomes, from, from[claims], pins);
  }

  // ----- the run on documents is the run of the derivations -----

  /** A copy that wrote put the value at its path and nothing else. */
  lemma CopiesAreCopies(d: D.Derivation, working: Claims)
    requires D.Apply(d, working).Ok?
    ensures var y := D.Apply(d, working).value; IsCopy(y, D.CopyOutput(y, d))
  {
    var y := D.Apply(d, working).value;
    if D.CopyOutput(y, d).Some? {
      var v := D.Lookup(working, d.input);
      assert v.Some? ==> y == D.Singleton(Split(d.output), v.value);
    }
  }

  /** `o` is what `d` comes to on the working claims. */
  ghost predicate Reports(o: Outcome, d: D.Derivation, working: Claims, from: Labels) {
    if d.HashCommitment? then o.Skipped?
    else
      match D.Apply(d, working)
      case Err => o.Failed?
      case Ok(y) => o.Written? && o.output in from && from[o.output] == y && o.copied == D.CopyOutput(y, d)
  }

  lemma ReportsFit(o: Outcome, d: D.Derivation, working: Claims, from: Labels)
    requires Reports(o, d, working, from)
    ensures Fits(o, from)
  {
    if o.Written? {
      CopiesAreCopies(d, working);
    }
  }

  ghost function Held(p: Result<D.Progress>): Result<Documents> {
    match p
    case Ok(progress) => Ok(Documents(progress.out, progress.working, progress.shared))
    case Err => Err
  }

  lemma ReportedStep(p: D.Progress, d: D.Derivation, o: Outcome, from: Labels, pins: Claims)
    requires Fits(o, from) && Reports(o, d, p.working, from)
    ensures Replayed(Documents(p.out, p.working, p.shared), o, from, pins) == Held(D.Step(p, d, pins))
  {
  }

  /** The outcome at `i` is what the derivation there comes to after those before it; there is
      none after a failure. */
  ghost predicate ReportsAt(list: seq<D.Derivation>, outcomes: seq<Outcome>, from: Labels, claims: Claims, pins: Claims, i: nat)
    requires i < |list| == |outcomes|
  {
    var before := D.Run(list[..i], D.Start(claims, pins), pins);
    if before.Ok? then Reports(outcomes[i], list[i], before.value.working, from) else outcomes[i].Skipped?
  }

  ghost predicate Reported(list: seq<D.Derivation>, outcomes: seq<Outcome>, from: Labels, claims: Claims, pins: Claims) {
    |list| == |outcomes| && forall i: nat :: i < |list| ==> ReportsAt(list, outcomes, from, claims, pins, i)
  }

  lemma ReportedFits(list: seq<D.Derivation>, outcomes: seq<Outcome>, from: Labels, claims: Claims, pins: Claims)
    requires Reported(list, outcomes, from, claims, pins)
    ensures forall o :: o in outcomes ==> Fits(o, from)
  {
    forall o | o in outcomes ensures Fits(o, from) {
      var i :| 0 <= i < |outcomes| && outcomes[i] == o;
      assert ReportsAt(list, outcomes, from, claims, pins, i);
      var before := D.Run(list[..i], D.Start(claims, pins), pins);
      if before.Ok? {
        ReportsFit(o, list[i], before.value.working, from);
      }
    }
  }

  lemma ReportedBefore(list: seq<D.Derivation>, outcomes: seq<Outcome>, from: Labels, claims: Claims, pins: Claims, n: nat)
    requires Reported(list, outcomes, from, claims, pins) && n < |list|
    ensures Reported(list[..n], outcomes[..n], from, claims, pins)
  {
    forall i: nat | i < n ensures ReportsAt(list[..n], outcomes[..n], from, claims, pins, i) {
      assert ReportsAt(list, outcomes, from, claims, pins, i);
      assert list[..n][..i] == list[..i];
    }
  }

  /** The outcomes of a list of derivations fit, and replay as the list runs. */
  lemma {:induction false} ReplayIsRun(list: seq<D.Derivation>, outcomes: seq<Outcome>, from: Labels, claims: Claims, pins: Claims)
    requires Reported(list, outcomes, from, claims, pins)
    ensures forall o :: o in outcomes ==> Fits(o, from)
    ensures Replay(outcomes, from, claims, pins) == Held(D.Run(list, D.Start(claims, pins), pins))
    decreases |list|
  {
    ReportedFits(list, outcomes, from, claims, pins);
    if list != [] {
      var n := |list| - 1;
      ReportedBefore(list, outcomes, from, claims, pins, n);
      ReplayIsRun(list[..n], outcomes[..n], from, claims, pins);
      assert ReportsAt(list, outcomes, from, claims, pins, n);
      assert outcomes[n] in outcomes && Fits(outcomes[n], from);
      var before := D.Run(list[..n], D.Start(claims, pins), pins);
      if before.Ok? {
        ReportedStep(before.value, list[n], outcomes[n], from, pins);
      }
    }
  }
}
