/** One derivation over mutable maps: its output is merged into the outputs and the working
    claims, and what these hold then, and which maps they share, is what the documents say. */
module ClaimsPipeline {
  import opened ClaimMerging
  import opened ClaimsClearing
  import opened ClaimsCommon
  import opened ClaimsHeap
  import opened ClaimsInPlace
  import opened ClaimsReach
  import opened ClaimsSharing
  import opened ClaimsSteps
  import opened ClaimValues
  import opened SharedClaims
  import opened Wrappers
  import D = Derivations

  ghost function Now(live: Labels): Moment
    reads live.Keys
  {
    Moment(Snap(live.Keys), live)
  }

  /** The outputs and the working claims, made of maps of their own. */
  ghost predicate Running(out: Table, working: Table, live: Labels, still: Labels)
    reads live.Keys, still.Keys
  {
    out in live && working in live && out != working && out.path == [] == working.path &&
    Live(live, still) && Still(still) && live.Keys !! still.Keys
  }

  // ----- one output -----

  method MergeReplacing(dst: Table, derived: Table, copied: Option<Path>, ghost live: Labels, ghost still: Labels)
    returns (ghost mid: Moment, ghost now: Labels, ghost pairs: map<Table, Table>)
    requires dst in live && derived in live && dst.path == [] == derived.path && Live(live, still)
    requires copied.Some? ==> |copied.value| > 0
    modifies live.Keys
    ensures now.Keys == live.Keys && Live(now, still)
    ensures Replaced(old(Now(live)), mid, Now(now), dst, derived, still, copied, pairs)
  {
    ghost var cleared := live;
    LiveIsHeapLive(live, still);
    if copied.Some? {
      cleared := ClearPath(dst, copied.value, live, still);
    }
    mid := Now(cleared);
    LiveIsHeapLive(cleared, still);
    now, pairs := MergeNestedClaims(dst, derived, cleared, still);
    LiveIsHeapLive(now, still);
  }

  /** The output's maps beside the others. */
  lemma HeapsJoin(h: Heap, live: Labels, still: Labels, hd: Heap, dl: Labels, ds: Labels)
    requires HeapLive(h, live, still) && HeapLive(hd, dl, ds) && live.Keys !! dl.Keys && Within(still, still + ds)
    ensures HeapLive(h + hd, live + dl, still + ds)
  {
    var all, kept := live + dl, still + ds;
    forall t: Table | t in all ensures EntriesLive((h + hd)[t], all[t], t.path, all, kept) {
      if t in dl {
        EntriesLiveMore(hd[t], dl[t], t.path, dl, ds, all, kept);
      } else {
        EntriesLiveMore(h[t], live[t], t.path, live, still, all, kept);
      }
    }
  }

  lemma EntriesLiveMore(entries: Entries, held: Claims, path: Path, live: Labels, still: Labels, all: Labels, kept: Labels)
    requires EntriesLive(entries, held, path, live, still) && Within(live, all) && Within(still, kept)
    ensures EntriesLive(entries, held, path, all, kept)
  {
    forall k | k in entries ensures At(entries[k], held[k], path + [k], all, kept) {
      AtMore(entries[k], held[k], path + [k], live, still, all, kept);
    }
  }

  lemma HeapIsApart(h: Heap, live: Labels, still: Labels)
    requires HeapLive(h, live, still)
    ensures Apart(h, h.Keys)
  {
    LiveIsPathed(h, live, still);
  }

  lemma ApartTogether(h: Heap, hd: Heap)
    requires Apart(h, h.Keys) && Apart(hd, hd.Keys) && h.Keys !! hd.Keys
    ensures Apart(h + hd, hd.Keys) && Apart(h + hd, (h + hd).Keys - hd.Keys)
  {
  }

  /** The maps of the two documents, with those of an output beside them. */
  ghost predicate Beside(h: Heap, live: Labels, still: Labels, hd: Heap, dl: Labels, ds: Labels) {
    HeapLive(h, live, still) && HeapLive(hd, dl, ds) && live.Keys !! dl.Keys && still.Keys !! ds.Keys
  }

  /** A moment that has the maps of `h` and perhaps others. */
  ghost predicate Widens(first: Moment, h: Heap, live: Labels, out: Table, working: Table) {
    Pathed(h) && out in h && working in h && (forall o: Table :: o in h ==> o in first.heap && first.heap[o] == h[o]) &&
    out in live && working in live && out in first.held && working in first.held &&
    first.held[out] == live[out] && first.held[working] == live[working]
  }

  lemma ReadyToMerge(h: Heap, live: Labels, still: Labels, hd: Heap, dl: Labels, ds: Labels, out: Table, working: Table, derived: Table)
    requires Beside(h, live, still, hd, dl, ds)
    requires out in live && working in live && derived in dl && out != working
    requires out.path == [] && working.path == [] && derived.path == []
    ensures Ready(Moment(h + hd, live + dl), out, working, derived, dl.Keys, still + ds)
  {
    HeapsJoin(h, live, still, hd, dl, ds);
    HeapIsApart(h, live, still);
    HeapIsApart(hd, dl, ds);
    ApartTogether(h, hd);
  }

  lemma JoinWidens(h: Heap, live: Labels, still: Labels, hd: Heap, dl: Labels, ds: Labels, out: Table, working: Table)
    requires Beside(h, live, still, hd, dl, ds) && out in live && working in live
    ensures Widens(Moment(h + hd, live + dl), h, live, out, working)
  {
    LiveIsPathed(h, live, still);
  }

  lemma {:induction false} ReachWider(h: Heap, wide: Heap, t: Table, rest: Path)
    requires Pathed(h) && t in h && forall o: Table :: o in h ==> o in wide && wide[o] == h[o]
    ensures Reach(wide, t, rest) == Reach(h, t, rest)
    decreases rest
  {
    if rest != [] && rest[0] in h[t] && h[t][rest[0]].Node? {
      ReachWider(h, wide, h[t][rest[0]].table, rest[1..]);
    }
  }

  lemma CommonWider(h: Heap, wide: Heap, out: Table, working: Table, shared: set<Path>)
    requires Pathed(h) && out in h && working in h && InCommon(h, out, working, shared)
    requires forall o: Table :: o in h ==> o in wide && wide[o] == h[o]
    ensures InCommon(wide, out, working, shared)
  {
    forall q ensures CommonMap(h, out, working, q) <==> CommonMap(wide, out, working, q) {
      ReachWider(h, wide, out, q);
      ReachWider(h, wide, working, q);
    }
  }

  /** What one output does to the two documents. */
  ghost predicate Applied(before: Labels, after: Labels, out: Table, working: Table, y: Claims, copied: Option<Path>, shared: set<Path>)
    requires out in before && working in before && out in after && working in after
    requires copied.Some? ==> |copied.value| > 0
  {
    var landed := Landed(shared, before[working], y, copied);
    after[out] == ClaimMerging.MergeReplacing(before[out], landed, copied) &&
    after[working] == ClaimMerging.MergeReplacing(before[working], landed, copied)
  }

  method MergeBoth(out: Table, working: Table, derived: Table, copied: Option<Path>, ghost live: Labels, ghost still: Labels)
    returns (ghost a: Moment, ghost b: Moment, ghost c: Moment, ghost now: Labels, ghost pairs: map<Table, Table>,
             ghost pairs': map<Table, Table>)
    requires out in live && working in live && derived in live && out.path == [] && working.path == [] && derived.path == []
    requires Live(live, still) && (copied.Some? ==> |copied.value| > 0)
    modifies live.Keys
    ensures now.Keys == live.Keys && Live(now, still)
    ensures Replaced(old(Now(live)), a, b, out, derived, still, copied, pairs)
    ensures Replaced(b, c, Now(now), working, derived, still, copied, pairs')
  {
    ghost var after;
    a, after, pairs := MergeReplacing(out, derived, copied, live, still);
    b := Now(after);
    c, now, pairs' := MergeReplacing(working, derived, copied, after, still);
  }

  lemma BothApplied(m0: Moment, m1: Moment, m2: Moment, m3: Moment, m4: Moment, out: Table, working: Table, derived: Table, own: set<Table>, still: Labels,
                    copied: Option<Path>, pairs: map<Table, Table>, pairs': map<Table, Table>, shared: set<Path>)
    requires BothMerged(m0, m1, m2, m3, m4, out, working, derived, own, still, copied, pairs, pairs') && IsCopy(m0.held[derived], copied)
    requires InCommon(m0.heap, out, working, shared)
    ensures Rooted(m0, out, working, derived, still) && Rooted(m4, out, working, derived, still)
    ensures Applied(m0.held, m4.held, out, working, m0.held[derived], copied, shared)
  {
    RootedThroughout(m0, m1, m2, out, out, working, derived, still, copied, pairs);
    RootedThroughout(m2, m3, m4, working, out, working, derived, still, copied, pairs');
    if copied.Some? {
      var v :| m0.held[derived] == D.Singleton(copied.value, v);
      CopiedBoth(m0, m1, m2, m3, m4, out, working, derived, own, still, copied.value, v, pairs, pairs', shared);
    } else {
      ComputedWorks(m1, m2, m4, out, working, derived, pairs, pairs');
    }
  }

  lemma CopiedBoth(m0: Moment, m1: Moment, m2: Moment, m3: Moment, m4: Moment, out: Table, working: Table, derived: Table, own: set<Table>, still: Labels,
                   path: Path, v: Value, pairs: map<Table, Table>, pairs': map<Table, Table>, shared: set<Path>)
    requires CopyStep(m0, m1, m2, m3, m4, out, working, derived, own, still, path, v, pairs, pairs')
    requires InCommon(m0.heap, out, working, shared)
    ensures Applied(m0.held, m4.held, out, working, D.Singleton(path, v), Some(path), shared)
  {
    EntangledIsLost(m0, out, working, still, shared, path);
    if Entangled(m0.heap, out, working, path) {
      CopyIsLost(m0, m1, m2, m3, m4, out, working, derived, own, still, path, v, pairs, pairs');
    } else {
      CopyWorks(m0, m1, m2, m3, m4, out, working, derived, own, still, path, v, pairs, pairs');
    }
  }

  ghost function SharedNext(live: Labels, out: Table, working: Table, y: Claims, copied: Option<Path>, shared: set<Path>): set<Path>
    requires out in live && working in live && (copied.Some? ==> |copied.value| > 0)
  {
    Sharing(shared, Cleared(live[out], copied), Cleared(live[working], copied), Landed(shared, live[working], y, copied))
  }

  /** What a step does to the two documents and to the maps they share. */
  ghost predicate Stepped(live: Labels, after: Heap, now: Labels, out: Table, working: Table, y: Claims, copied: Option<Path>,
                          shared: set<Path>)
  {
    out in live && working in live && out in now && working in now && (copied.Some? ==> |copied.value| > 0) &&
    Applied(live, now, out, working, y, copied, shared) &&
    InCommon(after, out, working, SharedNext(live, out, working, y, copied, shared))
  }

  lemma SteppedFromBoth(m0: Moment, m1: Moment, m2: Moment, m3: Moment, m4: Moment, out: Table, working: Table, derived: Table, own: set<Table>,
                        still: Labels, copied: Option<Path>, pairs: map<Table, Table>, pairs': map<Table, Table>, shared: set<Path>)
    requires BothMerged(m0, m1, m2, m3, m4, out, working, derived, own, still, copied, pairs, pairs') && IsCopy(m0.held[derived], copied)
    requires InCommon(m0.heap, out, working, shared)
    ensures Stepped(m0.held, m4.heap, m4.held, out, working, m0.held[derived], copied, shared)
  {
    BothApplied(m0, m1, m2, m3, m4, out, working, derived, own, still, copied, pairs, pairs', shared);
    RuleHoldsEverywhere(m0, m1, m2, m3, m4, out, working, derived, own, still, copied, pairs, pairs');
    CommonAfter(m0.heap, m4, out, working, still, shared, Cleared(m0.held[out], copied), Cleared(m0.held[working], copied),
                Landed(shared, m0.held[working], m0.held[derived], copied));
  }

  lemma WidensCommon(first: Moment, h: Heap, live: Labels, out: Table, working: Table, shared: set<Path>)
    requires Widens(first, h, live, out, working) && InCommon(h, out, working, shared)
    ensures InCommon(first.heap, out, working, shared)
  {
    CommonWider(h, first.heap, out, working, shared);
  }

  /** Maps beside those of the two documents make no difference to them. */
  lemma SteppedAlone(live: Labels, all: Labels, after: Heap, now: Labels, out: Table, working: Table, y: Claims, copied: Option<Path>,
                     shared: set<Path>)
    requires Stepped(all, after, now, out, working, y, copied, shared)
    requires out in live && working in live && all[out] == live[out] && all[working] == live[working]
    ensures Stepped(live, after, now, out, working, y, copied, shared)
  {
  }

  lemma StepDone(h: Heap, live: Labels, first: Moment, a: Moment, b: Moment, c: Moment, n: Moment, out: Table, working: Table,
                 derived: Table, own: set<Table>, still: Labels, copied: Option<Path>, pairs: map<Table, Table>, pairs': map<Table, Table>,
                 shared: set<Path>)
    requires Ready(first, out, working, derived, own, still) && IsCopy(first.held[derived], copied)
    requires Replaced(first, a, b, out, derived, still, copied, pairs) && Replaced(b, c, n, working, derived, still, copied, pairs')
    requires Widens(first, h, live, out, working) && InCommon(h, out, working, shared)
    ensures Stepped(live, n.heap, n.held, out, working, first.held[derived], copied, shared)
  {
    WidensCommon(first, h, live, out, working, shared);
    SteppedFromBoth(first, a, b, c, n, out, working, derived, own, still, copied, pairs, pairs', shared);
    SteppedAlone(live, first.held, n.heap, n.held, out, working, first.held[derived], copied, shared);
  }

  lemma StepFinished(h: Heap, live: Labels, still: Labels, hd: Heap, dl: Labels, ds: Labels, first: Moment, a: Moment, b: Moment,
                     c: Moment, n: Moment, out: Table, working: Table, derived: Table, kept: Labels, copied: Option<Path>,
                     pairs: map<Table, Table>, pairs': map<Table, Table>, shared: set<Path>)
    requires Beside(h, live, still, hd, dl, ds) && first == Moment(h + hd, live + dl) && kept == still + ds
    requires out in live && working in live && derived in dl && out != working && IsCopy(dl[derived], copied)
    requires out.path == [] && working.path == [] && derived.path == [] && InCommon(h, out, working, shared)
    requires Replaced(first, a, b, out, derived, kept, copied, pairs) && Replaced(b, c, n, working, derived, kept, copied, pairs')
    ensures Stepped(live, n.heap, n.held, out, working, dl[derived], copied, shared)
  {
    ReadyToMerge(h, live, still, hd, dl, ds, out, working, derived);
    JoinWidens(h, live, still, hd, dl, ds, out, working);
    StepDone(h, live, first, a, b, c, n, out, working, derived, dl.Keys, kept, copied, pairs, pairs', shared);
  }

  lemma NewStill(still: Labels, ds: Labels)
    requires Still(still) && Still(ds) && still.Keys !! ds.Keys
    ensures Still(still + ds) && Within(still, still + ds)
  {
    StillJoins(still, ds);
  }

  lemma NewLive(live: Labels, still: Labels, dl: Labels, ds: Labels)
    requires Live(live, still) && Live(dl, ds) && live.Keys !! dl.Keys && still.Keys !! ds.Keys
    ensures Live(live + dl, still + ds) && Beside(Snap(live.Keys), live, still, Snap(dl.Keys), dl, ds)
  {
    LiveMore(live, still, live + dl, still + ds);
    LiveMore(dl, ds, live + dl, still + ds);
    LiveIsHeapLive(live, still);
    LiveIsHeapLive(dl, ds);
  }

  lemma NewNow(live: Labels, dl: Labels)
    requires live.Keys !! dl.Keys
    ensures Now(live + dl) == Moment(Snap(live.Keys) + Snap(dl.Keys), live + dl)
  {
  }

  method MergeDerived(out: Table, working: Table, derived: Table, copied: Option<Path>, ghost live: Labels, ghost still: Labels,
                      ghost dl: Labels, ghost ds: Labels, ghost shared: set<Path>) returns (ghost now: Labels)
    requires Live(live, still) && Live(dl, ds) && live.Keys !! dl.Keys && still.Keys !! ds.Keys
    requires out in live && working in live && derived in dl && out != working && IsCopy(dl[derived], copied)
    requires out.path == [] && working.path == [] && derived.path == [] && InCommon(Snap(live.Keys), out, working, shared)
    modifies live.Keys, dl.Keys
    ensures now.Keys == live.Keys + dl.Keys && Live(now, still + ds)
    ensures Stepped(live, Snap(now.Keys), now, out, working, dl[derived], copied, shared)
  {
    ghost var h, hd, first := Snap(live.Keys), Snap(dl.Keys), Now(live + dl);
    NewLive(live, still, dl, ds);
    NewNow(live, dl);
    ghost var a, b, c, pairs, pairs';
    a, b, c, now, pairs, pairs' := MergeBoth(out, working, derived, copied, live + dl, still + ds);
    StepFinished(h, live, still, hd, dl, ds, first, a, b, c, Now(now), out, working, derived, still + ds, copied, pairs, pairs', shared);
  }

  /** The output of one derivation, already in maps of its own. */
  method StepWith(out: Table, working: Table, derived: Table, copied: Option<Path>, ghost live: Labels, ghost still: Labels,
                  ghost dl: Labels, ghost ds: Labels, ghost shared: set<Path>) returns (ghost now: Labels)
    requires Running(out, working, live, still) && Live(dl, ds) && Still(ds) && derived in dl && derived.path == []
    requires (live.Keys + still.Keys) !! (dl.Keys + ds.Keys) && dl.Keys !! ds.Keys && IsCopy(dl[derived], copied)
    requires InCommon(Snap(live.Keys), out, working, shared)
    modifies live.Keys, dl.Keys
    ensures now.Keys == live.Keys + dl.Keys && Running(out, working, now, still + ds)
    ensures Stepped(live, Snap(now.Keys), now, out, working, dl[derived], copied, shared)
  {
    ghost var kept := still + ds;
    NewStill(still, ds);
    assert kept.Keys !! live.Keys + dl.Keys;
    now := MergeDerived(out, working, derived, copied, live, still, dl, ds, shared);
    assert Still(kept);
  }

  /** What a derivation returns is made of new maps. */
  method NewOutput(output: Table, ghost from: Labels) returns (derived: Table, ghost dl: Labels, ghost ds: Labels)
    requires Still(from) && output in from
    ensures fresh(dl.Keys) && fresh(ds.Keys) && dl.Keys !! ds.Keys && Live(dl, ds) && Still(ds)
    ensures derived in dl && derived.path == [] && dl[derived] == from[output]
  {
    derived, dl, ds := CloneMap(output, from[output], from, true, []);
  }

  method Step(out: Table, working: Table, output: Table, copied: Option<Path>, ghost from: Labels, ghost live: Labels,
              ghost still: Labels, ghost shared: set<Path>) returns (ghost now: Labels, ghost kept: Labels)
    requires Running(out, working, live, still) && Still(from) && from.Keys !! live.Keys
    requires output in from && IsCopy(from[output], copied) && InCommon(Snap(live.Keys), out, working, shared)
    modifies live.Keys
    ensures Running(out, working, now, kept)
    ensures fresh(now.Keys - live.Keys) && fresh(kept.Keys - still.Keys)
    ensures Stepped(live, Snap(now.Keys), now, out, working, from[output], copied, shared)
  {
    var derived;
    ghost var dl, ds;
    derived, dl, ds := NewOutput(output, from);
    kept := still + ds;
    now := StepWith(out, working, derived, copied, live, still, dl, ds, shared);
  }
}
