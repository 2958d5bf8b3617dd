/** An index over the handles that documents hold, apart from what the handles
    and documents are: when following the index equals scanning the documents. */
module IndexTables {

  /** Which handles each live session holds, the index, and the handles that
      pending callbacks will remove from it. */
  datatype Table<H> = Table(held: map<string, set<H>>, index: map<H, string>, reserved: set<H>)

  ghost function Scan<H>(t: Table<H>, h: H): set<string> {
    set id | id in t.held && h in t.held[id]
  }

  ghost function Follow<H>(t: Table<H>, h: H): set<string> {
    if h in t.index && t.index[h] in t.held then {t.index[h]} else {}
  }

  ghost predicate Refines<H(!new)>(t: Table<H>) {
    forall h :: Follow(t, h) == Scan(t, h)
  }

  ghost predicate Safe<H(!new)>(t: Table<H>) {
    Refines(t) && forall id :: id in t.held ==> t.held[id] !! t.reserved
  }

  // ----- entry by entry -----

  ghost predicate AllIndexed<H(!new)>(t: Table<H>) {
    forall id, h :: id in t.held && h in t.held[id] ==> h in t.index && t.index[h] == id
  }

  ghost predicate NoneStale<H(!new)>(t: Table<H>) {
    forall h :: h in t.index && t.index[h] in t.held ==> h in t.held[t.index[h]]
  }

  lemma EntriesRefine<H(!new)>(t: Table<H>)
    requires AllIndexed(t) && NoneStale(t)
    ensures Refines(t)
  {
    forall h ensures Follow(t, h) == Scan(t, h) {
    }
  }

  lemma RefinesEntries<H(!new)>(t: Table<H>)
    requires Refines(t)
    ensures AllIndexed(t) && NoneStale(t)
  {
    forall id, h | id in t.held && h in t.held[id] ensures h in t.index && t.index[h] == id {
      assert id in Scan(t, h) && id in Follow(t, h);
    }
    forall h | h in t.index && t.index[h] in t.held ensures h in t.held[t.index[h]] {
      assert t.index[h] in Follow(t, h) && t.index[h] in Scan(t, h);
    }
  }

  // ----- storing -----

  function Entries<H>(handles: set<H>, id: string): map<H, string> {
    map h | h in handles :: id
  }

  /** Session `id` now holds `handles`; some entries were removed first. */
  function Put<H>(t: Table<H>, id: string, removed: set<H>, handles: set<H>): Table<H> {
    Table(t.held[id := handles], (t.index - removed) + Entries(handles, id), t.reserved)
  }

  ghost predicate FreshFor<H(!new)>(t: Table<H>, id: string, handles: set<H>) {
    && (forall other :: other in t.held && other != id ==> t.held[other] !! handles)
    && t.reserved !! handles
  }

  ghost predicate KeepsEntries<H(!new)>(t: Table<H>, id: string, removed: set<H>, handles: set<H>) {
    forall h :: h in t.index && h !in removed && t.index[h] == id ==> h in handles
  }

  ghost function Before<H>(t: Table<H>, id: string): set<H> {
    if id in t.held then t.held[id] else {}
  }

  lemma PutSuffices<H(!new)>(t: Table<H>, id: string, removed: set<H>, handles: set<H>)
    requires Safe(t) && removed <= Before(t, id)
    requires FreshFor(t, id, handles) && KeepsEntries(t, id, removed, handles)
    ensures Safe(Put(t, id, removed, handles))
  {
    var t' := Put(t, id, removed, handles);
    RefinesEntries(t);
    forall other, h | other in t'.held && h in t'.held[other] ensures h in t'.index && t'.index[h] == other {
      if other != id {
        assert h in t.held[other] && t.index[h] == other;
        assert h in removed ==> h in Before(t, id);
      }
    }
    forall h | h in t'.index && t'.index[h] in t'.held ensures h in t'.held[t'.index[h]] {
      assert h in handles || (h in t.index && h !in removed && t'.index[h] == t.index[h]);
    }
    EntriesRefine(t');
  }

  lemma PutNeeds<H(!new)>(t: Table<H>, id: string, removed: set<H>, handles: set<H>)
    requires Safe(t) && Safe(Put(t, id, removed, handles))
    ensures FreshFor(t, id, handles) && KeepsEntries(t, id, removed, handles)
  {
    var t' := Put(t, id, removed, handles);
    RefinesEntries(t');
    forall other | other in t.held && other != id ensures t.held[other] !! handles {
      assert t'.held[other] == t.held[other];
      forall h | h in handles ensures h !in t'.held[other] {
        assert h in t'.index && t'.index[h] == id;
      }
    }
    assert t'.held[id] == handles;
    forall h | h in t.index && h !in removed && t.index[h] == id ensures h in handles {
      assert h in t'.index && t'.index[h] == id;
    }
  }

  /** Storing keeps the index right exactly when the handles are fresh and every
      entry left for the session is still held. */
  lemma PutExactly<H(!new)>(t: Table<H>, id: string, removed: set<H>, handles: set<H>)
    requires Safe(t) && removed <= Before(t, id)
    ensures Safe(Put(t, id, removed, handles)) <==>
            FreshFor(t, id, handles) && KeepsEntries(t, id, removed, handles)
  {
    if FreshFor(t, id, handles) && KeepsEntries(t, id, removed, handles) {
      PutSuffices(t, id, removed, handles);
    } else if Safe(Put(t, id, removed, handles)) {
      PutNeeds(t, id, removed, handles);
    }
  }

  lemma EntriesOfSession<H(!new)>(t: Table<H>, id: string, h: H)
    requires Safe(t) && id in t.held
    ensures h in t.index && t.index[h] == id <==> h in t.held[id]
  {
    RefinesEntries(t);
  }

  lemma ReplaceKeepsEntries<H(!new)>(t: Table<H>, id: string, handles: set<H>)
    requires Safe(t) && id in t.held
    ensures KeepsEntries(t, id, t.held[id], handles)
  {
    RefinesEntries(t);
  }

  lemma SupersetKeepsEntries<H(!new)>(t: Table<H>, id: string, handles: set<H>)
    requires Safe(t) && id in t.held
    ensures KeepsEntries(t, id, {}, handles) <==> t.held[id] <= handles
  {
    RefinesEntries(t);
  }

  lemma OwnHandlesFresh<H(!new)>(t: Table<H>, id: string)
    requires Safe(t) && id in t.held
    ensures FreshFor(t, id, t.held[id])
  {
    RefinesEntries(t);
    forall other | other in t.held && other != id ensures t.held[other] !! t.held[id] {
      forall h | h in t.held[other] ensures h !in t.held[id] {
        assert t.index[h] == other;
      }
    }
  }

  // ----- everything else -----

  /** A write that touches only the held handles must not change them. */
  lemma OverwriteExactly<H(!new)>(t: Table<H>, id: string, handles: set<H>)
    requires Safe(t) && id in t.held
    ensures Safe(t.(held := t.held[id := handles])) <==> handles == t.held[id]
  {
    var t' := t.(held := t.held[id := handles]);
    if handles == t.held[id] {
      assert t' == t;
    }
    if Safe(t') {
      forall h ensures h in handles <==> h in t.held[id] {
        EntriesOfSession(t, id, h);
        EntriesOfSession(t', id, h);
      }
    }
  }

  /** A session leaves; its handles stay reserved until its callback has run. */
  lemma LeaveKeeps<H(!new)>(t: Table<H>, id: string, dropped: set<H>)
    requires Safe(t) && id in t.held && dropped <= t.held[id]
    ensures Safe(Table(t.held - {id}, t.index - dropped, t.reserved + t.held[id]))
  {
    var t' := Table(t.held - {id}, t.index - dropped, t.reserved + t.held[id]);
    RefinesEntries(t);
    OwnHandlesFresh(t, id);
    forall other, h | other in t'.held && h in t'.held[other] ensures h in t'.index && t'.index[h] == other {
      assert h in t.held[other];
    }
    EntriesRefine(t');
  }

  /** Removing entries that no live session holds changes no lookup. */
  lemma DropUnheldKeeps<H(!new)>(t: Table<H>, dropped: set<H>, reserved: set<H>)
    requires Safe(t) && reserved <= t.reserved
    requires forall id :: id in t.held ==> t.held[id] !! dropped
    ensures Safe(Table(t.held, t.index - dropped, reserved))
  {
    var t' := Table(t.held, t.index - dropped, reserved);
    RefinesEntries(t);
    forall id, h | id in t'.held && h in t'.held[id] ensures h in t'.index && t'.index[h] == id {
      assert h in t.held[id];
    }
    EntriesRefine(t');
  }

  /** A session gives up one handle together with its entry. */
  lemma GiveUpKeeps<H(!new)>(t: Table<H>, id: string, h: H)
    requires Safe(t) && id in t.held && h in t.held[id]
    ensures Safe(Table(t.held[id := t.held[id] - {h}], t.index - {h}, t.reserved))
  {
    var t' := Table(t.held[id := t.held[id] - {h}], t.index - {h}, t.reserved);
    RefinesEntries(t);
    forall other, k | other in t'.held && k in t'.held[other] ensures k in t'.index && t'.index[k] == other {
      assert k in t.held[other] && t.index[k] == other && t.index[h] == id;
      assert k != h;
    }
    EntriesRefine(t');
  }
}
