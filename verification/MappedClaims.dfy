/** What a mapping makes of the attributes, read off the document it gives. */
module MappedClaims {
  import opened AttributeMapping
  import opened ClaimValues
  import opened Wrappers

  /** What an attribute becomes: an absent one its default, if there is one; a text an array of
      one where an array is wanted; several texts their first one where none is wanted, and
      nothing if there are none; anything else itself. */
  ghost function Becomes(cfg: AttributeConfig, attribute: Option<Value>): Option<Value> {
    match attribute
    case None =>
      if cfg.default == "" then None else Some(if cfg.asArray then Strings([cfg.default]) else Text(cfg.default))
    case Some(Text(t)) => Some(if cfg.asArray then Strings([t]) else Text(t))
    case Some(Strings(texts)) =>
      if cfg.asArray then Some(Strings(texts)) else if texts == [] then None else Some(Text(texts[0]))
    case Some(v) => Some(v)
  }

  /** A required attribute is absent, or there is a value and no claim for it. */
  ghost predicate Unmappable(cfg: AttributeConfig, attribute: Option<Value>) {
    (attribute.None? && cfg.required) || (Becomes(cfg, attribute).Some? && cfg.claim == "")
  }

  lemma EffectIs(cfg: AttributeConfig, attribute: Option<Value>)
    ensures EffectOf(cfg, attribute) ==
            if Unmappable(cfg, attribute) then Fail
            else match Becomes(cfg, attribute) case None => Skip case Some(v) => Set(Split(cfg.claim), v)
  {
  }

  // ----- a list of effects -----

  ghost predicate SetsApart(effects: Effects) {
    forall i, j :: 0 <= i < j < |effects| && effects[i].Set? && effects[j].Set? ==> Apart(effects[i].path, effects[j].path)
  }

  /** The document holds what was set, and nothing apart from it. */
  ghost predicate HoldsAll(doc: Claims, effects: Effects) {
    (forall i :: 0 <= i < |effects| && effects[i].Set? ==> Walk(Object(doc), effects[i].path) == Some(effects[i].value)) &&
    forall q :: q != [] && ApartFromAll(effects, q) ==> Walk(Object(doc), q).None?
  }

  ghost predicate ApartFromAll(effects: Effects, q: Path) {
    forall i :: 0 <= i < |effects| && effects[i].Set? ==> Apart(effects[i].path, q)
  }

  lemma LastCanSet(effects: Effects)
    requires SetsApart(effects) && effects != [] && effects[|effects| - 1].Set?
    ensures CanSet(PerformAll(effects[..|effects| - 1]), effects[|effects| - 1])
  {
    var n := |effects| - 1;
    var init, e := effects[..n], effects[n];
    forall x | x in init && x.Set? ensures Apart(x.path, e.path) {
      var i :| 0 <= i < n && init[i] == x;
      assert effects[i] == x;
    }
    WayStaysClear(init, e);
  }

  lemma SkipHolds(doc: Claims, effects: Effects)
    requires effects != [] && effects[|effects| - 1].Skip? && HoldsAll(doc, effects[..|effects| - 1])
    ensures HoldsAll(doc, effects)
  {
    var n := |effects| - 1;
    forall q | q != [] && ApartFromAll(effects, q) ensures Walk(Object(doc), q).None? {
      assert ApartFromAll(effects[..n], q);
    }
    assert forall i :: 0 <= i < n ==> effects[..n][i] == effects[i];
  }

  lemma {:induction false} FailsExactly(effects: Effects)
    requires SetsApart(effects)
    ensures PerformAll(effects).Err? <==> exists i :: 0 <= i < |effects| && effects[i].Fail?
    decreases |effects|
  {
    if effects != [] {
      var n := |effects| - 1;
      assert forall i :: 0 <= i < n ==> effects[..n][i] == effects[i];
      FailsExactly(effects[..n]);
      if effects[n].Set? {
        LastCanSet(effects);
        if PerformAll(effects[..n]).Ok? {
          SetSucceedsExactly(PerformAll(effects[..n]).value, effects[n].path, effects[n].value);
        }
      }
    }
  }

  lemma {:induction false} EffectsHold(effects: Effects)
    requires SetsApart(effects) && PerformAll(effects).Ok?
    ensures HoldsAll(PerformAll(effects).value, effects)
    decreases |effects|
  {
    if effects != [] {
      var n := |effects| - 1;
      assert forall i :: 0 <= i < n ==> effects[..n][i] == effects[i];
      EffectsHold(effects[..n]);
      if effects[n].Set? {
        OneMoreHolds(PerformAll(effects[..n]).value, effects);
      } else {
        SkipHolds(PerformAll(effects[..n]).value, effects);
      }
    }
  }

  lemma OneMoreHolds(doc: Claims, effects: Effects)
    requires SetsApart(effects) && effects != [] && effects[|effects| - 1].Set? && HoldsAll(doc, effects[..|effects| - 1])
    requires SetAt(doc, effects[|effects| - 1].path, effects[|effects| - 1].value).Ok?
    ensures HoldsAll(SetAt(doc, effects[|effects| - 1].path, effects[|effects| - 1].value).value, effects)
  {
    var n := |effects| - 1;
    var e := effects[n];
    var after := SetAt(doc, e.path, e.value).value;
    SetReadsBack(doc, e.path, e.value);
    forall i | 0 <= i < n && effects[i].Set? ensures Walk(Object(after), effects[i].path) == Some(effects[i].value) {
      assert effects[..n][i] == effects[i];
      SetLeavesOthers(doc, e.path, e.value, effects[i].path);
    }
    forall q | q != [] && ApartFromAll(effects, q) ensures Walk(Object(after), q).None? {
      assert ApartFromAll(effects[..n], q);
      SetLeavesOthers(doc, e.path, e.value, q);
    }
  }

  // ----- the mapping -----

  ghost predicate Maps(mapping: Mapping, attributes: Claims, id: string)
    requires id in mapping
  {
    Becomes(mapping[id], Field(attributes, id)).Some?
  }

  /** Every mapped attribute is at its claim, and nothing else is in the document. */
  ghost predicate IsMapped(mapping: Mapping, attributes: Claims, doc: Claims) {
    (forall id :: id in mapping && Maps(mapping, attributes, id) ==>
       Walk(Object(doc), Split(mapping[id].claim)) == Becomes(mapping[id], Field(attributes, id))) &&
    forall q :: q != [] && Untouched(mapping, attributes, q) ==> Walk(Object(doc), q).None?
  }

  /** No attribute is mapped to `q`, above or beneath it. */
  ghost predicate Untouched(mapping: Mapping, attributes: Claims, q: Path) {
    forall id :: id in mapping && Maps(mapping, attributes, id) ==> Apart(Split(mapping[id].claim), q)
  }

  lemma EffectsAre(mapping: Mapping, attributes: Claims, order: seq<string>)
    requires Visits(mapping, order)
    ensures forall id :: id in mapping <==> id in order
    ensures forall i :: 0 <= i < |order| ==> order[i] in mapping
    ensures forall i :: 0 <= i < |order| ==>
              EffectsOf(mapping, attributes, order)[i] == EffectOf(mapping[order[i]], Field(attributes, order[i]))
  {
    forall id ensures id in mapping <==> id in order {
      assert id in order <==> id in multiset(order);
      assert id in mapping.Keys <==> id in multiset(mapping.Keys);
    }
  }

  /** With claim paths apart, mapping fails exactly when an attribute cannot be mapped, and
      otherwise gives each attribute's value at its claim and nothing more. */
  lemma MappingExactly(mapping: Mapping, attributes: Claims, order: seq<string>)
    requires Visits(mapping, order) && PathsApart(mapping)
    ensures var r := PerformAll(EffectsOf(mapping, attributes, order));
            (r.Err? <==> exists id :: id in mapping && Unmappable(mapping[id], Field(attributes, id))) &&
            (r.Ok? ==> IsMapped(mapping, attributes, r.value))
  {
    var effects := EffectsOf(mapping, attributes, order);
    EffectsAre(mapping, attributes, order);
    forall i | 0 <= i < |order|
      ensures effects[i].Fail? <==> Unmappable(mapping[order[i]], Field(attributes, order[i]))
      ensures effects[i].Set? ==> effects[i].path == Split(mapping[order[i]].claim) && mapping[order[i]].claim != "" &&
                                  Becomes(mapping[order[i]], Field(attributes, order[i])) == Some(effects[i].value)
    {
      EffectIs(mapping[order[i]], Field(attributes, order[i]));
    }
    FailsExactly(effects);
    if PerformAll(effects).Ok? {
      EffectsHold(effects);
      DocumentIsMapped(mapping, attributes, order, PerformAll(effects).value);
    } else {
      var i :| 0 <= i < |effects| && effects[i].Fail?;
      assert Unmappable(mapping[order[i]], Field(attributes, order[i]));
    }
    if id :| id in mapping && Unmappable(mapping[id], Field(attributes, id)) {
      var i :| 0 <= i < |order| && order[i] == id;
      assert effects[i].Fail?;
    }
  }

  lemma DocumentIsMapped(mapping: Mapping, attributes: Claims, order: seq<string>, doc: Claims)
    requires Visits(mapping, order) && HoldsAll(doc, EffectsOf(mapping, attributes, order))
    requires forall i :: 0 <= i < |order| ==> !EffectsOf(mapping, attributes, order)[i].Fail?
    ensures IsMapped(mapping, attributes, doc)
  {
    var effects := EffectsOf(mapping, attributes, order);
    EffectsAre(mapping, attributes, order);
    forall id | id in mapping && Maps(mapping, attributes, id)
      ensures Walk(Object(doc), Split(mapping[id].claim)) == Becomes(mapping[id], Field(attributes, id))
    {
      var i :| 0 <= i < |order| && order[i] == id;
      EffectIs(mapping[id], Field(attributes, id));
      assert effects[i].Set?;
    }
    forall q | q != [] && Untouched(mapping, attributes, q)
      ensures Walk(Object(doc), q).None?
    {
      forall i | 0 <= i < |effects| && effects[i].Set? ensures Apart(effects[i].path, q) {
        EffectIs(mapping[order[i]], Field(attributes, order[i]));
        assert Maps(mapping, attributes, order[i]);
      }
      assert ApartFromAll(effects, q);
    }
  }
}
