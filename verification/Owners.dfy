/**
  Ownership derivation: an element's owner for a backpointer slot is the first element, in
  array order, whose forward list names it.
 */
module Owners {
  import opened Wrappers
  import opened Seqs
  import opened Model

  /** The first position at or after `from` whose forward list for `slot` names `id`. */
  function ClaimantFrom(doc: Doc, slot: nat, id: Uuid, from: nat): (r: Option<nat>)
    requires from <= |doc|
    ensures r.Some? ==> from <= r.value < |doc| && id in ListIds(doc[r.value], ForwardProp(slot))
    ensures r.Some? ==> forall k :: from <= k < r.value ==> id !in ListIds(doc[k], ForwardProp(slot))
    ensures r.None? ==> forall k :: from <= k < |doc| ==> id !in ListIds(doc[k], ForwardProp(slot))
    decreases |doc| - from
  {
    if from == |doc| then None
    else if id in ListIds(doc[from], ForwardProp(slot)) then Some(from)
    else ClaimantFrom(doc, slot, id, from + 1)
  }

  /** The identity a backpointer derives to: its first claimant's, or none where no list claims it. */
  function DerivedOwner(doc: Doc, slot: nat, id: Uuid): (r: Option<Uuid>)
    ensures
      r.Some? ==>
        exists i :: 0 <= i < |doc| && r.value == doc[i].id && id in ListIds(doc[i], ForwardProp(slot))
          && forall k :: 0 <= k < i ==> id !in ListIds(doc[k], ForwardProp(slot))
    ensures r.None? ==> forall k :: 0 <= k < |doc| ==> id !in ListIds(doc[k], ForwardProp(slot))
  {
    match ClaimantFrom(doc, slot, id, 0)
    case Some(i) => Some(doc[i].id)
    case None => None
  }

  // ---- the rule, by the properties' names -------------------------------------------

  /** `owner` is the first element whose list property `key` names `u`; none where no such list does. */
  ghost predicate FirstToName(doc: Doc, key: Prop, u: Uuid, owner: Option<nat>) {
    match owner
    case Some(i) =>
      && i < |doc| && u in ListIds(doc[i], key)
      && forall k :: 0 <= k < i ==> u !in ListIds(doc[k], key)
    case None => forall k :: 0 <= k < |doc| ==> u !in ListIds(doc[k], key)
  }

  /** A backpointer as the first element naming `u` makes it: a reference to it, or null. */
  ghost predicate SpellsFirst(doc: Doc, key: Prop, u: Uuid, v: Value) {
    exists owner ::
      FirstToName(doc, key, u, owner) && v == match owner case Some(i) => Ref(doc[i].id) case None => Null
  }

  /**
    `owningRelationship` derives from `ownedRelatedElement` lists, `owningRelatedElement` from
    `ownedRelationship` lists.
   */
  lemma SlotsByName(doc: Doc, u: Uuid)
    ensures FirstToName(doc, OwnedRelatedElement, u, ClaimantFrom(doc, 0, u, 0))
    ensures FirstToName(doc, OwnedRelationship, u, ClaimantFrom(doc, 1, u, 0))
    ensures BackProp(0) == OwningRelationship && BackProp(1) == OwningRelatedElement
  {
    hide ListIds;
  }

  /** Only one owner is the first. */
  lemma FirstIsOne(doc: Doc, key: Prop, u: Uuid, a: Option<nat>, b: Option<nat>)
    requires FirstToName(doc, key, u, a) && FirstToName(doc, key, u, b)
    ensures a == b
  {
    hide ListIds;
    if a.Some? && b.Some? {
      assert u in ListIds(doc[a.value], key) && u in ListIds(doc[b.value], key);
    }
  }

  /** The owner derived for each slot, as an identity. */
  lemma OwnersByName(doc: Doc, u: Uuid, v: Value)
    ensures
      SpellsFirst(doc, OwnedRelatedElement, u, v)
      <==> v == match DerivedOwner(doc, 0, u) case Some(o) => Ref(o) case None => Null
    ensures
      SpellsFirst(doc, OwnedRelationship, u, v)
      <==> v == match DerivedOwner(doc, 1, u) case Some(o) => Ref(o) case None => Null
  {
    hide ListIds, FirstToName, ClaimantFrom;
    SlotsByName(doc, u);
    forall owner | FirstToName(doc, OwnedRelatedElement, u, owner) ensures owner == ClaimantFrom(doc, 0, u, 0) {
      FirstIsOne(doc, OwnedRelatedElement, u, owner, ClaimantFrom(doc, 0, u, 0));
    }
    forall owner | FirstToName(doc, OwnedRelationship, u, owner) ensures owner == ClaimantFrom(doc, 1, u, 0) {
      FirstIsOne(doc, OwnedRelationship, u, owner, ClaimantFrom(doc, 1, u, 0));
    }
  }

  /** Two documents with the same identities and forward lists, position by position. */
  ghost predicate SameStructure(a: Doc, b: Doc) {
    && |a| == |b|
    && forall i :: 0 <= i < |a| ==> SameForward(a[i], b[i])
  }

  ghost predicate SameForward(a: Element, b: Element) {
    && a.id == b.id
    && ListIds(a, OwnedRelationship) == ListIds(b, OwnedRelationship)
    && ListIds(a, OwnedRelatedElement) == ListIds(b, OwnedRelatedElement)
  }

  lemma ForwardSame(a: Element, b: Element, slot: nat)
    requires SameForward(a, b)
    ensures ListIds(a, ForwardProp(slot)) == ListIds(b, ForwardProp(slot))
  {
    hide ListIds;
  }

  /** Derivation reads nothing but identities and forward lists. */
  lemma {:induction false} ClaimantSame(a: Doc, b: Doc, slot: nat, id: Uuid, from: nat)
    requires SameStructure(a, b) && from <= |a|
    ensures ClaimantFrom(a, slot, id, from) == ClaimantFrom(b, slot, id, from)
    decreases |a| - from
  {
    hide ListIds, SameForward;
    if from < |a| {
      ForwardSame(a[from], b[from], slot);
      ClaimantSame(a, b, slot, id, from + 1);
    }
  }

  lemma DerivedOwnerSame(a: Doc, b: Doc, slot: nat, id: Uuid)
    requires SameStructure(a, b)
    ensures DerivedOwner(a, slot, id) == DerivedOwner(b, slot, id)
  {
    ClaimantSame(a, b, slot, id, 0);
    var r := ClaimantFrom(a, slot, id, 0);
    if r.Some? {
      assert SameForward(a[r.value], b[r.value]);
    }
  }

  // ---- the derivation as the code runs it ------------------------------------------

  type OwnerTable = array<Option<nat>>

  /** `owners` holds, for each position, its first claimant among the first `upto` elements. */
  ghost predicate Derived(doc: Doc, slot: nat, owners: OwnerTable, upto: nat)
    requires upto <= |doc|
    reads owners
  {
    && owners.Length == |doc|
    && forall j :: 0 <= j < |doc| ==> owners[j] == ClaimantFrom(doc[..upto], slot, doc[j].id, 0)
  }

  lemma {:induction false} ClaimantExtends(doc: Doc, slot: nat, id: Uuid, upto: nat, from: nat)
    requires from <= upto < |doc|
    ensures
      var before := ClaimantFrom(doc[..upto], slot, id, from);
      ClaimantFrom(doc[..upto + 1], slot, id, from)
      == (if before.Some? then before
          else if id in ListIds(doc[upto], ForwardProp(slot)) then Some(upto) else None)
    decreases upto - from
  {
    if from < upto {
      ClaimantExtends(doc, slot, id, upto, from + 1);
    }
  }

  /** `index` holds the position of every identity. */
  ghost predicate Indexes(doc: Doc, index: map<Uuid, nat>) {
    && (forall u :: u in index ==> index[u] < |doc| && doc[index[u]].id == u)
    && (forall j :: 0 <= j < |doc| ==> doc[j].id in index && index[doc[j].id] == j)
  }

  /** The owner of position `j` after claiming the first `k` targets of element `i`. */
  function Claimed(before: Option<nat>, id: Uuid, targets: seq<Uuid>, i: nat): Option<nat> {
    if before.None? && id in targets then Some(i) else before
  }

  /** One element's list claims what nothing before it claimed. */
  method ClaimList(doc: Doc, index: map<Uuid, nat>, i: nat, slot: nat, owners: OwnerTable)
    requires Indexes(doc, index) && i < |doc| && Derived(doc, slot, owners, i)
    modifies owners
    ensures Derived(doc, slot, owners, i + 1)
  {
    hide ClaimantFrom, ListIds;
    var targets := ListIds(doc[i], ForwardProp(slot));
    ghost var before := owners[..];
    for k := 0 to |targets|
      invariant owners.Length == |doc|
      invariant forall j :: 0 <= j < |doc| ==> owners[j] == Claimed(before[j], doc[j].id, targets[..k], i)
    {
      assert targets[..k + 1] == targets[..k] + [targets[k]];
      if targets[k] in index {
        var j := index[targets[k]];
        if owners[j].None? {
          owners[j] := Some(i);
        }
      }
    }
    assert targets[..|targets|] == targets;
    forall j | 0 <= j < |doc|
      ensures owners[j] == ClaimantFrom(doc[..i + 1], slot, doc[j].id, 0)
    {
      ClaimantExtends(doc, slot, doc[j].id, i, 0);
    }
  }

  lemma NoneDerived(doc: Doc, slot: nat, owners: OwnerTable)
    requires owners.Length == |doc| && forall j :: 0 <= j < |doc| ==> owners[j] == None
    ensures Derived(doc, slot, owners, 0)
  {
  }

  lemma AllDerived(doc: Doc, slot: nat, owners: OwnerTable)
    requires Derived(doc, slot, owners, |doc|)
    ensures owners.Length == |doc|
    ensures forall j :: 0 <= j < |doc| ==> owners[j] == ClaimantFrom(doc, slot, doc[j].id, 0)
  {
    hide ClaimantFrom;
    assert doc[..|doc|] == doc;
  }

  /** Each element's first claimant per slot: the rule the encoder and the decoder both run. */
  method DeriveOwners(doc: Doc) returns (owning: OwnerTable, related: OwnerTable)
    requires DistinctIds(doc)
    ensures owning.Length == |doc| && related.Length == |doc|
    ensures forall j :: 0 <= j < |doc| ==> owning[j] == ClaimantFrom(doc, 0, doc[j].id, 0)
    ensures forall j :: 0 <= j < |doc| ==> related[j] == ClaimantFrom(doc, 1, doc[j].id, 0)
    ensures forall j :: 0 <= j < |doc| ==> FirstToName(doc, OwnedRelatedElement, doc[j].id, owning[j])
    ensures forall j :: 0 <= j < |doc| ==> FirstToName(doc, OwnedRelationship, doc[j].id, related[j])
  {
    hide ClaimantFrom, Indexes, DistinctIds, FirstToName;
    var index := IndexIds(doc);
    owning := new Option<nat>[|doc|](_ => None);
    related := new Option<nat>[|doc|](_ => None);
    NoneDerived(doc, 0, owning);
    NoneDerived(doc, 1, related);
    for i := 0 to |doc|
      invariant Derived(doc, 0, owning, i) && Derived(doc, 1, related, i)
    {
      ClaimList(doc, index, i, 0, owning);
      ClaimList(doc, index, i, 1, related);
    }
    AllDerived(doc, 0, owning);
    AllDerived(doc, 1, related);
    forall j | 0 <= j < |doc|
      ensures FirstToName(doc, OwnedRelatedElement, doc[j].id, owning[j])
      ensures FirstToName(doc, OwnedRelationship, doc[j].id, related[j])
    {
      SlotsByName(doc, doc[j].id);
    }
  }

  method IndexIds(doc: Doc) returns (index: map<Uuid, nat>)
    requires DistinctIds(doc)
    ensures Indexes(doc, index)
  {
    index := map[];
    for i := 0 to |doc|
      invariant forall u :: u in index ==> index[u] < |doc| && doc[index[u]].id == u
      invariant forall j :: 0 <= j < i ==> doc[j].id in index
      invariant forall u :: u in index ==> index[u] < i
    {
      if doc[i].id !in index {
        index := index[doc[i].id := i];
      }
    }
    forall j | 0 <= j < |doc| ensures index[doc[j].id] == j {
      assert Ids(doc)[index[doc[j].id]] == Ids(doc)[j];
    }
  }
}
