/**
  A portable delta applied leniently to any document: the base may have diverged.

  What results is the held document without the dropped identities, overridden by what the
  delta sent, in canonical order; the report counts what did not line up.
 */
module Portable {
  import opened Wrappers
  import opened Seqs
  import opened Cbor
  import opened Model
  import opened Owners
  import opened Values
  import opened Records
  import opened Sections
  import opened Snapshot
  import opened Order
  import opened CanonDoc
  import opened Acts
  import opened Delta
  import opened Apply
  import opened DeltaRecords
  import opened DeltaRoundTrip
  import opened DeltaTheorems

  // ---- the diff as sets ------------------------------------------------------------

  function DroppedIds(base: Doc, target: Doc): set<Uuid> {
    Elems(Ids(base)) - Elems(Ids(target))
  }

  function MadeIds(base: Doc, target: Doc): set<Uuid> {
    Elems(Ids(target)) - Elems(Ids(base))
  }

  function ChangedIds(base: Doc, target: Doc): set<Uuid> {
    set u | u in Elems(Ids(base)) && u in Ids(target) && At(base, u) != At(target, u)
  }

  /** The sets of a diff do not depend on the order of either side. */
  lemma DiffSame(base: Doc, target: Doc, b: Doc, t: Doc)
    requires SameElements(base, b) && SameElements(target, t)
    ensures DroppedIds(base, target) == DroppedIds(b, t) && MadeIds(base, target) == MadeIds(b, t)
    ensures ChangedIds(base, target) == ChangedIds(b, t)
  {
    hide At;
    assert Elems(Ids(base)) == Elems(Ids(b)) && Elems(Ids(target)) == Elems(Ids(t));
  }

  function Updated(acts: Acts): set<Uuid> {
    set a | a in acts && a.Update? :: a.id
  }

  function Inserted(acts: Acts): set<Uuid> {
    set a | a in acts && a.Create? :: a.id
  }

  lemma KindsFind(acts: Acts, u: Uuid)
    requires NoDup(ActIds(acts))
    ensures u in Deletes(acts) <==> Find(acts, u).Some? && Find(acts, u).value.Delete?
    ensures u in Updated(acts) <==> Find(acts, u).Some? && Find(acts, u).value.Update?
    ensures u in Inserted(acts) <==> Find(acts, u).Some? && Find(acts, u).value.Create?
  {
    forall a | a in acts && a.id == u ensures Find(acts, u) == Some(a) {
      var i :| 0 <= i < |acts| && acts[i] == a;
      FoundAt(acts, i);
    }
  }

  /** The records of an encoded delta are its diff. */
  lemma ActsAreDiff(tables: Tables, portable: bool, base: Doc, result: Doc, recs: seq<Record>)
    requires DistinctIds(base) && DistinctIds(result) && IsPlan(tables, portable, base, result, recs)
    requires forall rec :: rec in recs ==> InBase(base, rec)
    ensures
      var acts := ActsOf(base, result, recs);
      && Deletes(acts) == DroppedIds(base, result)
      && Updated(acts) == ChangedIds(base, result)
      && Inserted(acts) == MadeIds(base, result)
  {
    hide IsPlan, ActsOf, AllPlanned, TakesIds, Deletes, Updated, Inserted, DroppedIds, ChangedIds, MadeIds, Find,
      Faithful;
    var acts := ActsOf(base, result, recs);
    PlanFacts(tables, portable, base, result, recs);
    forall u
      ensures u in Deletes(acts) <==> u in DroppedIds(base, result)
      ensures u in Updated(acts) <==> u in ChangedIds(base, result)
      ensures u in Inserted(acts) <==> u in MadeIds(base, result)
    {
      KindsFind(acts, u);
      FoundFaithful(tables, portable, base, result, recs, u);
      FaithfulKinds(base, result, u, Find(acts, u));
    }
  }

  lemma FaithfulKinds(base: Doc, result: Doc, u: Uuid, found: Option<Act>)
    requires Faithful(base, result, u, found)
    ensures found.Some? && found.value.Delete? <==> u in DroppedIds(base, result)
    ensures found.Some? && found.value.Update? <==> u in ChangedIds(base, result)
    ensures found.Some? && found.value.Create? <==> u in MadeIds(base, result)
  {
    hide At, Carry;
  }

  // ---- the counters are set sizes --------------------------------------------------

  lemma ActIdsTail(acts: Acts)
    requires acts != [] && NoDup(ActIds(acts))
    ensures NoDup(ActIds(acts[1..])) && acts[0].id !in ActIds(acts[1..])
  {
    assert ActIds(acts) == [acts[0].id] + ActIds(acts[1..]);
    NoDupParts([acts[0].id], ActIds(acts[1..]));
  }

  lemma InActIds(acts: Acts)
    ensures forall a :: a in acts ==> a.id in ActIds(acts)
  {
    forall a | a in acts ensures a.id in ActIds(acts) {
      var i :| 0 <= i < |acts| && acts[i] == a;
      assert ActIds(acts)[i] == a.id;
    }
  }

  /** The three kinds of identity a first record adds to what the others name, and that it is new to them. */
  lemma KindsHead(acts: Acts)
    requires acts != [] && NoDup(ActIds(acts))
    ensures
      var a, rest := acts[0], acts[1..];
      && Deletes(acts) == Deletes(rest) + (if a.Delete? then {a.id} else {})
      && Updated(acts) == Updated(rest) + (if a.Update? then {a.id} else {})
      && Inserted(acts) == Inserted(rest) + (if a.Create? then {a.id} else {})
      && NoDup(ActIds(rest)) && a.id !in Deletes(rest) + Updated(rest) + Inserted(rest)
  {
    hide NoDup;
    ActIdsTail(acts);
    InActIds(acts[1..]);
    assert acts == [acts[0]] + acts[1..];
  }

  lemma GrowSet<T>(big: set<T>, small: set<T>, x: T, grows: bool)
    requires x !in small && big == small + (if grows then {x} else {})
    ensures |big| == |small| + (if grows then 1 else 0)
  {
  }

  lemma GrowOutside<T>(small: set<T>, held: set<T>, x: T)
    requires x !in small
    ensures |(small + {x}) - held| == |small - held| + (if x in held then 0 else 1)
  {
    if x in held {
      assert (small + {x}) - held == small - held;
    } else {
      assert (small + {x}) - held == (small - held) + {x};
    }
  }

  lemma GrowInside<T>(small: set<T>, held: set<T>, x: T)
    requires x !in small
    ensures |(small + {x}) * held| == |small * held| + (if x in held then 1 else 0)
  {
    if x in held {
      assert (small + {x}) * held == (small * held) + {x};
    } else {
      assert (small + {x}) * held == small * held;
    }
  }

  lemma NoKinds()
    ensures Deletes([]) == {} && Updated([]) == {} && Inserted([]) == {}
  {
  }

  lemma {:induction false} NoopsAreSize(held: set<Uuid>, acts: Acts)
    requires NoDup(ActIds(acts))
    ensures CountNoops(held, acts) == |Deletes(acts) - held|
  {
    hide NoDup, ActIds, Deletes;
    if acts == [] {
      NoKinds();
      assert Deletes(acts) - held == {};
    } else {
      var a, rest := acts[0], acts[1..];
      KindsHead(acts);
      NoopsAreSize(held, rest);
      GrowOutside(Deletes(rest), held, a.id);
    }
  }

  lemma OutsideAfter<T>(all: set<T>, small: set<T>, held: set<T>, x: T, grows: bool)
    requires x !in small && all == small + (if grows then {x} else {})
    ensures |all - held| == |small - held| + (if grows && x !in held then 1 else 0)
  {
    if grows {
      GrowOutside(small, held, x);
    } else {
      assert all == small;
    }
  }

  lemma InsideAfter<T>(all: set<T>, small: set<T>, held: set<T>, x: T, grows: bool)
    requires x !in small && all == small + (if grows then {x} else {})
    ensures |all * held| == |small * held| + (if grows && x in held then 1 else 0)
  {
    if grows {
      GrowInside(small, held, x);
    } else {
      assert all == small;
    }
  }

  lemma NoCounts(held: set<Uuid>)
    ensures CountUpserts(held, []) == CountReplaced(held, []) == 0
  {
  }

  lemma CountsHead(held: set<Uuid>, acts: Acts)
    requires acts != []
    ensures
      var a, rest := acts[0], acts[1..];
      && CountUpserts(held, acts) == (if a.Update? && a.id !in held then 1 else 0) + CountUpserts(held, rest)
      && CountReplaced(held, acts) == (if a.Create? && a.id in held then 1 else 0) + CountReplaced(held, rest)
  {
  }

  lemma {:induction false} UpsertsAreSize(held: set<Uuid>, acts: Acts)
    requires NoDup(ActIds(acts))
    ensures CountUpserts(held, acts) == |Updated(acts) - held|
  {
    hide NoDup, ActIds, Updated, CountUpserts;
    if acts == [] {
      NoKinds();
      NoCounts(held);
      assert Updated(acts) - held == {};
    } else {
      var a, rest := acts[0], acts[1..];
      KindsHead(acts);
      CountsHead(held, acts);
      UpsertsAreSize(held, rest);
      OutsideAfter(Updated(acts), Updated(rest), held, a.id, a.Update?);
    }
  }

  lemma {:induction false} ReplacedAreSize(held: set<Uuid>, acts: Acts)
    requires NoDup(ActIds(acts))
    ensures CountReplaced(held, acts) == |Inserted(acts) * held|
  {
    hide NoDup, ActIds, Inserted, CountReplaced;
    if acts == [] {
      NoKinds();
      NoCounts(held);
      assert Inserted(acts) * held == {};
    } else {
      var a, rest := acts[0], acts[1..];
      KindsHead(acts);
      CountsHead(held, acts);
      ReplacedAreSize(held, rest);
      InsideAfter(Inserted(acts), Inserted(rest), held, a.id, a.Create?);
    }
  }

  // ---- the document a portable delta leaves ----------------------------------------

  /** What the run leaves for an identity, before backpointers are re-derived. */
  function Merged(base: Doc, result: Doc, held: Doc, u: Uuid): Element
    requires u in Ids(held) || u in ChangedIds(base, result) + MadeIds(base, result)
  {
    if u in ChangedIds(base, result) + MadeIds(base, result) then Carry(result, At(result, u)) else At(held, u)
  }

  ghost predicate Survives(base: Doc, result: Doc, held: Doc, u: Uuid) {
    (u in Ids(held) && u !in DroppedIds(base, result)) || u in ChangedIds(base, result) + MadeIds(base, result)
  }

  lemma PortableWhole(portable: bool, base: Doc, result: Doc, recs: seq<Record>, u: Uuid)
    requires portable && AllPlanned(portable, base, result, recs) && forall rec :: rec in recs ==> InBase(base, rec)
    requires Find(ActsOf(base, result, recs), u).Some? && Find(ActsOf(base, result, recs), u).value.Update?
    ensures Find(ActsOf(base, result, recs), u).value.whole
  {
    hide Carry, At, Find;
    var acts := ActsOf(base, result, recs);
    var i :| 0 <= i < |acts| && acts[i] == Find(acts, u).value;
    assert Planned(portable, base, result, recs[i]);
  }

  lemma NowMerged(base: Doc, result: Doc, held: Doc, acts: Acts, u: Uuid)
    requires Faithful(base, result, u, Find(acts, u))
    requires Find(acts, u).Some? && Find(acts, u).value.Update? ==> Find(acts, u).value.whole
    requires u in Ids(held) || (Find(acts, u).Some? && !Find(acts, u).value.Delete?)
    ensures u in Ids(held) || u in ChangedIds(base, result) + MadeIds(base, result)
    ensures Now(held, acts, u) == Merged(base, result, held, u)
  {
    hide At, Carry, Find, ChangedIds, MadeIds, DroppedIds;
    FaithfulKinds(base, result, u, Find(acts, u));
  }

  /** The assembled document of a portable run over any document. */
  lemma PortableAssembles(tables: Tables, base: Doc, result: Doc, recs: seq<Record>, held: Doc)
    requires DistinctIds(base) && DistinctIds(result) && DistinctIds(held)
    requires IsPlan(tables, true, base, result, recs) && forall rec :: rec in recs ==> InBase(base, rec)
    ensures
      var acts := ActsOf(base, result, recs);
      && Run(true, Ids(held), INITIAL, acts).Some?
      && var st := Run(true, Ids(held), INITIAL, acts).value;
         && st.shipped == Shipped(acts)
         && st.noops == |DroppedIds(base, result) - Elems(Ids(held))|
         && st.upserts == |ChangedIds(base, result) - Elems(Ids(held))|
         && st.replacedCreates == |MadeIds(base, result) * Elems(Ids(held))|
         && DistinctIds(Assemble(held, st))
         && (forall u :: u in Ids(Assemble(held, st)) ==>
              && (u in Ids(held) || u in ChangedIds(base, result) + MadeIds(base, result))
              && At(Assemble(held, st), u) == Merged(base, result, held, u))
  {
    hide IsPlan, ActsOf, AllPlanned, TakesIds, Carried, Means, Run, Assemble, Now, Merged, ChangedIds, MadeIds,
      DroppedIds, Faithful, Find, At, Deletes, Updated, Inserted, Admits, Fresh, Pick;
    var acts := ActsOf(base, result, recs);
    PortableRuns(tables, base, result, recs, held);
    var st := Run(true, Ids(held), INITIAL, acts).value;
    AssembleMeans(held, acts, st);
    MeansCounts(base, result, held, acts, st);
    ActsAreDiff(tables, true, base, result, recs);
    var doc := Assemble(held, st);
    forall u | u in Ids(doc)
      ensures u in Ids(held) || u in ChangedIds(base, result) + MadeIds(base, result)
      ensures At(doc, u) == Merged(base, result, held, u)
    {
      var i :| 0 <= i < |doc| && Ids(doc)[i] == u;
      AtPosition(doc, i);
      PortableNow(tables, base, result, recs, held, u);
    }
  }

  lemma PortableNow(tables: Tables, base: Doc, result: Doc, recs: seq<Record>, held: Doc, u: Uuid)
    requires DistinctIds(base) && DistinctIds(result)
    requires IsPlan(tables, true, base, result, recs) && forall rec :: rec in recs ==> InBase(base, rec)
    requires
      var found := Find(ActsOf(base, result, recs), u);
      u in Ids(held) || (found.Some? && !found.value.Delete?)
    ensures u in Ids(held) || u in ChangedIds(base, result) + MadeIds(base, result)
    ensures Now(held, ActsOf(base, result, recs), u) == Merged(base, result, held, u)
  {
    hide IsPlan, ActsOf, AllPlanned, TakesIds, Now, Merged, ChangedIds, MadeIds, Faithful, Find;
    var acts := ActsOf(base, result, recs);
    PlanFacts(tables, true, base, result, recs);
    FoundFaithful(tables, true, base, result, recs, u);
    if Find(acts, u).Some? && Find(acts, u).value.Update? {
      PortableWhole(true, base, result, recs, u);
    }
    NowMerged(base, result, held, acts, u);
  }

  lemma PortableRuns(tables: Tables, base: Doc, result: Doc, recs: seq<Record>, held: Doc)
    requires DistinctIds(base) && DistinctIds(result) && DistinctIds(held)
    requires IsPlan(tables, true, base, result, recs) && forall rec :: rec in recs ==> InBase(base, rec)
    ensures
      var acts := ActsOf(base, result, recs);
      && NoDup(ActIds(acts)) && Carried(acts)
      && Run(true, Ids(held), INITIAL, acts).Some?
      && Means(Ids(held), acts, Run(true, Ids(held), INITIAL, acts).value)
  {
    hide IsPlan, ActsOf, AllPlanned, TakesIds, Carried, Means, Run;
    var acts := ActsOf(base, result, recs);
    PlanFacts(tables, true, base, result, recs);
    PlanAdmits(true, base, result, recs);
    NothingDone(Ids(held));
    assert [] + acts == acts;
    RunMeans(true, Ids(held), [], acts, INITIAL);
  }

  lemma MeansCounts(base: Doc, result: Doc, held: Doc, acts: Acts, st: State)
    requires NoDup(ActIds(acts)) && Means(Ids(held), acts, st)
    ensures st.shipped == Shipped(acts)
    ensures st.noops == |Deletes(acts) - Elems(Ids(held))|
    ensures st.upserts == |Updated(acts) - Elems(Ids(held))|
    ensures st.replacedCreates == |Inserted(acts) * Elems(Ids(held))|
  {
    hide Deletes, Updated, Inserted, Placed;
    NoopsAreSize(Elems(Ids(held)), acts);
    UpsertsAreSize(Elems(Ids(held)), acts);
    ReplacedAreSize(Elems(Ids(held)), acts);
  }

  lemma {:induction false} FreshHas(added: set<Uuid>, acts: Acts, a: Act)
    requires a in acts && !a.Delete? && a.id !in added
    ensures a.e in Fresh(added, acts)
  {
    if a != acts[0] {
      assert a in acts[1..];
      FreshHas(added, acts[1..], a);
    }
  }

  /** Which identities are left: those held and not dropped, and all that was sent. */
  lemma PortableIds(tables: Tables, base: Doc, result: Doc, recs: seq<Record>, held: Doc, u: Uuid)
    requires DistinctIds(base) && DistinctIds(result) && DistinctIds(held)
    requires IsPlan(tables, true, base, result, recs) && forall rec :: rec in recs ==> InBase(base, rec)
    requires Run(true, Ids(held), INITIAL, ActsOf(base, result, recs)).Some?
    ensures
      u in Ids(Assemble(held, Run(true, Ids(held), INITIAL, ActsOf(base, result, recs)).value))
      <==> Survives(base, result, held, u)
  {
    hide IsPlan, ActsOf, AllPlanned, TakesIds, Means, Run, Assemble, Now, ChangedIds, MadeIds, DroppedIds, Find, At,
      Deletes, Updated, Inserted, Fresh;
    var acts, ids := ActsOf(base, result, recs), Elems(Ids(held));
    PortableRuns(tables, base, result, recs, held);
    AssembleMeans(held, acts, Run(true, Ids(held), INITIAL, acts).value);
    ActsAreDiff(tables, true, base, result, recs);
    KindsFind(acts, u);
    FreshMembers(ids, acts, u);
    DiffApart(base, result);
  }

  lemma FreshMembers(ids: set<Uuid>, acts: Acts, u: Uuid)
    requires Carried(acts) && NoDup(ActIds(acts))
    ensures u in Ids(Fresh(ids, acts)) <==> u !in ids && Find(acts, u).Some? && !Find(acts, u).value.Delete?
  {
    hide Fresh, Find;
    if u in Ids(Fresh(ids, acts)) {
      var i :| 0 <= i < |Fresh(ids, acts)| && Ids(Fresh(ids, acts))[i] == u;
      FreshAt(ids, acts, i);
    }
    if u !in ids && Find(acts, u).Some? && !Find(acts, u).value.Delete? {
      FreshHas(ids, acts, Find(acts, u).value);
      var i :| 0 <= i < |Fresh(ids, acts)| && Fresh(ids, acts)[i] == Find(acts, u).value.e;
      assert Ids(Fresh(ids, acts))[i] == u;
    }
  }

  lemma DiffApart(base: Doc, result: Doc)
    ensures DroppedIds(base, result) !! (ChangedIds(base, result) + MadeIds(base, result))
  {
    hide At;
  }

  // ---- backpointers re-derived over the merged document ----------------------------

  /**
    `r` is `e` as sent, except that a backpointer which spelled its derivation in the
    target now spells its derivation in `doc`.
   */
  ghost predicate Rederived(target: Doc, doc: Doc, e: Element, r: Element) {
    && r.id == e.id && r.ty == e.ty && r.props.Keys == e.props.Keys
    && forall key :: key in e.props ==> r.props[key] == RederivedValue(target, doc, e, key)
  }

  function RederivedValue(target: Doc, doc: Doc, e: Element, key: Prop): Value
    requires key in e.props
  {
    if key == OwningRelationship && Matches(DerivedOwner(target, 0, e.id), e.props[key])
    then OwnerValue(DerivedOwner(doc, 0, e.id))
    else if key == OwningRelatedElement && Matches(DerivedOwner(target, 1, e.id), e.props[key])
    then OwnerValue(DerivedOwner(doc, 1, e.id))
    else e.props[key]
  }

  lemma FillRederives(tables: Tables, target: Doc, doc: Doc, e: Element)
    requires KeysKnown(FieldsOf(tables, e.ty), e)
    ensures
      Rederived(target, doc, e,
        FillElement(FieldsOf(tables, e.ty), AbsentBits(FieldsOf(tables, e.ty), e),
          DerivedOwner(doc, 0, e.id), DerivedOwner(doc, 1, e.id), Carry(target, e)))
  {
    hide FillElement, DerivedOwner, FieldsOf, AbsentBits, KeysKnown, Matches;
    var fields := FieldsOf(tables, e.ty);
    var owning, related := DerivedOwner(doc, 0, e.id), DerivedOwner(doc, 1, e.id);
    var r := FillElement(fields, AbsentBits(fields, e), owning, related, Carry(target, e));
    forall key
      ensures key in r.props <==> key in e.props
      ensures key in e.props ==> r.props[key] == RederivedValue(target, doc, e, key)
    {
      FillKey(fields, e, DerivedOwner(target, 0, e.id), DerivedOwner(target, 1, e.id), owning, related, key);
    }
    FillNamed(fields, AbsentBits(fields, e), owning, related, Carry(target, e));
  }

  lemma FillNamed(fields: seq<Field>, bits: nat, owning: Option<Uuid>, related: Option<Uuid>, e: Element)
    ensures
      var r := FillElement(fields, bits, owning, related, e);
      r.id == e.id && r.ty == e.ty
  {
  }

  /** One property of an element, left out against one derivation and filled from another. */
  lemma FillKey(
      fields: seq<Field>, e: Element, owning0: Option<Uuid>, related0: Option<Uuid>, owning: Option<Uuid>,
      related: Option<Uuid>, key: Prop)
    requires KeysKnown(fields, e)
    ensures
      var kept := Element(e.id, e.ty, Kept(e, Implied(owning0, related0)));
      var r := FillElement(fields, AbsentBits(fields, e), owning, related, kept);
      && (key in r.props <==> key in e.props)
      && (key in e.props ==>
            r.props[key] ==
              if key == OwningRelationship && Matches(owning0, e.props[key]) then OwnerValue(owning)
              else if key == OwningRelatedElement && Matches(related0, e.props[key]) then OwnerValue(related)
              else e.props[key])
  {
    hide Bit, Ordinal, Matches, OwnerValue;
  }

  /** Filling backpointers does not touch the forward lists. */
  lemma FillForward(fields: seq<Field>, bits: nat, owning: Option<Uuid>, related: Option<Uuid>, e: Element)
    ensures SameForward(FillElement(fields, bits, owning, related, e), e)
  {
    hide Bit, Ordinal;
  }

  lemma FillOneForward(tables: Tables, doc: Doc, shipped: seq<Option<Uuid>>, pairs: Pairs, e: Element)
    ensures SameForward(FillOne(tables, doc, shipped, pairs, e), e)
  {
    hide FillElement, DerivedOwner, BitsFor, FieldsOf;
    var bits := BitsFor(shipped, pairs, e.id, |shipped|);
    if bits.Some? {
      FillForward(FieldsOf(tables, e.ty), bits.value, DerivedOwner(doc, 0, e.id), DerivedOwner(doc, 1, e.id), e);
    }
  }

  lemma FilledStructure(tables: Tables, doc: Doc, shipped: seq<Option<Uuid>>, pairs: Pairs)
    ensures SameStructure(doc, FillShipped(tables, doc, shipped, pairs))
  {
    hide FillOne, ListIds;
    var filled := FillShipped(tables, doc, shipped, pairs);
    forall i | 0 <= i < |doc| ensures SameForward(doc[i], filled[i]) {
      FillOneForward(tables, doc, shipped, pairs, doc[i]);
    }
  }

  /** What the result holds for `u`: what was sent for it with owners re-derived, else what was held. */
  ghost predicate Overrides(base: Doc, target: Doc, held: Doc, value: Doc, u: Uuid, r: Element)
    requires Survives(base, target, held, u)
  {
    if u in ChangedIds(base, target) + MadeIds(base, target) then Rederived(target, value, At(target, u), r)
    else r == At(held, u)
  }

  lemma FilledOverrides(
      tables: Tables, sp: Spelling, base: Doc, result: Doc, recs: seq<Record>, held: Doc, doc: Doc, value: Doc, u: Uuid)
    requires DistinctIds(base) && DistinctIds(result)
    requires IsPlan(tables, true, base, result, recs) && forall rec :: rec in recs ==> InBase(base, rec)
    requires WriteRecords(tables, sp, true, base, result, recs).Ok?
    requires Survives(base, result, held, u) && SameStructure(doc, value)
    ensures
      Overrides(base, result, held, value, u,
        FillOne(tables, doc, Shipped(ActsOf(base, result, recs)), RecordExceptions(tables, recs, 0),
          Merged(base, result, held, u)))
  {
    hide IsPlan, WriteRecords, ActsOf, RecordExceptions, Carry, At, Rederived, Faithful, AllPlanned, TakesIds, Find,
      FillElement, DerivedOwner, AbsentBits, FieldsOf, KeysKnown, DroppedIds, Deletes, Updated, Inserted, Shipped,
      BitsFor, ChangedIds, MadeIds, SameStructure, ShippedOf;
    var acts, pairs := ActsOf(base, result, recs), RecordExceptions(tables, recs, 0);
    PlanFacts(tables, true, base, result, recs);
    SentBits(tables, sp, base, result, recs, u);
    if u in ChangedIds(base, result) + MadeIds(base, result) {
      DerivedOwnerSame(doc, value, 0, u);
      DerivedOwnerSame(doc, value, 1, u);
      SentIn(base, result);
      FillRederives(tables, result, value, At(result, u));
    }
  }

  lemma SentIn(base: Doc, result: Doc)
    ensures forall u :: u in ChangedIds(base, result) + MadeIds(base, result) ==> u in Ids(result)
  {
    hide At;
  }

  /** The bits the applier finds for an identity: the sent element's own, and none for what was not sent. */
  lemma SentBits(tables: Tables, sp: Spelling, base: Doc, result: Doc, recs: seq<Record>, u: Uuid)
    requires DistinctIds(base) && DistinctIds(result)
    requires IsPlan(tables, true, base, result, recs) && forall rec :: rec in recs ==> InBase(base, rec)
    requires WriteRecords(tables, sp, true, base, result, recs).Ok?
    ensures
      var bits := BitsFor(Shipped(ActsOf(base, result, recs)), RecordExceptions(tables, recs, 0), u, |recs|);
      if u in ChangedIds(base, result) + MadeIds(base, result) then
        && u in Ids(result)
        && KeysKnown(FieldsOf(tables, At(result, u).ty), At(result, u))
        && bits == Some(AbsentBits(FieldsOf(tables, At(result, u).ty), At(result, u)))
      else bits == None
  {
    hide IsPlan, WriteRecords, ActOf, RecordExceptions, At, Faithful, TakesIds, Find, AbsentBits, FieldsOf,
      KeysKnown, Deletes, Updated, Inserted, Shipped, BitsFor, ChangedIds, MadeIds, DroppedIds;
    var acts, pairs := ActsOf(base, result, recs), RecordExceptions(tables, recs, 0);
    PlanFacts(tables, true, base, result, recs);
    ActsAreDiff(tables, true, base, result, recs);
    KindsFind(acts, u);
    SentIn(base, result);
    var j := IndexOf(ActIds(acts), u);
    if u in ChangedIds(base, result) + MadeIds(base, result) {
      if Find(acts, u).value.Update? {
        PortableWhole(true, base, result, recs, u);
      }
      FoundIndex(acts, u);
      BitsForOne(acts, pairs, j, |acts|);
      assert recs[j] in recs;
      ActShips(true, base, result, recs[j]);
      RecordBits(tables, recs, 0, j);
      ShippedKeys(tables, sp, true, base, result, recs, j);
    } else {
      FoundIndex(acts, u);
      NotShipped(acts, u);
      BitsForNone(acts, pairs, u, |acts|);
    }
  }

  lemma FoundIndex(acts: Acts, u: Uuid)
    ensures
      var j := IndexOf(ActIds(acts), u);
      && (j < |acts| <==> Find(acts, u).Some?)
      && (j < |acts| ==> acts[j] == Find(acts, u).value && acts[j].id == u)
  {
  }
}
