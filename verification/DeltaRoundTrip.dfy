/** Applying an encoded delta to its own base gives the target in applied order, for both modes. */
module DeltaRoundTrip {
  import opened Wrappers
  import opened Seqs
  import opened Cbor
  import opened Model
  import opened Owners
  import opened Values
  import opened Records
  import opened Sections
  import opened Snapshot
  import opened Patch
  import opened Order
  import opened CanonDoc
  import opened Acts
  import opened Delta
  import opened Apply
  import opened DeltaRecords

  // ---- the order both sides reproduce ----------------------------------------------

  /**
    Whoever lists the base's survivors first and the created elements in result order gets
    the result's order back, as long as the forward lists are the result's.
   */
  lemma ReplayedOrder(base: Doc, target: Doc, doc: Doc)
    requires DistinctIds(base) && DistinctIds(target) && SameForwards(doc, AppliedOrder(base, target))
    requires
      var result := AppliedOrder(base, target);
      Ids(doc) == Pick(Ids(base), Elems(Ids(result)), true) + Ids(Created(base, result))
    ensures Ids(Canonical(doc)) == Ids(AppliedOrder(base, target))
  {
    hide Canon, GraphOf, SameForwards, SameElements, Arranges, Pick, At;
    var arranged, result := Arranged(base, target), AppliedOrder(base, target);
    var held := Elems(Ids(base));
    ArrangedSplits(base, target);
    GraphArranged(arranged);
    CanonReplays(GraphOf(arranged), Ids(arranged), held);
    CanonDocSame(arranged);
    SameElementsForwards(arranged, result);
    ForwardsCompose(arranged, result, doc);
    GraphSame(arranged, doc);
    assert Elems(Ids(result)) == Elems(Ids(target)) by {
      IdsOfResult(base, target);
    }
  }

  lemma ForwardsCompose(a: Doc, b: Doc, c: Doc)
    requires SameForwards(a, b) && SameForwards(c, b)
    ensures SameForwards(a, c)
  {
    hide At, ListIds;
    forall u | u in Ids(a) ensures u in Ids(c) && SameForward(At(a, u), At(c, u)) {
      assert SameForward(At(a, u), At(b, u)) && SameForward(At(c, u), At(b, u));
    }
  }

  lemma IdsOfResult(base: Doc, target: Doc)
    requires DistinctIds(base) && DistinctIds(target)
    ensures Elems(Ids(AppliedOrder(base, target))) == Elems(Ids(target))
    ensures forall u :: u in Ids(AppliedOrder(base, target)) <==> u in Ids(target)
  {
    hide CanonIds, ArrangedIds;
    assert forall u :: u in CanonIds(Arranged(base, target)) <==> u in ArrangedIds(base, target);
  }

  lemma ArrangedSplits(base: Doc, target: Doc)
    requires DistinctIds(base) && DistinctIds(target)
    ensures
      var arr, held := ArrangedIds(base, target), Elems(Ids(base));
      && Pick(arr, held, true) == Pick(Ids(base), Elems(Ids(target)), true)
      && arr == Pick(arr, held, true) + Pick(arr, held, false)
  {
    hide Pick;
    var held := Elems(Ids(base));
    var a, b := Pick(Ids(base), Elems(Ids(target)), true), Pick(Ids(target), held, false);
    PickAppend(a, b, held, true);
    PickAppend(a, b, held, false);
    PickAll(a, held, true);
    PickNone(a, held, false);
    PickNone(b, held, true);
    PickAll(b, held, false);
    assert a + [] == a && [] + b == b;
  }

  // ---- the acts of an encoded delta ------------------------------------------------

  ghost predicate IsPlan(tables: Tables, portable: bool, base: Doc, result: Doc, recs: seq<Record>) {
    PlanRecords(tables, portable, base, result) == Ok(recs)
  }

  /** The records of a plan: what they are, what they name, and whose identities they take. */
  lemma PlanFacts(tables: Tables, portable: bool, base: Doc, result: Doc, recs: seq<Record>)
    requires DistinctIds(base) && DistinctIds(result) && IsPlan(tables, portable, base, result, recs)
    ensures AllPlanned(portable, base, result, recs) && TakesIds(recs, Ids(Created(base, result)), 0)
    ensures forall rec :: rec in recs ==> InBase(base, rec)
    ensures NoDup(ActIds(ActsOf(base, result, recs)))
    ensures forall u :: u in ActIds(ActsOf(base, result, recs)) && u !in Ids(base) ==> u in Ids(Created(base, result))
  {
    hide PlanTouched, Planned, Created, ActOf, DeltaInterner, TakesIds, Makes;
    var sp := Wire(DeltaInterner(tables, portable, base, result));
    var touched := PlanTouched(tables, sp, portable, base, result, 0).value;
    var created := Created(base, result);
    TouchedPlanned(tables, sp, portable, base, result, 0);
    MakesPlanned(portable, base, result);
    TouchedTake(touched, created);
    TouchedIds(tables, sp, portable, base, result);
    MakesIds(base, result);
    var ts, cs := ActsOf(base, result, touched), ActsOf(base, result, Makes(created));
    assert ActsOf(base, result, recs) == ts + cs;
    assert ActIds(ts + cs) == ActIds(ts) + ActIds(cs);
    CreatedOutside(base, result);
    NoDupAppend(ActIds(ts), ActIds(cs));
  }

  lemma CreatedOutside(base: Doc, result: Doc)
    requires DistinctIds(result)
    ensures NoDup(Ids(Created(base, result)))
    ensures forall u :: u in Ids(Created(base, result)) <==> u in Ids(result) && u !in Ids(base)
  {
    PickNoDup(Ids(result), Elems(Ids(base)), false);
  }

  lemma MakesPlanned(portable: bool, base: Doc, result: Doc)
    requires DistinctIds(result)
    ensures AllPlanned(portable, base, result, Makes(Created(base, result)))
  {
    hide At;
    var created := Created(base, result);
    CreatedOutside(base, result);
    forall i | 0 <= i < |created| ensures Planned(portable, base, result, Makes(created)[i]) {
      CreatedAt(base, result, i);
    }
  }

  lemma CreatedAt(base: Doc, result: Doc, i: nat)
    requires i < |Created(base, result)|
    ensures
      var e := Created(base, result)[i];
      e.id in Ids(result) && e.id !in Ids(base) && e == At(result, e.id)
  {
    assert Ids(Created(base, result))[i] in Ids(Created(base, result));
  }

  lemma MakesIds(base: Doc, result: Doc)
    requires DistinctIds(result)
    ensures ActIds(ActsOf(base, result, Makes(Created(base, result)))) == Ids(Created(base, result))
  {
    hide Created;
  }

  lemma TouchedIds(tables: Tables, sp: Spelling, portable: bool, base: Doc, result: Doc)
    requires DistinctIds(base) && PlanTouched(tables, sp, portable, base, result, 0).Ok?
    ensures
      var ids := ActIds(ActsOf(base, result, PlanTouched(tables, sp, portable, base, result, 0).value));
      NoDup(ids) && forall u :: u in ids ==> u in Ids(base)
  {
    hide PlanTouched, Carry;
    var recs := PlanTouched(tables, sp, portable, base, result, 0).value;
    var ids := ActIds(ActsOf(base, result, recs));
    TouchedAscend(tables, sp, portable, base, result, 0);
    forall i | 0 <= i < |recs| ensures ids[i] == Ids(base)[recs[i].at] {
      assert recs[i] in recs;
    }
    forall i, j | 0 <= i < j < |recs| ensures ids[i] != ids[j] {
      assert Ids(base)[recs[i].at] != Ids(base)[recs[j].at];
    }
  }

  /** What the act found for an identity says of the result. */
  ghost predicate Faithful(base: Doc, result: Doc, u: Uuid, found: Option<Act>) {
    match found
    case None =>
      (u in Ids(base) ==> u in Ids(result) && At(result, u) == At(base, u)) && (u in Ids(result) ==> u in Ids(base))
    case Some(Delete(_)) => u in Ids(base) && u !in Ids(result)
    case Some(Update(_, e, whole)) =>
      && u in Ids(base) && u in Ids(result) && At(base, u) != At(result, u)
      && e == (if whole then Carry(result, At(result, u)) else At(result, u))
    case Some(Create(_, e)) => u !in Ids(base) && u in Ids(result) && e == Carry(result, At(result, u))
  }

  lemma PlannedFaithful(portable: bool, base: Doc, result: Doc, rec: Record)
    requires DistinctIds(base) && Planned(portable, base, result, rec) && InBase(base, rec)
    ensures Faithful(base, result, ActOf(base, result, rec).id, Some(ActOf(base, result, rec)))
  {
    hide Carry, At;
    if !rec.Made? {
      AtPosition(base, rec.at);
    }
  }

  lemma FoundFaithful(tables: Tables, portable: bool, base: Doc, result: Doc, recs: seq<Record>, u: Uuid)
    requires DistinctIds(base) && DistinctIds(result) && IsPlan(tables, portable, base, result, recs)
    requires forall rec :: rec in recs ==> InBase(base, rec)
    ensures Faithful(base, result, u, Find(ActsOf(base, result, recs), u))
  {
    hide Planned, ActOf, PlanRecords, Carry, At;
    var acts := ActsOf(base, result, recs);
    var found := Find(acts, u);
    if found.Some? {
      PlanFacts(tables, portable, base, result, recs);
      var i :| 0 <= i < |acts| && acts[i] == found.value;
      assert recs[i] in recs;
      PlannedFaithful(portable, base, result, recs[i]);
    } else {
      UnnamedKept(tables, portable, base, result, recs, u);
    }
  }

  lemma UnnamedKept(tables: Tables, portable: bool, base: Doc, result: Doc, recs: seq<Record>, u: Uuid)
    requires DistinctIds(base) && DistinctIds(result) && IsPlan(tables, portable, base, result, recs)
    requires (forall rec :: rec in recs ==> InBase(base, rec)) && u !in ActIds(ActsOf(base, result, recs))
    ensures Faithful(base, result, u, None)
  {
    hide PlanTouched, DeltaInterner, Carry, At, Created;
    var sp := Wire(DeltaInterner(tables, portable, base, result));
    var touched, created := PlanTouched(tables, sp, portable, base, result, 0).value, Created(base, result);
    CreatedOutside(base, result);
    NamedByPlan(base, result, touched, created);
    if u in Ids(base) {
      var k :| 0 <= k < |base| && Ids(base)[k] == u;
      TouchedCovers(tables, sp, portable, base, result, 0, k);
      AtPosition(base, k);
    }
  }

  /** Every identity the records create or whose position they name is one of theirs. */
  lemma NamedByPlan(base: Doc, result: Doc, touched: seq<Record>, created: Doc)
    requires forall rec :: rec in touched + Makes(created) ==> InBase(base, rec)
    ensures
      var ids := ActIds(ActsOf(base, result, touched + Makes(created)));
      && (forall u :: u in Ids(created) ==> u in ids)
      && (forall k :: 0 <= k < |base| && Names(touched, k) ==> base[k].id in ids)
  {
    hide Carry;
    var recs := touched + Makes(created);
    var ids := ActIds(ActsOf(base, result, recs));
    forall u | u in Ids(created) ensures u in ids {
      var c :| 0 <= c < |created| && Ids(created)[c] == u;
      assert recs[|touched| + c] == Made(created[c]);
      assert ids[|touched| + c] == u;
    }
    forall k | 0 <= k < |base| && Names(touched, k) ensures base[k].id in ids {
      var j :| 0 <= j < |touched| && !touched[j].Made? && touched[j].at == k;
      assert recs[j] == touched[j];
      assert ids[j] == base[k].id;
    }
  }

  // ---- the assembled document ------------------------------------------------------

  lemma {:induction false} PickFlip<T>(s: seq<T>, xs: set<T>, ys: set<T>)
    requires forall x :: x in s ==> (x in xs) != (x in ys)
    ensures Pick(s, xs, false) == Pick(s, ys, true)
  {
    if s != [] {
      PickFlip(s[1..], xs, ys);
    }
  }

  lemma {:induction false} FreshAppend(held: set<Uuid>, a: Acts, b: Acts)
    ensures Fresh(held, a + b) == Fresh(held, a) + Fresh(held, b)
  {
    if a == [] {
      assert a + b == b;
    } else {
      assert (a + b)[0] == a[0] && (a + b)[1..] == a[1..] + b;
      FreshAppend(held, a[1..], b);
    }
  }

  lemma {:induction false} FreshNone(held: set<Uuid>, acts: Acts)
    requires forall u :: u in ActIds(acts) ==> u in held
    ensures Fresh(held, acts) == []
  {
    if acts != [] {
      assert ActIds(acts) == [acts[0].id] + ActIds(acts[1..]);
      FreshNone(held, acts[1..]);
    }
  }

  lemma {:induction false} FreshMakes(held: set<Uuid>, base: Doc, result: Doc, created: Doc)
    requires forall u :: u in Ids(created) ==> u !in held
    ensures Ids(Fresh(held, ActsOf(base, result, Makes(created)))) == Ids(created)
  {
    hide Carry, Fresh, Ids, ActsOf, Makes;
    if created == [] {
      NoMakes(held, base, result);
      assert created == [];
    } else {
      var e, rest := created[0], created[1..];
      assert created == [e] + rest;
      IdsAppend([e], rest);
      IdsOne(e);
      FreshMakes(held, base, result, rest);
      MakesStep(held, base, result, e, rest);
      IdsAppend([Carry(result, e)], Fresh(held, ActsOf(base, result, Makes(rest))));
      IdsOne(Carry(result, e));
    }
  }

  lemma NoMakes(held: set<Uuid>, base: Doc, result: Doc)
    ensures Ids(Fresh(held, ActsOf(base, result, Makes([])))) == Ids([])
  {
  }

  lemma MakesStep(held: set<Uuid>, base: Doc, result: Doc, e: Element, rest: Doc)
    requires e.id !in held
    ensures
      Fresh(held, ActsOf(base, result, Makes([e] + rest)))
      == [Carry(result, e)] + Fresh(held, ActsOf(base, result, Makes(rest)))
  {
    hide Carry;
    var acts := ActsOf(base, result, Makes([e] + rest));
    assert acts[0] == Create(e.id, Carry(result, e));
    assert acts[1..] == ActsOf(base, result, Makes(rest));
  }

  /** The identities the applier assembles: the base's that survive, then the created ones. */
  lemma AssembledIds(tables: Tables, portable: bool, base: Doc, result: Doc, recs: seq<Record>)
    requires DistinctIds(base) && DistinctIds(result) && IsPlan(tables, portable, base, result, recs)
    requires forall rec :: rec in recs ==> InBase(base, rec)
    ensures
      var acts := ActsOf(base, result, recs);
      && Pick(Ids(base), Deletes(acts), false) == Pick(Ids(base), Elems(Ids(result)), true)
      && Ids(Fresh(Elems(Ids(base)), acts)) == Ids(Created(base, result))
  {
    hide PlanTouched, DeltaInterner, ActOf, Deletes, Find, Fresh, Created, Makes, Pick;
    var held, acts := Elems(Ids(base)), ActsOf(base, result, recs);
    PlanFacts(tables, portable, base, result, recs);
    forall u | u in Ids(base) ensures (u in Deletes(acts)) != (u in Elems(Ids(result))) {
      FoundFaithful(tables, portable, base, result, recs, u);
      DeletesFind(acts, u);
      FaithfulDelete(base, result, u, Find(acts, u));
    }
    PickFlip(Ids(base), Deletes(acts), Elems(Ids(result)));
    var sp := Wire(DeltaInterner(tables, portable, base, result));
    var touched, created := PlanTouched(tables, sp, portable, base, result, 0).value, Created(base, result);
    var ts, cs := ActsOf(base, result, touched), ActsOf(base, result, Makes(created));
    assert acts == ts + cs;
    FreshAppend(held, ts, cs);
    TouchedIds(tables, sp, portable, base, result);
    FreshNone(held, ts);
    CreatedOutside(base, result);
    FreshMakes(held, base, result, created);
    assert [] + Fresh(held, cs) == Fresh(held, cs);
  }

  lemma FaithfulDelete(base: Doc, result: Doc, u: Uuid, found: Option<Act>)
    requires Faithful(base, result, u, found) && u in Ids(base)
    ensures found.Some? && found.value.Delete? <==> u !in Ids(result)
  {
  }

  // ---- running the records of a plan -----------------------------------------------

  lemma PlanAdmits(portable: bool, base: Doc, result: Doc, recs: seq<Record>)
    requires DistinctIds(base) && AllPlanned(portable, base, result, recs)
    requires forall rec :: rec in recs ==> InBase(base, rec)
    ensures Carried(ActsOf(base, result, recs))
    ensures forall a :: a in ActsOf(base, result, recs) ==> Admits(portable, Ids(base), a)
  {
    hide Carry, At;
    var acts := ActsOf(base, result, recs);
    forall a | a in acts
      ensures (!a.Delete? ==> a.e.id == a.id) && Admits(portable, Ids(base), a)
    {
      var i :| 0 <= i < |acts| && acts[i] == a;
      assert Planned(portable, base, result, recs[i]);
      PlannedFaithful(portable, base, result, recs[i]);
    }
  }

  lemma PlanRuns(tables: Tables, portable: bool, base: Doc, result: Doc, recs: seq<Record>)
    requires DistinctIds(base) && DistinctIds(result) && IsPlan(tables, portable, base, result, recs)
    requires forall rec :: rec in recs ==> InBase(base, rec)
    ensures
      var acts := ActsOf(base, result, recs);
      && NoDup(ActIds(acts)) && Carried(acts)
      && Run(portable, Ids(base), INITIAL, acts).Some?
      && Means(Ids(base), acts, Run(portable, Ids(base), INITIAL, acts).value)
  {
    hide IsPlan, AllPlanned, ActOf, Admits, Means, Run, TakesIds, Carried;
    var acts := ActsOf(base, result, recs);
    PlanFacts(tables, portable, base, result, recs);
    PlanAdmits(portable, base, result, recs);
    NothingDone(Ids(base));
    assert [] + acts == acts;
    RunMeans(portable, Ids(base), [], acts, INITIAL);
  }

  /** The element an applier holds for `u` before backpointers are re-derived. */
  function Shown(base: Doc, result: Doc, acts: Acts, u: Uuid): Element
    requires u in Ids(result)
  {
    match Find(acts, u)
    case Some(Create(_, _)) => Carry(result, At(result, u))
    case Some(Update(_, _, true)) => Carry(result, At(result, u))
    case _ => At(result, u)
  }

  lemma NowShown(base: Doc, result: Doc, acts: Acts, u: Uuid)
    requires Faithful(base, result, u, Find(acts, u)) && u in Ids(result)
    ensures u in Ids(base) || (Find(acts, u).Some? && !Find(acts, u).value.Delete?)
    ensures Now(base, acts, u) == Shown(base, result, acts, u)
  {
    hide Carry, At;
  }

  lemma ShownForward(base: Doc, result: Doc, acts: Acts, u: Uuid)
    requires u in Ids(result)
    ensures SameForward(Shown(base, result, acts, u), At(result, u))
  {
    hide Find, At, DerivationFor, Kept;
    KeptForward(At(result, u), DerivationFor(result, true, At(result, u)));
  }

  /** The assembled document: the result's identities, each with what its record carried. */
  lemma AssembledShown(tables: Tables, portable: bool, base: Doc, result: Doc, recs: seq<Record>, st: State)
    requires DistinctIds(base) && DistinctIds(result) && IsPlan(tables, portable, base, result, recs)
    requires forall rec :: rec in recs ==> InBase(base, rec)
    requires Run(portable, Ids(base), INITIAL, ActsOf(base, result, recs)) == Some(st)
    ensures
      var doc, acts := Assemble(base, st), ActsOf(base, result, recs);
      && DistinctIds(doc)
      && Ids(doc) == Pick(Ids(base), Elems(Ids(result)), true) + Ids(Created(base, result))
      && (forall u :: u in Ids(doc) <==> u in Ids(result))
      && (forall u :: u in Ids(doc) ==> At(doc, u) == Shown(base, result, acts, u))
  {
    hide IsPlan, ActOf, Run, Means, Carried, Deletes, Fresh, Assemble, Pick, Created, Now, Shown, Find, At, Faithful;
    var doc, acts := Assemble(base, st), ActsOf(base, result, recs);
    PlanRuns(tables, portable, base, result, recs);
    AssembleMeans(base, acts, st);
    AssembledIds(tables, portable, base, result, recs);
    CreatedOutside(base, result);
    forall u | u in Ids(doc) ensures At(doc, u) == Shown(base, result, acts, u) {
      var i :| 0 <= i < |doc| && Ids(doc)[i] == u;
      AtPosition(doc, i);
      FoundFaithful(tables, portable, base, result, recs, u);
      NowShown(base, result, acts, u);
    }
  }

  lemma ShownForwards(base: Doc, result: Doc, acts: Acts, doc: Doc)
    requires DistinctIds(doc) && DistinctIds(result) && (forall u :: u in Ids(doc) <==> u in Ids(result))
    requires forall u :: u in Ids(doc) ==> At(doc, u) == Shown(base, result, acts, u)
    ensures SameForwards(doc, result)
  {
    hide At, Shown, SameForward;
    forall u | u in Ids(doc) ensures SameForward(At(doc, u), At(result, u)) {
      ShownForward(base, result, acts, u);
    }
  }

  // ---- backpointers ----------------------------------------------------------------

  lemma {:induction false} BitsForNone(acts: Acts, pairs: Pairs, u: Uuid, k: nat)
    requires k <= |acts| && forall i :: 0 <= i < k ==> acts[i].id != u || ShippedOf(acts[i]).None?
    ensures BitsFor(Shipped(acts), pairs, u, k) == None
  {
    if k > 0 {
      BitsForNone(acts, pairs, u, k - 1);
    }
  }

  lemma {:induction false} BitsForOne(acts: Acts, pairs: Pairs, j: nat, k: nat)
    requires j < k <= |acts| && NoDup(ActIds(acts)) && ShippedOf(acts[j]).Some?
    ensures BitsFor(Shipped(acts), pairs, acts[j].id, k) == Some(BitsAt(pairs, j))
  {
    if j < k - 1 {
      assert ActIds(acts)[j] != ActIds(acts)[k - 1];
      BitsForOne(acts, pairs, j, k - 1);
    }
  }

  lemma {:induction false} RecordBits(tables: Tables, recs: seq<Record>, k: nat, j: nat)
    requires k <= j < |recs| && (recs[j].Whole? || recs[j].Made?)
    ensures BitsAt(RecordExceptions(tables, recs, k), j) == AbsentBits(FieldsOf(tables, recs[j].e.ty), recs[j].e)
    decreases |recs| - k
  {
    hide AbsentBits, FieldsOf;
    var pairs, rest := RecordExceptions(tables, recs, k), RecordExceptions(tables, recs, k + 1);
    if k < j {
      RecordBits(tables, recs, k + 1, j);
      if pairs != rest {
        assert pairs[1..] == rest;
      }
    } else {
      NoBitsAt(rest, k);
    }
  }

  lemma {:induction false} RecordsWritten(
      tables: Tables, sp: Spelling, portable: bool, base: Doc, result: Doc, recs: seq<Record>, j: nat)
    requires (forall rec :: rec in recs ==> InBase(base, rec)) && j < |recs|
    requires WriteRecords(tables, sp, portable, base, result, recs).Ok?
    ensures WriteRecord(tables, sp, portable, base, result, recs[j]).Ok?
  {
    hide WriteRecord;
    if j > 0 {
      RecordsWritten(tables, sp, portable, base, result, recs[1..], j - 1);
    }
  }

  lemma ShippedKeys(
      tables: Tables, sp: Spelling, portable: bool, base: Doc, result: Doc, recs: seq<Record>, j: nat)
    requires (forall rec :: rec in recs ==> InBase(base, rec)) && j < |recs| && (recs[j].Whole? || recs[j].Made?)
    requires WriteRecords(tables, sp, portable, base, result, recs).Ok?
    ensures KeysKnown(FieldsOf(tables, recs[j].e.ty), recs[j].e)
  {
    hide WriteRecords, KeysKnown, WriteElement, DerivationFor;
    RecordsWritten(tables, sp, portable, base, result, recs, j);
    WrittenKeys(tables, sp, recs[j].e, DerivationFor(result, true, recs[j].e));
  }

  /** Re-deriving what a record left out restores its element; every other element is left as it is. */
  lemma FillOneRestores(
      tables: Tables, sp: Spelling, portable: bool, base: Doc, result: Doc, recs: seq<Record>, doc: Doc, u: Uuid)
    requires DistinctIds(base) && DistinctIds(result) && IsPlan(tables, portable, base, result, recs)
    requires (forall rec :: rec in recs ==> InBase(base, rec)) && u in Ids(result)
    requires WriteRecords(tables, sp, portable, base, result, recs).Ok? && SameStructure(doc, result)
    ensures
      var acts := ActsOf(base, result, recs);
      FillOne(tables, doc, Shipped(acts), RecordExceptions(tables, recs, 0), Shown(base, result, acts, u))
      == At(result, u)
  {
    hide IsPlan, WriteRecords, PlanRecords, ActOf, BitsFor, RecordExceptions, At, Carry, AbsentBits, FillElement,
      DerivedOwner, KeysKnown, Find, SameStructure, Shipped;
    var acts, pairs := ActsOf(base, result, recs), RecordExceptions(tables, recs, 0);
    PlanFacts(tables, portable, base, result, recs);
    FoundFaithful(tables, portable, base, result, recs, u);
    var e, j := At(result, u), IndexOf(ActIds(acts), u);
    if j < |acts| && ShippedOf(acts[j]).Some? {
      FoundAt(acts, j);
      BitsForOne(acts, pairs, j, |acts|);
      ActShips(portable, base, result, recs[j]);
      RecordBits(tables, recs, 0, j);
      ShippedKeys(tables, sp, portable, base, result, recs, j);
      DerivedOwnerSame(doc, result, 0, u);
      DerivedOwnerSame(doc, result, 1, u);
      CarryRestored(tables, result, e);
    } else {
      NotShipped(acts, u);
      BitsForNone(acts, pairs, u, |acts|);
    }
  }

  lemma CarryRestored(tables: Tables, result: Doc, e: Element)
    requires KeysKnown(FieldsOf(tables, e.ty), e)
    ensures
      FillElement(FieldsOf(tables, e.ty), AbsentBits(FieldsOf(tables, e.ty), e),
        DerivedOwner(result, 0, e.id), DerivedOwner(result, 1, e.id), Carry(result, e)) == e
  {
    hide KeysKnown, AbsentBits, FillElement, DerivedOwner, Kept;
    FillRestores(FieldsOf(tables, e.ty), e, DerivedOwner(result, 0, e.id), DerivedOwner(result, 1, e.id));
  }

  lemma FoundAt(acts: Acts, j: nat)
    requires j < |acts| && NoDup(ActIds(acts))
    ensures IndexOf(ActIds(acts), acts[j].id) == j && Find(acts, acts[j].id) == Some(acts[j])
  {
    IndexOfNoDup(ActIds(acts), j);
  }

  lemma NotShipped(acts: Acts, u: Uuid)
    requires NoDup(ActIds(acts))
    requires
      var j := IndexOf(ActIds(acts), u);
      j < |acts| ==> ShippedOf(acts[j]).None?
    ensures forall i :: 0 <= i < |acts| ==> acts[i].id != u || ShippedOf(acts[i]).None?
    ensures Find(acts, u).Some? ==> ShippedOf(Find(acts, u).value).None?
  {
    forall i | 0 <= i < |acts| && acts[i].id == u ensures ShippedOf(acts[i]).None? {
      IndexOfNoDup(ActIds(acts), i);
    }
  }

  lemma ActShips(portable: bool, base: Doc, result: Doc, rec: Record)
    requires Planned(portable, base, result, rec) && InBase(base, rec) && ShippedOf(ActOf(base, result, rec)).Some?
    ensures
      var u := ActOf(base, result, rec).id;
      (rec.Whole? || rec.Made?) && u in Ids(result) && rec.e == At(result, u)
  {
    hide At, Carry;
  }

  // ---- the result ------------------------------------------------------------------

  /** The applier's document is the target in applied order, whichever form each update chose. */
  lemma AppliedIsResult(
      tables: Tables, sp: Spelling, portable: bool, base: Doc, target: Doc, recs: seq<Record>, st: State)
    requires DistinctIds(base) && DistinctIds(target)
    requires IsPlan(tables, portable, base, AppliedOrder(base, target), recs)
    requires forall rec :: rec in recs ==> InBase(base, rec)
    requires WriteRecords(tables, sp, portable, base, AppliedOrder(base, target), recs).Ok?
    requires Run(portable, Ids(base), INITIAL, ActsOf(base, AppliedOrder(base, target), recs)) == Some(st)
    requires SoundState(Ids(base), st)
    ensures Applied(tables, base, st, true, RecordExceptions(tables, recs, 0)) == AppliedOrder(base, target)
  {
    hide IsPlan, WriteRecords, Run, ActOf, Assemble, SoundState, AppliedOrder, Canonical, RecordExceptions, FillOne,
      Shown, At, SameForwards, SameStructure, Shipped, Means;
    var result := AppliedOrder(base, target);
    var acts, pairs := ActsOf(base, result, recs), RecordExceptions(tables, recs, 0);
    var doc := Assemble(base, st);
    AssembledShown(tables, portable, base, result, recs, st);
    ShownForwards(base, result, acts, doc);
    ReplayedOrder(base, target, doc);
    var d := Canonical(doc);
    ShownInOrder(base, result, acts, doc);
    PlanRuns(tables, portable, base, result, recs);
    MeansShipped(Ids(base), acts, st);
    forall i | 0 <= i < |d| ensures FillOne(tables, d, st.shipped, pairs, d[i]) == result[i] {
      assert Ids(result)[i] == result[i].id;
      AtPosition(result, i);
      FillOneRestores(tables, sp, portable, base, result, recs, d, result[i].id);
    }
  }

  lemma MeansShipped(ids: seq<Uuid>, acts: Acts, st: State)
    requires Means(ids, acts, st)
    ensures st.shipped == Shipped(acts)
  {
  }

  lemma ShownInOrder(base: Doc, result: Doc, acts: Acts, doc: Doc)
    requires DistinctIds(doc) && DistinctIds(result) && Ids(Canonical(doc)) == Ids(result)
    requires forall u :: u in Ids(doc) <==> u in Ids(result)
    requires forall u :: u in Ids(doc) ==> At(doc, u) == Shown(base, result, acts, u)
    ensures
      var d := Canonical(doc);
      && |d| == |result| && SameStructure(d, result)
      && forall i :: 0 <= i < |d| ==> result[i].id in Ids(result) && d[i] == Shown(base, result, acts, result[i].id)
  {
    hide Canon, GraphOf, At, Shown, SameForward;
    var d := Canonical(doc);
    forall i | 0 <= i < |d|
      ensures result[i].id in Ids(result) && d[i] == Shown(base, result, acts, result[i].id)
      ensures SameForward(d[i], result[i])
    {
      assert Ids(result)[i] == result[i].id && Ids(d)[i] == d[i].id;
      CanonicalAt(doc, i);
      AtPosition(result, i);
      ShownForward(base, result, acts, result[i].id);
    }
  }

  lemma CanonicalAt(doc: Doc, i: nat)
    requires DistinctIds(doc) && i < |doc|
    ensures Canonical(doc)[i].id in Ids(doc) && Canonical(doc)[i] == At(doc, Canonical(doc)[i].id)
  {
    hide Canon, GraphOf;
  }
}
