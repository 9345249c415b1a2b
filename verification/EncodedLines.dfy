/** The index transition on the encoder's own deltas: what its records resolve to, and when their lists line up. */
module EncodedLines {
  import opened Wrappers
  import opened Seqs
  import opened Cbor
  import opened Model
  import opened Values
  import opened Records
  import opened Sections
  import opened Snapshot
  import opened Patch
  import opened CanonDoc
  import opened Acts
  import opened Delta
  import opened Apply
  import opened DeltaRecords
  import opened DeltaRoundTrip
  import opened DeltaTheorems
  import opened Portable
  import opened Index
  import opened TransitionCommutes
  import opened OpenLists
  import opened TransitionRuns
  import opened TransitionTheorem

  // ---- what the encoder's records resolve to ---------------------------------------

  /** A change record as the index reads it. */
  function ResolvedOf(tables: Tables, base: Doc, result: Doc, rec: Record): ResolvedRecord
    requires InBase(base, rec)
  {
    match rec
    case Drop(at) => ResolvedRecord(ToBase(at, base[at].id), DeletePayload, 0)
    case Whole(at, e) => ResolvedRecord(ToBase(at, base[at].id), ElementPayload(Carry(result, e)), 0)
    case Patched(at, e) => ResolvedRecord(ToBase(at, base[at].id), PatchPayload(PlannedOps(tables, base[at], e)), 0)
    case Made(e) => ResolvedRecord(ToCreate(e.id), ElementPayload(Carry(result, e)), 0)
  }

  /** The operations planned from one element to another, by property. */
  function PlannedOps(tables: Tables, b: Element, e: Element): NamedOps {
    match PlanPatch(tables, b, e)
    case None => []
    case Some(ops) => Name(FieldsOf(tables, e.ty), ops)
  }

  lemma PatchResolves(
      tables: Tables, n: Interner, s: Space, base: Doc, at: nat, e: Element, ts: Toks, rest: Toks)
    requires AllKnown(tables, base) && Agree(n, s) && at < |base| && PlanPatch(tables, base[at], e).Some?
    requires
      var ops := PlanPatch(tables, base[at], e).value;
      && WritePatch(Wire(n), FieldsOf(tables, e.ty), ops).Ok?
      && ts == WritePatch(Wire(n), FieldsOf(tables, e.ty), ops).value + rest
    ensures
      ResolvePayload(ts, s, tables, Some(Structure(tables, base)), ToBase(at, base[at].id))
      == Ok((PatchPayload(PlannedOps(tables, base[at], e)), rest))
  {
    hide Agree, WriteOps, ReadPatch, ParsePatch, PlanOps, Replay, Structure, AllKnown, FieldsAt;
    var ops := PlanPatch(tables, base[at], e).value;
    var w := WritePatch(Wire(n), FieldsOf(tables, e.ty), ops).value;
    assert ts[0] == Map(|ops|) && ts[1..] == w[1..] + rest;
    PatchInverts(tables, n, s, base[at], e, ts[1..], rest);
    FieldsAgree(tables, base, at);
  }

  lemma PayloadResolves(
      tables: Tables, n: Interner, s: Space, base: Doc, result: Doc, rec: Record, ts: Toks, rest: Toks)
    requires ValidTables(tables) && AllKnown(tables, base) && Agree(n, s) && Planned(false, base, result, rec)
    requires InBase(base, rec) && Payload(tables, Wire(n), base, result, rec).Ok?
    requires ts == Payload(tables, Wire(n), base, result, rec).value + rest
    ensures
      var r := ResolvedOf(tables, base, result, rec);
      ResolvePayload(ts, s, tables, Some(Structure(tables, base)), r.target) == Ok((r.payload, rest))
  {
    hide ValidTables, AllKnown, Agree, WriteElement, PlanPatch, WritePatch, ReadBody, ParsePatch, Kept, DerivationFor,
      At, Structure, FieldsAt;
    match rec
    case Drop(at) => assert ts == [NullTok] + rest;
    case Whole(at, e) => WholeInverts(tables, n, s, result, e, ts, rest);
    case Made(e) => WholeInverts(tables, n, s, result, e, ts, rest);
    case Patched(at, e) => PatchResolves(tables, n, s, base, at, e, ts, rest);
  }

  /** A record of the encoder resolves through the base's index to what it was planned as. */
  lemma RecordResolves(
      tables: Tables, n: Interner, s: Space, base: Doc, result: Doc, rec: Record, created: seq<Uuid>, next: nat,
      ts: Toks, rest: Toks)
    requires ValidTables(tables) && AllKnown(tables, base) && Agree(n, s) && Planned(false, base, result, rec)
    requires InBase(base, rec) && WriteRecord(tables, Wire(n), false, base, result, rec).Ok?
    requires ts == WriteRecord(tables, Wire(n), false, base, result, rec).value + rest
    requires rec.Made? ==> next < |created| && created[next] == rec.e.id
    ensures
      ResolveRecord(ts, s, tables, Some(Structure(tables, base)), created, next)
      == Ok((ResolvedOf(tables, base, result, rec), rest))
  {
    hide ValidTables, AllKnown, Agree, Planned, Payload, ResolvePayload, Carry, PlannedOps, Structure;
    var payload := Payload(tables, Wire(n), base, result, rec).value;
    assert ts[0] == Array(2) && ts[1] == Identity(false, base, rec) && ts[1..][1..] == payload + rest;
    StructureIds(tables, base);
    PayloadResolves(tables, n, s, base, result, rec, payload + rest, rest);
  }

  function AllResolved(tables: Tables, base: Doc, result: Doc, recs: seq<Record>): (r: seq<ResolvedRecord>)
    requires forall rec :: rec in recs ==> InBase(base, rec)
    ensures |r| == |recs| && forall i :: 0 <= i < |recs| ==> r[i] == ResolvedOf(tables, base, result, recs[i])
  {
    seq(|recs|, i requires 0 <= i < |recs| => ResolvedOf(tables, base, result, recs[i]))
  }

  lemma {:induction false} RecordsResolve(
      tables: Tables, n: Interner, s: Space, base: Doc, result: Doc, recs: seq<Record>, created: seq<Uuid>, next: nat,
      ts: Toks, rest: Toks)
    requires ValidTables(tables) && AllKnown(tables, base) && Agree(n, s) && AllPlanned(false, base, result, recs)
    requires (forall rec :: rec in recs ==> InBase(base, rec)) && TakesIds(recs, created, next)
    requires WriteRecords(tables, Wire(n), false, base, result, recs).Ok?
    requires ts == WriteRecords(tables, Wire(n), false, base, result, recs).value + rest
    ensures
      ResolveRecords(ts, s, tables, Some(Structure(tables, base)), created, next, |recs|)
      == Ok((AllResolved(tables, base, result, recs), |created|, rest))
    decreases |recs|
  {
    hide ValidTables, AllKnown, Agree, Planned, WriteRecord, ResolveRecord, Structure, ResolvedOf;
    if recs == [] {
      assert ts == rest;
      assert AllResolved(tables, base, result, recs) == [];
    } else {
      var rec, tail := recs[0], recs[1..];
      assert rec in recs;
      var w := WriteRecords(tables, Wire(n), false, base, result, tail).value;
      assert ts == WriteRecord(tables, Wire(n), false, base, result, rec).value + (w + rest);
      RecordResolves(tables, n, s, base, result, rec, created, next, ts, w + rest);
      ResolvedMade(tables, base, result, rec);
      RecordsResolve(
        tables, n, s, base, result, tail, created, if rec.Made? then next + 1 else next, w + rest, rest);
      assert AllResolved(tables, base, result, recs)
             == [ResolvedOf(tables, base, result, rec)] + AllResolved(tables, base, result, tail);
    }
  }

  lemma ResolvedMade(tables: Tables, base: Doc, result: Doc, rec: Record)
    requires InBase(base, rec)
    ensures ResolvedOf(tables, base, result, rec).target.ToCreate? <==> rec.Made?
  {
  }

  /** Distinct records create distinct identities. */
  lemma {:induction false} CreatedDistinct(acts: Acts)
    requires NoDup(ActIds(acts)) && Carried(acts)
    ensures NoDup(Ids(CreatedBy(acts))) && forall u :: u in Ids(CreatedBy(acts)) ==> u in ActIds(acts)
  {
    hide CreatedBy, NoDup;
    CreatedStep(acts);
    IdsOne(Element(0, "", map[]));
    if acts != [] {
      var a, rest := acts[0], acts[1..];
      assert a in acts;
      ActIdsHead(acts);
      ActIdsTail(acts);
      CreatedDistinct(rest);
      var here := if a.Create? then [a.e] else [];
      IdsOne(if a.Create? then a.e else Element(0, "", map[]));
      IdsAppend(here, CreatedBy(rest));
      OneDistinct(Ids(here), a.id);
      NoDupAppend(Ids(here), Ids(CreatedBy(rest)));
    }
  }

  lemma ActIdsHead(acts: Acts)
    requires acts != []
    ensures ActIds(acts) == [acts[0].id] + ActIds(acts[1..])
    ensures Carried(acts) ==> Carried(acts[1..])
  {
  }

  lemma OneDistinct(s: seq<Uuid>, u: Uuid)
    requires s == [] || s == [u]
    ensures NoDup(s)
  {
  }

  /** A body whose acts create no identity twice and whose records resolve to those of the plan. */
  ghost predicate ReadsBack(tables: Tables, base: Doc, result: Doc, ts: Toks) {
    var acts, recs := StrictActs(ts, tables, base), PlanRecords(tables, false, base, result);
    && acts.Ok? && NoDup(Ids(CreatedBy(acts.value))) && recs.Ok?
    && StrictRecords(ts, tables, base) == Ok(AllResolved(tables, base, result, recs.value))
  }

  /** The body the encoder writes, as the applier and as the index read it. */
  lemma EncodedActs(
      tables: Tables, base: Doc, result: Doc, recs: seq<Record>, body: Toks, exceptions: Pairs, units: Pairs)
    requires ValidTables(tables) && AllKnown(tables, base) && DistinctIds(base) && DistinctIds(result)
    requires IsBody(tables, false, base, result, recs, body)
    ensures
      var n, created := DeltaInterner(tables, false, base, result), Created(base, result);
      ReadsBack(tables, base, result, BodySection(false, base, n, created, recs, body, exceptions, units))
  {
    hide ValidTables, AllKnown, WriteRecords, DeltaInterner, Created, ReadActs, ReadUint, ReadIds, ReadArray,
      PlanRecords, BodySection, RecordSection, EncAll, WritePairs, UnitSection, ActsOf, Means, Run, DistinctIds,
      NoDup, Agree, AllPlanned, TakesIds, ResolveRecords, Structure, AllResolved;
    var n, created := DeltaInterner(tables, false, base, result), Created(base, result);
    SectionsRead(false, base, n, created, recs, body, exceptions, units);
    var rest := WritePairs(exceptions) + UnitSection(units);
    BodyActs(tables, false, base, result, recs, body, base, rest);
    PlanRuns(tables, false, base, result, recs);
    CreatedDistinct(ActsOf(base, result, recs));
    DeltaAgrees(tables, false, base, result);
    PlanFacts(tables, false, base, result, recs);
    RecordsResolve(
      tables, n, Space(Ids(base), Ids(created), n.ext), base, result, recs, Ids(created), 0, body + rest, rest);
  }

  /** An encoding's body, after its header, over the canonical base and the result in applied order. */
  lemma BodyReads(
      tables: Tables, base: Doc, result: Doc, baseDigest: Uuid, resultDigest: Uuid, claims: Pairs, units: Pairs)
    requires ValidTables(tables) && AllKnown(tables, base) && DistinctIds(base) && DistinctIds(result)
    requires AllClaims(claims) && EncodeBody(tables, false, base, result, baseDigest, resultDigest, claims, units).Ok?
    ensures
      var ts := EncodeBody(tables, false, base, result, baseDigest, resultDigest, claims, units).value;
      var read := ReadHeader(ts, false);
      read.Ok? && !read.value.0.portable && ReadsBack(tables, base, result, read.value.1)
  {
    hide ValidTables, ReadHeader, PlanRecords, WriteRecords, DeltaTokens, RecordExceptions, DeltaInterner, BodySection,
      Created, AllClaims, HeaderWord, FlagByte, WritePairs, UuidBytes, NoDup, DistinctIds, ReadsBack, AllKnown;
    var n := DeltaInterner(tables, false, base, result);
    var recs := PlanRecords(tables, false, base, result).value;
    var body := WriteRecords(tables, Wire(n), false, base, result, recs).value;
    var exceptions := RecordExceptions(tables, recs, 0);
    DeltaLayout(false, base, n, Created(base, result), baseDigest, resultDigest, claims, recs, body, exceptions, units);
    HeaderReads(false, units != [], false, baseDigest, resultDigest, claims,
      BodySection(false, base, n, Created(base, result), recs, body, exceptions, units));
    EncodedActs(tables, base, result, recs, body, exceptions, units);
  }

  lemma EncodedBody(hash: Hash, tables: Tables, base0: Doc, target0: Doc, opts: Options)
    requires ValidTables(tables) && DistinctIds(base0) && DistinctIds(target0) && !opts.portable
    requires AllKnown(tables, Canonical(base0))
    requires EncodeDelta(hash, tables, base0, target0, opts).Ok?
    ensures
      var read := ReadHeader(EncodeDelta(hash, tables, base0, target0, opts).value, false);
      && read.Ok? && !read.value.0.portable
      && ReadsBack(tables, Canonical(base0), AppliedOrder(Canonical(base0), Canonical(target0)), read.value.1)
  {
    hide ValidTables, AppliedOrder, Canonical, Digest, EncodeDelta, EncodeBody, ReadHeader, Extras, AllClaims, NoDup,
      DistinctIds, MapUnits, ReadsBack, AllKnown;
    var base := Canonical(base0);
    var result := AppliedOrder(base, Canonical(target0));
    EncodeParts(hash, tables, base0, target0, opts);
    ExtrasParts(target0, result, opts);
    var (claims, units) := Extras(target0, result, opts).value;
    AppliedDistinct(base, Canonical(target0));
    BodyReads(
      tables, base, result, Digest(hash, tables, base).value, Digest(hash, tables, result).value, claims, units);
  }

  lemma AppliedDistinct(base: Doc, target: Doc)
    requires DistinctIds(base) && DistinctIds(target)
    ensures DistinctIds(AppliedOrder(base, target))
  {
  }

  // ---- the plan, position by position ----------------------------------------------

  /** What the encoder's record on a base position carries; none where the element is unchanged. */
  function PlannedPayload(tables: Tables, base: Doc, result: Doc, i: nat): Option<RecordPayload>
    requires i < |base|
  {
    if base[i].id !in Ids(result) then Some(DeletePayload)
    else
      var e := At(result, base[i].id);
      if e == base[i] then None
      else if SentWhole(tables, base, result, base[i], e) then Some(ElementPayload(Carry(result, e)))
      else Some(PatchPayload(PlannedOps(tables, base[i], e)))
  }

  predicate SentWhole(tables: Tables, base: Doc, result: Doc, b: Element, e: Element) {
    var sp := Wire(DeltaInterner(tables, false, base, result));
    ShipsWhole(tables, sp, false, b, e, DerivationFor(result, true, e)) == Ok(true)
  }

  lemma ResolvedOne(tables: Tables, base: Doc, result: Doc, rec: Record, tail: seq<Record>)
    requires InBase(base, rec) && forall r :: r in tail ==> InBase(base, r)
    ensures
      AllResolved(tables, base, result, [rec] + tail)
      == [ResolvedOf(tables, base, result, rec)] + AllResolved(tables, base, result, tail)
  {
    hide ResolvedOf;
  }

  lemma PayloadHead(tables: Tables, base: Doc, result: Doc, rec: Record, tail: seq<Record>, i: nat)
    requires InBase(base, rec) && forall r :: r in tail ==> InBase(base, r)
    ensures
      PayloadOn(AllResolved(tables, base, result, [rec] + tail), i)
      == if !rec.Made? && rec.at == i then Some(ResolvedOf(tables, base, result, rec).payload)
         else PayloadOn(AllResolved(tables, base, result, tail), i)
  {
    hide Carry, PlannedOps, AllResolved;
    ResolvedOne(tables, base, result, rec, tail);
    var head, rest := ResolvedOf(tables, base, result, rec), AllResolved(tables, base, result, tail);
    assert ([head] + rest)[0] == head && ([head] + rest)[1..] == rest;
  }

  lemma {:induction false} MadePayloads(tables: Tables, base: Doc, result: Doc, recs: seq<Record>, i: nat)
    requires forall r :: r in recs ==> r.Made?
    ensures PayloadOn(AllResolved(tables, base, result, recs), i) == None
  {
    hide ResolvedOf, AllResolved;
    if recs == [] {
      assert AllResolved(tables, base, result, recs) == [];
    } else {
      assert recs == [recs[0]] + recs[1..];
      MadePayloads(tables, base, result, recs[1..], i);
      PayloadHead(tables, base, result, recs[0], recs[1..], i);
    }
  }

  /** The records of the touched positions from `k`, and what follows them, on each position. */
  lemma {:induction false} TouchedPayload(
      tables: Tables, base: Doc, result: Doc, makes: seq<Record>, k: nat, i: nat)
    requires k <= |base| && i < |base| && (forall r :: r in makes ==> r.Made?)
    requires PlanTouched(tables, Wire(DeltaInterner(tables, false, base, result)), false, base, result, k).Ok?
    ensures
      var recs := PlanTouched(tables, Wire(DeltaInterner(tables, false, base, result)), false, base, result, k).value;
      PayloadOn(AllResolved(tables, base, result, recs + makes), i)
      == if i < k then None else PlannedPayload(tables, base, result, i)
    decreases |base| - k
  {
    hide DeltaInterner, At, Carry, PlannedOps, AllResolved, PayloadOn, ShipsWhole;
    var sp := Wire(DeltaInterner(tables, false, base, result));
    var recs := PlanTouched(tables, sp, false, base, result, k).value;
    if k == |base| {
      assert recs + makes == makes;
      MadePayloads(tables, base, result, makes, i);
    } else {
      var tail := PlanTouched(tables, sp, false, base, result, k + 1).value;
      TouchedPayload(tables, base, result, makes, k + 1, i);
      if recs != tail {
        assert recs == [recs[0]] + tail;
        assert recs + makes == [recs[0]] + (tail + makes);
        PayloadHead(tables, base, result, recs[0], tail + makes, i);
      }
    }
  }

  lemma PlannedPayloads(tables: Tables, base: Doc, result: Doc, recs: seq<Record>, i: nat)
    requires i < |base| && PlanRecords(tables, false, base, result) == Ok(recs)
    requires forall r :: r in recs ==> InBase(base, r)
    ensures PayloadOn(AllResolved(tables, base, result, recs), i) == PlannedPayload(tables, base, result, i)
  {
    hide DeltaInterner, PlanTouched, AllResolved, PayloadOn, PlannedPayload, Created;
    TouchedPayload(tables, base, result, Makes(Created(base, result)), 0, i);
  }

  // ---- the identities of the result ------------------------------------------------

  lemma CreatedHead(tables: Tables, base: Doc, result: Doc, rec: Record, tail: seq<Record>)
    requires InBase(base, rec) && forall r :: r in tail ==> InBase(base, r)
    ensures
      CreatedIds(AllResolved(tables, base, result, [rec] + tail))
      == (if rec.Made? then [rec.e.id] else []) + CreatedIds(AllResolved(tables, base, result, tail))
  {
    hide Carry, PlannedOps, AllResolved;
    ResolvedOne(tables, base, result, rec, tail);
    var head, rest := ResolvedOf(tables, base, result, rec), AllResolved(tables, base, result, tail);
    assert ([head] + rest)[0] == head && ([head] + rest)[1..] == rest;
  }

  lemma {:induction false} MadeIds(tables: Tables, base: Doc, result: Doc, created: Doc)
    ensures CreatedIds(AllResolved(tables, base, result, Makes(created))) == Ids(created)
  {
    hide ResolvedOf, AllResolved, CreatedIds, Makes;
    if created == [] {
      assert Makes(created) == [] && AllResolved(tables, base, result, Makes(created)) == [];
      NoneCreated();
    } else {
      MadeIds(tables, base, result, created[1..]);
      MakesStep(created);
      IdsAppend([created[0]], created[1..]);
      assert created == [created[0]] + created[1..];
      CreatedHead(tables, base, result, Made(created[0]), Makes(created[1..]));
    }
  }

  lemma MakesStep(created: Doc)
    requires created != []
    ensures Makes(created) == [Made(created[0])] + Makes(created[1..])
  {
    var all, head, rest := Makes(created), [Made(created[0])], Makes(created[1..]);
    forall i | 0 <= i < |all| ensures all[i] == (head + rest)[i] {
      assert i > 0 ==> created[i] == created[1..][i - 1];
    }
    assert all == head + rest;
  }

  lemma NoneCreated()
    ensures CreatedIds([]) == []
  {
  }

  lemma {:induction false} TouchedCreate(tables: Tables, base: Doc, result: Doc, touched: seq<Record>, created: Doc)
    requires forall r :: r in touched ==> !r.Made? && InBase(base, r)
    ensures CreatedIds(AllResolved(tables, base, result, touched + Makes(created))) == Ids(created)
  {
    hide ResolvedOf, AllResolved, CreatedIds, Makes;
    var makes := Makes(created);
    if touched == [] {
      MadeIds(tables, base, result, created);
      assert touched + makes == makes;
    } else {
      TouchedCreate(tables, base, result, touched[1..], created);
      assert touched + makes == [touched[0]] + (touched[1..] + makes);
      CreatedHead(tables, base, result, touched[0], touched[1..] + makes);
    }
  }

  /** The identities the encoder's records leave are the result's. */
  lemma PlannedIds(tables: Tables, base: Doc, result: Doc, recs: seq<Record>)
    requires PlanRecords(tables, false, base, result) == Ok(recs) && forall r :: r in recs ==> InBase(base, r)
    ensures ResultIds(base, AllResolved(tables, base, result, recs)) == Elems(Ids(result))
  {
    hide DeltaInterner, PlanTouched, AllResolved, PayloadOn, PlannedPayload, CreatedIds, Created;
    var sp := Wire(DeltaInterner(tables, false, base, result));
    TouchedCreate(
      tables, base, result, PlanTouched(tables, sp, false, base, result, 0).value, Created(base, result));
    forall i | 0 <= i < |base|
      ensures
        PayloadOn(AllResolved(tables, base, result, recs), i) != Some(DeletePayload) <==> base[i].id in Ids(result)
    {
      PlannedPayloads(tables, base, result, recs, i);
      PlannedDeletes(tables, base, result, i);
    }
    IdsFrom(base, result, AllResolved(tables, base, result, recs));
  }

  lemma PlannedDeletes(tables: Tables, base: Doc, result: Doc, i: nat)
    requires i < |base|
    ensures PlannedPayload(tables, base, result, i) == Some(DeletePayload) <==> base[i].id !in Ids(result)
  {
    hide At, Carry, PlannedOps, SentWhole;
  }

  lemma IdsFrom(base: Doc, result: Doc, recs: seq<ResolvedRecord>)
    requires CreatedIds(recs) == Pick(Ids(result), Elems(Ids(base)), false)
    requires forall i :: 0 <= i < |base| ==>
      (PayloadOn(recs, i) != Some(DeletePayload) <==> base[i].id in Ids(result))
    ensures ResultIds(base, recs) == Elems(Ids(result))
  {
    hide PayloadOn, CreatedIds, Pick;
    var ids := ResultIds(base, recs);
    forall u | u in Ids(result) ensures u in ids {
      if u in Ids(base) {
        var i :| 0 <= i < |base| && Ids(base)[i] == u;
        assert PayloadOn(recs, i) != Some(DeletePayload);
      } else {
        assert u in CreatedIds(recs);
      }
    }
  }

  // ---- the theorem for encoded deltas ----------------------------------------------

  /**
    Said of the two states alone: no unchanged element of the base names what only the result
    holds, and no patch the encoder prefers to a whole element splices a list out of line.
   */
  ghost predicate DiffLinesUp(tables: Tables, base: Doc, result: Doc) {
    forall i :: 0 <= i < |base| ==>
      PayloadLines(base, Elems(Ids(result)), base[i], PlannedPayload(tables, base, result, i))
  }

  /** Every splice the encoder prefers to a whole element stays within the held entries of its list. */
  ghost predicate DiffFits(tables: Tables, base: Doc, result: Doc) {
    forall i :: 0 <= i < |base| ==> PayloadFits(base, base[i], PlannedPayload(tables, base, result, i))
  }

  /** An unchanged element that names an identity only the result holds puts the two states out of line. */
  lemma UnchangedNamer(tables: Tables, base: Doc, result: Doc, i: nat, key: Prop, u: Uuid)
    requires i < |base| && base[i].id in Ids(result) && At(result, base[i].id) == base[i]
    requires key == OwnedRelatedElement || key == OwnedRelationship
    requires u in ListIds(base[i], key) && u !in Ids(base) && u in Ids(result)
    ensures !DiffLinesUp(tables, base, result)
  {
    hide At, Carry, PlannedOps, SentWhole, RefIds;
    ListIdsOf(base[i], key);
    assert !PayloadLines(base, Elems(Ids(result)), base[i], PlannedPayload(tables, base, result, i));
  }

  lemma EncodedLineUp(tables: Tables, base: Doc, result: Doc, recs: seq<Record>)
    requires PlanRecords(tables, false, base, result) == Ok(recs) && forall r :: r in recs ==> InBase(base, r)
    ensures ListsLineUp(base, AllResolved(tables, base, result, recs)) <==> DiffLinesUp(tables, base, result)
    ensures ListsFit(base, AllResolved(tables, base, result, recs)) <==> DiffFits(tables, base, result)
  {
    hide AllResolved, PayloadOn, PlannedPayload, PayloadLines, PayloadFits, ResultIds, PlanRecords;
    PlannedIds(tables, base, result, recs);
    forall i | 0 <= i < |base|
      ensures PayloadOn(AllResolved(tables, base, result, recs), i) == PlannedPayload(tables, base, result, i)
    {
      PlannedPayloads(tables, base, result, recs, i);
    }
  }

  /** The records of an encoded delta line up exactly when the two states do. */
  lemma EncodedRecords(hash: Hash, tables: Tables, base0: Doc, target0: Doc, opts: Options, recs: seq<ResolvedRecord>)
    requires ValidTables(tables) && DistinctIds(base0) && DistinctIds(target0) && !opts.portable
    requires AllKnown(tables, Canonical(base0)) && EncodeDelta(hash, tables, base0, target0, opts).Ok?
    requires
      var read := ReadHeader(EncodeDelta(hash, tables, base0, target0, opts).value, false);
      && read.Ok?
      && var acts := StrictActs(read.value.1, tables, Canonical(base0));
         var own := StrictRecords(read.value.1, tables, Canonical(base0));
         acts.Ok? && own.Ok? && CreatedIds(recs) == Ids(CreatedBy(acts.value)) && SameRecords(recs, own.value)
    ensures
      var base := Canonical(base0);
      var result := AppliedOrder(base, Canonical(target0));
      && NoDup(CreatedIds(recs))
      && (LinesUp(base, recs) <==> DiffLinesUp(tables, base, result))
      && (ListsFit(base, recs) <==> DiffFits(tables, base, result))
  {
    hide ValidTables, AllKnown, DistinctIds, Canonical, NoDup, ReadHeader, EncodeDelta, AppliedOrder, MapUnits,
      CreatedIds, ListsLineUp, LinesUp, AllResolved, PlanRecords, StrictActs, StrictRecords, SameRecords, DiffLinesUp,
      ListsFit, DiffFits;
    var base := Canonical(base0);
    var result := AppliedOrder(base, Canonical(target0));
    EncodedBody(hash, tables, base0, target0, opts);
    var own := AllResolved(tables, base, result, PlanRecords(tables, false, base, result).value);
    BitsKeepLines(base, recs, own);
    EncodedLineUp(tables, base, result, PlanRecords(tables, false, base, result).value);
    LinesParts(base, recs);
  }

  lemma LinesParts(base: Doc, recs: seq<ResolvedRecord>)
    ensures LinesUp(base, recs) <==> NoDup(CreatedIds(recs)) && ListsLineUp(base, recs)
  {
  }

  /**
    For every strict delta the encoder writes: transitioning the base's index gives the index
    of the target in applied order if and only if the two states line up, as they always do
    over a base whose lists name only its own elements. Its refusals are exactly the splices
    that do not fit, short of a result too large to index.
   */
  lemma EncodedTransitions(hash: Hash, tables: Tables, base0: Doc, target0: Doc, opts: Options)
    requires ValidTables(tables) && DistinctIds(base0) && DistinctIds(target0) && !opts.portable
    requires FromCompact(tables, base0).Ok? && EncodeDelta(hash, tables, base0, target0, opts).Ok?
    ensures
      var base, index := Canonical(base0), FromCompact(tables, base0).value;
      var result := AppliedOrder(base, Canonical(target0));
      var r := Resolve(tables, EncodeDelta(hash, tables, base0, target0, opts).value, Some(index));
      && r.Ok? && WellFormed(index) && DistinctIds(result)
      && (ClosedOwnership(base0) ==> DiffLinesUp(tables, base, result))
      && var moved := Transition(tables, r.value, index);
         && (moved.Ok? <==> DiffFits(tables, base, result) && |result| <= ADJACENCY_END)
         && (DiffLinesUp(tables, base, result) ==> moved == FromCompact(tables, result))
         && (moved.Ok? && moved == FromCompact(tables, result) ==> DiffLinesUp(tables, base, result))
  {
    hide ValidTables, AllKnown, ClosedOwnership, ApplyDelta, DistinctIds, Structure, Canonical, WellFormed, NoDup,
      ReadHeader, Transition, EncodeDelta, AppliedOrder, Resolve, SameElements, MapUnits, CreatedIds, ListsLineUp,
      LinesUp, DiffLinesUp, ListsFit, DiffFits, StrictActs, StrictRecords, SameRecords;
    var ts := EncodeDelta(hash, tables, base0, target0, opts).value;
    ApplyUndoesDiff(hash, tables, base0, target0, opts, base0, false);
    EncodedBody(hash, tables, base0, target0, opts);
    TransitionCommutesWithApply(hash, tables, ts, base0);
    ResolvedRecords(hash, tables, ts, base0);
    var recs := Resolve(tables, ts, Some(FromCompact(tables, base0).value)).value.records;
    EncodedRecords(hash, tables, base0, target0, opts, recs);
    LinesParts(Canonical(base0), recs);
  }
}
