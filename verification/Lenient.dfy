/** What applying guarantees of any payload, and of a portable payload over any document. */
module Lenient {
  import opened Wrappers
  import opened Seqs
  import opened Cbor
  import opened Model
  import opened Owners
  import opened Values
  import opened Records
  import opened Sections
  import opened Snapshot
  import opened Order
  import opened CanonDoc
  import opened Acts
  import opened Delta
  import opened Apply
  import opened DeltaRecords
  import opened DeltaRoundTrip
  import opened DeltaTheorems
  import opened Portable

  // ---- any accepted payload --------------------------------------------------------

  lemma StructureForwards(a: Doc, b: Doc)
    requires DistinctIds(a) && SameStructure(a, b)
    ensures Ids(a) == Ids(b) && SameForwards(a, b)
  {
    hide ListIds;
    assert forall i :: 0 <= i < |a| ==> SameForward(a[i], b[i]);
    assert Ids(a) == Ids(b);
    forall u | u in Ids(a) ensures SameForward(At(a, u), At(b, u)) {
      var i := IndexOf(Ids(a), u);
      assert SameForward(a[i], b[i]);
    }
  }

  /** A document with the structure of a canonical one is canonical. */
  lemma CanonicalStructure(doc: Doc, value: Doc)
    requires DistinctIds(doc) && SameStructure(Canonical(doc), value)
    ensures DistinctIds(value) && Ids(value) == Ids(Canonical(doc)) && Canonical(value) == value
  {
    hide Canon, GraphOf, At, SameStructure, SameForwards, Select;
    var c := Canonical(doc);
    CanonDocIdempotent(doc);
    StructureForwards(c, value);
    GraphSame(c, value);
    SelectAll(value);
  }

  lemma SelfStructure(doc: Doc)
    ensures SameStructure(doc, doc)
  {
  }

  /** Whatever the records, the applied document has distinct identities and is in canonical order. */
  lemma AppliedIsCanonical(tables: Tables, base: Doc, st: State, implied: bool, exceptions: Pairs)
    requires DistinctIds(base) && SoundState(Ids(base), st)
    ensures
      var value := Applied(tables, base, st, implied, exceptions);
      DistinctIds(value) && Canonical(value) == value
  {
    hide Canonical, SameStructure, SoundState, Assemble, FillShipped;
    AssembledDistinct(base, st);
    var doc := Assemble(base, st);
    if implied {
      FilledStructure(tables, Canonical(doc), st.shipped, exceptions);
      CanonicalStructure(doc, FillShipped(tables, Canonical(doc), st.shipped, exceptions));
    } else {
      SelfStructure(Canonical(doc));
      CanonicalStructure(doc, Canonical(doc));
    }
  }

  lemma FinishParts(hash: Hash, tables: Tables, ts: Toks, base: Doc, st: State, h: Header, matched: bool)
    requires DistinctIds(base) && SoundState(Ids(base), st) && Finish(hash, tables, ts, base, st, h, matched).Ok?
    ensures ReadIf(h.implied, ts, OwnerBits).Ok?
    ensures
      var (exceptions, ts1) := ReadIf(h.implied, ts, OwnerBits).value;
      && NameShipped(exceptions, st.shipped)
      && ReadIf(h.units, ts1, UnitPaths).Ok? && ReadIf(h.units, ts1, UnitPaths).value.1 == []
      && Finish(hash, tables, ts, base, st, h, matched).value.0 == Applied(tables, base, st, h.implied, exceptions)
      && Finish(hash, tables, ts, base, st, h, matched).value.1
         == Report(matched, st.noops, st.upserts, st.replacedCreates, ReadIf(h.units, ts1, UnitPaths).value.0)
    ensures
      matched ==>
        Digest(hash, tables, Finish(hash, tables, ts, base, st, h, matched).value.0) == Ok(h.resultDigest)
  {
    hide SoundState, Applied, ReadIf, Digest, NameShipped, NonEmptyPaths, LastBelow, DistinctIds;
  }

  lemma FinishIsCanonical(
      hash: Hash, tables: Tables, ts: Toks, base: Doc, st: State, h: Header, matched: bool)
    requires DistinctIds(base) && SoundState(Ids(base), st) && Finish(hash, tables, ts, base, st, h, matched).Ok?
    ensures
      var value := Finish(hash, tables, ts, base, st, h, matched).value.0;
      && DistinctIds(value) && Canonical(value) == value
      && (matched ==> Digest(hash, tables, value) == Ok(h.resultDigest))
  {
    hide Canonical, SoundState, Applied, Digest, ReadIf, NameShipped, DistinctIds, Finish;
    FinishParts(hash, tables, ts, base, st, h, matched);
    AppliedIsCanonical(tables, base, st, h.implied, ReadIf(h.implied, ts, OwnerBits).value.0);
  }

  /**
    On any payload the applier accepts, over any base: identities are distinct, the result
    is in canonical order, and where the base matched the result has the declared digest.
   */
  lemma ApplyIsCanonical(hash: Hash, tables: Tables, ts: Toks, base0: Doc, lenient: bool)
    requires DistinctIds(base0) && ApplyDelta(hash, tables, ts, base0, lenient).Ok?
    ensures
      var (value, report) := ApplyDelta(hash, tables, ts, base0, lenient).value;
      && DistinctIds(value) && Canonical(value) == value
      && (report.matched <==> Digest(hash, tables, Canonical(base0)) == Ok(ReadHeader(ts, lenient).value.0.baseDigest))
      && (report.matched ==> Digest(hash, tables, value) == Ok(ReadHeader(ts, lenient).value.0.resultDigest))
      && (!lenient ==> report.matched)
  {
    hide Canonical, ApplyBody, ReadHeader, Digest, DistinctIds, ApplyDelta;
    ApplyUnfolds(hash, tables, ts, base0, lenient);
    var (h, rest) := ReadHeader(ts, lenient).value;
    var base := Canonical(base0);
    BodyIsCanonical(hash, tables, rest, base, h, Digest(hash, tables, base) == Ok(h.baseDigest));
  }

  lemma ApplyUnfolds(hash: Hash, tables: Tables, ts: Toks, base0: Doc, lenient: bool)
    requires DistinctIds(base0) && ApplyDelta(hash, tables, ts, base0, lenient).Ok?
    ensures ReadHeader(ts, lenient).Ok?
    ensures
      var (h, rest) := ReadHeader(ts, lenient).value;
      var matched := Digest(hash, tables, Canonical(base0)) == Ok(h.baseDigest);
      && ApplyDelta(hash, tables, ts, base0, lenient) == ApplyBody(hash, tables, rest, Canonical(base0), h, matched)
      && (!lenient ==> matched)
  {
    hide Canonical, ApplyBody, ReadHeader, Digest, DistinctIds, ApplyGated;
    var (h, rest) := ReadHeader(ts, lenient).value;
    GatedUnfolds(hash, tables, rest, Canonical(base0), h, lenient);
  }

  lemma GatedUnfolds(hash: Hash, tables: Tables, ts: Toks, base: Doc, h: Header, lenient: bool)
    requires DistinctIds(base) && ApplyGated(hash, tables, ts, base, h, lenient).Ok?
    ensures
      var matched := Digest(hash, tables, base) == Ok(h.baseDigest);
      && ApplyGated(hash, tables, ts, base, h, lenient) == ApplyBody(hash, tables, ts, base, h, matched)
      && (!lenient ==> matched)
  {
    hide ApplyBody, Digest, DistinctIds;
  }

  lemma BodyIsCanonical(hash: Hash, tables: Tables, ts: Toks, base: Doc, h: Header, matched: bool)
    requires DistinctIds(base) && ApplyBody(hash, tables, ts, base, h, matched).Ok?
    ensures
      var (value, report) := ApplyBody(hash, tables, ts, base, h, matched).value;
      && DistinctIds(value) && Canonical(value) == value && report.matched == matched
      && (matched ==> Digest(hash, tables, value) == Ok(h.resultDigest))
  {
    hide Canonical, Digest, ReadUint, ReadIds, ReadArray, ReadActs, Run, EncAll, Finish;
    var ts1 := ReadUint(ts).value.1;
    var (exts, ts2) := ReadIds(ts1).value;
    var (created, ts3) := ReadIds(ts2).value;
    var (n, ts4) := ReadArray(ts3).value;
    var s := Space(if h.portable then [] else Ids(base), created, exts);
    var (acts, _, ts5) := ReadActs(ts4, s, tables, base, h.portable, created, 0, n).value;
    var st := Run(h.portable, Ids(base), INITIAL, acts).value;
    InitialSound(Ids(base));
    RunSound(h.portable, Ids(base), INITIAL, acts);
    FinishIsCanonical(hash, tables, ts5, base, st, h, matched);
    FinishMatched(hash, tables, ts5, base, st, h, matched);
  }

  lemma FinishMatched(
      hash: Hash, tables: Tables, ts: Toks, base: Doc, st: State, h: Header, matched: bool)
    requires DistinctIds(base) && SoundState(Ids(base), st) && Finish(hash, tables, ts, base, st, h, matched).Ok?
    ensures Finish(hash, tables, ts, base, st, h, matched).value.1.matched == matched
  {
    hide SoundState, Applied, ReadIf, Digest, NameShipped, NonEmptyPaths, LastBelow;
  }

  // ---- a portable payload over any document ----------------------------------------

  /** The merged document: exactly the identities that survive, each overridden by what was sent. */
  ghost predicate Merges(base: Doc, target: Doc, held: Doc, value: Doc) {
    && DistinctIds(value)
    && (forall u :: u in Ids(value) <==> Survives(base, target, held, u))
    && (forall u :: u in Ids(value) ==> Overrides(base, target, held, value, u, At(value, u)))
  }

  lemma FilledMerges(
      tables: Tables, sp: Spelling, base: Doc, result: Doc, recs: seq<Record>, held: Doc, st: State)
    requires DistinctIds(base) && DistinctIds(result) && DistinctIds(held) && SoundState(Ids(held), st)
    requires IsPlan(tables, true, base, result, recs) && forall rec :: rec in recs ==> InBase(base, rec)
    requires WriteRecords(tables, sp, true, base, result, recs).Ok?
    requires Run(true, Ids(held), INITIAL, ActsOf(base, result, recs)) == Some(st)
    ensures Merges(base, result, held, Applied(tables, held, st, true, RecordExceptions(tables, recs, 0)))
  {
    hide IsPlan, WriteRecords, ActsOf, Run, SoundState, RecordExceptions, Canonical, At, Survives, Overrides,
      SameStructure, Assemble, FillOne, Shipped, Applied, DistinctIds;
    var value := Applied(tables, held, st, true, RecordExceptions(tables, recs, 0));
    AppliedIsCanonical(tables, held, st, true, RecordExceptions(tables, recs, 0));
    AppliedSurvives(tables, base, result, recs, held, st);
    forall u | u in Ids(value) ensures Overrides(base, result, held, value, u, At(value, u)) {
      var i :| 0 <= i < |value| && Ids(value)[i] == u;
      AtPosition(value, i);
      FilledAt(tables, sp, base, result, recs, held, st, i);
    }
  }

  lemma AppliedIds(tables: Tables, held: Doc, st: State, implied: bool, exceptions: Pairs)
    requires DistinctIds(held) && SoundState(Ids(held), st)
    ensures
      forall u :: u in Ids(Applied(tables, held, st, implied, exceptions)) <==> u in Ids(Assemble(held, st))
  {
    hide Canonical, Assemble, FillShipped, SoundState;
    AssembledDistinct(held, st);
    FilledIds(tables, Canonical(Assemble(held, st)), st.shipped, exceptions);
    CanonicalIds(Assemble(held, st));
  }

  lemma AppliedSurvives(tables: Tables, base: Doc, result: Doc, recs: seq<Record>, held: Doc, st: State)
    requires DistinctIds(base) && DistinctIds(result) && DistinctIds(held) && SoundState(Ids(held), st)
    requires IsPlan(tables, true, base, result, recs) && forall rec :: rec in recs ==> InBase(base, rec)
    requires Run(true, Ids(held), INITIAL, ActsOf(base, result, recs)) == Some(st)
    ensures
      var value := Applied(tables, held, st, true, RecordExceptions(tables, recs, 0));
      forall u :: u in Ids(value) <==> Survives(base, result, held, u)
  {
    hide IsPlan, ActsOf, Run, SoundState, RecordExceptions, Survives, Assemble, Applied, DistinctIds;
    AppliedIds(tables, held, st, true, RecordExceptions(tables, recs, 0));
    forall u ensures u in Ids(Assemble(held, st)) <==> Survives(base, result, held, u) {
      PortableIds(tables, base, result, recs, held, u);
    }
  }

  lemma FilledAt(
      tables: Tables, sp: Spelling, base: Doc, result: Doc, recs: seq<Record>, held: Doc, st: State, i: nat)
    requires DistinctIds(base) && DistinctIds(result) && DistinctIds(held) && SoundState(Ids(held), st)
    requires IsPlan(tables, true, base, result, recs) && forall rec :: rec in recs ==> InBase(base, rec)
    requires WriteRecords(tables, sp, true, base, result, recs).Ok?
    requires Run(true, Ids(held), INITIAL, ActsOf(base, result, recs)) == Some(st)
    requires i < |Applied(tables, held, st, true, RecordExceptions(tables, recs, 0))|
    requires
      var u := Applied(tables, held, st, true, RecordExceptions(tables, recs, 0))[i].id;
      Survives(base, result, held, u)
    ensures
      var value := Applied(tables, held, st, true, RecordExceptions(tables, recs, 0));
      Overrides(base, result, held, value, value[i].id, value[i])
  {
    hide IsPlan, WriteRecords, ActsOf, Run, SoundState, RecordExceptions, Canonical, At, Survives, Overrides, Merged,
      SameStructure, Assemble, FillOne, ChangedIds, MadeIds, DroppedIds, Shipped;
    var pairs := RecordExceptions(tables, recs, 0);
    var value := Applied(tables, held, st, true, pairs);
    AssembledDistinct(held, st);
    PortableAssembles(tables, base, result, recs, held);
    var doc := Canonical(Assemble(held, st));
    FilledStructure(tables, doc, st.shipped, pairs);
    FilledIds(tables, doc, st.shipped, pairs);
    assert Ids(value)[i] == value[i].id && Ids(doc)[i] == doc[i].id;
    CanonicalAt(Assemble(held, st), i);
    FilledOverrides(tables, sp, base, result, recs, held, doc, value, value[i].id);
  }

  lemma CanonicalIds(doc: Doc)
    requires DistinctIds(doc)
    ensures forall u :: u in Ids(Canonical(doc)) <==> u in Ids(doc)
  {
    hide Canon, GraphOf;
  }

  lemma FilledIds(tables: Tables, doc: Doc, shipped: seq<Option<Uuid>>, pairs: Pairs)
    ensures Ids(FillShipped(tables, doc, shipped, pairs)) == Ids(doc)
  {
    hide FillElement, DerivedOwner, BitsFor;
    var filled := FillShipped(tables, doc, shipped, pairs);
    forall i | 0 <= i < |doc| ensures filled[i].id == doc[i].id {
      FillOneForward(tables, doc, shipped, pairs, doc[i]);
    }
  }

  /** What the report of a merge counts: what the delta dropped, changed and made against what was held. */
  function MergeReport(base: Doc, target: Doc, held: Doc): Report {
    Report(false, |DroppedIds(base, target) - Elems(Ids(held))|, |ChangedIds(base, target) - Elems(Ids(held))|,
      |MadeIds(base, target) * Elems(Ids(held))|, [])
  }

  lemma PortableFinish(
      hash: Hash, tables: Tables, base: Doc, result: Doc, recs: seq<Record>, body: Toks, held: Doc,
      baseDigest: Uuid, resultDigest: Uuid, st: State)
    requires DistinctIds(base) && DistinctIds(result) && DistinctIds(held) && SoundState(Ids(held), st)
    requires IsBody(tables, true, base, result, recs, body)
    requires Run(true, Ids(held), INITIAL, ActsOf(base, result, recs)) == Some(st)
    ensures
      var exceptions := RecordExceptions(tables, recs, 0);
      var r := Finish(hash, tables, WritePairs(exceptions) + UnitSection([]), held, st,
                 Header(true, true, false, baseDigest, resultDigest), false);
      && r.Ok? && r.value.1 == MergeReport(base, result, held)
      && Merges(base, result, held, r.value.0) && Canonical(r.value.0) == r.value.0
  {
    hide RecordExceptions, Run, ActsOf, SoundState, WriteRecords, WritePairs, UnitSection, ReadIf, Digest, ValidUnits,
      IsPlan, DeltaInterner, Applied, NameShipped, NonEmptyPaths, LastBelow, Merges, Canonical, ChangedIds, MadeIds,
      DroppedIds, Merged, Assemble;
    var exceptions := RecordExceptions(tables, recs, 0);
    NoUnits();
    TailRead(exceptions, [], 0);
    PortableAssembles(tables, base, result, recs, held);
    ExceptionsNameShipped(tables, true, base, result, recs);
    FilledMerges(tables, Wire(DeltaInterner(tables, true, base, result)), base, result, recs, held, st);
    AppliedIsCanonical(tables, held, st, true, exceptions);
    LastBelowNone(|Applied(tables, held, st, true, exceptions)|);
  }

  lemma NoUnits()
    ensures ValidUnits([], 0)
  {
  }

  lemma LastBelowNone(n: nat)
    ensures LastBelow([], n)
  {
  }

  lemma PortableBody(
      hash: Hash, tables: Tables, base: Doc, result: Doc, recs: seq<Record>, body: Toks, held: Doc,
      baseDigest: Uuid, resultDigest: Uuid)
    requires ValidTables(tables) && DistinctIds(base) && DistinctIds(result) && DistinctIds(held)
    requires IsBody(tables, true, base, result, recs, body)
    ensures
      var n, created := DeltaInterner(tables, true, base, result), Created(base, result);
      var ts := BodySection(true, base, n, created, recs, body, RecordExceptions(tables, recs, 0), []);
      var r := ApplyBody(hash, tables, ts, held, Header(true, true, false, baseDigest, resultDigest), false);
      && r.Ok? && r.value.1 == MergeReport(base, result, held)
      && Merges(base, result, held, r.value.0) && Canonical(r.value.0) == r.value.0
  {
    hide ValidTables, RecordExceptions, Run, ActsOf, SoundState, WriteRecords, WritePairs, UnitSection, IsPlan,
      DeltaInterner, Created, Finish, ReadActs, ReadUint, ReadIds, ReadArray, BodySection, RecordSection, EncAll,
      INITIAL, Merges, Canonical, MergeReport, Means, Carried;
    var n, created := DeltaInterner(tables, true, base, result), Created(base, result);
    var exceptions := RecordExceptions(tables, recs, 0);
    SectionsRead(true, base, n, created, recs, body, exceptions, []);
    BodyActs(tables, true, base, result, recs, body, held, WritePairs(exceptions) + UnitSection([]));
    PortableRuns(tables, base, result, recs, held);
    var acts := ActsOf(base, result, recs);
    InitialSound(Ids(held));
    RunSound(true, Ids(held), INITIAL, acts);
    PortableFinish(hash, tables, base, result, recs, body, held, baseDigest, resultDigest,
      Run(true, Ids(held), INITIAL, acts).value);
  }

  lemma PortableApplies(
      hash: Hash, tables: Tables, base: Doc, target: Doc, claims: Pairs, held: Doc, baseDigest: Uuid,
      resultDigest: Uuid)
    requires ValidTables(tables) && DistinctIds(base) && DistinctIds(target) && DistinctIds(held) && AllClaims(claims)
    requires EncodeBody(tables, true, base, AppliedOrder(base, target), baseDigest, resultDigest, claims, []).Ok?
    ensures
      var result := AppliedOrder(base, target);
      var ts := EncodeBody(tables, true, base, result, baseDigest, resultDigest, claims, []).value;
      && ReadHeader(ts, true).Ok?
      && ReadHeader(ts, true).value.0 == Header(true, true, false, baseDigest, resultDigest)
      && var r := ApplyBody(hash, tables, ReadHeader(ts, true).value.1, held, ReadHeader(ts, true).value.0, false);
         && r.Ok? && r.value.1 == MergeReport(base, result, held)
         && Merges(base, result, held, r.value.0) && Canonical(r.value.0) == r.value.0
  {
    hide ValidTables, AppliedOrder, ApplyBody, ReadHeader, PlanRecords, WriteRecords, DeltaTokens, RecordExceptions,
      DeltaInterner, BodySection, Created, AllClaims, HeaderWord, FlagByte, WritePairs, UuidBytes, Merges, Canonical,
      MergeReport;
    var result := AppliedOrder(base, target);
    var n := DeltaInterner(tables, true, base, result);
    var recs := PlanRecords(tables, true, base, result).value;
    var body := WriteRecords(tables, Wire(n), true, base, result, recs).value;
    var exceptions := RecordExceptions(tables, recs, 0);
    DeltaLayout(true, base, n, Created(base, result), baseDigest, resultDigest, claims, recs, body, exceptions, []);
    HeaderReads(true, false, true, baseDigest, resultDigest, claims,
      BodySection(true, base, n, Created(base, result), recs, body, exceptions, []));
    PortableBody(hash, tables, base, result, recs, body, held, baseDigest, resultDigest);
  }

  lemma ApplyDiverged(hash: Hash, tables: Tables, ts: Toks, held0: Doc)
    requires DistinctIds(held0) && ReadHeader(ts, true).Ok? && Digest(hash, tables, Canonical(held0)).Ok?
    requires Digest(hash, tables, Canonical(held0)).value != ReadHeader(ts, true).value.0.baseDigest
    ensures
      var (h, rest) := ReadHeader(ts, true).value;
      ApplyDelta(hash, tables, ts, held0, true) == ApplyBody(hash, tables, rest, Canonical(held0), h, false)
  {
    hide Canonical, Digest, ReadHeader, ApplyBody, ApplyGated, DistinctIds;
    var (h, rest) := ReadHeader(ts, true).value;
    GatedDiverges(hash, tables, rest, Canonical(held0), h);
  }

  lemma GatedDiverges(hash: Hash, tables: Tables, ts: Toks, base: Doc, h: Header)
    requires DistinctIds(base) && Digest(hash, tables, base).Ok? && Digest(hash, tables, base).value != h.baseDigest
    ensures ApplyGated(hash, tables, ts, base, h, true) == ApplyBody(hash, tables, ts, base, h, false)
  {
    hide Digest, ApplyBody, DistinctIds;
  }

  /**
    A portable delta applied leniently to any document whose digest is not the base's: it
    is accepted, and leaves exactly the held elements the delta did not drop, overridden by
    every element it changed or made, backpointers re-derived, in canonical order. The
    report counts the drops and changes of what was not held, and the makings of what was.
   */
  lemma LenientMerges(hash: Hash, tables: Tables, base0: Doc, target0: Doc, opts: Options, held0: Doc)
    requires ValidTables(tables) && DistinctIds(base0) && DistinctIds(target0) && DistinctIds(held0)
    requires opts.portable && EncodeDelta(hash, tables, base0, target0, opts).Ok?
    requires Digest(hash, tables, Canonical(held0)).Ok?
    requires Digest(hash, tables, Canonical(held0)) != Digest(hash, tables, Canonical(base0))
    ensures
      var base, held := Canonical(base0), Canonical(held0);
      var result := AppliedOrder(base, Canonical(target0));
      var r := ApplyDelta(hash, tables, EncodeDelta(hash, tables, base0, target0, opts).value, held0, true);
      && r.Ok? && Merges(base, result, held, r.value.0) && Canonical(r.value.0) == r.value.0
      && r.value.1 == MergeReport(base0, target0, held0)
      && SameElements(base0, base) && SameElements(target0, result) && SameElements(held0, held)
  {
    hide ValidTables, AppliedOrder, Canonical, Digest, SortPairs, EncodeBody, ApplyBody, ReadHeader, MapUnits,
      SameElements, EncodeDelta, ApplyDelta, AllClaims, Extras, Merges, MergeReport, ValidUnits;
    var base, held := Canonical(base0), Canonical(held0);
    var result := AppliedOrder(base, Canonical(target0));
    EncodeParts(hash, tables, base0, target0, opts);
    ExtrasParts(target0, result, opts);
    ResultHolds(base, target0);
    MappedUnits(target0, result, opts.units);
    CanonDocSame(base0);
    CanonDocSame(held0);
    var (claims, units) := Extras(target0, result, opts).value;
    assert units == [];
    PortableApplies(hash, tables, base, Canonical(target0), claims, held, Digest(hash, tables, base).value,
      Digest(hash, tables, result).value);
    ApplyDiverged(hash, tables, EncodeDelta(hash, tables, base0, target0, opts).value, held0);
    ReportSame(base0, target0, held0, base, result, held);
  }

  lemma ReportSame(base0: Doc, target0: Doc, held0: Doc, base: Doc, result: Doc, held: Doc)
    requires SameElements(base0, base) && SameElements(target0, result) && SameElements(held0, held)
    ensures MergeReport(base, result, held) == MergeReport(base0, target0, held0)
  {
    hide ChangedIds, MadeIds, DroppedIds, At;
    DiffSame(base0, target0, base, result);
    assert Elems(Ids(held0)) == Elems(Ids(held));
  }
}
