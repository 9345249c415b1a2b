/** What every encoded delta resolves to, strict and portable: its digests, claims, units and records. */
module ResolvedDeltas {
  import opened Wrappers
  import opened Seqs
  import opened Cbor
  import opened Model
  import opened Values
  import opened Records
  import opened Sections
  import opened Snapshot
  import opened Patch
  import opened CanonDoc
  import opened Acts
  import opened Delta
  import opened Apply
  import opened DeltaRecords
  import opened DeltaRoundTrip
  import opened DeltaTheorems
  import opened Index
  import opened TransitionRuns
  import opened TransitionTheorem
  import opened EncodedLines

  // ---- the records -----------------------------------------------------------------

  /** A change record as a resolver reads it: by base position when strict, by identity when portable. */
  function ResolvedAs(tables: Tables, portable: bool, base: Doc, result: Doc, rec: Record): ResolvedRecord
    requires InBase(base, rec)
  {
    var r := ResolvedOf(tables, base, result, rec);
    if portable && !rec.Made? then r.(target := ToId(base[rec.at].id)) else r
  }

  function AllResolvedAs(tables: Tables, portable: bool, base: Doc, result: Doc, recs: seq<Record>)
    : (r: seq<ResolvedRecord>)
    requires forall rec :: rec in recs ==> InBase(base, rec)
    ensures |r| == |recs|
    ensures forall i :: 0 <= i < |recs| ==> r[i] == ResolvedAs(tables, portable, base, result, recs[i])
  {
    seq(|recs|, i requires 0 <= i < |recs| => ResolvedAs(tables, portable, base, result, recs[i]))
  }

  /** The index a resolver is given: the base's when strict, none when portable. */
  function IndexFor(tables: Tables, portable: bool, base: Doc): Option<BaseIndex> {
    if portable then None else Some(Structure(tables, base))
  }

  lemma PortablePayload(
      tables: Tables, n: Interner, s: Space, base: Doc, result: Doc, rec: Record, ts: Toks, rest: Toks)
    requires ValidTables(tables) && Agree(n, s) && Planned(true, base, result, rec)
    requires InBase(base, rec) && Payload(tables, Wire(n), base, result, rec).Ok?
    requires ts == Payload(tables, Wire(n), base, result, rec).value + rest
    ensures
      var r := ResolvedAs(tables, true, base, result, rec);
      !r.target.ToBase? && ResolvePayload(ts, s, tables, None, r.target) == Ok((r.payload, rest))
  {
    hide ValidTables, Agree, WriteElement, WritePatch, ReadBody, ParsePatch, Kept, DerivationFor, At, FieldsAt;
    match rec
    case Drop(at) => assert ts == [NullTok] + rest;
    case Whole(at, e) => WholeInverts(tables, n, s, result, e, ts, rest);
    case Made(e) => WholeInverts(tables, n, s, result, e, ts, rest);
    case Patched(_, _) =>
  }

  lemma PortableTarget(tables: Tables, base: Doc, result: Doc, rec: Record, created: seq<Uuid>, next: nat)
    requires InBase(base, rec) && (rec.Made? ==> next < |created| && created[next] == rec.e.id)
    ensures
      ResolveTarget(Identity(true, base, rec), None, created, next)
      == Ok(ResolvedAs(tables, true, base, result, rec).target)
  {
    hide UuidBytes, UuidOf, Carry, PlannedOps;
    if !rec.Made? {
      UuidOfBytes(base[rec.at].id);
    }
  }

  /** A portable record resolves on its own to what it was planned as. */
  lemma PortableRecord(
      tables: Tables, n: Interner, s: Space, base: Doc, result: Doc, rec: Record, created: seq<Uuid>, next: nat,
      ts: Toks, rest: Toks)
    requires ValidTables(tables) && Agree(n, s) && Planned(true, base, result, rec)
    requires InBase(base, rec) && WriteRecord(tables, Wire(n), true, base, result, rec).Ok?
    requires ts == WriteRecord(tables, Wire(n), true, base, result, rec).value + rest
    requires rec.Made? ==> next < |created| && created[next] == rec.e.id
    ensures
      ResolveRecord(ts, s, tables, None, created, next) == Ok((ResolvedAs(tables, true, base, result, rec), rest))
  {
    hide ValidTables, Agree, Planned, Payload, ResolvePayload, ResolveTarget, Carry, PlannedOps, Identity;
    var payload := Payload(tables, Wire(n), base, result, rec).value;
    assert ts[0] == Array(2) && ts[1] == Identity(true, base, rec) && ts[1..][1..] == payload + rest;
    PortableTarget(tables, base, result, rec, created, next);
    PortablePayload(tables, n, s, base, result, rec, payload + rest, rest);
  }

  lemma RecordResolvesAs(
      tables: Tables, n: Interner, s: Space, portable: bool, base: Doc, result: Doc, rec: Record, created: seq<Uuid>,
      next: nat, ts: Toks, rest: Toks)
    requires ValidTables(tables) && (portable || AllKnown(tables, base)) && Agree(n, s)
    requires Planned(portable, base, result, rec)
    requires InBase(base, rec) && WriteRecord(tables, Wire(n), portable, base, result, rec).Ok?
    requires ts == WriteRecord(tables, Wire(n), portable, base, result, rec).value + rest
    requires rec.Made? ==> next < |created| && created[next] == rec.e.id
    ensures
      ResolveRecord(ts, s, tables, IndexFor(tables, portable, base), created, next)
      == Ok((ResolvedAs(tables, portable, base, result, rec), rest))
    ensures ResolvedAs(tables, portable, base, result, rec).target.ToCreate? <==> rec.Made?
  {
    hide ValidTables, AllKnown, Agree, Planned, WriteRecord, ResolveRecord, Structure, Carry, PlannedOps;
    if portable {
      PortableRecord(tables, n, s, base, result, rec, created, next, ts, rest);
    } else {
      RecordResolves(tables, n, s, base, result, rec, created, next, ts, rest);
    }
  }

  lemma ResolveStep(
      ts: Toks, s: Space, tables: Tables, index: Option<BaseIndex>, created: seq<Uuid>, next: nat, n: nat)
    requires n > 0 && ResolveRecord(ts, s, tables, index, created, next).Ok?
    ensures
      var (rec, rest) := ResolveRecord(ts, s, tables, index, created, next).value;
      var after := if rec.target.ToCreate? then next + 1 else next;
      var read := ResolveRecords(rest, s, tables, index, created, after, n - 1);
      read.Ok? ==>
        ResolveRecords(ts, s, tables, index, created, next, n)
        == Ok(([rec] + read.value.0, read.value.1, read.value.2))
  {
    hide ResolveRecord;
  }

  lemma NoneResolved(tables: Tables, s: Space, index: Option<BaseIndex>, created: seq<Uuid>, next: nat, ts: Toks)
    ensures ResolveRecords(ts, s, tables, index, created, next, 0) == Ok(([], next, ts))
  {
  }

  lemma {:induction false} RecordsResolveAs(
      tables: Tables, n: Interner, s: Space, portable: bool, base: Doc, result: Doc, recs: seq<Record>,
      created: seq<Uuid>, next: nat, ts: Toks, rest: Toks)
    requires ValidTables(tables) && (portable || AllKnown(tables, base)) && Agree(n, s)
    requires AllPlanned(portable, base, result, recs)
    requires (forall rec :: rec in recs ==> InBase(base, rec)) && TakesIds(recs, created, next)
    requires WriteRecords(tables, Wire(n), portable, base, result, recs).Ok?
    requires ts == WriteRecords(tables, Wire(n), portable, base, result, recs).value + rest
    ensures
      ResolveRecords(ts, s, tables, IndexFor(tables, portable, base), created, next, |recs|)
      == Ok((AllResolvedAs(tables, portable, base, result, recs), |created|, rest))
    decreases |recs|
  {
    hide ValidTables, AllKnown, Agree, Planned, WriteRecord, ResolveRecord, WriteRecords, ResolveRecords, TakesIds,
      ResolvedAs, IndexFor;
    var index := IndexFor(tables, portable, base);
    if recs == [] {
      NoRecordsLeft(tables, Wire(n), s, portable, base, result, base, created, next, ts);
      NoneResolved(tables, s, index, created, next, ts);
      assert [] + rest == rest && AllResolvedAs(tables, portable, base, result, recs) == [];
    } else {
      var rec, tail := recs[0], recs[1..];
      assert rec in recs;
      RecordsHead(tables, Wire(n), portable, base, result, recs);
      TakesHead(recs, created, next);
      var w := WriteRecords(tables, Wire(n), portable, base, result, tail).value;
      assert ts == WriteRecord(tables, Wire(n), portable, base, result, rec).value + (w + rest);
      RecordResolvesAs(tables, n, s, portable, base, result, rec, created, next, ts, w + rest);
      var after := if rec.Made? then next + 1 else next;
      RecordsResolveAs(tables, n, s, portable, base, result, tail, created, after, w + rest, rest);
      ResolveStep(ts, s, tables, index, created, next, |recs|);
      assert AllResolvedAs(tables, portable, base, result, recs)
             == [ResolvedAs(tables, portable, base, result, rec)] + AllResolvedAs(tables, portable, base, result, tail);
    }
  }

  // ---- the header ------------------------------------------------------------------

  lemma ResolveGate(portable: bool, units: bool)
    ensures
      GateResolve(FlagByte(true, portable, units, true), 7 + (if units then 1 else 0), !portable) == Ok(true)
  {
    hide FlagByte, Bit;
    FlagBits(true, portable, units, true);
  }

  lemma HeaderResolves(
      portable: bool, units: bool, baseDigest: Uuid, resultDigest: Uuid, claims: Pairs, rest: Toks)
    requires AllClaims(claims)
    ensures
      ResolveHeader(
        [Array(7 + (if units then 1 else 0)), Uint(HeaderWord(FlagByte(true, portable, units, true), ID_SCHEME)),
         Array(3), Bstr(UuidBytes(baseDigest)), Bstr(UuidBytes(resultDigest))] + (WritePairs(claims) + rest), !portable)
      == Ok((Header(portable, true, units, baseDigest, resultDigest), claims, rest))
  {
    hide FlagByte, Bit, HeaderWord, ParseHeader, GateResolve, ReadDigest, ReadClaims, WritePairs, UuidBytes, AllClaims;
    var flags := FlagByte(true, portable, units, true);
    var tail := WritePairs(claims) + rest;
    var head := [Array(7 + (if units then 1 else 0)), Uint(HeaderWord(flags, ID_SCHEME)),
                 Array(3), Bstr(UuidBytes(baseDigest)), Bstr(UuidBytes(resultDigest))];
    var ts := head + tail;
    HeaderInverts(flags, ID_SCHEME);
    FlagBits(true, portable, units, true);
    ResolveGate(portable, units);
    assert ts[0] == head[0] && ts[1] == head[1] && ts[2] == head[2];
    assert ts[1..][1..][1..] == [Bstr(UuidBytes(baseDigest))] + ([Bstr(UuidBytes(resultDigest))] + tail);
    DigestReads(baseDigest, [Bstr(UuidBytes(resultDigest))] + tail);
    DigestReads(resultDigest, tail);
    ClaimsRead(claims, tail, rest);
  }

  // ---- the body --------------------------------------------------------------------

  lemma ExceptionsNameElements(tables: Tables, portable: bool, base: Doc, result: Doc, recs: seq<Record>)
    requires forall rec :: rec in recs ==> InBase(base, rec)
    ensures NameElements(RecordExceptions(tables, recs, 0), AllResolvedAs(tables, portable, base, result, recs))
  {
    hide RecordExceptions, Carry, PlannedOps;
  }

  /** The exception bits a record resolves with: the backpointers its shipped element lacks. */
  function LackedBits(tables: Tables, rec: Record): nat {
    if rec.Whole? || rec.Made? then AbsentBits(FieldsOf(tables, rec.e.ty), rec.e) else 0
  }

  lemma ExceptionsAre(tables: Tables, recs: seq<Record>, i: nat)
    requires i < |recs|
    ensures BitsAt(RecordExceptions(tables, recs, 0), i) == LackedBits(tables, recs[i])
  {
    hide RecordExceptions, AbsentBits, BitsAt;
    if recs[i].Whole? || recs[i].Made? {
      RecordBits(tables, recs, 0, i);
    } else {
      NoBitsAt(RecordExceptions(tables, recs, 0), i);
    }
  }

  /** The records a delta resolves to, with the backpointers each shipped element lacks. */
  function Shown(tables: Tables, portable: bool, base: Doc, result: Doc, recs: seq<Record>): (r: seq<ResolvedRecord>)
    requires forall rec :: rec in recs ==> InBase(base, rec)
    ensures |r| == |recs|
    ensures
      forall i :: 0 <= i < |recs| ==>
        r[i] == ResolvedAs(tables, portable, base, result, recs[i]).(bits := LackedBits(tables, recs[i]))
  {
    seq(|recs|, i requires 0 <= i < |recs| =>
      ResolvedAs(tables, portable, base, result, recs[i]).(bits := LackedBits(tables, recs[i])))
  }

  lemma BitsShown(tables: Tables, portable: bool, base: Doc, result: Doc, recs: seq<Record>)
    requires forall rec :: rec in recs ==> InBase(base, rec)
    ensures
      WithBits(AllResolvedAs(tables, portable, base, result, recs), RecordExceptions(tables, recs, 0))
      == Shown(tables, portable, base, result, recs)
  {
    hide RecordExceptions, LackedBits, BitsAt, ResolvedAs;
    forall i | 0 <= i < |recs|
      ensures BitsAt(RecordExceptions(tables, recs, 0), i) == LackedBits(tables, recs[i])
    {
      ExceptionsAre(tables, recs, i);
    }
  }

  lemma BodyResolvesAs(
      tables: Tables, portable: bool, base: Doc, result: Doc, recs: seq<Record>, body: Toks, h: Header, claims: Pairs,
      units: Pairs)
    requires ValidTables(tables) && (portable || AllKnown(tables, base)) && DistinctIds(base) && DistinctIds(result)
    requires IsBody(tables, portable, base, result, recs, body) && ValidUnits(units, |result|)
    requires h.portable == portable && h.implied && h.units == (units != [])
    ensures
      var n, created := DeltaInterner(tables, portable, base, result), Created(base, result);
      var ts := BodySection(portable, base, n, created, recs, body, RecordExceptions(tables, recs, 0), units);
      ResolveBody(ts, tables, IndexFor(tables, portable, base), h, claims)
      == Ok(Resolved(portable, h.baseDigest, h.resultDigest, claims, units,
              Shown(tables, portable, base, result, recs)))
  {
    hide ValidTables, AllKnown, WriteRecords, DeltaInterner, Created, ReadUint, ReadIds, ReadArray, BodySection,
      RecordSection, EncAll, WritePairs, UnitSection, ActsOf, DistinctIds, NoDup, Agree, AllPlanned, TakesIds,
      ResolveRecords, Structure, AllResolvedAs, Shown, RecordExceptions, NameElements, WithBits, IsPlan, ReadIf,
      ValidUnits, ReadActs, NonEmptyPaths, LastBelow;
    var n, created := DeltaInterner(tables, portable, base, result), Created(base, result);
    var exceptions := RecordExceptions(tables, recs, 0);
    var rest := WritePairs(exceptions) + UnitSection(units);
    SectionsRead(portable, base, n, created, recs, body, exceptions, units);
    BodyActs(tables, portable, base, result, recs, body, base, rest);
    DeltaAgrees(tables, portable, base, result);
    PlanFacts(tables, portable, base, result, recs);
    RecordsResolveAs(
      tables, n, Space(if portable then [] else Ids(base), Ids(created), n.ext), portable, base, result, recs,
      Ids(created), 0, body + rest, rest);
    ExceptionsNameElements(tables, portable, base, result, recs);
    TailRead(exceptions, units, |result|);
    StructureIds(tables, base);
    BitsShown(tables, portable, base, result, recs);
  }

  // ---- the theorem -----------------------------------------------------------------

  lemma EncodedBodyResolves(
      tables: Tables, portable: bool, base: Doc, result: Doc, baseDigest: Uuid, resultDigest: Uuid, claims: Pairs,
      units: Pairs)
    requires ValidTables(tables) && (portable || AllKnown(tables, base)) && DistinctIds(base) && DistinctIds(result)
    requires AllClaims(claims) && ValidUnits(units, |result|)
    requires EncodeBody(tables, portable, base, result, baseDigest, resultDigest, claims, units).Ok?
    ensures PlanRecords(tables, portable, base, result).Ok?
    ensures
      var ts := EncodeBody(tables, portable, base, result, baseDigest, resultDigest, claims, units).value;
      var recs := PlanRecords(tables, portable, base, result).value;
      Resolve(tables, ts, IndexFor(tables, portable, base))
      == Ok(Resolved(portable, baseDigest, resultDigest, claims, units,
              Shown(tables, portable, base, result, recs)))
  {
    hide ValidTables, ResolveHeader, ResolveBody, PlanRecords, WriteRecords, DeltaTokens, RecordExceptions,
      DeltaInterner, BodySection, Created, AllClaims, HeaderWord, FlagByte, WritePairs, UuidBytes, NoDup, DistinctIds,
      AllKnown, Shown, ValidUnits, Structure;
    var n := DeltaInterner(tables, portable, base, result);
    var recs := PlanRecords(tables, portable, base, result).value;
    var body := WriteRecords(tables, Wire(n), portable, base, result, recs).value;
    var exceptions := RecordExceptions(tables, recs, 0);
    var section := BodySection(portable, base, n, Created(base, result), recs, body, exceptions, units);
    DeltaLayout(
      portable, base, n, Created(base, result), baseDigest, resultDigest, claims, recs, body, exceptions, units);
    HeaderResolves(portable, units != [], baseDigest, resultDigest, claims, section);
    BodyResolvesAs(tables, portable, base, result, recs, body,
      Header(portable, true, units != [], baseDigest, resultDigest), claims, units);
  }

  /**
    Every encoded delta resolves, strict through the index of its base and portable on its own,
    to what went into it: the digest of the canonical base, the digest of the target in applied
    order, the claims by key, the units by result position, and the planned records, each under
    its position or identity with its own payload and the backpointers its element lacks.
   */
  lemma EncodedResolves(hash: Hash, tables: Tables, base0: Doc, target0: Doc, opts: Options)
    requires ValidTables(tables) && DistinctIds(base0) && DistinctIds(target0)
    requires EncodeDelta(hash, tables, base0, target0, opts).Ok?
    requires opts.portable || FromCompact(tables, base0).Ok?
    ensures
      var base := Canonical(base0);
      var result := AppliedOrder(base, Canonical(target0));
      var index := if opts.portable then None else Some(FromCompact(tables, base0).value);
      var plan, units := PlanRecords(tables, opts.portable, base, result), MapUnits(target0, result, opts.units);
      var r := Resolve(tables, EncodeDelta(hash, tables, base0, target0, opts).value, index);
      && r.Ok? && plan.Ok? && units.Ok?
      && r.value.portable == opts.portable
      && Digest(hash, tables, base) == Ok(r.value.baseDigest)
      && Digest(hash, tables, result) == Ok(r.value.resultDigest)
      && r.value.claims == SortPairs(opts.claims) && r.value.units == units.value
      && r.value.records == Shown(tables, opts.portable, base, result, plan.value)
  {
    hide ValidTables, AppliedOrder, Canonical, Digest, EncodeDelta, EncodeBody, Resolve, Extras, AllClaims,
      DistinctIds, MapUnits, AllKnown, Structure, PlanRecords, Shown, SortPairs, SameElements, ValidUnits;
    var base := Canonical(base0);
    var result := AppliedOrder(base, Canonical(target0));
    EncodeParts(hash, tables, base0, target0, opts);
    ExtrasParts(target0, result, opts);
    ResultHolds(base, target0);
    var (claims, units) := Extras(target0, result, opts).value;
    MappedUnits(target0, result, opts.units);
    AppliedDistinct(base, Canonical(target0));
    EncodedBodyResolves(tables, opts.portable, base, result, Digest(hash, tables, base).value,
      Digest(hash, tables, result).value, claims, units);
  }

  lemma ModeRead(ts: Toks, indexed: bool)
    requires ResolveHeader(ts, indexed).Ok?
    ensures ResolveHeader(ts, indexed).value.0.portable == !indexed
  {
    hide ReadDigest, ReadClaims, ParseHeader, Bit;
  }

  lemma ModeKept(ts: Toks, tables: Tables, base: Option<BaseIndex>, h: Header, claims: Pairs)
    requires ResolveBody(ts, tables, base, h, claims).Ok?
    ensures ResolveBody(ts, tables, base, h, claims).value.portable == h.portable
  {
    hide ResolveRecords, ReadIds, ReadIf, NameElements, WithBits, Remaining, ReadUint, ReadArray;
  }

  /** A delta that resolves without an index moves none. */
  lemma PortableUnmoved(tables: Tables, ts: Toks, base: BaseIndex)
    requires WellFormed(base) && Resolve(tables, ts, None).Ok?
    ensures Transition(tables, Resolve(tables, ts, None).value, base).Err?
  {
    hide ResolveHeader, ResolveBody, AdvanceAll, Settle, WellFormed;
    var (h, claims, rest) := ResolveHeader(ts, false).value;
    ModeRead(ts, false);
    ModeKept(rest, tables, None, h, claims);
  }
}
