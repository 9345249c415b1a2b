/** The records of an encoded delta, read back: each is the act it was planned as. */
module DeltaRecords {
  import opened Wrappers
  import opened Seqs
  import opened Cbor
  import opened Model
  import opened Owners
  import opened Values
  import opened Records
  import opened Sections
  import opened Snapshot
  import opened Patch
  import opened CanonDoc
  import opened Acts
  import opened Delta
  import opened Apply

  // ---- what was planned ------------------------------------------------------------

  /** A record that says what the diff says of its position. */
  ghost predicate Planned(portable: bool, base: Doc, result: Doc, rec: Record) {
    match rec
    case Drop(at) => at < |base| && base[at].id !in Ids(result)
    case Whole(at, e) => at < |base| && base[at].id in Ids(result) && e == At(result, base[at].id) && e != base[at]
    case Patched(at, e) =>
      !portable && at < |base| && base[at].id in Ids(result) && e == At(result, base[at].id) && e != base[at]
    case Made(e) => e.id in Ids(result) && e.id !in Ids(base) && e == At(result, e.id)
  }

  ghost predicate AllPlanned(portable: bool, base: Doc, result: Doc, recs: seq<Record>) {
    forall rec :: rec in recs ==> Planned(portable, base, result, rec)
  }

  lemma {:induction false} TouchedPlanned(tables: Tables, sp: Spelling, portable: bool, base: Doc, result: Doc, k: nat)
    requires k <= |base| && PlanTouched(tables, sp, portable, base, result, k).Ok?
    ensures AllPlanned(portable, base, result, PlanTouched(tables, sp, portable, base, result, k).value)
    decreases |base| - k
  {
    hide ShipsWhole, At;
    if k < |base| {
      if portable && Changes(base, result, k) {
        var e := At(result, base[k].id);
        PortableShipsWhole(tables, sp, portable, base[k], e, DerivationFor(result, true, e));
      }
      TouchedPlanned(tables, sp, portable, base, result, k + 1);
    }
  }

  lemma PortableShipsWhole(tables: Tables, sp: Spelling, portable: bool, b: Element, e: Element, d: Derivation)
    requires portable && ShipsWhole(tables, sp, portable, b, e, d).Ok?
    ensures ShipsWhole(tables, sp, portable, b, e, d).value
  {
  }

  // ---- the shorter form ships ------------------------------------------------------

  /** The bytes of the whole record of `e`. */
  function WholeSize(tables: Tables, sp: Spelling, result: Doc, e: Element): Result<nat> {
    var ts :- WriteElement(tables, sp, e, DerivationFor(result, true, e));
    Ok(|EncAll(ts)|)
  }

  /** The bytes of the patch that makes `e` of `b`; none where none can be planned. */
  function PatchSize(tables: Tables, sp: Spelling, b: Element, e: Element): Result<Option<nat>> {
    match PlanPatch(tables, b, e)
    case None => Ok(None)
    case Some(ops) =>
      var ts :- WritePatch(sp, FieldsOf(tables, e.ty), ops);
      Ok(Some(|EncAll(ts)|))
  }

  /**
    An update ships as a patch exactly where the delta is strict and the patch there is takes
    strictly fewer bytes than the whole record.
   */
  ghost predicate Shortest(tables: Tables, sp: Spelling, portable: bool, base: Doc, result: Doc, rec: Record) {
    match rec
    case Patched(at, e) =>
      && !portable && at < |base|
      && exists patch, whole ::
           && PatchSize(tables, sp, base[at], e) == Ok(Some(patch))
           && WholeSize(tables, sp, result, e) == Ok(whole) && patch < whole
    case Whole(at, e) =>
      && at < |base|
      && exists whole ::
           && WholeSize(tables, sp, result, e) == Ok(whole)
           && (!portable ==>
                 exists patch: Option<nat> ::
                   PatchSize(tables, sp, base[at], e) == Ok(patch) && (patch.Some? ==> whole <= patch.value))
    case _ => true
  }

  lemma UpdateShortest(
      tables: Tables, sp: Spelling, portable: bool, base: Doc, result: Doc, at: nat, e: Element)
    requires at < |base| && ShipsWhole(tables, sp, portable, base[at], e, DerivationFor(result, true, e)).Ok?
    ensures
      var whole := ShipsWhole(tables, sp, portable, base[at], e, DerivationFor(result, true, e)).value;
      Shortest(tables, sp, portable, base, result, if whole then Whole(at, e) else Patched(at, e))
  {
    hide WriteElement, PlanPatch, WritePatch, DerivationFor, EncAll;
    var size := WholeSize(tables, sp, result, e);
    assert size.Ok?;
    if !portable {
      assert PatchSize(tables, sp, base[at], e).Ok?;
    }
  }

  lemma {:induction false} TouchedShortest(
      tables: Tables, sp: Spelling, portable: bool, base: Doc, result: Doc, k: nat)
    requires k <= |base| && PlanTouched(tables, sp, portable, base, result, k).Ok?
    ensures
      forall rec :: rec in PlanTouched(tables, sp, portable, base, result, k).value ==>
        Shortest(tables, sp, portable, base, result, rec)
    decreases |base| - k
  {
    hide ShipsWhole, At, Shortest, DerivationFor;
    if k < |base| {
      NeedsNoSize(tables, sp, portable, base, result, k);
      if Changes(base, result, k) {
        UpdateShortest(tables, sp, portable, base, result, k, At(result, base[k].id));
      }
      TouchedShortest(tables, sp, portable, base, result, k + 1);
    }
  }

  lemma NeedsNoSize(tables: Tables, sp: Spelling, portable: bool, base: Doc, result: Doc, k: nat)
    ensures Shortest(tables, sp, portable, base, result, Drop(k))
    ensures forall e :: Shortest(tables, sp, portable, base, result, Made(e))
  {
  }

  /** Every record of a plan is in the form that takes fewer bytes, the whole record on a tie. */
  lemma PlanShortest(tables: Tables, portable: bool, base: Doc, result: Doc)
    requires PlanRecords(tables, portable, base, result).Ok?
    ensures
      forall rec :: rec in PlanRecords(tables, portable, base, result).value ==>
        Shortest(tables, Wire(DeltaInterner(tables, portable, base, result)), portable, base, result, rec)
  {
    hide PlanTouched, Shortest, DeltaInterner, Created;
    TouchedShortest(tables, Wire(DeltaInterner(tables, portable, base, result)), portable, base, result, 0);
    NeedsNoSize(tables, Wire(DeltaInterner(tables, portable, base, result)), portable, base, result, 0);
  }

  /** Positions ascend. */
  lemma {:induction false} TouchedAscend(tables: Tables, sp: Spelling, portable: bool, base: Doc, result: Doc, k: nat)
    requires k <= |base| && PlanTouched(tables, sp, portable, base, result, k).Ok?
    ensures
      var recs := PlanTouched(tables, sp, portable, base, result, k).value;
      forall i, j :: 0 <= i < j < |recs| ==> recs[i].at < recs[j].at
    decreases |base| - k
  {
    hide ShipsWhole, At;
    if k < |base| {
      var rest := PlanTouched(tables, sp, portable, base, result, k + 1);
      if rest.Ok? {
        TouchedAscend(tables, sp, portable, base, result, k + 1);
        assert forall rec :: rec in rest.value ==> k < rec.at;
      }
    }
  }

  /** `rec` stands before `other`: touched positions ascend, creates follow them in result order. */
  ghost predicate StandsBefore(result: Doc, rec: Record, other: Record) {
    if other.Made? then rec.Made? ==> IndexOf(Ids(result), rec.e.id) < IndexOf(Ids(result), other.e.id)
    else !rec.Made? && rec.at < other.at
  }

  /** The order of a plan. */
  lemma PlanOrdered(tables: Tables, portable: bool, base: Doc, result: Doc)
    requires DistinctIds(result) && PlanRecords(tables, portable, base, result).Ok?
    ensures
      var recs := PlanRecords(tables, portable, base, result).value;
      forall i, j :: 0 <= i < j < |recs| ==> StandsBefore(result, recs[i], recs[j])
  {
    hide PlanTouched, Pick, IndexOf, DeltaInterner, Created;
    var sp := Wire(DeltaInterner(tables, portable, base, result));
    var touched, created := PlanTouched(tables, sp, portable, base, result, 0).value, Created(base, result);
    TouchedAscend(tables, sp, portable, base, result, 0);
    PickOrdered(Ids(result), Elems(Ids(base)), false);
    var recs := PlanRecords(tables, portable, base, result).value;
    var n, us := |touched|, Ids(created);
    assert recs == touched + Makes(created) && forall rec :: rec in touched ==> !rec.Made?;
    assert forall i :: n <= i < |recs| ==> recs[i] == Made(created[i - n]);
    forall i, j | 0 <= i < j < |recs| ensures StandsBefore(result, recs[i], recs[j]) {
      if j < n {
        assert recs[i] == touched[i] && recs[j] == touched[j];
      } else if i < n {
        assert recs[i] == touched[i];
      } else {
        assert recs[i].e.id == us[i - n] && recs[j].e.id == us[j - n];
      }
    }
  }

  ghost predicate Names(recs: seq<Record>, i: nat) {
    exists j :: 0 <= j < |recs| && !recs[j].Made? && recs[j].at == i
  }

  /** A position no record names holds the result's element already. */
  lemma {:induction false} TouchedCovers(
      tables: Tables, sp: Spelling, portable: bool, base: Doc, result: Doc, k: nat, i: nat)
    requires k <= i < |base| && PlanTouched(tables, sp, portable, base, result, k).Ok?
    requires !Names(PlanTouched(tables, sp, portable, base, result, k).value, i)
    ensures base[i].id in Ids(result) && At(result, base[i].id) == base[i]
    decreases |base| - k
  {
    hide ShipsWhole, At;
    var recs := PlanTouched(tables, sp, portable, base, result, k).value;
    var rest := PlanTouched(tables, sp, portable, base, result, k + 1);
    if recs == rest.value {
      if k < i {
        TouchedCovers(tables, sp, portable, base, result, k + 1, i);
      }
    } else {
      assert recs[0].at == k && recs[1..] == rest.value;
      assert k != i;
      forall j | 0 <= j < |rest.value| ensures rest.value[j].at != i {
        assert recs[j + 1] == rest.value[j];
      }
      TouchedCovers(tables, sp, portable, base, result, k + 1, i);
    }
  }

  // ---- reading one record ----------------------------------------------------------

  /** An element as its record carries it: without the backpointers the result derives. */
  function Carry(result: Doc, e: Element): (r: Element)
    ensures r.id == e.id && r.ty == e.ty
  {
    Element(e.id, e.ty, Kept(e, DerivationFor(result, true, e)))
  }

  /** The act a record is read as. */
  function ActOf(base: Doc, result: Doc, rec: Record): Act
    requires InBase(base, rec)
  {
    match rec
    case Drop(at) => Delete(base[at].id)
    case Whole(at, e) => Update(base[at].id, Carry(result, e), true)
    case Patched(at, e) => Update(base[at].id, e, false)
    case Made(e) => Create(e.id, Carry(result, e))
  }

  /** A record's target in the document an applier holds. */
  function TargetOf(portable: bool, base: Doc, held: Doc, rec: Record): Target
    requires InBase(base, rec)
  {
    if rec.Made? then New
    else if !portable then Held(rec.at)
    else if base[rec.at].id in Ids(held) then Held(IndexOf(Ids(held), base[rec.at].id))
    else Absent(base[rec.at].id)
  }

  lemma TargetInverts(portable: bool, base: Doc, held: Doc, rec: Record)
    requires InBase(base, rec) && (portable || held == base)
    ensures ReadTarget(Identity(portable, base, rec), held, portable) == Ok(TargetOf(portable, base, held, rec))
  {
    hide UuidBytes, UuidOf;
    if !rec.Made? {
      UuidOfBytes(base[rec.at].id);
    }
  }

  /** A record reads as the act it was planned as: strictly over the base, portably over any document. */
  lemma ReadActInverts(
      tables: Tables, n: Interner, s: Space, portable: bool, base: Doc, result: Doc, rec: Record, held: Doc,
      created: seq<Uuid>, next: nat, ts: Toks, rest: Toks)
    requires ValidTables(tables) && Agree(n, s) && Planned(portable, base, result, rec) && (portable || held == base)
    requires InBase(base, rec) && WriteRecord(tables, Wire(n), portable, base, result, rec).Ok?
    requires ts == WriteRecord(tables, Wire(n), portable, base, result, rec).value + rest
    requires rec.Made? ==> next < |created| && created[next] == rec.e.id
    ensures ReadAct(ts, s, tables, held, portable, created, next) == Ok((ActOf(base, result, rec), rest))
  {
    hide ValidTables, Agree, Planned, Payload, ReadPayload, Identity, ReadTarget, ActOf, TargetOf;
    var payload := Payload(tables, Wire(n), base, result, rec).value;
    assert ts[0] == Array(2) && ts[1] == Identity(portable, base, rec) && ts[1..][1..] == payload + rest;
    TargetInverts(portable, base, held, rec);
    ReadPayloadInverts(tables, n, s, portable, base, result, rec, held, created, next, payload + rest, rest);
  }

  lemma ReadPayloadInverts(
      tables: Tables, n: Interner, s: Space, portable: bool, base: Doc, result: Doc, rec: Record, held: Doc,
      created: seq<Uuid>, next: nat, ts: Toks, rest: Toks)
    requires ValidTables(tables) && Agree(n, s) && Planned(portable, base, result, rec) && (portable || held == base)
    requires InBase(base, rec) && Payload(tables, Wire(n), base, result, rec).Ok?
    requires ts == Payload(tables, Wire(n), base, result, rec).value + rest
    requires rec.Made? ==> next < |created| && created[next] == rec.e.id
    ensures
      var target := TargetOf(portable, base, held, rec);
      && (target.Held? ==> target.at < |held|)
      && ReadPayload(ts, s, tables, held, portable, created, next, target) == Ok((ActOf(base, result, rec), rest))
  {
    hide ValidTables, Agree, WriteElement, PlanPatch, WritePatch, ReadBody, ReadPatch, Kept, DerivationFor, At;
    match rec
    case Drop(at) => assert ts == [NullTok] + rest;
    case Whole(at, e) => WholeInverts(tables, n, s, result, e, ts, rest);
    case Made(e) => WholeInverts(tables, n, s, result, e, ts, rest);
    case Patched(at, e) => PatchedInverts(tables, n, s, base[at], e, ts, rest);
  }

  lemma WholeInverts(tables: Tables, n: Interner, s: Space, result: Doc, e: Element, ts: Toks, rest: Toks)
    requires ValidTables(tables) && Agree(n, s)
    requires WriteElement(tables, Wire(n), e, DerivationFor(result, true, e)).Ok?
    requires ts == WriteElement(tables, Wire(n), e, DerivationFor(result, true, e)).value + rest
    ensures ts != [] && ts[0] == Array(3)
    ensures ReadBody(ts[1..], s, tables, e.id) == Ok((Carry(result, e), rest))
  {
    hide ValidTables, Agree, ReadBody, Kept, WriteEntries, PresenceBits, CountEntries, Pack, KeysKnown, DerivationFor;
    var d := DerivationFor(result, true, e);
    var w := WriteElement(tables, Wire(n), e, d).value;
    assert ts[1..] == w[1..] + rest;
    ReadBodyInverts(tables, n, s, e, d, ts[1..], rest);
  }

  lemma PatchedInverts(tables: Tables, n: Interner, s: Space, b: Element, e: Element, ts: Toks, rest: Toks)
    requires Agree(n, s) && PlanPatch(tables, b, e).Some?
    requires
      var ops := PlanPatch(tables, b, e).value;
      && WritePatch(Wire(n), FieldsOf(tables, e.ty), ops).Ok?
      && ts == WritePatch(Wire(n), FieldsOf(tables, e.ty), ops).value + rest
    ensures ts != [] && ts[0].Map? && ReadPatch(ts[1..], s, tables, ts[0].len, b) == Ok((e, rest))
  {
    hide Agree, WriteOps, ReadPatch, PlanOps, Replay;
    var ops := PlanPatch(tables, b, e).value;
    var w := WritePatch(Wire(n), FieldsOf(tables, e.ty), ops).value;
    assert ts[0] == Map(|ops|) && ts[1..] == w[1..] + rest;
    PatchInverts(tables, n, s, b, e, ts[1..], rest);
  }

  // ---- reading them all ------------------------------------------------------------

  function ActsOf(base: Doc, result: Doc, recs: seq<Record>): (acts: Acts)
    requires forall rec :: rec in recs ==> InBase(base, rec)
    ensures |acts| == |recs| && forall i :: 0 <= i < |recs| ==> acts[i] == ActOf(base, result, recs[i])
  {
    seq(|recs|, i requires 0 <= i < |recs| => ActOf(base, result, recs[i]))
  }

  /** Position `next + i` of `created` is the `i`-th element made by `recs`. */
  ghost predicate TakesIds(recs: seq<Record>, created: seq<Uuid>, next: nat)
    decreases |recs|
  {
    if recs == [] then next == |created|
    else if recs[0].Made? then
      next < |created| && created[next] == recs[0].e.id && TakesIds(recs[1..], created, next + 1)
    else TakesIds(recs[1..], created, next)
  }

  lemma NoRecordsLeft(
      tables: Tables, sp: Spelling, s: Space, portable: bool, base: Doc, result: Doc, held: Doc, created: seq<Uuid>,
      next: nat, ts: Toks)
    ensures WriteRecords(tables, sp, portable, base, result, []) == Ok([])
    ensures ReadActs(ts, s, tables, held, portable, created, next, 0) == Ok(([], next, ts))
    ensures TakesIds([], created, next) ==> next == |created|
  {
  }

  lemma RecordsHead(
      tables: Tables, sp: Spelling, portable: bool, base: Doc, result: Doc, recs: seq<Record>)
    requires recs != [] && forall rec :: rec in recs ==> InBase(base, rec)
    requires WriteRecords(tables, sp, portable, base, result, recs).Ok?
    ensures InBase(base, recs[0]) && WriteRecord(tables, sp, portable, base, result, recs[0]).Ok?
    ensures WriteRecords(tables, sp, portable, base, result, recs[1..]).Ok?
    ensures
      WriteRecords(tables, sp, portable, base, result, recs).value
      == WriteRecord(tables, sp, portable, base, result, recs[0]).value
         + WriteRecords(tables, sp, portable, base, result, recs[1..]).value
  {
    hide WriteRecord;
  }

  lemma TakesHead(recs: seq<Record>, created: seq<Uuid>, next: nat)
    requires recs != [] && TakesIds(recs, created, next)
    ensures recs[0].Made? ==> next < |created| && created[next] == recs[0].e.id
    ensures TakesIds(recs[1..], created, if recs[0].Made? then next + 1 else next)
  {
  }

  lemma ActMakes(base: Doc, result: Doc, rec: Record)
    requires InBase(base, rec)
    ensures ActOf(base, result, rec).Create? <==> rec.Made?
  {
  }

  lemma ReadActsStep(
      ts: Toks, s: Space, tables: Tables, base: Doc, portable: bool, created: seq<Uuid>, next: nat, n: nat)
    requires n > 0 && ReadAct(ts, s, tables, base, portable, created, next).Ok?
    ensures
      var (act, rest) := ReadAct(ts, s, tables, base, portable, created, next).value;
      var read := ReadActs(rest, s, tables, base, portable, created, if act.Create? then next + 1 else next, n - 1);
      read.Ok? ==>
        ReadActs(ts, s, tables, base, portable, created, next, n)
        == Ok(([act] + read.value.0, read.value.1, read.value.2))
  {
    hide ReadAct;
  }

  lemma {:induction false} ReadActsInvert(
      tables: Tables, n: Interner, s: Space, portable: bool, base: Doc, result: Doc, recs: seq<Record>, held: Doc,
      created: seq<Uuid>, next: nat, ts: Toks, rest: Toks)
    requires ValidTables(tables) && Agree(n, s) && AllPlanned(portable, base, result, recs)
    requires portable || held == base
    requires (forall rec :: rec in recs ==> InBase(base, rec)) && TakesIds(recs, created, next)
    requires WriteRecords(tables, Wire(n), portable, base, result, recs).Ok?
    requires ts == WriteRecords(tables, Wire(n), portable, base, result, recs).value + rest
    ensures
      ReadActs(ts, s, tables, held, portable, created, next, |recs|)
      == Ok((ActsOf(base, result, recs), |created|, rest))
    decreases |recs|
  {
    hide ValidTables, Agree, Planned, WriteRecord, ReadAct, WriteRecords, ReadActs, TakesIds, ActOf;
    if recs == [] {
      NoRecordsLeft(tables, Wire(n), s, portable, base, result, held, created, next, ts);
      assert [] + rest == rest && ActsOf(base, result, recs) == [];
    } else {
      var rec, tail := recs[0], recs[1..];
      assert rec in recs;
      RecordsHead(tables, Wire(n), portable, base, result, recs);
      TakesHead(recs, created, next);
      ActMakes(base, result, rec);
      var w := WriteRecords(tables, Wire(n), portable, base, result, tail).value;
      assert ts == WriteRecord(tables, Wire(n), portable, base, result, rec).value + (w + rest);
      ReadActInverts(tables, n, s, portable, base, result, rec, held, created, next, ts, w + rest);
      var after := if rec.Made? then next + 1 else next;
      ReadActsInvert(tables, n, s, portable, base, result, tail, held, created, after, w + rest, rest);
      ReadActsStep(ts, s, tables, held, portable, created, next, |recs|);
      assert ActsOf(base, result, recs) == [ActOf(base, result, rec)] + ActsOf(base, result, tail);
    }
  }

  lemma {:induction false} MakesTake(created: Doc, next: nat)
    requires next <= |created|
    ensures TakesIds(Makes(created)[next..], Ids(created), next)
    decreases |created| - next
  {
    if next < |created| {
      MakesTake(created, next + 1);
      assert Makes(created)[next..][1..] == Makes(created)[next + 1..];
    }
  }

  lemma {:induction false} TouchedTake(touched: seq<Record>, created: Doc)
    requires forall rec :: rec in touched ==> !rec.Made?
    ensures TakesIds(touched + Makes(created), Ids(created), 0)
  {
    var all := touched + Makes(created);
    if touched == [] {
      MakesTake(created, 0);
      assert all == Makes(created)[0..];
    } else {
      TouchedTake(touched[1..], created);
      assert all[0] == touched[0] && touched[0] in touched && all[1..] == touched[1..] + Makes(created);
    }
  }
}
