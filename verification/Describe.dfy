/** Inspecting a delta without its base: a structural walk that steps over record bodies. */
module Describe {
  import opened Wrappers
  import opened Seqs
  import opened Cbor
  import opened Model
  import opened Values
  import opened Records
  import opened Sections
  import opened Snapshot
  import opened Patch
  import opened CanonDoc
  import opened Acts
  import opened Delta
  import opened Apply
  import opened DeltaRecords
  import opened DeltaRoundTrip
  import opened DeltaTheorems
  import opened Portable
  import opened Lenient
  import opened Transcode
  import opened Items

  /** How many change targets a summary lists. */
  const TARGET_CAP: nat := 64

  datatype Counts = Counts(creates: nat, updates: nat, deletes: nat, patched: nat, updated: Toks, deleted: Toks)

  /** What inspecting reports; identity and target lists stop at the cap, and `truncated` says so. */
  datatype Summary = Summary(
    portable: bool, supported: bool, baseDigest: Uuid, resultDigest: Uuid, claims: Pairs, baseElements: nat,
    externals: nat, created: nat, createdIds: seq<Uuid>, counts: Counts, truncated: bool, exceptions: nat, units: Pairs)

  const NO_CHANGES: Counts := Counts(0, 0, 0, 0, [], [])

  // ---- the walk --------------------------------------------------------------------

  function Capped(targets: Toks, t: Token): Toks {
    if |targets| < TARGET_CAP then targets + [t] else targets
  }

  /** As many of a list as the cap allows. */
  function Firsts<T>(s: seq<T>): seq<T> {
    if |s| > TARGET_CAP then s[..TARGET_CAP] else s
  }

  predicate IsTarget(t: Token, portable: bool) {
    t.NullTok? || (t.Uint? && !portable) || (t.Bstr? && |t.bytes| == 16 && portable)
  }

  /** One change record, counted and stepped over. */
  function CountRecord(ts: Toks, portable: bool, c: Counts): Result<(Counts, Toks)> {
    var (two, ts1) :- ReadArray(ts);
    var (id, ts2) :- Next(ts1);
    var (t, ts3) :- Next(ts2);
    if two != 2 || !IsTarget(id, portable) then Err(Malformed)
    else if t.NullTok? then
      if id.NullTok? then Err(Malformed)
      else Ok((c.(deletes := c.deletes + 1, deleted := Capped(c.deleted, id)), ts3))
    else if t == Array(3) then
      var (_, rest) :- TakeItems(ts3, 3);
      if id.NullTok? then Ok((c.(creates := c.creates + 1), rest))
      else Ok((c.(updates := c.updates + 1, updated := Capped(c.updated, id)), rest))
    else if t.Map? then
      if t.len > Remaining(ts3) / 2 || id.NullTok? then Err(Malformed)
      else
        var (_, rest) :- TakeItems(ts3, 2 * t.len);
        Ok((c.(updates := c.updates + 1, patched := c.patched + 1, updated := Capped(c.updated, id)), rest))
    else Err(Malformed)
  }

  function CountRecords(ts: Toks, portable: bool, n: nat, c: Counts): Result<(Counts, Toks)>
    decreases n
  {
    if n == 0 then Ok((c, ts))
    else
      var (next, rest) :- CountRecord(ts, portable, c);
      CountRecords(rest, portable, n - 1, next)
  }

  /** The walk's loop: four counters and two capped lists. */
  method CountLoop(ts: Toks, portable: bool, n: nat) returns (r: Result<(Counts, Toks)>)
    ensures r == CountRecords(ts, portable, n, NO_CHANGES)
  {
    hide CountRecord;
    var at, c := ts, NO_CHANGES;
    for k := 0 to n
      invariant CountRecords(ts, portable, n, NO_CHANGES) == CountRecords(at, portable, n - k, c)
    {
      var record := CountRecord(at, portable, c);
      if record.Err? {
        return Err(record.kind);
      }
      c, at := record.value.0, record.value.1;
    }
    r := Ok((c, at));
  }

  /** The flags a delta summary reads; versions are reported, not gated, except the layout. */
  function DescribeHeader(ts: Toks): Result<(Header, bool, Pairs, Toks)> {
    var (arity, ts1) :- ReadArray(ts);
    var (word, ts2) :- ReadUint(ts1);
    var (layout, tables, scheme, flags) :- HeaderAxes(word);
    if layout != LAYOUT_VERSION || Bit(flags, 7) || !Bit(flags, FLAG_DELTA) then Err(Malformed)
    else if Bit(flags, FLAG_ELIDE_IDS) then Err(NeedsResolver)
    else if arity != 6 + (if Bit(flags, FLAG_IMPLIED_OWNERS) then 1 else 0)
                       + (if Bit(flags, FLAG_UNIT_PATHS) then 1 else 0)
    then Err(Malformed)
    else
      var (three, ts3) :- ReadArray(ts2);
      if three != 3 then Err(Malformed)
      else
        var (baseDigest, ts4) :- ReadDigest(ts3);
        var (resultDigest, ts5) :- ReadDigest(ts4);
        var (claims, rest) :- ReadClaims(ts5);
        Ok((Header(Bit(flags, FLAG_PORTABLE), Bit(flags, FLAG_IMPLIED_OWNERS), Bit(flags, FLAG_UNIT_PATHS),
                   baseDigest, resultDigest), tables == TABLES_VERSION, claims, rest))
  }

  function DescribeBody(ts: Toks, h: Header, supported: bool, claims: Pairs): Result<Summary> {
    var (b, ts1) :- ReadUint(ts);
    var (exts, ts2) :- ReadIds(ts1);
    var (created, ts3) :- ReadIds(ts2);
    var (n, ts4) :- ReadArray(ts3);
    if n > Remaining(ts4) then Err(Malformed)
    else
      var (counts, ts5) :- CountRecords(ts4, h.portable, n, NO_CHANGES);
      var (exceptions, ts6) :- ReadIf(h.implied, ts5, AnyNumber);
      var (units, rest) :- ReadIf(h.units, ts6, UnitPaths);
      if rest != [] then Err(Malformed)
      else
        var truncated := counts.creates > TARGET_CAP || counts.updates > TARGET_CAP || counts.deletes > TARGET_CAP;
        Ok(Summary(
          h.portable, supported, h.baseDigest, h.resultDigest, claims, b, |exts|, |created|, Firsts(created), counts,
          truncated, |exceptions|, units))
  }

  function DescribeDelta(ts: Toks): Result<Summary> {
    var (h, supported, claims, rest) :- DescribeHeader(ts);
    DescribeBody(rest, h, supported, claims)
  }

  // ---- what is counted -------------------------------------------------------------

  function CountedAs(portable: bool, base: Doc, rec: Record, c: Counts): Counts
    requires InBase(base, rec)
  {
    match rec
    case Made(_) => c.(creates := c.creates + 1)
    case Drop(_) => c.(deletes := c.deletes + 1, deleted := Capped(c.deleted, Identity(portable, base, rec)))
    case Whole(_, _) => c.(updates := c.updates + 1, updated := Capped(c.updated, Identity(portable, base, rec)))
    case Patched(_, _) =>
      c.(
        updates := c.updates + 1, patched := c.patched + 1,
        updated := Capped(c.updated, Identity(portable, base, rec)))
  }

  function CountedAll(portable: bool, base: Doc, recs: seq<Record>, c: Counts): Counts
    requires forall rec :: rec in recs ==> InBase(base, rec)
    decreases |recs|
  {
    if recs == [] then c else CountedAll(portable, base, recs[1..], CountedAs(portable, base, recs[0], c))
  }

  lemma IdentityIsTarget(portable: bool, base: Doc, rec: Record)
    requires InBase(base, rec)
    ensures IsTarget(Identity(portable, base, rec), portable)
    ensures Identity(portable, base, rec).NullTok? <==> rec.Made?
  {
    hide UuidBytes;
  }

  lemma WholeTaken(tables: Tables, sp: Spelling, result: Doc, e: Element, rest: Toks)
    requires WriteElement(tables, sp, e, DerivationFor(result, true, e)).Ok?
    requires |WriteElement(tables, sp, e, DerivationFor(result, true, e)).value| < U64_END
    ensures
      var ts := WriteElement(tables, sp, e, DerivationFor(result, true, e)).value;
      ts[0] == Array(3) && TakeItems(ts[1..] + rest, 3) == Ok((ts[1..], rest))
  {
    hide WriteElement, DerivationFor, TakeItems;
    var items := BodyIsItems(tables, sp, e, DerivationFor(result, true, e));
    TakesItems(items, rest);
  }

  lemma PatchTaken(sp: Spelling, fields: seq<Field>, ops: Ops, rest: Toks)
    requires (forall i :: 0 <= i < |ops| ==> ops[i].0 < |fields|) && WritePatch(sp, fields, ops).Ok?
    requires |WritePatch(sp, fields, ops).value| < U64_END
    ensures
      var ts := WritePatch(sp, fields, ops).value;
      && ts != [] && ts[0] == Map(|ops|) && |ops| <= Remaining(ts[1..] + rest) / 2
      && TakeItems(ts[1..] + rest, 2 * |ops|) == Ok((ts[1..], rest))
  {
    hide WriteOps, TakeItems, EncAll;
    var ts := WritePatch(sp, fields, ops).value;
    var body := WriteOps(sp, fields, ops).value;
    assert ts[1..] == body;
    var items := OpsAreItems(sp, fields, ops);
    TakesItems(items, rest);
    RemainingAppend(body, rest);
  }

  lemma RecordOpens(id: Token, payload: Toks, rest: Toks)
    requires payload != []
    ensures
      var ts := [Array(2), id] + payload + rest;
      && ReadArray(ts) == Ok((2, [id] + payload + rest)) && Next([id] + payload + rest) == Ok((id, payload + rest))
      && Next(payload + rest) == Ok((payload[0], payload[1..] + rest))
  {
    var ts := [Array(2), id] + payload + rest;
    assert ts[1..] == [id] + payload + rest;
    assert ([id] + payload + rest)[1..] == payload + rest;
    assert (payload + rest)[1..] == payload[1..] + rest;
  }

  lemma PatchBound(tables: Tables, b: Element, e: Element)
    requires PlanPatch(tables, b, e).Some?
    ensures
      var ops := PlanPatch(tables, b, e).value;
      forall i :: 0 <= i < |ops| ==> ops[i].0 < |FieldsOf(tables, e.ty)|
  {
    hide Replay;
  }

  /** A payload's first token, and the items after it. */
  function BodyCount(rec: Record, t: Token): nat {
    if rec.Drop? then 0 else if rec.Patched? && t.Map? then 2 * t.len else 3
  }

  lemma PayloadTaken(
      tables: Tables, sp: Spelling, base: Doc, result: Doc, rec: Record, rest: Toks)
    requires InBase(base, rec) && Payload(tables, sp, base, result, rec).Ok?
    requires |Payload(tables, sp, base, result, rec).value| < U64_END
    ensures
      var ts := Payload(tables, sp, base, result, rec).value;
      && ts != []
      && (rec.Drop? ==> ts == [NullTok])
      && (rec.Whole? || rec.Made? ==> ts[0] == Array(3))
      && (rec.Patched? ==> ts[0].Map? && ts[0].len <= Remaining(ts[1..] + rest) / 2)
      && (!rec.Drop? ==> TakeItems(ts[1..] + rest, BodyCount(rec, ts[0])) == Ok((ts[1..], rest)))
  {
    hide WriteElement, DerivationFor, TakeItems, PlanPatch, WritePatch, EncAll;
    match rec
    case Drop(_) =>
    case Whole(_, e) => WholeTaken(tables, sp, result, e, rest);
    case Made(e) => WholeTaken(tables, sp, result, e, rest);
    case Patched(at, e) =>
      PatchBound(tables, base[at], e);
      PatchTaken(sp, FieldsOf(tables, e.ty), PlanPatch(tables, base[at], e).value, rest);
  }

  /** A written record is counted for what it is, its body stepped over exactly. */
  lemma RecordCounted(
      tables: Tables, sp: Spelling, portable: bool, base: Doc, result: Doc, rec: Record, rest: Toks, c: Counts)
    requires InBase(base, rec) && WriteRecord(tables, sp, portable, base, result, rec).Ok?
    requires |WriteRecord(tables, sp, portable, base, result, rec).value| < U64_END
    ensures
      CountRecord(WriteRecord(tables, sp, portable, base, result, rec).value + rest, portable, c)
      == Ok((CountedAs(portable, base, rec, c), rest))
  {
    hide Payload, TakeItems, EncAll, Identity, IsTarget, Capped, ReadArray, Next;
    var payload := Payload(tables, sp, base, result, rec).value;
    IdentityIsTarget(portable, base, rec);
    PayloadTaken(tables, sp, base, result, rec, rest);
    RecordOpens(Identity(portable, base, rec), payload, rest);
    if rec.Drop? {
      assert payload[1..] + rest == rest;
    }
  }

  lemma {:induction false} RecordsCounted(
      tables: Tables, sp: Spelling, portable: bool, base: Doc, result: Doc, recs: seq<Record>, rest: Toks, c: Counts)
    requires forall rec :: rec in recs ==> InBase(base, rec)
    requires WriteRecords(tables, sp, portable, base, result, recs).Ok?
    requires |WriteRecords(tables, sp, portable, base, result, recs).value| < U64_END
    ensures
      CountRecords(WriteRecords(tables, sp, portable, base, result, recs).value + rest, portable, |recs|, c)
      == Ok((CountedAll(portable, base, recs, c), rest))
    decreases |recs|
  {
    hide WriteRecord, CountRecord, CountedAs;
    if recs == [] {
      assert [] + rest == rest;
    } else {
      assert recs[0] in recs;
      var head := WriteRecord(tables, sp, portable, base, result, recs[0]).value;
      var tail := WriteRecords(tables, sp, portable, base, result, recs[1..]).value;
      RecordCounted(tables, sp, portable, base, result, recs[0], tail + rest, c);
      RecordsCounted(tables, sp, portable, base, result, recs[1..], rest, CountedAs(portable, base, recs[0], c));
      assert head + tail + rest == head + (tail + rest);
    }
  }

  // ---- counts are set sizes --------------------------------------------------------

  function PatchedIds(base: Doc, recs: seq<Record>): set<Uuid>
  {
    set rec | rec in recs && rec.Patched? && InBase(base, rec) :: base[rec.at].id
  }

  lemma CountedBy(portable: bool, base: Doc, rec: Record, c: Counts)
    requires InBase(base, rec)
    ensures
      var n := CountedAs(portable, base, rec, c);
      && n.creates == c.creates + (if rec.Made? then 1 else 0)
      && n.deletes == c.deletes + (if rec.Drop? then 1 else 0)
      && n.updates == c.updates + (if rec.Whole? || rec.Patched? then 1 else 0)
      && n.patched == c.patched + (if rec.Patched? then 1 else 0)
  {
    hide Capped, Identity;
  }

  lemma TailRecords(base: Doc, result: Doc, rec: Record, rest: seq<Record>)
    requires forall r :: r in [rec] + rest ==> InBase(base, r)
    requires NoDup(ActIds(ActsOf(base, result, [rec] + rest)))
    ensures InBase(base, rec) && forall r :: r in rest ==> InBase(base, r)
    ensures ActsOf(base, result, [rec] + rest) == [ActOf(base, result, rec)] + ActsOf(base, result, rest)
    ensures NoDup(ActIds(ActsOf(base, result, rest)))
    ensures ActOf(base, result, rec).id !in ActIds(ActsOf(base, result, rest))
  {
    hide Carry;
    assert rec in [rec] + rest;
    var a, tail := ActOf(base, result, rec), ActsOf(base, result, rest);
    assert ActsOf(base, result, [rec] + rest) == [a] + tail;
    ActIdsTail([a] + tail);
  }

  lemma CreatesGrow(a: Act, tail: Acts)
    requires a.id !in ActIds(tail)
    ensures |Inserted([a] + tail)| == |Inserted(tail)| + (if a.Create? then 1 else 0)
  {
    hide ActIds;
    InActIds(tail);
    GrowSet(Inserted([a] + tail), Inserted(tail), a.id, a.Create?);
  }

  lemma DeletesGrow(a: Act, tail: Acts)
    requires a.id !in ActIds(tail)
    ensures |Deletes([a] + tail)| == |Deletes(tail)| + (if a.Delete? then 1 else 0)
  {
    hide ActIds;
    InActIds(tail);
    GrowSet(Deletes([a] + tail), Deletes(tail), a.id, a.Delete?);
  }

  lemma UpdatesGrow(a: Act, tail: Acts)
    requires a.id !in ActIds(tail)
    ensures |Updated([a] + tail)| == |Updated(tail)| + (if a.Update? then 1 else 0)
  {
    hide ActIds;
    InActIds(tail);
    GrowSet(Updated([a] + tail), Updated(tail), a.id, a.Update?);
  }

  lemma SizesGrow(base: Doc, result: Doc, rec: Record, rest: seq<Record>)
    requires forall r :: r in [rec] + rest ==> InBase(base, r)
    requires NoDup(ActIds(ActsOf(base, result, [rec] + rest)))
    ensures forall r :: r in rest ==> InBase(base, r)
    ensures NoDup(ActIds(ActsOf(base, result, rest)))
    ensures
      var all, tail := ActsOf(base, result, [rec] + rest), ActsOf(base, result, rest);
      && |Inserted(all)| == |Inserted(tail)| + (if rec.Made? then 1 else 0)
      && |Deletes(all)| == |Deletes(tail)| + (if rec.Drop? then 1 else 0)
      && |Updated(all)| == |Updated(tail)| + (if rec.Whole? || rec.Patched? then 1 else 0)
  {
    hide Carry, Inserted, Deletes, Updated, NoDup, ActsOf;
    TailRecords(base, result, rec, rest);
    CreatesGrow(ActOf(base, result, rec), ActsOf(base, result, rest));
    DeletesGrow(ActOf(base, result, rec), ActsOf(base, result, rest));
    UpdatesGrow(ActOf(base, result, rec), ActsOf(base, result, rest));
  }

  lemma PatchedGrows(base: Doc, result: Doc, rec: Record, rest: seq<Record>)
    requires forall r :: r in [rec] + rest ==> InBase(base, r)
    requires NoDup(ActIds(ActsOf(base, result, [rec] + rest)))
    ensures |PatchedIds(base, [rec] + rest)| == |PatchedIds(base, rest)| + (if rec.Patched? then 1 else 0)
  {
    hide Carry, NoDup;
    TailRecords(base, result, rec, rest);
    var tail := ActsOf(base, result, rest);
    forall r | r in rest ensures ActOf(base, result, r).id in ActIds(tail) {
      var i :| 0 <= i < |rest| && rest[i] == r;
      assert ActIds(tail)[i] == ActOf(base, result, r).id;
    }
    GrowSet(PatchedIds(base, [rec] + rest), PatchedIds(base, rest), ActOf(base, result, rec).id, rec.Patched?);
  }

  lemma {:induction false} CountsAreSizes(portable: bool, base: Doc, result: Doc, recs: seq<Record>, c: Counts)
    requires forall rec :: rec in recs ==> InBase(base, rec)
    requires NoDup(ActIds(ActsOf(base, result, recs)))
    ensures
      var n, acts := CountedAll(portable, base, recs, c), ActsOf(base, result, recs);
      && n.creates == c.creates + |Inserted(acts)|
      && n.deletes == c.deletes + |Deletes(acts)|
      && n.updates == c.updates + |Updated(acts)|
      && n.patched == c.patched + |PatchedIds(base, recs)|
    decreases |recs|
  {
    hide CountedAs, Inserted, Deletes, Updated, PatchedIds, ActsOf, NoDup;
    if recs == [] {
      NoRecords(base, result);
    } else {
      var rec, rest := recs[0], recs[1..];
      assert recs == [rec] + rest && rec in recs;
      SizesGrow(base, result, rec, rest);
      PatchedGrows(base, result, rec, rest);
      CountedBy(portable, base, rec, c);
      CountsAreSizes(portable, base, result, rest, CountedAs(portable, base, rec, c));
    }
  }

  lemma NoRecords(base: Doc, result: Doc)
    ensures ActsOf(base, result, []) == []
    ensures Inserted([]) == {} && Deletes([]) == {} && Updated([]) == {} && PatchedIds(base, []) == {}
  {
  }

  // ---- which targets are listed ----------------------------------------------------

  /** The identities of the records that update, in record order. */
  function UpdateTargets(portable: bool, base: Doc, recs: seq<Record>): (targets: Toks)
    requires forall rec :: rec in recs ==> InBase(base, rec)
  {
    if recs == [] then []
    else
      (if recs[0].Whole? || recs[0].Patched? then [Identity(portable, base, recs[0])] else [])
      + UpdateTargets(portable, base, recs[1..])
  }

  function DeleteTargets(portable: bool, base: Doc, recs: seq<Record>): (targets: Toks)
    requires forall rec :: rec in recs ==> InBase(base, rec)
  {
    if recs == [] then []
    else
      (if recs[0].Drop? then [Identity(portable, base, recs[0])] else []) + DeleteTargets(portable, base, recs[1..])
  }

  lemma CappedMore(targets: Toks, t: Token, rest: Toks)
    requires |targets| <= TARGET_CAP
    ensures |Capped(targets, t)| <= TARGET_CAP
    ensures Firsts(Capped(targets, t) + rest) == Firsts(targets + ([t] + rest))
    ensures Firsts(targets) == targets
  {
    assert targets + [t] + rest == targets + ([t] + rest);
    if |targets| == TARGET_CAP {
      assert (targets + rest)[..TARGET_CAP] == targets == (targets + ([t] + rest))[..TARGET_CAP];
    }
  }

  /** The targets listed are the first of them in record order, as many as the cap allows. */
  lemma {:induction false} TargetsListed(portable: bool, base: Doc, recs: seq<Record>, c: Counts)
    requires forall rec :: rec in recs ==> InBase(base, rec)
    requires |c.updated| <= TARGET_CAP && |c.deleted| <= TARGET_CAP
    ensures CountedAll(portable, base, recs, c).updated == Firsts(c.updated + UpdateTargets(portable, base, recs))
    ensures CountedAll(portable, base, recs, c).deleted == Firsts(c.deleted + DeleteTargets(portable, base, recs))
    decreases |recs|
  {
    hide Capped, Firsts, Identity;
    if recs == [] {
      CappedMore(c.updated, NullTok, []);
      CappedMore(c.deleted, NullTok, []);
      assert c.updated + [] == c.updated && c.deleted + [] == c.deleted;
    } else {
      var rec, rest := recs[0], recs[1..];
      assert rec in recs;
      var t := Identity(portable, base, rec);
      var updates, deletes := UpdateTargets(portable, base, rest), DeleteTargets(portable, base, rest);
      CappedMore(c.updated, t, updates);
      CappedMore(c.deleted, t, deletes);
      assert [] + updates == updates && [] + deletes == deletes;
      TargetsListed(portable, base, rest, CountedAs(portable, base, rec, c));
    }
  }

  // ---- the theorem -----------------------------------------------------------------

  lemma DescribedHeader(
      portable: bool, units: bool, baseDigest: Uuid, resultDigest: Uuid, claims: Pairs, rest: Toks)
    requires AllClaims(claims)
    ensures
      DescribeHeader(
        [Array(7 + (if units then 1 else 0)), Uint(HeaderWord(FlagByte(true, portable, units, true), ID_SCHEME)),
         Array(3), Bstr(UuidBytes(baseDigest)), Bstr(UuidBytes(resultDigest))] + (WritePairs(claims) + rest))
      == Ok((Header(portable, true, units, baseDigest, resultDigest), true, claims, rest))
  {
    hide FlagByte, Bit, HeaderWord, HeaderAxes, ReadDigest, ReadClaims, WritePairs, UuidBytes, AllClaims;
    var flags := FlagByte(true, portable, units, true);
    var tail := WritePairs(claims) + rest;
    var head := [Array(7 + (if units then 1 else 0)), Uint(HeaderWord(flags, ID_SCHEME)),
                 Array(3), Bstr(UuidBytes(baseDigest)), Bstr(UuidBytes(resultDigest))];
    var ts := head + tail;
    HeaderInverts(flags, ID_SCHEME);
    FlagBits(true, portable, units, true);
    assert ts[0] == head[0] && ts[1] == head[1] && ts[2] == head[2];
    assert ts[1..][1..][1..] == [Bstr(UuidBytes(baseDigest))] + ([Bstr(UuidBytes(resultDigest))] + tail);
    DigestReads(baseDigest, [Bstr(UuidBytes(resultDigest))] + tail);
    DigestReads(resultDigest, tail);
    ClaimsRead(claims, tail, rest);
  }

  /** The last sections, the exception bits taken as they come. */
  lemma TailDescribed(exceptions: Pairs, units: Pairs, n: nat)
    requires PairsFit(OwnerBits, exceptions) && ValidUnits(units, n)
    ensures
      ReadIf(true, WritePairs(exceptions) + UnitSection(units), AnyNumber) == Ok((exceptions, UnitSection(units)))
    ensures ReadIf(units != [], UnitSection(units), UnitPaths) == Ok((units, []))
  {
    hide WritePairs, ReadIf, ValidUnits, UnitSection;
    TailRead(exceptions, units, n);
    BitsAreNumbers(exceptions);
    ReadIfInverts(true, AnyNumber, exceptions, WritePairs(exceptions) + UnitSection(units), UnitSection(units));
  }

  lemma BitsAreNumbers(pairs: Pairs)
    requires PairsFit(OwnerBits, pairs)
    ensures PairsFit(AnyNumber, pairs)
  {
  }

  predicate Overflows(c: Counts) {
    c.creates > TARGET_CAP || c.updates > TARGET_CAP || c.deletes > TARGET_CAP
  }

  lemma DescribedBody(
      tables: Tables, portable: bool, base: Doc, result: Doc, recs: seq<Record>, body: Toks, h: Header, claims: Pairs,
      units: Pairs)
    requires DistinctIds(base) && DistinctIds(result) && IsBody(tables, portable, base, result, recs, body)
    requires h.portable == portable && h.implied && h.units == (units != []) && ValidUnits(units, |result|)
    requires |body| < U64_END
    ensures
      var n, created := DeltaInterner(tables, portable, base, result), Created(base, result);
      var exceptions := RecordExceptions(tables, recs, 0);
      var counts := CountedAll(portable, base, recs, NO_CHANGES);
      DescribeBody(BodySection(portable, base, n, created, recs, body, exceptions, units), h, true, claims)
      == Ok(Summary(
           portable, true, h.baseDigest, h.resultDigest, claims, if portable then 0 else |base|, |n.ext|, |created|,
           Firsts(Ids(created)), counts, Overflows(counts), |exceptions|, units))
  {
    hide IsPlan, WriteRecords, DeltaInterner, Created, CountRecords, ReadUint, ReadIds, ReadArray, BodySection,
      RecordSection, EncAll, WritePairs, UnitSection, RecordExceptions, ReadIf, ValidUnits, CountedAll, NoDup,
      DistinctIds;
    var n, created := DeltaInterner(tables, portable, base, result), Created(base, result);
    var exceptions := RecordExceptions(tables, recs, 0);
    SectionsRead(portable, base, n, created, recs, body, exceptions, units);
    var rest := WritePairs(exceptions) + UnitSection(units);
    RecordsCounted(tables, Wire(n), portable, base, result, recs, rest, NO_CHANGES);
    WrittenLength(tables, Wire(n), portable, base, result, recs);
    RemainingAppend(body, rest);
    TailDescribed(exceptions, units, |result|);
  }

  lemma DiffCounts(tables: Tables, portable: bool, base: Doc, result: Doc, recs: seq<Record>)
    requires DistinctIds(base) && DistinctIds(result) && IsPlan(tables, portable, base, result, recs)
    requires forall rec :: rec in recs ==> InBase(base, rec)
    ensures
      var c := CountedAll(portable, base, recs, NO_CHANGES);
      && c.creates == |MadeIds(base, result)| && c.updates == |ChangedIds(base, result)|
      && c.deletes == |DroppedIds(base, result)| && c.patched == |PatchedIds(base, recs)|
  {
    hide IsPlan, AllPlanned, TakesIds, CountedAll, ActsOf, MadeIds, ChangedIds, DroppedIds, PatchedIds, Inserted,
      Deletes, Updated;
    PlanFacts(tables, portable, base, result, recs);
    CountsAreSizes(portable, base, result, recs, NO_CHANGES);
    ActsAreDiff(tables, portable, base, result, recs);
  }

  lemma DescribeEncoded(
      tables: Tables, portable: bool, base: Doc, target: Doc, baseDigest: Uuid, resultDigest: Uuid, claims: Pairs,
      units: Pairs)
    requires DistinctIds(base) && DistinctIds(target) && AllClaims(claims)
    requires ValidUnits(units, |AppliedOrder(base, target)|)
    requires
      var r := EncodeBody(tables, portable, base, AppliedOrder(base, target), baseDigest, resultDigest, claims, units);
      r.Ok? && |r.value| < U64_END
    ensures
      var result := AppliedOrder(base, target);
      var recs := PlanRecords(tables, portable, base, result);
      var s := DescribeDelta(EncodeBody(tables, portable, base, result, baseDigest, resultDigest, claims, units).value);
      && recs.Ok? && s.Ok?
      && var counts := CountedAll(portable, base, recs.value, NO_CHANGES);
         s.value
         == Summary(
              portable, true, baseDigest, resultDigest, claims, if portable then 0 else |base|,
              |DeltaInterner(tables, portable, base, result).ext|, |Created(base, result)|,
              Firsts(Ids(Created(base, result))), counts, Overflows(counts),
              |RecordExceptions(tables, recs.value, 0)|, units)
  {
    hide AppliedOrder, ValidUnits, PlanRecords, WriteRecords, DeltaTokens, RecordExceptions, DeltaInterner, BodySection,
      Created, AllClaims, HeaderWord, FlagByte, WritePairs, UuidBytes, CountedAll, DescribeHeader, DescribeBody, NoDup;
    var result := AppliedOrder(base, target);
    var n := DeltaInterner(tables, portable, base, result);
    var recs := PlanRecords(tables, portable, base, result).value;
    var body := WriteRecords(tables, Wire(n), portable, base, result, recs).value;
    var exceptions := RecordExceptions(tables, recs, 0);
    var section := BodySection(portable, base, n, Created(base, result), recs, body, exceptions, units);
    DeltaLayout(
      portable, base, n, Created(base, result), baseDigest, resultDigest, claims, recs, body, exceptions, units);
    DescribedHeader(portable, units != [], baseDigest, resultDigest, claims, section);
    BodyShorter(portable, base, n, Created(base, result), recs, body, exceptions, units);
    DescribedBody(
      tables, portable, base, result, recs, body, Header(portable, true, units != [], baseDigest, resultDigest), claims,
      units);
  }

  lemma BodyShorter(
      portable: bool, base: Doc, n: Interner, created: Doc, recs: seq<Record>, body: Toks, exceptions: Pairs,
      units: Pairs)
    ensures |body| <= |BodySection(portable, base, n, created, recs, body, exceptions, units)|
  {
  }

  /** What a summary lists besides its counts. */
  ghost predicate Lists(
      hash: Hash, tables: Tables, base: Doc, target0: Doc, result: Doc, opts: Options, recs: seq<Record>, s: Summary)
  {
    && (forall rec :: rec in recs ==> InBase(base, rec))
    && s.portable == opts.portable && s.supported
    && Digest(hash, tables, base) == Ok(s.baseDigest) && Digest(hash, tables, result) == Ok(s.resultDigest)
    && s.claims == SortPairs(opts.claims) && MapUnits(target0, result, opts.units) == Ok(s.units)
    && s.baseElements == (if opts.portable then 0 else |base|)
    && s.externals == |DeltaInterner(tables, opts.portable, base, result).ext|
    && s.created == s.counts.creates == |Created(base, result)| && s.createdIds == Firsts(Ids(Created(base, result)))
    && s.counts.updated == Firsts(UpdateTargets(opts.portable, base, recs))
    && s.counts.deleted == Firsts(DeleteTargets(opts.portable, base, recs))
    && s.exceptions == |RecordExceptions(tables, recs, 0)|
    && (s.truncated <==>
          s.counts.creates > TARGET_CAP || s.counts.updates > TARGET_CAP || s.counts.deletes > TARGET_CAP)
  }

  lemma CreatedCount(base: Doc, result: Doc)
    requires DistinctIds(base) && DistinctIds(result)
    ensures |Created(base, result)| == |MadeIds(base, result)|
  {
    PickNoDup(Ids(result), Elems(Ids(base)), false);
    var ids := Pick(Ids(result), Elems(Ids(base)), false);
    NoDupLength(ids);
    assert Elems(ids) == MadeIds(base, result);
    assert |Ids(Created(base, result))| == |ids|;
  }

  /** A summary so made lists what it should. */
  lemma SummaryLists(
      hash: Hash, tables: Tables, base: Doc, target0: Doc, result: Doc, opts: Options, recs: seq<Record>, claims: Pairs,
      units: Pairs, baseDigest: Uuid, resultDigest: Uuid)
    requires forall rec :: rec in recs ==> InBase(base, rec)
    requires Digest(hash, tables, base) == Ok(baseDigest) && Digest(hash, tables, result) == Ok(resultDigest)
    requires claims == SortPairs(opts.claims) && MapUnits(target0, result, opts.units) == Ok(units)
    requires CountedAll(opts.portable, base, recs, NO_CHANGES).creates == |Created(base, result)|
    ensures
      var counts := CountedAll(opts.portable, base, recs, NO_CHANGES);
      Lists(hash, tables, base, target0, result, opts, recs,
        Summary(
          opts.portable, true, baseDigest, resultDigest, claims, if opts.portable then 0 else |base|,
          |DeltaInterner(tables, opts.portable, base, result).ext|, |Created(base, result)|,
          Firsts(Ids(Created(base, result))), counts, Overflows(counts), |RecordExceptions(tables, recs, 0)|, units))
  {
    hide Digest, SortPairs, MapUnits, CountedAll, Created, DeltaInterner, RecordExceptions, Firsts, UpdateTargets,
      DeleteTargets, InBase;
    TargetsListed(opts.portable, base, recs, NO_CHANGES);
    NothingBefore(opts.portable, base, recs);
  }

  /**
    Inspecting an encoded delta without its base reports the true change sets: creates,
    updates and deletes are the sizes of target minus base, changed common identities, and
    base minus target; patched updates are exactly the records that shipped a patch.
   */
  lemma DescribeReportsDiff(hash: Hash, tables: Tables, base0: Doc, target0: Doc, opts: Options)
    requires DistinctIds(base0) && DistinctIds(target0) && EncodeDelta(hash, tables, base0, target0, opts).Ok?
    requires |EncodeDelta(hash, tables, base0, target0, opts).value| < U64_END
    ensures
      var base := Canonical(base0);
      var recs := PlanRecords(tables, opts.portable, base, AppliedOrder(base, Canonical(target0)));
      var s := DescribeDelta(EncodeDelta(hash, tables, base0, target0, opts).value);
      && recs.Ok? && s.Ok?
      && s.value.counts.creates == |MadeIds(base0, target0)|
      && s.value.counts.updates == |ChangedIds(base0, target0)|
      && s.value.counts.deletes == |DroppedIds(base0, target0)|
      && s.value.counts.patched == |PatchedIds(base, recs.value)|
      && Lists(hash, tables, base, target0, AppliedOrder(base, Canonical(target0)), opts, recs.value, s.value)
  {
    hide AppliedOrder, Canonical, Digest, EncodeDelta, Extras, ValidUnits, PlanRecords, EncodeBody, AllClaims,
      CountedAll, DescribeDelta, NoDup, MapUnits, SameElements, MadeIds, ChangedIds, DroppedIds, PatchedIds, Firsts,
      UpdateTargets, DeleteTargets, RecordExceptions, DeltaInterner, Created, SortPairs, Lists, Overflows, DistinctIds;
    var base := Canonical(base0);
    var result := AppliedOrder(base, Canonical(target0));
    EncodeParts(hash, tables, base0, target0, opts);
    ExtrasParts(target0, result, opts);
    ResultHolds(base, target0);
    MappedUnits(target0, result, opts.units);
    CanonDocSame(base0);
    var (claims, units) := Extras(target0, result, opts).value;
    DescribeEncoded(tables, opts.portable, base, Canonical(target0), Digest(hash, tables, base).value,
      Digest(hash, tables, result).value, claims, units);
    DiffCounts(tables, opts.portable, base, result, PlanRecords(tables, opts.portable, base, result).value);
    DiffSame(base0, target0, base, result);
    CreatedCount(base, result);
    SummaryLists(hash, tables, base, target0, result, opts, PlanRecords(tables, opts.portable, base, result).value,
      claims, units, Digest(hash, tables, base).value, Digest(hash, tables, result).value);
  }

  lemma NothingBefore(portable: bool, base: Doc, recs: seq<Record>)
    requires forall rec :: rec in recs ==> InBase(base, rec)
    ensures NO_CHANGES.updated + UpdateTargets(portable, base, recs) == UpdateTargets(portable, base, recs)
    ensures NO_CHANGES.deleted + DeleteTargets(portable, base, recs) == DeleteTargets(portable, base, recs)
  {
    hide UpdateTargets, DeleteTargets;
  }
}
