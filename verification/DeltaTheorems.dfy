/** A delta undoes the difference it was planned from: the payload read back, section by section. */
module DeltaTheorems {
  import opened Wrappers
  import opened Seqs
  import opened Cbor
  import opened Model
  import opened Values
  import opened Records
  import opened Sections
  import opened Snapshot
  import opened Order
  import opened CanonDoc
  import opened Acts
  import opened Delta
  import opened Apply
  import opened DeltaRecords
  import opened DeltaRoundTrip

  // ---- claims and units ------------------------------------------------------------

  ghost predicate AllClaims(claims: Pairs) {
    forall p :: p in claims ==> IsClaim(p.1)
  }

  lemma {:induction false} ClaimsListed(claims: Pairs, ts: Toks, rest: Toks)
    requires AllClaims(claims) && ts == WritePairList(claims) + rest
    ensures ReadClaimList(ts, |claims|) == Ok((claims, rest))
  {
    hide IsClaim, ReadClaimList, WritePairList;
    if claims == [] {
      NoClaimsListed(ts);
      assert ts == rest;
    } else {
      var more := WritePairList(claims[1..]) + rest;
      assert claims[0] in claims;
      PairsWritten(claims);
      assert ts == [Uint(claims[0].0), claims[0].1] + more;
      ClaimsListed(claims[1..], more, rest);
      ClaimStep(claims[0], more, |claims|);
      assert [claims[0]] + claims[1..] == claims;
    }
  }

  lemma NoClaimsListed(ts: Toks)
    ensures ReadClaimList(ts, 0) == Ok(([], ts)) && WritePairList([]) == []
  {
  }

  lemma ClaimStep(claim: (nat, Token), more: Toks, n: nat)
    requires n > 0 && IsClaim(claim.1)
    ensures
      var read := ReadClaimList(more, n - 1);
      read.Ok? ==>
        ReadClaimList([Uint(claim.0), claim.1] + more, n) == Ok(([claim] + read.value.0, read.value.1))
  {
    hide IsClaim;
    var ts := [Uint(claim.0), claim.1] + more;
    assert ts[0] == Uint(claim.0) && ts[1..][0] == claim.1 && ts[1..][1..] == more;
  }

  lemma ClaimsRead(claims: Pairs, ts: Toks, rest: Toks)
    requires AllClaims(claims) && ts == WritePairs(claims) + rest
    ensures ReadClaims(ts) == Ok((claims, rest))
  {
    hide EncAll, WritePairList, ReadClaimList, AllClaims;
    assert ts[1..] == WritePairList(claims) + rest;
    RemainingAppend(WritePairList(claims), rest);
    ClaimsListed(claims, ts[1..], rest);
  }

  lemma {:induction false} InsertMembers(p: (nat, Token), pairs: Pairs)
    ensures forall q :: q in InsertPair(p, pairs) <==> q == p || q in pairs
  {
    if pairs != [] && p.0 >= pairs[0].0 {
      InsertMembers(p, pairs[1..]);
    }
  }

  /** Sorting by key keeps exactly the pairs it was given. */
  lemma {:induction false} SortMembers(pairs: Pairs)
    ensures forall q :: q in SortPairs(pairs) <==> q in pairs
  {
    if pairs != [] {
      SortMembers(pairs[1..]);
      InsertMembers(pairs[0], SortPairs(pairs[1..]));
    }
  }

  lemma {:induction false} InsertCounts(p: (nat, Token), pairs: Pairs)
    ensures |InsertPair(p, pairs)| == |pairs| + 1
  {
    if pairs != [] && p.0 >= pairs[0].0 {
      InsertCounts(p, pairs[1..]);
    }
  }

  lemma {:induction false} SortCounts(pairs: Pairs)
    ensures |SortPairs(pairs)| == |pairs|
  {
    if pairs != [] {
      SortCounts(pairs[1..]);
      InsertCounts(pairs[0], SortPairs(pairs[1..]));
    }
  }

  ghost predicate Nondecreasing(pairs: Pairs) {
    forall i :: 0 < i < |pairs| ==> pairs[i - 1].0 <= pairs[i].0
  }

  lemma {:induction false} InsertSorts(p: (nat, Token), pairs: Pairs)
    requires Nondecreasing(pairs)
    ensures Nondecreasing(InsertPair(p, pairs))
    ensures InsertPair(p, pairs)[0].0 == (if pairs == [] || p.0 < pairs[0].0 then p.0 else pairs[0].0)
  {
    if pairs != [] && p.0 >= pairs[0].0 {
      var rest := pairs[1..];
      assert Nondecreasing(rest) by {
        forall i | 0 < i < |rest| ensures rest[i - 1].0 <= rest[i].0 { assert pairs[i].0 <= pairs[i + 1].0; }
      }
      InsertSorts(p, rest);
    }
  }

  lemma {:induction false} SortSorts(pairs: Pairs)
    ensures Nondecreasing(SortPairs(pairs))
  {
    if pairs != [] {
      SortSorts(pairs[1..]);
      InsertSorts(pairs[0], SortPairs(pairs[1..]));
    }
  }

  /** A unit's entry: the result position of the element it was passed for, and its path. */
  ghost predicate Places(target: Doc, result: Doc, unit: (nat, Text), pair: (nat, Token)) {
    && unit.0 < |target| && unit.1 != []
    && pair.0 < |result| && result[pair.0].id == target[unit.0].id && pair.1 == Tstr(unit.1)
  }

  lemma {:induction false} PlacedUnits(target: Doc, result: Doc, units: seq<(nat, Text)>)
    requires PlaceUnits(target, result, units).Ok? && forall u :: u in Ids(target) ==> u in Ids(result)
    ensures
      var pairs := PlaceUnits(target, result, units).value;
      forall i :: 0 <= i < |units| ==> Places(target, result, units[i], pairs[i])
  {
    if units != [] {
      PlacedUnits(target, result, units[1..]);
      var i := units[0].0;
      assert Ids(target)[i] == target[i].id;
    }
  }

  /**
    The unit section of a delta: one entry for every unit passed, naming the same element by
    its result position, in ascending order.
   */
  lemma MappedUnits(target: Doc, result: Doc, units: seq<(nat, Text)>)
    requires MapUnits(target, result, units).Ok? && forall u :: u in Ids(target) ==> u in Ids(result)
    ensures
      var mapped := MapUnits(target, result, units).value;
      && |mapped| == |units| && ValidUnits(mapped, |result|)
      && (forall unit :: unit in units ==> exists p :: p in mapped && Places(target, result, unit, p))
      && (forall p :: p in mapped ==> exists unit :: unit in units && Places(target, result, unit, p))
  {
    hide SortPairs, PlaceUnits, Places, ValidUnits, Ascending;
    var placed := PlaceUnits(target, result, units).value;
    PlacedUnits(target, result, units);
    SortMembers(placed);
    SortCounts(placed);
    PlacedBothWays(target, result, units, placed);
    PlacedValid(target, result, units, SortPairs(placed));
  }

  lemma PlacedBothWays(target: Doc, result: Doc, units: seq<(nat, Text)>, placed: Pairs)
    requires |placed| == |units| && forall i :: 0 <= i < |units| ==> Places(target, result, units[i], placed[i])
    ensures forall unit :: unit in units ==> exists p :: p in placed && Places(target, result, unit, p)
    ensures forall p :: p in placed ==> exists unit :: unit in units && Places(target, result, unit, p)
  {
    hide Places;
    forall unit | unit in units ensures exists p :: p in placed && Places(target, result, unit, p) {
      var i :| 0 <= i < |units| && units[i] == unit;
      assert placed[i] in placed;
    }
    forall p | p in placed ensures exists unit :: unit in units && Places(target, result, unit, p) {
      var i :| 0 <= i < |placed| && placed[i] == p;
      assert units[i] in units;
    }
  }

  lemma PlacedValid(target: Doc, result: Doc, units: seq<(nat, Text)>, mapped: Pairs)
    requires Ascending(mapped)
    requires forall p :: p in mapped ==> exists unit :: unit in units && Places(target, result, unit, p)
    ensures ValidUnits(mapped, |result|)
  {
    forall i | 0 <= i < |mapped|
      ensures mapped[i].0 < |result| && mapped[i].1.Tstr? && mapped[i].1.bytes != []
    {
      assert mapped[i] in mapped;
    }
  }

  /** Units are refused for a repeated root alone, once every root and path is in order. */
  lemma UnitsRefused(target: Doc, result: Doc, units: seq<(nat, Text)>)
    requires PlaceUnits(target, result, units).Ok?
    ensures
      var sorted := SortPairs(PlaceUnits(target, result, units).value);
      MapUnits(target, result, units).Err? <==> exists i :: 0 < i < |sorted| && sorted[i - 1].0 == sorted[i].0
  {
    hide SortPairs, PlaceUnits, Ascending, Nondecreasing;
    var sorted := SortPairs(PlaceUnits(target, result, units).value);
    SortSorts(PlaceUnits(target, result, units).value);
    if i :| 0 < i < |sorted| && sorted[i - 1].0 == sorted[i].0 {
      RepeatedRoot(sorted, i);
    } else {
      NoRepeatedRoot(sorted);
    }
  }

  lemma RepeatedRoot(sorted: Pairs, i: nat)
    requires 0 < i < |sorted| && sorted[i - 1].0 == sorted[i].0
    ensures !Ascending(sorted)
  {
    assert !(sorted[i - 1].0 < sorted[i].0);
  }

  lemma NoRepeatedRoot(sorted: Pairs)
    requires Nondecreasing(sorted) && forall i :: 0 < i < |sorted| ==> sorted[i - 1].0 != sorted[i].0
    ensures Ascending(sorted)
  {
    hide Ascending;
    NeighboursAscend(sorted);
  }

  // ---- the header ------------------------------------------------------------------

  lemma DigestReads(u: Uuid, rest: Toks)
    ensures ReadDigest([Bstr(UuidBytes(u))] + rest) == Ok((u, rest))
  {
    hide UuidBytes, UuidOf;
    UuidOfBytes(u);
  }

  lemma GatePasses(portable: bool, units: bool, lenient: bool)
    requires !(portable && units) && (lenient ==> portable)
    ensures
      GateDelta(FlagByte(true, portable, units, true), ID_SCHEME, 7 + (if units then 1 else 0), lenient) == Ok(true)
  {
    hide FlagByte, Bit;
    FlagBits(true, portable, units, true);
  }

  lemma HeaderReads(
      portable: bool, units: bool, lenient: bool, baseDigest: Uuid, resultDigest: Uuid, claims: Pairs, rest: Toks)
    requires !(portable && units) && (lenient ==> portable) && AllClaims(claims)
    ensures
      ReadHeader(
        [Array(7 + (if units then 1 else 0)), Uint(HeaderWord(FlagByte(true, portable, units, true), ID_SCHEME)),
         Array(3), Bstr(UuidBytes(baseDigest)), Bstr(UuidBytes(resultDigest))] + (WritePairs(claims) + rest), lenient)
      == Ok((Header(portable, true, units, baseDigest, resultDigest), rest))
  {
    hide FlagByte, Bit, HeaderWord, ParseHeader, GateDelta, ReadDigest, ReadClaims, WritePairs, UuidBytes, AllClaims;
    var flags := FlagByte(true, portable, units, true);
    var tail := WritePairs(claims) + rest;
    var head := [Array(7 + (if units then 1 else 0)), Uint(HeaderWord(flags, ID_SCHEME)),
                 Array(3), Bstr(UuidBytes(baseDigest)), Bstr(UuidBytes(resultDigest))];
    var ts := head + tail;
    HeaderInverts(flags, ID_SCHEME);
    FlagBits(true, portable, units, true);
    GatePasses(portable, units, lenient);
    assert ts[0] == head[0] && ts[1] == head[1] && ts[2] == head[2];
    assert ts[1..][1..][1..] == [Bstr(UuidBytes(baseDigest))] + ([Bstr(UuidBytes(resultDigest))] + tail);
    DigestReads(baseDigest, [Bstr(UuidBytes(resultDigest))] + tail);
    DigestReads(resultDigest, tail);
    ClaimsRead(claims, tail, rest);
  }

  // ---- the body --------------------------------------------------------------------

  function UnitSection(units: Pairs): Toks {
    if units != [] then WritePairs(units) else []
  }

  function RecordSection(recs: seq<Record>, body: Toks, exceptions: Pairs, units: Pairs): Toks {
    [Array(|recs|)] + (body + (WritePairs(exceptions) + UnitSection(units)))
  }

  function BodySection(
      portable: bool, base: Doc, n: Interner, created: Doc, recs: seq<Record>, body: Toks, exceptions: Pairs,
      units: Pairs): Toks
  {
    [Uint(if portable then 0 else |base|)]
    + ([Array(|n.ext|)] + WriteIds(n.ext)
       + ([Array(|created|)] + WriteIds(Ids(created)) + RecordSection(recs, body, exceptions, units)))
  }

  lemma DeltaLayout(
      portable: bool, base: Doc, n: Interner, created: Doc, baseDigest: Uuid, resultDigest: Uuid,
      claims: Pairs, recs: seq<Record>, body: Toks, exceptions: Pairs, units: Pairs)
    ensures
      DeltaTokens(portable, base, n, created, baseDigest, resultDigest, claims, recs, body, exceptions, units)
      == [Array(7 + (if units != [] then 1 else 0)),
          Uint(HeaderWord(FlagByte(true, portable, units != [], true), ID_SCHEME)),
          Array(3), Bstr(UuidBytes(baseDigest)), Bstr(UuidBytes(resultDigest))]
         + (WritePairs(claims) + BodySection(portable, base, n, created, recs, body, exceptions, units))
  {
  }

  ghost predicate IsBody(tables: Tables, portable: bool, base: Doc, result: Doc, recs: seq<Record>, body: Toks) {
    && IsPlan(tables, portable, base, result, recs)
    && (forall rec :: rec in recs ==> InBase(base, rec))
    && WriteRecords(tables, Wire(DeltaInterner(tables, portable, base, result)), portable, base, result, recs)
       == Ok(body)
  }

  lemma DeltaAgrees(tables: Tables, portable: bool, base: Doc, result: Doc)
    requires DistinctIds(base) && DistinctIds(result)
    ensures
      var n := DeltaInterner(tables, portable, base, result);
      Agree(n, Space(if portable then [] else Ids(base), Ids(Created(base, result)), n.ext))
  {
    hide Created, Updates, DocRefs, BuildInterner, Agree;
    CreatedOutside(base, result);
    var ids: seq<Uuid> := if portable then [] else Ids(base);
    NoDupAppend(ids, Ids(Created(base, result)));
    InternerAgrees(ids, Ids(Created(base, result)), DocRefs(tables, Updates(base, result, 0) + Created(base, result)));
  }

  /** The record list, read over the base it was planned from, or when portable over any document. */
  lemma BodyActs(
      tables: Tables, portable: bool, base: Doc, result: Doc, recs: seq<Record>, body: Toks, held: Doc, rest: Toks)
    requires ValidTables(tables) && DistinctIds(base) && DistinctIds(result) && (portable || held == base)
    requires IsBody(tables, portable, base, result, recs, body)
    ensures
      var n, created := DeltaInterner(tables, portable, base, result), Ids(Created(base, result));
      var s := Space(if portable then [] else Ids(held), created, n.ext);
      && (forall rec :: rec in recs ==> InBase(base, rec))
      && |recs| <= Remaining(body + rest)
      && ReadActs(body + rest, s, tables, held, portable, created, 0, |recs|)
         == Ok((ActsOf(base, result, recs), |created|, rest))
  {
    hide ValidTables, IsPlan, WriteRecords, DeltaInterner, Created, ReadActs, EncAll, Agree, AllPlanned, TakesIds,
      ActsOf;
    var n, created := DeltaInterner(tables, portable, base, result), Ids(Created(base, result));
    DeltaAgrees(tables, portable, base, result);
    PlanFacts(tables, portable, base, result, recs);
    WrittenLength(tables, Wire(n), portable, base, result, recs);
    RemainingAppend(body, rest);
    ReadActsInvert(
      tables, n, Space(if portable then [] else Ids(base), created, n.ext), portable, base, result, recs, held, created,
      0, body + rest, rest);
  }

  lemma WrittenLength(
      tables: Tables, sp: Spelling, portable: bool, base: Doc, result: Doc, recs: seq<Record>)
    requires forall rec :: rec in recs ==> InBase(base, rec)
    requires WriteRecords(tables, sp, portable, base, result, recs).Ok?
    ensures |WriteRecords(tables, sp, portable, base, result, recs).value| >= |recs|
  {
  }

  lemma SectionsRead(
      portable: bool, base: Doc, n: Interner, created: Doc, recs: seq<Record>, body: Toks, exceptions: Pairs,
      units: Pairs)
    ensures
      var ts := BodySection(portable, base, n, created, recs, body, exceptions, units);
      var tail := body + (WritePairs(exceptions) + UnitSection(units));
      && ReadUint(ts).Ok? && ReadUint(ts).value.0 == (if portable then 0 else |base|)
      && ReadIds(ReadUint(ts).value.1).Ok? && ReadIds(ReadUint(ts).value.1).value.0 == n.ext
      && ReadIds(ReadIds(ReadUint(ts).value.1).value.1)
         == Ok((Ids(created), RecordSection(recs, body, exceptions, units)))
      && ReadArray(RecordSection(recs, body, exceptions, units)) == Ok((|recs|, tail))
  {
    hide WriteIds, ReadIds, WritePairs, UnitSection;
    var ts := BodySection(portable, base, n, created, recs, body, exceptions, units);
    var section := RecordSection(recs, body, exceptions, units);
    var ids := [Array(|created|)] + WriteIds(Ids(created)) + section;
    assert ts[1..] == [Array(|n.ext|)] + WriteIds(n.ext) + ids;
    IdsInvert(n.ext, ts[1..], ids);
    IdsInvert(Ids(created), ids, section);
    assert section[1..] == body + (WritePairs(exceptions) + UnitSection(units));
  }

  // ---- the last sections -----------------------------------------------------------

  lemma TailRead(exceptions: Pairs, units: Pairs, n: nat)
    requires PairsFit(OwnerBits, exceptions) && ValidUnits(units, n)
    ensures
      ReadIf(true, WritePairs(exceptions) + UnitSection(units), OwnerBits) == Ok((exceptions, UnitSection(units)))
    ensures ReadIf(units != [], UnitSection(units), UnitPaths) == Ok((units, []))
    ensures NonEmptyPaths(units) && LastBelow(units, n)
  {
    hide PairsFit, WritePairs, ReadIf;
    UnitsFit(units, n);
    ReadIfInverts(true, OwnerBits, exceptions, WritePairs(exceptions) + UnitSection(units), UnitSection(units));
    assert UnitSection(units) == UnitSection(units) + [];
    ReadIfInverts(units != [], UnitPaths, units, UnitSection(units), []);
  }

  lemma ExceptionsNameShipped(tables: Tables, portable: bool, base: Doc, result: Doc, recs: seq<Record>)
    requires forall rec :: rec in recs ==> InBase(base, rec)
    ensures NameShipped(RecordExceptions(tables, recs, 0), Shipped(ActsOf(base, result, recs)))
  {
    hide RecordExceptions, Carry;
  }

  /** The applier's last sections accept the payload and return the result. */
  lemma FinishReads(
      hash: Hash, tables: Tables, portable: bool, base: Doc, target: Doc, recs: seq<Record>, body: Toks,
      baseDigest: Uuid, units: Pairs, st: State)
    requires DistinctIds(base) && DistinctIds(target)
    requires IsBody(tables, portable, base, AppliedOrder(base, target), recs, body)
    requires Digest(hash, tables, AppliedOrder(base, target)).Ok? && ValidUnits(units, |AppliedOrder(base, target)|)
    requires Run(portable, Ids(base), INITIAL, ActsOf(base, AppliedOrder(base, target), recs)) == Some(st)
    requires SoundState(Ids(base), st)
    ensures
      var result, exceptions := AppliedOrder(base, target), RecordExceptions(tables, recs, 0);
      var h := Header(portable, true, units != [], baseDigest, Digest(hash, tables, result).value);
      Finish(hash, tables, WritePairs(exceptions) + UnitSection(units), base, st, h, true)
      == Ok((result, Report(true, st.noops, st.upserts, st.replacedCreates, units)))
  {
    hide AppliedOrder, RecordExceptions, Run, ActsOf, SoundState, WriteRecords, WritePairs, UnitSection, ReadIf, Digest,
      ValidUnits, IsPlan, DeltaInterner, Applied, NameShipped, NonEmptyPaths, LastBelow, Means;
    var result := AppliedOrder(base, target);
    var sp := Wire(DeltaInterner(tables, portable, base, result));
    var exceptions := RecordExceptions(tables, recs, 0);
    TailRead(exceptions, units, |result|);
    PlanRuns(tables, portable, base, result, recs);
    MeansShipped(Ids(base), ActsOf(base, result, recs), st);
    ExceptionsNameShipped(tables, portable, base, result, recs);
    AppliedIsResult(tables, sp, portable, base, target, recs, st);
  }

  // ---- what the report counts ------------------------------------------------------

  lemma {:induction false} NothingCounted(held: set<Uuid>, acts: Acts)
    requires forall a :: a in acts ==> (a.Create? <==> a.id !in held)
    ensures CountNoops(held, acts) == CountUpserts(held, acts) == CountReplaced(held, acts) == 0
  {
    if acts != [] {
      assert acts[0] in acts;
      NothingCounted(held, acts[1..]);
    }
  }

  lemma PlanCreatesOutside(portable: bool, base: Doc, result: Doc, recs: seq<Record>)
    requires DistinctIds(base) && AllPlanned(portable, base, result, recs)
    requires forall rec :: rec in recs ==> InBase(base, rec)
    ensures forall a :: a in ActsOf(base, result, recs) ==> (a.Create? <==> a.id !in Elems(Ids(base)))
  {
    hide Carry, At;
    var acts := ActsOf(base, result, recs);
    forall a | a in acts ensures a.Create? <==> a.id !in Elems(Ids(base)) {
      var i :| 0 <= i < |acts| && acts[i] == a;
      assert Planned(portable, base, result, recs[i]);
      PlannedFaithful(portable, base, result, recs[i]);
    }
  }

  lemma CleanReport(tables: Tables, portable: bool, base: Doc, result: Doc, recs: seq<Record>, st: State)
    requires DistinctIds(base) && DistinctIds(result) && IsPlan(tables, portable, base, result, recs)
    requires forall rec :: rec in recs ==> InBase(base, rec)
    requires Run(portable, Ids(base), INITIAL, ActsOf(base, result, recs)) == Some(st)
    ensures st.noops == st.upserts == st.replacedCreates == 0
  {
    hide IsPlan, Run, ActsOf, AllPlanned, TakesIds, CountNoops, CountUpserts, CountReplaced, Placed, Fresh, Shipped;
    var acts := ActsOf(base, result, recs);
    PlanRuns(tables, portable, base, result, recs);
    PlanFacts(tables, portable, base, result, recs);
    PlanCreatesOutside(portable, base, result, recs);
    NothingCounted(Elems(Ids(base)), acts);
  }

  // ---- the theorem -----------------------------------------------------------------

  /** The body of an encoding applied to the canonical base it was planned from. */
  lemma BodyApplies(
      hash: Hash, tables: Tables, portable: bool, base: Doc, target: Doc, recs: seq<Record>, body: Toks,
      baseDigest: Uuid, units: Pairs)
    requires ValidTables(tables) && DistinctIds(base) && DistinctIds(target)
    requires IsBody(tables, portable, base, AppliedOrder(base, target), recs, body)
    requires Digest(hash, tables, AppliedOrder(base, target)).Ok? && ValidUnits(units, |AppliedOrder(base, target)|)
    ensures
      var result := AppliedOrder(base, target);
      var n, created := DeltaInterner(tables, portable, base, result), Created(base, result);
      var ts := BodySection(portable, base, n, created, recs, body, RecordExceptions(tables, recs, 0), units);
      var h := Header(portable, true, units != [], baseDigest, Digest(hash, tables, result).value);
      ApplyBody(hash, tables, ts, base, h, true) == Ok((result, Report(true, 0, 0, 0, units)))
  {
    hide ValidTables, AppliedOrder, RecordExceptions, Run, ActsOf, SoundState, WriteRecords, WritePairs, UnitSection,
      Digest, ValidUnits, IsPlan, DeltaInterner, Created, Finish, ReadActs, ReadUint, ReadIds, ReadArray, BodySection,
      RecordSection, EncAll, INITIAL, Means;
    var result := AppliedOrder(base, target);
    var n, created := DeltaInterner(tables, portable, base, result), Created(base, result);
    var exceptions := RecordExceptions(tables, recs, 0);
    SectionsRead(portable, base, n, created, recs, body, exceptions, units);
    BodyActs(tables, portable, base, result, recs, body, base, WritePairs(exceptions) + UnitSection(units));
    PlanRuns(tables, portable, base, result, recs);
    var acts := ActsOf(base, result, recs);
    var st := Run(portable, Ids(base), INITIAL, acts).value;
    CleanReport(tables, portable, base, result, recs, st);
    InitialSound(Ids(base));
    RunSound(portable, Ids(base), INITIAL, acts);
    FinishReads(hash, tables, portable, base, target, recs, body, baseDigest, units, st);
  }

  lemma InitialSound(ids: seq<Uuid>)
    ensures SoundState(ids, INITIAL)
  {
  }

  ghost predicate SameState(a: Doc, b: Doc) {
    DistinctIds(a) && DistinctIds(b) && Canonical(a) == Canonical(b)
  }

  /**
    Applying a delta to the state it was planned from, however arranged, gives exactly the
    target's elements in applied order: every backpointer that travelled implied is back,
    whichever of whole record or patch each update chose, and the report is clean. It holds
    of strict and of portable deltas, and of lenient application.
   */
  lemma ApplyUndoesDiff(
      hash: Hash, tables: Tables, base0: Doc, target0: Doc, opts: Options, held0: Doc, lenient: bool)
    requires ValidTables(tables) && DistinctIds(base0) && DistinctIds(target0) && SameState(base0, held0)
    requires EncodeDelta(hash, tables, base0, target0, opts).Ok? && (lenient ==> opts.portable)
    ensures
      var result := AppliedOrder(Canonical(base0), Canonical(target0));
      && MapUnits(target0, result, opts.units).Ok?
      && ApplyDelta(hash, tables, EncodeDelta(hash, tables, base0, target0, opts).value, held0, lenient)
         == Ok((result, Report(true, 0, 0, 0, MapUnits(target0, result, opts.units).value)))
      && SameElements(target0, result)
  {
    hide ValidTables, AppliedOrder, Canonical, Digest, MapUnits, SortPairs, EncodeBody, ApplyBody, ReadHeader,
      SameElements, ValidUnits, EncodeDelta, ApplyDelta, AllClaims, Extras;
    var base, target := Canonical(base0), Canonical(target0);
    var result := AppliedOrder(base, target);
    EncodeParts(hash, tables, base0, target0, opts);
    ExtrasParts(target0, result, opts);
    ResultHolds(base, target0);
    var (claims, units) := Extras(target0, result, opts).value;
    MappedUnits(target0, result, opts.units);
    EncodedApplies(hash, tables, opts.portable, base, target, claims, units, lenient);
    ApplyParts(hash, tables, EncodeDelta(hash, tables, base0, target0, opts).value, held0, lenient);
  }

  lemma EncodeParts(hash: Hash, tables: Tables, base0: Doc, target0: Doc, opts: Options)
    requires DistinctIds(base0) && DistinctIds(target0) && EncodeDelta(hash, tables, base0, target0, opts).Ok?
    ensures
      var base := Canonical(base0);
      var result := AppliedOrder(base, Canonical(target0));
      && Digest(hash, tables, base).Ok? && Digest(hash, tables, result).Ok?
      && Extras(target0, result, opts).Ok?
      && EncodeDelta(hash, tables, base0, target0, opts)
         == EncodeBody(tables, opts.portable, base, result, Digest(hash, tables, base).value,
              Digest(hash, tables, result).value, Extras(target0, result, opts).value.0,
              Extras(target0, result, opts).value.1)
  {
    hide AppliedOrder, Canonical, Digest, Extras, EncodeBody;
  }

  lemma ExtrasParts(target0: Doc, result: Doc, opts: Options)
    requires Extras(target0, result, opts).Ok?
    ensures MapUnits(target0, result, opts.units) == Ok(Extras(target0, result, opts).value.1)
    ensures AllClaims(Extras(target0, result, opts).value.0) && (opts.units != [] ==> !opts.portable)
    ensures Extras(target0, result, opts).value.0 == SortPairs(opts.claims)
  {
    hide MapUnits, SortPairs, IsClaim, Ascending;
  }

  lemma ApplyParts(hash: Hash, tables: Tables, ts: Toks, held0: Doc, lenient: bool)
    requires DistinctIds(held0) && ReadHeader(ts, lenient).Ok?
    requires Digest(hash, tables, Canonical(held0)) == Ok(ReadHeader(ts, lenient).value.0.baseDigest)
    ensures
      var (h, rest) := ReadHeader(ts, lenient).value;
      ApplyDelta(hash, tables, ts, held0, lenient) == ApplyBody(hash, tables, rest, Canonical(held0), h, true)
  {
    hide Canonical, Digest, ReadHeader, ApplyBody, ApplyGated;
    var (h, rest) := ReadHeader(ts, lenient).value;
    GatedMatches(hash, tables, rest, Canonical(held0), h, lenient);
  }

  lemma GatedMatches(hash: Hash, tables: Tables, ts: Toks, base: Doc, h: Header, lenient: bool)
    requires DistinctIds(base) && Digest(hash, tables, base) == Ok(h.baseDigest)
    ensures ApplyGated(hash, tables, ts, base, h, lenient) == ApplyBody(hash, tables, ts, base, h, true)
  {
    hide Digest, ApplyBody, DistinctIds;
  }

  /** The applied order holds the target's elements. */
  lemma ResultHolds(base: Doc, target0: Doc)
    requires DistinctIds(base) && DistinctIds(target0)
    ensures
      var result := AppliedOrder(base, Canonical(target0));
      SameElements(target0, result) && forall u :: u in Ids(target0) ==> u in Ids(result)
  {
    hide AppliedOrder, Canon, GraphOf, At;
    CanonDocSame(target0);
    AppliedOrderSame(base, Canonical(target0));
  }

  lemma EncodedApplies(
      hash: Hash, tables: Tables, portable: bool, base: Doc, target: Doc, claims: Pairs, units: Pairs, lenient: bool)
    requires ValidTables(tables) && DistinctIds(base) && DistinctIds(target) && AllClaims(claims)
    requires !(portable && units != []) && (lenient ==> portable)
    requires Digest(hash, tables, base).Ok? && Digest(hash, tables, AppliedOrder(base, target)).Ok?
    requires ValidUnits(units, |AppliedOrder(base, target)|)
    requires
      var result := AppliedOrder(base, target);
      EncodeBody(tables, portable, base, result, Digest(hash, tables, base).value,
        Digest(hash, tables, result).value, claims, units).Ok?
    ensures
      var result := AppliedOrder(base, target);
      var baseDigest, resultDigest := Digest(hash, tables, base).value, Digest(hash, tables, result).value;
      var ts := EncodeBody(tables, portable, base, result, baseDigest, resultDigest, claims, units).value;
      && ReadHeader(ts, lenient).Ok?
      && ReadHeader(ts, lenient).value.0 == Header(portable, true, units != [], baseDigest, resultDigest)
      && ApplyBody(hash, tables, ReadHeader(ts, lenient).value.1, base, ReadHeader(ts, lenient).value.0, true)
         == Ok((result, Report(true, 0, 0, 0, units)))
  {
    hide ValidTables, AppliedOrder, Digest, ApplyBody, ReadHeader, ValidUnits, PlanRecords, WriteRecords, DeltaTokens,
      RecordExceptions, DeltaInterner, BodySection, Created, AllClaims, HeaderWord, FlagByte, WritePairs, UuidBytes;
    var result := AppliedOrder(base, target);
    var baseDigest, resultDigest := Digest(hash, tables, base).value, Digest(hash, tables, result).value;
    var n := DeltaInterner(tables, portable, base, result);
    var recs := PlanRecords(tables, portable, base, result).value;
    var body := WriteRecords(tables, Wire(n), portable, base, result, recs).value;
    var exceptions := RecordExceptions(tables, recs, 0);
    DeltaLayout(
      portable, base, n, Created(base, result), baseDigest, resultDigest, claims, recs, body, exceptions, units);
    HeaderReads(portable, units != [], lenient, baseDigest, resultDigest, claims,
      BodySection(portable, base, n, Created(base, result), recs, body, exceptions, units));
    BodyApplies(hash, tables, portable, base, target, recs, body, baseDigest, units);
  }

  /** The same on bytes, report and all. */
  lemma ApplyUndoesDiffBytes(
      hash: Hash, tables: Tables, base0: Doc, target0: Doc, opts: Options, held0: Doc, lenient: bool)
    requires ValidTables(tables) && DistinctIds(base0) && DistinctIds(target0) && SameState(base0, held0)
    requires EncodeDelta(hash, tables, base0, target0, opts).Ok? && (lenient ==> opts.portable)
    requires AllFit(EncodeDelta(hash, tables, base0, target0, opts).value)
    ensures
      var b := MAGIC + EncAll(EncodeDelta(hash, tables, base0, target0, opts).value);
      var result := AppliedOrder(Canonical(base0), Canonical(target0));
      && MapUnits(target0, result, opts.units).Ok?
      && ApplyCbor(hash, tables, b, held0, lenient)
         == Ok((result, Report(true, 0, 0, 0, MapUnits(target0, result, opts.units).value)))
  {
    hide EncodeDelta, ApplyDelta, AllFit, ValidTables, Canonical, AppliedOrder, SameElements, MapUnits;
    var ts := EncodeDelta(hash, tables, base0, target0, opts).value;
    var b := MAGIC + EncAll(ts);
    assert b[..8] == MAGIC && b[8..] == EncAll(ts);
    LexInverts(ts);
    ApplyUndoesDiff(hash, tables, base0, target0, opts, held0, lenient);
  }
}
