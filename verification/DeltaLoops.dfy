/**
  The delta's loops as the code runs them: planning and writing the change records in one
  pass, assembling the applied payload, and re-deriving what was shipped.
 */
module DeltaLoops {
  import opened Wrappers
  import opened Seqs
  import opened Cbor
  import opened Model
  import opened Owners
  import opened Values
  import opened Records
  import opened Sections
  import opened Snapshot
  import opened Patch
  import opened CanonDoc
  import opened Acts
  import opened Delta
  import opened Apply
  import opened DeltaRecords
  import CodecLoops

  // ---- writing the change records --------------------------------------------------

  lemma {:induction false} RecordsAppend(
      tables: Tables, sp: Spelling, portable: bool, base: Doc, result: Doc, a: seq<Record>, b: seq<Record>)
    requires (forall rec :: rec in a ==> InBase(base, rec)) && forall rec :: rec in b ==> InBase(base, rec)
    ensures
      WriteRecords(tables, sp, portable, base, result, a + b) ==
        match WriteRecords(tables, sp, portable, base, result, a)
        case Err(kind) => Err(kind)
        case Ok(ts) => CodecLoops.Prefixed(ts, WriteRecords(tables, sp, portable, base, result, b))
  {
    hide WriteRecord, InBase, WriteRecords, CodecLoops.Prefixed;
    var more := WriteRecords(tables, sp, portable, base, result, b);
    if a == [] {
      assert a + b == b;
      NoRecords(tables, sp, portable, base, result);
      CodecLoops.PrefixedOn([], [], more);
    } else {
      RecordsAppend(tables, sp, portable, base, result, a[1..], b);
      assert (a + b)[0] == a[0] && (a + b)[1..] == a[1..] + b;
      FirstRecord(tables, sp, portable, base, result, a);
      FirstRecord(tables, sp, portable, base, result, a + b);
      PrefixedTwice(WriteRecord(tables, sp, portable, base, result, a[0]),
        WriteRecords(tables, sp, portable, base, result, a[1..]), more);
    }
  }

  /** Two results in turn: the first refusal, else what both wrote. */
  function Joined(head: Result<Toks>, tail: Result<Toks>): Result<Toks> {
    match head
    case Err(kind) => Err(kind)
    case Ok(ts) => CodecLoops.Prefixed(ts, tail)
  }

  lemma PrefixedTwice(head: Result<Toks>, tail: Result<Toks>, more: Result<Toks>)
    ensures Joined(head, Joined(tail, more)) == Joined(Joined(head, tail), more)
  {
    if head.Ok? && tail.Ok? {
      CodecLoops.PrefixedOn(head.value, tail.value, more);
    }
  }

  lemma NoRecords(tables: Tables, sp: Spelling, portable: bool, base: Doc, result: Doc)
    ensures WriteRecords(tables, sp, portable, base, result, []) == Ok([])
  {
  }

  lemma FirstRecord(tables: Tables, sp: Spelling, portable: bool, base: Doc, result: Doc, recs: seq<Record>)
    requires recs != [] && forall rec :: rec in recs ==> InBase(base, rec)
    ensures InBase(base, recs[0]) && forall rec :: rec in recs[1..] ==> InBase(base, rec)
    ensures
      WriteRecords(tables, sp, portable, base, result, recs)
      == Joined(WriteRecord(tables, sp, portable, base, result, recs[0]),
                WriteRecords(tables, sp, portable, base, result, recs[1..]))
  {
    hide WriteRecord, InBase;
  }

  /** The plan of one base position, if it has one. */
  function PlanAt(tables: Tables, sp: Spelling, portable: bool, base: Doc, result: Doc, k: nat)
    : (r: Result<seq<Record>>)
    requires k < |base|
    ensures r.Ok? ==> forall rec :: rec in r.value ==> InBase(base, rec)
  {
    if base[k].id !in Ids(result) then Ok([Drop(k)])
    else
      var e := At(result, base[k].id);
      if e == base[k] then Ok([])
      else
        var whole :- ShipsWhole(tables, sp, portable, base[k], e, DerivationFor(result, true, e));
        Ok([if whole then Whole(k, e) else Patched(k, e)])
  }

  lemma PlanStepped(tables: Tables, sp: Spelling, portable: bool, base: Doc, result: Doc, k: nat)
    requires k < |base|
    ensures
      PlanTouched(tables, sp, portable, base, result, k) ==
        match PlanAt(tables, sp, portable, base, result, k)
        case Err(kind) => Err(kind)
        case Ok(recs) =>
          (match PlanTouched(tables, sp, portable, base, result, k + 1)
           case Err(kind) => Err(kind)
           case Ok(rest) => Ok(recs + rest))
  {
    hide ShipsWhole, DerivationFor, At, Ids;
    if PlanTouched(tables, sp, portable, base, result, k + 1).Ok? {
      var rest := PlanTouched(tables, sp, portable, base, result, k + 1).value;
      assert [] + rest == rest;
    }
  }

  lemma TouchedInBase(tables: Tables, sp: Spelling, portable: bool, base: Doc, result: Doc, k: nat)
    requires k <= |base| && PlanTouched(tables, sp, portable, base, result, k).Ok?
    ensures forall rec :: rec in PlanTouched(tables, sp, portable, base, result, k).value ==> InBase(base, rec)
  {
    hide PlanTouched;
  }

  /** What has been planned and written, the rest of the plan still to come. */
  ghost predicate Written(
      tables: Tables, sp: Spelling, portable: bool, base: Doc, result: Doc, k: nat, recs: seq<Record>, out: Toks)
    requires k <= |base|
  {
    && (forall rec :: rec in recs ==> InBase(base, rec))
    && WriteRecords(tables, sp, portable, base, result, recs) == Ok(out)
    && PlanTouched(tables, sp, portable, base, result, 0)
       == match PlanTouched(tables, sp, portable, base, result, k)
          case Err(kind) => Err(kind)
          case Ok(rest) => Ok(recs + rest)
  }

  lemma WrittenOn(
      tables: Tables, sp: Spelling, portable: bool, base: Doc, result: Doc, k: nat, recs: seq<Record>, out: Toks)
    requires k < |base| && Written(tables, sp, portable, base, result, k, recs, out)
    ensures
      var now := PlanAt(tables, sp, portable, base, result, k);
      now.Ok? ==>
        var ts := WriteRecords(tables, sp, portable, base, result, now.value);
        && (ts.Ok? ==> Written(tables, sp, portable, base, result, k + 1, recs + now.value, out + ts.value))
        && (ts.Err? ==> Refused(tables, sp, portable, base, result))
    ensures PlanAt(tables, sp, portable, base, result, k).Err? ==> Refused(tables, sp, portable, base, result)
  {
    hide PlanTouched, PlanAt, WriteRecords, InBase;
    PlanStepped(tables, sp, portable, base, result, k);
    var now := PlanAt(tables, sp, portable, base, result, k);
    if now.Ok? {
      RecordsAppend(tables, sp, portable, base, result, recs, now.value);
      var rest := PlanTouched(tables, sp, portable, base, result, k + 1);
      if rest.Ok? {
        Assoc(recs, now.value, rest.value);
        if WriteRecords(tables, sp, portable, base, result, now.value).Err? {
          TouchedInBase(tables, sp, portable, base, result, k + 1);
          RecordsAppend(tables, sp, portable, base, result, recs + now.value, rest.value);
        }
      }
    }
  }

  /** The touched records cannot all be planned and written. */
  ghost predicate Refused(tables: Tables, sp: Spelling, portable: bool, base: Doc, result: Doc) {
    var plan := PlanTouched(tables, sp, portable, base, result, 0);
    plan.Ok? ==> WriteRecords(tables, sp, portable, base, result, plan.value).Err?
  }

  /** Base positions in turn, each change planned and written before the next is looked at. */
  method WriteTouched(tables: Tables, sp: Spelling, portable: bool, base: Doc, result: Doc)
    returns (r: Result<(seq<Record>, Toks)>)
    ensures
      r.Ok? ==>
        && PlanTouched(tables, sp, portable, base, result, 0) == Ok(r.value.0)
        && (forall rec :: rec in r.value.0 ==> InBase(base, rec))
        && WriteRecords(tables, sp, portable, base, result, r.value.0) == Ok(r.value.1)
        && (forall rec :: rec in r.value.0 ==> Shortest(tables, sp, portable, base, result, rec))
    ensures r.Err? ==> Refused(tables, sp, portable, base, result)
  {
    hide PlanTouched, PlanAt, WriteRecords, InBase, Written, Refused, Shortest;
    var recs: seq<Record>, out: Toks := [], [];
    WrittenStarts(tables, sp, portable, base, result);
    for k := 0 to |base|
      invariant Written(tables, sp, portable, base, result, k, recs, out)
    {
      WrittenOn(tables, sp, portable, base, result, k, recs, out);
      var now := PlanAt(tables, sp, portable, base, result, k);
      if now.Err? {
        return Err(now.kind);
      }
      var ts := WriteRecords(tables, sp, portable, base, result, now.value);
      if ts.Err? {
        return Err(ts.kind);
      }
      recs, out := recs + now.value, out + ts.value;
    }
    WrittenEnds(tables, sp, portable, base, result, recs, out);
    TouchedShortest(tables, sp, portable, base, result, 0);
    r := Ok((recs, out));
  }

  lemma WrittenStarts(tables: Tables, sp: Spelling, portable: bool, base: Doc, result: Doc)
    ensures Written(tables, sp, portable, base, result, 0, [], [])
  {
    hide PlanTouched;
    var plan := PlanTouched(tables, sp, portable, base, result, 0);
    if plan.Ok? {
      assert [] + plan.value == plan.value;
    }
  }

  lemma WrittenEnds(
      tables: Tables, sp: Spelling, portable: bool, base: Doc, result: Doc, recs: seq<Record>, out: Toks)
    requires Written(tables, sp, portable, base, result, |base|, recs, out)
    ensures PlanTouched(tables, sp, portable, base, result, 0) == Ok(recs)
    ensures forall rec :: rec in recs ==> InBase(base, rec)
    ensures WriteRecords(tables, sp, portable, base, result, recs) == Ok(out)
  {
    hide WriteRecords, InBase;
    assert PlanTouched(tables, sp, portable, base, result, |base|) == Ok([]);
    assert recs + [] == recs;
  }

  // ---- assembling and filling ------------------------------------------------------

  /** Surviving base elements in base order, replacements in place, then what was appended. */
  method AssembleResult(base: Doc, st: State) returns (doc: Doc)
    ensures doc == Assemble(base, st)
  {
    doc := [];
    for k := 0 to |base|
      invariant doc + Survivors(base, st, k) == Survivors(base, st, 0)
    {
      ghost var rest := Survivors(base, st, k + 1);
      if k !in st.deleted {
        var e := if k in st.replaced then st.replaced[k] else base[k];
        Assoc(doc, [e], rest);
        doc := doc + [e];
      }
    }
    assert doc + [] == doc;
    doc := doc + st.appended;
  }

  /** The bits each shipped element re-derives against; a later record of an identity wins. */
  method ShippedBits(shipped: seq<Option<Uuid>>, pairs: Pairs) returns (bits: map<Uuid, nat>)
    ensures forall u :: BitsFor(shipped, pairs, u, |shipped|) == if u in bits then Some(bits[u]) else None
  {
    hide BitsAt;
    bits := map[];
    for k := 0 to |shipped|
      invariant forall u :: BitsFor(shipped, pairs, u, k) == if u in bits then Some(bits[u]) else None
    {
      if shipped[k].Some? {
        bits := bits[shipped[k].value := BitsAt(pairs, k)];
      }
    }
  }

  /** Every shipped element's backpointers, over the applied document in canonical order. */
  method RederiveShipped(tables: Tables, doc: Doc, shipped: seq<Option<Uuid>>, pairs: Pairs) returns (filled: Doc)
    requires DistinctIds(doc)
    ensures filled == FillShipped(tables, doc, shipped, pairs)
  {
    hide DistinctIds, ClaimantFrom, BitsFor, FillShipped;
    var bits := ShippedBits(shipped, pairs);
    var owning, related := DeriveOwners(doc);
    filled := RederiveFrom(tables, doc, shipped, pairs, bits, owning[..], related[..]);
  }

  method RederiveFrom(
      tables: Tables, doc: Doc, shipped: seq<Option<Uuid>>, pairs: Pairs, bits: map<Uuid, nat>,
      owning: seq<Option<nat>>, related: seq<Option<nat>>)
    returns (filled: Doc)
    requires forall u :: BitsFor(shipped, pairs, u, |shipped|) == if u in bits then Some(bits[u]) else None
    requires CodecLoops.Claimants(doc, 0, owning) && CodecLoops.Claimants(doc, 1, related)
    ensures filled == FillShipped(tables, doc, shipped, pairs)
  {
    hide FillShipped, FillElement, FillOne, BitsFor, CodecLoops.Claimants, CodecLoops.OwnerId;
    CodecLoops.ClaimantsSize(doc, owning, related);
    filled := [];
    for i := 0 to |doc|
      invariant |filled| == i && forall k :: 0 <= k < i ==> filled[k] == FillOne(tables, doc, shipped, pairs, doc[k])
    {
      RederivedAt(tables, doc, shipped, pairs, i, owning, related);
      var e := doc[i];
      if e.id in bits {
        e := FillElement(FieldsOf(tables, e.ty), bits[e.id], CodecLoops.OwnerId(doc, owning[i]),
          CodecLoops.OwnerId(doc, related[i]), e);
      }
      filled := filled + [e];
    }
    assert filled == FillShipped(tables, doc, shipped, pairs);
  }

  lemma RederivedAt(
      tables: Tables, doc: Doc, shipped: seq<Option<Uuid>>, pairs: Pairs, i: nat,
      owning: seq<Option<nat>>, related: seq<Option<nat>>)
    requires i < |doc| && CodecLoops.Claimants(doc, 0, owning) && CodecLoops.Claimants(doc, 1, related)
    ensures (owning[i].Some? ==> owning[i].value < |doc|) && (related[i].Some? ==> related[i].value < |doc|)
    ensures
      FillOne(tables, doc, shipped, pairs, doc[i]) ==
        match BitsFor(shipped, pairs, doc[i].id, |shipped|)
        case None => doc[i]
        case Some(b) =>
          FillElement(FieldsOf(tables, doc[i].ty), b, CodecLoops.OwnerId(doc, owning[i]),
            CodecLoops.OwnerId(doc, related[i]), doc[i])
  {
    hide FieldsOf, FillElement, BitsFor;
  }
}
