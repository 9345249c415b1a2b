/** When a delta can be encoded: exactly where both states can, and the claims and units are in order. */
module Diffable {
  import opened Wrappers
  import opened Seqs
  import opened Cbor
  import opened Model
  import opened Values
  import opened Records
  import opened Sections
  import opened Snapshot
  import opened Patch
  import opened Transcode
  import opened Stream
  import opened StreamWrite
  import opened CanonDoc
  import opened Delta
  import opened Encodable

  // ---- writing against a table that holds every reference --------------------------

  lemma {:induction false} RefsWire(n: Interner, items: seq<Value>)
    requires Interned(n, RefIds(items)) && forall i :: 0 <= i < |items| ==> Nameable(items[i])
    ensures WriteRefs(Wire(n), items).Ok?
  {
    hide IndexIn;
    if items != [] {
      assert RefIds(items) == (if items[0].Ref? then [items[0].id] else []) + RefIds(items[1..]);
      assert Nameable(items[0]);
      assert items[0].Ref? ==> items[0].id in RefIds(items);
      RefsWire(n, items[1..]);
    }
  }

  lemma ValueWires(n: Interner, f: Field, v: Value)
    requires Carries(f, v) && Interned(n, FieldRefs(f, v))
    ensures WriteValue(Wire(n), f, v).Ok?
  {
    hide IndexIn, WriteTexts, WriteRefs, IntToken, IsFinite, RefIds;
    if f.kind.KStrList? && v.Arr? {
      TextsIff(v.items);
    }
    if f.kind.KRefList? && v.Arr? {
      RefsWire(n, v.items);
    }
    if f.kind.KRef? && v.Ref? {
      assert v.id in FieldRefs(f, v);
    }
  }

  lemma {:induction false} EntriesWire(n: Interner, fields: seq<Field>, e: Element, d: Derivation, k: nat)
    requires k <= |fields| && EntriesInterned(n, fields, e)
    requires forall i :: 0 <= i < |fields| && fields[i].name in e.props ==> Carries(fields[i], e.props[fields[i].name])
    ensures WriteEntries(Wire(n), fields, e, d, k).Ok?
    decreases |fields| - k
  {
    hide Carries, Hold, WriteValue, Interned, FieldRefs;
    if k < |fields| {
      EntriesWire(n, fields, e, d, k + 1);
      if Hold(fields[k], e, d).Entry? {
        HoldIs(fields[k], e, d);
        ValueWires(n, fields[k], e.props[fields[k].name]);
      }
    }
  }

  lemma HoldIs(f: Field, e: Element, d: Derivation)
    requires Hold(f, e, d).Entry?
    ensures f.name in e.props && Hold(f, e, d).v == e.props[f.name]
  {
    hide IsDefault, Elides, DefaultValue;
  }

  /** Over any table that holds its references, an encodable element is written, whatever it leaves out. */
  lemma ElementWires(tables: Tables, ids: seq<Uuid>, refs: set<Uuid>, e: Element, d: Derivation)
    requires ValidTables(tables) && Encodes(tables, e) && ElementRefs(tables, e) <= refs
    ensures WriteElement(tables, Wire(BuildInterner(ids, refs)), e, d).Ok?
  {
    hide ValidTables, ElementRefs, BuildInterner, WriteEntries, EntriesInterned, PresenceBits, CountEntries, Carries,
      TypeCode, Pack, FieldsOf;
    DocInterned(tables, ids, refs, e);
    FieldCarries(tables, e);
    EntriesWire(BuildInterner(ids, refs), FieldsOf(tables, e.ty), e, d, 0);
    assert KeysKnown(FieldsOf(tables, e.ty), e);
  }

  lemma FieldCarries(tables: Tables, e: Element)
    requires ValidTables(tables) && Encodes(tables, e)
    ensures
      var fields := FieldsOf(tables, e.ty);
      forall i :: 0 <= i < |fields| && fields[i].name in e.props ==> Carries(fields[i], e.props[fields[i].name])
  {
    hide ValidTables, Carries, FieldsOf, FieldNames, NoDup;
    var fields := FieldsOf(tables, e.ty);
    FieldsOfValid(tables, e.ty);
    forall i | 0 <= i < |fields| && fields[i].name in e.props ensures Carries(fields[i], e.props[fields[i].name]) {
      OrdinalOfField(fields, i);
    }
  }

  // ---- patches ---------------------------------------------------------------------

  lemma SliceRefs(items: seq<Value>, from: nat, to: nat)
    requires from <= to <= |items|
    ensures forall u :: u in RefIds(items[from..to]) ==> u in RefIds(items)
  {
    assert items == items[..from] + (items[from..to] + items[to..]);
    RefIdsAppend(items[..from], items[from..to] + items[to..]);
    RefIdsAppend(items[from..to], items[to..]);
  }

  lemma FieldWires(n: Interner, f: Field, b: Option<Value>, t: Option<Value>)
    requires t.Some? ==> Carries(f, t.value) && Interned(n, FieldRefs(f, t.value))
    ensures PlanField(f, b, t).Some? ==> WriteOp(Wire(n), f, PlanField(f, b, t).value).Ok?
  {
    hide WriteValue, WriteTexts, WriteRefs, PlanSplice, RefIds, IndexIn;
    if t.Some? {
      ValueWires(n, f, t.value);
    }
    if b.Some? && b.value.Arr? && t.Some? && t.value.Arr? && IsListKind(f) {
      SpliceWires(n, f, b.value.items, t.value.items);
    }
  }

  lemma SpliceWires(n: Interner, f: Field, ba: seq<Value>, ta: seq<Value>)
    requires IsListKind(f) && Carries(f, Arr(ta)) && Interned(n, FieldRefs(f, Arr(ta)))
    ensures WriteItems(Wire(n), f, PlanSplice(ba, ta).items).Ok?
  {
    hide WriteTexts, WriteRefs, CommonPrefix, CommonSuffix, RefIds, IndexIn, WriteValue;
    var items := PlanSplice(ba, ta).items;
    var from, to := SplicedFrom(ba, ta);
    assert items == ta[from..to];
    assert forall i :: 0 <= i < |items| ==> items[i] == ta[from + i];
    if f.kind.KStrList? {
      TextsIff(items);
    } else {
      SliceRefs(ta, from, to);
      RefsWire(n, items);
    }
  }

  lemma SplicedFrom(ba: seq<Value>, ta: seq<Value>) returns (from: nat, to: nat)
    ensures from <= to <= |ta| && PlanSplice(ba, ta).items == ta[from..to]
  {
    hide CommonPrefix, CommonSuffix;
    from := CommonPrefix(ba, ta, 0);
    to := |ta| - Min(CommonSuffix(ba, ta, 0), Min(|ba|, |ta|) - from);
  }

  lemma {:induction false} OpsWire(n: Interner, fields: seq<Field>, b: Props, e: Element, k: nat)
    requires k <= |fields| && EntriesInterned(n, fields, e)
    requires forall i :: 0 <= i < |fields| && fields[i].name in e.props ==> Carries(fields[i], e.props[fields[i].name])
    ensures WriteOps(Wire(n), fields, PlanOps(fields, b, e.props, k)).Ok?
    decreases |fields| - k
  {
    hide Carries, Interned, FieldRefs, WriteOp, PlanField;
    if k < |fields| {
      OpsWire(n, fields, b, e, k + 1);
      FieldWires(n, fields[k], Get(b, fields[k].name), Get(e.props, fields[k].name));
      var rest := PlanOps(fields, b, e.props, k + 1);
      var op := PlanField(fields[k], Get(b, fields[k].name), Get(e.props, fields[k].name));
      if op.Some? {
        assert ([(k, op.value)] + rest)[1..] == rest;
      }
    }
  }

  lemma PatchWires(tables: Tables, ids: seq<Uuid>, refs: set<Uuid>, b: Element, e: Element)
    requires ValidTables(tables) && Encodes(tables, e) && ElementRefs(tables, e) <= refs
    ensures
      PlanPatch(tables, b, e).Some? ==>
        WritePatch(Wire(BuildInterner(ids, refs)), FieldsOf(tables, e.ty), PlanPatch(tables, b, e).value).Ok?
  {
    hide ValidTables, ElementRefs, BuildInterner, EntriesInterned, Carries, FieldsOf, Encodes, PlanOps, WriteOps,
      Replay;
    DocInterned(tables, ids, refs, e);
    FieldCarries(tables, e);
    OpsWire(BuildInterner(ids, refs), FieldsOf(tables, e.ty), b.props, e, 0);
  }

  // ---- the records -----------------------------------------------------------------

  /** Every element the delta ships is encodable, and the table holds its references. */
  ghost predicate Ships(tables: Tables, refs: set<Uuid>, e: Element) {
    Encodes(tables, e) && ElementRefs(tables, e) <= refs
  }

  lemma ChoiceWires(
      tables: Tables, ids: seq<Uuid>, refs: set<Uuid>, portable: bool, b: Element, e: Element, d: Derivation)
    requires ValidTables(tables) && Ships(tables, refs, e)
    ensures ShipsWhole(tables, Wire(BuildInterner(ids, refs)), portable, b, e, d).Ok?
  {
    hide ValidTables, ElementRefs, BuildInterner, Encodes, PlanPatch, WritePatch, WriteElement;
    ElementWires(tables, ids, refs, e, d);
    PatchWires(tables, ids, refs, b, e);
  }

  lemma {:induction false} TouchedWire(
      tables: Tables, ids: seq<Uuid>, refs: set<Uuid>, portable: bool, base: Doc, result: Doc, k: nat)
    requires ValidTables(tables) && k <= |base|
    requires forall e :: e in Updates(base, result, k) ==> Ships(tables, refs, e)
    ensures PlanTouched(tables, Wire(BuildInterner(ids, refs)), portable, base, result, k).Ok?
    decreases |base| - k
  {
    hide ValidTables, Ships, BuildInterner, ShipsWhole, DerivationFor, At, Ids;
    if k < |base| {
      UpdatesHead(base, result, k);
      TouchedWire(tables, ids, refs, portable, base, result, k + 1);
      if base[k].id in Ids(result) {
        var e := At(result, base[k].id);
        if e != base[k] {
          assert e in Updates(base, result, k);
          ChoiceWires(tables, ids, refs, portable, base[k], e, DerivationFor(result, true, e));
        }
      }
    }
  }

  lemma UpdatesHead(base: Doc, result: Doc, k: nat)
    requires k < |base|
    ensures forall e :: e in Updates(base, result, k + 1) ==> e in Updates(base, result, k)
    ensures Changes(base, result, k) ==> At(result, base[k].id) in Updates(base, result, k)
  {
    hide At;
  }

  /** A record of the plan carries an element the delta ships, and a patch only where one was planned. */
  ghost predicate Sendable(tables: Tables, refs: set<Uuid>, base: Doc, rec: Record) {
    && InBase(base, rec)
    && (!rec.Drop? ==> Ships(tables, refs, rec.e))
    && (rec.Patched? ==> PlanPatch(tables, base[rec.at], rec.e).Some?)
  }

  lemma {:induction false} PlannedSendable(
      tables: Tables, sp: Spelling, refs: set<Uuid>, portable: bool, base: Doc, result: Doc, k: nat)
    requires k <= |base| && PlanTouched(tables, sp, portable, base, result, k).Ok?
    requires forall e :: e in Updates(base, result, k) ==> Ships(tables, refs, e)
    ensures
      forall rec :: rec in PlanTouched(tables, sp, portable, base, result, k).value ==>
        Sendable(tables, refs, base, rec)
    decreases |base| - k
  {
    hide Ships, PlanPatch, WriteElement, WritePatch, DerivationFor, At, Ids;
    if k < |base| {
      UpdatesHead(base, result, k);
      if base[k].id !in Ids(result) || At(result, base[k].id) == base[k] {
        PlannedSendable(tables, sp, refs, portable, base, result, k + 1);
      } else {
        PlannedSendable(tables, sp, refs, portable, base, result, k + 1);
        assert At(result, base[k].id) in Updates(base, result, k);
      }
    }
  }

  lemma RecordWires(
      tables: Tables, ids: seq<Uuid>, refs: set<Uuid>, portable: bool, base: Doc, result: Doc, rec: Record)
    requires ValidTables(tables) && Sendable(tables, refs, base, rec)
    ensures WriteRecord(tables, Wire(BuildInterner(ids, refs)), portable, base, result, rec).Ok?
  {
    hide ValidTables, ElementRefs, BuildInterner, Encodes, PlanPatch, WritePatch, WriteElement, DerivationFor, Identity;
    match rec {
      case Drop(_) =>
      case Whole(_, e) => ElementWires(tables, ids, refs, e, DerivationFor(result, true, e));
      case Patched(at, e) => PatchWires(tables, ids, refs, base[at], e);
      case Made(e) => ElementWires(tables, ids, refs, e, DerivationFor(result, true, e));
    }
  }

  lemma {:induction false} RecordsWire(
      tables: Tables, ids: seq<Uuid>, refs: set<Uuid>, portable: bool, base: Doc, result: Doc, recs: seq<Record>)
    requires ValidTables(tables) && forall rec :: rec in recs ==> Sendable(tables, refs, base, rec)
    ensures forall rec :: rec in recs ==> InBase(base, rec)
    ensures WriteRecords(tables, Wire(BuildInterner(ids, refs)), portable, base, result, recs).Ok?
  {
    hide ValidTables, Ships, BuildInterner, WriteRecord, PlanPatch;
    if recs != [] {
      assert recs[0] in recs;
      RecordWires(tables, ids, refs, portable, base, result, recs[0]);
      RecordsWire(tables, ids, refs, portable, base, result, recs[1..]);
    }
  }

  // ---- the whole diff --------------------------------------------------------------

  ghost predicate AllEncode(tables: Tables, doc: Doc) {
    forall e :: e in doc ==> Encodes(tables, e)
  }

  lemma SentShips(tables: Tables, base: Doc, result: Doc)
    requires AllEncode(tables, result)
    ensures
      var created, updates := Created(base, result), Updates(base, result, 0);
      forall e :: e in updates + created ==> Ships(tables, DocRefs(tables, updates + created), e)
  {
    hide Encodes, ElementRefs, Updates;
    var created, updates := Created(base, result), Updates(base, result, 0);
    var sent := updates + created;
    forall e | e in sent ensures Ships(tables, DocRefs(tables, sent), e) {
      var i :| 0 <= i < |sent| && sent[i] == e;
      RefsWithin(tables, sent, i);
      CreatedIn(base, result);
      assert e in updates || e in created;
    }
  }

  lemma CreatedIn(base: Doc, result: Doc)
    ensures forall e :: e in Created(base, result) ==> e in result
  {
    hide Ids;
  }

  /** Over encodable states the body of a delta is always written. */
  lemma BodySucceeds(
      tables: Tables, portable: bool, base: Doc, result: Doc, baseDigest: Uuid, resultDigest: Uuid,
      claims: Pairs, units: Pairs)
    requires ValidTables(tables) && AllEncode(tables, result)
    ensures EncodeBody(tables, portable, base, result, baseDigest, resultDigest, claims, units).Ok?
  {
    hide ValidTables, AllEncode, Created, Updates, DocRefs, BuildInterner, Locals, PlanTouched, WriteRecords,
      DeltaTokens, RecordExceptions, Ships, Sendable;
    var created, updates := Created(base, result), Updates(base, result, 0);
    var ids, refs := Locals(portable, base, created), DocRefs(tables, updates + created);
    SentShips(tables, base, result);
    assert forall e :: e in updates ==> e in updates + created;
    TouchedWire(tables, ids, refs, portable, base, result, 0);
    var touched := PlanTouched(tables, Wire(BuildInterner(ids, refs)), portable, base, result, 0).value;
    PlannedSendable(tables, Wire(BuildInterner(ids, refs)), refs, portable, base, result, 0);
    MadeSendable(tables, refs, base, created);
    RecordsWire(tables, ids, refs, portable, base, result, touched + Makes(created));
  }

  lemma MadeSendable(tables: Tables, refs: set<Uuid>, base: Doc, created: Doc)
    requires forall e :: e in created ==> Ships(tables, refs, e)
    ensures forall rec :: rec in Makes(created) ==> Sendable(tables, refs, base, rec)
  {
    hide Ships;
  }

  lemma DigestSucceeds(hash: Hash, tables: Tables, doc: Doc)
    requires ValidTables(tables) && OwnersAreRefs(tables) && DocFits(doc) && DistinctIds(doc)
    ensures Digest(hash, tables, doc).Ok? <==> AllEncode(tables, doc)
  {
    hide ValidTables, OwnersAreRefs, DocFits, Encode, Encodes, EncAll, DistinctIds;
    EncodesIff(tables, doc, [], false, DIGEST_SCHEME);
    assert AllEncode(tables, doc) <==> forall i :: 0 <= i < |doc| ==> Encodes(tables, doc[i]);
  }

  lemma SameEncode(tables: Tables, a: Doc, b: Doc)
    requires SameElements(a, b)
    ensures AllEncode(tables, a) <==> AllEncode(tables, b)
    ensures DocFits(a) <==> DocFits(b)
  {
    hide Encodes, ElementFits, SameElements;
    SameMembers(a, b);
  }

  lemma SameMembers(a: Doc, b: Doc)
    requires SameElements(a, b)
    ensures forall e :: e in a <==> e in b
  {
    hide At;
    forall e ensures e in a <==> e in b {
      MemberAt(a, e);
      MemberAt(b, e);
    }
  }

  lemma MemberAt(doc: Doc, e: Element)
    requires DistinctIds(doc)
    ensures e in doc <==> e.id in Ids(doc) && At(doc, e.id) == e
  {
    if e in doc {
      var i :| 0 <= i < |doc| && doc[i] == e;
      AtPosition(doc, i);
    }
  }

  /** A diff is refused exactly where one of the states is, or its claims or units are. */
  lemma DiffSucceeds(hash: Hash, tables: Tables, base0: Doc, target0: Doc, opts: Options)
    requires ValidTables(tables) && OwnersAreRefs(tables)
    requires DistinctIds(base0) && DistinctIds(target0) && DocFits(base0) && DocFits(target0)
    ensures
      EncodeDelta(hash, tables, base0, target0, opts).Ok?
      <==> && AllEncode(tables, base0) && AllEncode(tables, target0)
           && Extras(target0, AppliedOrder(Canonical(base0), Canonical(target0)), opts).Ok?
  {
    hide ValidTables, OwnersAreRefs, DocFits, AllEncode, Canonical, AppliedOrder, Digest, EncodeBody, Extras,
      DistinctIds, SameElements;
    var base, target := Canonical(base0), Canonical(target0);
    var result := AppliedOrder(base, target);
    CanonDocSame(base0);
    CanonDocSame(target0);
    AppliedOrderSame(base, target);
    SameEncode(tables, base0, base);
    SameEncode(tables, target0, target);
    SameEncode(tables, target, result);
    DigestSucceeds(hash, tables, base);
    DigestSucceeds(hash, tables, result);
    var extras := Extras(target0, result, opts);
    if AllEncode(tables, base0) && AllEncode(tables, target0) && extras.Ok? {
      BodySucceeds(tables, opts.portable, base, result, Digest(hash, tables, base).value,
        Digest(hash, tables, result).value, extras.value.0, extras.value.1);
    }
  }
}
