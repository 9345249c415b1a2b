/** The streamed encodings: what they write is what the whole-array encoder and digest write. */
module StreamWrite {
  import opened Wrappers
  import opened Seqs
  import opened Flat
  import opened Cbor
  import opened Model
  import opened Owners
  import opened Values
  import opened Records
  import opened Sections
  import opened Snapshot
  import opened Order
  import opened Preorder
  import opened CanonDoc
  import opened Index
  import opened TransitionCommutes
  import opened Transcode
  import opened Stream

  // ---- every identity a record names is interned -----------------------------------

  lemma ElementNames(tables: Tables, e: Element, k: nat, u: Uuid)
    requires ValidTables(tables)
    requires
      var fields := FieldsOf(tables, e.ty);
      k < |fields| && fields[k].name in e.props && u in FieldRefs(fields[k], e.props[fields[k].name])
    ensures u in ElementRefs(tables, e)
  {
    hide ValidTables, FieldRefs, FieldsOf, Ordinal;
    var fields := FieldsOf(tables, e.ty);
    FieldsOfValid(tables, e.ty);
    NamesDistinct(fields);
    OrdinalOfField(fields, k);
    assert HasField(fields, fields[k].name);
  }

  lemma BuiltInterns(ids: seq<Uuid>, refs: set<Uuid>, u: Uuid)
    requires u in refs
    ensures IndexIn(BuildInterner(ids, refs), u).Ok?
  {
  }

  lemma DocInterned(tables: Tables, ids: seq<Uuid>, refs: set<Uuid>, e: Element)
    requires ValidTables(tables) && ElementRefs(tables, e) <= refs
    ensures EntriesInterned(BuildInterner(ids, refs), FieldsOf(tables, e.ty), e)
  {
    hide ValidTables, FieldRefs, FieldsOf, ElementRefs, BuildInterner, IndexIn;
    var fields, n := FieldsOf(tables, e.ty), BuildInterner(ids, refs);
    forall k, u | 0 <= k < |fields| && fields[k].name in e.props && u in FieldRefs(fields[k], e.props[fields[k].name])
      ensures IndexIn(n, u).Ok?
    {
      ElementNames(tables, e, k, u);
      BuiltInterns(ids, refs, u);
    }
  }

  ghost predicate DocFits(doc: Doc) {
    forall e :: e in doc ==> ElementFits(e)
  }

  lemma LeavesRefs(tables: Tables, e: Element, d: Derivation)
    requires OwnersAreRefs(tables)
    ensures
      var fields := FieldsOf(tables, e.ty);
      forall k :: 0 <= k < |fields| && LeavesOut(fields[k], e, d) ==> fields[k].kind.KRef?
  {
    var fields := FieldsOf(tables, e.ty);
    forall k | 0 <= k < |fields| && LeavesOut(fields[k], e, d) ensures fields[k].kind.KRef? {
      assert fields[k] in fields && tables[TypeCode(tables, e.ty)] in tables;
    }
  }

  /** A record is writable raw exactly when it is writable respelled. */
  lemma WritableAlike(tables: Tables, ids: seq<Uuid>, refs: set<Uuid>, e: Element, d: Derivation)
    requires ValidTables(tables) && OwnersAreRefs(tables) && ElementFits(e) && ElementRefs(tables, e) <= refs
    ensures
      var n := BuildInterner(ids, refs);
      && (WriteElement(tables, Raw, e, Spelled).Ok? <==> WriteElement(tables, Wire(n), e, d).Ok?)
      && (WriteElement(tables, Raw, e, Spelled).Ok? ==>
            TranscodeRecord(
              tables, n, WriteElement(tables, Raw, e, Spelled).value, MaskFor(FieldsOf(tables, e.ty), e, d))
            == WriteElement(tables, Wire(n), e, d))
  {
    hide ValidTables, OwnersAreRefs, ElementFits, ElementRefs, BuildInterner, WriteEntries, TranscodeRecord, MaskFor,
      EntriesInterned, PresenceBits, CountEntries, KeysKnown, TypeCode, LeavesOut;
    var n := BuildInterner(ids, refs);
    DocInterned(tables, ids, refs, e);
    if WriteElement(tables, Raw, e, Spelled).Ok? {
      RecordTranscodes(tables, n, e, d);
    }
    if WriteElement(tables, Wire(n), e, d).Ok? {
      LeavesRefs(tables, e, d);
      EntriesWritable(n, FieldsOf(tables, e.ty), e, d, 0);
    }
  }

  lemma RefsWithin(tables: Tables, doc: Doc, i: nat)
    requires i < |doc|
    ensures ElementRefs(tables, doc[i]) <= DocRefs(tables, doc)
  {
    hide ElementRefs;
    assert doc[i] in doc;
  }

  lemma {:induction false} ElementsWritable(tables: Tables, sp: Spelling, doc: Doc, implied: bool, k: nat)
    requires k <= |doc|
    requires forall i :: 0 <= i < |doc| ==> WriteElement(tables, sp, doc[i], DerivationFor(doc, implied, doc[i])).Ok?
    ensures WriteElements(tables, sp, doc, implied, k).Ok?
    decreases |doc| - k
  {
    hide WriteElement, DerivationFor;
    if k < |doc| {
      ElementsWritable(tables, sp, doc, implied, k + 1);
    }
  }

  /** The streaming reader refuses exactly what the whole-array encoder refuses of the elements. */
  lemma DocWritable(tables: Tables, doc: Doc, implied: bool)
    requires ValidTables(tables) && OwnersAreRefs(tables) && DocFits(doc)
    ensures
      RawWritable(tables, doc)
      <==> WriteElements(tables, Wire(BuildInterner(Ids(doc), DocRefs(tables, doc))), doc, implied, 0).Ok?
  {
    hide ValidTables, OwnersAreRefs, ElementFits, ElementRefs, BuildInterner, WriteElement, WriteElements, DocRefs,
      DerivationFor, TranscodeRecord, MaskFor;
    var ids, refs := Ids(doc), DocRefs(tables, doc);
    var sp := Wire(BuildInterner(ids, refs));
    forall i | 0 <= i < |doc|
      ensures
        WriteElement(tables, Raw, doc[i], Spelled).Ok?
        <==> WriteElement(tables, sp, doc[i], DerivationFor(doc, implied, doc[i])).Ok?
    {
      RefsWithin(tables, doc, i);
      WritableAlike(tables, ids, refs, doc[i], DerivationFor(doc, implied, doc[i]));
    }
    if RawWritable(tables, doc) {
      ElementsWritable(tables, sp, doc, implied, 0);
    }
    if WriteElements(tables, sp, doc, implied, 0).Ok? {
      forall i | 0 <= i < |doc| ensures WriteElement(tables, Raw, doc[i], Spelled).Ok? {
        ElementsWritten(tables, sp, doc, implied, 0, i);
      }
    }
  }

  // ---- owners over the flat lists --------------------------------------------------

  lemma {:induction false} LocatedMember(doc: Doc, us: seq<Uuid>, j: nat)
    requires DistinctIds(doc) && j < |doc|
    ensures j in Located(Ids(doc), us) <==> doc[j].id in us
  {
    if us != [] {
      LocatedMember(doc, us[1..], j);
      assert Ids(doc)[j] == doc[j].id;
      IndexOfNoDup(Ids(doc), j);
    }
  }

  /** One flat list claims what nothing before it claimed. */
  method ClaimPositions(ghost doc: Doc, positions: seq<nat>, i: nat, ghost slot: nat, owners: OwnerTable)
    requires DistinctIds(doc) && i < |doc| && Derived(doc, slot, owners, i)
    requires positions == Located(Ids(doc), ListIds(doc[i], ForwardProp(slot)))
    modifies owners
    ensures Derived(doc, slot, owners, i + 1)
  {
    hide ClaimantFrom, ListIds, Located;
    ghost var before := owners[..];
    for k := 0 to |positions|
      invariant owners.Length == |doc|
      invariant forall j :: 0 <= j < |doc| ==>
        owners[j] == if before[j].None? && j in positions[..k] then Some(i) else before[j]
    {
      assert positions[..k + 1] == positions[..k] + [positions[k]];
      assert positions[k] in positions;
      var j := positions[k];
      if owners[j].None? {
        owners[j] := Some(i);
      }
    }
    assert positions[..|positions|] == positions;
    forall j | 0 <= j < |doc|
      ensures owners[j] == ClaimantFrom(doc[..i + 1], slot, doc[j].id, 0)
    {
      LocatedMember(doc, ListIds(doc[i], ForwardProp(slot)), j);
      ClaimantExtends(doc, slot, doc[j].id, i, 0);
    }
  }

  /** Each element's first claimant per slot, from the flat lists: the encoder's derivation. */
  method DerivedOwners(r: ElementRecords, ghost tables: Tables, ghost doc: Doc)
    returns (owning: OwnerTable, related: OwnerTable)
    requires Reads(tables, doc, r)
    ensures owning.Length == |doc| && related.Length == |doc|
    ensures forall j :: 0 <= j < |doc| ==> owning[j] == ClaimantFrom(doc, 0, doc[j].id, 0)
    ensures forall j :: 0 <= j < |doc| ==> related[j] == ClaimantFrom(doc, 1, doc[j].id, 0)
    ensures forall j :: 0 <= j < |doc| ==> FirstToName(doc, OwnedRelatedElement, doc[j].id, owning[j])
    ensures forall j :: 0 <= j < |doc| ==> FirstToName(doc, OwnedRelationship, doc[j].id, related[j])
  {
    hide Reads, ListIds, Located, FirstToName, ClaimantFrom;
    ReadsSizes(tables, doc, r);
    owning := new Option<nat>[|r.ids|](_ => None);
    related := new Option<nat>[|r.ids|](_ => None);
    for i := 0 to |r.ids|
      invariant Derived(doc, 0, owning, i) && Derived(doc, 1, related, i)
    {
      OwnedIs(tables, doc, r, i, 0);
      OwnedIs(tables, doc, r, i, 1);
      ClaimPositions(doc, Owns(r, i, 1), i, 0, owning);
      ClaimPositions(doc, Owns(r, i, 0), i, 1, related);
    }
    AllDerived(doc, 0, owning);
    AllDerived(doc, 1, related);
    forall j | 0 <= j < |doc|
      ensures FirstToName(doc, OwnedRelatedElement, doc[j].id, owning[j])
      ensures FirstToName(doc, OwnedRelationship, doc[j].id, related[j])
    {
      SlotsByName(doc, doc[j].id);
    }
  }

  lemma ReadsSizes(tables: Tables, doc: Doc, r: ElementRecords)
    requires Reads(tables, doc, r)
    ensures DistinctIds(doc) && r.ids == Ids(doc) && |r.rows| == |doc| && RawWritable(tables, doc)
    ensures r.ext == BuildInterner(Ids(doc), DocRefs(tables, doc)).ext
    ensures forall i :: 0 <= i < |doc| ==> r.rows[i] == RowOf(tables, doc[i])
  {
    hide WriteElement, Flatten, RowOf, BuildInterner, DocRefs, Located;
  }

  // ---- elision ---------------------------------------------------------------------

  /** What one backpointer's field contributes to the masks. */
  function ElideSlot(fields: seq<Field>, ids: seq<Uuid>, key: Prop, spelled: OwnerSpelling, owner: Option<nat>)
    : Omissions
  {
    var ord := Ordinal(fields, key);
    if ord == |fields| then NONE_ELIDED
    else
      match (owner, spelled)
      case (None, NullOwner) => Omissions({ord}, {})
      case (Some(j), IdOwner(u)) => if j < |ids| && ids[j] == u then Omissions({}, {ord}) else NONE_ELIDED
      case _ => NONE_ELIDED
  }

  function Join(a: Omissions, b: Omissions): Omissions {
    Omissions(a.bits + b.bits, a.entries + b.entries)
  }

  /** The backpointers a record leaves out: those that spell their derivation. */
  function Elision(r: ElementRecords, row: Row, owning: Option<nat>, related: Option<nat>): Omissions {
    Join(ElideSlot(row.fields, r.ids, OwningRelationship, row.owning, owning),
      ElideSlot(row.fields, r.ids, OwningRelatedElement, row.related, related))
  }

  /** One slot's masks: its field's ordinal, where the spelling is the derivation's. */
  lemma SlotMask(fields: seq<Field>, doc: Doc, e: Element, key: Prop, slot: nat, k: nat)
    requires NoDup(FieldNames(fields)) && k < |fields| && DistinctIds(doc)
    requires fields[k].name == key ==> fields[k].kind.KRef?
    ensures
      var owner := ClaimantFrom(doc, slot, e.id, 0);
      var m := ElideSlot(fields, Ids(doc), key, SpellingOf(e, key), owner);
      var left := fields[k].name == key && key in e.props && Matches(DerivedOwner(doc, slot, e.id), e.props[key]);
      && (k in m.bits <==> left && Hold(fields[k], e, Spelled).Presence?)
      && (k in m.entries <==> left && Hold(fields[k], e, Spelled).Entry?)
  {
    hide ClaimantFrom, Ordinal, FieldNames;
    OrdinalOfField(fields, k);
    OrdinalHolds(fields, key);
  }

  lemma OrdinalHolds(fields: seq<Field>, key: Prop)
    ensures Ordinal(fields, key) < |fields| ==> fields[Ordinal(fields, key)].name == key
  {
  }

  /** The computed masks are exactly those of the derivation. */
  lemma ElisionIsMask(tables: Tables, doc: Doc, r: ElementRecords, e: Element)
    requires ValidTables(tables) && OwnersAreRefs(tables) && DistinctIds(doc) && r.ids == Ids(doc)
    ensures
      Elision(r, RowOf(tables, e), ClaimantFrom(doc, 0, e.id, 0), ClaimantFrom(doc, 1, e.id, 0))
      == MaskFor(FieldsOf(tables, e.ty), e, DerivationFor(doc, true, e))
  {
    hide ValidTables, OwnersAreRefs, ClaimantFrom, DerivedOwner, FieldsOf, AbsentBits, ElideSlot, Hold, Matches, NoDup,
      DistinctIds;
    var fields := FieldsOf(tables, e.ty);
    FieldsOfValid(tables, e.ty);
    NamesDistinct(fields);
    var m := Elision(r, RowOf(tables, e), ClaimantFrom(doc, 0, e.id, 0), ClaimantFrom(doc, 1, e.id, 0));
    var w := MaskFor(fields, e, DerivationFor(doc, true, e));
    forall k: nat | k < |fields|
      ensures (k in m.bits <==> k in w.bits) && (k in m.entries <==> k in w.entries)
    {
      OwnerKinds(tables, e, k);
      SlotMask(fields, doc, e, OwningRelationship, 0, k);
      SlotMask(fields, doc, e, OwningRelatedElement, 1, k);
    }
    ElisionBound(fields, r.ids, OwningRelationship, SpellingOf(e, OwningRelationship), ClaimantFrom(doc, 0, e.id, 0));
    ElisionBound(
      fields, r.ids, OwningRelatedElement, SpellingOf(e, OwningRelatedElement), ClaimantFrom(doc, 1, e.id, 0));
    assert m.bits == w.bits && m.entries == w.entries;
  }

  lemma ElisionBound(fields: seq<Field>, ids: seq<Uuid>, key: Prop, spelled: OwnerSpelling, owner: Option<nat>)
    ensures forall k :: k in ElideSlot(fields, ids, key, spelled, owner).bits ==> k < |fields|
    ensures forall k :: k in ElideSlot(fields, ids, key, spelled, owner).entries ==> k < |fields|
  {
  }

  lemma OwnerKinds(tables: Tables, e: Element, k: nat)
    requires OwnersAreRefs(tables) && k < |FieldsOf(tables, e.ty)|
    ensures
      var f := FieldsOf(tables, e.ty)[k];
      f.name == OwningRelationship || f.name == OwningRelatedElement ==> f.kind.KRef?
  {
    var fields := FieldsOf(tables, e.ty);
    assert fields[k] in fields && tables[TypeCode(tables, e.ty)] in tables;
  }

  // ---- writing ---------------------------------------------------------------------

  /** The identities' wire indices, as the records hold them. */
  function WireIndex(r: ElementRecords): Interner {
    Interner(map u | u in Elems(r.ids) :: IndexOf(r.ids, u), r.ext)
  }

  lemma IndexIsInterner(tables: Tables, doc: Doc, r: ElementRecords)
    requires Reads(tables, doc, r)
    ensures WireIndex(r) == BuildInterner(Ids(doc), DocRefs(tables, doc))
  {
    hide WriteElement, Flatten, RowOf, DocRefs, Located;
  }

  lemma ElementsFrom(tables: Tables, sp: Spelling, doc: Doc, implied: bool, i: nat)
    requires i < |doc| && WriteElements(tables, sp, doc, implied, i).Ok?
    ensures WriteElement(tables, sp, doc[i], DerivationFor(doc, implied, doc[i])).Ok?
    ensures WriteElements(tables, sp, doc, implied, i + 1).Ok?
    ensures
      WriteElements(tables, sp, doc, implied, i).value
      == WriteElement(tables, sp, doc[i], DerivationFor(doc, implied, doc[i])).value
         + WriteElements(tables, sp, doc, implied, i + 1).value
  {
    hide WriteElement, DerivationFor;
  }

  lemma ElementsEnd(tables: Tables, sp: Spelling, doc: Doc, implied: bool, w: Toks)
    ensures WriteElements(tables, sp, doc, implied, |doc|) == Ok([]) && w + [] == w
  {
  }

  /** One record, respelled under its masks, is what the whole-array encoder writes of the element. */
  lemma RecordStreams(tables: Tables, doc: Doc, r: ElementRecords, i: nat)
    requires ValidTables(tables) && OwnersAreRefs(tables) && DocFits(doc) && Reads(tables, doc, r) && i < |doc|
    requires |r.rows| == |doc|
    ensures
      var e := doc[i];
      TranscodeRecord(tables, WireIndex(r), RecordTokens(r, i),
        Elision(r, r.rows[i], ClaimantFrom(doc, 0, e.id, 0), ClaimantFrom(doc, 1, e.id, 0)))
      == WriteElement(tables, Wire(WireIndex(r)), e, DerivationFor(doc, true, e))
  {
    hide ValidTables, OwnersAreRefs, ElementFits, ElementRefs, BuildInterner, WriteElement, DocRefs, DerivationFor,
      TranscodeRecord, MaskFor, Reads, RecordTokens, Elision, ClaimantFrom, DistinctIds;
    var e := doc[i];
    RecordIs(tables, doc, r, i);
    ReadsSizes(tables, doc, r);
    IndexIsInterner(tables, doc, r);
    ElisionIsMask(tables, doc, r, e);
    RefsWithin(tables, doc, i);
    assert e in doc;
    WritableAlike(tables, Ids(doc), DocRefs(tables, doc), e, DerivationFor(doc, true, e));
  }

  /** Everything the writing loop relies on. */
  ghost predicate Streaming(tables: Tables, doc: Doc, r: ElementRecords) {
    && ValidTables(tables) && OwnersAreRefs(tables) && DocFits(doc) && Reads(tables, doc, r)
    && |r.ids| == |r.rows| == |doc|
  }

  /** What is still to be written from element `i`. */
  ghost predicate StillToWrite(tables: Tables, doc: Doc, r: ElementRecords, i: nat, left: Toks) {
    i <= |doc| && WriteElements(tables, Wire(WireIndex(r)), doc, true, i) == Ok(left)
  }

  /** One turn of the writing loop: the record respelled is the next to be written. */
  method StreamRecord(
      tables: Tables, r: ElementRecords, i: nat, owning: Option<nat>, related: Option<nat>, ghost doc: Doc,
      ghost left: Toks) returns (record: Toks, ghost next: Toks)
    requires Streaming(tables, doc, r) && i < |doc| && |r.rows| == |doc|
    requires owning == ClaimantFrom(doc, 0, doc[i].id, 0) && related == ClaimantFrom(doc, 1, doc[i].id, 0)
    requires StillToWrite(tables, doc, r, i, left)
    ensures left == record + next && StillToWrite(tables, doc, r, i + 1, next)
  {
    hide ValidTables, OwnersAreRefs, DocFits, WriteElement, WriteElements, DerivationFor, TranscodeRecord, Reads,
      RecordTokens, Elision, WireIndex, ClaimantFrom;
    RecordStreams(tables, doc, r, i);
    ElementsFrom(tables, Wire(WireIndex(r)), doc, true, i);
    record := TranscodeRecord(tables, WireIndex(r), RecordTokens(r, i), Elision(r, r.rows[i], owning, related)).value;
    next := WriteElements(tables, Wire(WireIndex(r)), doc, true, i + 1).value;
  }

  /** The writing loop, over the derived owners. */
  method StreamLoop(
      tables: Tables, r: ElementRecords, owning: seq<Option<nat>>, related: seq<Option<nat>>, ghost doc: Doc)
    returns (out: Toks)
    requires Streaming(tables, doc, r) && |r.ids| == |doc| == |owning| == |related|
    requires forall j :: 0 <= j < |doc| ==> owning[j] == ClaimantFrom(doc, 0, doc[j].id, 0)
    requires forall j :: 0 <= j < |doc| ==> related[j] == ClaimantFrom(doc, 1, doc[j].id, 0)
    requires WriteElements(tables, Wire(WireIndex(r)), doc, true, 0).Ok?
    ensures WriteElements(tables, Wire(WireIndex(r)), doc, true, 0) == Ok(out)
  {
    hide Streaming, WriteElements, WireIndex, ClaimantFrom, StillToWrite;
    out := [];
    ghost var left := StreamStarts(tables, doc, r);
    ghost var all := left;
    for i := 0 to |r.ids|
      invariant StillToWrite(tables, doc, r, i, left)
      invariant all == out + left
    {
      SizesOf(tables, doc, r);
      var record, next := StreamRecord(tables, r, i, owning[i], related[i], doc, left);
      out := out + record;
      left := next;
    }
    StreamEnds(tables, doc, r, left);
    assert out + [] == out;
  }

  lemma SizesOf(tables: Tables, doc: Doc, r: ElementRecords)
    requires Streaming(tables, doc, r)
    ensures |r.rows| == |doc|
  {
  }

  lemma StreamStarts(tables: Tables, doc: Doc, r: ElementRecords) returns (left: Toks)
    requires WriteElements(tables, Wire(WireIndex(r)), doc, true, 0).Ok?
    ensures StillToWrite(tables, doc, r, 0, left) && [] + left == left
    ensures WriteElements(tables, Wire(WireIndex(r)), doc, true, 0) == Ok(left)
  {
    hide WriteElements, WireIndex;
    left := WriteElements(tables, Wire(WireIndex(r)), doc, true, 0).value;
  }

  lemma StreamEnds(tables: Tables, doc: Doc, r: ElementRecords, left: Toks)
    requires StillToWrite(tables, doc, r, |doc|, left)
    ensures left == []
  {
    hide WireIndex;
  }

  /** The element records, respelled in array order. */
  method StreamElements(tables: Tables, r: ElementRecords, ghost doc: Doc) returns (out: Toks)
    requires ValidTables(tables) && OwnersAreRefs(tables) && DocFits(doc) && Reads(tables, doc, r)
    ensures WriteElements(tables, Wire(BuildInterner(Ids(doc), DocRefs(tables, doc))), doc, true, 0) == Ok(out)
  {
    hide ValidTables, OwnersAreRefs, DocFits, BuildInterner, WriteElements, DocRefs, Reads, WireIndex, RawWritable,
      DistinctIds, ClaimantFrom;
    ReadsSizes(tables, doc, r);
    DocWritable(tables, doc, true);
    IndexIsInterner(tables, doc, r);
    var owning, related := DerivedOwners(r, tables, doc);
    out := StreamLoop(tables, r, owning[..], related[..], doc);
  }

  lemma ExceptionsFrom(tables: Tables, doc: Doc, i: nat)
    requires i < |doc|
    ensures
      var bits := AbsentBits(FieldsOf(tables, doc[i].ty), doc[i]);
      Exceptions(tables, doc, i)
      == (if bits == 0 then [] else [(i, Uint(bits))]) + Exceptions(tables, doc, i + 1)
  {
    hide AbsentBits, FieldsOf;
  }

  lemma ExceptionsEnd(tables: Tables, doc: Doc)
    ensures Exceptions(tables, doc, |doc|) == []
  {
  }

  /** The rows with bits, by position. */
  method RowExceptions(tables: Tables, r: ElementRecords, ghost doc: Doc) returns (pairs: Pairs)
    requires Reads(tables, doc, r)
    ensures pairs == Exceptions(tables, doc, 0)
  {
    hide Reads, AbsentBits, RawWritable, DistinctIds, Exceptions, BuildInterner, DocRefs;
    ReadsSizes(tables, doc, r);
    pairs := [];
    ExceptionsEnd(tables, doc);
    for i := 0 to |r.rows|
      invariant Exceptions(tables, doc, 0) == pairs + Exceptions(tables, doc, i)
    {
      ExceptionsFrom(tables, doc, i);
      if r.rows[i].absentBits != 0 {
        pairs := pairs + [(i, Uint(r.rows[i].absentBits))];
      }
    }
  }

  /** The compact encoding of the records read. */
  method StreamedCbor(tables: Tables, r: ElementRecords, units: Pairs, ghost doc: Doc) returns (out: Result<Toks>)
    requires ValidTables(tables) && OwnersAreRefs(tables) && DocFits(doc) && Reads(tables, doc, r)
    ensures out == Encode(tables, doc, units, true, ID_SCHEME)
  {
    hide ValidTables, OwnersAreRefs, DocFits, WriteElements, DocRefs, Reads, RawWritable, WriteIds, WritePairs,
      Exceptions, HeaderWord, FlagByte, BuildInterner;
    ReadsSizes(tables, doc, r);
    if !ValidUnits(units, |r.ids|) {
      return Err(Malformed);
    }
    var elements := StreamElements(tables, r, doc);
    var exceptions := RowExceptions(tables, r, doc);
    var flags := FlagByte(false, false, units != [], true);
    var w := [Array(5 + (if units != [] then 1 else 0)), Uint(HeaderWord(flags, ID_SCHEME))];
    w := w + ([Array(|r.ext|)] + WriteIds(r.ext));
    w := w + ([Array(|r.ids|)] + WriteIds(r.ids));
    w := w + ([Array(|r.ids|)] + elements);
    w := w + WritePairs(exceptions);
    w := w + (if units != [] then WritePairs(units) else []);
    out := Ok(w);
  }

  /**
    The one-pass streamed encoder is the whole-array encoder: the same tokens, hence the
    same bytes, on every document either accepts, and they accept the same ones.
   */
  method StreamedIsEncoded(tables: Tables, doc: Doc, units: Pairs) returns (out: Result<Toks>)
    requires ValidTables(tables) && OwnersAreRefs(tables) && DocFits(doc)
    ensures out.Ok? <==> Encode(tables, doc, units, true, ID_SCHEME).Ok?
    ensures out.Ok? ==> out == Encode(tables, doc, units, true, ID_SCHEME)
  {
    hide ValidTables, OwnersAreRefs, DocFits, WriteElements, DocRefs, Reads, RawWritable, SnapshotTokens, BuildInterner;
    var r := Read(tables, doc);
    DocWritable(tables, doc, true);
    if r.Err? {
      return Err(Malformed);
    }
    out := StreamedCbor(tables, r.value, units, doc);
  }

  // ---- the streamed digest ---------------------------------------------------------

  /** The positions a flat list's targets name; the filter the digest applies as it walks. */
  method SlotLists(ids: seq<Uuid>, index: map<Uuid, nat>, targets: seq<Uuid>, ends: seq<nat>, slot: nat, ghost doc: Doc)
    returns (lists: Lists)
    requires slot < 2 && ids == Ids(doc) && index == map u | u in Elems(ids) :: IndexOf(ids, u)
    requires targets == Flatten(TargetLists(doc)) && EndsOf(ends, TargetLists(doc))
    ensures |lists| == |doc|
    ensures forall i :: 0 <= i < |doc| ==> lists[i] == Located(Ids(doc), ListIds(doc[i], OwnedKey(slot)))
  {
    hide Located, Flatten, EndOf, ListIds;
    ghost var from := TargetLists(doc);
    lists := [];
    for i := 0 to |ids|
      invariant |lists| == i
      invariant forall k :: 0 <= k < i ==> lists[k] == Located(Ids(doc), ListIds(doc[k], OwnedKey(slot)))
    {
      var l := 2 * i + slot;
      assert l / 2 == i && l % 2 == slot;
      CutAt(from, l);
      if l > 0 {
        CutAt(from, l - 1);
      } else {
        NoneBefore(from);
      }
      var start := if l == 0 then 0 else ends[l - 1];
      var list := KeepLocal(ids, index, targets[start..ends[l]], []);
      assert [] + Located(ids, targets[start..ends[l]]) == Located(ids, targets[start..ends[l]]);
      lists := lists + [list];
    }
  }

  /** The walk over the flat lists is the document's canonical order. */
  method StreamedOrder(ids: seq<Uuid>, index: map<Uuid, nat>, targets: seq<Uuid>, ends: seq<nat>, ghost doc: Doc)
    returns (order: seq<nat>)
    requires DistinctIds(doc) && ids == Ids(doc) && index == map u | u in Elems(ids) :: IndexOf(ids, u)
    requires targets == Flatten(TargetLists(doc)) && EndsOf(ends, TargetLists(doc))
    ensures |order| == |doc| && NamesAt(doc, order, CanonIds(doc))
  {
    hide Located, Flatten, EndOf, ListIds, Canon, GraphOf, PositionGraph, CanonIds, Targets, Renames, Arranges, NamesAt;
    var rels := SlotLists(ids, index, targets, ends, 0, doc);
    var kids := SlotLists(ids, index, targets, ends, 1, doc);
    LocatedTargets(doc, kids, OwnedRelatedElement);
    LocatedTargets(doc, rels, OwnedRelationship);
    order := OwnershipPreorder(|ids|, kids, rels);
    PositionsRename(doc, kids, rels);
    NamedOrder(doc, kids, rels, order);
  }

  lemma LocatedTargets(doc: Doc, lists: Lists, key: Prop)
    requires |lists| == |doc|
    requires forall i :: 0 <= i < |doc| ==> lists[i] == Located(Ids(doc), ListIds(doc[i], key))
    ensures forall i :: 0 <= i < |doc| ==> NamesAt(doc, lists[i], Targets(doc, doc[i], key))
    ensures forall i, t :: 0 <= i < |doc| && t in lists[i] ==> t < |doc|
  {
    hide Located, ListIds, NamesAt;
    forall i | 0 <= i < |doc| ensures NamesAt(doc, lists[i], Targets(doc, doc[i], key)) {
      LocatedNamed(doc, ListIds(doc[i], key));
    }
  }

  /** The canonical records, respelled with no backpointer left out. */
  method DigestRecords(
      tables: Tables, index: Interner, records: Toks, starts: seq<nat>, order: seq<nat>, ghost doc: Doc,
      ghost canon: Doc)
    returns (out: Toks)
    requires ValidTables(tables) && OwnersAreRefs(tables) && DocFits(doc) && RawWritable(tables, doc)
    requires records == Flatten(RawRecords(tables, doc)) && |starts| == |doc| + 1
    requires forall i :: 0 <= i <= |doc| ==> starts[i] == StartOf(RawRecords(tables, doc), i)
    requires |order| == |canon| == |doc|
    requires forall k :: 0 <= k < |canon| ==> order[k] < |doc| && canon[k] == doc[order[k]]
    requires index == BuildInterner(Ids(canon), DocRefs(tables, doc))
    ensures WriteElements(tables, Wire(index), canon, false, 0) == Ok(out)
  {
    hide ValidTables, OwnersAreRefs, DocFits, RawWritable, RawRecords, Flatten, StartOf, WriteElements, BuildInterner,
      DocRefs, TranscodeRecord, Ids, WriteElement;
    out := [];
    ghost var left := DigestStarts(tables, index, doc, canon, order);
    ghost var all := left;
    for k := 0 to |order|
      invariant WriteElements(tables, Wire(index), canon, false, k) == Ok(left)
      invariant all == out + left
    {
      ghost var next := DigestStep(tables, index, records, starts, order, doc, canon, k, left);
      var record := TranscodeRecord(tables, index, records[starts[order[k]]..starts[order[k] + 1]], NONE_ELIDED);
      out := out + record.value;
      left := next;
    }
    ElementsEnd(tables, Wire(index), canon, false, out);
  }

  lemma DigestWritable(tables: Tables, index: Interner, doc: Doc, canon: Doc, order: seq<nat>, k: nat)
    requires ValidTables(tables) && OwnersAreRefs(tables) && DocFits(doc) && RawWritable(tables, doc)
    requires |order| == |canon| == |doc|
    requires forall k :: 0 <= k < |canon| ==> order[k] < |doc| && canon[k] == doc[order[k]]
    requires index == BuildInterner(Ids(canon), DocRefs(tables, doc)) && k < |canon|
    ensures WriteElement(tables, Raw, canon[k], Spelled).Ok?
    ensures
      TranscodeRecord(tables, index, WriteElement(tables, Raw, canon[k], Spelled).value, NONE_ELIDED)
      == WriteElement(tables, Wire(index), canon[k], Spelled)
    ensures WriteElement(tables, Wire(index), canon[k], Spelled).Ok?
  {
    hide ValidTables, OwnersAreRefs, ElementFits, BuildInterner, DocRefs, TranscodeRecord, WriteElement, ElementRefs,
      MaskFor;
    var e := canon[k];
    RefsWithin(tables, doc, order[k]);
    assert e in doc;
    WritableAlike(tables, Ids(canon), DocRefs(tables, doc), e, Spelled);
    SpelledHolds(FieldsOf(tables, e.ty), e);
  }

  lemma DigestStarts(tables: Tables, index: Interner, doc: Doc, canon: Doc, order: seq<nat>) returns (left: Toks)
    requires ValidTables(tables) && OwnersAreRefs(tables) && DocFits(doc) && RawWritable(tables, doc)
    requires |order| == |canon| == |doc|
    requires forall k :: 0 <= k < |canon| ==> order[k] < |doc| && canon[k] == doc[order[k]]
    requires index == BuildInterner(Ids(canon), DocRefs(tables, doc))
    ensures WriteElements(tables, Wire(index), canon, false, 0) == Ok(left) && [] + left == left
  {
    hide ValidTables, OwnersAreRefs, DocFits, RawWritable, BuildInterner, DocRefs, WriteElements, WriteElement,
      TranscodeRecord;
    forall k | 0 <= k < |canon|
      ensures WriteElement(tables, Wire(index), canon[k], DerivationFor(canon, false, canon[k])).Ok?
    {
      DigestWritable(tables, index, doc, canon, order, k);
    }
    ElementsWritable(tables, Wire(index), canon, false, 0);
    left := WriteElements(tables, Wire(index), canon, false, 0).value;
  }

  /** One record of the digest: cut from the flat records and respelled, it is the next to be written. */
  lemma DigestStep(
      tables: Tables, index: Interner, records: Toks, starts: seq<nat>, order: seq<nat>, doc: Doc, canon: Doc, k: nat,
      left: Toks) returns (next: Toks)
    requires ValidTables(tables) && OwnersAreRefs(tables) && DocFits(doc) && RawWritable(tables, doc)
    requires records == Flatten(RawRecords(tables, doc)) && |starts| == |doc| + 1
    requires forall i :: 0 <= i <= |doc| ==> starts[i] == StartOf(RawRecords(tables, doc), i)
    requires |order| == |canon| == |doc|
    requires forall k :: 0 <= k < |canon| ==> order[k] < |doc| && canon[k] == doc[order[k]]
    requires index == BuildInterner(Ids(canon), DocRefs(tables, doc)) && k < |canon|
    requires WriteElements(tables, Wire(index), canon, false, k) == Ok(left)
    ensures starts[order[k]] <= starts[order[k] + 1] <= |records|
    ensures
      var record := TranscodeRecord(tables, index, records[starts[order[k]]..starts[order[k] + 1]], NONE_ELIDED);
      record.Ok? && left == record.value + next
    ensures WriteElements(tables, Wire(index), canon, false, k + 1) == Ok(next)
  {
    hide ValidTables, OwnersAreRefs, DocFits, Flatten, WriteElements, BuildInterner, DocRefs, TranscodeRecord,
      Ids, WriteElement;
    CutAt(RawRecords(tables, doc), order[k]);
    DigestWritable(tables, index, doc, canon, order, k);
    ElementsFrom(tables, Wire(index), canon, false, k);
    next := WriteElements(tables, Wire(index), canon, false, k + 1).value;
  }

  /** The references of a document do not depend on its order. */
  lemma CanonicalRefs(tables: Tables, doc: Doc)
    requires DistinctIds(doc)
    ensures DocRefs(tables, Canonical(doc)) == DocRefs(tables, doc) && Elems(Ids(Canonical(doc))) == Elems(Ids(doc))
  {
    hide Canon, GraphOf, ElementRefs;
    var c := Canonical(doc);
    CanonDocSame(doc);
    forall e ensures e in doc <==> e in c {
      if e in doc {
        var i :| 0 <= i < |doc| && doc[i] == e;
        AtPosition(doc, i);
      }
      if e in c {
        var i :| 0 <= i < |c| && c[i] == e;
        AtPosition(c, i);
      }
    }
  }

  /** The walked positions spell the canonical document. */
  lemma OrderedDoc(doc: Doc, order: seq<nat>)
    requires DistinctIds(doc) && |order| == |doc| && NamesAt(doc, order, CanonIds(doc))
    ensures forall k :: 0 <= k < |doc| ==> order[k] < |doc| && Canonical(doc)[k] == doc[order[k]]
  {
    hide Canon, GraphOf, CanonIds;
    var c := Canonical(doc);
    forall k | 0 <= k < |doc| ensures order[k] < |doc| && c[k] == doc[order[k]] {
      AtPosition(doc, order[k]);
    }
  }

  /** The ids in walk order. */
  method OrderedIds(ids: seq<Uuid>, order: seq<nat>) returns (ordered: seq<Uuid>)
    requires forall k :: 0 <= k < |order| ==> order[k] < |ids|
    ensures |ordered| == |order| && forall k :: 0 <= k < |order| ==> ordered[k] == ids[order[k]]
  {
    ordered := [];
    for k := 0 to |order|
      invariant |ordered| == k && forall j :: 0 <= j < k ==> ordered[j] == ids[order[j]]
    {
      ordered := ordered + [ids[order[k]]];
    }
  }

  /**
    The streamed state digest hashes the bytes the whole-array digest hashes: the flat
    targets walk the same canonical order, and the raw records, taken in that order and
    respelled, are the canonical encoding. Repeated identities are refused.
   */
  method StreamedDigest(tables: Tables, doc: Doc) returns (out: Result<Toks>)
    requires ValidTables(tables) && OwnersAreRefs(tables) && DocFits(doc)
    ensures !DistinctIds(doc) ==> out.Err?
    ensures DistinctIds(doc) ==> (out.Ok? <==> DigestTokens(tables, Canonical(doc)).Ok?)
    ensures DistinctIds(doc) && out.Ok? ==> out == DigestTokens(tables, Canonical(doc))
  {
    hide ValidTables, OwnersAreRefs, DocFits, RawWritable, ReadSoFar, DigestTokens, Canonical;
    var reading := ReadElementsOnce(tables, doc);
    if reading.Err? {
      if DistinctIds(doc) {
        DigestRefuses(tables, doc);
      }
      return Err(Malformed);
    }
    SoFarIds(tables, doc, reading.value);
    var index := IndexAll(reading.value.ids);
    if index.None? {
      return Err(Malformed);
    }
    var ts := DigestReading(tables, reading.value, index.value, doc);
    out := Ok(ts);
  }

  lemma SoFarIds(tables: Tables, doc: Doc, got: Reading)
    requires ReadSoFar(tables, doc, |doc|, got)
    ensures got.ids == Ids(doc)
  {
    hide RawWritable, DocRefs, RawRecords, TargetLists, RowOf, Flatten;
    assert doc[..|doc|] == doc;
  }

  /** The digest payload of what was read: walked, numbered, respelled. */
  method DigestReading(tables: Tables, got: Reading, index: map<Uuid, nat>, ghost doc: Doc) returns (ts: Toks)
    requires ValidTables(tables) && OwnersAreRefs(tables) && DocFits(doc) && DistinctIds(doc)
    requires ReadSoFar(tables, doc, |doc|, got) && index == map u | u in Elems(got.ids) :: IndexOf(got.ids, u)
    ensures DigestTokens(tables, Canonical(doc)) == Ok(ts)
  {
    hide ValidTables, OwnersAreRefs, DocFits, WriteElements, DocRefs, RawWritable, BuildInterner, WriteElement, Flatten,
      TargetLists, RawRecords, RowOf, NamesAt, CanonIds, Canonical, EndOf, StartOf, SortIds, DigestTokens;
    assert doc[..|doc|] == doc;
    assert index.Keys == Elems(got.ids);
    var order := StreamedOrder(got.ids, index, got.targets, got.ends, doc);
    var ext := Externals(got.refs, index);
    OrderedDoc(doc, order);
    AllStarts(tables, doc);
    var ordered := OrderedIds(got.ids, order);
    ts := DigestOrdered(tables, ordered, ext, got.records, got.starts + [|got.records|], order, doc);
  }

  method DigestOrdered(
      tables: Tables, ordered: seq<Uuid>, ext: seq<Uuid>, records: Toks, starts: seq<nat>, order: seq<nat>,
      ghost doc: Doc) returns (ts: Toks)
    requires ValidTables(tables) && OwnersAreRefs(tables)
    requires DocFits(doc) && RawWritable(tables, doc) && DistinctIds(doc)
    requires records == Flatten(RawRecords(tables, doc)) && |starts| == |doc| + 1
    requires forall i :: 0 <= i <= |doc| ==> starts[i] == StartOf(RawRecords(tables, doc), i)
    requires |order| == |doc| == |ordered|
    requires forall k :: 0 <= k < |doc| ==> order[k] < |doc| && Canonical(doc)[k] == doc[order[k]]
    requires forall k :: 0 <= k < |doc| ==> ordered[k] == Ids(doc)[order[k]]
    requires ext == SortIds(DocRefs(tables, doc) - Elems(Ids(doc)))
    ensures DigestTokens(tables, Canonical(doc)) == Ok(ts)
  {
    hide ValidTables, OwnersAreRefs, DocFits, WriteElements, DocRefs, RawWritable, BuildInterner, WriteElement, Flatten,
      RawRecords, CanonIds, Canonical, StartOf, SortIds, DigestTokens, Elems;
    ghost var canon := Canonical(doc);
    assert ordered == Ids(canon);
    CanonicalRefs(tables, doc);
    var wire := Interner(map u | u in Elems(ordered) :: IndexOf(ordered, u), ext);
    WireIs(Ids(canon), DocRefs(tables, doc), wire);
    var elements := DigestRecords(tables, wire, records, starts, order, doc, canon);
    ts := DigestLayout(wire, ordered, elements);
    LayoutIs(tables, wire, canon, elements);
  }

  lemma WireIs(ids: seq<Uuid>, refs: set<Uuid>, wire: Interner)
    requires wire == Interner(map u | u in Elems(ids) :: IndexOf(ids, u), SortIds(refs - Elems(ids)))
    ensures wire == BuildInterner(ids, refs)
  {
  }

  lemma DigestRefuses(tables: Tables, doc: Doc)
    requires ValidTables(tables) && OwnersAreRefs(tables) && DocFits(doc) && DistinctIds(doc)
    requires !RawWritable(tables, doc)
    ensures DigestTokens(tables, Canonical(doc)).Err?
  {
    hide ValidTables, OwnersAreRefs, ElementFits, BuildInterner, DocRefs, WriteElement, SnapshotTokens, WriteElements,
      Canon, GraphOf;
    var c := Canonical(doc);
    assert DocFits(c);
    DocWritable(tables, c, false);
    CanonDocSame(doc);
    var i :| 0 <= i < |doc| && WriteElement(tables, Raw, doc[i], Spelled).Err?;
    AtPosition(doc, i);
    var j :| 0 <= j < |c| && Ids(c)[j] == doc[i].id;
    AtPosition(c, j);
  }

  /** The digest payload: header, externals, identities, records. */
  function DigestLayout(wire: Interner, ids: seq<Uuid>, elements: Toks): Toks {
    [Array(4), Uint(HeaderWord(0, DIGEST_SCHEME))]
    + ([Array(|wire.ext|)] + WriteIds(wire.ext))
    + ([Array(|ids|)] + WriteIds(ids))
    + ([Array(|ids|)] + elements)
  }

  lemma LayoutIs(tables: Tables, wire: Interner, canon: Doc, elements: Toks)
    requires DistinctIds(canon) && wire == BuildInterner(Ids(canon), DocRefs(tables, canon))
    requires WriteElements(tables, Wire(wire), canon, false, 0) == Ok(elements)
    ensures DigestTokens(tables, canon) == Ok(DigestLayout(wire, Ids(canon), elements))
  {
    hide WriteElements, BuildInterner, DocRefs, WriteIds, Exceptions, WritePairs, HeaderWord;
    var ts := SnapshotTokens(tables, wire, canon, [], false, DIGEST_SCHEME, elements);
    assert ValidUnits([], |canon|) && NoDup(Ids(canon)) && FlagByte(false, false, false, false) == 0;
    assert Encode(tables, canon, [], false, DIGEST_SCHEME) == Ok(ts);
    var body := DigestLayout(wire, Ids(canon), elements);
    assert body + [] == body;
    assert ts == body + [] + [];
  }
}
