/**
  The compact snapshot: encoding a document and decoding it to the same document.

  Ownership backpointers that spell their derivation travel implied: the encoder leaves
  them out, the decoder derives them from the forward lists it read. A backpointer the
  document does not have is listed as an exception, so that derivation does not add it.
 */
module Snapshot {
  import opened Wrappers
  import opened Seqs
  import opened Cbor
  import opened Model
  import opened Owners
  import opened Values
  import opened Records
  import opened Sections

  // ---- owner exceptions and owner re-derivation ------------------------------------

  /** The slots an element's metaclass carries and the element does not spell. */
  function AbsentBits(fields: seq<Field>, e: Element): (bits: nat)
    ensures bits <= 3
    ensures Bit(bits, 0) == (HasField(fields, OwningRelationship) && OwningRelationship !in e.props)
    ensures Bit(bits, 1) == (HasField(fields, OwningRelatedElement) && OwningRelatedElement !in e.props)
  {
    BitUnfolds(0);
    BitUnfolds(1);
    BitUnfolds(2);
    BitUnfolds(3);
    (if HasField(fields, OwningRelationship) && OwningRelationship !in e.props then 1 else 0)
    + (if HasField(fields, OwningRelatedElement) && OwningRelatedElement !in e.props then 2 else 0)
  }

  function OwnerValue(owner: Option<Uuid>): Value {
    match owner case Some(u) => Ref(u) case None => Null
  }

  /** One slot's backpointer, added where the metaclass has it, no exception bars it and none is spelled. */
  function FillSlot(fields: seq<Field>, slot: nat, bits: nat, owner: Option<Uuid>, props: Props): Props {
    if !HasField(fields, BackProp(slot)) || Bit(bits, slot) || BackProp(slot) in props then props
    else props[BackProp(slot) := OwnerValue(owner)]
  }

  function FillElement(fields: seq<Field>, bits: nat, owning: Option<Uuid>, related: Option<Uuid>, e: Element)
    : Element
  {
    e.(props := FillSlot(fields, 1, bits, related, FillSlot(fields, 0, bits, owning, e.props)))
  }

  /** What a record left out against a derivation is restored by that derivation. */
  lemma FillRestores(fields: seq<Field>, e: Element, owning: Option<Uuid>, related: Option<Uuid>)
    requires KeysKnown(fields, e)
    ensures
      FillElement(fields, AbsentBits(fields, e), owning, related,
        Element(e.id, e.ty, Kept(e, Implied(owning, related)))) == e
  {
    hide Bit, Ordinal;
    var d := Implied(owning, related);
    var kept := Kept(e, d);
    var bits := AbsentBits(fields, e);
    var filled := FillSlot(fields, 1, bits, related, FillSlot(fields, 0, bits, owning, kept));
    forall key
      ensures key in filled <==> key in e.props
      ensures key in filled ==> filled[key] == e.props[key]
    {
    }
    assert filled == e.props;
  }

  /** Leaving backpointers out does not touch the forward lists. */
  lemma KeptForward(e: Element, d: Derivation)
    ensures SameForward(e, Element(e.id, e.ty, Kept(e, d)))
  {
  }

  lemma KeptSpelled(e: Element)
    ensures Element(e.id, e.ty, Kept(e, Spelled)) == e
  {
    assert Kept(e, Spelled) == e.props;
  }

  // ---- encoding --------------------------------------------------------------------

  function DerivationFor(doc: Doc, implied: bool, e: Element): Derivation {
    if implied then Implied(DerivedOwner(doc, 0, e.id), DerivedOwner(doc, 1, e.id)) else Spelled
  }

  function WriteElements(tables: Tables, sp: Spelling, doc: Doc, implied: bool, k: nat): Result<Toks>
    requires k <= |doc|
    decreases |doc| - k
  {
    if k == |doc| then Ok([])
    else
      var head :- WriteElement(tables, sp, doc[k], DerivationFor(doc, implied, doc[k]));
      var tail :- WriteElements(tables, sp, doc, implied, k + 1);
      Ok(head + tail)
  }

  /** The elements that lack a backpointer their metaclass carries, from position `k`. */
  function Exceptions(tables: Tables, doc: Doc, k: nat): (pairs: Pairs)
    requires k <= |doc|
    ensures PairsFit(OwnerBits, pairs)
    ensures forall i :: 0 <= i < |pairs| ==> k <= pairs[i].0 < |doc|
    decreases |doc| - k
  {
    if k == |doc| then []
    else
      var bits := AbsentBits(FieldsOf(tables, doc[k].ty), doc[k]);
      var rest := Exceptions(tables, doc, k + 1);
      if bits == 0 then rest else [(k, Uint(bits))] + rest
  }

  /** The unit table: root positions ascending and in range, paths not empty. */
  predicate ValidUnits(units: Pairs, n: nat) {
    && (forall i :: 0 <= i < |units| ==> units[i].0 < n && units[i].1.Tstr? && units[i].1.bytes != [])
    && Ascending(units)
  }

  lemma UnitsFit(units: Pairs, n: nat)
    requires ValidUnits(units, n)
    ensures PairsFit(UnitPaths, units)
  {
  }

  /** The body sections of a snapshot, over a given index space. */
  function SnapshotTokens(
      tables: Tables, interner: Interner, doc: Doc, units: Pairs, implied: bool, scheme: nat, elements: Toks): Toks
  {
    var flags := FlagByte(false, false, units != [], implied);
    [Array(4 + (if implied then 1 else 0) + (if units != [] then 1 else 0)), Uint(HeaderWord(flags, scheme))]
    + ([Array(|interner.ext|)] + WriteIds(interner.ext))
    + ([Array(|doc|)] + WriteIds(Ids(doc)))
    + ([Array(|doc|)] + elements)
    + (if implied then WritePairs(Exceptions(tables, doc, 0)) else [])
    + (if units != [] then WritePairs(units) else [])
  }

  function Encode(tables: Tables, doc: Doc, units: Pairs, implied: bool, scheme: nat): Result<Toks> {
    if !ValidUnits(units, |doc|) || !NoDup(Ids(doc)) then Err(Malformed)
    else
      var interner := BuildInterner(Ids(doc), DocRefs(tables, doc));
      var elements :- WriteElements(tables, Wire(interner), doc, implied, 0);
      Ok(SnapshotTokens(tables, interner, doc, units, implied, scheme, elements))
  }

  const MAGIC: seq<byte> := [0xD9, 0xD9, 0xF7, 0xDA, 0x24, 0x53, 0x32, 0x43]

  /** The interchange encoding: backpointers implied, the current scheme. */
  function ToCbor(tables: Tables, doc: Doc, units: Pairs): Result<seq<byte>> {
    var ts :- Encode(tables, doc, units, true, ID_SCHEME);
    Ok(MAGIC + EncAll(ts))
  }

  /** The digest-space encoding: owners spelled, the digest scheme, no units. */
  function DigestTokens(tables: Tables, doc: Doc): Result<Toks> {
    Encode(tables, doc, [], false, DIGEST_SCHEME)
  }

  function DigestBytes(tables: Tables, doc: Doc): Result<seq<byte>> {
    var ts :- DigestTokens(tables, doc);
    Ok(MAGIC + EncAll(ts))
  }

  // ---- decoding --------------------------------------------------------------------

  function ReadElements(ts: Toks, s: Space, tables: Tables, ids: seq<Uuid>): (r: Result<(Doc, Toks)>)
    ensures r.Ok? ==> |r.value.0| == |ids|
    decreases |ids|
  {
    if ids == [] then Ok(([], ts))
    else
      var (e, after) :- ReadElement(ts, s, tables, ids[0]);
      var (es, rest) :- ReadElements(after, s, tables, ids[1..]);
      Ok(([e] + es, rest))
  }

  /** The bits listed for position `k`, 0 where none are. */
  function BitsAt(pairs: Pairs, k: nat): nat {
    if pairs == [] then 0
    else if pairs[0].0 == k then (if pairs[0].1.Uint? then pairs[0].1.n else 0)
    else BitsAt(pairs[1..], k)
  }

  /** Re-derive the backpointers of every element over the document as it was read. */
  function FillOwners(tables: Tables, doc: Doc, pairs: Pairs): (filled: Doc)
    ensures |filled| == |doc|
  {
    seq(|doc|, i requires 0 <= i < |doc| =>
      FillElement(FieldsOf(tables, doc[i].ty), BitsAt(pairs, i),
        DerivedOwner(doc, 0, doc[i].id), DerivedOwner(doc, 1, doc[i].id), doc[i]))
  }

  // ---- the two backpointers, by their names -----------------------------------------

  /**
    A record with owners implied leaves out `owningRelationship` exactly where it spells the
    first element whose `ownedRelatedElement` list names this one, `owningRelatedElement`
    exactly where it spells the first whose `ownedRelationship` list does, and nothing else.
   */
  lemma RecordLeavesOut(doc: Doc, e: Element)
    ensures
      var kept := Kept(e, DerivationFor(doc, true, e));
      && (forall k :: k in kept ==> k in e.props && kept[k] == e.props[k])
      && (forall k :: k in e.props && k != OwningRelationship && k != OwningRelatedElement ==> k in kept)
      && (OwningRelationship in e.props ==>
            (OwningRelationship !in kept <==>
               SpellsFirst(doc, OwnedRelatedElement, e.id, e.props[OwningRelationship])))
      && (OwningRelatedElement in e.props ==>
            (OwningRelatedElement !in kept <==>
               SpellsFirst(doc, OwnedRelationship, e.id, e.props[OwningRelatedElement])))
    ensures Kept(e, DerivationFor(doc, false, e)) == e.props
  {
    hide SpellsFirst, DerivedOwner;
    if OwningRelationship in e.props {
      OwnersByName(doc, e.id, e.props[OwningRelationship]);
    }
    if OwningRelatedElement in e.props {
      OwnersByName(doc, e.id, e.props[OwningRelatedElement]);
    }
    assert Kept(e, Spelled) == e.props;
  }

  /**
    One backpointer after re-deriving: kept if spelled; else there exactly if the table has it
    and no exception bars it, and then it spells the first element whose list `key` names this one.
   */
  ghost predicate Refilled(
      fields: seq<Field>, doc: Doc, back: Prop, key: Prop, barred: bool, was: Element, now: Element)
  {
    if back in was.props then back in now.props && now.props[back] == was.props[back]
    else
      && (back in now.props <==> HasField(fields, back) && !barred)
      && (back in now.props ==> SpellsFirst(doc, key, was.id, now.props[back]))
  }

  /** An element after re-deriving both backpointers: bit 0 bars the first, bit 1 the second, nothing else changes. */
  ghost predicate RefilledBoth(tables: Tables, doc: Doc, bits: nat, was: Element, now: Element) {
    && now.id == was.id && now.ty == was.ty
    && Refilled(FieldsOf(tables, was.ty), doc, OwningRelationship, OwnedRelatedElement, Bit(bits, 0), was, now)
    && Refilled(FieldsOf(tables, was.ty), doc, OwningRelatedElement, OwnedRelationship, Bit(bits, 1), was, now)
    && forall k :: k != OwningRelationship && k != OwningRelatedElement ==>
         (k in now.props <==> k in was.props) && (k in was.props ==> now.props[k] == was.props[k])
  }

  lemma FillByName(tables: Tables, doc: Doc, bits: nat, e: Element)
    ensures
      RefilledBoth(tables, doc, bits, e,
        FillElement(FieldsOf(tables, e.ty), bits, DerivedOwner(doc, 0, e.id), DerivedOwner(doc, 1, e.id), e))
  {
    hide SpellsFirst, DerivedOwner, Bit, FieldsOf, Ordinal, FillSlot;
    var fields, owning, related := FieldsOf(tables, e.ty), DerivedOwner(doc, 0, e.id), DerivedOwner(doc, 1, e.id);
    SlotFills(fields, 0, bits, owning, e.props);
    SlotFills(fields, 1, bits, related, FillSlot(fields, 0, bits, owning, e.props));
    OwnersByName(doc, e.id, OwnerValue(owning));
    OwnersByName(doc, e.id, OwnerValue(related));
  }

  lemma SlotFills(fields: seq<Field>, slot: nat, bits: nat, owner: Option<Uuid>, props: Props)
    ensures
      var back, out := BackProp(slot), FillSlot(fields, slot, bits, owner, props);
      && (forall k :: k != back || k in props ==> (k in out <==> k in props) && (k in props ==> out[k] == props[k]))
      && (back !in props ==>
            (back in out <==> HasField(fields, back) && !Bit(bits, slot))
            && (back in out ==> out[back] == OwnerValue(owner)))
  {
    hide Bit, Ordinal;
  }

  /** Every element of a decoded snapshot with implied owners. */
  lemma FilledByName(tables: Tables, doc: Doc, pairs: Pairs)
    ensures
      forall i :: 0 <= i < |doc| ==>
        RefilledBoth(tables, doc, BitsAt(pairs, i), doc[i], FillOwners(tables, doc, pairs)[i])
  {
    hide RefilledBoth, FillElement, DerivedOwner, BitsAt;
    forall i | 0 <= i < |doc|
      ensures RefilledBoth(tables, doc, BitsAt(pairs, i), doc[i], FillOwners(tables, doc, pairs)[i])
    {
      FillByName(tables, doc, BitsAt(pairs, i), doc[i]);
    }
  }

  predicate LastBelow(pairs: Pairs, n: nat) {
    pairs != [] ==> pairs[|pairs| - 1].0 < n
  }

  function ReadIf(present: bool, ts: Toks, sec: Section): Result<(Pairs, Toks)> {
    if present then ReadPairs(ts, sec) else Ok(([], ts))
  }

  /** What the flags of a compact snapshot may say. */
  function GateSnapshot(flags: nat, arity: nat): Result<bool> {
    if Bit(flags, FLAG_DELTA) then Err(WrongForm)
    else if Bit(flags, FLAG_PORTABLE) || Bit(flags, 7) then Err(Malformed)
    else if arity != 4 + (if Bit(flags, FLAG_IMPLIED_OWNERS) then 1 else 0)
                       + (if Bit(flags, FLAG_UNIT_PATHS) then 1 else 0)
    then Err(Malformed)
    else if Bit(flags, FLAG_IMPLIED_OWNERS) && Bit(flags, FLAG_FULL_FORM) then Err(Malformed)
    else if Bit(flags, FLAG_FULL_FORM) then Err(WrongForm)
    else if Bit(flags, FLAG_ELIDE_IDS) then Err(NeedsResolver)
    else Ok(true)
  }

  function Decode(tables: Tables, ts: Toks): Result<(Doc, Pairs)> {
    var (arity, ts1) :- ReadArray(ts);
    var (word, ts2) :- ReadUint(ts1);
    var (scheme, flags) :- ParseHeader(word);
    var _ :- GateSnapshot(flags, arity);
    DecodeBody(tables, ts2, Bit(flags, FLAG_IMPLIED_OWNERS), Bit(flags, FLAG_UNIT_PATHS))
  }

  function DecodeBody(tables: Tables, ts: Toks, implied: bool, hasUnits: bool): Result<(Doc, Pairs)> {
    var (exts, ts1) :- ReadIds(ts);
    var (ids, ts2) :- ReadIds(ts1);
    var (n, ts3) :- ReadArray(ts2);
    if n != |ids| then Err(Malformed)
    else
      var (doc, ts4) :- ReadElements(ts3, Space(ids, [], exts), tables, ids);
      var (exceptions, ts5) :- ReadIf(implied, ts4, OwnerBits);
      if !LastBelow(exceptions, n) then Err(Malformed)
      else
        var (units, ts6) :- ReadIf(hasUnits, ts5, UnitPaths);
        if !LastBelow(units, n) || ts6 != [] then Err(Malformed)
        else Ok((if implied then FillOwners(tables, doc, exceptions) else doc, units))
  }

  function FromCbor(tables: Tables, b: seq<byte>): Result<(Doc, Pairs)> {
    if |b| < 8 || b[..8] != MAGIC then Err(MissingMagic)
    else
      var ts :- Lex(b[8..]);
      Decode(tables, ts)
  }

  /** The flags and section count of a compact snapshot. */
  ghost predicate SnapshotFlags(flags: nat, arity: nat) {
    && !Bit(flags, FLAG_DELTA) && !Bit(flags, FLAG_PORTABLE) && !Bit(flags, FLAG_FULL_FORM)
    && !Bit(flags, FLAG_ELIDE_IDS) && !Bit(flags, 7)
    && arity == 4 + (if Bit(flags, FLAG_IMPLIED_OWNERS) then 1 else 0) + (if Bit(flags, FLAG_UNIT_PATHS) then 1 else 0)
  }

  lemma SnapshotIff(flags: nat, arity: nat)
    ensures GateSnapshot(flags, arity) == Ok(true) <==> SnapshotFlags(flags, arity)
    ensures GateSnapshot(flags, arity).Ok? ==> GateSnapshot(flags, arity) == Ok(true)
  {
    hide Bit;
  }

  /** A snapshot is read exactly where its header says it is one this decoder reads, and its body reads as announced. */
  lemma SnapshotTaken(tables: Tables, ts: Toks)
    requires ReadArray(ts).Ok? && ReadUint(ReadArray(ts).value.1).Ok?
    requires ReadUint(ReadArray(ts).value.1).value.0 < 0x100_0000_0000
    ensures
      var (arity, ts1) := ReadArray(ts).value;
      var (word, ts2) := ReadUint(ts1).value;
      var flags := word % 0x100;
      var read := DecodeBody(tables, ts2, Bit(flags, FLAG_IMPLIED_OWNERS), Bit(flags, FLAG_UNIT_PATHS));
      if word / 0x1_0000_0000 == LAYOUT_VERSION && (word / 0x1_0000) % 0x1_0000 == TABLES_VERSION
         && SnapshotFlags(flags, arity)
      then Decode(tables, ts) == read
      else Decode(tables, ts).Err?
  {
    hide Bit, DecodeBody, GateSnapshot, SnapshotFlags;
    var word := ReadUint(ReadArray(ts).value.1).value.0;
    SnapshotIff(word % 0x100, ReadArray(ts).value.0);
  }

  // ---- the round trip --------------------------------------------------------------

  /** The document as its records carry it, before owners are re-derived. */
  function CarriedDoc(doc: Doc, implied: bool): (raw: Doc)
    ensures |raw| == |doc|
  {
    seq(|doc|, i requires 0 <= i < |doc| =>
      Element(doc[i].id, doc[i].ty, Kept(doc[i], DerivationFor(doc, implied, doc[i]))))
  }

  lemma ElementsHead(tables: Tables, sp: Spelling, doc: Doc, implied: bool, k: nat)
    requires k <= |doc| && WriteElements(tables, sp, doc, implied, k).Ok?
    ensures k == |doc| ==> WriteElements(tables, sp, doc, implied, k).value == []
    ensures
      k < |doc| ==>
        && WriteElement(tables, sp, doc[k], DerivationFor(doc, implied, doc[k])).Ok?
        && WriteElements(tables, sp, doc, implied, k + 1).Ok?
        && WriteElements(tables, sp, doc, implied, k).value
           == WriteElement(tables, sp, doc[k], DerivationFor(doc, implied, doc[k])).value
              + WriteElements(tables, sp, doc, implied, k + 1).value
  {
    hide WriteElement, DerivationFor;
  }

  lemma NoneRead(ts: Toks, s: Space, tables: Tables)
    ensures ReadElements(ts, s, tables, []) == Ok(([], ts))
  {
  }

  lemma ReadElementsMore(ts: Toks, s: Space, tables: Tables, u: Uuid, us: seq<Uuid>)
    requires ReadElement(ts, s, tables, u).Ok?
    ensures
      var (e, after) := ReadElement(ts, s, tables, u).value;
      var read := ReadElements(after, s, tables, us);
      read.Ok? ==> ReadElements(ts, s, tables, [u] + us) == Ok(([e] + read.value.0, read.value.1))
  {
    hide ReadElement;
    assert ([u] + us)[1..] == us;
  }

  lemma {:induction false} ElementsInvert(
      tables: Tables, n: Interner, s: Space, doc: Doc, implied: bool, k: nat, ts: Toks, rest: Toks)
    requires ValidTables(tables) && Agree(n, s) && k <= |doc|
    requires WriteElements(tables, Wire(n), doc, implied, k).Ok?
    requires ts == WriteElements(tables, Wire(n), doc, implied, k).value + rest
    ensures ReadElements(ts, s, tables, Ids(doc)[k..]) == Ok((CarriedDoc(doc, implied)[k..], rest))
    decreases |doc| - k
  {
    hide Agree, ValidTables, WriteElement, ReadBody, DerivationFor, Kept, WriteElements, ReadElement, ReadElements;
    ElementsHead(tables, Wire(n), doc, implied, k);
    if k == |doc| {
      assert [] + rest == rest && Ids(doc)[k..] == [] && CarriedDoc(doc, implied)[k..] == [];
      NoneRead(ts, s, tables);
    } else {
      var e, d := doc[k], DerivationFor(doc, implied, doc[k]);
      var head := WriteElement(tables, Wire(n), e, d).value;
      var tail := WriteElements(tables, Wire(n), doc, implied, k + 1).value;
      assert ts == head + (tail + rest);
      ReadElementInverts(tables, n, s, e, d, ts, tail + rest);
      ElementsInvert(tables, n, s, doc, implied, k + 1, tail + rest, rest);
      ReadElementsMore(ts, s, tables, e.id, Ids(doc)[k + 1..]);
      assert Ids(doc)[k..] == [e.id] + Ids(doc)[k + 1..];
      assert CarriedDoc(doc, implied)[k..] == [CarriedDoc(doc, implied)[k]] + CarriedDoc(doc, implied)[k + 1..];
    }
  }

  lemma ReadElementInverts(
      tables: Tables, n: Interner, s: Space, e: Element, d: Derivation, ts: Toks, rest: Toks)
    requires ValidTables(tables) && Agree(n, s) && WriteElement(tables, Wire(n), e, d).Ok?
    requires ts == WriteElement(tables, Wire(n), e, d).value + rest
    ensures ReadElement(ts, s, tables, e.id) == Ok((Element(e.id, e.ty, Kept(e, d)), rest))
  {
    hide Agree, ValidTables, ReadBody, Kept, WriteEntries, PresenceBits, CountEntries, Pack;
    var w := WriteElement(tables, Wire(n), e, d).value;
    assert ts[0] == Array(3) && ts[1..] == w[1..] + rest;
    ReadBodyInverts(tables, n, s, e, d, ts[1..], rest);
  }

  lemma RawStructure(doc: Doc, implied: bool)
    ensures SameStructure(doc, CarriedDoc(doc, implied))
  {
    forall i | 0 <= i < |doc| ensures SameForward(doc[i], CarriedDoc(doc, implied)[i]) {
      KeptForward(doc[i], DerivationFor(doc, implied, doc[i]));
    }
  }

  lemma {:induction false} ExceptionBits(tables: Tables, doc: Doc, k: nat, i: nat)
    requires k <= i < |doc|
    ensures BitsAt(Exceptions(tables, doc, k), i) == AbsentBits(FieldsOf(tables, doc[i].ty), doc[i])
    decreases |doc| - k
  {
    hide AbsentBits, FieldsOf;
    var rest := Exceptions(tables, doc, k + 1);
    if k < i {
      ExceptionBits(tables, doc, k + 1, i);
      assert ([(k, Uint(AbsentBits(FieldsOf(tables, doc[k].ty), doc[k])))] + rest)[1..] == rest;
    } else {
      NoBitsAt(rest, k);
    }
  }

  lemma {:induction false} NoBitsAt(pairs: Pairs, k: nat)
    requires forall i :: 0 <= i < |pairs| ==> pairs[i].0 != k
    ensures BitsAt(pairs, k) == 0
  {
    if pairs != [] {
      NoBitsAt(pairs[1..], k);
    }
  }

  lemma {:induction false} ElementsWritten(tables: Tables, sp: Spelling, doc: Doc, implied: bool, k: nat, i: nat)
    requires k <= i < |doc| && WriteElements(tables, sp, doc, implied, k).Ok?
    ensures WriteElement(tables, sp, doc[i], DerivationFor(doc, implied, doc[i])).Ok?
    decreases |doc| - k
  {
    hide WriteElement, DerivationFor;
    if k < i {
      ElementsWritten(tables, sp, doc, implied, k + 1, i);
    }
  }

  /** The document is its records with the derived owners filled in. */
  lemma FillInverts(tables: Tables, sp: Spelling, doc: Doc)
    requires WriteElements(tables, sp, doc, true, 0).Ok?
    ensures FillOwners(tables, CarriedDoc(doc, true), Exceptions(tables, doc, 0)) == doc
  {
    hide WriteElements, AbsentBits, FillElement, DerivedOwner, Exceptions, BitsAt, FieldsOf, Kept;
    var raw, pairs := CarriedDoc(doc, true), Exceptions(tables, doc, 0);
    RawStructure(doc, true);
    forall i | 0 <= i < |doc| ensures FillOwners(tables, raw, pairs)[i] == doc[i] {
      var e := doc[i];
      ElementsWritten(tables, sp, doc, true, 0, i);
      ExceptionBits(tables, doc, 0, i);
      DerivedOwnerSame(doc, raw, 0, e.id);
      DerivedOwnerSame(doc, raw, 1, e.id);
      WrittenKeys(tables, sp, e, DerivationFor(doc, true, e));
      FillRestores(FieldsOf(tables, e.ty), e, DerivedOwner(doc, 0, e.id), DerivedOwner(doc, 1, e.id));
    }
  }

  lemma WrittenKeys(tables: Tables, sp: Spelling, e: Element, d: Derivation)
    requires WriteElement(tables, sp, e, d).Ok?
    ensures KeysKnown(FieldsOf(tables, e.ty), e) && Known(tables, e.ty)
  {
  }

  lemma RawSpelled(doc: Doc)
    ensures CarriedDoc(doc, false) == doc
  {
    forall i | 0 <= i < |doc| ensures CarriedDoc(doc, false)[i] == doc[i] {
      KeptSpelled(doc[i]);
    }
  }

  lemma ReadIfInverts(present: bool, sec: Section, pairs: Pairs, ts: Toks, rest: Toks)
    requires PairsFit(sec, pairs)
    requires ts == (if present then WritePairs(pairs) else []) + rest
    ensures ReadIf(present, ts, sec) == Ok((if present then pairs else [], rest))
  {
    hide PairsFit, WritePairs, ReadPairs;
    if present {
      PairsInvert(sec, pairs, ts, rest);
    } else {
      assert ts == rest;
    }
  }

  /** The body from each section on. */
  function UnitTail(units: Pairs): Toks {
    if units != [] then WritePairs(units) else []
  }

  function ExceptTail(tables: Tables, doc: Doc, units: Pairs, implied: bool): Toks {
    (if implied then WritePairs(Exceptions(tables, doc, 0)) else []) + UnitTail(units)
  }

  function IdTail(tables: Tables, doc: Doc, units: Pairs, implied: bool, elements: Toks): Toks {
    [Array(|doc|)] + WriteIds(Ids(doc)) + ([Array(|doc|)] + (elements + ExceptTail(tables, doc, units, implied)))
  }

  lemma BodyLayout(
      tables: Tables, n: Interner, doc: Doc, units: Pairs, implied: bool, scheme: nat, elements: Toks)
    ensures
      SnapshotTokens(tables, n, doc, units, implied, scheme, elements)[2..]
      == [Array(|n.ext|)] + WriteIds(n.ext) + IdTail(tables, doc, units, implied, elements)
  {
    hide WriteIds, WritePairs, Exceptions, HeaderWord, FlagByte, Ids;
  }

  /** The sections after the header, read back in turn. */
  lemma BodyInverts(tables: Tables, doc: Doc, units: Pairs, implied: bool, body: Toks)
    requires ValidTables(tables) && ValidUnits(units, |doc|) && NoDup(Ids(doc))
    requires
      var n := BuildInterner(Ids(doc), DocRefs(tables, doc));
      && WriteElements(tables, Wire(n), doc, implied, 0).Ok?
      && body == [Array(|n.ext|)] + WriteIds(n.ext)
                 + IdTail(tables, doc, units, implied, WriteElements(tables, Wire(n), doc, implied, 0).value)
    ensures DecodeBody(tables, body, implied, units != []) == Ok((doc, units))
  {
    hide ValidTables, ValidUnits, BuildInterner, DocRefs, WriteElements, WriteIds, ReadIds, ReadElements, WritePairs,
      ReadIf, FillOwners, Exceptions, CarriedDoc, ExceptTail;
    var ids := Ids(doc);
    var n := BuildInterner(ids, DocRefs(tables, doc));
    var elements := WriteElements(tables, Wire(n), doc, implied, 0).value;
    assert ids + [] == ids;
    InternerAgrees(ids, [], DocRefs(tables, doc));
    var afterExts := IdTail(tables, doc, units, implied, elements);
    IdsInvert(n.ext, body, afterExts);
    var rest := ExceptTail(tables, doc, units, implied);
    var afterIds := [Array(|doc|)] + (elements + rest);
    IdsInvert(ids, afterExts, afterIds);
    assert afterIds[0] == Array(|doc|) && afterIds[1..] == elements + rest;
    ElementsInvert(tables, n, Space(ids, [], n.ext), doc, implied, 0, elements + rest, rest);
    assert Ids(doc)[0..] == ids && CarriedDoc(doc, implied)[0..] == CarriedDoc(doc, implied);
    TailInverts(tables, doc, units, implied);
    BodyEnds(tables, n, doc, units, implied);
  }

  lemma TailInverts(tables: Tables, doc: Doc, units: Pairs, implied: bool)
    requires ValidUnits(units, |doc|)
    ensures
      ReadIf(implied, ExceptTail(tables, doc, units, implied), OwnerBits)
      == Ok((if implied then Exceptions(tables, doc, 0) else [], UnitTail(units)))
    ensures ReadIf(units != [], UnitTail(units), UnitPaths) == Ok((units, []))
  {
    hide ValidUnits, WritePairs, Exceptions, ReadIf;
    UnitsFit(units, |doc|);
    ReadIfInverts(
      implied, OwnerBits, Exceptions(tables, doc, 0), ExceptTail(tables, doc, units, implied), UnitTail(units));
    assert UnitTail(units) == UnitTail(units) + [];
    ReadIfInverts(units != [], UnitPaths, units, UnitTail(units), []);
  }

  lemma BodyEnds(tables: Tables, n: Interner, doc: Doc, units: Pairs, implied: bool)
    requires ValidUnits(units, |doc|) && WriteElements(tables, Wire(n), doc, implied, 0).Ok?
    ensures LastBelow(units, |doc|) && LastBelow(if implied then Exceptions(tables, doc, 0) else [], |doc|)
    ensures
      doc
      == if implied then FillOwners(tables, CarriedDoc(doc, implied), Exceptions(tables, doc, 0))
         else CarriedDoc(doc, implied)
  {
    hide WriteElements, FillOwners, Exceptions, CarriedDoc;
    if implied {
      FillInverts(tables, Wire(n), doc);
    } else {
      RawSpelled(doc);
    }
  }

  /**
    Decoding what the encoder wrote returns the same document, key sets included: an absent
    default stays absent, a spelled one stays spelled, and every backpointer is restored or
    stays absent. The units come back with it.
   */
  lemma RoundTrip(tables: Tables, doc: Doc, units: Pairs, implied: bool, scheme: nat)
    requires ValidTables(tables) && scheme < 256 && Encode(tables, doc, units, implied, scheme).Ok?
    ensures Decode(tables, Encode(tables, doc, units, implied, scheme).value) == Ok((doc, units))
  {
    hide ValidTables, ValidUnits, BuildInterner, DocRefs, WriteElements, WriteIds, WritePairs, Exceptions, HeaderWord,
      FlagByte, Bit, DecodeBody, ParseHeader, Ids, NoDup;
    var ts := Encode(tables, doc, units, implied, scheme).value;
    var flags := FlagByte(false, false, units != [], implied);
    HeaderInverts(flags, scheme);
    FlagBits(false, false, units != [], implied);
    assert ts[0] == Array(4 + (if implied then 1 else 0) + (if units != [] then 1 else 0));
    assert ts[1] == Uint(HeaderWord(flags, scheme)) && ts[1..][1..] == ts[2..];
    var n := BuildInterner(Ids(doc), DocRefs(tables, doc));
    BodyLayout(tables, n, doc, units, implied, scheme, WriteElements(tables, Wire(n), doc, implied, 0).value);
    BodyInverts(tables, doc, units, implied, ts[2..]);
  }

  /** The round trip on bytes. */
  lemma RoundTripBytes(tables: Tables, doc: Doc, units: Pairs)
    requires ValidTables(tables) && ToCbor(tables, doc, units).Ok?
    requires AllFit(Encode(tables, doc, units, true, ID_SCHEME).value)
    ensures FromCbor(tables, ToCbor(tables, doc, units).value) == Ok((doc, units))
  {
    hide Encode, Decode, AllFit, ValidTables;
    var ts := Encode(tables, doc, units, true, ID_SCHEME).value;
    var b := MAGIC + EncAll(ts);
    assert b[..8] == MAGIC && b[8..] == EncAll(ts);
    LexInverts(ts);
    RoundTrip(tables, doc, units, true, ID_SCHEME);
  }

  /** The bytes a digest hashes determine the document. */
  lemma DigestBytesInjective(tables: Tables, a: Doc, b: Doc)
    requires ValidTables(tables) && DigestBytes(tables, a).Ok? && DigestBytes(tables, b).Ok?
    requires AllFit(DigestTokens(tables, a).value) && AllFit(DigestTokens(tables, b).value)
    requires DigestBytes(tables, a) == DigestBytes(tables, b)
    ensures a == b
  {
    hide Encode, Decode, AllFit, ValidTables;
    var ta, tb := DigestTokens(tables, a).value, DigestTokens(tables, b).value;
    assert (MAGIC + EncAll(ta))[8..] == EncAll(ta) && (MAGIC + EncAll(tb))[8..] == EncAll(tb);
    EncAllInjective(ta, tb);
    RoundTrip(tables, a, [], false, DIGEST_SCHEME);
    RoundTrip(tables, b, [], false, DIGEST_SCHEME);
  }
}
