/** What the snapshot encoder accepts, said of the document alone. */
module Encodable {
  import opened Wrappers
  import opened Seqs
  import opened Cbor
  import opened Model
  import opened Values
  import opened Records
  import opened Sections
  import opened Snapshot
  import opened Transcode
  import opened Stream
  import opened StreamWrite

  /** An item a reference list may hold: an identity or a symbolic name. */
  predicate Nameable(v: Value) {
    v.Ref? || v.Sym?
  }

  /** The values a field's kind can carry; an explicit null is one for every kind. */
  predicate Carries(f: Field, v: Value) {
    v.Null? ||
    match f.kind
    case KBool => v.Bool?
    case KStr => v.Str?
    case KElementId => v.Str?
    case KStrList => v.Arr? && forall i :: 0 <= i < |v.items| ==> v.items[i].Str?
    case KRef => Nameable(v)
    case KRefList => v.Arr? && forall i :: 0 <= i < |v.items| ==> Nameable(v.items[i])
    case KEnum => v.Str? && v.text in f.vocab
    case KLiteral => v.Bool? || v.Str? || v.Int? || v.Float?
  }

  lemma {:induction false} TextsIff(items: seq<Value>)
    ensures WriteTexts(items).Ok? <==> forall i :: 0 <= i < |items| ==> items[i].Str?
  {
    if items != [] {
      TextsIff(items[1..]);
      assert forall i :: 0 < i < |items| ==> items[i] == items[1..][i - 1];
    }
  }

  lemma {:induction false} RefsIff(items: seq<Value>)
    ensures WriteRefs(Raw, items).Ok? <==> forall i :: 0 <= i < |items| ==> Nameable(items[i])
  {
    hide UuidBytes;
    if items != [] {
      RefsIff(items[1..]);
      assert forall i :: 0 < i < |items| ==> items[i] == items[1..][i - 1];
    }
  }

  lemma ValueIff(f: Field, v: Value)
    ensures WriteValue(Raw, f, v).Ok? <==> Carries(f, v)
  {
    hide UuidBytes, WriteTexts, WriteRefs, IntToken, IsFinite;
    if v.Arr? {
      TextsIff(v.items);
      RefsIff(v.items);
    }
  }

  /** A default is always a value its field carries. */
  lemma DefaultCarries(f: Field, id: Uuid, v: Value)
    requires IsDefault(f, id, v)
    ensures Carries(f, v)
  {
    hide Spell;
  }

  lemma HeldIff(f: Field, e: Element, k: nat)
    ensures
      var h := Hold(f, e, Spelled);
      (h.Entry? ==> WriteEntry(Raw, f, k, h.v).Ok?)
      <==> (f.name in e.props ==> Carries(f, e.props[f.name]))
  {
    hide WriteValue, Carries, IsDefault, DefaultValue;
    if f.name in e.props {
      ValueIff(f, e.props[f.name]);
      if IsDefault(f, e.id, e.props[f.name]) {
        DefaultCarries(f, e.id, e.props[f.name]);
      }
    }
  }

  lemma {:induction false} EntriesIff(fields: seq<Field>, e: Element, k: nat)
    requires k <= |fields|
    ensures
      WriteEntries(Raw, fields, e, Spelled, k).Ok?
      <==> forall i :: k <= i < |fields| && fields[i].name in e.props ==> Carries(fields[i], e.props[fields[i].name])
    decreases |fields| - k
  {
    hide Carries, WriteEntry, Hold;
    if k < |fields| {
      EntriesIff(fields, e, k + 1);
      HeldIff(fields[k], e, k);
    }
  }

  /** A metaclass of the tables, no key outside its table, and every value one its field carries. */
  ghost predicate Encodes(tables: Tables, e: Element) {
    var fields := FieldsOf(tables, e.ty);
    && Known(tables, e.ty)
    && forall key :: key in e.props ==> HasField(fields, key) && Carries(fields[Ordinal(fields, key)], e.props[key])
  }

  lemma ElementIff(tables: Tables, e: Element)
    requires ValidTables(tables)
    ensures WriteElement(tables, Raw, e, Spelled).Ok? <==> Encodes(tables, e)
  {
    hide Carries, WriteEntries, ValidTables, FieldsOf, PresenceBits, CountEntries, Pack, TypeCode, FieldNames, NoDup;
    var fields := FieldsOf(tables, e.ty);
    FieldsOfValid(tables, e.ty);
    EntriesIff(fields, e, 0);
    forall i | 0 <= i < |fields| ensures Ordinal(fields, fields[i].name) == i {
      OrdinalOfField(fields, i);
    }
    assert KeysKnown(fields, e) <==> forall key :: key in e.props ==> HasField(fields, key);
    if KeysKnown(fields, e) {
      forall key | key in e.props ensures fields[Ordinal(fields, key)].name == key {
      }
    }
  }

  /** The encoder accepts exactly these documents, and the digest exactly those among them. */
  lemma EncodesIff(tables: Tables, doc: Doc, units: Pairs, implied: bool, scheme: nat)
    requires ValidTables(tables) && OwnersAreRefs(tables) && DocFits(doc)
    ensures
      Encode(tables, doc, units, implied, scheme).Ok?
      <==> ValidUnits(units, |doc|) && DistinctIds(doc) && forall i :: 0 <= i < |doc| ==> Encodes(tables, doc[i])
  {
    hide ValidTables, OwnersAreRefs, DocFits, WriteElement, WriteElements, BuildInterner, DocRefs, SnapshotTokens,
      Encodes, ValidUnits;
    DocWritable(tables, doc, implied);
    forall i | 0 <= i < |doc| ensures WriteElement(tables, Raw, doc[i], Spelled).Ok? <==> Encodes(tables, doc[i]) {
      ElementIff(tables, doc[i]);
    }
    assert RawWritable(tables, doc) <==> forall i :: 0 <= i < |doc| ==> Encodes(tables, doc[i]);
  }
}
