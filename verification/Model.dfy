/**
  The compact interchange document and the field tables that drive its encoding.

  A document is a flat array of elements; an element is an identity, a metaclass name and
  a map from property name to JSON value. Identities are 128-bit numbers: a UUID's sixteen
  bytes read big-endian, so number order is byte order. Text is bytes. A float is its
  64-bit pattern. The tables the repository generates are a parameter here.
 */
module Model {
  import opened Wrappers
  import opened Seqs
  import opened Cbor

  // ---- values ----------------------------------------------------------------------

  const UUID_END: nat := 0x1_0000_0000_0000_0000_0000_0000_0000_0000

  type Uuid = n: nat | n < UUID_END

  type Text = seq<byte>

  /** A JSON integer: an unsigned or a signed 64-bit value. */
  type Integer = i: int | -0x8000_0000_0000_0000 <= i < U64_END

  /** A 64-bit float pattern that is neither an infinity nor a NaN. */
  predicate IsFinite(bits: nat) {
    bits < U64_END && (bits / 0x10_0000_0000_0000) % 0x800 != 0x7FF
  }

  type Finite = bits: nat | IsFinite(bits)

  /**
    A property's JSON value. `Ref` is `{"@id": …}`, `Sym` is `{"@ref": …}`; `Other` stands for
    every other object.
   */
  datatype Value =
    | Null
    | Bool(b: bool)
    | Int(i: Integer)
    | Float(bits: Finite)
    | Str(text: Text)
    | Arr(items: seq<Value>)
    | Ref(id: Uuid)
    | Sym(name: Text)
    | Other(shape: nat)

  /** A property name: the four the codec itself reads, and every other by its text. */
  datatype Prop =
    | OwnedRelationship
    | OwnedRelatedElement
    | OwningRelationship
    | OwningRelatedElement
    | Named(text: string)

  type Props = map<Prop, Value>

  datatype Element = Element(id: Uuid, ty: string, props: Props)

  type Doc = seq<Element>

  function UuidBytes(u: Uuid): (bs: seq<byte>)
    ensures |bs| == 16
  {
    Be(16, u)
  }

  function UuidOf(bs: seq<byte>): Uuid
    requires |bs| == 16
  {
    FromBeBound(bs);
    Pow256Values();
    FromBe(bs)
  }

  lemma UuidOfBytes(u: Uuid)
    ensures UuidOf(UuidBytes(u)) == u
  {
    Pow256Values();
    BeInverse(16, u);
  }

  function HexDigit(d: nat): byte
    requires d < 16
  {
    if d < 10 then 48 + d else 87 + d
  }

  function Hex(bs: seq<byte>): Text {
    if bs == [] then [] else [HexDigit(bs[0] / 16), HexDigit(bs[0] % 16)] + Hex(bs[1..])
  }

  /** The canonical spelling of an identity: lowercase, hyphenated. */
  function Spell(u: Uuid): Text {
    var b := UuidBytes(u);
    Hex(b[..4]) + [45] + Hex(b[4..6]) + [45] + Hex(b[6..8]) + [45] + Hex(b[8..10]) + [45] + Hex(b[10..])
  }

  // ---- tables ----------------------------------------------------------------------

  datatype Kind = KBool | KStr | KStrList | KRef | KRefList | KEnum | KLiteral | KElementId

  /** A property of a metaclass. `vocab` is its closed vocabulary and `dflt` its default byte. */
  datatype Field = Field(name: Prop, kind: Kind, vocab: seq<Text>, dflt: nat)

  datatype Metaclass = Metaclass(name: string, fields: seq<Field>)

  type Tables = seq<Metaclass>

  const NULL_DEFAULT: nat := 255

  function FieldNames(fields: seq<Field>): (names: seq<Prop>)
    ensures |names| == |fields|
    ensures forall i :: 0 <= i < |fields| ==> names[i] == fields[i].name
  {
    seq(|fields|, i requires 0 <= i < |fields| => fields[i].name)
  }

  ghost predicate ValidFields(fields: seq<Field>) {
    && |fields| <= 64
    && NoDup(FieldNames(fields))
    && forall f :: f in fields && f.kind.KEnum? && f.dflt != NULL_DEFAULT ==> f.dflt < |f.vocab|
  }

  ghost predicate ValidTables(tables: Tables) {
    && |tables| <= 0x1_0000
    && (forall i, j :: 0 <= i < j < |tables| ==> tables[i].name != tables[j].name)
    && (forall m :: m in tables ==> ValidFields(m.fields))
  }

  /** The wire ordinal of a property, or `|fields|` for a key outside the table. */
  function Ordinal(fields: seq<Field>, key: Prop): (ord: nat)
    ensures ord <= |fields|
    ensures ord < |fields| ==> fields[ord].name == key
    ensures ord == |fields| ==> forall f :: f in fields ==> f.name != key
  {
    if fields == [] then 0
    else if fields[0].name == key then 0
    else 1 + Ordinal(fields[1..], key)
  }

  lemma {:induction false} OrdinalOfField(fields: seq<Field>, ord: nat)
    requires ord < |fields| && NoDup(FieldNames(fields))
    ensures Ordinal(fields, fields[ord].name) == ord
  {
    var at := Ordinal(fields, fields[ord].name);
    assert fields[ord] in fields;
    assert FieldNames(fields)[at] == FieldNames(fields)[ord];
  }

  predicate HasField(fields: seq<Field>, key: Prop) {
    Ordinal(fields, key) < |fields|
  }

  /** The wire type code of a metaclass, or `|tables|` for an unknown name. */
  function TypeCode(tables: Tables, name: string): (code: nat)
    ensures code <= |tables|
    ensures code < |tables| ==> tables[code].name == name
  {
    if tables == [] then 0
    else if tables[0].name == name then 0
    else 1 + TypeCode(tables[1..], name)
  }

  predicate Known(tables: Tables, name: string) {
    TypeCode(tables, name) < |tables|
  }

  /** The field table of a metaclass; empty for an unknown name. */
  function FieldsOf(tables: Tables, name: string): (fields: seq<Field>)
    ensures Known(tables, name) ==> fields == tables[TypeCode(tables, name)].fields
  {
    if Known(tables, name) then tables[TypeCode(tables, name)].fields else []
  }

  lemma FieldsOfValid(tables: Tables, name: string)
    requires ValidTables(tables)
    ensures ValidFields(FieldsOf(tables, name))
  {
    if Known(tables, name) {
      assert tables[TypeCode(tables, name)] in tables;
    }
  }

  // ---- defaults --------------------------------------------------------------------

  /** The default a present property may spell, by which the decoder restores it. */
  function DefaultValue(f: Field, id: Uuid): Option<Value> {
    match f.kind
    case KBool => Some(Bool(f.dflt == 1))
    case KStr => Some(Null)
    case KRef => Some(Null)
    case KStrList => Some(Arr([]))
    case KRefList => Some(Arr([]))
    case KEnum =>
      if f.dflt == NULL_DEFAULT then Some(Null)
      else if f.dflt < |f.vocab| then Some(Str(f.vocab[f.dflt]))
      else None
    case KElementId => Some(Str(Spell(id)))
    case KLiteral => None
  }

  /** Whether a value is its field's default, by which the encoder elides it. */
  predicate IsDefault(f: Field, id: Uuid, v: Value) {
    match f.kind
    case KBool => v.Bool? && v.b == (f.dflt == 1)
    case KStr => v.Null?
    case KRef => v.Null?
    case KStrList => v.Arr? && v.items == []
    case KRefList => v.Arr? && v.items == []
    case KEnum =>
      if f.dflt == NULL_DEFAULT then v.Null?
      else v.Str? && f.dflt < |f.vocab| && v.text == f.vocab[f.dflt]
    case KElementId => v.Str? && v.text == Spell(id)
    case KLiteral => false
  }

  /** The two default rules, written apart, are one rule on every field and value. */
  lemma DefaultRulesAgree(f: Field, id: Uuid, v: Value)
    ensures IsDefault(f, id, v) <==> DefaultValue(f, id) == Some(v)
  {
    hide Spell;
  }

  // ---- ownership -------------------------------------------------------------------

  /** The backpointer of a slot. */
  function BackProp(slot: nat): Prop {
    if slot == 0 then OwningRelationship else OwningRelatedElement
  }

  /** The forward list a slot's backpointer derives from. */
  function ForwardProp(slot: nat): Prop {
    if slot == 0 then OwnedRelatedElement else OwnedRelationship
  }

  /** The element identities a list of references names, in order. */
  function RefIds(items: seq<Value>): (ids: seq<Uuid>)
    ensures |ids| <= |items|
  {
    if items == [] then []
    else (if items[0].Ref? then [items[0].id] else []) + RefIds(items[1..])
  }

  lemma {:induction false} RefIdsAppend(a: seq<Value>, b: seq<Value>)
    ensures RefIds(a + b) == RefIds(a) + RefIds(b)
  {
    if a == [] {
      assert a + b == b;
    } else {
      assert (a + b)[0] == a[0] && (a + b)[1..] == a[1..] + b;
      RefIdsAppend(a[1..], b);
    }
  }

  /** The identities the list property `key` of `e` names; none where it is not a list. */
  function ListIds(e: Element, key: Prop): seq<Uuid> {
    if key in e.props && e.props[key].Arr? then RefIds(e.props[key].items) else []
  }

  function Ids(doc: Doc): (ids: seq<Uuid>)
    ensures |ids| == |doc|
    ensures forall i :: 0 <= i < |doc| ==> ids[i] == doc[i].id
  {
    seq(|doc|, i requires 0 <= i < |doc| => doc[i].id)
  }

  lemma IdsAppend(a: Doc, b: Doc)
    ensures Ids(a + b) == Ids(a) + Ids(b)
  {
  }

  lemma IdsOne(e: Element)
    ensures Ids([e]) == [e.id] && Ids([]) == []
  {
  }

  ghost predicate DistinctIds(doc: Doc) {
    NoDup(Ids(doc))
  }
}
