/**
  The wire format pinned byte for byte: two elements that exercise the whole snapshot layout,
  over the field tables of their two metaclasses.
 */
module WireFormat {
  import opened Wrappers
  import opened Seqs
  import opened Cbor
  import opened Model
  import opened Owners
  import opened Values
  import opened Records
  import opened Sections
  import opened Snapshot
  import opened CanonDoc
  import opened Delta
  import opened DeltaTheorems
  import opened Index
  import opened IndexBytes

  // ---- the tables and the document -------------------------------------------------

  function Ascii(s: string): (t: Text)
    requires forall i :: 0 <= i < |s| ==> s[i] < 128 as char
    ensures |t| == |s| && forall i :: 0 <= i < |s| ==> t[i] == s[i] as int
  {
    seq(|s|, i requires 0 <= i < |s| => s[i] as int)
  }

  function Plain(name: string, kind: Kind): Field {
    Field(Named(name), kind, [], 0)
  }

  const VISIBILITIES: seq<Text> := [Ascii("private"), Ascii("protected"), Ascii("public")]

  const PACKAGE_FIELDS: seq<Field> := [
    Plain("aliasIds", KStrList), Plain("declaredName", KStr), Plain("declaredShortName", KStr),
    Plain("elementId", KElementId), Plain("isImpliedIncluded", KBool),
    Field(OwnedRelationship, KRefList, [], 0), Field(OwningRelationship, KRef, [], 0)]

  const MEMBERSHIP_FIELDS: seq<Field> := [
    Plain("aliasIds", KStrList), Plain("declaredName", KStr), Plain("declaredShortName", KStr),
    Plain("elementId", KElementId), Plain("isImplied", KBool), Plain("isImpliedIncluded", KBool),
    Plain("memberElement", KRef), Plain("memberName", KStr), Plain("memberShortName", KStr),
    Field(OwnedRelatedElement, KRefList, [], 0), Field(OwnedRelationship, KRefList, [], 0),
    Field(OwningRelatedElement, KRef, [], 0), Field(OwningRelationship, KRef, [], 0),
    Plain("source", KRefList), Plain("target", KRefList), Field(Named("visibility"), KEnum, VISIBILITIES, 2)]

  /** Tables that hold these two metaclasses at their places. */
  ghost predicate HasBoth(tables: Tables) {
    && TypeCode(tables, "Package") == 109 < |tables| && FieldsOf(tables, "Package") == PACKAGE_FIELDS
    && TypeCode(tables, "OwningMembership") == 108 && FieldsOf(tables, "OwningMembership") == MEMBERSHIP_FIELDS
  }

  const PACKAGE: Uuid := 0x0000_0000_0000_4000_8000_0000_0000_0001
  const MEMBERSHIP: Uuid := 0x0000_0000_0000_4000_8000_0000_0000_0002
  const MEMBER: Uuid := 0x1111_1111_1111_4111_8111_1111_1111_1111

  /** The spelling of such an identity, by its last group. */
  function IdText(last: string): Text
    requires forall i :: 0 <= i < |last| ==> last[i] < 128 as char
  {
    Ascii("00000000") + Ascii("-") + Ascii("0000") + Ascii("-") + Ascii("4000") + Ascii("-") + Ascii("8000")
    + Ascii("-") + Ascii(last)
  }

  const PACKAGE_TEXT: Text := IdText("000000000001")
  const MEMBERSHIP_TEXT: Text := IdText("000000000002")

  const PACKAGE_ELEMENT: Element := Element(PACKAGE, "Package", map[
    Named("declaredName") := Str(Ascii("P")),
    Named("elementId") := Str(PACKAGE_TEXT),
    Named("isImpliedIncluded") := Bool(false),
    OwnedRelationship := Arr([Ref(MEMBERSHIP)]),
    OwningRelationship := Null])

  const MEMBERSHIP_ELEMENT: Element := Element(MEMBERSHIP, "OwningMembership", map[
    Named("elementId") := Str(MEMBERSHIP_TEXT),
    Named("isImplied") := Bool(false),
    Named("isImpliedIncluded") := Bool(false),
    Named("memberElement") := Ref(MEMBER),
    Named("visibility") := Str(Ascii("public")),
    OwnedRelatedElement := Arr([]),
    OwnedRelationship := Arr([]),
    OwningRelatedElement := Ref(PACKAGE)])

  const DOC: Doc := [PACKAGE_ELEMENT, MEMBERSHIP_ELEMENT]

  // ---- identities ------------------------------------------------------------------

  /** Eight bytes, most significant first. */
  lemma EightBytes(a: byte, b: byte, c: byte, d: byte, e: byte, f: byte, g: byte, h: byte)
    ensures
      FromBe([a, b, c, d, e, f, g, h])
      == 256 * (256 * (256 * (256 * (256 * (256 * (256 * a + b) + c) + d) + e) + f) + g) + h
  {
    hide FromBe;
    FromBeLast([a], b);
    FromBeLast([a, b], c);
    FromBeLast([a, b, c], d);
    FromBeLast([a, b, c, d], e);
    FromBeLast([a, b, c, d, e], f);
    FromBeLast([a, b, c, d, e, f], g);
    FromBeLast([a, b, c, d, e, f, g], h);
    FromBeLast([], a);
    assert [] + [a] == [a] && [a] + [b] == [a, b] && [a, b] + [c] == [a, b, c];
    assert [a, b, c] + [d] == [a, b, c, d] && [a, b, c, d] + [e] == [a, b, c, d, e];
    assert [a, b, c, d, e] + [f] == [a, b, c, d, e, f] && [a, b, c, d, e, f] + [g] == [a, b, c, d, e, f, g];
    assert [a, b, c, d, e, f, g] + [h] == [a, b, c, d, e, f, g, h];
    NoBytes();
  }

  lemma NoBytes()
    ensures FromBe([]) == 0
  {
  }

  lemma FromBeLast(bs: seq<byte>, b: byte)
    ensures FromBe(bs + [b]) == 256 * FromBe(bs) + b
  {
    assert (bs + [b])[..|bs|] == bs;
  }

  /** Sixteen bytes are those of the number they spell. */
  lemma BytesAre(u: Uuid, high: seq<byte>, low: seq<byte>)
    requires |high| == |low| == 8 && u == FromBe(high) * U64_END + FromBe(low)
    ensures UuidBytes(u) == high + low
  {
    hide Be, FromBe;
    Pow256Values();
    FromBeJoin(high, low);
    BeOf(high + low);
  }

  lemma {:induction false} FromBeJoin(a: seq<byte>, b: seq<byte>)
    ensures FromBe(a + b) == FromBe(a) * Pow256(|b|) + FromBe(b)
  {
    hide FromBe;
    if b == [] {
      assert a + b == a;
      NoBytes();
    } else {
      var n := |b| - 1;
      FromBeJoin(a, b[..n]);
      FromBeLast(a + b[..n], b[n]);
      FromBeLast(b[..n], b[n]);
      assert a + b == (a + b[..n]) + [b[n]] && b == b[..n] + [b[n]];
      Scaled(FromBe(a), Pow256(n));
    }
  }

  lemma Scaled(v: nat, p: nat)
    ensures 256 * (v * p) == v * (256 * p)
  {
  }

  lemma IdBytes()
    ensures UuidBytes(PACKAGE) == [0, 0, 0, 0, 0, 0, 0x40, 0] + [0x80, 0, 0, 0, 0, 0, 0, 1]
    ensures UuidBytes(MEMBERSHIP) == [0, 0, 0, 0, 0, 0, 0x40, 0] + [0x80, 0, 0, 0, 0, 0, 0, 2]
    ensures
      UuidBytes(MEMBER)
      == [0x11, 0x11, 0x11, 0x11, 0x11, 0x11, 0x41, 0x11] + [0x81, 0x11, 0x11, 0x11, 0x11, 0x11, 0x11, 0x11]
  {
    hide FromBe, UuidBytes;
    EightBytes(0, 0, 0, 0, 0, 0, 0x40, 0);
    EightBytes(0x80, 0, 0, 0, 0, 0, 0, 1);
    EightBytes(0x80, 0, 0, 0, 0, 0, 0, 2);
    EightBytes(0x11, 0x11, 0x11, 0x11, 0x11, 0x11, 0x41, 0x11);
    EightBytes(0x81, 0x11, 0x11, 0x11, 0x11, 0x11, 0x11, 0x11);
    BytesAre(PACKAGE, [0, 0, 0, 0, 0, 0, 0x40, 0], [0x80, 0, 0, 0, 0, 0, 0, 1]);
    BytesAre(MEMBERSHIP, [0, 0, 0, 0, 0, 0, 0x40, 0], [0x80, 0, 0, 0, 0, 0, 0, 2]);
    BytesAre(MEMBER, [0x11, 0x11, 0x11, 0x11, 0x11, 0x11, 0x41, 0x11],
      [0x81, 0x11, 0x11, 0x11, 0x11, 0x11, 0x11, 0x11]);
  }

  // ---- the spelling of an identity -------------------------------------------------

  lemma {:induction false} HexJoin(a: seq<byte>, b: seq<byte>)
    ensures Hex(a + b) == Hex(a) + Hex(b)
  {
    hide HexDigit;
    if a == [] {
      assert a + b == b;
    } else {
      HexJoin(a[1..], b);
      assert (a + b)[0] == a[0] && (a + b)[1..] == a[1..] + b;
    }
  }

  lemma HexTwo(a: byte, b: byte)
    ensures Hex([a, b]) == [HexDigit(a / 16), HexDigit(a % 16), HexDigit(b / 16), HexDigit(b % 16)]
  {
    assert [a, b][1..] == [b] && [b][1..] == [];
    assert Hex([b]) == [HexDigit(b / 16), HexDigit(b % 16)] + Hex([]);
  }

  lemma HexZeros()
    ensures Hex([0, 0]) == [48, 48, 48, 48] && Hex([0, 0, 0, 0]) == [48, 48, 48, 48, 48, 48, 48, 48]
    ensures Hex([0x40, 0]) == [52, 48, 48, 48] && Hex([0x80, 0]) == [56, 48, 48, 48]
    ensures Hex([0, 0, 0, 0, 0, 1]) == [48, 48, 48, 48, 48, 48, 48, 48, 48, 48, 48, 49]
    ensures Hex([0, 0, 0, 0, 0, 2]) == [48, 48, 48, 48, 48, 48, 48, 48, 48, 48, 48, 50]
  {
    hide Hex;
    HexTwo(0, 0);
    HexTwo(0x40, 0);
    HexTwo(0x80, 0);
    HexTwo(0, 1);
    HexTwo(0, 2);
    HexJoin([0, 0], [0, 0]);
    assert [0, 0] + [0, 0] == [0, 0, 0, 0];
    HexJoin([0, 0, 0, 0], [0, 1]);
    HexJoin([0, 0, 0, 0], [0, 2]);
    assert [0, 0, 0, 0] + [0, 1] == [0, 0, 0, 0, 0, 1] && [0, 0, 0, 0] + [0, 2] == [0, 0, 0, 0, 0, 2];
  }

  lemma IdsSpelled()
    ensures Spell(PACKAGE) == PACKAGE_TEXT && Spell(MEMBERSHIP) == MEMBERSHIP_TEXT
  {
    hide Hex, UuidBytes;
    IdBytes();
    HexZeros();
    assert [48, 48, 48, 48, 48, 48, 48, 48] == Ascii("00000000") && [45] == Ascii("-");
    assert [48, 48, 48, 48] == Ascii("0000") && [52, 48, 48, 48] == Ascii("4000") && [56, 48, 48, 48] == Ascii("8000");
    assert [48, 48, 48, 48, 48, 48, 48, 48, 48, 48, 48, 49] == Ascii("000000000001");
    assert [48, 48, 48, 48, 48, 48, 48, 48, 48, 48, 48, 50] == Ascii("000000000002");
    SpelledAs(PACKAGE, 1);
    SpelledAs(MEMBERSHIP, 2);
  }

  lemma SpelledAs(u: Uuid, last: byte)
    requires UuidBytes(u) == [0, 0, 0, 0, 0, 0, 0x40, 0] + [0x80, 0, 0, 0, 0, 0, 0, last]
    ensures
      Spell(u)
      == Hex([0, 0, 0, 0]) + [45] + Hex([0, 0]) + [45] + Hex([0x40, 0]) + [45] + Hex([0x80, 0]) + [45]
         + Hex([0, 0, 0, 0, 0, last])
  {
    hide Hex, UuidBytes;
    var b := UuidBytes(u);
    assert b[..4] == [0, 0, 0, 0] && b[4..6] == [0, 0] && b[6..8] == [0x40, 0];
    assert b[8..10] == [0x80, 0] && b[10..] == [0, 0, 0, 0, 0, last];
  }

  lemma Digits()
    ensures HexDigit(0) == 48 && HexDigit(1) == 49 && HexDigit(2) == 50 && HexDigit(3) == 51 && HexDigit(4) == 52
    ensures HexDigit(5) == 53 && HexDigit(6) == 54 && HexDigit(7) == 55 && HexDigit(8) == 56 && HexDigit(9) == 57
    ensures HexDigit(10) == 97 && HexDigit(11) == 98 && HexDigit(12) == 99
    ensures HexDigit(13) == 100 && HexDigit(14) == 101 && HexDigit(15) == 102
  {
  }

  lemma HexFour(a: byte, b: byte, c: byte, d: byte)
    ensures Hex([a, b, c, d]) == Hex([a, b]) + Hex([c, d])
  {
    HexJoin([a, b], [c, d]);
    assert [a, b] + [c, d] == [a, b, c, d];
  }

  lemma HexSix(a: byte, b: byte, c: byte, d: byte, e: byte, f: byte)
    ensures Hex([a, b, c, d, e, f]) == Hex([a, b]) + Hex([c, d]) + Hex([e, f])
  {
    HexFour(a, b, c, d);
    HexJoin([a, b, c, d], [e, f]);
    assert [a, b, c, d] + [e, f] == [a, b, c, d, e, f];
  }

  const DIGITS: Uuid := 0x0123_4567_89AB_CDEF_FEDC_BA98_7654_3210

  lemma DigitBytes()
    ensures
      UuidBytes(DIGITS)
      == [0x01, 0x23, 0x45, 0x67, 0x89, 0xAB, 0xCD, 0xEF] + [0xFE, 0xDC, 0xBA, 0x98, 0x76, 0x54, 0x32, 0x10]
  {
    hide FromBe, UuidBytes;
    EightBytes(0x01, 0x23, 0x45, 0x67, 0x89, 0xAB, 0xCD, 0xEF);
    EightBytes(0xFE, 0xDC, 0xBA, 0x98, 0x76, 0x54, 0x32, 0x10);
    BytesAre(DIGITS, [0x01, 0x23, 0x45, 0x67, 0x89, 0xAB, 0xCD, 0xEF],
      [0xFE, 0xDC, 0xBA, 0x98, 0x76, 0x54, 0x32, 0x10]);
  }

  lemma DigitGroups()
    ensures
      Spell(DIGITS)
      == Hex([0x01, 0x23, 0x45, 0x67]) + [45] + Hex([0x89, 0xAB]) + [45] + Hex([0xCD, 0xEF]) + [45] + Hex([0xFE, 0xDC])
         + [45] + Hex([0xBA, 0x98, 0x76, 0x54, 0x32, 0x10])
  {
    hide Hex, UuidBytes;
    DigitBytes();
    var b := UuidBytes(DIGITS);
    assert b[..4] == [0x01, 0x23, 0x45, 0x67] && b[4..6] == [0x89, 0xAB] && b[6..8] == [0xCD, 0xEF];
    assert b[8..10] == [0xFE, 0xDC] && b[10..] == [0xBA, 0x98, 0x76, 0x54, 0x32, 0x10];
  }

  lemma OuterGroups()
    ensures Hex([0x01, 0x23, 0x45, 0x67]) == Ascii("01234567")
    ensures Hex([0xBA, 0x98, 0x76, 0x54, 0x32, 0x10]) == Ascii("ba9876543210")
  {
    hide Hex, HexDigit;
    Digits();
    HexFour(0x01, 0x23, 0x45, 0x67);
    HexSix(0xBA, 0x98, 0x76, 0x54, 0x32, 0x10);
    HexTwo(0x01, 0x23);
    HexTwo(0x45, 0x67);
    HexTwo(0xBA, 0x98);
    HexTwo(0x76, 0x54);
    HexTwo(0x32, 0x10);
  }

  lemma InnerGroups()
    ensures Hex([0x89, 0xAB]) == Ascii("89ab") && Hex([0xCD, 0xEF]) == Ascii("cdef")
    ensures Hex([0xFE, 0xDC]) == Ascii("fedc")
  {
    hide Hex, HexDigit;
    Digits();
    HexTwo(0x89, 0xAB);
    HexTwo(0xCD, 0xEF);
    HexTwo(0xFE, 0xDC);
  }

  /** An identity of every digit, spelled: lowercase, in groups of 8, 4, 4, 4 and 12. */
  lemma EveryDigit()
    ensures
      Spell(DIGITS)
      == Ascii("01234567") + Ascii("-") + Ascii("89ab") + Ascii("-") + Ascii("cdef") + Ascii("-") + Ascii("fedc")
         + Ascii("-") + Ascii("ba9876543210")
  {
    hide Hex, Spell;
    DigitGroups();
    OuterGroups();
    InnerGroups();
    assert [45] == Ascii("-");
  }

  // ---- the sections ----------------------------------------------------------------

  lemma OwnersAre()
    ensures DerivationFor(DOC, true, PACKAGE_ELEMENT) == Implied(None, None)
    ensures DerivationFor(DOC, true, MEMBERSHIP_ELEMENT) == Implied(None, Some(PACKAGE))
  {
    hide Ascii, Spell;
    assert ListIds(PACKAGE_ELEMENT, OwnedRelationship) == [MEMBERSHIP];
    assert ListIds(PACKAGE_ELEMENT, OwnedRelatedElement) == [];
    assert ListIds(MEMBERSHIP_ELEMENT, OwnedRelationship) == [] == ListIds(MEMBERSHIP_ELEMENT, OwnedRelatedElement);
    assert DOC[0] == PACKAGE_ELEMENT && DOC[1] == MEMBERSHIP_ELEMENT;
  }

  /** What field `k` of the package's record holds. */
  ghost predicate PackageHas(k: nat, h: Records.Holding) {
    k < 7 && Hold(PACKAGE_FIELDS[k], PACKAGE_ELEMENT, Implied(None, None)) == h
  }

  ghost predicate MembershipHas(k: nat, h: Records.Holding) {
    k < 16 && Hold(MEMBERSHIP_FIELDS[k], MEMBERSHIP_ELEMENT, Implied(None, Some(PACKAGE))) == h
  }

  lemma PackageLacks()
    ensures PackageHas(0, Nothing) && PackageHas(2, Nothing) && PackageHas(6, Nothing)
  {
    hide Ascii, Spell, DefaultValue, IsDefault;
  }

  lemma PackageDefaults()
    ensures PackageHas(3, Presence) && PackageHas(4, Presence)
  {
    hide Ascii, Spell;
    IdsSpelled();
  }

  lemma PackageEntries()
    ensures PackageHas(1, Entry(Str(Ascii("P")))) && PackageHas(5, Entry(Arr([Ref(MEMBERSHIP)])))
  {
    hide Ascii, Spell;
  }

  lemma MembershipLacks()
    ensures MembershipHas(0, Nothing) && MembershipHas(1, Nothing) && MembershipHas(2, Nothing)
    ensures MembershipHas(7, Nothing) && MembershipHas(8, Nothing)
  {
    hide Ascii, Spell, DefaultValue, IsDefault, Elides;
  }

  lemma MembershipLacksMore()
    ensures MembershipHas(12, Nothing) && MembershipHas(13, Nothing) && MembershipHas(14, Nothing)
  {
    hide Ascii, Spell, DefaultValue, IsDefault, Elides;
  }

  lemma MembershipMirror()
    ensures MembershipHas(3, Presence)
  {
    hide Ascii, Spell;
    IdsSpelled();
  }

  lemma MembershipFlags()
    ensures MembershipHas(4, Presence) && MembershipHas(5, Presence)
  {
    hide Ascii, Spell;
  }

  lemma MembershipLists()
    ensures MembershipHas(9, Presence) && MembershipHas(10, Presence)
  {
    hide Ascii, Spell;
  }

  lemma MembershipVisible()
    ensures MembershipHas(15, Presence)
  {
    hide Ascii, Spell;
  }

  lemma MembershipEntries()
    ensures MembershipHas(6, Entry(Ref(MEMBER))) && MembershipHas(11, Nothing)
  {
    hide Ascii, Spell;
  }

  // ---- the records -----------------------------------------------------------------

  lemma PackFour(a: bool, b: bool, c: bool, d: bool, rest: seq<bool>)
    ensures
      Pack([a, b, c, d] + rest)
      == (if a then 1 else 0) + (if b then 2 else 0) + (if c then 4 else 0) + (if d then 8 else 0) + 16 * Pack(rest)
  {
    hide Pack;
    PackOver(d, rest);
    PackOver(c, [d] + rest);
    PackOver(b, [c] + ([d] + rest));
    PackOver(a, [b] + ([c] + ([d] + rest)));
    assert [a, b, c, d] + rest == [a] + ([b] + ([c] + ([d] + rest)));
  }

  lemma PackOver(b: bool, rest: seq<bool>)
    ensures Pack([b] + rest) == (if b then 1 else 0) + 2 * Pack(rest)
  {
    assert ([b] + rest)[1..] == rest;
  }

  lemma PackageBits()
    ensures Pack(PresenceBits(PACKAGE_FIELDS, PACKAGE_ELEMENT, Implied(None, None))) == 0x18
  {
    hide Ascii, Spell, Pack, Hold;
    PackageLacks();
    PackageDefaults();
    PackageEntries();
    var bits := PresenceBits(PACKAGE_FIELDS, PACKAGE_ELEMENT, Implied(None, None));
    var high := [true, false, false];
    assert bits == [false, false, false, true] + high;
    PackFour(false, false, false, true, high);
    PackFour(true, false, false, false, []);
    assert high + [false] == [true, false, false, false] + [];
    PackZero();
    PackLast(high);
  }

  lemma PackZero()
    ensures Pack([]) == 0
  {
  }

  /** A clear bit above the others changes nothing. */
  lemma {:induction false} PackLast(bits: seq<bool>)
    ensures Pack(bits + [false]) == Pack(bits)
  {
    if bits == [] {
      assert [] + [false] == [false] && [false][1..] == [];
    } else {
      PackLast(bits[1..]);
      assert (bits + [false])[0] == bits[0] && (bits + [false])[1..] == bits[1..] + [false];
    }
  }

  const MEMBERSHIP_BITS: seq<bool> := [
    false, false, false, true, true, true, false, false, false, true, true, false, false, false, false, true]

  lemma MembershipPresence()
    ensures PresenceBits(MEMBERSHIP_FIELDS, MEMBERSHIP_ELEMENT, Implied(None, Some(PACKAGE))) == MEMBERSHIP_BITS
  {
    hide Ascii, Spell, Hold;
    MembershipLacks();
    MembershipLacksMore();
    MembershipMirror();
    MembershipFlags();
    MembershipLists();
    MembershipVisible();
    MembershipEntries();
  }

  lemma MembershipBits()
    ensures Pack(PresenceBits(MEMBERSHIP_FIELDS, MEMBERSHIP_ELEMENT, Implied(None, Some(PACKAGE)))) == 0x8638
  {
    hide Pack, PresenceBits, MEMBERSHIP_ELEMENT;
    MembershipPresence();
    var bits := MEMBERSHIP_BITS;
    var b4, b8, b12 := bits[4..], bits[8..], bits[12..];
    assert bits == [false, false, false, true] + b4 && b4 == [true, true, false, false] + b8;
    assert b8 == [false, true, true, false] + b12 && b12 == [false, false, false, true] + [];
    PackFour(false, false, false, true, b4);
    PackFour(true, true, false, false, b8);
    PackFour(false, true, true, false, b12);
    PackFour(false, false, false, true, []);
    PackZero();
  }

  /** Fields without an entry add nothing to a record. */
  lemma {:induction false} NoEntries(sp: Spelling, fields: seq<Field>, e: Element, d: Derivation, k: nat, j: nat)
    requires k <= j <= |fields| && forall i :: k <= i < j ==> !Hold(fields[i], e, d).Entry?
    ensures WriteEntries(sp, fields, e, d, k) == WriteEntries(sp, fields, e, d, j)
    ensures CountEntries(fields, e, d, k) == CountEntries(fields, e, d, j)
    decreases j - k
  {
    hide Hold;
    if k < j {
      NoEntries(sp, fields, e, d, k + 1, j);
      NoEntry(sp, fields, e, d, k);
    }
  }

  lemma NoEntry(sp: Spelling, fields: seq<Field>, e: Element, d: Derivation, k: nat)
    requires k < |fields| && !Hold(fields[k], e, d).Entry?
    ensures WriteEntries(sp, fields, e, d, k) == WriteEntries(sp, fields, e, d, k + 1)
    ensures CountEntries(fields, e, d, k) == CountEntries(fields, e, d, k + 1)
  {
    hide Hold;
    var tail := WriteEntries(sp, fields, e, d, k + 1);
    if tail.Ok? {
      assert [] + tail.value == tail.value;
    }
  }

  lemma OneEntry(sp: Spelling, fields: seq<Field>, e: Element, d: Derivation, k: nat, ts: Toks)
    requires k < |fields| && Hold(fields[k], e, d).Entry?
    requires WriteValue(sp, fields[k], Hold(fields[k], e, d).v) == Ok(ts)
    ensures
      WriteEntries(sp, fields, e, d, k + 1).Ok? ==>
        WriteEntries(sp, fields, e, d, k) == Ok([Uint(k)] + ts + WriteEntries(sp, fields, e, d, k + 1).value)
    ensures CountEntries(fields, e, d, k) == 1 + CountEntries(fields, e, d, k + 1)
  {
    hide Hold, WriteValue;
  }

  lemma NoMoreEntries(sp: Spelling, fields: seq<Field>, e: Element, d: Derivation)
    ensures WriteEntries(sp, fields, e, d, |fields|) == Ok([]) && CountEntries(fields, e, d, |fields|) == 0
  {
  }

  const NUMBERING: Interner := Interner(map[PACKAGE := 0, MEMBERSHIP := 1], [MEMBER])

  lemma Indices()
    ensures IndexIn(NUMBERING, MEMBERSHIP) == Ok(1) && IndexIn(NUMBERING, MEMBER) == Ok(2)
  {
    assert |NUMBERING.local| == 2 by {
      assert NUMBERING.local.Keys == {PACKAGE, MEMBERSHIP};
    }
  }

  lemma PackageValues()
    ensures WriteValue(Wire(NUMBERING), PACKAGE_FIELDS[1], Str(Ascii("P"))) == Ok([Tstr([0x50])])
    ensures WriteValue(Wire(NUMBERING), PACKAGE_FIELDS[5], Arr([Ref(MEMBERSHIP)])) == Ok([Array(1), Uint(1)])
  {
    hide WriteRefs;
    assert Ascii("P") == [0x50];
    RefListWritten();
    assert PACKAGE_FIELDS[5] == Field(OwnedRelationship, KRefList, [], 0);
  }

  lemma PackageWritten()
    ensures
      var e, d := PACKAGE_ELEMENT, Implied(None, None);
      && WriteEntries(Wire(NUMBERING), PACKAGE_FIELDS, e, d, 0)
         == Ok([Uint(1), Tstr([0x50]), Uint(5), Array(1), Uint(1)])
      && CountEntries(PACKAGE_FIELDS, e, d, 0) == 2
  {
    hide Ascii, Spell, Hold, WriteEntries, CountEntries, WriteValue;
    var sp, e, d := Wire(NUMBERING), PACKAGE_ELEMENT, Implied(None, None);
    PackageLacks();
    PackageDefaults();
    PackageEntries();
    PackageValues();
    NoMoreEntries(sp, PACKAGE_FIELDS, e, d);
    NoEntries(sp, PACKAGE_FIELDS, e, d, 6, 7);
    OneEntry(sp, PACKAGE_FIELDS, e, d, 5, [Array(1), Uint(1)]);
    NoEntries(sp, PACKAGE_FIELDS, e, d, 2, 5);
    OneEntry(sp, PACKAGE_FIELDS, e, d, 1, [Tstr([0x50])]);
    NoEntries(sp, PACKAGE_FIELDS, e, d, 0, 1);
    var last := [Uint(5)] + [Array(1), Uint(1)] + [];
    assert [Uint(1)] + [Tstr([0x50])] + last == [Uint(1), Tstr([0x50]), Uint(5), Array(1), Uint(1)];
  }

  lemma RefListWritten()
    ensures
      WriteValue(Wire(NUMBERING), Field(OwnedRelationship, KRefList, [], 0), Arr([Ref(MEMBERSHIP)]))
      == Ok([Array(1), Uint(1)])
  {
    Indices();
    hide IndexIn;
    var items := [Ref(MEMBERSHIP)];
    assert items[1..] == [] && items[0] == Ref(MEMBERSHIP);
    assert WriteRefs(Wire(NUMBERING), []) == Ok([]);
    assert WriteRefs(Wire(NUMBERING), items) == Ok([Uint(1)] + []);
    assert [Array(1)] + ([Uint(1)] + []) == [Array(1), Uint(1)];
  }

  lemma MemberValue()
    ensures WriteValue(Wire(NUMBERING), MEMBERSHIP_FIELDS[6], Ref(MEMBER)) == Ok([Uint(2)])
  {
    hide IndexIn;
    Indices();
  }

  lemma MembershipEntryless()
    ensures
      forall k :: 0 <= k < 16 && k != 6 ==>
        !Hold(MEMBERSHIP_FIELDS[k], MEMBERSHIP_ELEMENT, Implied(None, Some(PACKAGE))).Entry?
  {
    hide Ascii, Spell, Hold;
    MembershipLacks();
    MembershipLacksMore();
    MembershipMirror();
    MembershipFlags();
    MembershipLists();
    MembershipVisible();
    MembershipEntries();
  }

  lemma MembershipWritten()
    ensures
      var e, d := MEMBERSHIP_ELEMENT, Implied(None, Some(PACKAGE));
      && WriteEntries(Wire(NUMBERING), MEMBERSHIP_FIELDS, e, d, 0) == Ok([Uint(6), Uint(2)])
      && CountEntries(MEMBERSHIP_FIELDS, e, d, 0) == 1
  {
    hide Ascii, Spell, Hold, WriteEntries, CountEntries, WriteValue;
    var sp, e, d := Wire(NUMBERING), MEMBERSHIP_ELEMENT, Implied(None, Some(PACKAGE));
    MemberValue();
    MembershipEntryless();
    MembershipEntries();
    NoMoreEntries(sp, MEMBERSHIP_FIELDS, e, d);
    NoEntries(sp, MEMBERSHIP_FIELDS, e, d, 7, 16);
    OneEntry(sp, MEMBERSHIP_FIELDS, e, d, 6, [Uint(2)]);
    NoEntries(sp, MEMBERSHIP_FIELDS, e, d, 0, 6);
    assert [Uint(6)] + [Uint(2)] + [] == [Uint(6), Uint(2)];
  }

  // ---- the identity tables ---------------------------------------------------------

  lemma PackageRefs(f: Field, key: Prop)
    requires key in PACKAGE_ELEMENT.props
    ensures forall u :: u in FieldRefs(f, PACKAGE_ELEMENT.props[key]) ==> u == MEMBERSHIP
  {
    hide Ascii, Spell;
    assert RefIds([Ref(MEMBERSHIP)]) == [MEMBERSHIP];
  }

  lemma MembershipRefs(f: Field, key: Prop)
    requires key in MEMBERSHIP_ELEMENT.props
    ensures forall u :: u in FieldRefs(f, MEMBERSHIP_ELEMENT.props[key]) ==> u in {PACKAGE, MEMBER}
  {
    hide Ascii, Spell;
  }

  lemma MemberAt()
    ensures |MEMBERSHIP_FIELDS| == 16 && MEMBERSHIP_FIELDS[6] == Plain("memberElement", KRef)
    ensures forall i :: 0 <= i < 16 && i != 6 ==> MEMBERSHIP_FIELDS[i].name != Named("memberElement")
  {
    hide Ascii;
  }

  lemma MemberRef()
    ensures Named("memberElement") in MEMBERSHIP_ELEMENT.props
    ensures MEMBER in FieldRefs(Plain("memberElement", KRef), MEMBERSHIP_ELEMENT.props[Named("memberElement")])
  {
    hide Ascii, Spell;
  }

  lemma MemberNamed(tables: Tables)
    requires HasBoth(tables)
    ensures MEMBER in ElementRefs(tables, MEMBERSHIP_ELEMENT)
  {
    hide Ascii, Spell, Ordinal, FieldsOf, TypeCode, FieldRefs, MEMBERSHIP_FIELDS;
    MemberAt();
    MemberRef();
    assert MEMBERSHIP_FIELDS[6] in MEMBERSHIP_FIELDS;
    assert Ordinal(MEMBERSHIP_FIELDS, Named("memberElement")) == 6;
  }

  lemma RefsAre(tables: Tables)
    requires HasBoth(tables)
    ensures DocRefs(tables, DOC) - {PACKAGE, MEMBERSHIP} == {MEMBER}
  {
    hide Ascii, Spell, Ordinal, FieldsOf, TypeCode, FieldRefs, RefIds;
    forall e, u | e in DOC && u in ElementRefs(tables, e) ensures u in {PACKAGE, MEMBERSHIP, MEMBER} {
      if e == PACKAGE_ELEMENT {
        PackageRefsOnly(tables);
      } else {
        MembershipRefsOnly(tables);
      }
    }
    MemberNamed(tables);
    assert DOC[1] == MEMBERSHIP_ELEMENT && MEMBERSHIP_ELEMENT in DOC;
  }

  lemma PackageRefsOnly(tables: Tables)
    ensures forall u :: u in ElementRefs(tables, PACKAGE_ELEMENT) ==> u == MEMBERSHIP
  {
    hide Ascii, Spell, Ordinal, FieldsOf, FieldRefs;
    var fields := FieldsOf(tables, PACKAGE_ELEMENT.ty);
    forall key | key in PACKAGE_ELEMENT.props && HasField(fields, key)
      ensures forall u :: u in FieldRefs(fields[Ordinal(fields, key)], PACKAGE_ELEMENT.props[key]) ==> u == MEMBERSHIP
    {
      PackageRefs(fields[Ordinal(fields, key)], key);
    }
  }

  lemma MembershipRefsOnly(tables: Tables)
    ensures forall u :: u in ElementRefs(tables, MEMBERSHIP_ELEMENT) ==> u in {PACKAGE, MEMBER}
  {
    hide Ascii, Spell, Ordinal, FieldsOf, FieldRefs;
    var e := MEMBERSHIP_ELEMENT;
    var fields := FieldsOf(tables, e.ty);
    forall key | key in e.props && HasField(fields, key)
      ensures forall u :: u in FieldRefs(fields[Ordinal(fields, key)], e.props[key]) ==> u in {PACKAGE, MEMBER}
    {
      MembershipRefs(fields[Ordinal(fields, key)], key);
    }
  }

  lemma NumberingIs(tables: Tables)
    requires HasBoth(tables)
    ensures Ids(DOC) == [PACKAGE, MEMBERSHIP] && NoDup(Ids(DOC))
    ensures BuildInterner(Ids(DOC), DocRefs(tables, DOC)) == NUMBERING
  {
    hide DocRefs, SortIds;
    RefsAre(tables);
    var ids := Ids(DOC);
    assert ids == [PACKAGE, MEMBERSHIP];
    assert Elems(ids) == {PACKAGE, MEMBERSHIP};
    assert IndexOf(ids, PACKAGE) == 0 && IndexOf(ids, MEMBERSHIP) == 1;
    RisingUnique(SortIds({MEMBER}), [MEMBER]);
    assert BuildInterner(ids, DocRefs(tables, DOC)).local == NUMBERING.local;
  }

  // ---- the payload -----------------------------------------------------------------

  lemma MissingOwners(tables: Tables)
    requires HasBoth(tables)
    ensures Exceptions(tables, DOC, 0) == [(1, Uint(1))]
  {
    hide Ascii, Spell, TypeCode, Ordinal, Bit;
    PackageAbsent();
    MembershipAbsent();
    assert DOC[0] == PACKAGE_ELEMENT && DOC[1] == MEMBERSHIP_ELEMENT;
    assert Exceptions(tables, DOC, 2) == [];
    assert Exceptions(tables, DOC, 1) == [(1, Uint(1))] + [];
  }

  lemma FieldHeld(fields: seq<Field>, k: nat)
    requires k < |fields|
    ensures HasField(fields, fields[k].name)
  {
    hide Ordinal;
    assert fields[k] in fields;
  }

  lemma PackageAbsent()
    ensures AbsentBits(PACKAGE_FIELDS, PACKAGE_ELEMENT) == 0
  {
    hide Ascii, Spell, Bit, Ordinal;
  }

  lemma MembershipAbsent()
    ensures AbsentBits(MEMBERSHIP_FIELDS, MEMBERSHIP_ELEMENT) == 1
  {
    hide Ascii, Spell, Bit, HasField;
    FieldHeld(MEMBERSHIP_FIELDS, 12);
  }

  /** The records of the two elements. */
  const FIRST: Toks := [Array(3), Uint(109), Uint(0x18), Map(2), Uint(1), Tstr([0x50]), Uint(5), Array(1), Uint(1)]
  const SECOND: Toks := [Array(3), Uint(108), Uint(0x8638), Map(1), Uint(6), Uint(2)]

  lemma PackageKeys()
    ensures KeysKnown(PACKAGE_FIELDS, PACKAGE_ELEMENT)
  {
    hide Ascii, Spell, HasField;
    FieldHeld(PACKAGE_FIELDS, 1);
    FieldHeld(PACKAGE_FIELDS, 3);
    FieldHeld(PACKAGE_FIELDS, 4);
    FieldHeld(PACKAGE_FIELDS, 5);
    FieldHeld(PACKAGE_FIELDS, 6);
  }

  lemma MembershipKeys()
    ensures KeysKnown(MEMBERSHIP_FIELDS, MEMBERSHIP_ELEMENT)
  {
    hide Ascii, Spell, HasField;
    var m := MEMBERSHIP_FIELDS;
    FieldHeld(m, 3);
    FieldHeld(m, 4);
    FieldHeld(m, 5);
    FieldHeld(m, 6);
    FieldHeld(m, 9);
    FieldHeld(m, 10);
    FieldHeld(m, 11);
    FieldHeld(m, 15);
  }

  lemma PackageRecord(tables: Tables)
    requires HasBoth(tables)
    ensures
      WriteElement(tables, Wire(NUMBERING), PACKAGE_ELEMENT, Implied(None, None))
      == Ok([Array(3), Uint(109), Uint(0x18), Map(2)] + [Uint(1), Tstr([0x50]), Uint(5), Array(1), Uint(1)])
  {
    hide Ascii, Spell, TypeCode, WriteEntries, CountEntries, PresenceBits, Pack, KeysKnown, FieldsOf;
    PackageKeys();
    PackageBits();
    PackageWritten();
  }

  lemma MembershipRecord(tables: Tables)
    requires HasBoth(tables)
    ensures
      WriteElement(tables, Wire(NUMBERING), MEMBERSHIP_ELEMENT, Implied(None, Some(PACKAGE)))
      == Ok([Array(3), Uint(108), Uint(0x8638), Map(1)] + [Uint(6), Uint(2)])
  {
    hide Ascii, Spell, TypeCode, WriteEntries, CountEntries, PresenceBits, Pack, KeysKnown, FieldsOf;
    MembershipKeys();
    MembershipBits();
    MembershipWritten();
  }

  lemma RecordsWritten(tables: Tables)
    requires HasBoth(tables)
    ensures WriteElements(tables, Wire(NUMBERING), DOC, true, 0) == Ok(FIRST + SECOND)
  {
    hide Ascii, Spell, WriteElement, DerivationFor;
    OwnersAre();
    PackageRecord(tables);
    MembershipRecord(tables);
    assert DOC[0] == PACKAGE_ELEMENT && DOC[1] == MEMBERSHIP_ELEMENT;
    var first := [Array(3), Uint(109), Uint(0x18), Map(2)] + [Uint(1), Tstr([0x50]), Uint(5), Array(1), Uint(1)];
    var second := [Array(3), Uint(108), Uint(0x8638), Map(1)] + [Uint(6), Uint(2)];
    assert WriteElements(tables, Wire(NUMBERING), DOC, true, 2) == Ok([]);
    assert WriteElements(tables, Wire(NUMBERING), DOC, true, 1) == Ok(second + []);
    assert FIRST == first && SECOND == second && FIRST + SECOND == first + (second + []);
  }

  lemma TwoIds(a: Uuid, b: Uuid)
    ensures WriteIds([a, b]) == [Bstr(UuidBytes(a)), Bstr(UuidBytes(b))]
    ensures WriteIds([a]) == [Bstr(UuidBytes(a))]
  {
    hide UuidBytes;
    assert [a, b][1..] == [b] && [b][1..] == [] && WriteIds([]) == [];
    assert WriteIds([b]) == [Bstr(UuidBytes(b))] + [];
    assert WriteIds([a]) == [Bstr(UuidBytes(a))] + WriteIds([]);
  }

  lemma OnePair()
    ensures WritePairs([(1, Uint(1))]) == [Map(1), Uint(1), Uint(1)]
  {
    assert [(1, Uint(1))][1..] == [];
    assert WritePairList([]) == [];
  }

  lemma WordIs()
    ensures HeaderWord(FlagByte(false, false, false, true), ID_SCHEME) == 0x1_0001_0220
  {
  }

  lemma LaidOut(tables: Tables, records: Toks)
    requires HasBoth(tables)
    ensures
      SnapshotTokens(tables, NUMBERING, DOC, [], true, ID_SCHEME, records)
      == [Array(5), Uint(0x1_0001_0220)] + ([Array(1)] + [Bstr(UuidBytes(MEMBER))])
         + ([Array(2)] + [Bstr(UuidBytes(PACKAGE)), Bstr(UuidBytes(MEMBERSHIP))])
         + ([Array(2)] + records) + [Map(1), Uint(1), Uint(1)] + []
  {
    hide Ascii, Spell, UuidBytes, Exceptions, WriteIds, WritePairs, HasBoth, HeaderWord, FlagByte;
    NumberingIs(tables);
    MissingOwners(tables);
    TwoIds(PACKAGE, MEMBERSHIP);
    TwoIds(MEMBER, MEMBER);
    OnePair();
    WordIs();
    assert |DOC| == 2;
  }

  function HeadSection(): Toks {
    [Array(5), Uint(0x1_0001_0220), Array(1), Bstr(UuidBytes(MEMBER)), Array(2),
     Bstr(UuidBytes(PACKAGE)), Bstr(UuidBytes(MEMBERSHIP)), Array(2)]
  }

  lemma Grouped(x: Token, p: Token, m: Token, word: Token, records: Toks, tail: Toks)
    ensures
      [Array(5), word] + ([Array(1)] + [x]) + ([Array(2)] + [p, m]) + ([Array(2)] + records) + tail + []
      == [Array(5), word, Array(1), x, Array(2), p, m, Array(2)] + records + tail
  {
  }

  /** The payload as tokens. */
  lemma TokensPinned(tables: Tables)
    requires HasBoth(tables)
    ensures
      Encode(tables, DOC, [], true, ID_SCHEME) == Ok(HeadSection() + (FIRST + SECOND) + [Map(1), Uint(1), Uint(1)])
  {
    hide Ascii, Spell, WriteElements, BuildInterner, DocRefs, UuidBytes, HasBoth, NoDup, SnapshotTokens, Ids;
    NumberingIs(tables);
    RecordsWritten(tables);
    LaidOut(tables, FIRST + SECOND);
    Grouped(Bstr(UuidBytes(MEMBER)), Bstr(UuidBytes(PACKAGE)), Bstr(UuidBytes(MEMBERSHIP)), Uint(0x1_0001_0220),
      FIRST + SECOND, [Map(1), Uint(1), Uint(1)]);
  }

  // ---- the bytes -------------------------------------------------------------------

  /** A token one byte spells. */
  predicate OneByte(t: Token) {
    match t case Uint(n) => n <= 23 case Array(n) => n <= 23 case Map(n) => n <= 23 case _ => false
  }

  function ByteOf(t: Token): byte
    requires OneByte(t)
  {
    match t case Uint(n) => n case Array(n) => 0x80 + n case Map(n) => 0xA0 + n
  }

  lemma {:induction false} BytesOf(ts: Toks)
    requires forall i :: 0 <= i < |ts| ==> OneByte(ts[i])
    ensures EncAll(ts) == seq(|ts|, i requires 0 <= i < |ts| => ByteOf(ts[i]))
  {
    hide EncAll;
    if ts == [] {
      EncNone();
    } else {
      EncHead(ts);
      BytesOf(ts[1..]);
      assert EncTok(ts[0]) == [ByteOf(ts[0])];
    }
  }

  lemma EncOne(t: Token)
    ensures EncAll([t]) == EncTok(t)
  {
    hide EncTok;
    assert EncAll([]) == [] && [t][1..] == [];
    assert EncTok(t) + [] == EncTok(t);
  }

  lemma LongHeads()
    ensures EncTok(Uint(0x1_0001_0220)) == [0x1B, 0, 0, 0, 1, 0, 1, 2, 0x20]
    ensures EncTok(Uint(109)) == [0x18, 0x6D] && EncTok(Uint(108)) == [0x18, 0x6C]
    ensures EncTok(Uint(0x18)) == [0x18, 0x18] && EncTok(Uint(0x8638)) == [0x19, 0x86, 0x38]
    ensures EncTok(Tstr([0x50])) == [0x61, 0x50]
  {
    hide FromBe, Be;
    EightBytes(0, 0, 0, 1, 0, 1, 2, 0x20);
    BeOf([0, 0, 0, 1, 0, 1, 2, 0x20]);
    SmallBytes(109);
    SmallBytes(108);
    SmallBytes(0x18);
    SmallBytes(0x86);
    TwoBytes(0x86, 0x38);
  }

  lemma SmallBytes(b: byte)
    ensures Be(1, b) == [b]
  {
    assert Be(0, b / 256) == [];
  }

  lemma TwoBytes(a: byte, b: byte)
    ensures Be(2, 256 * a + b) == [a, b]
  {
    SmallBytes(a);
  }

  lemma IdEncoded(u: Uuid)
    ensures EncTok(Bstr(UuidBytes(u))) == [0x50] + UuidBytes(u)
  {
    hide UuidBytes;
  }

  lemma FirstEntries()
    ensures EncAll([Tstr([0x50]), Uint(5), Array(1), Uint(1)]) == [0x61, 0x50, 0x05, 0x81, 0x01]
  {
    hide EncAll, EncTok;
    LongHeads();
    EncOne(Tstr([0x50]));
    BytesOf([Uint(5), Array(1), Uint(1)]);
    EncAllAppend([Tstr([0x50])], [Uint(5), Array(1), Uint(1)]);
    assert [Tstr([0x50])] + [Uint(5), Array(1), Uint(1)] == [Tstr([0x50]), Uint(5), Array(1), Uint(1)];
  }

  lemma FirstBytes()
    ensures EncAll(FIRST) == [0x83, 0x18, 0x6D, 0x18, 0x18, 0xA2, 0x01, 0x61, 0x50, 0x05, 0x81, 0x01]
  {
    hide EncAll, EncTok;
    LongHeads();
    EncOne(Uint(109));
    EncOne(Uint(0x18));
    FirstEntries();
    BytesOf([Array(3)]);
    BytesOf([Map(2), Uint(1)]);
    var r3 := [Tstr([0x50]), Uint(5), Array(1), Uint(1)];
    var r2 := [Map(2), Uint(1)] + r3;
    var r1 := [Uint(0x18)] + r2;
    var r0 := [Uint(109)] + r1;
    assert FIRST == [Array(3)] + r0;
    EncAllAppend([Array(3)], r0);
    EncAllAppend([Uint(109)], r1);
    EncAllAppend([Uint(0x18)], r2);
    EncAllAppend([Map(2), Uint(1)], r3);
  }

  lemma SecondBytes()
    ensures EncAll(SECOND) == [0x83, 0x18, 0x6C, 0x19, 0x86, 0x38, 0xA1, 0x06, 0x02]
  {
    hide EncAll, EncTok;
    LongHeads();
    EncOne(Uint(108));
    EncOne(Uint(0x8638));
    BytesOf([Array(3)]);
    BytesOf([Map(1), Uint(6), Uint(2)]);
    var r1 := [Uint(0x8638)] + [Map(1), Uint(6), Uint(2)];
    var r0 := [Uint(108)] + r1;
    assert SECOND == [Array(3)] + r0;
    EncAllAppend([Array(3)], r0);
    EncAllAppend([Uint(108)], r1);
    EncAllAppend([Uint(0x8638)], [Map(1), Uint(6), Uint(2)]);
  }

  lemma HeadStart(x: Token)
    ensures
      EncAll([Array(5), Uint(0x1_0001_0220), Array(1), x])
      == [0x85] + [0x1B, 0, 0, 0, 1, 0, 1, 2, 0x20] + [0x81] + EncTok(x)
  {
    hide EncAll, EncTok;
    LongHeads();
    EncOne(Uint(0x1_0001_0220));
    EncOne(x);
    BytesOf([Array(5)]);
    BytesOf([Array(1)]);
    var r1 := [Array(1)] + [x];
    var r0 := [Uint(0x1_0001_0220)] + r1;
    EncAllAppend([Array(5)], r0);
    EncAllAppend([Uint(0x1_0001_0220)], r1);
    EncAllAppend([Array(1)], [x]);
    assert [Array(5)] + r0 == [Array(5), Uint(0x1_0001_0220), Array(1), x];
  }

  lemma HeadRest(p: Token, m: Token)
    ensures EncAll([Array(2), p, m, Array(2)]) == [0x82] + EncTok(p) + EncTok(m) + [0x82]
  {
    hide EncAll, EncTok;
    EncOne(p);
    EncOne(m);
    BytesOf([Array(2)]);
    var r1 := [m] + [Array(2)];
    var r0 := [p] + r1;
    EncAllAppend([Array(2)], r0);
    EncAllAppend([p], r1);
    EncAllAppend([m], [Array(2)]);
    assert [Array(2)] + r0 == [Array(2), p, m, Array(2)];
  }

  lemma HeadTokens()
    ensures
      EncAll(HeadSection())
      == [0x85] + [0x1B, 0, 0, 0, 1, 0, 1, 2, 0x20] + [0x81] + ([0x50] + UuidBytes(MEMBER)) + [0x82]
         + ([0x50] + UuidBytes(PACKAGE)) + ([0x50] + UuidBytes(MEMBERSHIP)) + [0x82]
  {
    hide EncAll, EncTok, UuidBytes;
    IdEncoded(MEMBER);
    IdEncoded(PACKAGE);
    IdEncoded(MEMBERSHIP);
    var x, p, m := Bstr(UuidBytes(MEMBER)), Bstr(UuidBytes(PACKAGE)), Bstr(UuidBytes(MEMBERSHIP));
    HeadStart(x);
    HeadRest(p, m);
    var start, rest := [Array(5), Uint(0x1_0001_0220), Array(1), x], [Array(2), p, m, Array(2)];
    assert HeadSection() == start + rest;
    EncAllAppend(start, rest);
  }

  /**
    The wire format, byte for byte: file magic, header word, external and identity tables, each
    element's type code, presence bits and entries, and the owner exceptions.
   */
  lemma WireFormatPinned(tables: Tables)
    requires HasBoth(tables)
    ensures
      ToCbor(tables, DOC, [])
      == Ok([0xD9, 0xD9, 0xF7, 0xDA, 0x24, 0x53, 0x32, 0x43]
            + ([0x85] + [0x1B, 0, 0, 0, 1, 0, 1, 2, 0x20]
               + [0x81] + ([0x50] + ([0x11, 0x11, 0x11, 0x11, 0x11, 0x11, 0x41, 0x11]
                                     + [0x81, 0x11, 0x11, 0x11, 0x11, 0x11, 0x11, 0x11]))
               + [0x82] + ([0x50] + ([0, 0, 0, 0, 0, 0, 0x40, 0] + [0x80, 0, 0, 0, 0, 0, 0, 1]))
               + ([0x50] + ([0, 0, 0, 0, 0, 0, 0x40, 0] + [0x80, 0, 0, 0, 0, 0, 0, 2]))
               + [0x82]
               + ([0x83, 0x18, 0x6D, 0x18, 0x18, 0xA2, 0x01, 0x61, 0x50, 0x05, 0x81, 0x01]
                  + [0x83, 0x18, 0x6C, 0x19, 0x86, 0x38, 0xA1, 0x06, 0x02])
               + [0xA1, 0x01, 0x01]))
  {
    hide Encode, EncAll, UuidBytes, HasBoth, Ascii, Spell, HeadSection;
    TokensPinned(tables);
    IdBytes();
    HeadTokens();
    FirstBytes();
    SecondBytes();
    var tail := [Map(1), Uint(1), Uint(1)];
    BytesOf(tail);
    assert EncAll(tail) == [0xA1, 0x01, 0x01];
    EncAllAppend(HeadSection() + (FIRST + SECOND), tail);
    EncAllAppend(HeadSection(), FIRST + SECOND);
    EncAllAppend(FIRST, SECOND);
  }

  // ---- the other headers -----------------------------------------------------------

  lemma WordsAre(portable: bool, units: bool)
    ensures HeaderWord(FlagByte(false, false, false, false), DIGEST_SCHEME) == 0x1_0001_0100
    ensures
      HeaderWord(FlagByte(true, portable, units, true), ID_SCHEME)
      == 0x1_0001_0224 + (if portable then 8 else 0) + (if units then 16 else 0)
  {
  }

  /** What is digested opens with four sections and scheme 1, its owners spelled and no flag set. */
  lemma DigestOpens(tables: Tables, doc: Doc)
    requires DigestTokens(tables, doc).Ok?
    ensures DigestTokens(tables, doc).value[..2] == [Array(4), Uint(0x1_0001_0100)]
  {
    hide WriteElements, BuildInterner, DocRefs, NoDup, HeaderWord, FlagByte, Exceptions, WriteIds;
    WordsAre(false, false);
  }

  /**
    The opening of a delta: seven sections, or eight with units; the delta and implied-owner flags
    and those of its mode; the digests of its base and of its result, in that order.
   */
  ghost predicate Opens(ts: Toks, portable: bool, units: bool, baseDigest: Uuid, resultDigest: Uuid) {
    && |ts| >= 5
    && ts[0] == Array(if units then 8 else 7)
    && ts[1] == Uint(0x1_0001_0224 + (if portable then 8 else 0) + (if units then 16 else 0))
    && ts[2] == Array(3) && ts[3] == Bstr(UuidBytes(baseDigest)) && ts[4] == Bstr(UuidBytes(resultDigest))
  }

  lemma BodyOpens(
      tables: Tables, portable: bool, base: Doc, result: Doc, baseDigest: Uuid, resultDigest: Uuid, claims: Pairs,
      units: Pairs)
    requires EncodeBody(tables, portable, base, result, baseDigest, resultDigest, claims, units).Ok?
    ensures
      var ts := EncodeBody(tables, portable, base, result, baseDigest, resultDigest, claims, units).value;
      Opens(ts, portable, units != [], baseDigest, resultDigest)
  {
    hide PlanRecords, WriteRecords, DeltaInterner, Created, HeaderWord, FlagByte, RecordExceptions, WritePairs,
      WriteIds, UuidBytes;
    WordsAre(portable, units != []);
  }

  /** So opens every encoded delta. */
  lemma DeltaOpens(hash: Hash, tables: Tables, base0: Doc, target0: Doc, opts: Options)
    requires DistinctIds(base0) && DistinctIds(target0) && EncodeDelta(hash, tables, base0, target0, opts).Ok?
    ensures
      var base := Canonical(base0);
      var result := AppliedOrder(base, Canonical(target0));
      && Digest(hash, tables, base).Ok? && Digest(hash, tables, result).Ok?
      && Opens(EncodeDelta(hash, tables, base0, target0, opts).value, opts.portable, opts.units != [],
           Digest(hash, tables, base).value, Digest(hash, tables, result).value)
  {
    hide AppliedOrder, Canonical, Digest, Extras, EncodeBody, EncodeDelta, Opens, MapUnits, DistinctIds, SameElements;
    var base := Canonical(base0);
    var result := AppliedOrder(base, Canonical(target0));
    EncodeParts(hash, tables, base0, target0, opts);
    ExtrasParts(target0, result, opts);
    ResultHolds(base, target0);
    MappedUnits(target0, result, opts.units);
    var (claims, units) := Extras(target0, result, opts).value;
    BodyOpens(tables, opts.portable, base, result, Digest(hash, tables, base).value,
      Digest(hash, tables, result).value, claims, units);
    assert units == [] <==> opts.units == [];
  }

  // ---- the index artifact ----------------------------------------------------------

  /** The index of such a document: the package owns the membership as its first relationship. */
  const INDEX: BaseIndex := BaseIndex([PACKAGE, MEMBERSHIP], [109, 108], [[], []], [[1], []])

  lemma IndexNumbers()
    ensures NumberBytes([109, 108]) == [109, 108]
    ensures ListBytes([[], []]) == [0, 0] && ListBytes([[1], []]) == [1, 1, 0]
  {
    assert Varint(109) == [109] && Varint(108) == [108] && Varint(0) == [0] && Varint(1) == [1];
    assert NumberBytes([]) == [] && NumberBytes([108]) == [108] && NumberBytes([1]) == [1];
    assert [109, 108][1..] == [108];
    var none: seq<nat> := [];
    assert ListBytes([]) == [] && [none, none][1..] == [none] && [[1], none][1..] == [none];
    assert ListBytes([none]) == [0];
  }

  /** Its artifact: magic, version, count, identities, type codes, owned elements, owned relationships, seal. */
  lemma ArtifactPinned(seal: Seal)
    ensures
      var b := [0x53, 0x32, 0x42, 0x49] + [1] + ([2]
        + (([0, 0, 0, 0, 0, 0, 0x40, 0] + [0x80, 0, 0, 0, 0, 0, 0, 1])
           + ([0, 0, 0, 0, 0, 0, 0x40, 0] + [0x80, 0, 0, 0, 0, 0, 0, 2])
           + ([109, 108] + ([0, 0] + [1, 1, 0]))));
      ToBytes(seal, INDEX) == b + UuidBytes(seal(b))
  {
    hide UuidBytes, NumberBytes, ListBytes;
    IdBytes();
    IndexNumbers();
    assert [PACKAGE, MEMBERSHIP][1..] == [MEMBERSHIP];
    assert IndexBytes.IdBytes([]) == [] && [MEMBERSHIP][1..] == [];
    assert IndexBytes.IdBytes([MEMBERSHIP]) == UuidBytes(MEMBERSHIP) + [];
    assert IndexBytes.IdBytes([PACKAGE, MEMBERSHIP]) == UuidBytes(PACKAGE) + UuidBytes(MEMBERSHIP);
    assert Varint(2) == [2];
  }

  // ---- the bytes of a token --------------------------------------------------------

  /** Arguments of every width. */
  lemma Widths()
    ensures Be(1, 24) == [0x18] && Be(1, 100) == [0x64] && Be(1, 99) == [0x63]
    ensures Be(2, 1000) == [0x03, 0xE8] && Be(2, 999) == [0x03, 0xE7]
    ensures Be(4, 1000000) == [0, 0x0F, 0x42, 0x40]
    ensures Be(8, 1000000000000) == [0, 0, 0, 0xE8, 0xD4, 0xA5, 0x10, 0]
    ensures Be(8, 0x3FF1_9999_9999_999A) == [0x3F, 0xF1, 0x99, 0x99, 0x99, 0x99, 0x99, 0x9A]
  {
    hide Be, FromBe;
    SmallBytes(24);
    SmallBytes(100);
    SmallBytes(99);
    TwoBytes(0x03, 0xE8);
    TwoBytes(0x03, 0xE7);
    EightBytes(0, 0, 0, 0, 0, 0x0F, 0x42, 0x40);
    FromBeJoin([0, 0, 0, 0], [0, 0x0F, 0x42, 0x40]);
    EightBytes(0, 0, 0, 0xE8, 0xD4, 0xA5, 0x10, 0);
    EightBytes(0x3F, 0xF1, 0x99, 0x99, 0x99, 0x99, 0x99, 0x9A);
    BeOf([0, 0, 0, 0xE8, 0xD4, 0xA5, 0x10, 0]);
    BeOf([0x3F, 0xF1, 0x99, 0x99, 0x99, 0x99, 0x99, 0x9A]);
    FourBytes(0, 0x0F, 0x42, 0x40);
    BeOf([0, 0x0F, 0x42, 0x40]);
  }

  lemma FourBytes(a: byte, b: byte, c: byte, d: byte)
    ensures FromBe([a, b, c, d]) == 256 * (256 * (256 * a + b) + c) + d
  {
    hide FromBe;
    NoBytes();
    FromBeLast([], a);
    FromBeLast([a], b);
    FromBeLast([a, b], c);
    FromBeLast([a, b, c], d);
    assert [] + [a] == [a] && [a] + [b] == [a, b] && [a, b] + [c] == [a, b, c] && [a, b, c] + [d] == [a, b, c, d];
  }

  lemma ShortHeads()
    ensures EncTok(Uint(0)) == [0x00] && EncTok(Uint(23)) == [0x17] && EncTok(NInt(0)) == [0x20]
    ensures EncTok(NInt(9)) == [0x29] && EncTok(Array(3)) == [0x83] && EncTok(Map(2)) == [0xA2]
  {
    hide Be;
  }

  lemma LongerHeads()
    ensures EncTok(Uint(24)) == [0x18, 0x18] && EncTok(Uint(100)) == [0x18, 0x64]
    ensures EncTok(Uint(1000)) == [0x19, 0x03, 0xE8]
    ensures EncTok(NInt(99)) == [0x38, 0x63] && EncTok(NInt(999)) == [0x39, 0x03, 0xE7]
  {
    hide Be;
    Widths();
  }

  lemma MillionHead()
    ensures EncTok(Uint(1000000)) == [0x1A, 0, 0x0F, 0x42, 0x40]
  {
    hide Be;
    Widths();
  }

  lemma TrillionHead()
    ensures EncTok(Uint(1000000000000)) == [0x1B, 0, 0, 0, 0xE8, 0xD4, 0xA5, 0x10, 0]
  {
    hide Be;
    Widths();
  }

  lemma FloatHead()
    ensures EncTok(F64(0x3FF1_9999_9999_999A)) == [0xFB, 0x3F, 0xF1, 0x99, 0x99, 0x99, 0x99, 0x99, 0x9A]
  {
    hide Be, HeadBytes;
    Widths();
  }

  lemma Strings()
    ensures EncTok(Bstr([])) == [0x40] && EncTok(Bstr([1, 2, 3, 4])) == [0x44, 1, 2, 3, 4]
    ensures EncTok(Tstr([])) == [0x60] && EncTok(Tstr(Ascii("IETF"))) == [0x64, 0x49, 0x45, 0x54, 0x46]
  {
    hide Be;
    assert Ascii("IETF") == [0x49, 0x45, 0x54, 0x46];
  }

  /** The examples of appendix A of RFC 8949, for every kind of token. */
  lemma StandardExamples()
    ensures EncTok(IntToken(0)) == [0x00] && EncTok(IntToken(23)) == [0x17] && EncTok(IntToken(24)) == [0x18, 0x18]
    ensures EncTok(IntToken(100)) == [0x18, 0x64] && EncTok(IntToken(1000)) == [0x19, 0x03, 0xE8]
    ensures EncTok(IntToken(1000000)) == [0x1A, 0, 0x0F, 0x42, 0x40]
    ensures EncTok(IntToken(1000000000000)) == [0x1B, 0, 0, 0, 0xE8, 0xD4, 0xA5, 0x10, 0]
    ensures EncTok(IntToken(-1)) == [0x20] && EncTok(IntToken(-10)) == [0x29]
    ensures EncTok(IntToken(-100)) == [0x38, 0x63] && EncTok(IntToken(-1000)) == [0x39, 0x03, 0xE7]
    ensures EncTok(F64(0x3FF1_9999_9999_999A)) == [0xFB, 0x3F, 0xF1, 0x99, 0x99, 0x99, 0x99, 0x99, 0x9A]
    ensures EncTok(False) == [0xF4] && EncTok(True) == [0xF5] && EncTok(NullTok) == [0xF6]
    ensures EncTok(Bstr([])) == [0x40] && EncTok(Bstr([1, 2, 3, 4])) == [0x44, 1, 2, 3, 4]
    ensures EncTok(Tstr([])) == [0x60] && EncTok(Tstr(Ascii("IETF"))) == [0x64, 0x49, 0x45, 0x54, 0x46]
    ensures EncTok(Array(3)) == [0x83] && EncTok(Map(2)) == [0xA2]
  {
    hide EncTok, Ascii;
    ShortHeads();
    LongerHeads();
    MillionHead();
    TrillionHead();
    FloatHead();
    Strings();
    Simples();
  }

  lemma Simples()
    ensures EncTok(False) == [0xF4] && EncTok(True) == [0xF5] && EncTok(NullTok) == [0xF6]
  {
  }
}
