/**
  Two normal spellings of a document.

  The canonical spelling spells every default a metaclass table has; the graph-normal
  spelling elides them, always spells the `elementId` mirror, completes absent backpointers
  by first claimant, and sorts by identity. Literal numbers keep their spelling.
 */
module Normalize {
  import opened Wrappers
  import opened Seqs
  import opened Cbor
  import opened Model
  import opened Owners

  // ---- the canonical spelling ------------------------------------------------------

  /** The default of the table's property `key`, where it has one. */
  function DefaultOf(fields: seq<Field>, id: Uuid, key: Prop): Option<Value> {
    var ord := Ordinal(fields, key);
    if ord < |fields| then DefaultValue(fields[ord], id) else None
  }

  function Defaulted(fields: seq<Field>, id: Uuid): (keys: set<Prop>)
    ensures forall k :: k in keys <==> DefaultOf(fields, id, k).Some?
  {
    var keys := set f | f in fields && DefaultOf(fields, id, f.name).Some? :: f.name;
    assert forall k :: DefaultOf(fields, id, k).Some? ==> fields[Ordinal(fields, k)] in fields;
    keys
  }

  /** Every default spelled; what is present stays verbatim. */
  function SpelledProps(fields: seq<Field>, id: Uuid, props: Props): Props {
    map k | k in props.Keys + Defaulted(fields, id) ::
      if k in props then props[k] else DefaultOf(fields, id, k).value
  }

  predicate InTable(fields: seq<Field>, props: Props) {
    forall k :: k in props ==> HasField(fields, k)
  }

  function CanonElement(tables: Tables, e: Element): Result<Element> {
    var fields := FieldsOf(tables, e.ty);
    if Known(tables, e.ty) && InTable(fields, e.props) then Ok(e.(props := SpelledProps(fields, e.id, e.props)))
    else Err(Malformed)
  }

  function CanonicalizeCompact(tables: Tables, doc: Doc): (r: Result<Doc>)
    ensures r.Ok? <==> forall i :: 0 <= i < |doc| ==> CanonElement(tables, doc[i]).Ok?
    ensures
      r.Ok? ==>
        |r.value| == |doc| && forall i :: 0 <= i < |doc| ==> CanonElement(tables, doc[i]) == Ok(r.value[i])
  {
    if doc == [] then Ok([])
    else
      var e :- CanonElement(tables, doc[0]);
      var rest :- CanonicalizeCompact(tables, doc[1..]);
      Ok([e] + rest)
  }

  /** What the encoder's own default rule leaves of an element. */
  function Elided(tables: Tables, e: Element): Element {
    var fields := FieldsOf(tables, e.ty);
    e.(props := map k | k in e.props
                  && !(HasField(fields, k) && IsDefault(fields[Ordinal(fields, k)], e.id, e.props[k])) :: e.props[k])
  }

  /** Spelling restores exactly what eliding leaves out, by the other default rule. */
  lemma SpellsElided(tables: Tables, e: Element)
    requires Known(tables, e.ty) && InTable(FieldsOf(tables, e.ty), e.props)
    ensures
      SpelledProps(FieldsOf(tables, e.ty), e.id, e.props)
      == SpelledProps(FieldsOf(tables, e.ty), e.id, Elided(tables, e).props)
  {
    hide DefaultValue, IsDefault, FieldsOf;
    var fields := FieldsOf(tables, e.ty);
    var all, some := SpelledProps(fields, e.id, e.props), SpelledProps(fields, e.id, Elided(tables, e).props);
    forall k
      ensures k in all <==> k in some
      ensures k in all ==> all[k] == some[k]
    {
      if k in e.props {
        DefaultRulesAgree(fields[Ordinal(fields, k)], e.id, e.props[k]);
      }
    }
  }

  lemma ElidesSpelled(tables: Tables, e: Element)
    requires Known(tables, e.ty) && InTable(FieldsOf(tables, e.ty), e.props)
    ensures
      Elided(tables, e.(props := SpelledProps(FieldsOf(tables, e.ty), e.id, e.props))) == Elided(tables, e)
  {
    hide Elided, SpelledProps;
    var c := e.(props := SpelledProps(FieldsOf(tables, e.ty), e.id, e.props));
    forall k
      ensures k in Elided(tables, c).props <==> k in Elided(tables, e).props
      ensures k in Elided(tables, e).props ==> Elided(tables, c).props[k] == Elided(tables, e).props[k]
    {
      ElidesAt(tables, e, k);
    }
    ElidedHead(tables, e);
    ElidedHead(tables, c);
    assert Elided(tables, c).props == Elided(tables, e).props;
  }

  lemma ElidedHead(tables: Tables, e: Element)
    ensures Elided(tables, e).id == e.id && Elided(tables, e).ty == e.ty
  {
  }

  lemma ElidesAt(tables: Tables, e: Element, k: Prop)
    requires Known(tables, e.ty) && InTable(FieldsOf(tables, e.ty), e.props)
    ensures
      var c := e.(props := SpelledProps(FieldsOf(tables, e.ty), e.id, e.props));
      && (k in Elided(tables, c).props <==> k in Elided(tables, e).props)
      && (k in Elided(tables, e).props ==> Elided(tables, c).props[k] == Elided(tables, e).props[k])
  {
    hide DefaultValue, IsDefault, FieldsOf;
    var fields := FieldsOf(tables, e.ty);
    var c := e.(props := SpelledProps(fields, e.id, e.props));
    if k in c.props && k !in e.props {
      DefaultRulesAgree(fields[Ordinal(fields, k)], e.id, c.props[k]);
    }
  }

  /** Accepted documents have one canonical spelling exactly when they elide to one document. */
  lemma CanonicalIffElided(tables: Tables, a: Doc, b: Doc)
    requires CanonicalizeCompact(tables, a).Ok? && CanonicalizeCompact(tables, b).Ok?
    ensures
      CanonicalizeCompact(tables, a) == CanonicalizeCompact(tables, b)
      <==> |a| == |b| && forall i :: 0 <= i < |a| ==> Elided(tables, a[i]) == Elided(tables, b[i])
  {
    hide SpelledProps, Elided, CanonicalizeCompact;
    var ca, cb := CanonicalizeCompact(tables, a).value, CanonicalizeCompact(tables, b).value;
    if |a| == |b| {
      forall i | 0 <= i < |a|
        ensures ca[i] == cb[i] <==> Elided(tables, a[i]) == Elided(tables, b[i])
      {
        OneSpelling(tables, a[i], b[i]);
      }
      assert ca == cb <==> forall i :: 0 <= i < |a| ==> ca[i] == cb[i];
    }
  }

  lemma OneSpelling(tables: Tables, a: Element, b: Element)
    requires CanonElement(tables, a).Ok? && CanonElement(tables, b).Ok?
    ensures
      CanonElement(tables, a) == CanonElement(tables, b) <==> Elided(tables, a) == Elided(tables, b)
  {
    hide SpelledProps;
    SpellsElided(tables, a);
    SpellsElided(tables, b);
    ElidesSpelled(tables, a);
    ElidesSpelled(tables, b);
  }

  /** Canonicalising twice is canonicalising once. */
  lemma CanonicalizeIdempotent(tables: Tables, doc: Doc)
    requires CanonicalizeCompact(tables, doc).Ok?
    ensures CanonicalizeCompact(tables, CanonicalizeCompact(tables, doc).value) == CanonicalizeCompact(tables, doc)
  {
    hide CanonicalizeCompact;
    var c := CanonicalizeCompact(tables, doc).value;
    forall i | 0 <= i < |c| ensures CanonElement(tables, c[i]) == Ok(c[i]) {
      assert CanonElement(tables, doc[i]) == Ok(c[i]);
      ElementSettles(tables, doc[i]);
    }
    assert CanonicalizeCompact(tables, c).value == c;
  }

  lemma ElementSettles(tables: Tables, e: Element)
    requires CanonElement(tables, e).Ok?
    ensures CanonElement(tables, CanonElement(tables, e).value) == CanonElement(tables, e)
  {
    hide DefaultValue, FieldsOf;
    var fields := FieldsOf(tables, e.ty);
    var props := SpelledProps(fields, e.id, e.props);
    assert SpelledProps(fields, e.id, props) == props;
  }

  /** An element canonically spelled: what it has stays, and each absent field with a default has it. */
  ghost predicate SpelledOut(fields: seq<Field>, e: Element, r: Element) {
    && r.id == e.id && r.ty == e.ty
    && (forall key :: key in e.props ==> key in r.props && r.props[key] == e.props[key])
    && (forall k :: 0 <= k < |fields| && fields[k].name !in e.props ==>
          match DefaultValue(fields[k], e.id)
          case None => fields[k].name !in r.props
          case Some(v) => fields[k].name in r.props && r.props[fields[k].name] == v)
    && forall key :: key in r.props ==> HasField(fields, key)
  }

  lemma CanonicalSays(tables: Tables, e: Element)
    requires ValidTables(tables) && CanonElement(tables, e).Ok?
    ensures SpelledOut(FieldsOf(tables, e.ty), e, CanonElement(tables, e).value)
  {
    hide DefaultValue, FieldsOf, FieldNames, DefaultOf, HasField;
    var fields := FieldsOf(tables, e.ty);
    FieldsOfValid(tables, e.ty);
    forall k | 0 <= k < |fields| ensures DefaultOf(fields, e.id, fields[k].name) == DefaultValue(fields[k], e.id) {
      DefaultAt(fields, e.id, k);
    }
    forall key | DefaultOf(fields, e.id, key).Some? ensures HasField(fields, key) {
      DefaultHeld(fields, e.id, key);
    }
  }

  lemma DefaultAt(fields: seq<Field>, id: Uuid, k: nat)
    requires k < |fields| && NoDup(FieldNames(fields))
    ensures DefaultOf(fields, id, fields[k].name) == DefaultValue(fields[k], id)
  {
    hide DefaultValue, FieldNames;
    OrdinalOfField(fields, k);
  }

  lemma DefaultHeld(fields: seq<Field>, id: Uuid, key: Prop)
    requires DefaultOf(fields, id, key).Some?
    ensures HasField(fields, key)
  {
  }

  // ---- the graph-normal spelling ---------------------------------------------------

  /** The defaults this spelling elides: never the mirror, and a literal's null. */
  predicate IsWireDefault(f: Field, v: Value) {
    match f.kind
    case KElementId => false
    case KLiteral => v.Null?
    case _ => IsDefault(f, 0, v)
  }

  function Mirrors(fields: seq<Field>): (keys: set<Prop>)
    ensures forall k :: k in keys ==> HasField(fields, k)
  {
    var keys := set f | f in fields && f.kind.KElementId? :: f.name;
    assert forall f :: f in fields ==> HasField(fields, f.name);
    keys
  }

  predicate Keeps(fields: seq<Field>, key: Prop, v: Value) {
    HasField(fields, key) && !IsWireDefault(fields[Ordinal(fields, key)], v)
  }

  function KeptProps(fields: seq<Field>, props: Props): Props {
    map k | k in props && Keeps(fields, k, props[k]) :: props[k]
  }

  function WireProps(fields: seq<Field>, id: Uuid, props: Props): Props {
    var kept := KeptProps(fields, props);
    map k | k in kept.Keys + Mirrors(fields) :: if k in kept then kept[k] else Str(Spell(id))
  }

  /**
    An element graph-normally spelled: of the table's fields those that are there and not at
    their default, a literal's being null, and the mirror always; nothing else.
   */
  ghost predicate WireSpelled(fields: seq<Field>, e: Element, props: Props) {
    && (forall k :: 0 <= k < |fields| ==> FieldSpelled(fields[k], e, props))
    && forall key :: key in props ==> HasField(fields, key)
  }

  ghost predicate FieldSpelled(f: Field, e: Element, props: Props) {
    var held := if f.name in e.props then Some(e.props[f.name]) else None;
    var dflt := if f.kind.KLiteral? then Some(Null) else DefaultValue(f, e.id);
    if f.kind.KElementId? then
      f.name in props && Some(props[f.name]) == (if held.Some? then held else Some(Str(Spell(e.id))))
    else if held.None? || held == dflt then f.name !in props
    else f.name in props && Some(props[f.name]) == held
  }

  lemma WireFieldSpelled(fields: seq<Field>, e: Element, k: nat)
    requires k < |fields| && NoDup(FieldNames(fields))
    ensures FieldSpelled(fields[k], e, WireProps(fields, e.id, e.props))
  {
    hide Spell, FieldNames, Ordinal;
    var f := fields[k];
    OrdinalOfField(fields, k);
    MirrorsAre(fields, k);
    if f.name in e.props && !f.kind.KElementId? {
      DefaultRulesAgree(f, e.id, e.props[f.name]);
    }
  }

  lemma MirrorsAre(fields: seq<Field>, k: nat)
    requires k < |fields| && NoDup(FieldNames(fields))
    ensures fields[k].name in Mirrors(fields) <==> fields[k].kind.KElementId?
  {
    if fields[k].name in Mirrors(fields) {
      var f :| f in fields && f.kind.KElementId? && f.name == fields[k].name;
      var i :| 0 <= i < |fields| && fields[i] == f;
      assert FieldNames(fields)[i] == FieldNames(fields)[k];
    }
  }

  /** What normalising makes of one element, before completion. */
  lemma WireSays(fields: seq<Field>, e: Element)
    requires NoDup(FieldNames(fields))
    ensures WireSpelled(fields, e, WireProps(fields, e.id, e.props))
  {
    hide Spell, FieldNames, Ordinal, FieldSpelled;
    forall k | 0 <= k < |fields| ensures FieldSpelled(fields[k], e, WireProps(fields, e.id, e.props)) {
      WireFieldSpelled(fields, e, k);
    }
  }

  /** `full` holds the property names of each metaclass's full form. */
  type FullNames = map<string, set<Prop>>

  predicate InForm(full: FullNames, fields: seq<Field>, ty: string, key: Prop) {
    HasField(fields, key) || (ty in full && key in full[ty])
  }

  predicate InSchema(full: FullNames, fields: seq<Field>, ty: string, props: Props) {
    forall k :: k in props ==> InForm(full, fields, ty, k)
  }

  function NormalElement(tables: Tables, full: FullNames, e: Element): Result<Element> {
    var fields := FieldsOf(tables, e.ty);
    if Known(tables, e.ty) && InSchema(full, fields, e.ty, e.props)
    then Ok(e.(props := WireProps(fields, e.id, e.props)))
    else Err(Malformed)
  }

  function NormalEach(tables: Tables, full: FullNames, doc: Doc): (r: Result<Doc>)
    ensures r.Ok? <==> forall i :: 0 <= i < |doc| ==> NormalElement(tables, full, doc[i]).Ok?
    ensures r.Err? ==> r == Err(Malformed)
    ensures
      r.Ok? ==>
        |r.value| == |doc| && forall i :: 0 <= i < |doc| ==> NormalElement(tables, full, doc[i]) == Ok(r.value[i])
  {
    if doc == [] then Ok([])
    else
      var e :- NormalElement(tables, full, doc[0]);
      var rest :- NormalEach(tables, full, doc[1..]);
      Ok([e] + rest)
  }

  /** An absent backpointer of the table is spelled where some list claims the element. */
  function Completed(tables: Tables, claims: Doc, slot: nat, e: Element): Element {
    var key := BackProp(slot);
    var owner := DerivedOwner(claims, slot, e.id);
    if key !in e.props && HasField(FieldsOf(tables, e.ty), key) && owner.Some?
    then e.(props := e.props[key := Ref(owner.value)])
    else e
  }

  function CompletedBoth(tables: Tables, claims: Doc, e: Element): Element {
    Completed(tables, claims, 1, Completed(tables, claims, 0, e))
  }

  function CompletedAll(tables: Tables, claims: Doc): (r: Doc)
    ensures |r| == |claims|
    ensures forall i :: 0 <= i < |r| ==> r[i] == CompletedBoth(tables, claims, claims[i])
  {
    seq(|claims|, i requires 0 <= i < |claims| => CompletedBoth(tables, claims, claims[i]))
  }

  // ---- the sort --------------------------------------------------------------------

  /** Byte order of texts. */
  predicate Before(a: Text, b: Text) {
    if b == [] then false
    else if a == [] then true
    else a[0] < b[0] || (a[0] == b[0] && Before(a[1..], b[1..]))
  }

  lemma {:induction false} BeforeOrders(a: Text, b: Text, c: Text)
    requires !Before(b, a) && !Before(c, b)
    ensures !Before(c, a)
    decreases |a| + |b| + |c|
  {
    if a != [] && b != [] && c != [] && a[0] == b[0] == c[0] {
      BeforeOrders(a[1..], b[1..], c[1..]);
    }
  }

  lemma {:induction false} BeforeTotal(a: Text, b: Text)
    requires Before(a, b)
    ensures !Before(b, a)
  {
    if a != [] && a[0] == b[0] {
      BeforeTotal(a[1..], b[1..]);
    }
  }

  predicate Later(a: Element, b: Element) {
    Before(Spell(b.id), Spell(a.id))
  }

  /** `e` goes before the first element that is not earlier. */
  function Insert(e: Element, s: Doc): Doc {
    if s == [] || !Later(e, s[0]) then [e] + s else [s[0]] + Insert(e, s[1..])
  }

  /** The stable sort by `@id` text. */
  function Sort(s: Doc): Doc {
    if s == [] then [] else Insert(s[0], Sort(s[1..]))
  }

  ghost predicate Sorted(s: Doc) {
    forall i, j :: 0 <= i < j < |s| ==> !Later(s[i], s[j])
  }

  lemma {:induction false} InsertSorts(e: Element, s: Doc)
    requires Sorted(s)
    ensures Sorted(Insert(e, s)) && multiset(Insert(e, s)) == multiset(s) + multiset{e}
  {
    hide Spell, Before;
    if s == [] {
      assert Insert(e, s) == [e];
    } else if !Later(e, s[0]) {
      forall j | 0 <= j < |s| ensures !Later(e, s[j]) {
        if j > 0 {
          assert !Later(s[0], s[j]);
          BeforeOrders(Spell(e.id), Spell(s[0].id), Spell(s[j].id));
        }
      }
      assert forall i, j :: 0 <= i < j < |[e] + s| ==> !Later(([e] + s)[i], ([e] + s)[j]);
    } else {
      assert s == [s[0]] + s[1..];
      InsertSorts(e, s[1..]);
      InsertTail(e, s);
    }
  }

  lemma InsertTail(e: Element, s: Doc)
    requires s != [] && Later(e, s[0]) && Sorted(s)
    requires Sorted(Insert(e, s[1..])) && multiset(Insert(e, s[1..])) == multiset(s[1..]) + multiset{e}
    ensures Sorted([s[0]] + Insert(e, s[1..]))
  {
    hide Spell, Before, Insert;
    var r := Insert(e, s[1..]);
    BeforeTotal(Spell(s[0].id), Spell(e.id));
    forall j | 0 <= j < |r| ensures !Later(s[0], r[j]) {
      assert r[j] in multiset(r);
      assert r[j] == e || r[j] in s[1..];
      if r[j] != e {
        var i :| 0 <= i < |s[1..]| && s[1..][i] == r[j];
        assert s[i + 1] == r[j];
      }
    }
  }

  lemma {:induction false} SortSorts(s: Doc)
    ensures Sorted(Sort(s)) && multiset(Sort(s)) == multiset(s)
  {
    if s != [] {
      SortSorts(s[1..]);
      InsertSorts(s[0], Sort(s[1..]));
      assert s == [s[0]] + s[1..];
    }
  }

  /** The elements of one identity text, in order. */
  function TextNamed(s: Doc, text: Text): Doc {
    if s == [] then [] else (if Spell(s[0].id) == text then [s[0]] else []) + TextNamed(s[1..], text)
  }

  lemma {:induction false} BeforeIrreflexive(a: Text)
    ensures !Before(a, a)
  {
    if a != [] {
      BeforeIrreflexive(a[1..]);
    }
  }

  lemma NamedHead(e: Element, s: Doc, text: Text)
    ensures TextNamed([e] + s, text) == (if Spell(e.id) == text then [e] else []) + TextNamed(s, text)
  {
    hide Spell;
    assert ([e] + s)[1..] == s;
  }

  lemma {:induction false} InsertStable(e: Element, s: Doc, text: Text)
    ensures TextNamed(Insert(e, s), text) == (if Spell(e.id) == text then [e] else []) + TextNamed(s, text)
  {
    hide Spell, Before, TextNamed;
    if s == [] || !Later(e, s[0]) {
      NamedHead(e, s, text);
    } else {
      InsertStable(e, s[1..], text);
      BeforeIrreflexive(Spell(e.id));
      NamedHead(s[0], Insert(e, s[1..]), text);
      NamedHead(s[0], s[1..], text);
      assert s == [s[0]] + s[1..];
      OneOrOther(e, s[0], text, TextNamed(s[1..], text));
    }
  }

  /** Of two elements of different identity texts at most one is of this text. */
  lemma OneOrOther(a: Element, b: Element, text: Text, rest: Doc)
    requires Spell(a.id) != Spell(b.id)
    ensures
      (if Spell(b.id) == text then [b] else []) + ((if Spell(a.id) == text then [a] else []) + rest)
      == (if Spell(a.id) == text then [a] else []) + ((if Spell(b.id) == text then [b] else []) + rest)
  {
    hide Spell;
    assert [] + rest == rest;
    assert [] + ([a] + rest) == [a] + rest && [] + ([b] + rest) == [b] + rest;
  }

  /** The sort is stable. */
  lemma {:induction false} SortStable(s: Doc, text: Text)
    ensures TextNamed(Sort(s), text) == TextNamed(s, text)
  {
    hide Spell, Insert;
    if s != [] {
      SortStable(s[1..], text);
      InsertStable(s[0], Sort(s[1..]), text);
    }
  }

  lemma {:induction false} SortKeeps(s: Doc)
    requires Sorted(s)
    ensures Sort(s) == s
  {
    hide Later;
    if s != [] {
      assert Sorted(s[1..]) by {
        assert forall i :: 0 <= i < |s[1..]| ==> s[1..][i] == s[i + 1];
      }
      SortKeeps(s[1..]);
      if |s| > 1 {
        assert s[1..][0] == s[1];
        assert !Later(s[0], s[1]);
      }
    }
  }

  function Normalized(tables: Tables, full: FullNames, doc: Doc): Result<Doc> {
    var out :- NormalEach(tables, full, doc);
    Ok(Sort(CompletedAll(tables, out)))
  }

  // ---- what is completed, by name --------------------------------------------------

  /**
    One backpointer of the result: as spelled, if it was; else a reference to the first payload
    element whose list `key` names this one, where the table has it and some list does; else none.
   */
  ghost predicate CompletedSlot(
      fields: seq<Field>, claims: Doc, back: Prop, key: Prop, was: Element, now: Element)
  {
    if back in was.props then back in now.props && now.props[back] == was.props[back]
    else
      exists owner: Option<nat> ::
        && FirstToName(claims, key, was.id, owner)
        && if HasField(fields, back) && owner.Some?
           then back in now.props && now.props[back] == Ref(claims[owner.value].id)
           else back !in now.props
  }

  /** Both backpointers are completed, each from its own list, and nothing else changes. */
  ghost predicate CompletedByName(tables: Tables, claims: Doc, was: Element, now: Element) {
    var fields := FieldsOf(tables, was.ty);
    && now.id == was.id && now.ty == was.ty
    && CompletedSlot(fields, claims, OwningRelationship, OwnedRelatedElement, was, now)
    && CompletedSlot(fields, claims, OwningRelatedElement, OwnedRelationship, was, now)
    && forall k :: k != OwningRelationship && k != OwningRelatedElement ==>
         (k in now.props <==> k in was.props) && (k in was.props ==> now.props[k] == was.props[k])
  }

  /** The result: the normalised elements, completed over the payload in its own order, sorted stably. */
  ghost predicate NormalForm(out: Doc, tables: Tables, r: Doc) {
    Sorted(r) && exists each: Doc ::
      && |each| == |out| && multiset(r) == multiset(each)
      && (forall text :: TextNamed(r, text) == TextNamed(each, text))
      && forall i :: 0 <= i < |out| ==> CompletedByName(tables, out, out[i], each[i])
  }

  lemma SlotCompletes(tables: Tables, claims: Doc, slot: nat, e: Element)
    ensures
      var back, fields, now := BackProp(slot), FieldsOf(tables, e.ty), Completed(tables, claims, slot, e);
      var owner := ClaimantFrom(claims, slot, e.id, 0);
      && now.id == e.id && now.ty == e.ty
      && (forall k :: k != back || k in e.props ==>
            (k in now.props <==> k in e.props) && (k in e.props ==> now.props[k] == e.props[k]))
      && (back !in e.props ==>
            if HasField(fields, back) && owner.Some?
            then back in now.props && now.props[back] == Ref(claims[owner.value].id)
            else back !in now.props)
  {
    hide ListIds, ClaimantFrom, FieldsOf, Ordinal;
  }

  lemma BothCompleted(tables: Tables, claims: Doc, e: Element)
    ensures CompletedByName(tables, claims, e, CompletedBoth(tables, claims, e))
  {
    hide ListIds, ClaimantFrom, FieldsOf, Ordinal, Completed, FirstToName;
    SlotCompletes(tables, claims, 0, e);
    SlotCompletes(tables, claims, 1, Completed(tables, claims, 0, e));
    SlotsByName(claims, e.id);
  }

  /** What every property of the result is, and which owner every backpointer names. */
  lemma NormalizedByName(tables: Tables, full: FullNames, doc: Doc)
    requires ValidTables(tables) && Normalized(tables, full, doc).Ok?
    ensures NormalEach(tables, full, doc).Ok? && |NormalEach(tables, full, doc).value| == |doc|
    ensures
      forall i :: 0 <= i < |doc| ==>
        var out := NormalEach(tables, full, doc).value[i];
        out.id == doc[i].id && out.ty == doc[i].ty && WireSpelled(FieldsOf(tables, doc[i].ty), doc[i], out.props)
    ensures NormalForm(NormalEach(tables, full, doc).value, tables, Normalized(tables, full, doc).value)
  {
    hide NormalEach, CompletedByName, CompletedBoth, Sort, Sorted, TextNamed, WireSpelled, WireProps, FieldNames;
    var out := NormalEach(tables, full, doc).value;
    forall i | 0 <= i < |doc|
      ensures WireSpelled(FieldsOf(tables, doc[i].ty), doc[i], out[i].props)
    {
      assert NormalElement(tables, full, doc[i]) == Ok(out[i]);
      FieldsOfValid(tables, doc[i].ty);
      WireSays(FieldsOf(tables, doc[i].ty), doc[i]);
    }
    var each := CompletedAll(tables, out);
    SortSorts(each);
    forall text ensures TextNamed(Sort(each), text) == TextNamed(each, text) {
      SortStable(each, text);
    }
    forall i | 0 <= i < |out| ensures CompletedByName(tables, out, out[i], each[i]) {
      BothCompleted(tables, out, out[i]);
    }
  }

  // ---- what is refused -------------------------------------------------------------

  /** The fields of some metaclass of the tables include one of this name. */
  ghost predicate HasNamed(tables: Tables, ty: string, key: Prop) {
    exists m, f :: m in tables && m.name == ty && f in m.fields && f.name == key
  }

  ghost predicate HasClass(tables: Tables, ty: string) {
    exists m :: m in tables && m.name == ty
  }

  lemma {:induction false} ClassCoded(tables: Tables, m: Metaclass)
    requires m in tables
    ensures Known(tables, m.name)
  {
    if tables[0] != m {
      ClassCoded(tables[1..], m);
    }
  }

  lemma ClassIs(tables: Tables, ty: string)
    requires ValidTables(tables)
    ensures Known(tables, ty) <==> HasClass(tables, ty)
    ensures forall m :: m in tables && m.name == ty ==> m.fields == FieldsOf(tables, ty)
  {
    hide TypeCode;
    forall m | m in tables && m.name == ty ensures Known(tables, ty) && m.fields == FieldsOf(tables, ty) {
      ClassCoded(tables, m);
      var i :| 0 <= i < |tables| && tables[i] == m;
      assert tables[i].name == tables[TypeCode(tables, ty)].name;
    }
    if Known(tables, ty) {
      assert tables[TypeCode(tables, ty)] in tables;
    }
  }

  lemma NamedIs(tables: Tables, ty: string, key: Prop)
    requires ValidTables(tables) && Known(tables, ty)
    ensures HasField(FieldsOf(tables, ty), key) <==> HasNamed(tables, ty, key)
  {
    ClassIs(tables, ty);
    var fields := FieldsOf(tables, ty);
    if HasField(fields, key) {
      var m :| m in tables && m.name == ty;
      assert fields[Ordinal(fields, key)] in m.fields;
    }
  }

  /** Canonicalising refuses exactly an unknown metaclass and a key its table does not name. */
  lemma CanonicalizedIff(tables: Tables, doc: Doc)
    requires ValidTables(tables)
    ensures
      CanonicalizeCompact(tables, doc).Ok?
      <==> forall i :: 0 <= i < |doc| ==>
             HasClass(tables, doc[i].ty) && forall key :: key in doc[i].props ==> HasNamed(tables, doc[i].ty, key)
  {
    hide CanonicalizeCompact, HasNamed, HasClass, HasField, Known, FieldsOf, ValidTables, SpelledProps;
    forall i | 0 <= i < |doc|
      ensures
        CanonElement(tables, doc[i]).Ok?
        <==> HasClass(tables, doc[i].ty) && forall key :: key in doc[i].props ==> HasNamed(tables, doc[i].ty, key)
    {
      ClassIs(tables, doc[i].ty);
      if Known(tables, doc[i].ty) {
        forall key ensures HasField(FieldsOf(tables, doc[i].ty), key) <==> HasNamed(tables, doc[i].ty, key) {
          NamedIs(tables, doc[i].ty, key);
        }
      }
    }
  }

  /** Normalising besides takes, and drops, the keys of the metaclass's full form. */
  lemma NormalizedIff(tables: Tables, full: FullNames, doc: Doc)
    requires ValidTables(tables)
    ensures
      Normalized(tables, full, doc).Ok?
      <==> forall i :: 0 <= i < |doc| ==>
             && HasClass(tables, doc[i].ty)
             && forall key :: key in doc[i].props ==>
                  HasNamed(tables, doc[i].ty, key) || (doc[i].ty in full && key in full[doc[i].ty])
  {
    hide NormalEach, HasNamed, HasClass, HasField, Known, FieldsOf, ValidTables, WireProps, Sort, CompletedAll;
    forall i | 0 <= i < |doc|
      ensures
        NormalElement(tables, full, doc[i]).Ok?
        <==> && HasClass(tables, doc[i].ty)
             && forall key :: key in doc[i].props ==>
                  HasNamed(tables, doc[i].ty, key) || (doc[i].ty in full && key in full[doc[i].ty])
    {
      ClassIs(tables, doc[i].ty);
      if Known(tables, doc[i].ty) {
        forall key ensures HasField(FieldsOf(tables, doc[i].ty), key) <==> HasNamed(tables, doc[i].ty, key) {
          NamedIs(tables, doc[i].ty, key);
        }
      }
    }
  }

  // ---- idempotence -----------------------------------------------------------------

  /** What normalising leaves of an element, and completing keeps. */
  ghost predicate IsNormal(tables: Tables, e: Element) {
    var fields := FieldsOf(tables, e.ty);
    && Known(tables, e.ty)
    && Mirrors(fields) <= e.props.Keys
    && forall k :: k in e.props ==> Keeps(fields, k, e.props[k])
  }

  lemma MirrorFirst(fields: seq<Field>, key: Prop)
    requires NoDup(FieldNames(fields)) && key in Mirrors(fields)
    ensures fields[Ordinal(fields, key)].kind.KElementId?
  {
    var f :| f in fields && f.kind.KElementId? && f.name == key;
    var i :| 0 <= i < |fields| && fields[i] == f;
    OrdinalOfField(fields, i);
  }

  lemma NormalIsNormal(tables: Tables, full: FullNames, e: Element)
    requires ValidTables(tables) && NormalElement(tables, full, e).Ok?
    ensures IsNormal(tables, NormalElement(tables, full, e).value)
  {
    hide FieldsOf, IsDefault, Spell, Mirrors, ValidTables;
    var fields := FieldsOf(tables, e.ty);
    FieldsOfValid(tables, e.ty);
    forall k | k in WireProps(fields, e.id, e.props)
      ensures Keeps(fields, k, WireProps(fields, e.id, e.props)[k])
    {
      if k in Mirrors(fields) {
        MirrorFirst(fields, k);
      }
    }
  }

  lemma NormalStays(tables: Tables, full: FullNames, e: Element)
    requires IsNormal(tables, e)
    ensures NormalElement(tables, full, e) == Ok(e)
  {
    hide FieldsOf, IsDefault, Spell;
    var fields := FieldsOf(tables, e.ty);
    assert WireProps(fields, e.id, e.props) == e.props;
  }

  /** A reference is no field's default, whatever the field's kind. */
  lemma CompletedIsNormal(tables: Tables, claims: Doc, slot: nat, e: Element)
    requires IsNormal(tables, e)
    ensures IsNormal(tables, Completed(tables, claims, slot, e))
    ensures Completed(tables, claims, slot, e).id == e.id && Completed(tables, claims, slot, e).ty == e.ty
    ensures e.props.Keys <= Completed(tables, claims, slot, e).props.Keys
  {
    hide FieldsOf, DerivedOwner, Mirrors;
  }

  /** The forward lists and every key but the backpointer are left alone. */
  lemma CompletedForward(tables: Tables, claims: Doc, slot: nat, e: Element)
    ensures SameForward(e, Completed(tables, claims, slot, e))
  {
    hide FieldsOf, DerivedOwner, RefIds;
  }

  /** Where a list claims the element, its backpointer is spelled or is not in its table. */
  ghost predicate Complete(tables: Tables, claims: Doc, slot: nat, e: Element) {
    && HasField(FieldsOf(tables, e.ty), BackProp(slot))
    && DerivedOwner(claims, slot, e.id).Some?
    ==> BackProp(slot) in e.props
  }

  lemma BothComplete(tables: Tables, claims: Doc, e: Element)
    requires IsNormal(tables, e)
    ensures
      var r := CompletedBoth(tables, claims, e);
      && IsNormal(tables, r) && SameForward(e, r) && r.id == e.id
      && Complete(tables, claims, 0, r) && Complete(tables, claims, 1, r)
  {
    hide FieldsOf, DerivedOwner, IsNormal, ListIds;
    var half := Completed(tables, claims, 0, e);
    CompletedIsNormal(tables, claims, 0, e);
    CompletedIsNormal(tables, claims, 1, half);
    CompletedForward(tables, claims, 0, e);
    CompletedForward(tables, claims, 1, half);
  }

  lemma CompleteStays(tables: Tables, claims: Doc, e: Element)
    requires Complete(tables, claims, 0, e) && Complete(tables, claims, 1, e)
    ensures CompletedBoth(tables, claims, e) == e
  {
    hide FieldsOf, DerivedOwner;
  }

  /** Whatever an arrangement of `doc`'s forward lists claims, `doc` claims. */
  lemma ClaimSurvives(doc: Doc, r: Doc, slot: nat, id: Uuid)
    requires forall e :: e in r ==> exists i :: 0 <= i < |doc| && SameForward(doc[i], e)
    requires slot < 2 && DerivedOwner(r, slot, id).Some?
    ensures DerivedOwner(doc, slot, id).Some?
  {
    hide ListIds;
    var j :| 0 <= j < |r| && id in ListIds(r[j], ForwardProp(slot));
    assert r[j] in r;
    var i :| 0 <= i < |doc| && SameForward(doc[i], r[j]);
    assert id in ListIds(doc[i], ForwardProp(slot));
  }

  /** An element of the result: where it came from, and that both passes leave it alone. */
  lemma ResultElement(tables: Tables, full: FullNames, doc: Doc, out: Doc, e: Element)
    requires ValidTables(tables) && NormalEach(tables, full, doc) == Ok(out)
    requires e in Sort(CompletedAll(tables, out))
    ensures
      exists i :: 0 <= i < |out| && SameForward(out[i], e) && e == CompletedBoth(tables, out, out[i])
    ensures NormalElement(tables, full, e) == Ok(e)
    ensures Complete(tables, out, 0, e) && Complete(tables, out, 1, e)
  {
    hide NormalEach, CompletedBoth, Sort, IsNormal, NormalElement, SameForward, Complete;
    var comp := CompletedAll(tables, out);
    SortSorts(comp);
    assert e in multiset(Sort(comp)) && e in multiset(comp);
    var i :| 0 <= i < |comp| && comp[i] == e;
    assert NormalElement(tables, full, doc[i]) == Ok(out[i]);
    NormalIsNormal(tables, full, doc[i]);
    BothComplete(tables, out, out[i]);
    NormalStays(tables, full, e);
  }

  /**
    Normalising twice is normalising once, on every document: the second pass picks its
    claimants after the sort, but by then every claimed backpointer is spelled.
   */
  lemma NormalizeIdempotent(tables: Tables, full: FullNames, doc: Doc)
    requires ValidTables(tables) && Normalized(tables, full, doc).Ok?
    ensures Normalized(tables, full, Normalized(tables, full, doc).value) == Normalized(tables, full, doc)
  {
    hide NormalEach, CompletedBoth, CompletedAll, Sort, Sorted, NormalElement, Complete, SameForward;
    var out := NormalEach(tables, full, doc).value;
    var comp := CompletedAll(tables, out);
    var r := Sort(comp);
    forall e | e in r
      ensures NormalElement(tables, full, e) == Ok(e) && CompletedBoth(tables, r, e) == e
    {
      ElementStays(tables, full, doc, out, r, e);
    }
    EachStays(tables, full, r);
    AllStay(tables, r);
    SortSorts(comp);
    SortKeeps(r);
  }

  lemma EachStays(tables: Tables, full: FullNames, r: Doc)
    requires forall e :: e in r ==> NormalElement(tables, full, e) == Ok(e)
    ensures NormalEach(tables, full, r) == Ok(r)
  {
    hide NormalEach, NormalElement;
    assert NormalEach(tables, full, r).Ok?;
    assert NormalEach(tables, full, r).value == r;
  }

  lemma AllStay(tables: Tables, r: Doc)
    requires forall e :: e in r ==> CompletedBoth(tables, r, e) == e
    ensures CompletedAll(tables, r) == r
  {
    hide CompletedBoth;
  }

  lemma ElementStays(tables: Tables, full: FullNames, doc: Doc, out: Doc, r: Doc, e: Element)
    requires ValidTables(tables) && NormalEach(tables, full, doc) == Ok(out)
    requires r == Sort(CompletedAll(tables, out)) && e in r
    ensures NormalElement(tables, full, e) == Ok(e) && CompletedBoth(tables, r, e) == e
  {
    hide NormalEach, CompletedBoth, CompletedAll, Sort, NormalElement, SameForward, DerivedOwner, FieldsOf;
    forall x | x in r ensures exists i :: 0 <= i < |out| && SameForward(out[i], x) {
      ResultElement(tables, full, doc, out, x);
    }
    ResultElement(tables, full, doc, out, e);
    forall slot: nat | slot < 2 ensures Complete(tables, r, slot, e) {
      if DerivedOwner(r, slot, e.id).Some? {
        ClaimSurvives(out, r, slot, e.id);
      }
      assert Complete(tables, out, 0, e) && Complete(tables, out, 1, e);
    }
    CompleteStays(tables, r, e);
  }

  // ---- the two spellings meet ------------------------------------------------------

  /** Graph normalising does not see which defaults a document spells. */
  lemma NormalizeIgnoresDefaults(tables: Tables, full: FullNames, doc: Doc)
    requires CanonicalizeCompact(tables, doc).Ok?
    ensures
      Normalized(tables, full, CanonicalizeCompact(tables, doc).value) == Normalized(tables, full, doc)
      && Normalized(tables, full, doc).Ok?
  {
    hide CanonicalizeCompact, NormalEach, NormalElement, CompletedAll, Sort;
    var c := CanonicalizeCompact(tables, doc).value;
    forall i | 0 <= i < |doc|
      ensures NormalElement(tables, full, c[i]) == NormalElement(tables, full, doc[i])
      ensures NormalElement(tables, full, doc[i]).Ok?
    {
      assert CanonElement(tables, doc[i]) == Ok(c[i]);
      ElementIgnoresDefaults(tables, full, doc[i]);
    }
    assert NormalEach(tables, full, c).value == NormalEach(tables, full, doc).value;
  }

  lemma ElementIgnoresDefaults(tables: Tables, full: FullNames, e: Element)
    requires CanonElement(tables, e).Ok?
    ensures NormalElement(tables, full, CanonElement(tables, e).value) == NormalElement(tables, full, e)
    ensures NormalElement(tables, full, e).Ok?
  {
    hide FieldsOf, Spell, WireProps;
    var fields := FieldsOf(tables, e.ty);
    WireIgnoresDefaults(fields, e.id, e.props);
  }

  /** A property spelled at its default is elided, or is the mirror normalising spells anyway. */
  lemma SpelledDefault(fields: seq<Field>, id: Uuid, key: Prop)
    requires DefaultOf(fields, id, key).Some?
    ensures
      Keeps(fields, key, DefaultOf(fields, id, key).value)
      <==> fields[Ordinal(fields, key)].kind.KElementId?
    ensures
      fields[Ordinal(fields, key)].kind.KElementId? ==>
        DefaultOf(fields, id, key).value == Str(Spell(id)) && key in Mirrors(fields)
  {
    hide Spell;
    var f := fields[Ordinal(fields, key)];
    DefaultRulesAgree(f, id, DefaultValue(f, id).value);
    assert f in fields && f.name == key;
  }

  lemma WireIgnoresDefaults(fields: seq<Field>, id: Uuid, props: Props)
    ensures WireProps(fields, id, SpelledProps(fields, id, props)) == WireProps(fields, id, props)
  {
    hide Spell, Mirrors, DefaultOf, Keeps;
    var all := SpelledProps(fields, id, props);
    var w, v := WireProps(fields, id, all), WireProps(fields, id, props);
    forall k
      ensures k in w <==> k in v
      ensures k in v ==> w[k] == v[k]
    {
      if k in all && k !in props {
        SpelledDefault(fields, id, k);
      }
    }
  }
}
