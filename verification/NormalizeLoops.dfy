/** The two normalisations as the code runs them: maps filled key by key, elements completed in place. */
module NormalizeLoops {
  import opened Wrappers
  import opened Seqs
  import opened Cbor
  import opened Model
  import opened Owners
  import opened Normalize

  /** `canon` spells `props` and the defaults of the first `upto` fields. */
  ghost predicate Filled(fields: seq<Field>, id: Uuid, props: Props, canon: Props, upto: nat)
    requires upto <= |fields|
  {
    && (forall k :: k in props ==> k in canon && canon[k] == props[k])
    && (forall k :: k in canon && k !in props ==> DefaultOf(fields, id, k) == Some(canon[k]))
    && forall j :: 0 <= j < upto && DefaultOf(fields, id, fields[j].name).Some? ==> fields[j].name in canon
  }

  lemma FilledIsSpelled(fields: seq<Field>, id: Uuid, props: Props, canon: Props)
    requires Filled(fields, id, props, canon, |fields|)
    ensures canon == SpelledProps(fields, id, props)
  {
    var all := SpelledProps(fields, id, props);
    forall k | k in all ensures k in canon {
      if k !in props {
        var j := Ordinal(fields, k);
        assert fields[j].name == k;
      }
    }
    assert canon == all;
  }

  lemma FilledStarts(fields: seq<Field>, id: Uuid, props: Props)
    ensures Filled(fields, id, props, props, 0)
  {
  }

  lemma FilledStep(fields: seq<Field>, id: Uuid, props: Props, canon: Props, i: nat)
    requires NoDup(FieldNames(fields)) && i < |fields| && Filled(fields, id, props, canon, i)
    ensures
      var key, d := fields[i].name, DefaultValue(fields[i], id);
      && (key in canon || d.None? ==> Filled(fields, id, props, canon, i + 1))
      && (key !in canon && d.Some? ==> Filled(fields, id, props, canon[key := d.value], i + 1))
  {
    hide DefaultValue, FieldNames, NoDup;
    OrdinalOfField(fields, i);
  }

  /** Copies every property, refusing one outside the table. */
  method CopyProps(fields: seq<Field>, props: Props) returns (r: Result<Props>)
    ensures r == if InTable(fields, props) then Ok(props) else Err(Malformed)
  {
    var canon: Props := map[];
    var keys := props.Keys;
    while keys != {}
      invariant keys <= props.Keys
      invariant canon == map k | k in props && k !in keys :: props[k]
      invariant forall k :: k in props && k !in keys ==> HasField(fields, k)
    {
      var key :| key in keys;
      if !HasField(fields, key) {
        return Err(Malformed);
      }
      canon := canon[key := props[key]];
      keys := keys - {key};
    }
    assert canon == props;
    r := Ok(canon);
  }

  method SpellDefaults(fields: seq<Field>, id: Uuid, props: Props) returns (canon: Props)
    requires NoDup(FieldNames(fields))
    ensures canon == SpelledProps(fields, id, props)
  {
    hide DefaultValue, FieldNames, NoDup, Filled, SpelledProps;
    canon := props;
    FilledStarts(fields, id, props);
    for i := 0 to |fields|
      invariant Filled(fields, id, props, canon, i)
    {
      FilledStep(fields, id, props, canon, i);
      if fields[i].name !in canon {
        var d := DefaultValue(fields[i], id);
        if d.Some? {
          canon := canon[fields[i].name := d.value];
        }
      }
    }
    FilledIsSpelled(fields, id, props, canon);
  }

  method CanonicalizeElement(tables: Tables, e: Element) returns (r: Result<Element>)
    requires ValidTables(tables)
    ensures r == CanonElement(tables, e)
    ensures r.Ok? ==> SpelledOut(FieldsOf(tables, e.ty), e, r.value)
  {
    hide FieldsOf, ValidTables, InTable, SpelledProps, SpelledOut;
    if !Known(tables, e.ty) {
      return Err(Malformed);
    }
    FieldsOfValid(tables, e.ty);
    var copied := CopyProps(FieldsOf(tables, e.ty), e.props);
    if copied.Err? {
      return Err(Malformed);
    }
    var canon := SpellDefaults(FieldsOf(tables, e.ty), e.id, copied.value);
    r := Ok(e.(props := canon));
    CanonicalSays(tables, e);
  }

  /** Copies what is no default, drops what only the full form has, and refuses the rest. */
  method KeepProps(full: FullNames, fields: seq<Field>, ty: string, props: Props) returns (r: Result<Props>)
    ensures r == if InSchema(full, fields, ty, props) then Ok(KeptProps(fields, props)) else Err(Malformed)
  {
    hide IsWireDefault;
    var wire: Props := map[];
    var keys := props.Keys;
    while keys != {}
      invariant keys <= props.Keys
      invariant wire == map k | k in props && k !in keys && Keeps(fields, k, props[k]) :: props[k]
      invariant forall k :: k in props && k !in keys ==> InForm(full, fields, ty, k)
    {
      var key :| key in keys;
      var ord := Ordinal(fields, key);
      if ord < |fields| {
        if !IsWireDefault(fields[ord], props[key]) {
          wire := wire[key := props[key]];
        }
      } else if ty !in full || key !in full[ty] {
        return Err(Malformed);
      }
      keys := keys - {key};
    }
    assert wire == KeptProps(fields, props);
    r := Ok(wire);
  }

  lemma MirrorsFilled(fields: seq<Field>, id: Uuid, props: Props, kept: Props, wire: Props)
    requires kept == map k | k in props && Keeps(fields, k, props[k]) :: props[k]
    requires forall k :: k in kept ==> k in wire && wire[k] == kept[k]
    requires forall k :: k in wire && k !in kept ==> k in Mirrors(fields) && wire[k] == Str(Spell(id))
    requires forall j :: 0 <= j < |fields| && fields[j].kind.KElementId? ==> fields[j].name in wire
    ensures wire == WireProps(fields, id, props)
  {
    hide Spell, Keeps;
    forall k | k in Mirrors(fields) ensures k in wire {
      var f :| f in fields && f.kind.KElementId? && f.name == k;
      var j :| 0 <= j < |fields| && fields[j] == f;
    }
    assert wire == WireProps(fields, id, props);
  }

  method SpellMirrors(fields: seq<Field>, id: Uuid, kept: Props, ghost props: Props) returns (wire: Props)
    requires kept == KeptProps(fields, props)
    ensures wire == WireProps(fields, id, props)
  {
    hide Spell, Keeps;
    wire := kept;
    for i := 0 to |fields|
      invariant forall k :: k in kept ==> k in wire && wire[k] == kept[k]
      invariant forall k :: k in wire && k !in kept ==> k in Mirrors(fields) && wire[k] == Str(Spell(id))
      invariant forall j :: 0 <= j < i && fields[j].kind.KElementId? ==> fields[j].name in wire
    {
      if fields[i].kind.KElementId? && fields[i].name !in wire {
        wire := wire[fields[i].name := Str(Spell(id))];
      }
    }
    MirrorsFilled(fields, id, props, kept, wire);
  }

  method NormalizeElement(tables: Tables, full: FullNames, e: Element) returns (r: Result<Element>)
    ensures r == NormalElement(tables, full, e)
    ensures ValidTables(tables) && r.Ok? ==> WireSpelled(FieldsOf(tables, e.ty), e, r.value.props)
  {
    hide FieldsOf, InSchema, WireProps, KeptProps, WireSpelled, ValidTables, FieldNames;
    if !Known(tables, e.ty) {
      return Err(Malformed);
    }
    var fields := FieldsOf(tables, e.ty);
    var kept := KeepProps(full, fields, e.ty, e.props);
    if kept.Err? {
      return Err(Malformed);
    }
    var wire := SpellMirrors(fields, e.id, kept.value, e.props);
    r := Ok(e.(props := wire));
    if ValidTables(tables) {
      FieldsOfValid(tables, e.ty);
      WireSays(fields, e);
    }
  }

  // ---- first claimants -------------------------------------------------------------

  type Claims = map<Uuid, Uuid>

  /** `claims` holds the derived owner of every identity some list of `doc` claims. */
  ghost predicate FirstClaims(doc: Doc, slot: nat, claims: Claims) {
    forall u :: DerivedOwner(doc, slot, u) == if u in claims then Some(claims[u]) else None
  }

  lemma NoClaims(slot: nat)
    ensures FirstClaims([], slot, map[])
  {
  }

  /** One element's list claims what nothing before it claimed: first claimant wins. */
  method Claim(doc: Doc, i: nat, slot: nat, before: Claims) returns (claims: Claims)
    requires i < |doc| && FirstClaims(doc[..i], slot, before)
    ensures FirstClaims(doc[..i + 1], slot, claims)
  {
    hide ListIds, DerivedOwner;
    var targets := ListIds(doc[i], ForwardProp(slot));
    claims := before;
    for k := 0 to |targets|
      invariant forall u :: u in claims <==> u in before || u in targets[..k]
      invariant forall u :: u in claims ==> claims[u] == if u in before then before[u] else doc[i].id
    {
      assert targets[..k + 1] == targets[..k] + [targets[k]];
      if targets[k] !in claims {
        claims := claims[targets[k] := doc[i].id];
      }
    }
    assert targets[..|targets|] == targets;
    forall u ensures DerivedOwner(doc[..i + 1], slot, u) == if u in claims then Some(claims[u]) else None {
      OwnerExtends(doc, slot, u, i);
    }
  }

  lemma OwnerExtends(doc: Doc, slot: nat, u: Uuid, i: nat)
    requires i < |doc|
    ensures
      var before := DerivedOwner(doc[..i], slot, u);
      DerivedOwner(doc[..i + 1], slot, u)
      == (if before.Some? then before
          else if u in ListIds(doc[i], ForwardProp(slot)) then Some(doc[i].id) else None)
  {
    hide ListIds, ClaimantFrom;
    ClaimantExtends(doc, slot, u, i, 0);
  }

  /** Completes one backpointer of one element. */
  method CompleteSlot(tables: Tables, out: Doc, slot: nat, claims: Claims, e: Element) returns (r: Element)
    requires FirstClaims(out, slot, claims)
    ensures r == Completed(tables, out, slot, e)
  {
    hide FieldsOf, DerivedOwner;
    r := e;
    var key := BackProp(slot);
    assert DerivedOwner(out, slot, e.id) == if e.id in claims then Some(claims[e.id]) else None;
    if key !in e.props && HasField(FieldsOf(tables, e.ty), key) && e.id in claims {
      r := e.(props := e.props[key := Ref(claims[e.id])]);
    }
  }

  lemma NormalEachIs(tables: Tables, full: FullNames, doc: Doc, out: Doc)
    requires |out| == |doc| && forall j :: 0 <= j < |doc| ==> NormalElement(tables, full, doc[j]) == Ok(out[j])
    ensures NormalEach(tables, full, doc) == Ok(out)
  {
    hide NormalElement, NormalEach;
    var r := NormalEach(tables, full, doc);
    assert r.Ok?;
    assert r.value == out;
  }

  lemma NormalRefused(tables: Tables, full: FullNames, doc: Doc, i: nat)
    requires i < |doc| && NormalElement(tables, full, doc[i]).Err?
    ensures Normalized(tables, full, doc) == Err(Malformed)
  {
    hide NormalElement, NormalEach;
    assert NormalEach(tables, full, doc).Err?;
  }

  /** Each element normalised, in payload order; one refused refuses them all. */
  method NormalizeEach(tables: Tables, full: FullNames, doc: Doc) returns (r: Result<Doc>)
    ensures r.Ok? ==> |r.value| == |doc|
    ensures r.Ok? ==> forall j :: 0 <= j < |doc| ==> NormalElement(tables, full, doc[j]) == Ok(r.value[j])
    ensures r.Err? ==> Normalized(tables, full, doc) == r
  {
    hide NormalElement, Normalized;
    var out: Doc := [];
    for i := 0 to |doc|
      invariant |out| == i && forall j :: 0 <= j < i ==> NormalElement(tables, full, doc[j]) == Ok(out[j])
    {
      var e := NormalizeElement(tables, full, doc[i]);
      if e.Err? {
        NormalRefused(tables, full, doc, i);
        return Err(Malformed);
      }
      out := out + [e.value];
    }
    r := Ok(out);
  }

  /** The two claim maps of a payload. */
  method ClaimEach(out: Doc) returns (owning: Claims, related: Claims)
    ensures FirstClaims(out, 0, owning) && FirstClaims(out, 1, related)
  {
    hide FirstClaims;
    owning, related := map[], map[];
    NoClaims(0);
    NoClaims(1);
    for i := 0 to |out|
      invariant FirstClaims(out[..i], 0, owning) && FirstClaims(out[..i], 1, related)
    {
      owning := Claim(out, i, 0, owning);
      related := Claim(out, i, 1, related);
    }
    assert out[..|out|] == out;
  }

  /** Both backpointers of each element completed. */
  method CompleteEach(tables: Tables, out: Doc, owning: Claims, related: Claims) returns (comp: Doc)
    requires FirstClaims(out, 0, owning) && FirstClaims(out, 1, related)
    ensures comp == CompletedAll(tables, out)
  {
    hide Completed, FirstClaims;
    comp := [];
    for i := 0 to |out|
      invariant |comp| == i && forall j :: 0 <= j < i ==> comp[j] == CompletedBoth(tables, out, out[j])
    {
      var half := CompleteSlot(tables, out, 0, owning, out[i]);
      var e := CompleteSlot(tables, out, 1, related, half);
      comp := comp + [e];
    }
  }

  lemma NormalizedIs(tables: Tables, full: FullNames, doc: Doc, out: Doc)
    requires NormalEach(tables, full, doc) == Ok(out)
    ensures Normalized(tables, full, doc) == Ok(Sort(CompletedAll(tables, out)))
  {
    hide NormalEach, Sort, CompletedAll;
  }

  /** The whole normalisation: claimants are chosen in payload order, before the sort. */
  method GraphNormalize(tables: Tables, full: FullNames, doc: Doc) returns (r: Result<Doc>)
    requires ValidTables(tables)
    ensures r == Normalized(tables, full, doc)
    ensures
      r.Ok? ==>
        NormalEach(tables, full, doc).Ok? && NormalForm(NormalEach(tables, full, doc).value, tables, r.value)
  {
    hide NormalElement, NormalEach, Normalized, DerivedOwner, Completed, CompletedBoth, Sort, CompletedAll, ValidTables,
      FirstClaims, NormalForm;
    var normal := NormalizeEach(tables, full, doc);
    if normal.Err? {
      return normal;
    }
    var out := normal.value;
    NormalEachIs(tables, full, doc, out);
    var owning, related := ClaimEach(out);
    var comp := CompleteEach(tables, out, owning, related);
    r := Ok(Sort(comp));
    NormalizedIs(tables, full, doc, out);
    NormalizedByName(tables, full, doc);
  }
}
