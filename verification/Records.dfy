/**
  Element records: `[type code, presence bits, ordinal-keyed map of non-default values]`.

  A presence bit marks a property present at its default, so that an absent default stays
  absent. An ownership backpointer that spells its derivation may be left out.
 */
module Records {
  import opened Wrappers
  import opened Seqs
  import opened Cbor
  import opened Model
  import opened Values

  // ---- presence bits ---------------------------------------------------------------

  function Pack(bits: seq<bool>): nat {
    if bits == [] then 0 else (if bits[0] then 1 else 0) + 2 * Pack(bits[1..])
  }

  function Bit(word: nat, i: nat): bool {
    if i == 0 then word % 2 == 1 else Bit(word / 2, i - 1)
  }

  function Shift(word: nat, n: nat): nat {
    if n == 0 then word else Shift(word / 2, n - 1)
  }

  lemma {:induction false} BitOfPack(bits: seq<bool>, i: nat)
    requires i < |bits|
    ensures Bit(Pack(bits), i) == bits[i]
  {
    hide Pack, Bit;
    var word, first, rest := Pack(bits), if bits[0] then 1 else 0, Pack(bits[1..]);
    assert word == first + 2 * rest by {
      PackHead(bits);
    }
    BitStep(word, i);
    if i > 0 {
      assert word / 2 == rest;
      BitOfPack(bits[1..], i - 1);
    } else {
      assert word % 2 == first;
    }
  }

  lemma PackHead(bits: seq<bool>)
    requires bits != []
    ensures Pack(bits) == (if bits[0] then 1 else 0) + 2 * Pack(bits[1..])
  {
  }

  lemma BitStep(word: nat, i: nat)
    ensures Bit(word, i) == if i == 0 then word % 2 == 1 else Bit(word / 2, i - 1)
  {
  }

  lemma {:induction false} PackInRange(bits: seq<bool>)
    ensures Shift(Pack(bits), |bits|) == 0
  {
    if bits != [] {
      PackInRange(bits[1..]);
    }
  }

  // ---- what a record holds of each field -------------------------------------------

  /** The backpointers a record may leave out: none, or those that spell these derivations. */
  datatype Derivation = Spelled | Implied(owning: Option<Uuid>, related: Option<Uuid>)

  predicate Matches(owner: Option<Uuid>, v: Value) {
    match owner
    case None => v.Null?
    case Some(u) => v == Ref(u)
  }

  predicate Elides(d: Derivation, key: Prop, v: Value) {
    && d.Implied?
    && ((key == OwningRelationship && Matches(d.owning, v))
        || (key == OwningRelatedElement && Matches(d.related, v)))
  }

  datatype Holding = Nothing | Presence | Entry(v: Value)

  function Hold(f: Field, e: Element, d: Derivation): (h: Holding)
    ensures !h.Nothing? ==> f.name in e.props
    ensures h.Entry? ==> h.v == e.props[f.name] && DefaultValue(f, e.id) != Some(h.v)
    ensures h.Presence? ==> DefaultValue(f, e.id) == Some(e.props[f.name])
  {
    hide Spell;
    if f.name !in e.props then Nothing
    else
      var v := e.props[f.name];
      if Elides(d, f.name, v) then Nothing
      else if IsDefault(f, e.id, v) then Presence
      else Entry(v)
  }

  function PresenceBits(fields: seq<Field>, e: Element, d: Derivation): (bits: seq<bool>)
    ensures |bits| == |fields|
    ensures forall i :: 0 <= i < |fields| ==> bits[i] == Hold(fields[i], e, d).Presence?
  {
    seq(|fields|, i requires 0 <= i < |fields| => Hold(fields[i], e, d).Presence?)
  }

  /** The number of entries at ordinals `k` and above. */
  function CountEntries(fields: seq<Field>, e: Element, d: Derivation, k: nat): nat
    requires k <= |fields|
    decreases |fields| - k
  {
    if k == |fields| then 0
    else (if Hold(fields[k], e, d).Entry? then 1 else 0) + CountEntries(fields, e, d, k + 1)
  }

  // ---- writing ---------------------------------------------------------------------

  /** One entry: its ordinal and its value. */
  function WriteEntry(sp: Spelling, f: Field, k: nat, v: Value): (r: Result<Toks>)
    ensures r.Ok? ==> |r.value| >= 2
  {
    var ts :- WriteValue(sp, f, v);
    Ok([Uint(k)] + ts)
  }

  /** The entries at ordinals `k` and above, ascending. */
  function WriteEntries(sp: Spelling, fields: seq<Field>, e: Element, d: Derivation, k: nat): Result<Toks>
    requires k <= |fields|
    decreases |fields| - k
  {
    if k == |fields| then Ok([])
    else
      var h := Hold(fields[k], e, d);
      var head :- if h.Entry? then WriteEntry(sp, fields[k], k, h.v) else Ok([]);
      var tail :- WriteEntries(sp, fields, e, d, k + 1);
      Ok(head + tail)
  }

  /** Every property is in the metaclass's field table. */
  predicate KeysKnown(fields: seq<Field>, e: Element) {
    forall key :: key in e.props.Keys ==> HasField(fields, key)
  }

  function WriteElement(tables: Tables, sp: Spelling, e: Element, d: Derivation): (r: Result<Toks>)
    ensures r.Ok? ==> |r.value| >= 4
  {
    var fields := FieldsOf(tables, e.ty);
    if !Known(tables, e.ty) || !KeysKnown(fields, e) then Err(Malformed)
    else
      var entries :- WriteEntries(sp, fields, e, d, 0);
      Ok([Array(3), Uint(TypeCode(tables, e.ty)), Uint(Pack(PresenceBits(fields, e, d))),
          Map(CountEntries(fields, e, d, 0))] + entries)
  }

  // ---- reading ---------------------------------------------------------------------

  /** `n` entries, their ordinals ascending from `low`, added to `props`. */
  function ReadEntries(ts: Toks, s: Space, fields: seq<Field>, word: nat, n: nat, low: nat, props: Props)
    : Result<(Props, Toks)>
    decreases n
  {
    if n == 0 then Ok((props, ts))
    else
      var (t, after) :- Next(ts);
      if !t.Uint? || t.n < low || t.n >= |fields| || Bit(word, t.n) then Err(Malformed)
      else
        var (v, rest) :- ReadValue(after, s, fields[t.n]);
        ReadEntries(rest, s, fields, word, n - 1, t.n + 1, props[fields[t.n].name := v])
  }

  /** The defaults the presence bits at ordinals `k` and above restore. */
  function FillDefaults(fields: seq<Field>, word: nat, id: Uuid, k: nat, props: Props): Result<Props>
    requires k <= |fields|
    decreases |fields| - k
  {
    if k == |fields| then Ok(props)
    else if !Bit(word, k) then FillDefaults(fields, word, id, k + 1, props)
    else
      match DefaultValue(fields[k], id)
      case None => Err(Malformed)
      case Some(v) => FillDefaults(fields, word, id, k + 1, props[fields[k].name := v])
  }

  /** A record after its `array(3)` head. */
  function ReadBody(ts: Toks, s: Space, tables: Tables, id: Uuid): Result<(Element, Toks)> {
    var (code, ts1) :- Next(ts);
    if !code.Uint? || code.n >= |tables| then Err(Malformed)
    else
      var fields := tables[code.n].fields;
      var (word, ts2) :- Next(ts1);
      if !word.Uint? || Shift(word.n, |fields|) != 0 then Err(Malformed)
      else
        var (count, ts3) :- Next(ts2);
        if !count.Map? then Err(Malformed)
        else
          var (props, rest) :- ReadEntries(ts3, s, fields, word.n, count.len, 0, map[]);
          var filled :- FillDefaults(fields, word.n, id, 0, props);
          Ok((Element(id, tables[code.n].name, filled), rest))
  }

  function ReadElement(ts: Toks, s: Space, tables: Tables, id: Uuid): Result<(Element, Toks)> {
    var (t, after) :- Next(ts);
    if t != Array(3) then Err(Malformed) else ReadBody(after, s, tables, id)
  }

  // ---- reading inverts writing -----------------------------------------------------

  /** The properties a record carries: all but the backpointers it leaves out. */
  function Kept(e: Element, d: Derivation): Props {
    map key | key in e.props && !Elides(d, key, e.props[key]) :: e.props[key]
  }

  predicate Takes(h: Holding, presence: bool) {
    if presence then h.Presence? else h.Entry?
  }

  /** `props` with what the record holds as presence bits, or as entries, at ordinals `k` and above. */
  function Add(fields: seq<Field>, e: Element, d: Derivation, presence: bool, k: nat, props: Props): Props
    requires k <= |fields|
    decreases |fields| - k
  {
    if k == |fields| then props
    else
      var key := fields[k].name;
      Add(fields, e, d, presence, k + 1,
        if Takes(Hold(fields[k], e, d), presence) then props[key := e.props[key]] else props)
  }

  lemma EntriesEnd(
      sp: Spelling, s: Space, fields: seq<Field>, e: Element, d: Derivation, word: nat, low: nat, props: Props,
      ts: Toks)
    ensures WriteEntries(sp, fields, e, d, |fields|) == Ok([]) && CountEntries(fields, e, d, |fields|) == 0
    ensures ReadEntries(ts, s, fields, word, 0, low, props) == Ok((props, ts))
    ensures Add(fields, e, d, false, |fields|, props) == props
  {
  }

  /** The entry of field `k`, if it has one, then those of the fields above. */
  lemma EntriesStep(sp: Spelling, fields: seq<Field>, e: Element, d: Derivation, k: nat)
    requires k < |fields|
    ensures
      WriteEntries(sp, fields, e, d, k).Ok?
      <==>
      && (Hold(fields[k], e, d).Entry? ==> WriteValue(sp, fields[k], Hold(fields[k], e, d).v).Ok?)
      && WriteEntries(sp, fields, e, d, k + 1).Ok?
    ensures
      var f, h := fields[k], Hold(fields[k], e, d);
      WriteEntries(sp, fields, e, d, k).Ok? ==>
      var tail := WriteEntries(sp, fields, e, d, k + 1).value;
      && (h.Entry? ==>
            && WriteEntries(sp, fields, e, d, k).value == [Uint(k)] + (WriteValue(sp, f, h.v).value + tail)
            && CountEntries(fields, e, d, k) == 1 + CountEntries(fields, e, d, k + 1))
      && (!h.Entry? ==>
            && WriteEntries(sp, fields, e, d, k).value == tail
            && CountEntries(fields, e, d, k) == CountEntries(fields, e, d, k + 1))
  {
    hide Hold, WriteValue;
    var f, h := fields[k], Hold(fields[k], e, d);
    if WriteEntries(sp, fields, e, d, k).Ok? {
      var tail := WriteEntries(sp, fields, e, d, k + 1).value;
      if h.Entry? {
        var body := WriteValue(sp, f, h.v).value;
        assert ([Uint(k)] + body) + tail == [Uint(k)] + (body + tail);
      } else {
        assert [] + tail == tail;
      }
    }
  }

  lemma AddStep(fields: seq<Field>, e: Element, d: Derivation, presence: bool, k: nat, props: Props)
    requires k < |fields|
    ensures
      var f, h := fields[k], Hold(fields[k], e, d);
      Add(fields, e, d, presence, k, props)
      == Add(fields, e, d, presence, k + 1, if Takes(h, presence) then props[f.name := e.props[f.name]] else props)
  {
    hide Hold;
  }

  lemma NoPresence(fields: seq<Field>, e: Element, d: Derivation, k: nat)
    requires k < |fields| && Hold(fields[k], e, d).Entry?
    ensures !Bit(Pack(PresenceBits(fields, e, d)), k)
  {
    hide Hold, Pack, Bit;
    BitOfPack(PresenceBits(fields, e, d), k);
  }

  lemma ReadEntriesStep(
      s: Space, fields: seq<Field>, word: nat, n: nat, low: nat, props: Props, k: nat, more: Toks)
    requires n > 0 && low <= k < |fields| && !Bit(word, k) && ReadValue(more, s, fields[k]).Ok?
    ensures
      var (v, after) := ReadValue(more, s, fields[k]).value;
      ReadEntries([Uint(k)] + more, s, fields, word, n, low, props)
      == ReadEntries(after, s, fields, word, n - 1, k + 1, props[fields[k].name := v])
  {
    hide ReadValue, Bit;
    assert ([Uint(k)] + more)[1..] == more;
  }

  lemma {:induction false} ReadEntriesInverts(
      n: Interner, s: Space, fields: seq<Field>, e: Element, d: Derivation, k: nat, low: nat,
      props: Props, ts: Toks, rest: Toks)
    requires Agree(n, s) && low <= k <= |fields|
    requires WriteEntries(Wire(n), fields, e, d, k).Ok?
    requires ts == WriteEntries(Wire(n), fields, e, d, k).value + rest
    ensures
      ReadEntries(ts, s, fields, Pack(PresenceBits(fields, e, d)), CountEntries(fields, e, d, k), low, props)
      == Ok((Add(fields, e, d, false, k, props), rest))
    decreases |fields| - k
  {
    hide Agree, Hold, ReadValue, WriteValue, Pack, Bit, PresenceBits, WriteEntries, ReadEntries, CountEntries, Add;
    var word := Pack(PresenceBits(fields, e, d));
    if k == |fields| {
      EntriesEnd(Wire(n), s, fields, e, d, word, low, props, ts);
      assert [] + rest == rest;
    } else {
      var f, h := fields[k], Hold(fields[k], e, d);
      EntriesStep(Wire(n), fields, e, d, k);
      AddStep(fields, e, d, false, k, props);
      var more := WriteEntries(Wire(n), fields, e, d, k + 1).value + rest;
      if h.Entry? {
        var body := WriteValue(Wire(n), f, h.v).value;
        ReadValueInverts(n, s, f, h.v, body + more, more);
        NoPresence(fields, e, d, k);
        assert ts == [Uint(k)] + (body + more);
        ReadEntriesStep(s, fields, word, CountEntries(fields, e, d, k), low, props, k, body + more);
        ReadEntriesInverts(n, s, fields, e, d, k + 1, k + 1, props[f.name := h.v], more, rest);
      } else {
        ReadEntriesInverts(n, s, fields, e, d, k + 1, low, props, ts, rest);
      }
    }
  }

  lemma {:induction false} FillDefaultsInverts(fields: seq<Field>, e: Element, d: Derivation, k: nat, props: Props)
    requires k <= |fields|
    ensures
      FillDefaults(fields, Pack(PresenceBits(fields, e, d)), e.id, k, props)
      == Ok(Add(fields, e, d, true, k, props))
    decreases |fields| - k
  {
    hide Pack, Bit, IsDefault, DefaultValue, PresenceBits;
    if k < |fields| {
      var f := fields[k];
      BitOfPack(PresenceBits(fields, e, d), k);
      var more := if Hold(f, e, d).Presence? then props[f.name := e.props[f.name]] else props;
      if Hold(f, e, d).Presence? {
        DefaultRulesAgree(f, e.id, e.props[f.name]);
      }
      FillDefaultsInverts(fields, e, d, k + 1, more);
    }
  }

  /** Over a table of distinct names, each property comes from its own ordinal. */
  lemma {:induction false} AddAt(
      fields: seq<Field>, e: Element, d: Derivation, presence: bool, k: nat, props: Props, key: Prop)
    requires k <= |fields| && NoDup(FieldNames(fields))
    ensures
      var added, at := Add(fields, e, d, presence, k, props), Ordinal(fields, key);
      var here := k <= at < |fields| && Takes(Hold(fields[at], e, d), presence);
      && (key in added <==> here || key in props)
      && (key in added ==> (here ==> key in e.props) && added[key] == if here then e.props[key] else props[key])
    decreases |fields| - k
  {
    hide IsDefault, Elides, Ordinal, FieldNames;
    if k < |fields| {
      OrdinalOfField(fields, k);
      var name := fields[k].name;
      var more := if Takes(Hold(fields[k], e, d), presence) then props[name := e.props[name]] else props;
      AddAt(fields, e, d, presence, k + 1, more, key);
    }
  }

  /** Entries then defaults, over a table that holds every key: what the record kept. */
  lemma AddedIsKept(fields: seq<Field>, e: Element, d: Derivation)
    requires NoDup(FieldNames(fields)) && KeysKnown(fields, e)
    ensures Add(fields, e, d, true, 0, Add(fields, e, d, false, 0, map[])) == Kept(e, d)
  {
    hide Add;
    var entries := Add(fields, e, d, false, 0, map[]);
    var all := Add(fields, e, d, true, 0, entries);
    forall key
      ensures key in all <==> key in Kept(e, d)
      ensures key in all ==> all[key] == Kept(e, d)[key]
    {
      AddAt(fields, e, d, false, 0, map[], key);
      AddAt(fields, e, d, true, 0, entries, key);
      KeptAt(fields, e, d, key);
    }
  }

  lemma KeptAt(fields: seq<Field>, e: Element, d: Derivation, key: Prop)
    requires KeysKnown(fields, e)
    ensures
      var at := Ordinal(fields, key);
      && (key in Kept(e, d) <==> at < |fields| && !Hold(fields[at], e, d).Nothing?)
      && (key in Kept(e, d) ==> Kept(e, d)[key] == e.props[key])
  {
    hide IsDefault, Elides;
  }

  /** A record is read back as the element it was written from, less the backpointers it left out. */
  lemma ReadBodyInverts(
      tables: Tables, n: Interner, s: Space, e: Element, d: Derivation, ts: Toks, rest: Toks)
    requires ValidTables(tables) && Agree(n, s) && WriteElement(tables, Wire(n), e, d).Ok?
    requires ts == WriteElement(tables, Wire(n), e, d).value[1..] + rest
    ensures ReadBody(ts, s, tables, e.id) == Ok((Element(e.id, e.ty, Kept(e, d)), rest))
  {
    hide Agree, ReadEntries, WriteEntries, Pack, Shift, PresenceBits, Kept, FillDefaults,
      CountEntries, KeysKnown, Add, ValidFields;
    var fields := FieldsOf(tables, e.ty);
    var bits := PresenceBits(fields, e, d);
    FieldsOfValid(tables, e.ty);
    NamesDistinct(fields);
    PackInRange(bits);
    var entries := WriteEntries(Wire(n), fields, e, d, 0).value;
    assert ts[0] == Uint(TypeCode(tables, e.ty)) && ts[1] == Uint(Pack(bits));
    assert ts[2] == Map(CountEntries(fields, e, d, 0));
    assert ts[1..][1..][1..] == entries + rest;
    ReadEntriesInverts(n, s, fields, e, d, 0, 0, map[], entries + rest, rest);
    FillDefaultsInverts(fields, e, d, 0, Add(fields, e, d, false, 0, map[]));
    AddedIsKept(fields, e, d);
  }

  lemma NamesDistinct(fields: seq<Field>)
    requires ValidFields(fields)
    ensures NoDup(FieldNames(fields))
  {
  }
}
