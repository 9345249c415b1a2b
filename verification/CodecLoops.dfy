/**
  The snapshot codec as the code runs it: the record writer filling a bit array and an entry
  list, and a decoder that moves through its input and fills maps in place.
 */
module CodecLoops {
  import opened Wrappers
  import opened Seqs
  import opened Cbor
  import opened Model
  import opened Owners
  import opened Values
  import opened Records
  import opened Sections
  import opened Snapshot
  import opened Patch
  import opened Acts

  // ---- the record writer -----------------------------------------------------------

  /** The ordinals at `k` and above that a record carries as entries. */
  function EntryOrdinals(fields: seq<Field>, e: Element, d: Derivation, k: nat): set<nat> {
    set i: nat | k <= i < |fields| && Hold(fields[i], e, d).Entry? :: i
  }

  lemma {:induction false} EntriesAreCounted(fields: seq<Field>, e: Element, d: Derivation, k: nat)
    requires k <= |fields|
    ensures |EntryOrdinals(fields, e, d, k)| == CountEntries(fields, e, d, k)
    decreases |fields| - k
  {
    hide Hold, EntryOrdinals;
    if k == |fields| {
      OrdinalsHead(fields, e, d, k);
    } else {
      EntriesAreCounted(fields, e, d, k + 1);
      OrdinalsHead(fields, e, d, k);
    }
  }

  lemma OrdinalsHead(fields: seq<Field>, e: Element, d: Derivation, k: nat)
    requires k <= |fields|
    ensures k == |fields| ==> EntryOrdinals(fields, e, d, k) == {}
    ensures
      k < |fields| ==>
        var rest := EntryOrdinals(fields, e, d, k + 1);
        && k !in rest
        && EntryOrdinals(fields, e, d, k) == if Hold(fields[k], e, d).Entry? then {k} + rest else rest
  {
    hide Hold;
  }

  /** What the keys seen so far, all but `left`, put into the bits and the entries. */
  ghost predicate KeysPlaced(
      fields: seq<Field>, e: Element, d: Derivation, left: set<Prop>, bits: seq<bool>, entries: set<nat>)
  {
    && |bits| == |fields|
    && (forall i :: 0 <= i < |fields| ==>
          (bits[i] <==> fields[i].name !in left && Hold(fields[i], e, d).Presence?))
    && (forall i :: i in entries <==>
          0 <= i < |fields| && fields[i].name !in left && Hold(fields[i], e, d).Entry?)
  }

  lemma NothingHeld(fields: seq<Field>, e: Element, d: Derivation)
    ensures forall i :: 0 <= i < |fields| && fields[i].name !in e.props ==> Hold(fields[i], e, d).Nothing?
  {
  }

  lemma OneOrdinal(fields: seq<Field>, ord: nat)
    requires NoDup(FieldNames(fields)) && ord < |fields|
    ensures forall i :: 0 <= i < |fields| && fields[i].name == fields[ord].name ==> i == ord
  {
    var names := FieldNames(fields);
    forall i | 0 <= i < |fields| && fields[i].name == fields[ord].name ensures i == ord {
      assert names[i] == names[ord];
    }
  }

  lemma SortsOne(
      fields: seq<Field>, e: Element, d: Derivation, left: set<Prop>, bits: seq<bool>, entries: set<nat>, ord: nat)
    requires KeysPlaced(fields, e, d, left, bits, entries) && NoDup(FieldNames(fields))
    requires ord < |fields| && fields[ord].name in left
    ensures
      var h := Hold(fields[ord], e, d);
      KeysPlaced(fields, e, d, left - {fields[ord].name}, if h.Presence? then bits[ord := true] else bits,
        if h.Entry? then entries + {ord} else entries)
  {
    hide Hold, NoDup, FieldNames;
    OneOrdinal(fields, ord);
  }

  lemma SortedIs(fields: seq<Field>, e: Element, d: Derivation, bits: seq<bool>, entries: set<nat>)
    requires KeysPlaced(fields, e, d, {}, bits, entries)
    ensures bits == PresenceBits(fields, e, d) && entries == EntryOrdinals(fields, e, d, 0)
  {
    hide Hold;
  }

  /** Each property goes to its presence bit, to the entries, or nowhere; a key outside the table is refused. */
  method SortKeys(fields: seq<Field>, e: Element, d: Derivation)
    returns (known: bool, bits: array<bool>, entries: set<nat>)
    requires NoDup(FieldNames(fields))
    ensures known <==> KeysKnown(fields, e)
    ensures known ==> bits[..] == PresenceBits(fields, e, d) && entries == EntryOrdinals(fields, e, d, 0)
  {
    hide Hold, NoDup, FieldNames;
    bits := new bool[|fields|](_ => false);
    entries := {};
    var left := e.props.Keys;
    NothingHeld(fields, e, d);
    while left != {}
      invariant left <= e.props.Keys
      invariant forall key :: key in e.props && key !in left ==> HasField(fields, key)
      invariant KeysPlaced(fields, e, d, left, bits[..], entries)
    {
      var key :| key in left;
      var ord := Ordinal(fields, key);
      if ord == |fields| {
        return false, bits, entries;
      }
      SortsOne(fields, e, d, left, bits[..], entries, ord);
      var h := Hold(fields[ord], e, d);
      if h.Presence? {
        bits[ord] := true;
      } else if h.Entry? {
        entries := entries + {ord};
      }
      left := left - {key};
    }
    known := true;
    SortedIs(fields, e, d, bits[..], entries);
  }

  method WriteRecordOf(tables: Tables, sp: Spelling, e: Element, d: Derivation) returns (r: Result<Toks>)
    requires ValidTables(tables)
    ensures r == WriteElement(tables, sp, e, d)
  {
    hide FieldsOf, ValidTables, Pack, PresenceBits, CountEntries, WriteEntries, KeysKnown, NoDup, FieldNames;
    if !Known(tables, e.ty) {
      return Err(Malformed);
    }
    var fields := FieldsOf(tables, e.ty);
    FieldsOfValid(tables, e.ty);
    var known, bits, entries := SortKeys(fields, e, d);
    if !known {
      return Err(Malformed);
    }
    EntriesAreCounted(fields, e, d, 0);
    var head := [Array(3), Uint(TypeCode(tables, e.ty)), Uint(Pack(bits[..])), Map(|entries|)];
    var body := WriteEntriesOf(sp, fields, e, d, entries);
    if body.Err? {
      return body;
    }
    r := Ok(head + body.value);
  }

  /** The entries in ascending order of ordinal. */
  method WriteEntriesOf(sp: Spelling, fields: seq<Field>, e: Element, d: Derivation, entries: set<nat>)
    returns (r: Result<Toks>)
    requires entries == EntryOrdinals(fields, e, d, 0)
    ensures r == WriteEntries(sp, fields, e, d, 0)
  {
    hide Hold, WriteEntry;
    var out: Toks := [];
    ghost var all := WriteEntries(sp, fields, e, d, 0);
    PrefixedOn([], [], all);
    for k := 0 to |fields|
      invariant all == Prefixed(out, WriteEntries(sp, fields, e, d, k))
    {
      if k in entries {
        var ts := WriteEntry(sp, fields[k], k, e.props[fields[k].name]);
        if ts.Err? {
          return ts;
        }
        PrefixedOn(out, ts.value, WriteEntries(sp, fields, e, d, k + 1));
        out := out + ts.value;
      } else {
        PrefixedOn([], [], WriteEntries(sp, fields, e, d, k + 1));
      }
    }
    assert out + [] == out;
    r := Ok(out);
  }

  /** What was written, then what is still to write. */
  function Prefixed(out: Toks, more: Result<Toks>): Result<Toks> {
    match more
    case Ok(ts) => Ok(out + ts)
    case Err(kind) => Err(kind)
  }

  lemma PrefixedOn(out: Toks, head: Toks, more: Result<Toks>)
    ensures Prefixed(out, Prefixed(head, more)) == Prefixed(out + head, more)
    ensures Prefixed([], more) == more
  {
    if more.Ok? {
      Assoc(out, head, more.value);
      assert [] + more.value == more.value;
    }
  }

  // ---- the decoder -----------------------------------------------------------------

  /** The outcome of a read that left `rest`. */
  function Left<T>(r: Result<T>, rest: Toks): Result<(T, Toks)> {
    match r
    case Ok(v) => Ok((v, rest))
    case Err(kind) => Err(kind)
  }

  /** The values read so far, then what is left to read. */
  function Gathered(got: seq<Value>, more: Result<(seq<Value>, Toks)>): Result<(seq<Value>, Toks)> {
    match more
    case Ok((vs, rest)) => Ok((got + vs, rest))
    case Err(kind) => Err(kind)
  }

  lemma GatheredOn(got: seq<Value>, v: Value, more: Result<(seq<Value>, Toks)>)
    ensures Gathered(got, Gathered([v], more)) == Gathered(got + [v], more)
    ensures Gathered([], more) == more
  {
    if more.Ok? {
      Assoc(got, [v], more.value.0);
      assert [] + more.value.0 == more.value.0;
    }
  }

  /** A value of one token is read from that token alone. */
  lemma SingleToken(ts: Toks, s: Space, f: Field)
    requires ts != [] && !ts[0].Array?
    ensures
      ReadValue(ts, s, f) == match ReadValue([ts[0]], s, f)
                             case Ok((v, _)) => Ok((v, ts[1..]))
                             case Err(kind) => Err(kind)
  {
    hide Reference, IsFinite;
  }

  lemma EntryStep(ts: Toks, s: Space, fields: seq<Field>, word: nat, n: nat, low: nat, props: Props)
    requires n > 0
    ensures
      ReadEntries(ts, s, fields, word, n, low, props) ==
        match Next(ts)
        case Err(kind) => Err(kind)
        case Ok((t, after)) =>
          if !t.Uint? || t.n < low || t.n >= |fields| || Bit(word, t.n) then Err(Malformed)
          else match ReadValue(after, s, fields[t.n])
               case Err(kind) => Err(kind)
               case Ok((v, more)) =>
                 ReadEntries(more, s, fields, word, n - 1, t.n + 1, props[fields[t.n].name := v])
  {
    hide ReadValue, Bit;
  }

  lemma PatchStep(ts: Toks, s: Space, fields: seq<Field>, n: nat, low: nat, props: Props)
    requires n > 0
    ensures
      ReadPatchOps(ts, s, fields, n, low, props) ==
        match ReadUint(ts)
        case Err(kind) => Err(kind)
        case Ok((ord, after)) =>
          if ord < low || ord >= |fields| then Err(Malformed)
          else match ReadOp(after, s, fields[ord])
               case Err(kind) => Err(kind)
               case Ok((op, more)) =>
                 (match ApplyOp(fields[ord].name, op, props)
                  case None => Err(Malformed)
                  case Some(next) => ReadPatchOps(more, s, fields, n - 1, ord + 1, next))
  {
    hide ReadOp, ApplyOp;
  }

  /** The elements read so far, then what is left to read. */
  function Collected(got: Doc, more: Result<(Doc, Toks)>): Result<(Doc, Toks)> {
    match more
    case Ok((es, rest)) => Ok((got + es, rest))
    case Err(kind) => Err(kind)
  }

  lemma CollectedOn(got: Doc, e: Element, more: Result<(Doc, Toks)>)
    ensures Collected(got, Collected([e], more)) == Collected(got + [e], more)
    ensures Collected([], more) == more
  {
    if more.Ok? {
      Assoc(got, [e], more.value.0);
      assert [] + more.value.0 == more.value.0;
    }
  }

  lemma ElementsStep(ts: Toks, s: Space, tables: Tables, ids: seq<Uuid>)
    requires ids != []
    ensures
      ReadElements(ts, s, tables, ids) ==
        match ReadElement(ts, s, tables, ids[0])
        case Err(kind) => Err(kind)
        case Ok((e, more)) => Collected([e], ReadElements(more, s, tables, ids[1..]))
  {
    hide ReadElement;
  }

  /** The defaults the presence bits spell, put into the map after the entries. */
  method SpellPresent(fields: seq<Field>, word: nat, id: Uuid, entries: Props) returns (r: Result<Props>)
    ensures r == FillDefaults(fields, word, id, 0, entries)
  {
    hide DefaultValue, Bit;
    var props := entries;
    for k := 0 to |fields|
      invariant FillDefaults(fields, word, id, k, props) == FillDefaults(fields, word, id, 0, entries)
    {
      if Bit(word, k) {
        match DefaultValue(fields[k], id) {
          case None =>
            return Err(Malformed);
          case Some(v) =>
            props := props[fields[k].name := v];
        }
      }
    }
    r := Ok(props);
  }

  /** Moves through a payload; `rest` is what is left of it. */
  class Decoder {
    var rest: Toks

    constructor (ts: Toks)
      ensures rest == ts
    {
      rest := ts;
    }

    method Take() returns (r: Result<Token>)
      modifies this
      ensures Left(r, rest) == Next(old(rest))
    {
      if rest == [] {
        return Err(Truncated);
      }
      r := Ok(rest[0]);
      rest := rest[1..];
    }

    method Number() returns (r: Result<nat>)
      modifies this
      ensures Left(r, rest) == ReadUint(old(rest))
    {
      var t := Take();
      if t.Err? {
        return Err(t.kind);
      }
      if !t.value.Uint? {
        return Err(Malformed);
      }
      r := Ok(t.value.n);
    }

    method References(s: Space, n: nat) returns (r: Result<seq<Value>>)
      modifies this
      ensures Left(r, rest) == ReadRefs(old(rest), s, n)
    {
      hide Reference;
      var got: seq<Value> := [];
      ghost var all := ReadRefs(rest, s, n);
      GatheredOn([], Null, all);
      for k := 0 to n
        invariant all == Gathered(got, ReadRefs(rest, s, n - k))
      {
        ghost var before := rest;
        var t := Take();
        if t.Err? {
          return Err(t.kind);
        }
        var v := ReadRef(s, t.value);
        if v.Err? {
          return Err(v.kind);
        }
        GatheredOn(got, v.value, ReadRefs(rest, s, n - k - 1));
        assert ReadRefs(before, s, n - k) == Gathered([v.value], ReadRefs(rest, s, n - k - 1));
        got := got + [v.value];
      }
      assert got + [] == got;
      r := Ok(got);
    }

    method Texts(n: nat) returns (r: Result<seq<Value>>)
      modifies this
      ensures Left(r, rest) == ReadTexts(old(rest), n)
    {
      var got: seq<Value> := [];
      ghost var all := ReadTexts(rest, n);
      GatheredOn([], Null, all);
      for k := 0 to n
        invariant all == Gathered(got, ReadTexts(rest, n - k))
      {
        ghost var before := rest;
        var t := Take();
        if t.Err? {
          return Err(t.kind);
        }
        if !t.value.Tstr? {
          return Err(Malformed);
        }
        GatheredOn(got, Str(t.value.bytes), ReadTexts(rest, n - k - 1));
        assert ReadTexts(before, n - k) == Gathered([Str(t.value.bytes)], ReadTexts(rest, n - k - 1));
        got := got + [Str(t.value.bytes)];
      }
      assert got + [] == got;
      r := Ok(got);
    }

    /** A list property: its length held against what is left, then its items. */
    method List(s: Space, f: Field, n: nat) returns (r: Result<Value>)
      modifies this
      ensures
        Left(r, rest) ==
          if n > Remaining(old(rest)) || !IsListKind(f) then Left(Err(Malformed), [])
          else match ReadItems(old(rest), s, f, n)
               case Ok((vs, after)) => Ok((Arr(vs), after))
               case Err(kind) => Err(kind)
    {
      hide ReadRefs, ReadTexts, Remaining;
      if n > Remaining(rest) || !IsListKind(f) {
        return Err(Malformed);
      }
      var got: Result<seq<Value>>;
      if f.kind.KRefList? {
        got := References(s, n);
      } else {
        got := Texts(n);
      }
      if got.Err? {
        return Err(got.kind);
      }
      r := Ok(Arr(got.value));
    }

    /** A value of one token, by its kind; the token is already taken. */
    method Single(t: Token, s: Space, f: Field) returns (r: Result<Value>)
      requires !t.Array?
      ensures Left(r, []) == ReadValue([t], s, f)
    {
      hide Reference, IsFinite;
      match t {
        case NullTok =>
          return Ok(Null);
        case True =>
          return Ok(Bool(true));
        case False =>
          return Ok(Bool(false));
        case Tstr(text) =>
          return Ok(if f.kind.KRef? then Sym(text) else Str(text));
        case F64(bits) =>
          if f.kind.KLiteral? && IsFinite(bits) {
            return Ok(Float(bits));
          }
        case NInt(a) =>
          if f.kind.KLiteral? && a < 0x8000_0000_0000_0000 {
            return Ok(Int(-1 - a));
          }
        case Uint(i) =>
          if f.kind.KRef? {
            r := Reference(s, i);
            return;
          }
          if f.kind.KEnum? && i < |f.vocab| {
            return Ok(Str(f.vocab[i]));
          }
          if f.kind.KLiteral? && i < U64_END {
            return Ok(Int(i));
          }
        case _ =>
      }
      r := Err(Malformed);
    }

    method Value(s: Space, f: Field) returns (r: Result<Value>)
      modifies this
      ensures Left(r, rest) == ReadValue(old(rest), s, f)
    {
      hide ReadRefs, ReadTexts, Remaining, Reference, IsFinite;
      ghost var before := rest;
      var t := Take();
      if t.Err? {
        return Err(t.kind);
      }
      if t.value.Array? {
        r := List(s, f, t.value.len);
      } else {
        r := Single(t.value, s, f);
        SingleToken(before, s, f);
      }
    }

    /** `n` entries put into a map, ordinals ascending, none of them also a presence bit. */
    method Entries(s: Space, fields: seq<Field>, word: nat, n: nat) returns (r: Result<Props>)
      modifies this
      ensures Left(r, rest) == ReadEntries(old(rest), s, fields, word, n, 0, map[])
    {
      hide ReadValue, Bit;
      var props: Props := map[];
      var low: nat := 0;
      ghost var all := ReadEntries(rest, s, fields, word, n, 0, map[]);
      for k := 0 to n
        invariant all == ReadEntries(rest, s, fields, word, n - k, low, props)
      {
        EntryStep(rest, s, fields, word, n - k, low, props);
        var t := Take();
        if t.Err? {
          return Err(t.kind);
        }
        if !t.value.Uint? || t.value.n < low || t.value.n >= |fields| || Bit(word, t.value.n) {
          return Err(Malformed);
        }
        var v := Value(s, fields[t.value.n]);
        if v.Err? {
          return Err(v.kind);
        }
        low, props := t.value.n + 1, props[fields[t.value.n].name := v.value];
      }
      r := Ok(props);
    }

    /** A record after its `array(3)` head: its type, its presence bits, its entries, its defaults. */
    method Body(s: Space, tables: Tables, id: Uuid) returns (r: Result<Element>)
      modifies this
      ensures Left(r, rest) == ReadBody(old(rest), s, tables, id)
    {
      hide ReadEntries, FillDefaults, Shift;
      var code := Take();
      if code.Err? {
        return Err(code.kind);
      }
      if !code.value.Uint? || code.value.n >= |tables| {
        return Err(Malformed);
      }
      var fields := tables[code.value.n].fields;
      var word := Take();
      if word.Err? {
        return Err(word.kind);
      }
      if !word.value.Uint? || Shift(word.value.n, |fields|) != 0 {
        return Err(Malformed);
      }
      var count := Take();
      if count.Err? {
        return Err(count.kind);
      }
      if !count.value.Map? {
        return Err(Malformed);
      }
      var props := Entries(s, fields, word.value.n, count.value.len);
      if props.Err? {
        return Err(props.kind);
      }
      var filled := SpellPresent(fields, word.value.n, id, props.value);
      if filled.Err? {
        return Err(filled.kind);
      }
      r := Ok(Element(id, tables[code.value.n].name, filled.value));
    }

    method OneElement(s: Space, tables: Tables, id: Uuid) returns (r: Result<Element>)
      modifies this
      ensures Left(r, rest) == ReadElement(old(rest), s, tables, id)
    {
      hide ReadBody;
      var t := Take();
      if t.Err? {
        return Err(t.kind);
      }
      if t.value != Array(3) {
        return Err(Malformed);
      }
      r := Body(s, tables, id);
    }

    /** One record for each identity of the table, in its order. */
    method Elements(s: Space, tables: Tables, ids: seq<Uuid>) returns (r: Result<Doc>)
      modifies this
      ensures Left(r, rest) == ReadElements(old(rest), s, tables, ids)
    {
      hide ReadElement;
      var doc: Doc := [];
      ghost var all := ReadElements(rest, s, tables, ids);
      CollectedOn([], Element(0, "", map[]), all);
      for k := 0 to |ids|
        invariant all == Collected(doc, ReadElements(rest, s, tables, ids[k..]))
      {
        ElementsStep(rest, s, tables, ids[k..]);
        assert ids[k..][1..] == ids[k + 1..];
        var e := OneElement(s, tables, ids[k]);
        if e.Err? {
          return Err(e.kind);
        }
        CollectedOn(doc, e.value, ReadElements(rest, s, tables, ids[k + 1..]));
        doc := doc + [e.value];
      }
      assert doc + [] == doc;
      r := Ok(doc);
    }

    method Announced() returns (r: Result<nat>)
      modifies this
      ensures Left(r, rest) == ReadArray(old(rest))
    {
      var t := Take();
      if t.Err? {
        return Err(t.kind);
      }
      if !t.value.Array? {
        return Err(Malformed);
      }
      r := Ok(t.value.len);
    }

    method Items(s: Space, f: Field, n: nat) returns (r: Result<seq<Value>>)
      modifies this
      ensures Left(r, rest) == ReadItems(old(rest), s, f, n)
    {
      hide ReadRefs, ReadTexts;
      if f.kind.KRefList? {
        r := References(s, n);
      } else if f.kind.KStrList? {
        r := Texts(n);
      } else {
        r := if n == 0 then Ok([]) else Err(Malformed);
      }
    }

    /** A splice's operand: where, how many, and the items put there. */
    method Splicing(s: Space, f: Field) returns (r: Result<FieldOp>)
      modifies this
      ensures Left(r, rest) == ReadSplice(old(rest), s, f)
    {
      hide ReadItems, Remaining;
      var three := Announced();
      if three.Err? {
        return Err(three.kind);
      }
      var at := Number();
      if at.Err? {
        return Err(at.kind);
      }
      var del := Number();
      if del.Err? {
        return Err(del.kind);
      }
      var n := Announced();
      if n.Err? {
        return Err(n.kind);
      }
      if three.value != 3 || n.value > Remaining(rest) {
        return Err(Malformed);
      }
      var items := Items(s, f, n.value);
      if items.Err? {
        return Err(items.kind);
      }
      r := Ok(Splice(at.value, del.value, items.value));
    }

    /** One operation: its code, then the operand that code calls for. */
    method Operation(s: Space, f: Field) returns (r: Result<FieldOp>)
      modifies this
      ensures Left(r, rest) == ReadOp(old(rest), s, f)
    {
      hide ReadValue, ReadSplice;
      var two := Announced();
      if two.Err? {
        return Err(two.kind);
      }
      var code := Number();
      if code.Err? {
        return Err(code.kind);
      }
      if two.value != 2 {
        return Err(Malformed);
      }
      if code.value == OP_SET {
        var v := Value(s, f);
        if v.Err? {
          return Err(v.kind);
        }
        return Ok(Set(v.value));
      }
      if code.value == OP_UNSET {
        var t := Take();
        if t.Err? {
          return Err(t.kind);
        }
        return if t.value.NullTok? then Ok(Unset) else Err(Malformed);
      }
      if code.value == OP_SPLICE {
        r := Splicing(s, f);
        return;
      }
      r := Err(Malformed);
    }

    /** A patch's operations, each edited into the element's properties as it is read. */
    method PatchOps(s: Space, fields: seq<Field>, n: nat, base: Props) returns (r: Result<Props>)
      modifies this
      ensures Left(r, rest) == ReadPatchOps(old(rest), s, fields, n, 0, base)
    {
      hide ReadOp, ApplyOp;
      var props := base;
      var low: nat := 0;
      ghost var all := ReadPatchOps(rest, s, fields, n, 0, base);
      for k := 0 to n
        invariant all == ReadPatchOps(rest, s, fields, n - k, low, props)
      {
        PatchStep(rest, s, fields, n - k, low, props);
        var ord := Number();
        if ord.Err? {
          return Err(ord.kind);
        }
        if ord.value < low || ord.value >= |fields| {
          return Err(Malformed);
        }
        var op := Operation(s, fields[ord.value]);
        if op.Err? {
          return Err(op.kind);
        }
        match ApplyOp(fields[ord.value].name, op.value, props) {
          case None =>
            return Err(Malformed);
          case Some(next) =>
            props, low := next, ord.value + 1;
        }
      }
      r := Ok(props);
    }
  }

  function OwnerId(doc: Doc, owner: Option<nat>): Option<Uuid>
    requires owner.Some? ==> owner.value < |doc|
  {
    match owner case Some(j) => Some(doc[j].id) case None => None
  }

  /** One element's backpointers, from the claimants found for it. */
  function Restored(tables: Tables, doc: Doc, pairs: Pairs, i: nat, owning: Option<nat>, related: Option<nat>): Element
    requires i < |doc|
    requires (owning.Some? ==> owning.value < |doc|) && (related.Some? ==> related.value < |doc|)
  {
    FillElement(FieldsOf(tables, doc[i].ty), BitsAt(pairs, i), OwnerId(doc, owning), OwnerId(doc, related), doc[i])
  }

  lemma FilledOwner(tables: Tables, doc: Doc, pairs: Pairs, i: nat)
    requires i < |doc|
    ensures
      var owning, related := ClaimantFrom(doc, 0, doc[i].id, 0), ClaimantFrom(doc, 1, doc[i].id, 0);
      && (owning.Some? ==> owning.value < |doc|) && (related.Some? ==> related.value < |doc|)
      && FillOwners(tables, doc, pairs)[i] == Restored(tables, doc, pairs, i, owning, related)
  {
    hide FieldsOf, BitsAt, FillElement;
  }

  /** `owners` holds the first claimant of every element for `slot`. */
  ghost predicate Claimants(doc: Doc, slot: nat, owners: seq<Option<nat>>) {
    |owners| == |doc| && forall j :: 0 <= j < |doc| ==> owners[j] == ClaimantFrom(doc, slot, doc[j].id, 0)
  }

  lemma RestoredAt(
      tables: Tables, doc: Doc, pairs: Pairs, i: nat, owning: seq<Option<nat>>, related: seq<Option<nat>>)
    requires i < |doc| && Claimants(doc, 0, owning) && Claimants(doc, 1, related)
    ensures (owning[i].Some? ==> owning[i].value < |doc|) && (related[i].Some? ==> related[i].value < |doc|)
    ensures FillOwners(tables, doc, pairs)[i] == Restored(tables, doc, pairs, i, owning[i], related[i])
  {
    hide Restored, FillOwners;
    FilledOwner(tables, doc, pairs, i);
  }

  /** Backpointers re-derived over the decoded document, element by element. */
  method RestoreOwners(tables: Tables, doc: Doc, pairs: Pairs) returns (filled: Doc)
    requires DistinctIds(doc)
    ensures filled == FillOwners(tables, doc, pairs)
  {
    hide ClaimantFrom, DistinctIds, FillOwners;
    var owning, related := DeriveOwners(doc);
    filled := RestoreFrom(tables, doc, pairs, owning[..], related[..]);
  }

  method RestoreFrom(tables: Tables, doc: Doc, pairs: Pairs, owning: seq<Option<nat>>, related: seq<Option<nat>>)
    returns (filled: Doc)
    requires Claimants(doc, 0, owning) && Claimants(doc, 1, related)
    ensures filled == FillOwners(tables, doc, pairs)
  {
    hide FillOwners, Restored, Claimants;
    filled := [];
    for i := 0 to |doc|
      invariant |filled| == i && forall k :: 0 <= k < i ==> filled[k] == FillOwners(tables, doc, pairs)[k]
    {
      assert |owning| == |related| == |doc| by { ClaimantsSize(doc, owning, related); }
      RestoredAt(tables, doc, pairs, i, owning, related);
      filled := filled + [Restored(tables, doc, pairs, i, owning[i], related[i])];
    }
    assert filled == FillOwners(tables, doc, pairs);
  }

  lemma ClaimantsSize(doc: Doc, owning: seq<Option<nat>>, related: seq<Option<nat>>)
    requires Claimants(doc, 0, owning) && Claimants(doc, 1, related)
    ensures |owning| == |related| == |doc|
  {
  }
}
