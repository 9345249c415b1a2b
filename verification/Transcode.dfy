/**
  Transcoding: a record written with raw identities, respelled with wire indices and without
  the backpointers that match their derivation, is the record the encoder writes.
 */
module Transcode {
  import opened Wrappers
  import opened Seqs
  import opened Cbor
  import opened Model
  import opened Values
  import opened Records
  import opened Sections

  /** The ordinals a transcoded record leaves out: presence bits, and entries. */
  datatype Omissions = Omissions(bits: set<nat>, entries: set<nat>)

  const NONE_ELIDED: Omissions := Omissions({}, {})

  // ---- the transcoder --------------------------------------------------------------

  /** The tokens of `pending` complete items, and what follows them. */
  function TakeItems(ts: Toks, pending: nat): (r: Result<(Toks, Toks)>)
    ensures r.Ok? ==> ts == r.value.0 + r.value.1
    decreases |ts|
  {
    if pending == 0 then Ok(([], ts))
    else
      var (t, rest) :- Next(ts);
      var more := Pending(t, pending);
      if more >= U64_END then Err(Malformed)
      else
        var (taken, after) :- TakeItems(rest, more);
        Ok(([t] + taken, after))
  }

  /** One reference: null or symbolic as it stands, an identity as its index. */
  function TranscodeRef(n: Interner, ts: Toks): (r: Result<(Token, Toks)>)
    ensures r.Ok? ==> |r.value.1| < |ts|
  {
    var (t, rest) :- Next(ts);
    match t
    case NullTok => Ok((t, rest))
    case Tstr(_) => Ok((t, rest))
    case Bstr(bs) =>
      if |bs| != 16 then Err(Malformed)
      else
        var i :- IndexIn(n, UuidOf(bs));
        Ok((Uint(i), rest))
    case _ => Err(Malformed)
  }

  function TranscodeRefs(n: Interner, ts: Toks, k: nat): Result<(Toks, Toks)> {
    if k == 0 then Ok(([], ts))
    else
      var (t, after) :- TranscodeRef(n, ts);
      var (out, rest) :- TranscodeRefs(n, after, k - 1);
      Ok(([t] + out, rest))
  }

  /** One value, by its field's kind. */
  function TranscodeValue(n: Interner, f: Field, ts: Toks): Result<(Toks, Toks)> {
    match f.kind
    case KRef =>
      var (t, rest) :- TranscodeRef(n, ts);
      Ok(([t], rest))
    case KRefList =>
      (var (t, after) :- Next(ts);
       match t
       case NullTok => Ok(([t], after))
       case Array(k) =>
         var (out, rest) :- TranscodeRefs(n, after, k);
         Ok(([t] + out, rest))
       case _ => Err(Malformed))
    case _ => TakeItems(ts, 1)
  }

  /** `count` entries: what is written, how many were left out, and what follows. */
  function TranscodeEntries(n: Interner, fields: seq<Field>, ts: Toks, count: nat, entries: set<nat>)
    : Result<(Toks, nat, Toks)>
    decreases count
  {
    if count == 0 then Ok(([], 0, ts))
    else
      var (ord, ts1) :- ReadUint(ts);
      if ord < 64 && ord in entries then
        var (_, ts2) :- TakeItems(ts1, 1);
        var (out, skipped, rest) :- TranscodeEntries(n, fields, ts2, count - 1, entries);
        Ok((out, skipped + 1, rest))
      else if ord >= |fields| then Err(Malformed)
      else
        var (value, ts2) :- TranscodeValue(n, fields[ord], ts1);
        var (out, skipped, rest) :- TranscodeEntries(n, fields, ts2, count - 1, entries);
        Ok(([Uint(ord)] + value + out, skipped, rest))
  }

  /** A word without the bits at the ordinals in `off`, counted from `k`. */
  function ClearBits(word: nat, off: set<nat>, k: nat): nat
    decreases word
  {
    if word == 0 then 0
    else (if word % 2 == 1 && k !in off then 1 else 0) + 2 * ClearBits(word / 2, off, k + 1)
  }

  function TranscodeRecord(tables: Tables, n: Interner, ts: Toks, elided: Omissions): Result<Toks> {
    var (three, ts1) :- ReadArray(ts);
    var (code, ts2) :- ReadUint(ts1);
    var (word, ts3) :- ReadUint(ts2);
    var (t, ts4) :- Next(ts3);
    if three != 3 || code >= |tables| || !t.Map? || |elided.entries| > t.len then Err(Malformed)
    else
      var (out, skipped, rest) :- TranscodeEntries(n, tables[code].fields, ts4, t.len, elided.entries);
      if skipped != |elided.entries| || rest != [] then Err(Malformed)
      else
        Ok([Array(3), Uint(code), Uint(ClearBits(word, elided.bits, 0)), Map(t.len - |elided.entries|)] + out)
  }

  // ---- what the masks are ----------------------------------------------------------

  /** What a derivation takes away from what a record holds. */
  lemma HoldUnder(f: Field, e: Element, d: Derivation)
    ensures
      Hold(f, e, d)
      == if f.name in e.props && Elides(d, f.name, e.props[f.name]) then Nothing else Hold(f, e, Spelled)
  {
    hide IsDefault;
  }

  predicate LeavesOut(f: Field, e: Element, d: Derivation) {
    f.name in e.props && Elides(d, f.name, e.props[f.name])
  }

  /** The masks that take a fully spelled record to the record under a derivation. */
  function MaskFor(fields: seq<Field>, e: Element, d: Derivation): Omissions {
    Omissions(
      set k | 0 <= k < |fields| && LeavesOut(fields[k], e, d) && Hold(fields[k], e, Spelled).Presence?,
      set k | 0 <= k < |fields| && LeavesOut(fields[k], e, d) && Hold(fields[k], e, Spelled).Entry?)
  }

  predicate Skips(fields: seq<Field>, e: Element, d: Derivation, k: nat)
    requires k < |fields|
  {
    LeavesOut(fields[k], e, d) && Hold(fields[k], e, Spelled).Entry?
  }

  /** The number of entries left out at ordinals `k` and above. */
  function CountSkips(fields: seq<Field>, e: Element, d: Derivation, k: nat): nat
    requires k <= |fields|
    decreases |fields| - k
  {
    if k == |fields| then 0 else (if Skips(fields, e, d, k) then 1 else 0) + CountSkips(fields, e, d, k + 1)
  }

  lemma {:induction false} SkipsAreSize(fields: seq<Field>, e: Element, d: Derivation, k: nat)
    requires k <= |fields|
    ensures CountSkips(fields, e, d, k) == |set i | k <= i < |fields| && Skips(fields, e, d, i)|
    decreases |fields| - k
  {
    var here := set i | k <= i < |fields| && Skips(fields, e, d, i);
    if k == |fields| {
      assert here == {};
    } else {
      SkipsAreSize(fields, e, d, k + 1);
      var rest := set i | k + 1 <= i < |fields| && Skips(fields, e, d, i);
      assert here == rest + (if Skips(fields, e, d, k) then {k} else {});
    }
  }

  lemma MaskCounts(fields: seq<Field>, e: Element, d: Derivation)
    ensures |MaskFor(fields, e, d).entries| == CountSkips(fields, e, d, 0)
  {
    hide Hold, LeavesOut, Skips;
    SkipsAreSize(fields, e, d, 0);
    MaskIsSkips(fields, e, d);
  }

  lemma MaskIsSkips(fields: seq<Field>, e: Element, d: Derivation)
    ensures MaskFor(fields, e, d).entries == set i | 0 <= i < |fields| && Skips(fields, e, d, i)
    ensures forall k: nat :: k < |fields| ==> (k in MaskFor(fields, e, d).entries <==> Skips(fields, e, d, k))
  {
    hide Hold, LeavesOut;
  }

  lemma {:induction false} CountsUnder(fields: seq<Field>, e: Element, d: Derivation, k: nat)
    requires k <= |fields|
    ensures CountEntries(fields, e, Spelled, k) == CountEntries(fields, e, d, k) + CountSkips(fields, e, d, k)
    decreases |fields| - k
  {
    hide Hold, LeavesOut;
    if k < |fields| {
      CountsUnder(fields, e, d, k + 1);
      HoldSplits(fields[k], e, d);
    }
  }

  lemma HoldSplits(f: Field, e: Element, d: Derivation)
    ensures Hold(f, e, d) == if LeavesOut(f, e, d) then Nothing else Hold(f, e, Spelled)
  {
    hide IsDefault, Elides;
    HoldUnder(f, e, d);
  }

  // ---- presence bits ---------------------------------------------------------------

  lemma {:induction false} ClearPack(bits: seq<bool>, off: set<nat>, k: nat)
    ensures ClearBits(Pack(bits), off, k) == Pack(seq(|bits|, i requires 0 <= i < |bits| => bits[i] && k + i !in off))
  {
    var cleared := seq(|bits|, i requires 0 <= i < |bits| => bits[i] && k + i !in off);
    if bits == [] {
    } else {
      ClearPack(bits[1..], off, k + 1);
      var rest := seq(|bits[1..]|, i requires 0 <= i < |bits[1..]| => bits[1..][i] && k + 1 + i !in off);
      assert cleared[1..] == rest;
      if Pack(bits) == 0 {
        PackZero(bits);
        NonePacks(cleared);
      }
    }
  }

  lemma {:induction false} PackZero(bits: seq<bool>)
    requires Pack(bits) == 0
    ensures forall i :: 0 <= i < |bits| ==> !bits[i]
  {
    if bits != [] {
      PackZero(bits[1..]);
      assert forall i :: 0 < i < |bits| ==> bits[i] == bits[1..][i - 1];
    }
  }

  lemma {:induction false} NonePacks(bits: seq<bool>)
    requires forall i :: 0 <= i < |bits| ==> !bits[i]
    ensures Pack(bits) == 0
  {
    if bits != [] {
      NonePacks(bits[1..]);
    }
  }

  lemma PresenceUnder(fields: seq<Field>, e: Element, d: Derivation)
    ensures
      ClearBits(Pack(PresenceBits(fields, e, Spelled)), MaskFor(fields, e, d).bits, 0)
      == Pack(PresenceBits(fields, e, d))
  {
    hide Hold, Pack, LeavesOut, ClearBits;
    var bits, off := PresenceBits(fields, e, Spelled), MaskFor(fields, e, d).bits;
    ClearPack(bits, off, 0);
    var cleared := seq(|bits|, i requires 0 <= i < |bits| => bits[i] && 0 + i !in off);
    forall i | 0 <= i < |fields| ensures cleared[i] == PresenceBits(fields, e, d)[i] {
      HoldSplits(fields[i], e, d);
    }
    assert cleared == PresenceBits(fields, e, d);
  }

  // ---- values ----------------------------------------------------------------------

  ghost predicate Interned(n: Interner, us: seq<Uuid>) {
    forall u :: u in us ==> IndexIn(n, u).Ok?
  }

  lemma RefTranscodes(n: Interner, v: Value, rest: Toks)
    requires WriteRef(Raw, v).Ok? && (v.Ref? ==> IndexIn(n, v.id).Ok?)
    ensures WriteRef(Wire(n), v).Ok?
    ensures TranscodeRef(n, [WriteRef(Raw, v).value] + rest) == Ok((WriteRef(Wire(n), v).value, rest))
  {
    hide UuidBytes, UuidOf, IndexIn;
    if v.Ref? {
      UuidOfBytes(v.id);
    }
  }

  lemma {:induction false} RefsTranscode(n: Interner, items: seq<Value>, rest: Toks)
    requires WriteRefs(Raw, items).Ok? && Interned(n, RefIds(items))
    ensures WriteRefs(Wire(n), items).Ok?
    ensures
      TranscodeRefs(n, WriteRefs(Raw, items).value + rest, |items|) == Ok((WriteRefs(Wire(n), items).value, rest))
  {
    hide WriteRef, TranscodeRef, IndexIn;
    if items == [] {
      assert [] + rest == rest;
    } else {
      var head, tail := WriteRef(Raw, items[0]).value, WriteRefs(Raw, items[1..]).value;
      if items[0].Ref? {
        assert RefIds(items)[0] == items[0].id;
      }
      assert forall u :: u in RefIds(items[1..]) ==> u in RefIds(items);
      RefTranscodes(n, items[0], tail + rest);
      RefsTranscode(n, items[1..], rest);
      assert WriteRefs(Raw, items).value + rest == [head] + (tail + rest);
    }
  }

  lemma TakeLeaf(t: Token, rest: Toks, pending: nat, taken: Toks, after: Toks)
    requires !t.Array? && !t.Map? && 0 < pending <= U64_END && TakeItems(rest, pending - 1) == Ok((taken, after))
    ensures TakeItems([t] + rest, pending) == Ok(([t] + taken, after))
  {
    assert ([t] + rest)[1..] == rest;
  }

  lemma {:induction false} TextsTaken(items: seq<Value>, rest: Toks)
    requires WriteTexts(items).Ok? && |items| < U64_END
    ensures TakeItems(WriteTexts(items).value + rest, |items|) == Ok((WriteTexts(items).value, rest))
  {
    if items == [] {
      assert [] + rest == rest;
    } else {
      hide TakeItems;
      var tail := WriteTexts(items[1..]).value;
      TextsTaken(items[1..], rest);
      TakeLeaf(Tstr(items[0].text), tail + rest, |items|, tail, rest);
      assert WriteTexts(items).value + rest == [Tstr(items[0].text)] + (tail + rest);
    }
  }

  lemma OneTaken(t: Token, rest: Toks)
    requires !t.Array? && !t.Map?
    ensures TakeItems([t] + rest, 1) == Ok(([t], rest))
  {
    assert ([t] + rest)[1..] == rest;
    assert TakeItems(rest, 0) == Ok(([], rest));
    assert [t] + [] == [t];
  }

  /** Every list is one that memory holds. */
  predicate ListFits(v: Value) {
    v.Arr? ==> |v.items| < U64_END
  }

  /** A raw value is skipped whole. */
  lemma ValueTaken(f: Field, v: Value, rest: Toks)
    requires WriteValue(Raw, f, v).Ok? && ListFits(v) && !(f.kind.KRefList? && v.Arr?)
    ensures TakeItems(WriteValue(Raw, f, v).value + rest, 1) == Ok((WriteValue(Raw, f, v).value, rest))
  {
    hide WriteTexts, TakeItems, IndexIn, UuidBytes;
    var w := WriteValue(Raw, f, v).value;
    if v.Arr? {
      var body := WriteTexts(v.items).value;
      TextsTaken(v.items, rest);
      assert w + rest == [Array(|v.items|)] + (body + rest);
      ListTaken(|v.items|, body, rest);
    } else {
      assert w == [w[0]];
      OneTaken(w[0], rest);
    }
  }

  lemma ListTaken(n: nat, body: Toks, rest: Toks)
    requires n < U64_END && TakeItems(body + rest, n) == Ok((body, rest))
    ensures TakeItems([Array(n)] + (body + rest), 1) == Ok(([Array(n)] + body, rest))
  {
    var ts := [Array(n)] + (body + rest);
    assert ts[1..] == body + rest;
    assert Pending(Array(n), 1) == n;
  }

  /** A raw value respelled is the value the encoder writes, whatever follows. */
  lemma ValueTranscodes(n: Interner, f: Field, v: Value, rest: Toks)
    requires WriteValue(Raw, f, v).Ok? && ListFits(v) && Interned(n, FieldRefs(f, v))
    ensures WriteValue(Wire(n), f, v).Ok?
    ensures
      TranscodeValue(n, f, WriteValue(Raw, f, v).value + rest) == Ok((WriteValue(Wire(n), f, v).value, rest))
  {
    hide WriteTexts, WriteRefs, TakeItems, IndexIn, UuidBytes, TranscodeRef, TranscodeRefs, WriteRef;
    var w := WriteValue(Raw, f, v).value;
    if f.kind.KRef? && !v.Null? {
      RefTranscodes(n, v, rest);
    } else if f.kind.KRefList? && v.Arr? {
      var body := WriteRefs(Raw, v.items).value;
      RefsTranscode(n, v.items, rest);
      assert w + rest == [Array(|v.items|)] + (body + rest);
    } else if f.kind.KRef? || f.kind.KRefList? {
      NullTranscodes(n, f, rest);
    } else {
      ValueTaken(f, v, rest);
    }
  }

  lemma NullTranscodes(n: Interner, f: Field, rest: Toks)
    requires f.kind.KRef? || f.kind.KRefList?
    ensures TranscodeValue(n, f, [NullTok] + rest) == Ok(([NullTok], rest))
  {
    assert ([NullTok] + rest)[1..] == rest;
  }

  // ---- records ---------------------------------------------------------------------

  ghost predicate ElementFits(e: Element) {
    forall key :: key in e.props ==> ListFits(e.props[key])
  }

  /** Every identity an entry names is interned. */
  ghost predicate EntriesInterned(n: Interner, fields: seq<Field>, e: Element) {
    forall k :: 0 <= k < |fields| && fields[k].name in e.props ==>
      Interned(n, FieldRefs(fields[k], e.props[fields[k].name]))
  }

  lemma EntriesDone(n: Interner, fields: seq<Field>, e: Element, d: Derivation, entries: set<nat>)
    ensures WriteEntries(Raw, fields, e, Spelled, |fields|) == WriteEntries(Wire(n), fields, e, d, |fields|) == Ok([])
    ensures CountEntries(fields, e, Spelled, |fields|) == 0 && CountSkips(fields, e, d, |fields|) == 0
    ensures TranscodeEntries(n, fields, [], 0, entries) == Ok(([], 0, []))
  {
  }

  lemma SkipsStep(fields: seq<Field>, e: Element, d: Derivation, k: nat)
    requires k < |fields|
    ensures CountSkips(fields, e, d, k) == (if Skips(fields, e, d, k) then 1 else 0) + CountSkips(fields, e, d, k + 1)
  {
    hide Skips;
  }

  lemma EntryInterned(n: Interner, fields: seq<Field>, e: Element, d: Derivation, k: nat)
    requires EntriesInterned(n, fields, e) && k < |fields| && Hold(fields[k], e, Spelled).Entry?
    ensures fields[k].name in e.props && Interned(n, FieldRefs(fields[k], Hold(fields[k], e, Spelled).v))
  {
    hide Hold, Interned, FieldRefs;
  }

  /** An entry the mask names is stepped over. */
  lemma TranscodeDrops(n: Interner, fields: seq<Field>, k: nat, more: Toks, count: nat, entries: set<nat>)
    requires count > 0 && k < |fields| && k < 64 && k in entries && TakeItems(more, 1).Ok?
    ensures
      var read := TranscodeEntries(n, fields, TakeItems(more, 1).value.1, count - 1, entries);
      read.Ok? ==>
        TranscodeEntries(n, fields, [Uint(k)] + more, count, entries)
        == Ok((read.value.0, read.value.1 + 1, read.value.2))
  {
    hide TakeItems, TranscodeValue;
    assert ([Uint(k)] + more)[1..] == more;
  }

  /** Any other entry is respelled. */
  lemma TranscodeKeeps(n: Interner, fields: seq<Field>, k: nat, more: Toks, count: nat, entries: set<nat>)
    requires count > 0 && k < |fields| && k !in entries && TranscodeValue(n, fields[k], more).Ok?
    ensures
      var (value, after) := TranscodeValue(n, fields[k], more).value;
      var read := TranscodeEntries(n, fields, after, count - 1, entries);
      read.Ok? ==>
        TranscodeEntries(n, fields, [Uint(k)] + more, count, entries)
        == Ok(([Uint(k)] + (value + read.value.0), read.value.1, read.value.2))
  {
    hide TakeItems, TranscodeValue;
    assert ([Uint(k)] + more)[1..] == more;
    var (value, after) := TranscodeValue(n, fields[k], more).value;
    var read := TranscodeEntries(n, fields, after, count - 1, entries);
    if read.Ok? {
      assert [Uint(k)] + value + read.value.0 == [Uint(k)] + (value + read.value.0);
    }
  }

  lemma {:induction false} EntriesTranscode(
      n: Interner, fields: seq<Field>, e: Element, d: Derivation, k: nat)
    requires k <= |fields| <= 64 && ElementFits(e) && EntriesInterned(n, fields, e)
    requires WriteEntries(Raw, fields, e, Spelled, k).Ok?
    ensures WriteEntries(Wire(n), fields, e, d, k).Ok?
    ensures
      TranscodeEntries(n, fields, WriteEntries(Raw, fields, e, Spelled, k).value, CountEntries(fields, e, Spelled, k),
        MaskFor(fields, e, d).entries)
      == Ok((WriteEntries(Wire(n), fields, e, d, k).value, CountSkips(fields, e, d, k), []))
    decreases |fields| - k
  {
    hide Hold, LeavesOut, WriteValue, TranscodeValue, TakeItems, MaskFor, Interned, ElementFits, Skips, WriteEntries,
      TranscodeEntries, CountEntries, CountSkips, FieldRefs, EntriesInterned;
    var entries := MaskFor(fields, e, d).entries;
    if k == |fields| {
      EntriesDone(n, fields, e, d, entries);
    } else {
      var h, f := Hold(fields[k], e, Spelled), fields[k];
      EntriesStep(Raw, fields, e, Spelled, k);
      var tail := WriteEntries(Raw, fields, e, Spelled, k + 1).value;
      EntriesTranscode(n, fields, e, d, k + 1);
      HoldSplits(f, e, d);
      MaskIsSkips(fields, e, d);
      SkipsMeans(fields, e, d, k);
      SkipsStep(fields, e, d, k);
      if h.Entry? {
        EntryInterned(n, fields, e, d, k);
        EntryTranscodes(n, f, e, k, tail);
        EntriesStep(Wire(n), fields, e, d, k);
        var raw, count := WriteValue(Raw, f, h.v).value, CountEntries(fields, e, Spelled, k);
        assert [Uint(k)] + raw + tail == [Uint(k)] + (raw + tail);
        if LeavesOut(f, e, d) {
          LeftOutIsPlain(f, e, d);
          TranscodeDrops(n, fields, k, raw + tail, count, entries);
        } else {
          TranscodeKeeps(n, fields, k, raw + tail, count, entries);
        }
      } else {
        EntriesStep(Wire(n), fields, e, d, k);
      }
    }
  }

  lemma LeftOutIsPlain(f: Field, e: Element, d: Derivation)
    requires LeavesOut(f, e, d) && Hold(f, e, Spelled).Entry?
    ensures !Hold(f, e, Spelled).v.Arr?
  {
    hide IsDefault;
  }

  lemma SkipsMeans(fields: seq<Field>, e: Element, d: Derivation, k: nat)
    requires k < |fields|
    ensures Skips(fields, e, d, k) <==> LeavesOut(fields[k], e, d) && Hold(fields[k], e, Spelled).Entry?
  {
  }

  lemma EntryTranscodes(n: Interner, f: Field, e: Element, k: nat, tail: Toks)
    requires Hold(f, e, Spelled).Entry? && ElementFits(e) && WriteValue(Raw, f, Hold(f, e, Spelled).v).Ok?
    requires Interned(n, FieldRefs(f, Hold(f, e, Spelled).v)) && f.name in e.props
    ensures WriteValue(Wire(n), f, Hold(f, e, Spelled).v).Ok?
    ensures
      var v := Hold(f, e, Spelled).v;
      var ts := [Uint(k)] + WriteValue(Raw, f, v).value + tail;
      && ReadUint(ts) == Ok((k, WriteValue(Raw, f, v).value + tail))
      && TranscodeValue(n, f, WriteValue(Raw, f, v).value + tail) == Ok((WriteValue(Wire(n), f, v).value, tail))
      && (!(f.kind.KRefList? && v.Arr?) ==>
            TakeItems(WriteValue(Raw, f, v).value + tail, 1) == Ok((WriteValue(Raw, f, v).value, tail)))
  {
    hide WriteValue, TranscodeValue, TakeItems, Interned, IsDefault, FieldRefs;
    var v := Hold(f, e, Spelled).v;
    var body := WriteValue(Raw, f, v).value;
    assert ([Uint(k)] + body + tail)[1..] == body + tail;
    ValueTranscodes(n, f, v, tail);
    if !(f.kind.KRefList? && v.Arr?) {
      ValueTaken(f, v, tail);
    }
  }

  /** Backpointers are single references wherever a metaclass carries them. */
  ghost predicate OwnersAreRefs(tables: Tables) {
    forall m, f :: m in tables && f in m.fields && (f.name == OwningRelationship || f.name == OwningRelatedElement) ==>
      f.kind.KRef?
  }

  lemma SpelledHolds(fields: seq<Field>, e: Element)
    ensures MaskFor(fields, e, Spelled) == NONE_ELIDED
  {
  }

  lemma RecordLayout(tables: Tables, sp: Spelling, e: Element, d: Derivation)
    requires WriteElement(tables, sp, e, d).Ok?
    ensures
      var fields, ts := FieldsOf(tables, e.ty), WriteElement(tables, sp, e, d).value;
      && Known(tables, e.ty) && WriteEntries(sp, fields, e, d, 0).Ok?
      && ts == [Array(3), Uint(TypeCode(tables, e.ty)), Uint(Pack(PresenceBits(fields, e, d))),
                Map(CountEntries(fields, e, d, 0))] + WriteEntries(sp, fields, e, d, 0).value
  {
    hide WriteEntries, PresenceBits, CountEntries, KeysKnown, TypeCode;
  }

  lemma RecordHead(a: nat, b: nat, c: nat, body: Toks)
    ensures
      var ts := [Array(3), Uint(a), Uint(b), Map(c)] + body;
      && ReadArray(ts) == Ok((3, ts[1..])) && ReadUint(ts[1..]) == Ok((a, ts[1..][1..]))
      && ReadUint(ts[1..][1..]) == Ok((b, ts[1..][1..][1..])) && Next(ts[1..][1..][1..]) == Ok((Map(c), body))
  {
    var ts := [Array(3), Uint(a), Uint(b), Map(c)] + body;
    assert ts[1..][1..][1..][1..] == body;
  }

  /**
    Respelling a fully spelled raw record under a derivation's masks writes what the encoder
    writes under that derivation, for any index that interns every identity the record names.
   */
  lemma RecordTranscodes(tables: Tables, n: Interner, e: Element, d: Derivation)
    requires ValidTables(tables) && ElementFits(e) && EntriesInterned(n, FieldsOf(tables, e.ty), e)
    requires WriteElement(tables, Raw, e, Spelled).Ok?
    ensures WriteElement(tables, Wire(n), e, d).Ok?
    ensures
      TranscodeRecord(tables, n, WriteElement(tables, Raw, e, Spelled).value, MaskFor(FieldsOf(tables, e.ty), e, d))
      == WriteElement(tables, Wire(n), e, d)
  {
    hide ValidTables, ElementFits, EntriesInterned, WriteEntries, TranscodeEntries, CountEntries, PresenceBits, MaskFor,
      ClearBits, Pack, KeysKnown, ValidFields, CountSkips, TypeCode;
    var fields := FieldsOf(tables, e.ty);
    FieldsOfValid(tables, e.ty);
    FieldsBound(fields);
    RecordLayout(tables, Raw, e, Spelled);
    EntriesTranscode(n, fields, e, d, 0);
    MaskCounts(fields, e, d);
    CountsUnder(fields, e, d, 0);
    PresenceUnder(fields, e, d);
    RecordHead(TypeCode(tables, e.ty), Pack(PresenceBits(fields, e, Spelled)), CountEntries(fields, e, Spelled, 0),
      WriteEntries(Raw, fields, e, Spelled, 0).value);
  }

  lemma FieldsBound(fields: seq<Field>)
    requires ValidFields(fields)
    ensures |fields| <= 64
  {
  }

  /** A record can be written raw exactly when it can be written under any index of its identities. */
  lemma {:induction false} EntriesWritable(
      n: Interner, fields: seq<Field>, e: Element, d: Derivation, k: nat)
    requires k <= |fields| && EntriesInterned(n, fields, e)
    requires forall i :: 0 <= i < |fields| && LeavesOut(fields[i], e, d) ==> fields[i].kind.KRef?
    requires WriteEntries(Wire(n), fields, e, d, k).Ok?
    ensures WriteEntries(Raw, fields, e, Spelled, k).Ok?
    decreases |fields| - k
  {
    hide Hold, LeavesOut, Interned, WriteValue, FieldRefs;
    if k < |fields| {
      EntriesWritable(n, fields, e, d, k + 1);
      HoldSplits(fields[k], e, d);
      if Hold(fields[k], e, Spelled).Entry? {
        EntryWritable(n, fields[k], e, d);
      }
    }
  }

  lemma EntryWritable(n: Interner, f: Field, e: Element, d: Derivation)
    requires LeavesOut(f, e, d) ==> f.kind.KRef?
    requires Hold(f, e, Spelled).Entry?
    requires !LeavesOut(f, e, d) ==> WriteValue(Wire(n), f, Hold(f, e, Spelled).v).Ok?
    ensures WriteValue(Raw, f, Hold(f, e, Spelled).v).Ok?
  {
    hide IsDefault, IndexIn, UuidBytes, WriteTexts;
    var v := Hold(f, e, Spelled).v;
    if f.kind.KRefList? && v.Arr? {
      RefsWritable(n, v.items);
    }
  }

  lemma {:induction false} RefsWritable(n: Interner, items: seq<Value>)
    requires WriteRefs(Wire(n), items).Ok?
    ensures WriteRefs(Raw, items).Ok?
  {
    hide IndexIn, UuidBytes;
    if items != [] {
      RefsWritable(n, items[1..]);
    }
  }
}
