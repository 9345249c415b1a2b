/**
  The project archive's ZIP layer: sections 4.3.7, 4.3.12 and 4.3.16 of PKWARE's
  APPNOTE.TXT, stored and deflated entries only, no ZIP64.
 */
module Zip {
  import opened Wrappers
  import opened Cbor

  type Bytes = seq<byte>

  datatype Entry = Entry(name: Bytes, data: Bytes)

  const MAX_INFLATED: nat := 512 * 1024 * 1024
  const U16_END: nat := 0x1_0000
  const U32_END: nat := 0x1_0000_0000

  type Word = n: nat | n < U32_END

  /** Compression and checksum, otherwise unknown. `inflate` takes the size it may not exceed. */
  datatype Codec = Codec(deflate: Bytes -> Bytes, inflate: (Bytes, nat) -> Option<Bytes>, crc: Bytes -> Word)

  // ---- little-endian fields --------------------------------------------------------

  function U16Of(header: Bytes, at: nat): (v: nat)
    requires at + 2 <= |header|
    ensures v < U16_END
  {
    var a: nat, b: nat := header[at], header[at + 1];
    a + 256 * b
  }

  function U32Of(header: Bytes, at: nat): (v: nat)
    requires at + 4 <= |header|
    ensures v < U32_END
  {
    var a: nat, b: nat, c: nat, d: nat := header[at], header[at + 1], header[at + 2], header[at + 3];
    a + 256 * b + 0x1_0000 * c + 0x100_0000 * d
  }

  function Byte(v: nat, k: nat): byte
    requires k < 4
  {
    (v / (if k == 0 then 1 else if k == 1 then 256 else if k == 2 then 0x1_0000 else 0x100_0000)) % 256
  }

  lemma Le16Inverts(v: nat)
    requires v < U16_END
    ensures Byte(v, 0) + 256 * Byte(v, 1) == v
  {
  }

  lemma Le32Inverts(v: nat)
    requires v < U32_END
    ensures Byte(v, 0) + 256 * Byte(v, 1) + 0x1_0000 * Byte(v, 2) + 0x100_0000 * Byte(v, 3) == v
  {
    var a := v / 256;
    var b := a / 256;
    var c := b / 256;
    assert v / 0x1_0000 == b && v / 0x100_0000 == c && c < 256;
  }

  // ---- writing ---------------------------------------------------------------------

  /** Deflated where that is shorter, else stored. */
  function Method(z: Codec, data: Bytes): nat {
    if |z.deflate(data)| < |data| then 8 else 0
  }

  function Body(z: Codec, data: Bytes): Bytes {
    if |z.deflate(data)| < |data| then z.deflate(data) else data
  }

  function LocalHeader(z: Codec, e: Entry): (h: Bytes)
    ensures |h| == 30
  {
    var m, crc, c, u, n := Method(z, e.data), z.crc(e.data), |Body(z, e.data)|, |e.data|, |e.name|;
    [0x50, 0x4B, 3, 4, 20, 0, 0, 0, Byte(m, 0), Byte(m, 1), 0, 0, 0x21, 0]
    + [Byte(crc, 0), Byte(crc, 1), Byte(crc, 2), Byte(crc, 3), Byte(c, 0), Byte(c, 1), Byte(c, 2), Byte(c, 3),
       Byte(u, 0), Byte(u, 1), Byte(u, 2), Byte(u, 3), Byte(n, 0), Byte(n, 1), 0, 0]
  }

  function CentralHeader(z: Codec, e: Entry, at: nat): (h: Bytes)
    ensures |h| == 46
  {
    var m, crc, c, u, n := Method(z, e.data), z.crc(e.data), |Body(z, e.data)|, |e.data|, |e.name|;
    [0x50, 0x4B, 1, 2, 20, 0, 20, 0, 0, 0, Byte(m, 0), Byte(m, 1)]
    + [0, 0, 0x21, 0, Byte(crc, 0), Byte(crc, 1), Byte(crc, 2), Byte(crc, 3),
       Byte(c, 0), Byte(c, 1), Byte(c, 2), Byte(c, 3),
       Byte(u, 0), Byte(u, 1), Byte(u, 2), Byte(u, 3), Byte(n, 0), Byte(n, 1), 0, 0, 0, 0, 0, 0, 0, 0, 0, 0, 0, 0,
       Byte(at, 0), Byte(at, 1), Byte(at, 2), Byte(at, 3)]
  }

  function EndRecord(count: nat, size: nat, at: nat): (r: Bytes)
    ensures |r| == 22
  {
    [0x50, 0x4B, 5, 6, 0, 0, 0, 0, Byte(count, 0), Byte(count, 1), Byte(count, 0), Byte(count, 1),
     Byte(size, 0), Byte(size, 1), Byte(size, 2), Byte(size, 3),
     Byte(at, 0), Byte(at, 1), Byte(at, 2), Byte(at, 3), 0, 0]
  }

  function Local(z: Codec, e: Entry): Bytes {
    LocalHeader(z, e) + e.name + Body(z, e.data)
  }

  function LocalRecords(z: Codec, entries: seq<Entry>): Bytes {
    if entries == [] then [] else Local(z, entries[0]) + LocalRecords(z, entries[1..])
  }

  /** The directory of entries whose local headers start at `at`. */
  function Centrals(z: Codec, entries: seq<Entry>, at: nat): Bytes {
    if entries == [] then []
    else CentralHeader(z, entries[0], at) + entries[0].name + Centrals(z, entries[1..], at + |Local(z, entries[0])|)
  }

  predicate EntryFits(z: Codec, e: Entry, at: nat) {
    at < U32_END && |Body(z, e.data)| < U32_END && |e.data| < U32_END && |e.name| < U16_END
  }

  predicate EntriesFit(z: Codec, entries: seq<Entry>, at: nat) {
    entries == []
    || (EntryFits(z, entries[0], at) && EntriesFit(z, entries[1..], at + |Local(z, entries[0])|))
  }

  /** The archive; refused where a count, length or offset outgrows its field. */
  function ZipWrite(z: Codec, entries: seq<Entry>): Result<Bytes> {
    var at := |LocalRecords(z, entries)|;
    var central := Centrals(z, entries, 0);
    if !EntriesFit(z, entries, 0) || at >= U32_END || |central| >= U32_END || |entries| >= U16_END then Err(Malformed)
    else Ok(LocalRecords(z, entries) + central + EndRecord(|entries|, |central|, at))
  }

  lemma NoneLeft(z: Codec, entries: seq<Entry>)
    ensures [] + LocalRecords(z, entries[0..]) == LocalRecords(z, entries)
    ensures [] + Centrals(z, entries[0..], 0) == Centrals(z, entries, 0)
    ensures EntriesFit(z, entries[0..], 0) == EntriesFit(z, entries, 0)
  {
    hide LocalRecords, Centrals, EntriesFit;
    assert entries[0..] == entries;
  }

  lemma NoneAfter(z: Codec, entries: seq<Entry>, out: Bytes, central: Bytes)
    ensures out + LocalRecords(z, entries[|entries|..]) == out
    ensures central + Centrals(z, entries[|entries|..], |out|) == central
    ensures EntriesFit(z, entries[|entries|..], |out|)
  {
    assert entries[|entries|..] == [];
  }

  lemma WriteStep(z: Codec, entries: seq<Entry>, i: nat, out: Bytes, central: Bytes)
    requires i < |entries|
    ensures
      var e, rest := entries[i], entries[i + 1..];
      var next := out + Local(z, e);
      && out + LocalRecords(z, entries[i..]) == next + LocalRecords(z, rest)
      && central + Centrals(z, entries[i..], |out|)
         == central + (CentralHeader(z, e, |out|) + e.name) + Centrals(z, rest, |next|)
      && (EntriesFit(z, entries[i..], |out|) <==> EntryFits(z, e, |out|) && EntriesFit(z, rest, |next|))
  {
    hide Local, CentralHeader, EntryFits;
    assert entries[i..] == [entries[i]] + entries[i + 1..];
  }

  /** The writer's loop: local records and directory grow side by side. */
  method ZipWriteLoop(z: Codec, entries: seq<Entry>) returns (r: Result<Bytes>)
    ensures r == ZipWrite(z, entries)
  {
    hide Local, CentralHeader, EntryFits, EndRecord, LocalRecords, Centrals, EntriesFit;
    var out: Bytes, central: Bytes := [], [];
    NoneLeft(z, entries);
    for i := 0 to |entries|
      invariant LocalRecords(z, entries) == out + LocalRecords(z, entries[i..])
      invariant Centrals(z, entries, 0) == central + Centrals(z, entries[i..], |out|)
      invariant EntriesFit(z, entries, 0) == EntriesFit(z, entries[i..], |out|)
    {
      WriteStep(z, entries, i, out, central);
      if !EntryFits(z, entries[i], |out|) {
        return Err(Malformed);
      }
      central := central + (CentralHeader(z, entries[i], |out|) + entries[i].name);
      out := out + Local(z, entries[i]);
    }
    NoneAfter(z, entries, out, central);
    if |out| >= U32_END || |central| >= U32_END || |entries| >= U16_END {
      return Err(Malformed);
    }
    r := Ok(out + central + EndRecord(|entries|, |central|, |out|));
  }

  // ---- reading ---------------------------------------------------------------------

  function Span(b: Bytes, at: nat, len: nat): Option<Bytes> {
    if at + len <= |b| then Some(b[at..at + len]) else None
  }

  predicate IsSignature(b: Bytes, p: nat) {
    p + 4 <= |b| && b[p] == 0x50 && b[p + 1] == 0x4B && b[p + 2] == 5 && b[p + 3] == 6
  }

  /** The last end-of-directory signature below `p`. */
  function LastSignature(b: Bytes, p: nat): (r: Option<nat>)
    ensures r.Some? ==> r.value < p && IsSignature(b, r.value) && forall q :: r.value < q < p ==> !IsSignature(b, q)
    ensures r.None? ==> forall q :: 0 <= q < p ==> !IsSignature(b, q)
  {
    if p == 0 then None else if IsSignature(b, p - 1) then Some(p - 1) else LastSignature(b, p - 1)
  }

  predicate StartsWith(h: Bytes, a: byte, c: byte) {
    |h| >= 4 && h[0] == 0x50 && h[1] == 0x4B && h[2] == a && h[3] == c
  }

  /** The local header's own name and extra lengths say where an entry's data starts. */
  function ReadData(b: Bytes, at: nat, size: nat): Result<Bytes> {
    match Span(b, at, 30)
    case None => Err(Malformed)
    case Some(h) =>
      if !StartsWith(h, 3, 4) then Err(Malformed)
      else
        match Span(b, at + 30 + U16Of(h, 26) + U16Of(h, 28), size)
        case None => Err(Truncated)
        case Some(data) => Ok(data)
  }

  function Expand(z: Codec, how: nat, data: Bytes, declared: nat, budget: nat): (r: Result<Bytes>)
    ensures r.Ok? ==> |r.value| == declared <= budget
  {
    if declared > budget then Err(Malformed)
    else
      var inflated :- if how == 0 then Ok(data)
                      else if how == 8 then
                        (match z.inflate(data, declared) case Some(d) => Ok(d) case None => Err(Malformed))
                      else Err(Malformed);
      if |inflated| != declared then Err(Malformed) else Ok(inflated)
  }

  /** One directory record: its entry, and where the next record starts. */
  function ReadRecord(z: Codec, b: Bytes, off: nat, total: nat): (r: Result<(Entry, nat)>)
    requires total <= MAX_INFLATED
    ensures r.Ok? ==> total + |r.value.0.data| <= MAX_INFLATED
  {
    match Span(b, off, 46)
    case None => Err(Malformed)
    case Some(h) =>
      if !StartsWith(h, 1, 2) then Err(Malformed)
      else
        match Span(b, off + 46, U16Of(h, 28))
        case None => Err(Malformed)
        case Some(name) =>
          var data :- ReadData(b, U32Of(h, 42), U32Of(h, 20));
          var inflated :- Expand(z, U16Of(h, 10), data, U32Of(h, 24), MAX_INFLATED - total);
          Ok((Entry(name, inflated), off + 46 + U16Of(h, 28) + U16Of(h, 30) + U16Of(h, 32)))
  }

  function TotalSize(entries: seq<Entry>): nat {
    if entries == [] then 0 else |entries[0].data| + TotalSize(entries[1..])
  }

  function ReadRecords(z: Codec, b: Bytes, off: nat, count: nat, total: nat): (r: Result<seq<Entry>>)
    requires total <= MAX_INFLATED
    ensures r.Ok? ==> |r.value| == count && total + TotalSize(r.value) <= MAX_INFLATED
    decreases count
  {
    if count == 0 then Ok([])
    else
      var (e, next) :- ReadRecord(z, b, off, total);
      var rest :- ReadRecords(z, b, next, count - 1, total + |e.data|);
      Ok([e] + rest)
  }

  function ZipEntries(z: Codec, b: Bytes): Result<seq<Entry>> {
    match LastSignature(b, |b|)
    case None => Err(Malformed)
    case Some(p) =>
      match Span(b, p, 22)
      case None => Err(Truncated)
      case Some(end) => ReadRecords(z, b, U32Of(end, 16), U16Of(end, 10), 0)
  }

  /** Whatever an archive declares, what it expands to stays within the ceiling. */
  lemma ExpandsWithin(z: Codec, b: Bytes)
    requires ZipEntries(z, b).Ok?
    ensures TotalSize(ZipEntries(z, b).value) <= MAX_INFLATED
  {
  }

  /** What was read, then what is left to read. */
  function ReadThen(out: seq<Entry>, left: Result<seq<Entry>>): Result<seq<Entry>> {
    match left case Ok(rest) => Ok(out + rest) case Err(kind) => Err(kind)
  }

  lemma JoinedNone(left: Result<seq<Entry>>)
    ensures ReadThen([], left) == left
  {
    if left.Ok? {
      assert [] + left.value == left.value;
    }
  }

  lemma RecordsStep(z: Codec, b: Bytes, off: nat, n: nat, total: nat, out: seq<Entry>)
    requires n > 0 && total <= MAX_INFLATED
    ensures
      ReadThen(out, ReadRecords(z, b, off, n, total))
      == match ReadRecord(z, b, off, total)
         case Err(kind) => Err(kind)
         case Ok(e) => ReadThen(out + [e.0], ReadRecords(z, b, e.1, n - 1, total + |e.0.data|))
  {
    hide ReadRecord;
    var e := ReadRecord(z, b, off, total);
    if e.Ok? {
      var left := ReadRecords(z, b, e.value.1, n - 1, total + |e.value.0.data|);
      if left.Ok? {
        assert out + ([e.value.0] + left.value) == (out + [e.value.0]) + left.value;
      }
    }
  }

  lemma RecordsEnd(z: Codec, b: Bytes, off: nat, total: nat, out: seq<Entry>)
    requires total <= MAX_INFLATED
    ensures ReadThen(out, ReadRecords(z, b, off, 0, total)) == Ok(out)
  {
    assert out + [] == out;
  }

  /** The reader's loop: an offset and a running total advance together. */
  method ReadLoop(z: Codec, b: Bytes, start: nat, count: nat) returns (r: Result<seq<Entry>>)
    ensures r == ReadRecords(z, b, start, count, 0)
  {
    hide ReadRecord, ReadRecords, ReadThen, TotalSize;
    var off := start;
    var total: nat := 0;
    var out: seq<Entry> := [];
    ghost var all := ReadRecords(z, b, start, count, 0);
    JoinedNone(all);
    for k := 0 to count
      invariant total <= MAX_INFLATED && all == ReadThen(out, ReadRecords(z, b, off, count - k, total))
    {
      RecordsStep(z, b, off, count - k, total, out);
      var e := ReadRecord(z, b, off, total);
      if e.Err? {
        return Err(e.kind);
      }
      var (entry, next) := e.value;
      out, total, off := out + [entry], total + |entry.data|, next;
    }
    RecordsEnd(z, b, off, total, out);
    r := Ok(out);
  }

  method ZipEntriesLoop(z: Codec, b: Bytes) returns (r: Result<seq<Entry>>)
    ensures r == ZipEntries(z, b)
  {
    hide LastSignature, ReadRecords, U16Of, U32Of, TotalSize;
    var p := LastSignature(b, |b|);
    if p.None? {
      return Err(Malformed);
    }
    var end := Span(b, p.value, 22);
    if end.None? {
      return Err(Truncated);
    }
    r := ReadLoop(z, b, U32Of(end.value, 16), U16Of(end.value, 10));
  }

  // ---- the round trip --------------------------------------------------------------

  /** Inflating what was deflated gives it back, within its own size. */
  ghost predicate Inverse(z: Codec) {
    forall d :: z.inflate(z.deflate(d), |d|) == Some(d)
  }

  lemma CentralStart(z: Codec, e: Entry, at: nat)
    ensures
      var h := CentralHeader(z, e, at);
      StartsWith(h, 1, 2) && U16Of(h, 10) == Method(z, e.data)
  {
    hide Byte, Body, U32Of;
    Le16Inverts(Method(z, e.data));
  }

  lemma CentralSizes(z: Codec, e: Entry, at: nat)
    requires EntryFits(z, e, at)
    ensures
      var h := CentralHeader(z, e, at);
      U32Of(h, 20) == |Body(z, e.data)| && U32Of(h, 24) == |e.data|
  {
    hide Byte, Body, Method;
    Le32Inverts(|Body(z, e.data)|);
    Le32Inverts(|e.data|);
  }

  lemma CentralEnd(z: Codec, e: Entry, at: nat)
    requires EntryFits(z, e, at)
    ensures
      var h := CentralHeader(z, e, at);
      U16Of(h, 28) == |e.name| && U16Of(h, 30) == 0 && U16Of(h, 32) == 0 && U32Of(h, 42) == at
  {
    hide Byte, Body, Method;
    ByteOfZero();
    Le16Inverts(|e.name|);
    Le32Inverts(at);
  }

  lemma ByteOfZero()
    ensures Byte(0, 0) == 0
  {
  }

  lemma CentralFields(z: Codec, e: Entry, at: nat)
    requires EntryFits(z, e, at)
    ensures
      var h := CentralHeader(z, e, at);
      && StartsWith(h, 1, 2) && U16Of(h, 10) == Method(z, e.data)
      && U32Of(h, 20) == |Body(z, e.data)| && U32Of(h, 24) == |e.data|
      && U16Of(h, 28) == |e.name| && U16Of(h, 30) == 0 && U16Of(h, 32) == 0 && U32Of(h, 42) == at
  {
    hide CentralHeader, U16Of, U32Of, StartsWith, Method, Body;
    CentralStart(z, e, at);
    CentralSizes(z, e, at);
    CentralEnd(z, e, at);
  }

  lemma LocalFields(z: Codec, e: Entry)
    requires |e.name| < U16_END
    ensures
      var h := LocalHeader(z, e);
      StartsWith(h, 3, 4) && U16Of(h, 26) == |e.name| && U16Of(h, 28) == 0
  {
    hide Byte, Body;
    Le16Inverts(|e.name|);
  }

  lemma DataRead(z: Codec, e: Entry, before: Bytes, after: Bytes)
    requires |e.name| < U16_END
    ensures ReadData(before + Local(z, e) + after, |before|, |Body(z, e.data)|) == Ok(Body(z, e.data))
  {
    hide LocalHeader, Body, StartsWith, ReadData;
    LocalFields(z, e);
    var h, data := LocalHeader(z, e), Body(z, e.data);
    assert before + (h + e.name + data) + after == before + h + e.name + [] + data + after;
    DataOfAny(before + Local(z, e) + after, before, h, e.name, [], data, after);
  }

  lemma Expanded(z: Codec, data: Bytes, budget: nat)
    requires Inverse(z)
    ensures
      Expand(z, Method(z, data), Body(z, data), |data|, budget)
      == if |data| <= budget then Ok(data) else Err(Malformed)
  {
  }

  /** A local header of any writer's, before a name and an extra field of its own. */
  ghost predicate HeadsLocal(h: Bytes, name: Bytes, extra: Bytes) {
    |h| == 30 && StartsWith(h, 3, 4) && U16Of(h, 26) == |name| && U16Of(h, 28) == |extra|
  }

  /** A directory header of any writer's, before a name, an extra field and a comment. */
  ghost predicate HeadsCentral(h: Bytes, name: Bytes, extra: Bytes, comment: Bytes) {
    |h| == 46 && StartsWith(h, 1, 2) && U16Of(h, 28) == |name| && U16Of(h, 30) == |extra| && U16Of(h, 32) == |comment|
  }

  /** The data of an entry starts after the name and extra field its local header announces. */
  lemma DataOfAny(b: Bytes, before: Bytes, h: Bytes, name: Bytes, extra: Bytes, data: Bytes, after: Bytes)
    requires HeadsLocal(h, name, extra) && b == before + h + name + extra + data + after
    ensures ReadData(b, |before|, |data|) == Ok(data)
  {
    hide StartsWith, U16Of;
    assert b[|before|..|before| + 30] == h;
    var at := |before| + 30 + |name| + |extra|;
    assert b[at..at + |data|] == data;
  }

  /**
    A directory record of any writer's, with whatever extra fields and comment: the entry is
    named as the directory names it, its data is found through its local header, and the next
    record starts past the name, the extra field and the comment.
   */
  lemma RecordOfAny(
      z: Codec, b: Bytes, dir: Bytes, h: Bytes, name: Bytes, extra: Bytes, comment: Bytes, after: Bytes, data: Bytes,
      total: nat)
    requires HeadsCentral(h, name, extra, comment) && b == dir + h + name + extra + comment + after
    requires ReadData(b, U32Of(h, 42), U32Of(h, 20)) == Ok(data) && total <= MAX_INFLATED
    ensures
      ReadRecord(z, b, |dir|, total)
      == match Expand(z, U16Of(h, 10), data, U32Of(h, 24), MAX_INFLATED - total)
         case Err(kind) => Err(kind)
         case Ok(expanded) => Ok((Entry(name, expanded), |dir + h + name + extra + comment|))
  {
    hide StartsWith, U16Of, U32Of, Expand, ReadData;
    assert b[|dir|..|dir| + 46] == h;
    assert b[|dir| + 46..|dir| + 46 + |name|] == name;
  }

  /** What expands: a stored or deflated entry, within the budget, of exactly the size declared. */
  lemma ExpandsIff(z: Codec, how: nat, data: Bytes, declared: nat, budget: nat)
    ensures
      Expand(z, how, data, declared, budget).Ok?
      <==> declared <= budget && ((how == 0 && |data| == declared)
             || (how == 8 && z.inflate(data, declared).Some? && |z.inflate(data, declared).value| == declared))
    ensures
      Expand(z, how, data, declared, budget).Ok? ==>
        Expand(z, how, data, declared, budget).value == if how == 0 then data else z.inflate(data, declared).value
  {
  }

  /** A record of the directory, read wherever its entry and the record itself lie. */
  lemma RecordRead(z: Codec, e: Entry, before: Bytes, between: Bytes, after: Bytes, total: nat)
    requires Inverse(z) && EntryFits(z, e, |before|) && total <= MAX_INFLATED
    ensures
      var b := before + Local(z, e) + between + CentralHeader(z, e, |before|) + e.name + after;
      var off := |before + Local(z, e) + between|;
      ReadRecord(z, b, off, total)
      == if total + |e.data| <= MAX_INFLATED then Ok((e, off + 46 + |e.name|)) else Err(Malformed)
  {
    hide CentralHeader, Local, Body, StartsWith, Expand, ReadData, ReadRecord, Method, Inverse;
    var h, dir := CentralHeader(z, e, |before|), before + Local(z, e) + between;
    var rest := between + h + e.name + after;
    var b := dir + h + e.name + after;
    assert b == before + Local(z, e) + rest == dir + h + e.name + [] + [] + after;
    DataRead(z, e, before, rest);
    CentralFields(z, e, |before|);
    RecordOfAny(z, b, dir, h, e.name, [], [], after, Body(z, e.data), total);
    Expanded(z, e.data, MAX_INFLATED - total);
  }

  /** The records from one entry on, the entries before it already read. */
  lemma {:induction false} RecordsRead(
      z: Codec, entries: seq<Entry>, before: Bytes, read: Bytes, after: Bytes, total: nat)
    requires Inverse(z) && EntriesFit(z, entries, |before|) && total <= MAX_INFLATED
    ensures
      var b := before + LocalRecords(z, entries) + read + Centrals(z, entries, |before|) + after;
      var off := |before + LocalRecords(z, entries) + read|;
      ReadRecords(z, b, off, |entries|, total)
      == if total + TotalSize(entries) <= MAX_INFLATED then Ok(entries) else Err(Malformed)
    decreases |entries|
  {
    hide CentralHeader, Local, ReadRecord, Inverse, EntryFits, LocalRecords, Centrals, ReadRecords;
    var b := before + LocalRecords(z, entries) + read + Centrals(z, entries, |before|) + after;
    var off := |before + LocalRecords(z, entries) + read|;
    if entries == [] {
      NoRecords(z, b, off, total);
    } else {
      var e, rest := entries[0], entries[1..];
      var h := CentralHeader(z, e, |before|);
      var local, more := Local(z, e), Centrals(z, rest, |before| + |Local(z, e)|);
      RecordsHead(z, entries, |before|);
      RecordRead(z, e, before, LocalRecords(z, rest) + read, more + after, total);
      Regrouped(before, local, LocalRecords(z, rest), read, h, e.name, more, after);
      RecordStep(z, b, off, |entries|, total);
      if total + |e.data| <= MAX_INFLATED {
        RecordsRead(z, rest, before + local, read + h + e.name, after, total + |e.data|);
        assert [e] + rest == entries;
      }
    }
  }

  lemma NoRecords(z: Codec, b: Bytes, off: nat, total: nat)
    requires total <= MAX_INFLATED
    ensures ReadRecords(z, b, off, 0, total) == Ok([])
  {
  }

  lemma RecordsHead(z: Codec, entries: seq<Entry>, at: nat)
    requires entries != []
    ensures LocalRecords(z, entries) == Local(z, entries[0]) + LocalRecords(z, entries[1..])
    ensures
      Centrals(z, entries, at)
      == CentralHeader(z, entries[0], at) + entries[0].name
         + Centrals(z, entries[1..], at + |Local(z, entries[0])|)
  {
    hide CentralHeader, Local;
  }

  lemma RecordStep(z: Codec, b: Bytes, off: nat, count: nat, total: nat)
    requires count > 0 && total <= MAX_INFLATED
    ensures
      ReadRecords(z, b, off, count, total)
      == match ReadRecord(z, b, off, total)
         case Err(kind) => Err(kind)
         case Ok(head) =>
           match ReadRecords(z, b, head.1, count - 1, total + |head.0.data|)
           case Err(kind) => Err(kind)
           case Ok(rest) => Ok([head.0] + rest)
  {
    hide ReadRecord;
  }

  /** The archive, with the first entry apart from the rest. */
  lemma Regrouped(
      before: Bytes, local: Bytes, locals: Bytes, read: Bytes, h: Bytes, name: Bytes, more: Bytes, after: Bytes)
    ensures
      before + (local + locals) + read + (h + name + more) + after
      == before + local + (locals + read) + h + name + (more + after)
      == (before + local) + locals + (read + h + name) + more + after
    ensures |before + (local + locals) + read| == |before + local + (locals + read)|
    ensures |before + (local + locals) + read| + |h| + |name| == |(before + local) + locals + (read + h + name)|
  {
    var front, all := before + local, before + local + locals + read + h + name + more + after;
    assert before + (local + locals) + read + (h + name + more) + after == all;
    assert front + (locals + read) + h + name + (more + after) == all;
    assert front + locals + (read + h + name) + more + after == all;
  }

  // ---- finding the end record ------------------------------------------------------

  /** No field of the end record spells the signature again further in. */
  predicate OneSignature(count: nat, size: nat, at: nat) {
    var end := EndRecord(count, size, at);
    forall q :: 0 < q < 22 ==> !IsSignature(end, q)
  }

  lemma {:induction false} LastIs(b: Bytes, p: nat, n: nat)
    requires p < n && IsSignature(b, p) && forall q :: p < q < n ==> !IsSignature(b, q)
    ensures LastSignature(b, n) == Some(p)
  {
    if p < n - 1 {
      LastIs(b, p, n - 1);
    }
  }

  lemma SignatureIn(before: Bytes, end: Bytes, q: nat)
    ensures IsSignature(before + end, |before| + q) <==> IsSignature(end, q)
  {
    var b := before + end;
    if |before| + q + 4 <= |b| {
      assert b[|before| + q] == end[q] && b[|before| + q + 1] == end[q + 1];
      assert b[|before| + q + 2] == end[q + 2] && b[|before| + q + 3] == end[q + 3];
    }
  }

  lemma EndFields(count: nat, size: nat, at: nat)
    requires count < U16_END && at < U32_END
    ensures
      var end := EndRecord(count, size, at);
      IsSignature(end, 0) && U16Of(end, 10) == count && U32Of(end, 16) == at
  {
    hide Byte;
    Le16Inverts(count);
    Le32Inverts(at);
  }

  /** The scan finds the end record itself exactly when its fields do not spell its signature again. */
  lemma EndFound(before: Bytes, count: nat, size: nat, at: nat)
    requires count < U16_END && at < U32_END
    ensures
      var b := before + EndRecord(count, size, at);
      if OneSignature(count, size, at) then LastSignature(b, |b|) == Some(|before|)
      else LastSignature(b, |b|).Some? && LastSignature(b, |b|).value > |before|
  {
    hide EndRecord, IsSignature, LastSignature;
    var end := EndRecord(count, size, at);
    var b := before + end;
    EndFields(count, size, at);
    SignatureIn(before, end, 0);
    if OneSignature(count, size, at) {
      forall q | |before| < q < |b| ensures !IsSignature(b, q) {
        SignatureIn(before, end, q - |before|);
      }
      LastIs(b, |before|, |b|);
    } else {
      var q: nat :| 0 < q < 22 && IsSignature(end, q);
      SignatureIn(before, end, q);
      assert IsSignature(b, |before| + q);
    }
  }

  /**
    Reading a written archive gives the same entries in the same order exactly when their
    total size is within the ceiling and the end record's own fields do not spell its
    signature; otherwise the archive is refused.
   */
  lemma ZipRoundTrip(z: Codec, entries: seq<Entry>)
    requires Inverse(z) && ZipWrite(z, entries).Ok?
    ensures
      var at, size := |LocalRecords(z, entries)|, |Centrals(z, entries, 0)|;
      var read := ZipEntries(z, ZipWrite(z, entries).value);
      if TotalSize(entries) <= MAX_INFLATED && OneSignature(|entries|, size, at) then read == Ok(entries)
      else read.Err?
  {
    hide LocalRecords, Centrals, EndRecord, OneSignature, LastSignature, ReadRecords, EntriesFit, Inverse, IsSignature;
    var locals, centrals := LocalRecords(z, entries), Centrals(z, entries, 0);
    var end := EndRecord(|entries|, |centrals|, |locals|);
    var b := locals + centrals + end;
    EndFound(locals + centrals, |entries|, |centrals|, |locals|);
    EndFields(|entries|, |centrals|, |locals|);
    if OneSignature(|entries|, |centrals|, |locals|) {
      var p := |locals + centrals|;
      assert b[p..p + 22] == end;
      RecordsRead(z, entries, [], [], end, 0);
      assert [] + locals + [] + centrals + end == b && |[] + locals + []| == |locals|;
    }
  }

  lemma SignatureBytes()
    ensures Byte(SIGNATURE_OFFSET, 0) == 0x50 && Byte(SIGNATURE_OFFSET, 1) == 0x4B
    ensures Byte(SIGNATURE_OFFSET, 2) == 5 && Byte(SIGNATURE_OFFSET, 3) == 6
  {
  }

  lemma OffsetSpells(count: nat, size: nat)
    ensures !OneSignature(count, size, SIGNATURE_OFFSET)
  {
    hide Byte;
    SignatureBytes();
    var end := EndRecord(count, size, SIGNATURE_OFFSET);
    assert IsSignature(end, 16);
  }

  /** The end signature read as a little-endian offset. */
  const SIGNATURE_OFFSET: nat := 0x0605_4B50

  /** A codec that changes nothing, and one entry whose directory starts at `SIGNATURE_OFFSET`. */
  const STORED: Codec := Codec(d => d, (d, n) => Some(d), d => 0)

  function ZeroEntry(): Entry {
    Entry([], seq(SIGNATURE_OFFSET - 30, i => 0))
  }

  lemma ZeroEntryFits()
    ensures |ZeroEntry().data| == SIGNATURE_OFFSET - 30 && Body(STORED, ZeroEntry().data) == ZeroEntry().data
    ensures |Local(STORED, ZeroEntry())| == SIGNATURE_OFFSET && EntryFits(STORED, ZeroEntry(), 0)
  {
    hide LocalHeader;
  }

  lemma OneEntry(z: Codec, e: Entry)
    requires EntryFits(z, e, 0) && |Local(z, e)| < U32_END
    ensures LocalRecords(z, [e]) == Local(z, e) && |Centrals(z, [e], 0)| == 46 + |e.name| && TotalSize([e]) == |e.data|
    ensures ZipWrite(z, [e]).Ok?
  {
    hide Local, EntryFits, CentralHeader, EndRecord;
    assert [e][1..] == [];
    assert LocalRecords(z, []) == [] && Centrals(z, [], |Local(z, e)|) == [] && EntriesFit(z, [], |Local(z, e)|);
    EntryNamed(z, e);
  }

  lemma EntryNamed(z: Codec, e: Entry)
    requires EntryFits(z, e, 0)
    ensures |e.name| < U16_END
  {
  }

  /** Such an archive exists: written without complaint, under the ceiling, and refused when read. */
  lemma SignatureInOffset()
    ensures Inverse(STORED) && TotalSize([ZeroEntry()]) <= MAX_INFLATED
    ensures ZipWrite(STORED, [ZeroEntry()]).Ok?
    ensures ZipEntries(STORED, ZipWrite(STORED, [ZeroEntry()]).value).Err?
  {
    hide ZipEntries, ZipWrite, OneSignature, LocalRecords, Centrals, Local, TotalSize;
    var e := ZeroEntry();
    ZeroEntryFits();
    OneEntry(STORED, e);
    OffsetSpells(1, |Centrals(STORED, [e], 0)|);
    ZipRoundTrip(STORED, [e]);
  }

  // ---- what the headers say --------------------------------------------------------

  /** The method, checksum, sizes and name length of an entry, from one field offset on. */
  ghost predicate Describes(z: Codec, e: Entry, h: Bytes, at: nat) {
    && at + 20 <= |h|
    && U16Of(h, at) == 0
    && U16Of(h, at + 2) == (if |z.deflate(e.data)| < |e.data| then 8 else 0)
    && U16Of(h, at + 4) == 0 && U16Of(h, at + 6) == 0x21
    && U32Of(h, at + 8) == z.crc(e.data)
    && U32Of(h, at + 12) == (if |z.deflate(e.data)| < |e.data| then |z.deflate(e.data)| else |e.data|)
    && U32Of(h, at + 16) == |e.data|
  }

  /** A local header by field offset: version 2.0, no flags, and the entry it stands before. */
  ghost predicate LocalSays(z: Codec, e: Entry, h: Bytes) {
    && |h| == 30 && StartsWith(h, 3, 4) && U16Of(h, 4) == 20 && Describes(z, e, h, 6)
    && U16Of(h, 26) == |e.name| && U16Of(h, 28) == 0
  }

  /** A directory header by field offset: the same entry, and where its local header starts. */
  ghost predicate CentralSays(z: Codec, e: Entry, at: nat, h: Bytes) {
    && |h| == 46 && StartsWith(h, 1, 2) && U16Of(h, 4) == 20 && U16Of(h, 6) == 20 && Describes(z, e, h, 8)
    && U16Of(h, 28) == |e.name| && U16Of(h, 30) == U16Of(h, 32) == U16Of(h, 34) == U16Of(h, 36) == 0
    && U16Of(h, 38) == U16Of(h, 40) == 0 && U32Of(h, 42) == at
  }

  /** The end record by field offset: one disk, the entries twice, and the directory's size and start. */
  ghost predicate EndSays(count: nat, size: nat, at: nat, r: Bytes) {
    && |r| == 22 && IsSignature(r, 0) && U16Of(r, 4) == U16Of(r, 6) == 0
    && U16Of(r, 8) == U16Of(r, 10) == count && U32Of(r, 12) == size && U32Of(r, 16) == at && U16Of(r, 20) == 0
  }

  lemma BytesOf(z: Codec, e: Entry)
    ensures Method(z, e.data) == (if |z.deflate(e.data)| < |e.data| then 8 else 0)
    ensures |Body(z, e.data)| == (if |z.deflate(e.data)| < |e.data| then |z.deflate(e.data)| else |e.data|)
  {
  }

  ghost predicate WordIs(h: Bytes, at: nat, v: nat) {
    && at + 4 <= |h| && h[at] == Byte(v, 0) && h[at + 1] == Byte(v, 1)
    && h[at + 2] == Byte(v, 2) && h[at + 3] == Byte(v, 3)
  }

  ghost predicate HalfIs(h: Bytes, at: nat, v: nat) {
    at + 2 <= |h| && h[at] == Byte(v, 0) && h[at + 1] == Byte(v, 1)
  }

  /** The fields both kinds of header hold, spelled from offset `at` on. */
  lemma FieldsDescribe(z: Codec, e: Entry, h: Bytes, at: nat)
    requires at + 20 <= |h| && |Body(z, e.data)| < U32_END && |e.data| < U32_END
    requires HalfIs(h, at, 0) && HalfIs(h, at + 2, Method(z, e.data)) && HalfIs(h, at + 4, 0) && HalfIs(h, at + 6, 0x21)
    requires WordIs(h, at + 8, z.crc(e.data)) && WordIs(h, at + 12, |Body(z, e.data)|)
    requires WordIs(h, at + 16, |e.data|)
    ensures Describes(z, e, h, at)
  {
    hide Byte, Method, Body, WordIs, HalfIs;
    BytesOf(z, e);
    HalfAt(h, at, 0);
    HalfAt(h, at + 2, Method(z, e.data));
    HalfAt(h, at + 4, 0);
    HalfAt(h, at + 6, 0x21);
    WordAt(h, at + 8, z.crc(e.data));
    WordAt(h, at + 12, |Body(z, e.data)|);
    WordAt(h, at + 16, |e.data|);
  }

  lemma WordAt(h: Bytes, at: nat, v: nat)
    requires v < U32_END && WordIs(h, at, v)
    ensures at + 4 <= |h| && U32Of(h, at) == v
  {
    hide Byte;
    Le32Inverts(v);
  }

  lemma HalfAt(h: Bytes, at: nat, v: nat)
    requires v < U16_END && HalfIs(h, at, v)
    ensures at + 2 <= |h| && U16Of(h, at) == v
  {
    hide Byte;
    Le16Inverts(v);
  }

  lemma SmallBytes()
    ensures Byte(0, 0) == Byte(0, 1) == Byte(20, 1) == Byte(0x21, 1) == 0 && Byte(20, 0) == 20 && Byte(0x21, 0) == 0x21
  {
  }

  lemma LocalBytes(z: Codec, e: Entry)
    ensures
      var h := LocalHeader(z, e);
      && StartsWith(h, 3, 4) && HalfIs(h, 4, 20) && HalfIs(h, 6, 0) && HalfIs(h, 8, Method(z, e.data))
      && HalfIs(h, 10, 0) && HalfIs(h, 12, 0x21)
  {
    hide Byte, Body, Method;
    SmallBytes();
  }

  lemma LocalTail(z: Codec, e: Entry)
    ensures
      var h := LocalHeader(z, e);
      && WordIs(h, 14, z.crc(e.data)) && WordIs(h, 18, |Body(z, e.data)|) && WordIs(h, 22, |e.data|)
      && HalfIs(h, 26, |e.name|) && HalfIs(h, 28, 0)
  {
    hide Byte, Body, Method;
    SmallBytes();
  }

  lemma LocalHeaderSays(z: Codec, e: Entry)
    requires |Body(z, e.data)| < U32_END && |e.data| < U32_END && |e.name| < U16_END
    ensures LocalSays(z, e, LocalHeader(z, e))
  {
    hide Byte, Body, Method, Describes, LocalHeader, WordIs, HalfIs, StartsWith, U16Of;
    var h := LocalHeader(z, e);
    LocalBytes(z, e);
    LocalTail(z, e);
    FieldsDescribe(z, e, h, 6);
    HalfAt(h, 4, 20);
    HalfAt(h, 26, |e.name|);
    HalfAt(h, 28, 0);
  }

  lemma CentralBytes(z: Codec, e: Entry, at: nat)
    ensures
      var h := CentralHeader(z, e, at);
      && StartsWith(h, 1, 2) && HalfIs(h, 4, 20) && HalfIs(h, 6, 20) && HalfIs(h, 8, 0)
      && HalfIs(h, 10, Method(z, e.data)) && HalfIs(h, 12, 0) && HalfIs(h, 14, 0x21)
  {
    hide Byte, Body, Method;
    SmallBytes();
  }

  lemma CentralWords(z: Codec, e: Entry, at: nat)
    ensures
      var h := CentralHeader(z, e, at);
      WordIs(h, 16, z.crc(e.data)) && WordIs(h, 20, |Body(z, e.data)|) && WordIs(h, 24, |e.data|)
  {
    hide Byte, Body, Method;
  }

  lemma CentralTail(z: Codec, e: Entry, at: nat)
    ensures
      var h := CentralHeader(z, e, at);
      && HalfIs(h, 28, |e.name|) && HalfIs(h, 30, 0) && HalfIs(h, 32, 0) && HalfIs(h, 34, 0) && HalfIs(h, 36, 0)
      && HalfIs(h, 38, 0) && HalfIs(h, 40, 0) && WordIs(h, 42, at)
  {
    hide Byte, Body, Method;
    SmallBytes();
  }

  lemma CentralHeaderSays(z: Codec, e: Entry, at: nat)
    requires EntryFits(z, e, at)
    ensures CentralSays(z, e, at, CentralHeader(z, e, at))
  {
    hide Byte, Body, Method, Describes, CentralHeader, WordIs, HalfIs, StartsWith, U16Of, U32Of;
    var h := CentralHeader(z, e, at);
    CentralBytes(z, e, at);
    CentralWords(z, e, at);
    CentralTail(z, e, at);
    FieldsDescribe(z, e, h, 8);
    HalfAt(h, 4, 20);
    HalfAt(h, 6, 20);
    HalfAt(h, 28, |e.name|);
    HalfAt(h, 30, 0);
    HalfAt(h, 32, 0);
    HalfAt(h, 34, 0);
    HalfAt(h, 36, 0);
    HalfAt(h, 38, 0);
    HalfAt(h, 40, 0);
    WordAt(h, 42, at);
  }

  lemma EndRecordSays(count: nat, size: nat, at: nat)
    requires count < U16_END && size < U32_END && at < U32_END
    ensures EndSays(count, size, at, EndRecord(count, size, at))
  {
    hide Byte;
    Le16Inverts(count);
    Le32Inverts(size);
    Le32Inverts(at);
  }

  // ---- where the headers lie -------------------------------------------------------

  /** An entry's local header at `at`, then its name, then the shorter of its two forms. */
  ghost predicate LocalAt(z: Codec, e: Entry, b: Bytes, at: nat) {
    var h := Span(b, at, 30);
    && h.Some? && LocalSays(z, e, h.value) && Span(b, at + 30, |e.name|) == Some(e.name)
    && Span(b, at + 30 + |e.name|, |Body(z, e.data)|) == Some(Body(z, e.data))
  }

  /** An entry's directory header at `dir`, then its name, leading to `at`. */
  ghost predicate CentralAt(z: Codec, e: Entry, at: nat, b: Bytes, dir: nat) {
    var h := Span(b, dir, 46);
    h.Some? && CentralSays(z, e, at, h.value) && Span(b, dir + 46, |e.name|) == Some(e.name)
  }

  lemma LocalWritten(z: Codec, e: Entry, before: Bytes, rest: Bytes)
    requires |Body(z, e.data)| < U32_END && |e.data| < U32_END && |e.name| < U16_END
    ensures LocalAt(z, e, before + Local(z, e) + rest, |before|)
  {
    hide LocalHeader, Body, LocalSays;
    var h, b := LocalHeader(z, e), before + Local(z, e) + rest;
    LocalHeaderSays(z, e);
    SpanInside(before, h, e.name + Body(z, e.data) + rest, b);
    SpanInside(before + h, e.name, Body(z, e.data) + rest, b);
    SpanInside(before + h + e.name, Body(z, e.data), rest, b);
  }

  lemma CentralWritten(z: Codec, e: Entry, at: nat, before: Bytes, rest: Bytes)
    requires EntryFits(z, e, at)
    ensures CentralAt(z, e, at, before + (CentralHeader(z, e, at) + e.name) + rest, |before|)
  {
    hide CentralHeader, CentralSays, EntryFits;
    var h := CentralHeader(z, e, at);
    var b := before + (h + e.name) + rest;
    CentralHeaderSays(z, e, at);
    SpanInside(before, h, e.name + rest, b);
    SpanInside(before + h, e.name, rest, b);
  }

  /** Bytes standing behind `before` in a longer run of them. */
  lemma SpanInside(before: Bytes, s: Bytes, after: Bytes, b: Bytes)
    requires b == before + s + after
    ensures Span(b, |before|, |s|) == Some(s)
  {
    assert b[|before|..|before| + |s|] == s;
  }

  lemma {:induction false} LocalsSplit(z: Codec, entries: seq<Entry>, i: nat)
    requires i < |entries|
    ensures
      LocalRecords(z, entries)
      == LocalRecords(z, entries[..i]) + Local(z, entries[i]) + LocalRecords(z, entries[i + 1..])
  {
    hide Local, LocalRecords, Centrals;
    RecordsHead(z, entries, 0);
    if i == 0 {
      assert entries[..0] == [];
      NoLocals(z);
    } else {
      var rest := entries[1..];
      LocalsSplit(z, rest, i - 1);
      RecordsHead(z, entries[..i], 0);
      assert entries[..i][1..] == rest[..i - 1] && rest[i..] == entries[i + 1..];
    }
  }

  lemma NoLocals(z: Codec)
    ensures LocalRecords(z, []) == [] && forall at :: Centrals(z, [], at) == []
  {
  }

  lemma {:induction false} CentralsSplit(z: Codec, entries: seq<Entry>, i: nat, at: nat)
    requires i < |entries|
    ensures
      var here := at + |LocalRecords(z, entries[..i])|;
      Centrals(z, entries, at)
      == Centrals(z, entries[..i], at) + (CentralHeader(z, entries[i], here) + entries[i].name)
         + Centrals(z, entries[i + 1..], here + |Local(z, entries[i])|)
  {
    hide Local, LocalRecords, Centrals, CentralHeader;
    RecordsHead(z, entries, at);
    NoLocals(z);
    if i == 0 {
      assert entries[..0] == [];
    } else {
      var rest, next := entries[1..], at + |Local(z, entries[0])|;
      CentralsSplit(z, rest, i - 1, next);
      RecordsHead(z, entries[..i], at);
      assert entries[..i][1..] == rest[..i - 1] && rest[i..] == entries[i + 1..];
    }
  }

  lemma {:induction false} EachFits(z: Codec, entries: seq<Entry>, i: nat, at: nat)
    requires i < |entries| && EntriesFit(z, entries, at)
    ensures EntryFits(z, entries[i], at + |LocalRecords(z, entries[..i])|)
  {
    hide Local, LocalRecords, EntryFits;
    if i == 0 {
      assert entries[..0] == [];
      NoLocals(z);
    } else {
      EachFits(z, entries[1..], i - 1, at + |Local(z, entries[0])|);
      RecordsHead(z, entries[..i], at);
      assert entries[..i][1..] == entries[1..][..i - 1];
    }
  }

  /**
    Every entry of a written archive is described twice over, alike: by the local header its
    data follows and by a directory header that leads to it, each field at its own offset.
   */
  lemma WrittenHeaders(z: Codec, entries: seq<Entry>, i: nat)
    requires ZipWrite(z, entries).Ok? && i < |entries|
    ensures
      var b, at := ZipWrite(z, entries).value, |LocalRecords(z, entries[..i])|;
      && LocalAt(z, entries[i], b, at)
      && CentralAt(z, entries[i], at, b, |LocalRecords(z, entries)| + |Centrals(z, entries[..i], 0)|)
  {
    hide LocalRecords, Centrals, EntriesFit, EndRecord, Local, CentralHeader, LocalAt, CentralAt;
    var e, locals, centrals := entries[i], LocalRecords(z, entries), Centrals(z, entries, 0);
    var l0, c0 := LocalRecords(z, entries[..i]), Centrals(z, entries[..i], 0);
    var l1 := LocalRecords(z, entries[i + 1..]);
    var c1 := Centrals(z, entries[i + 1..], |l0| + |Local(z, e)|);
    var header := CentralHeader(z, e, |l0|) + e.name;
    var end := EndRecord(|entries|, |centrals|, |locals|);
    LocalsSplit(z, entries, i);
    CentralsSplit(z, entries, i, 0);
    EachFits(z, entries, i, 0);
    LocalWritten(z, e, l0, l1 + centrals + end);
    CentralWritten(z, e, |l0|, locals + c0, c1 + end);
    assert l0 + Local(z, e) + (l1 + centrals + end) == locals + centrals + end;
    assert (locals + c0) + header + (c1 + end) == locals + centrals + end;
    assert |locals + c0| == |locals| + |c0|;
  }

  /** A written archive ends in a record of its entry count and of where its directory lies. */
  lemma WrittenEnd(z: Codec, entries: seq<Entry>)
    requires ZipWrite(z, entries).Ok?
    ensures
      var b, at, size := ZipWrite(z, entries).value, |LocalRecords(z, entries)|, |Centrals(z, entries, 0)|;
      |b| == at + size + 22 && EndSays(|entries|, size, at, b[at + size..])
  {
    hide LocalRecords, Centrals, EntriesFit, EndRecord, EndSays;
    var at, size := |LocalRecords(z, entries)|, |Centrals(z, entries, 0)|;
    EndRecordSays(|entries|, size, at);
    assert ZipWrite(z, entries).value[at + size..] == EndRecord(|entries|, size, at);
  }
}
