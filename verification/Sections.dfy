/** The sections a payload is made of: the header word, identity tables, ascending maps, record lists. */
module Sections {
  import opened Wrappers
  import opened Seqs
  import opened Cbor
  import opened Model
  import opened Values
  import opened Records

  // ---- the header word -------------------------------------------------------------

  const LAYOUT_VERSION: nat := 1
  const TABLES_VERSION: nat := 1
  const ID_SCHEME: nat := 2
  const CANONICAL_GRAPH: nat := 3
  /** The scheme stamp of the digest space, which no wire scheme change moves. */
  const DIGEST_SCHEME: nat := 1

  const FLAG_ELIDE_IDS: nat := 0
  const FLAG_FULL_FORM: nat := 1
  const FLAG_DELTA: nat := 2
  const FLAG_PORTABLE: nat := 3
  const FLAG_UNIT_PATHS: nat := 4
  const FLAG_IMPLIED_OWNERS: nat := 5
  const FLAG_EXPLICIT_IDS: nat := 6

  /** A flag byte from the flags set, each named by its bit. */
  function FlagByte(delta: bool, portable: bool, units: bool, implied: bool): (f: nat)
    ensures f < 256
  {
    (if delta then 4 else 0) + (if portable then 8 else 0) + (if units then 16 else 0) + (if implied then 32 else 0)
  }

  function HeaderWord(flags: nat, scheme: nat): nat {
    LAYOUT_VERSION * 0x1_0000_0000 + TABLES_VERSION * 0x1_0000 + scheme * 0x100 + flags
  }

  /** The four axes, each a byte field of the word. */
  function HeaderAxes(word: nat): Result<(nat, nat, nat, nat)> {
    if word >= 0x100_0000_0000 then Err(Malformed)
    else Ok((word / 0x1_0000_0000, (word / 0x1_0000) % 0x1_0000, (word / 0x100) % 0x100, word % 0x100))
  }

  /** The scheme and the flags of a header this build reads. */
  function ParseHeader(word: nat): Result<(nat, nat)> {
    var (layout, tables, scheme, flags) :- HeaderAxes(word);
    if layout != LAYOUT_VERSION || tables != TABLES_VERSION then Err(UnsupportedVersion)
    else Ok((scheme, flags))
  }

  lemma HeaderInverts(flags: nat, scheme: nat)
    requires flags < 256 && scheme < 256
    ensures ParseHeader(HeaderWord(flags, scheme)) == Ok((scheme, flags))
    ensures HeaderAxes(HeaderWord(flags, scheme)) == Ok((LAYOUT_VERSION, TABLES_VERSION, scheme, flags))
  {
    hide HeaderAxes;
    var low := scheme * 0x100 + flags;
    var high := LAYOUT_VERSION * 0x1_0000 + TABLES_VERSION;
    assert HeaderWord(flags, scheme) == high * 0x1_0000 + low;
    HeaderSplit(LAYOUT_VERSION, TABLES_VERSION, scheme, flags);
  }

  lemma HeaderSplit(layout: nat, tables: nat, scheme: nat, flags: nat)
    requires layout < 256 && tables < 0x1_0000 && scheme < 256 && flags < 256
    ensures
      HeaderAxes((layout * 0x1_0000 + tables) * 0x1_0000 + (scheme * 0x100 + flags))
      == Ok((layout, tables, scheme, flags))
  {
    var high, low := layout * 0x1_0000 + tables, scheme * 0x100 + flags;
    var word := high * 0x1_0000 + low;
    SplitHigh(layout, tables * 0x1_0000 + low, word);
    SplitMiddle(high, low, word);
    SplitMiddle(layout, tables, high);
    SplitLow(high * 0x100 + scheme, flags, word);
    SplitLow(high, scheme, high * 0x100 + scheme);
  }

  lemma SplitLow(q: nat, r: nat, word: nat)
    requires r < 0x100 && word == q * 0x100 + r
    ensures word / 0x100 == q && word % 0x100 == r
  {
  }

  lemma SplitMiddle(q: nat, r: nat, word: nat)
    requires r < 0x1_0000 && word == q * 0x1_0000 + r
    ensures word / 0x1_0000 == q && word % 0x1_0000 == r
  {
  }

  lemma SplitHigh(q: nat, r: nat, word: nat)
    requires r < 0x1_0000_0000 && word == q * 0x1_0000_0000 + r
    ensures word / 0x1_0000_0000 == q
  {
  }

  lemma FlagBits(delta: bool, portable: bool, units: bool, implied: bool)
    ensures
      var f := FlagByte(delta, portable, units, implied);
      && Bit(f, FLAG_DELTA) == delta && Bit(f, FLAG_PORTABLE) == portable
      && Bit(f, FLAG_UNIT_PATHS) == units && Bit(f, FLAG_IMPLIED_OWNERS) == implied
      && !Bit(f, FLAG_ELIDE_IDS) && !Bit(f, FLAG_FULL_FORM) && !Bit(f, FLAG_EXPLICIT_IDS) && !Bit(f, 7)
  {
    hide Bit;
    var above := if implied then 1 else 0;
    var pathed := (if units then 1 else 0) + 2 * above;
    var carried := (if portable then 1 else 0) + 2 * pathed;
    var shaped := (if delta then 1 else 0) + 2 * carried;
    NoBits();
    BitsOver(implied, 0, above);
    BitsOver(units, above, pathed);
    BitsOver(portable, pathed, carried);
    BitsOver(delta, carried, shaped);
    BitsOver(false, shaped, 2 * shaped);
    BitsOver(false, 2 * shaped, FlagByte(delta, portable, units, implied));
  }

  /** One bit put below a word. */
  lemma BitsOver(low: bool, high: nat, word: nat)
    requires word == (if low then 1 else 0) + 2 * high
    ensures Bit(word, 0) == low && forall i :: i > 0 ==> Bit(word, i) == Bit(high, i - 1)
  {
    hide Bit;
    assert word / 2 == high;
    forall i: nat ensures Bit(word, i) == if i == 0 then low else Bit(high, i - 1) {
      BitStep(word, i);
    }
  }

  lemma NoBits()
    ensures forall i :: !Bit(0, i)
  {
    forall i: nat ensures !Bit(0, i) {
      NoBit(i);
    }
  }

  lemma {:induction false} NoBit(i: nat)
    ensures !Bit(0, i)
  {
    if i > 0 {
      NoBit(i - 1);
    }
  }

  lemma BitUnfolds(f: nat)
    ensures Bit(f, 0) == (f % 2 == 1) && Bit(f, 1) == (f / 2 % 2 == 1)
    ensures Bit(f, 2) == (f / 2 / 2 % 2 == 1) && Bit(f, 3) == (f / 2 / 2 / 2 % 2 == 1)
    ensures Bit(f, 4) == (f / 2 / 2 / 2 / 2 % 2 == 1) && Bit(f, 5) == (f / 2 / 2 / 2 / 2 / 2 % 2 == 1)
    ensures Bit(f, 6) == (f / 2 / 2 / 2 / 2 / 2 / 2 % 2 == 1)
    ensures Bit(f, 7) == (f / 2 / 2 / 2 / 2 / 2 / 2 / 2 % 2 == 1)
  {
    assert Bit(f / 2, 6) == Bit(f / 2 / 2, 5) == Bit(f / 2 / 2 / 2, 4) == Bit(f / 2 / 2 / 2 / 2, 3);
    assert Bit(f / 2, 5) == Bit(f / 2 / 2, 4) == Bit(f / 2 / 2 / 2, 3) == Bit(f / 2 / 2 / 2 / 2, 2);
    assert Bit(f / 2, 4) == Bit(f / 2 / 2, 3) == Bit(f / 2 / 2 / 2, 2) == Bit(f / 2 / 2 / 2 / 2, 1);
    assert Bit(f / 2, 3) == Bit(f / 2 / 2, 2) == Bit(f / 2 / 2 / 2, 1);
    assert Bit(f / 2, 2) == Bit(f / 2 / 2, 1);
  }

  // ---- heads with one purpose ------------------------------------------------------

  function ReadUint(ts: Toks): Result<(nat, Toks)> {
    var (t, rest) :- Next(ts);
    if t.Uint? then Ok((t.n, rest)) else Err(Malformed)
  }

  function ReadArray(ts: Toks): Result<(nat, Toks)> {
    var (t, rest) :- Next(ts);
    if t.Array? then Ok((t.len, rest)) else Err(Malformed)
  }

  // ---- identity tables -------------------------------------------------------------

  function WriteIds(ids: seq<Uuid>): (ts: Toks)
    ensures |ts| == |ids|
  {
    if ids == [] then [] else [Bstr(UuidBytes(ids[0]))] + WriteIds(ids[1..])
  }

  function ReadId(t: Token): Result<Uuid> {
    if t.Bstr? && |t.bytes| == 16 then Ok(UuidOf(t.bytes)) else Err(Malformed)
  }

  function ReadIdList(ts: Toks, n: nat): (r: Result<(seq<Uuid>, Toks)>)
    ensures r.Ok? ==> |r.value.0| == n
  {
    if n == 0 then Ok(([], ts))
    else
      var (t, after) :- Next(ts);
      var u :- ReadId(t);
      var (us, rest) :- ReadIdList(after, n - 1);
      Ok(([u] + us, rest))
  }

  /** A counted identity table; the count is held against the bytes left. */
  function ReadIds(ts: Toks): (r: Result<(seq<Uuid>, Toks)>) {
    var (n, after) :- ReadArray(ts);
    if n > Remaining(after) / 17 then Err(Malformed) else ReadIdList(after, n)
  }

  lemma {:induction false} IdsSize(ids: seq<Uuid>, rest: Toks)
    ensures Remaining(WriteIds(ids) + rest) >= 17 * |ids|
  {
    hide UuidBytes, Remaining, WriteIds;
    if ids != [] {
      IdsHead(ids, rest);
      IdSize(ids[0], WriteIds(ids[1..]) + rest);
      IdsSize(ids[1..], rest);
    }
  }

  lemma IdsHead(ids: seq<Uuid>, rest: Toks)
    requires ids != []
    ensures WriteIds(ids) + rest == [Bstr(UuidBytes(ids[0]))] + (WriteIds(ids[1..]) + rest)
  {
    hide UuidBytes;
  }

  lemma IdSize(u: Uuid, rest: Toks)
    ensures Remaining([Bstr(UuidBytes(u))] + rest) == 17 + Remaining(rest)
  {
    hide UuidBytes;
    var ts := [Bstr(UuidBytes(u))] + rest;
    assert ts[1..] == rest;
    assert EncAll(ts) == EncTok(ts[0]) + EncAll(ts[1..]);
  }

  lemma {:induction false} IdListInverts(ids: seq<Uuid>, ts: Toks, rest: Toks)
    requires ts == WriteIds(ids) + rest
    ensures ReadIdList(ts, |ids|) == Ok((ids, rest))
  {
    hide UuidBytes, UuidOf;
    if ids == [] {
      assert ts == rest;
    } else {
      UuidOfBytes(ids[0]);
      IdListInverts(ids[1..], ts[1..], rest);
      assert [ids[0]] + ids[1..] == ids;
    }
  }

  lemma IdsInvert(ids: seq<Uuid>, ts: Toks, rest: Toks)
    requires ts == [Array(|ids|)] + WriteIds(ids) + rest
    ensures ReadIds(ts) == Ok((ids, rest))
  {
    hide EncAll, WriteIds, ReadIdList;
    assert ts[1..] == WriteIds(ids) + rest;
    IdsSize(ids, rest);
    IdListInverts(ids, ts[1..], rest);
  }

  // ---- ascending maps --------------------------------------------------------------

  /** What the values of an ascending map are. */
  datatype Section = OwnerBits | UnitPaths | AnyNumber

  type Pairs = seq<(nat, Token)>

  predicate ValueFits(sec: Section, t: Token) {
    match sec
    case OwnerBits => t.Uint? && 1 <= t.n <= 3
    case UnitPaths => t.Tstr?
    case AnyNumber => t.Uint?
  }

  predicate Ascending(pairs: Pairs) {
    forall i, j :: 0 <= i < j < |pairs| ==> pairs[i].0 < pairs[j].0
  }

  /** Comparing neighbours, as the code does, settles it. */
  lemma {:induction false} NeighboursAscend(pairs: Pairs)
    requires forall i :: 0 < i < |pairs| ==> pairs[i - 1].0 < pairs[i].0
    ensures Ascending(pairs)
  {
    if pairs != [] {
      var n := |pairs| - 1;
      assert forall i :: 0 <= i < n ==> pairs[..n][i] == pairs[i];
      NeighboursAscend(pairs[..n]);
      forall i | 0 <= i < n ensures pairs[i].0 < pairs[n].0 {
        assert pairs[..n][i].0 <= pairs[..n][n - 1].0;
      }
      forall i, j | 0 <= i < j < n ensures pairs[i].0 < pairs[j].0 {
        assert pairs[..n][i].0 < pairs[..n][j].0;
      }
    }
  }

  ghost predicate PairsFit(sec: Section, pairs: Pairs) {
    Ascending(pairs) && forall i :: 0 <= i < |pairs| ==> ValueFits(sec, pairs[i].1)
  }

  function WritePairList(pairs: Pairs): (ts: Toks)
    ensures |ts| == 2 * |pairs|
  {
    if pairs == [] then [] else [Uint(pairs[0].0), pairs[0].1] + WritePairList(pairs[1..])
  }

  function WritePairs(pairs: Pairs): Toks {
    [Map(|pairs|)] + WritePairList(pairs)
  }

  function ReadPairList(ts: Toks, sec: Section, n: nat, low: nat): (r: Result<(Pairs, Toks)>)
    ensures r.Ok? ==> |r.value.0| == n
    ensures r.Ok? ==> forall i :: 0 <= i < n ==> low <= r.value.0[i].0 && ValueFits(sec, r.value.0[i].1)
    ensures r.Ok? ==> Ascending(r.value.0)
    decreases n
  {
    if n == 0 then Ok(([], ts))
    else
      var (key, ts1) :- ReadUint(ts);
      if key < low then Err(Malformed)
      else
        var (t, ts2) :- Next(ts1);
        if !ValueFits(sec, t) then Err(Malformed)
        else
          var (more, rest) :- ReadPairList(ts2, sec, n - 1, key + 1);
          Ok(([(key, t)] + more, rest))
  }

  function ReadPairs(ts: Toks, sec: Section): (r: Result<(Pairs, Toks)>)
    ensures r.Ok? ==> PairsFit(sec, r.value.0)
  {
    var (t, after) :- Next(ts);
    if !t.Map? || t.len > Remaining(after) / 2 then Err(Malformed)
    else ReadPairList(after, sec, t.len, 0)
  }

  lemma {:induction false} PairListInverts(sec: Section, pairs: Pairs, low: nat, ts: Toks, rest: Toks)
    requires PairsFit(sec, pairs) && (pairs != [] ==> low <= pairs[0].0)
    requires ts == WritePairList(pairs) + rest
    ensures ReadPairList(ts, sec, |pairs|, low) == Ok((pairs, rest))
  {
    hide ValueFits, ReadPairList, WritePairList;
    if pairs == [] {
      NoPairs(ts, sec, low);
      assert [] + rest == rest;
    } else {
      var more := WritePairList(pairs[1..]) + rest;
      PairsHead(sec, pairs);
      assert ts == [Uint(pairs[0].0), pairs[0].1] + more;
      PairListStep(sec, pairs[0], more, |pairs|, low);
      PairListInverts(sec, pairs[1..], pairs[0].0 + 1, more, rest);
      assert [pairs[0]] + pairs[1..] == pairs;
    }
  }

  lemma NoPairs(ts: Toks, sec: Section, low: nat)
    ensures WritePairList([]) == [] && ReadPairList(ts, sec, 0, low) == Ok(([], ts))
  {
  }

  lemma PairsHead(sec: Section, pairs: Pairs)
    requires PairsFit(sec, pairs) && pairs != []
    ensures WritePairList(pairs) == [Uint(pairs[0].0), pairs[0].1] + WritePairList(pairs[1..])
    ensures ValueFits(sec, pairs[0].1) && PairsFit(sec, pairs[1..])
    ensures |pairs| > 1 ==> pairs[0].0 + 1 <= pairs[1].0
  {
    hide ValueFits, WritePairList, Ascending;
    AscendingTail(pairs);
    PairsWritten(pairs);
    forall i | 0 <= i < |pairs[1..]| ensures ValueFits(sec, pairs[1..][i].1) {
      assert pairs[1..][i] == pairs[i + 1];
    }
  }

  lemma PairsWritten(pairs: Pairs)
    requires pairs != []
    ensures WritePairList(pairs) == [Uint(pairs[0].0), pairs[0].1] + WritePairList(pairs[1..])
  {
  }

  lemma AscendingTail(pairs: Pairs)
    requires Ascending(pairs) && pairs != []
    ensures Ascending(pairs[1..]) && (|pairs| > 1 ==> pairs[0].0 + 1 <= pairs[1].0)
  {
    forall i, j | 0 <= i < j < |pairs[1..]| ensures pairs[1..][i].0 < pairs[1..][j].0 {
      assert pairs[1..][i] == pairs[i + 1] && pairs[1..][j] == pairs[j + 1];
    }
  }

  lemma PairListStep(sec: Section, pair: (nat, Token), more: Toks, n: nat, low: nat)
    requires n > 0 && low <= pair.0 && ValueFits(sec, pair.1)
    ensures
      ReadPairList([Uint(pair.0), pair.1] + more, sec, n, low)
      == match ReadPairList(more, sec, n - 1, pair.0 + 1)
         case Ok(read) => Ok(([pair] + read.0, read.1))
         case Err(kind) => Err(kind)
  {
    hide ValueFits;
    var ts := [Uint(pair.0), pair.1] + more;
    assert ts[0] == Uint(pair.0) && ts[1..][0] == pair.1 && ts[1..][1..] == more;
  }

  lemma PairsInvert(sec: Section, pairs: Pairs, ts: Toks, rest: Toks)
    requires PairsFit(sec, pairs) && ts == WritePairs(pairs) + rest
    ensures ReadPairs(ts, sec) == Ok((pairs, rest))
  {
    hide EncAll, WritePairList, ReadPairList, PairsFit;
    assert ts[1..] == WritePairList(pairs) + rest;
    RemainingAppend(WritePairList(pairs), rest);
    PairListInverts(sec, pairs, 0, ts[1..], rest);
  }

  // ---- building the index space ----------------------------------------------------

  function LeastId(s: set<Uuid>): (m: Uuid)
    requires s != {}
    ensures m in s && forall u :: u in s ==> m <= u
  {
    LeastExists(s);
    var m :| m in s && forall u :: u in s ==> m <= u;
    m
  }

  lemma LeastExists(s: set<Uuid>)
    requires s != {}
    ensures exists m :: m in s && forall u :: u in s ==> m <= u
  {
    var m := FindLeast(s);
  }

  lemma {:induction false} FindLeast(s: set<Uuid>) returns (m: Uuid)
    requires s != {}
    ensures m in s && forall u :: u in s ==> m <= u
  {
    var x :| x in s;
    m := x;
    if s != {x} {
      var rest := s - {x};
      var least := FindLeast(rest);
      assert forall u :: u in s ==> u == x || u in rest;
      m := if x < least then x else least;
    }
  }

  ghost predicate Rising(us: seq<Uuid>) {
    forall i, j :: 0 <= i < j < |us| ==> us[i] < us[j]
  }

  /** A set of identities in ascending order. */
  function SortIds(s: set<Uuid>): (us: seq<Uuid>)
    ensures Rising(us) && Elems(us) == s
    ensures forall u :: u in us <==> u in s
  {
    if s == {} then []
    else
      var m := LeastId(s);
      [m] + SortIds(s - {m})
  }

  /** An ascending sequence is determined by its elements. */
  lemma {:induction false} RisingUnique(a: seq<Uuid>, b: seq<Uuid>)
    requires Rising(a) && Rising(b) && Elems(a) == Elems(b)
    ensures a == b
  {
    NoElems(a);
    NoElems(b);
    if a == [] {
    } else {
      assert a[0] in Elems(a) && a[0] in b;
      assert b[0] in Elems(b) && b[0] in a;
      RisingTail(a);
      RisingTail(b);
      RisingUnique(a[1..], b[1..]);
      assert a == [a[0]] + a[1..] && b == [b[0]] + b[1..];
    }
  }

  lemma RisingTail(a: seq<Uuid>)
    requires Rising(a) && a != []
    ensures Rising(a[1..]) && Elems(a[1..]) == Elems(a) - {a[0]}
  {
    assert forall u :: u in a <==> u == a[0] || u in a[1..];
  }

  /** The identities a field's value names. */
  function FieldRefs(f: Field, v: Value): seq<Uuid> {
    if f.kind.KRef? && v.Ref? then [v.id]
    else if f.kind.KRefList? && v.Arr? then RefIds(v.items)
    else []
  }

  /** Every identity an element's references name. */
  function ElementRefs(tables: Tables, e: Element): set<Uuid> {
    var fields := FieldsOf(tables, e.ty);
    set key, u | key in e.props.Keys && HasField(fields, key)
      && u in FieldRefs(fields[Ordinal(fields, key)], e.props[key]) :: u
  }

  function DocRefs(tables: Tables, doc: Doc): set<Uuid> {
    set e, u | e in doc && u in ElementRefs(tables, e) :: u
  }

  /** Local indices are positions; the externals are the references outside, ascending. */
  function BuildInterner(ids: seq<Uuid>, refs: set<Uuid>): Interner {
    Interner(map u | u in Elems(ids) :: IndexOf(ids, u), SortIds(refs - Elems(ids)))
  }

  /** An element names an identity in a reference field, or in a list of references. */
  ghost predicate RefersTo(tables: Tables, e: Element, u: Uuid) {
    exists f ::
      && f in FieldsOf(tables, e.ty) && f.name in e.props
      && ((f.kind.KRef? && e.props[f.name] == Ref(u))
          || (f.kind.KRefList? && e.props[f.name].Arr? && Ref(u) in e.props[f.name].items))
  }

  lemma {:induction false} RefIdsAre(items: seq<Value>, u: Uuid)
    ensures u in RefIds(items) <==> Ref(u) in items
  {
    if items != [] {
      RefIdsAre(items[1..], u);
      assert items == [items[0]] + items[1..];
    }
  }

  lemma FieldRefsAre(f: Field, v: Value, u: Uuid)
    ensures
      u in FieldRefs(f, v)
      <==> (f.kind.KRef? && v == Ref(u)) || (f.kind.KRefList? && v.Arr? && Ref(u) in v.items)
  {
    if v.Arr? {
      RefIdsAre(v.items, u);
    }
  }

  lemma ElementRefsAre(tables: Tables, e: Element, u: Uuid)
    requires ValidTables(tables)
    ensures u in ElementRefs(tables, e) <==> RefersTo(tables, e, u)
  {
    hide FieldRefs, Ordinal, FieldNames;
    var fields := FieldsOf(tables, e.ty);
    FieldsOfValid(tables, e.ty);
    if u in ElementRefs(tables, e) {
      var key :| key in e.props && HasField(fields, key) && u in FieldRefs(fields[Ordinal(fields, key)], e.props[key]);
      FieldRefsAre(fields[Ordinal(fields, key)], e.props[key], u);
      assert fields[Ordinal(fields, key)] in fields;
    }
    if RefersTo(tables, e, u) {
      var f :| f in fields && f.name in e.props
        && ((f.kind.KRef? && e.props[f.name] == Ref(u))
            || (f.kind.KRefList? && e.props[f.name].Arr? && Ref(u) in e.props[f.name].items));
      var k :| 0 <= k < |fields| && fields[k] == f;
      OrdinalOfField(fields, k);
      FieldRefsAre(f, e.props[f.name], u);
    }
  }

  /** The externals of a document: exactly the identities its elements name and it does not hold, ascending. */
  lemma ExternalsAre(tables: Tables, doc: Doc)
    requires ValidTables(tables)
    ensures
      var ext := BuildInterner(Ids(doc), DocRefs(tables, doc)).ext;
      && Rising(ext)
      && forall u :: u in ext <==> u !in Ids(doc) && exists e :: e in doc && RefersTo(tables, e, u)
  {
    hide ElementRefs, RefersTo, ValidTables;
    forall e, u | e in doc ensures u in ElementRefs(tables, e) <==> RefersTo(tables, e, u) {
      ElementRefsAre(tables, e, u);
    }
  }

  lemma InternerAgrees(ids: seq<Uuid>, created: seq<Uuid>, refs: set<Uuid>)
    requires NoDup(ids + created)
    ensures Agree(BuildInterner(ids + created, refs), Space(ids, created, BuildInterner(ids + created, refs).ext))
  {
    var n := BuildInterner(ids + created, refs);
    NoDupLength(ids + created);
    assert n.local.Keys == Elems(ids + created);
  }
}
