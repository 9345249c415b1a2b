/** The base index as a sealed artifact: 7-bit varints, written and read back. */
module IndexBytes {
  import opened Wrappers
  import opened Seqs
  import opened Cbor
  import opened Model
  import opened Preorder
  import opened Index

  // ---- varints ---------------------------------------------------------------------

  /** Seven bits a byte, least significant first, the high bit set on all but the last. */
  function Varint(v: nat): (bs: seq<byte>)
    ensures |bs| >= 1
  {
    if v < 128 then [v] else [128 + v % 128] + Varint(v / 128)
  }

  function Pow128(k: nat): (p: nat)
    ensures p > 0
  {
    if k == 0 then 1 else 128 * Pow128(k - 1)
  }

  /** What a byte's seven bits are worth at a scale, in 64 bits. */
  function Piece(b: byte, scale: nat): nat {
    ((b % 128) * scale) % U64_END
  }

  /** The reader has taken `k` bytes, worth `acc`; the tenth byte keeps only the bit that fits in 64. */
  function ReadVarintFrom(b: seq<byte>, k: nat, acc: nat): (r: Result<(nat, seq<byte>)>)
    requires k <= 10
    ensures r.Ok? ==> |r.value.1| < |b|
    decreases 10 - k
  {
    if k == 10 then Err(Malformed)
    else if b == [] then Err(Truncated)
    else
      var v := acc + Piece(b[0], Pow128(k));
      if b[0] < 128 then Ok((v, b[1..])) else ReadVarintFrom(b[1..], k + 1, v)
  }

  /** One byte of the reader's loop. */
  lemma ReadStep(b: seq<byte>, k: nat, acc: nat)
    requires k < 10 && b != []
    ensures
      var v := acc + Piece(b[0], Pow128(k));
      ReadVarintFrom(b, k, acc) == if b[0] < 128 then Ok((v, b[1..])) else ReadVarintFrom(b[1..], k + 1, v)
    ensures Pow128(k + 1) == 128 * Pow128(k)
  {
    hide Piece;
  }

  lemma ReadEnds(b: seq<byte>, k: nat, acc: nat)
    requires k <= 10
    ensures k == 10 ==> ReadVarintFrom(b, k, acc) == Err(Malformed)
    ensures k < 10 && b == [] ==> ReadVarintFrom(b, k, acc) == Err(Truncated)
    ensures Pow128(0) == 1
  {
  }

  function ReadVarint(b: seq<byte>): Result<(nat, seq<byte>)> {
    ReadVarintFrom(b, 0, 0)
  }

  lemma Pow128Values()
    ensures Pow128(0) == 1 && Pow128(1) == 0x80 && Pow128(2) == 0x4000 && Pow128(3) == 0x20_0000
    ensures Pow128(4) == 0x1000_0000 && Pow128(5) == 0x8_0000_0000 && Pow128(6) == 0x400_0000_0000
    ensures Pow128(7) == 0x2_0000_0000_0000 && Pow128(8) == 0x100_0000_0000_0000
    ensures Pow128(9) == 0x8000_0000_0000_0000
  {
  }

  lemma LowBits(v: nat, k: nat)
    requires k < 10 && v * Pow128(k) < U64_END
    ensures ((v % 128) * Pow128(k)) % U64_END == (v % 128) * Pow128(k)
    ensures v * Pow128(k) == (v % 128) * Pow128(k) + (v / 128) * Pow128(k + 1)
    ensures k == 9 ==> v < 2
  {
    Pow128Values();
    var p := Pow128(k);
    assert v == 128 * (v / 128) + v % 128;
    Distribute(v / 128, v % 128, p);
    assert Pow128(k + 1) == 128 * p;
    Monotone(v % 128, v, p);
  }

  lemma Distribute(q: nat, r: nat, p: nat)
    ensures (128 * q + r) * p == r * p + q * (128 * p)
  {
  }

  lemma Monotone(a: nat, b: nat, p: nat)
    requires a <= b
    ensures a * p <= b * p
  {
  }

  lemma {:induction false} VarintFromInverts(v: nat, k: nat, acc: nat, rest: seq<byte>)
    requires k < 10 && v * Pow128(k) < U64_END
    ensures ReadVarintFrom(Varint(v) + rest, k, acc) == Ok((acc + v * Pow128(k), rest))
    decreases 10 - k
  {
    hide Pow128, Piece, ReadVarintFrom, Varint;
    LowBits(v, k);
    VarintOpens(v, rest);
    PieceIs(v, k);
    ReadStep(Varint(v) + rest, k, acc);
    if v >= 128 {
      VarintFromInverts(v / 128, k + 1, acc + (v % 128) * Pow128(k), rest);
    }
  }

  /** The first byte of a varint, and the bytes after it. */
  lemma VarintOpens(v: nat, rest: seq<byte>)
    ensures
      var b := Varint(v) + rest;
      && b[0] % 128 == v % 128 && (b[0] < 128 <==> v < 128)
      && b[1..] == if v < 128 then rest else Varint(v / 128) + rest
  {
    assert (128 + v % 128) % 128 == v % 128;
  }

  lemma PieceIs(v: nat, k: nat)
    requires k < 10 && v * Pow128(k) < U64_END
    ensures forall b: byte :: b % 128 == v % 128 ==> Piece(b, Pow128(k)) == (v % 128) * Pow128(k)
    ensures v < 128 ==> v % 128 == v
  {
    hide Pow128;
    LowBits(v, k);
  }

  /** Reading a varint inverts writing it, for every 64-bit value and whatever follows. */
  lemma VarintInverts(v: nat, rest: seq<byte>)
    requires v < U64_END
    ensures ReadVarint(Varint(v) + rest) == Ok((v, rest))
  {
    Pow128Values();
    VarintFromInverts(v, 0, 0, rest);
  }

  /** The writer's loop. */
  method Uvarint(b: seq<byte>, v: nat) returns (r: seq<byte>)
    ensures r == b + Varint(v)
  {
    var left := v;
    r := b;
    while true
      invariant b + Varint(v) == r + Varint(left)
      decreases left
    {
      var low := left % 128;
      left := left / 128;
      if left == 0 {
        r := r + [low];
        return;
      }
      r := r + [128 + low];
    }
  }

  /** The reader: a position that advances over the artifact's body. */
  class VarReader {
    const b: seq<byte>
    var at: nat

    ghost predicate Valid()
      reads this
    {
      at <= |b|
    }

    constructor (bytes: seq<byte>)
      ensures Valid() && b == bytes && at == 0
    {
      b := bytes;
      at := 0;
    }

    /** One varint. */
    method Next() returns (r: Result<nat>)
      requires Valid()
      modifies this
      ensures Valid() && old(at) <= at
      ensures
        match ReadVarint(b[old(at)..])
        case Ok(v) => r == Ok(v.0) && v.1 == b[at..]
        case Err(k) => r == Err(k)
    {
      hide Piece, ReadVarintFrom, Pow128;
      ReadEnds([], 0, 0);
      ghost var all := ReadVarint(b[at..]);
      var v: nat := 0;
      var scale: nat := 1;
      for k := 0 to 10
        invariant Valid() && old(at) <= at
        invariant scale == Pow128(k) && all == ReadVarintFrom(b[at..], k, v)
      {
        ghost var left := b[at..];
        ReadEnds(left, k, v);
        if at >= |b| {
          return Err(Truncated);
        }
        ReadStep(left, k, v);
        var byte := b[at];
        assert left[0] == byte && left[1..] == b[at + 1..];
        at := at + 1;
        v := v + Piece(byte, scale);
        if byte < 128 {
          return Ok(v);
        }
        scale := 128 * scale;
      }
      ReadEnds(b[at..], 10, v);
      r := Err(Malformed);
    }
  }

  // ---- writing the artifact --------------------------------------------------------

  const INDEX_MAGIC: seq<byte> := [0x53, 0x32, 0x42, 0x49]
  const INDEX_VERSION: byte := 1

  function IdBytes(ids: seq<Uuid>): (bs: seq<byte>)
    ensures |bs| == 16 * |ids|
  {
    if ids == [] then [] else UuidBytes(ids[0]) + IdBytes(ids[1..])
  }

  function NumberBytes(ns: seq<nat>): (bs: seq<byte>)
    ensures |bs| >= |ns|
  {
    if ns == [] then [] else Varint(ns[0]) + NumberBytes(ns[1..])
  }

  function ListBytes(lists: Lists): seq<byte> {
    if lists == [] then [] else Varint(|lists[0]|) + NumberBytes(lists[0]) + ListBytes(lists[1..])
  }

  function Contents(i: BaseIndex): seq<byte> {
    Varint(|i.ids|) + (IdBytes(i.ids) + (NumberBytes(i.types) + (ListBytes(i.kids) + ListBytes(i.rels))))
  }

  /** The artifact's checksum: a hash into identities, otherwise unknown. */
  type Seal = seq<byte> -> Uuid

  function ToBytes(seal: Seal, i: BaseIndex): seq<byte> {
    var b := INDEX_MAGIC + [INDEX_VERSION] + Contents(i);
    b + UuidBytes(seal(b))
  }

  // ---- reading it ------------------------------------------------------------------

  function TakeIds(b: seq<byte>, n: nat): (r: Result<(seq<Uuid>, seq<byte>)>)
    ensures r.Ok? ==> |r.value.0| == n
  {
    if n == 0 then Ok(([], b))
    else if |b| < 16 then Err(Truncated)
    else
      var (ids, rest) :- TakeIds(b[16..], n - 1);
      Ok(([UuidOf(b[..16])] + ids, rest))
  }

  /** `n` varints, each below `bound`. */
  function TakeNumbers(b: seq<byte>, n: nat, bound: nat): (r: Result<(seq<nat>, seq<byte>)>)
    ensures r.Ok? ==> |r.value.0| == n && forall x :: x in r.value.0 ==> x < bound
  {
    if n == 0 then Ok(([], b))
    else
      var (v, after) :- ReadVarint(b);
      if v >= bound then Err(Malformed)
      else
        var (vs, rest) :- TakeNumbers(after, n - 1, bound);
        Ok(([v] + vs, rest))
  }

  /** `n` lists of positions; no list is longer than the artifact. */
  function TakeLists(b: seq<byte>, n: nat, bound: nat, size: nat): (r: Result<(Lists, seq<byte>)>)
    ensures r.Ok? ==> |r.value.0| == n
    decreases n
  {
    if n == 0 then Ok(([], b))
    else
      var (m, after) :- ReadVarint(b);
      if m > size then Err(Malformed)
      else
        var (list, more) :- TakeNumbers(after, m, bound);
        var (lists, rest) :- TakeLists(more, n - 1, bound, size);
        Ok(([list] + lists, rest))
  }

  function Least(a: nat, b: nat): nat {
    if a < b then a else b
  }

  function ReadContents(tables: Tables, b: seq<byte>, size: nat): Result<BaseIndex> {
    var (n, b1) :- ReadVarint(b);
    if n > size / 16 then Err(Malformed)
    else
      var (ids, b2) :- TakeIds(b1, n);
      var (types, b3) :- TakeNumbers(b2, n, Least(|tables|, 0x1_0000));
      var (kids, b4) :- TakeLists(b3, n, Least(n, ADJACENCY_END), size);
      var (rels, b5) :- TakeLists(b4, n, Least(n, ADJACENCY_END), size);
      if b5 != [] then Err(Malformed) else Ok(BaseIndex(ids, types, kids, rels))
  }

  function FromBytes(seal: Seal, tables: Tables, bytes: seq<byte>): Result<BaseIndex> {
    if |bytes| < 21 || bytes[..4] != INDEX_MAGIC then Err(Malformed)
    else if bytes[4] != INDEX_VERSION then Err(UnsupportedVersion)
    else
      var body, sum := bytes[..|bytes| - 16], bytes[|bytes| - 16..];
      if UuidBytes(seal(body)) != sum then Err(Malformed) else ReadContents(tables, body[5..], |body|)
  }

  // ---- the round trip --------------------------------------------------------------

  /** An index whose codes and adjacency the artifact can carry. */
  ghost predicate InRange(tables: Tables, i: BaseIndex) {
    && |i.types| == |i.kids| == |i.rels| == |i.ids| < U64_END
    && (forall t :: t in i.types ==> t < Least(|tables|, 0x1_0000))
    && ListsInRange(i.kids, |i.ids|) && ListsInRange(i.rels, |i.ids|)
  }

  ghost predicate ListsInRange(lists: Lists, n: nat) {
    forall l :: l in lists ==> |l| < U64_END && forall x :: x in l ==> x < Least(n, ADJACENCY_END)
  }

  lemma {:induction false} TakeIdsInverts(ids: seq<Uuid>, rest: seq<byte>)
    ensures TakeIds(IdBytes(ids) + rest, |ids|) == Ok((ids, rest))
  {
    hide UuidBytes, UuidOf;
    if ids == [] {
      assert [] + rest == rest;
    } else {
      var b := IdBytes(ids) + rest;
      UuidOfBytes(ids[0]);
      assert b[..16] == UuidBytes(ids[0]) && b[16..] == IdBytes(ids[1..]) + rest;
      TakeIdsInverts(ids[1..], rest);
      assert [ids[0]] + ids[1..] == ids;
    }
  }

  lemma {:induction false} TakeNumbersInverts(ns: seq<nat>, bound: nat, rest: seq<byte>)
    requires (forall x :: x in ns ==> x < bound) && bound <= U64_END
    ensures TakeNumbers(NumberBytes(ns) + rest, |ns|, bound) == Ok((ns, rest))
  {
    hide ReadVarint, Varint;
    if ns == [] {
      assert [] + rest == rest;
    } else {
      assert ns[0] in ns && forall x :: x in ns[1..] ==> x in ns;
      VarintInverts(ns[0], NumberBytes(ns[1..]) + rest);
      TakeNumbersInverts(ns[1..], bound, rest);
      assert NumberBytes(ns) + rest == Varint(ns[0]) + (NumberBytes(ns[1..]) + rest);
      assert [ns[0]] + ns[1..] == ns;
    }
  }

  lemma TailInRange(lists: Lists, n: nat)
    requires lists != [] && ListsInRange(lists, n)
    ensures lists[0] in lists && ListsInRange(lists[1..], n)
    ensures |lists[0]| < U64_END && forall x :: x in lists[0] ==> x < Least(n, ADJACENCY_END)
    ensures forall l :: l in lists[1..] ==> l in lists
  {
  }

  lemma OneListInverts(l: seq<nat>, n: nat, size: nat, tail: seq<byte>)
    requires |l| < U64_END && |l| <= size && forall x :: x in l ==> x < Least(n, ADJACENCY_END)
    ensures ReadVarint(Varint(|l|) + (NumberBytes(l) + tail)) == Ok((|l|, NumberBytes(l) + tail))
    ensures TakeNumbers(NumberBytes(l) + tail, |l|, Least(n, ADJACENCY_END)) == Ok((l, tail))
  {
    hide ReadVarint, Varint, TakeNumbers, NumberBytes;
    VarintInverts(|l|, NumberBytes(l) + tail);
    TakeNumbersInverts(l, Least(n, ADJACENCY_END), tail);
  }

  lemma {:induction false} TakeListsInverts(lists: Lists, n: nat, size: nat, rest: seq<byte>)
    requires ListsInRange(lists, n) && forall l :: l in lists ==> |l| <= size
    ensures TakeLists(ListBytes(lists) + rest, |lists|, Least(n, ADJACENCY_END), size) == Ok((lists, rest))
  {
    hide ReadVarint, Varint, TakeNumbers, NumberBytes, Least, ListsInRange, TakeLists, ListBytes;
    if lists == [] {
      NoLists(rest, n, size);
    } else {
      TailInRange(lists, n);
      TakeListsInverts(lists[1..], n, size, rest);
      MoreLists(lists, n, size, rest);
      assert [lists[0]] + lists[1..] == lists;
    }
  }

  lemma NoLists(rest: seq<byte>, n: nat, size: nat)
    ensures TakeLists(ListBytes([]) + rest, 0, Least(n, ADJACENCY_END), size) == Ok(([], rest))
  {
    assert [] + rest == rest;
  }

  lemma MoreLists(lists: Lists, n: nat, size: nat, rest: seq<byte>)
    requires lists != [] && ListsInRange(lists, n) && |lists[0]| <= size
    requires
      TakeLists(ListBytes(lists[1..]) + rest, |lists| - 1, Least(n, ADJACENCY_END), size) == Ok((lists[1..], rest))
    ensures
      TakeLists(ListBytes(lists) + rest, |lists|, Least(n, ADJACENCY_END), size) == Ok(([lists[0]] + lists[1..], rest))
  {
    hide ReadVarint, Varint, TakeNumbers, NumberBytes, Least, ListsInRange, TakeLists, ListBytes;
    var l, tail := lists[0], ListBytes(lists[1..]) + rest;
    TailInRange(lists, n);
    OneListInverts(l, n, size, tail);
    ListBytesStep(lists, rest);
    ListsStep(ListBytes(lists) + rest, |l|, NumberBytes(l) + tail, l, tail, lists[1..], rest, |lists| - 1,
      Least(n, ADJACENCY_END), size);
  }

  lemma ListBytesStep(lists: Lists, rest: seq<byte>)
    requires lists != []
    ensures
      ListBytes(lists) + rest
      == Varint(|lists[0]|) + (NumberBytes(lists[0]) + (ListBytes(lists[1..]) + rest))
  {
    hide Varint, NumberBytes;
  }

  lemma ListsStep(
      b: seq<byte>, m: nat, after: seq<byte>, list: seq<nat>, more: seq<byte>, lists: Lists, rest: seq<byte>, n: nat,
      bound: nat, size: nat)
    requires ReadVarint(b) == Ok((m, after)) && m <= size && TakeNumbers(after, m, bound) == Ok((list, more))
    requires TakeLists(more, n, bound, size) == Ok((lists, rest))
    ensures TakeLists(b, n + 1, bound, size) == Ok(([list] + lists, rest))
  {
    hide ReadVarint, TakeNumbers;
  }

  lemma {:induction false} ListSizes(lists: Lists)
    ensures forall l :: l in lists ==> |l| <= |ListBytes(lists)|
  {
    if lists != [] {
      ListSizes(lists[1..]);
    }
  }

  lemma ContentsInvert(tables: Tables, i: BaseIndex, size: nat)
    requires InRange(tables, i) && size >= |Contents(i)|
    ensures ReadContents(tables, Contents(i), size) == Ok(i)
  {
    hide ReadVarint, Varint, TakeIds, TakeNumbers, TakeLists, IdBytes, NumberBytes, ListBytes, ListsInRange;
    var lists := ListBytes(i.kids) + ListBytes(i.rels);
    VarintInverts(|i.ids|, IdBytes(i.ids) + (NumberBytes(i.types) + lists));
    TakeIdsInverts(i.ids, NumberBytes(i.types) + lists);
    TakeNumbersInverts(i.types, Least(|tables|, 0x1_0000), lists);
    ListSizes(i.kids);
    ListSizes(i.rels);
    TakeListsInverts(i.kids, |i.ids|, size, ListBytes(i.rels));
    assert ListBytes(i.rels) == ListBytes(i.rels) + [];
    TakeListsInverts(i.rels, |i.ids|, size, []);
  }

  /** A base index survives its byte form. */
  lemma IndexRoundTrip(seal: Seal, tables: Tables, i: BaseIndex)
    requires InRange(tables, i)
    ensures FromBytes(seal, tables, ToBytes(seal, i)) == Ok(i)
  {
    hide InRange, Contents, ReadContents, UuidBytes;
    var body := INDEX_MAGIC + [INDEX_VERSION] + Contents(i);
    var bytes := ToBytes(seal, i);
    assert bytes[..|bytes| - 16] == body && bytes[|bytes| - 16..] == UuidBytes(seal(body));
    assert body[5..] == Contents(i) && bytes[..4] == INDEX_MAGIC && bytes[4] == INDEX_VERSION;
    ContentsNonempty(i);
    ContentsInvert(tables, i, |body|);
  }

  lemma ContentsNonempty(i: BaseIndex)
    ensures |Contents(i)| >= 1
  {
  }

  lemma {:induction false} TakenInRange(b: seq<byte>, n: nat, total: nat, size: nat)
    requires TakeLists(b, n, Least(total, ADJACENCY_END), size).Ok? && size < U64_END
    ensures ListsInRange(TakeLists(b, n, Least(total, ADJACENCY_END), size).value.0, total)
    decreases n
  {
    hide ReadVarint, TakeNumbers, Least;
    if n > 0 {
      var (m, after) := ReadVarint(b).value;
      var (list, more) := TakeNumbers(after, m, Least(total, ADJACENCY_END)).value;
      TakenInRange(more, n - 1, total, size);
    }
  }

  /** Whatever the reader accepts is an index in range, within the artifact's size. */
  lemma AcceptedInRange(tables: Tables, b: seq<byte>, size: nat)
    requires ReadContents(tables, b, size).Ok? && size < U64_END
    ensures InRange(tables, ReadContents(tables, b, size).value)
  {
    hide ReadVarint, TakeIds, TakeNumbers, TakeLists, ListsInRange;
    var (n, b1) := ReadVarint(b).value;
    var (ids, b2) := TakeIds(b1, n).value;
    var (types, b3) := TakeNumbers(b2, n, Least(|tables|, 0x1_0000)).value;
    var (kids, b4) := TakeLists(b3, n, Least(n, ADJACENCY_END), size).value;
    TakenInRange(b3, n, n, size);
    TakenInRange(b4, n, n, size);
  }

  /** Any artifact the reader accepts, canonically spelled or not, re-seals to the same index. */
  lemma AcceptedReseals(seal: Seal, tables: Tables, bytes: seq<byte>)
    requires |bytes| < U64_END && FromBytes(seal, tables, bytes).Ok?
    ensures
      var i := FromBytes(seal, tables, bytes).value;
      FromBytes(seal, tables, ToBytes(seal, i)) == Ok(i) && InRange(tables, i) && WellFormed(i)
  {
    hide ReadContents, UuidBytes, ToBytes;
    var body := bytes[..|bytes| - 16];
    AcceptedInRange(tables, body[5..], |body|);
    var i := FromBytes(seal, tables, bytes).value;
    IndexRoundTrip(seal, tables, i);
    InRangeFormed(tables, i);
  }

  lemma InRangeFormed(tables: Tables, i: BaseIndex)
    requires InRange(tables, i)
    ensures WellFormed(i)
  {
    forall k | 0 <= k < |i.ids| ensures forall t :: t in i.kids[k] ==> t < |i.ids| {
      assert i.kids[k] in i.kids;
    }
    forall k | 0 <= k < |i.ids| ensures forall t :: t in i.rels[k] ==> t < |i.ids| {
      assert i.rels[k] in i.rels;
    }
  }

  /** An accepted artifact opens with the magic and version and closes with the seal of all before it. */
  lemma SealTaken(seal: Seal, tables: Tables, bytes: seq<byte>)
    requires FromBytes(seal, tables, bytes).Ok?
    ensures |bytes| >= 21 && bytes[..5] == [0x53, 0x32, 0x42, 0x49, 1]
    ensures bytes[|bytes| - 16..] == UuidBytes(seal(bytes[..|bytes| - 16]))
  {
    hide ReadContents, UuidBytes;
    assert bytes[..5] == bytes[..4] + [bytes[4]];
  }

  lemma BytesDiffer(a: Uuid, b: Uuid)
    requires a != b
    ensures UuidBytes(a) != UuidBytes(b)
  {
    hide UuidBytes, UuidOf;
    UuidOfBytes(a);
    UuidOfBytes(b);
  }

  /** Altered content under an accepted artifact's seal is refused, unless it has the same seal. */
  lemma AlteredRefused(seal: Seal, tables: Tables, bytes: seq<byte>, other: seq<byte>)
    requires FromBytes(seal, tables, bytes).Ok? && |bytes| >= 16 && |other| >= 16
    requires other[|other| - 16..] == bytes[|bytes| - 16..]
    requires seal(other[..|other| - 16]) != seal(bytes[..|bytes| - 16])
    ensures FromBytes(seal, tables, other).Err?
  {
    hide ReadContents, UuidBytes;
    SealTaken(seal, tables, bytes);
    BytesDiffer(seal(other[..|other| - 16]), seal(bytes[..|bytes| - 16]));
  }

  lemma {:induction false} VarintMore(b: seq<byte>, more: seq<byte>, k: nat, acc: nat)
    requires k <= 10 && ReadVarintFrom(b, k, acc).Ok?
    ensures
      var read := ReadVarintFrom(b, k, acc).value;
      ReadVarintFrom(b + more, k, acc) == Ok((read.0, read.1 + more))
    decreases 10 - k
  {
    hide Piece, Pow128;
    assert (b + more)[0] == b[0] && (b + more)[1..] == b[1..] + more;
    if b[0] >= 128 {
      VarintMore(b[1..], more, k + 1, acc + Piece(b[0], Pow128(k)));
    }
  }

  lemma {:induction false} IdsMore(b: seq<byte>, more: seq<byte>, n: nat)
    requires TakeIds(b, n).Ok?
    ensures TakeIds(b + more, n) == Ok((TakeIds(b, n).value.0, TakeIds(b, n).value.1 + more))
  {
    hide UuidOf;
    if n > 0 {
      assert (b + more)[..16] == b[..16] && (b + more)[16..] == b[16..] + more;
      IdsMore(b[16..], more, n - 1);
    }
  }

  lemma {:induction false} NumbersMore(b: seq<byte>, more: seq<byte>, n: nat, bound: nat)
    requires TakeNumbers(b, n, bound).Ok?
    ensures
      TakeNumbers(b + more, n, bound) == Ok((TakeNumbers(b, n, bound).value.0, TakeNumbers(b, n, bound).value.1 + more))
    decreases n
  {
    hide ReadVarintFrom;
    if n > 0 {
      VarintMore(b, more, 0, 0);
      NumbersMore(ReadVarint(b).value.1, more, n - 1, bound);
    }
  }

  lemma {:induction false} ListsMore(b: seq<byte>, more: seq<byte>, n: nat, bound: nat, size: nat, wider: nat)
    requires TakeLists(b, n, bound, size).Ok? && size <= wider
    ensures
      var read := TakeLists(b, n, bound, size).value;
      TakeLists(b + more, n, bound, wider) == Ok((read.0, read.1 + more))
    decreases n
  {
    hide ReadVarintFrom, TakeNumbers;
    if n > 0 {
      var (m, after) := ReadVarint(b).value;
      VarintMore(b, more, 0, 0);
      NumbersMore(after, more, m, bound);
      ListsMore(TakeNumbers(after, m, bound).value.1, more, n - 1, bound, size, wider);
    }
  }

  /** Anything after an accepted content makes it refused: what is sealed is one index and nothing else. */
  lemma ContentsEnd(tables: Tables, b: seq<byte>, more: seq<byte>, size: nat, wider: nat)
    requires ReadContents(tables, b, size).Ok? && more != [] && size <= wider
    ensures ReadContents(tables, b + more, wider).Err?
  {
    hide ReadVarintFrom, TakeIds, TakeNumbers, TakeLists;
    var (n, b1) := ReadVarint(b).value;
    var (ids, b2) := TakeIds(b1, n).value;
    var (types, b3) := TakeNumbers(b2, n, Least(|tables|, 0x1_0000)).value;
    var (kids, b4) := TakeLists(b3, n, Least(n, ADJACENCY_END), size).value;
    VarintMore(b, more, 0, 0);
    IdsMore(b1, more, n);
    NumbersMore(b2, more, n, Least(|tables|, 0x1_0000));
    ListsMore(b3, more, n, Least(n, ADJACENCY_END), size, wider);
    ListsMore(b4, more, n, Least(n, ADJACENCY_END), size, wider);
    assert [] + more == more;
  }

  /** The reader is looser than the writer: a value has spellings that only the reader takes. */
  lemma PaddedVarint()
    ensures ReadVarint([0x80, 0x00]) == Ok((0, [])) && Varint(0) == [0]
  {
    var b: seq<byte> := [0x80, 0x00];
    assert b[1..] == [0x00] && b[1..][1..] == [];
    Pow128Values();
  }
}
