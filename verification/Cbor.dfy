/**
  The RFC 8949 subset the codec writes: definite lengths, shortest heads, 64-bit floats.

  A payload is described at two levels. `Token`s are what one call on the writer emits (a
  head with the bytes it announces); `EncAll` spells tokens as bytes and `Lex` reads them
  back. The codec modules work on tokens; what holds of tokens holds of bytes by
  `LexInverts`.
 */
module Cbor {
  import opened Wrappers

  type byte = b: int | 0 <= b < 256

  const U64_END: nat := 0x1_0000_0000_0000_0000

  // ---- big-endian integers ---------------------------------------------------------

  function Pow256(k: nat): (p: nat)
    ensures p > 0
  {
    if k == 0 then 1 else 256 * Pow256(k - 1)
  }

  /** The low `width` bytes of `v`, most significant first. */
  function Be(width: nat, v: nat): (bs: seq<byte>)
    ensures |bs| == width
  {
    if width == 0 then [] else Be(width - 1, v / 256) + [v % 256]
  }

  function FromBe(bs: seq<byte>): nat {
    if bs == [] then 0 else 256 * FromBe(bs[..|bs| - 1]) + bs[|bs| - 1]
  }

  lemma {:induction false} BeInverse(width: nat, v: nat)
    requires v < Pow256(width)
    ensures FromBe(Be(width, v)) == v
  {
    if width > 0 {
      BeInverse(width - 1, v / 256);
      assert Be(width, v)[..width - 1] == Be(width - 1, v / 256);
    }
  }

  lemma {:induction false} BeOf(bs: seq<byte>)
    ensures Be(|bs|, FromBe(bs)) == bs
  {
    if bs != [] {
      BeOf(bs[..|bs| - 1]);
    }
  }

  /** Byte `i` of `width`, counted from the most significant. */
  lemma {:induction false} BeAt(width: nat, v: nat, i: nat)
    requires i < width
    ensures Be(width, v)[i] == (v / Pow256(width - 1 - i)) % 256
  {
    if i < width - 1 {
      BeAt(width - 1, v / 256, i);
      DivideTwice(v, Pow256(width - 2 - i));
    }
  }

  lemma DivideTwice(v: nat, p: nat)
    requires p > 0
    ensures v / 256 / p == v / (256 * p)
  {
    var q, r := v / 256 / p, v / 256 % p;
    var low := v % 256;
    assert v == 256 * (q * p + r) + low;
    Regroups(q, p, r, low);
    QuotientIs(v, 256 * p, q, 256 * r + low);
  }

  lemma Regroups(q: nat, p: nat, r: nat, low: nat)
    ensures 256 * (q * p + r) + low == q * (256 * p) + (256 * r + low)
  {
  }

  lemma QuotientIs(v: nat, d: nat, q: nat, r: nat)
    requires d > 0 && v == q * d + r && r < d
    ensures v / d == q
  {
    assert (v / d - q) * d == r - v % d;
    SmallMultiple(v / d - q, d, r - v % d);
  }

  lemma SmallMultiple(k: int, d: nat, x: int)
    requires k * d == x && x < d && x + d > 0
    ensures k == 0
  {
  }

  lemma Pow256Values()
    ensures Pow256(1) == 0x100 && Pow256(2) == 0x1_0000
    ensures Pow256(4) == 0x1_0000_0000 && Pow256(8) == U64_END
    ensures Pow256(16) == U64_END * U64_END
  {
    assert Pow256(3) == 0x100_0000;
    assert Pow256(5) == 0x100_0000_0000 && Pow256(6) == 0x1_0000_0000_0000;
    assert Pow256(7) == 0x100_0000_0000_0000;
    assert Pow256(9) == 256 * U64_END && Pow256(10) == 0x1_0000 * U64_END;
    assert Pow256(11) == 0x100_0000 * U64_END && Pow256(12) == 0x1_0000_0000 * U64_END;
    assert Pow256(13) == 0x100_0000_0000 * U64_END;
    assert Pow256(14) == 0x1_0000_0000_0000 * U64_END;
    assert Pow256(15) == 0x100_0000_0000_0000 * U64_END;
  }

  // ---- heads -----------------------------------------------------------------------

  datatype Head =
    | HUint(n: nat)
    | HNInt(n: nat)
    | HBstr(len: nat)
    | HTstr(len: nat)
    | HArray(len: nat)
    | HMap(len: nat)
    | HFalse
    | HTrue
    | HNull
    | HF64(bits: nat)

  /** The shortest head for `arg`. */
  function HeadBytes(major: nat, arg: nat): (bs: seq<byte>)
    requires major < 8
    ensures 1 <= |bs| <= 9
  {
    if arg <= 23 then [32 * major + arg]
    else if arg <= 0xFF then [32 * major + 24] + Be(1, arg)
    else if arg <= 0xFFFF then [32 * major + 25] + Be(2, arg)
    else if arg <= 0xFFFF_FFFF then [32 * major + 26] + Be(4, arg)
    else [32 * major + 27] + Be(8, arg)
  }

  /** The argument an additional-information value announces, and the bytes it takes. */
  function ReadArg(ai: nat, b: seq<byte>): (r: Result<(nat, nat)>)
    ensures r.Ok? ==> r.value.1 <= |b| && r.value.0 < U64_END
  {
    if ai <= 23 then Ok((ai, 0))
    else if 24 <= ai <= 27 then
      var width := if ai == 24 then 1 else if ai == 25 then 2 else if ai == 26 then 4 else 8;
      if |b| < width then Err(Truncated)
      else
        FromBeBound(b[..width]);
        Pow256Values();
        Ok((FromBe(b[..width]), width))
    else Err(Malformed)
  }

  lemma {:induction false} FromBeBound(bs: seq<byte>)
    ensures FromBe(bs) < Pow256(|bs|)
  {
    if bs != [] {
      FromBeBound(bs[..|bs| - 1]);
    }
  }

  /** The head of one of the six majors that carry an argument. */
  function MakeHead(major: nat, arg: nat): Head {
    if major == 0 then HUint(arg)
    else if major == 1 then HNInt(arg)
    else if major == 2 then HBstr(arg)
    else if major == 3 then HTstr(arg)
    else if major == 4 then HArray(arg)
    else HMap(arg)
  }

  /** One item head and the bytes it takes. */
  function ReadHead(b: seq<byte>): (r: Result<(Head, nat)>)
    ensures r.Ok? ==> 1 <= r.value.1 <= |b|
  {
    if b == [] then Err(Truncated)
    else
      var major, ai := b[0] / 32, b[0] % 32;
      if major == 6 then Err(Malformed)
      else if major == 7 then
        if ai == 20 then Ok((HFalse, 1))
        else if ai == 21 then Ok((HTrue, 1))
        else if ai == 22 then Ok((HNull, 1))
        else if ai == 27 then
          if |b| < 9 then Err(Truncated) else Ok((HF64(FromBe(b[1..9])), 9))
        else Err(Malformed)
      else
        var (arg, used) :- ReadArg(ai, b[1..]);
        Ok((MakeHead(major, arg), 1 + used))
  }

  /** Reading a head inverts writing it, for all 64-bit arguments and whatever bytes follow. */
  lemma HeadInverts(major: nat, arg: nat, rest: seq<byte>)
    requires major < 6 && arg < U64_END
    ensures
      var b := HeadBytes(major, arg);
      ReadHead(b + rest) == Ok((MakeHead(major, arg), |b|))
  {
    hide Be, ReadArg;
    Pow256Values();
    var b := HeadBytes(major, arg);
    var w, ai := |b| - 1, b[0] - 32 * major;
    assert ai < 32 && b[0] / 32 == major && b[0] % 32 == ai;
    assert (b + rest)[1..] == b[1..] + rest && b[1..] == Be(w, if w == 0 then 0 else arg);
    ArgInverts(w, ai, arg, rest);
  }

  lemma ArgInverts(w: nat, ai: nat, arg: nat, rest: seq<byte>)
    requires (w, ai) in {(1, 24), (2, 25), (4, 26), (8, 27)} || (w == 0 && ai == arg <= 23)
    requires arg < Pow256(w) || w == 0
    ensures ReadArg(ai, Be(w, if w == 0 then 0 else arg) + rest) == Ok((arg, w))
  {
    hide Be, FromBe, Pow256;
    if w > 0 {
      assert (Be(w, arg) + rest)[..w] == Be(w, arg);
      BeInverse(w, arg);
    }
  }

  /** No head that reads as a major and an argument is shorter than the one written. */
  lemma ShortestHead(b: seq<byte>, major: nat, arg: nat, used: nat)
    requires major < 6 && ReadHead(b) == Ok((MakeHead(major, arg), used))
    ensures |HeadBytes(major, arg)| <= used
  {
    hide FromBe, Be;
    Pow256Values();
    var ai := b[0] % 32;
    if 24 <= ai <= 26 {
      FromBeBound(b[1..][..used - 1]);
    }
  }

  // ---- tokens ----------------------------------------------------------------------

  /** What one call on the writer emits. */
  datatype Token =
    | Uint(n: nat)
    | NInt(n: nat)
    | Bstr(bytes: seq<byte>)
    | Tstr(bytes: seq<byte>)
    | Array(len: nat)
    | Map(len: nat)
    | False
    | True
    | NullTok
    | F64(bits: nat)

  /** Every argument is a 64-bit value, as every length and index in memory is. */
  predicate Fits(t: Token) {
    match t
    case Uint(n) => n < U64_END
    case NInt(n) => n < U64_END
    case Bstr(bs) => |bs| < U64_END
    case Tstr(bs) => |bs| < U64_END
    case Array(n) => n < U64_END
    case Map(n) => n < U64_END
    case F64(n) => n < U64_END
    case _ => true
  }

  predicate AllFit(ts: seq<Token>) {
    forall t :: t in ts ==> Fits(t)
  }

  /** The token of a signed 64-bit value: negatives `v` are carried as `-1 - v`. */
  function IntToken(v: int): (t: Token)
    ensures -0x8000_0000_0000_0000 <= v < U64_END ==> Fits(t)
    ensures t.Uint? || t.NInt?
    ensures v == if t.Uint? then t.n else -1 - t.n
  {
    if v >= 0 then Uint(v) else NInt(-1 - v)
  }

  function EncTok(t: Token): (bs: seq<byte>)
    ensures |bs| >= 1
  {
    match t
    case Uint(n) => HeadBytes(0, n)
    case NInt(n) => HeadBytes(1, n)
    case Bstr(bs) => HeadBytes(2, |bs|) + bs
    case Tstr(bs) => HeadBytes(3, |bs|) + bs
    case Array(n) => HeadBytes(4, n)
    case Map(n) => HeadBytes(5, n)
    case False => [0xF4]
    case True => [0xF5]
    case NullTok => [0xF6]
    case F64(n) => [0xFB] + Be(8, n)
  }

  function EncAll(ts: seq<Token>): (bs: seq<byte>)
    ensures |bs| >= |ts|
  {
    if ts == [] then [] else EncTok(ts[0]) + EncAll(ts[1..])
  }

  lemma {:induction false} EncAllAppend(a: seq<Token>, b: seq<Token>)
    ensures EncAll(a + b) == EncAll(a) + EncAll(b)
  {
    hide EncAll, EncTok;
    if a == [] {
      assert a + b == b;
      EncNone();
    } else {
      assert (a + b)[0] == a[0] && (a + b)[1..] == a[1..] + b;
      EncHead(a);
      EncHead(a + b);
      EncAllAppend(a[1..], b);
    }
  }

  lemma EncNone()
    ensures EncAll([]) == []
  {
  }

  lemma EncHead(ts: seq<Token>)
    requires ts != []
    ensures EncAll(ts) == EncTok(ts[0]) + EncAll(ts[1..])
  {
    hide EncTok;
  }

  /** A head with the bytes it announces. */
  function NextTok(b: seq<byte>): (r: Result<(Token, nat)>)
    ensures r.Ok? ==> 1 <= r.value.1 <= |b|
  {
    var (head, used) :- ReadHead(b);
    match head
    case HUint(n) => Ok((Uint(n), used))
    case HNInt(n) => Ok((NInt(n), used))
    case HBstr(n) =>
      if |b| - used < n then Err(Truncated) else Ok((Bstr(b[used..used + n]), used + n))
    case HTstr(n) =>
      if |b| - used < n then Err(Truncated) else Ok((Tstr(b[used..used + n]), used + n))
    case HArray(n) => Ok((Array(n), used))
    case HMap(n) => Ok((Map(n), used))
    case HFalse => Ok((False, used))
    case HTrue => Ok((True, used))
    case HNull => Ok((NullTok, used))
    case HF64(n) => Ok((F64(n), used))
  }

  /** All of `b` as tokens. */
  function Lex(b: seq<byte>): Result<seq<Token>> {
    if b == [] then Ok([])
    else
      var (t, used) :- NextTok(b);
      var ts :- Lex(b[used..]);
      Ok([t] + ts)
  }

  /** Reading a token inverts writing it, for every 64-bit argument and whatever follows. */
  lemma NextTokInverts(t: Token, rest: seq<byte>)
    requires Fits(t)
    ensures NextTok(EncTok(t) + rest) == Ok((t, |EncTok(t)|))
  {
    hide HeadBytes, ReadHead;
    var b := EncTok(t) + rest;
    match t
    case Uint(n) => HeadInverts(0, n, rest);
    case NInt(n) => HeadInverts(1, n, rest);
    case Bstr(bs) => StringInverts(2, bs, rest);
    case Tstr(bs) => StringInverts(3, bs, rest);
    case Array(n) => HeadInverts(4, n, rest);
    case Map(n) => HeadInverts(5, n, rest);
    case F64(n) => ConstantHeadInverts(t, rest);
    case _ => ConstantHeadInverts(t, rest);
  }

  lemma ConstantHeadInverts(t: Token, rest: seq<byte>)
    requires Fits(t) && (t.False? || t.True? || t.NullTok? || t.F64?)
    ensures
      ReadHead(EncTok(t) + rest)
      == Ok((match t case False => HFalse case True => HTrue case NullTok => HNull case F64(n) => HF64(n),
             |EncTok(t)|))
  {
    if t.F64? {
      Pow256Values();
      BeInverse(8, t.bits);
      assert (EncTok(t) + rest)[1..9] == Be(8, t.bits);
    }
  }

  lemma StringInverts(major: nat, bs: seq<byte>, rest: seq<byte>)
    requires 2 <= major <= 3 && |bs| < U64_END
    ensures
      var head := HeadBytes(major, |bs|);
      var b := head + bs + rest;
      && ReadHead(b) == Ok((MakeHead(major, |bs|), |head|))
      && |head| + |bs| <= |b| && b[|head|..|head| + |bs|] == bs
  {
    var head := HeadBytes(major, |bs|);
    HeadInverts(major, |bs|, bs + rest);
    assert head + bs + rest == head + (bs + rest);
  }

  lemma {:induction false} LexInverts(ts: seq<Token>)
    requires AllFit(ts)
    ensures Lex(EncAll(ts)) == Ok(ts)
  {
    if ts != [] {
      var b := EncAll(ts);
      NextTokInverts(ts[0], EncAll(ts[1..]));
      assert b[|EncTok(ts[0])|..] == EncAll(ts[1..]);
      assert AllFit(ts[1..]) by {
        forall t | t in ts[1..] ensures Fits(t) { assert t in ts; }
      }
      LexInverts(ts[1..]);
      assert [ts[0]] + ts[1..] == ts;
    }
  }

  /** Two payloads of the writer with the same bytes are the same tokens. */
  lemma EncAllInjective(a: seq<Token>, b: seq<Token>)
    requires AllFit(a) && AllFit(b) && EncAll(a) == EncAll(b)
    ensures a == b
  {
    LexInverts(a);
    LexInverts(b);
  }

  // ---- skipping --------------------------------------------------------------------

  /** The items still to come after a token, with `pending` wanted before it. */
  function Pending(t: Token, pending: int): int {
    pending - 1 + (match t case Array(n) => n case Map(n) => 2 * n case _ => 0)
  }

  /** The bytes `pending` complete items take, by the counter the reader's skip keeps. */
  function Skip(b: seq<byte>, pending: nat): (r: Result<nat>)
    ensures r.Ok? ==> r.value <= |b|
    decreases |b|
  {
    if pending == 0 then Ok(0)
    else
      var (t, used) :- NextTok(b);
      var more := Pending(t, pending);
      if more >= U64_END then Err(Malformed)
      else
        Plus(used, Skip(b[used..], more))
  }

  function Plus(used: nat, r: Result<nat>): Result<nat> {
    match r case Ok(n) => Ok(used + n) case Err(k) => Err(k)
  }

  /** A complete item: what the writer emits as one value. `Dict` alternates keys and values. */
  datatype Item = Leaf(t: Token) | List(items: seq<Item>) | Dict(kvs: seq<Item>)

  predicate ValidItem(i: Item) {
    match i
    case Leaf(t) => !t.Array? && !t.Map?
    case List(items) => forall x :: x in items ==> ValidItem(x)
    case Dict(kvs) => |kvs| % 2 == 0 && forall x :: x in kvs ==> ValidItem(x)
  }

  function ItemTokens(i: Item): (ts: seq<Token>)
    ensures |ts| >= 1
    decreases i, 0
  {
    match i
    case Leaf(t) => [t]
    case List(items) => [Array(|items|)] + ItemsTokens(items)
    case Dict(kvs) => [Map(|kvs| / 2)] + ItemsTokens(kvs)
  }

  function ItemsTokens(items: seq<Item>): (ts: seq<Token>)
    ensures |ts| >= |items|
    decreases items, 1
  {
    if items == [] then [] else ItemTokens(items[0]) + ItemsTokens(items[1..])
  }

  lemma {:induction false} ItemsTokensAppend(a: seq<Item>, b: seq<Item>)
    ensures ItemsTokens(a + b) == ItemsTokens(a) + ItemsTokens(b)
  {
    if a == [] {
      assert a + b == b;
    } else {
      assert (a + b)[0] == a[0] && (a + b)[1..] == a[1..] + b;
      ItemsTokensAppend(a[1..], b);
    }
  }

  function Inner(i: Item): seq<Item> {
    match i case Leaf(_) => [] case List(xs) => xs case Dict(kvs) => kvs
  }

  lemma OpenItem(items: seq<Item>)
    requires items != [] && ValidItem(items[0])
    ensures
      var t := ItemTokens(items[0])[0];
      var more := Inner(items[0]) + items[1..];
      && ItemsTokens(items) == [t] + ItemsTokens(more)
      && Pending(t, |items|) == |more|
  {
    hide ItemTokens, ItemsTokens, Inner, Pending;
    ItemsHead(items);
    ItemHead(items[0], |items|);
    var t := ItemTokens(items[0])[0];
    ItemsTokensAppend(Inner(items[0]), items[1..]);
    assert [t] + (ItemsTokens(Inner(items[0])) + ItemsTokens(items[1..]))
      == ([t] + ItemsTokens(Inner(items[0]))) + ItemsTokens(items[1..]);
  }

  lemma ItemsHead(items: seq<Item>)
    requires items != []
    ensures ItemsTokens(items) == ItemTokens(items[0]) + ItemsTokens(items[1..])
  {
  }

  lemma ItemHead(x: Item, pending: nat)
    requires ValidItem(x)
    ensures ItemTokens(x) == [ItemTokens(x)[0]] + ItemsTokens(Inner(x))
    ensures Pending(ItemTokens(x)[0], pending) == pending - 1 + |Inner(x)|
  {
  }

  lemma SkipStep(b: seq<byte>, t: Token, used: nat, pending: nat)
    requires NextTok(b) == Ok((t, used)) && pending > 0 && 0 <= Pending(t, pending) < U64_END
    ensures used <= |b| && Skip(b, pending) == Plus(used, Skip(b[used..], Pending(t, pending)))
  {
  }

  lemma SkipWritten(enc: seq<byte>, t: Token, body: seq<byte>, pending: nat)
    requires NextTok(enc + body) == Ok((t, |enc|))
    requires pending > 0 && 0 <= Pending(t, pending) < U64_END
    ensures Skip(enc + body, pending) == Plus(|enc|, Skip(body, Pending(t, pending)))
  {
    hide NextTok;
    SkipStep(enc + body, t, |enc|, pending);
    assert (enc + body)[|enc|..] == body;
  }

  /** The counter consumes exactly the items' bytes, nested containers included, whatever follows. */
  lemma {:induction false} SkipConsumesItems(items: seq<Item>, rest: seq<byte>)
    requires forall x :: x in items ==> ValidItem(x)
    requires AllFit(ItemsTokens(items)) && |EncAll(ItemsTokens(items))| < U64_END
    ensures
      var bs := EncAll(ItemsTokens(items));
      Skip(bs + rest, |items|) == Ok(|bs|)
    decreases |EncAll(ItemsTokens(items))|
  {
    hide NextTok, EncTok;
    if items == [] {
      assert [] + rest == rest;
    } else {
      var t, more, after := FirstToken(items);
      SkipConsumesItems(more, rest);
      NextTokInverts(t, EncAll(after) + rest);
      SkipWritten(EncTok(t), t, EncAll(after) + rest, |items|);
      assert EncAll(ItemsTokens(items)) + rest == EncTok(t) + (EncAll(after) + rest);
    }
  }

  /** A head is read from its own bytes, whatever follows them. */
  lemma HeadWithin(b: seq<byte>, m: nat)
    requires ReadHead(b).Ok? && ReadHead(b).value.1 <= m <= |b|
    ensures ReadHead(b[..m]) == ReadHead(b)
  {
    hide FromBe;
    assert b[..m][0] == b[0] && b[..m][1..] == b[1..][..m - 1];
    var major, ai := b[0] / 32, b[0] % 32;
    if major == 7 && ai == 27 {
      assert b[..m][1..9] == b[1..9];
    } else if major < 6 && 24 <= ai <= 27 {
      var width := if ai == 24 then 1 else if ai == 25 then 2 else if ai == 26 then 4 else 8;
      assert b[1..][..m - 1][..width] == b[1..][..width];
    }
  }

  lemma TokenWithin(b: seq<byte>, m: nat)
    requires NextTok(b).Ok? && NextTok(b).value.1 <= m <= |b|
    ensures NextTok(b[..m]) == NextTok(b)
    ensures b[..m][NextTok(b).value.1..] == b[NextTok(b).value.1..][..m - NextTok(b).value.1]
  {
    hide ReadHead;
    HeadWithin(b, m);
    var (head, used) := ReadHead(b).value;
    if head.HBstr? || head.HTstr? {
      assert b[..m][used..used + head.len] == b[used..used + head.len];
    }
  }

  /** The items a first token opens, out of those that follow it. */
  lemma CloseItem(t: Token, pending: nat, more: seq<Item>) returns (items: seq<Item>)
    requires pending > 0 && |more| == Pending(t, pending) && forall x :: x in more ==> ValidItem(x)
    ensures |items| == pending && forall x :: x in items ==> ValidItem(x)
    ensures ItemsTokens(items) == [t] + ItemsTokens(more)
  {
    hide ItemsTokens, ItemTokens;
    var n := |more| - (pending - 1);
    var head := if t.Array? then List(more[..n]) else if t.Map? then Dict(more[..n]) else Leaf(t);
    items := [head] + more[n..];
    assert more == more[..n] + more[n..];
    HeadValid(t, more[..n]);
    ItemsTokensAppend(more[..n], more[n..]);
    ItemsHead(items);
    assert items[1..] == more[n..];
    HeadTokens(t, more[..n]);
    assert [t] + ItemsTokens(more[..n]) + ItemsTokens(more[n..])
           == [t] + (ItemsTokens(more[..n]) + ItemsTokens(more[n..]));
  }

  lemma HeadValid(t: Token, inner: seq<Item>)
    requires |inner| == Pending(t, 1) && forall x :: x in inner ==> ValidItem(x)
    ensures ValidItem(if t.Array? then List(inner) else if t.Map? then Dict(inner) else Leaf(t))
  {
  }

  lemma HeadTokens(t: Token, inner: seq<Item>)
    requires |inner| == Pending(t, 1)
    ensures
      ItemTokens(if t.Array? then List(inner) else if t.Map? then Dict(inner) else Leaf(t)) == [t] + ItemsTokens(inner)
  {
    if !t.Array? && !t.Map? {
      assert inner == [] && ItemsTokens(inner) == [];
      assert [t] + [] == [t];
    }
  }

  /** Whatever is skipped, on any bytes, is that many complete items and nothing else. */
  lemma {:induction false} SkippedIsItems(b: seq<byte>, pending: nat) returns (items: seq<Item>)
    requires Skip(b, pending).Ok?
    ensures |items| == pending && forall x :: x in items ==> ValidItem(x)
    ensures Lex(b[..Skip(b, pending).value]) == Ok(ItemsTokens(items))
    decreases |b|
  {
    hide NextTok, ItemTokens, Pending;
    if pending == 0 {
      items := [];
      assert b[..0] == [];
    } else {
      var (t, used) := NextTok(b).value;
      var more := Pending(t, pending);
      PendingNat(t, pending);
      var rest := SkippedIsItems(b[used..], more);
      var m := Skip(b, pending).value;
      TokenWithin(b, m);
      items := CloseItem(t, pending, rest);
    }
  }

  lemma PendingNat(t: Token, pending: nat)
    requires pending > 0
    ensures Pending(t, pending) >= 0
  {
  }

  lemma FirstToken(items: seq<Item>) returns (t: Token, more: seq<Item>, after: seq<Token>)
    requires items != [] && forall x :: x in items ==> ValidItem(x)
    requires AllFit(ItemsTokens(items))
    ensures (forall x :: x in more ==> ValidItem(x)) && Pending(t, |items|) == |more|
    ensures after == ItemsTokens(more) && Fits(t) && AllFit(after)
    ensures EncAll(ItemsTokens(items)) == EncTok(t) + EncAll(after)
  {
    t, more := ItemTokens(items[0])[0], Inner(items[0]) + items[1..];
    OpenItem(items);
    after := ItemsTokens(more);
    var ts := ItemsTokens(items);
    assert ts[0] == t && ts[1..] == after;
    forall x | x in after ensures Fits(x) { assert x in ts; }
  }

  // ---- the writer and the reader ---------------------------------------------------

  class Writer {
    var buf: seq<byte>

    constructor ()
      ensures buf == []
    {
      buf := [];
    }

    method Raw(bytes: seq<byte>)
      modifies this
      ensures buf == old(buf) + bytes
    {
      buf := buf + bytes;
    }

    method WriteHead(major: nat, arg: nat)
      requires major < 8 && arg < U64_END
      modifies this
      ensures buf == old(buf) + HeadBytes(major, arg)
    {
      if arg <= 23 {
        buf := buf + [32 * major + arg];
      } else if arg <= 0xFF {
        buf := buf + [32 * major + 24];
        buf := buf + Be(1, arg);
      } else if arg <= 0xFFFF {
        buf := buf + [32 * major + 25];
        buf := buf + Be(2, arg);
      } else if arg <= 0xFFFF_FFFF {
        buf := buf + [32 * major + 26];
        buf := buf + Be(4, arg);
      } else {
        buf := buf + [32 * major + 27];
        buf := buf + Be(8, arg);
      }
    }

    /** Any signed 64-bit value; a negative is complemented in 64 bits. */
    method Int(v: int)
      requires -0x8000_0000_0000_0000 <= v < 0x8000_0000_0000_0000
      modifies this
      ensures buf == old(buf) + EncTok(IntToken(v))
    {
      if v >= 0 {
        WriteHead(0, v);
      } else {
        WriteHead(1, U64_END - 1 - (U64_END + v));
      }
    }
  }

  class Reader {
    const buf: seq<byte>
    var pos: nat

    ghost predicate Valid()
      reads this
    {
      pos <= |buf|
    }

    constructor (b: seq<byte>)
      ensures Valid() && buf == b && pos == 0
    {
      buf := b;
      pos := 0;
    }

    method Take(n: nat) returns (r: Result<seq<byte>>)
      requires Valid()
      modifies this
      ensures Valid()
      ensures r.Ok? <==> old(pos) + n <= |buf|
      ensures r.Ok? ==> pos == old(pos) + n && r.value == buf[old(pos)..pos]
      ensures r.Err? ==> pos == old(pos) && r.kind == Truncated
    {
      if pos + n > |buf| {
        return Err(Truncated);
      }
      r := Ok(buf[pos..pos + n]);
      pos := pos + n;
    }

    method Arg(ai: nat) returns (r: Result<nat>)
      requires Valid()
      modifies this
      ensures Valid() && old(pos) <= pos
      ensures
        match ReadArg(ai, buf[old(pos)..])
        case Ok(v) => r == Ok(v.0) && pos == old(pos) + v.1
        case Err(k) => r == Err(k)
    {
      if ai <= 23 {
        return Ok(ai);
      } else if ai <= 27 {
        var width := if ai == 24 then 1 else if ai == 25 then 2 else if ai == 26 then 4 else 8;
        ghost var left := buf[pos..];
        var bs := Take(width);
        if bs.Err? {
          return Err(bs.kind);
        }
        assert left[..width] == bs.value;
        return Ok(FromBe(bs.value));
      }
      r := Err(Malformed);
    }

    method NextHead() returns (r: Result<Head>)
      requires Valid()
      modifies this
      ensures Valid() && old(pos) <= pos
      ensures
        match ReadHead(buf[old(pos)..])
        case Ok(v) => r == Ok(v.0) && pos == old(pos) + v.1
        case Err(k) => r == Err(k)
    {
      ghost var left := buf[pos..];
      var b := Take(1);
      if b.Err? {
        return Err(b.kind);
      }
      assert left[0] == b.value[0] && left[1..] == buf[pos..];
      var major, ai := b.value[0] / 32, b.value[0] % 32;
      if major == 6 {
        return Err(Malformed);
      } else if major == 7 {
        if ai == 20 {
          return Ok(HFalse);
        } else if ai == 21 {
          return Ok(HTrue);
        } else if ai == 22 {
          return Ok(HNull);
        } else if ai == 27 {
          var bits := Take(8);
          if bits.Err? {
            return Err(bits.kind);
          }
          assert left[1..9] == bits.value;
          return Ok(HF64(FromBe(bits.value)));
        }
        return Err(Malformed);
      }
      var arg := Arg(ai);
      if arg.Err? {
        return Err(arg.kind);
      }
      r := Ok(MakeHead(major, arg.value));
    }

    /** One step of the skip: the head, the bytes it announces, and the items now pending. */
    method SkipToken(pending: nat) returns (r: Result<nat>)
      requires Valid() && pending > 0
      modifies this
      ensures Valid() && old(pos) <= pos
      ensures
        match NextTok(buf[old(pos)..])
        case Ok(v) =>
          && (r.Ok? ==> pos == old(pos) + v.1 && r.value == Pending(v.0, pending) < U64_END)
          && (r.Err? ==> r.kind == Malformed && Pending(v.0, pending) >= U64_END)
        case Err(k) => r == Err(k)
    {
      hide ReadHead;
      var h := NextHead();
      if h.Err? {
        return Err(h.kind);
      }
      var more: nat := pending - 1;
      match h.value {
        case HBstr(n) =>
          var body := Take(n);
          if body.Err? {
            return Err(body.kind);
          }
        case HTstr(n) =>
          var body := Take(n);
          if body.Err? {
            return Err(body.kind);
          }
        case HArray(n) =>
          more := more + n;
        case HMap(n) =>
          more := more + n;
          if more >= U64_END {
            return Err(Malformed);
          }
          more := more + n;
        case _ =>
      }
      if more >= U64_END {
        return Err(Malformed);
      }
      r := Ok(more);
    }

    /** Skip `count` complete items, containers included, with a pending counter. */
    method SkipItems(count: nat) returns (r: Result<bool>)
      requires Valid() && count < U64_END
      modifies this
      ensures Valid()
      ensures
        match Skip(buf[old(pos)..], count)
        case Ok(n) => r.Ok? && pos == old(pos) + n
        case Err(k) => r == Err(k)
    {
      hide NextTok;
      var pending := count;
      ghost var all := Skip(buf[pos..], count);
      while pending > 0
        invariant Valid() && old(pos) <= pos
        invariant all == Plus(pos - old(pos), Skip(buf[pos..], pending))
        decreases |buf| - pos
      {
        ghost var left, was := buf[pos..], pos;
        var more := SkipToken(pending);
        if more.Err? {
          return Err(more.kind);
        }
        assert left[pos - was..] == buf[pos..];
        pending := more.value;
      }
      r := Ok(true);
    }
  }
}
