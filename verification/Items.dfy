/**
  Records and patches as complete items, so that a reader that does not interpret them can
  step over them: on tokens by `TakeItems`, on bytes by the pending-counter skip.
 */
module Items {
  import opened Wrappers
  import opened Seqs
  import opened Cbor
  import opened Model
  import opened Values
  import opened Records
  import opened Patch
  import opened Transcode

  // ---- stepping over items ---------------------------------------------------------

  lemma TakeStep(t: Token, rest: Toks, pending: nat, taken: Toks, after: Toks)
    requires 0 < pending && 0 <= Pending(t, pending) < U64_END
    requires TakeItems(rest, Pending(t, pending)) == Ok((taken, after))
    ensures TakeItems([t] + rest, pending) == Ok(([t] + taken, after))
  {
    assert ([t] + rest)[1..] == rest;
  }

  /** Stepping over items takes exactly their tokens, nested containers included, whatever follows. */
  lemma {:induction false} TakesItems(items: seq<Item>, rest: Toks)
    requires (forall x :: x in items ==> ValidItem(x)) && |ItemsTokens(items)| < U64_END
    ensures TakeItems(ItemsTokens(items) + rest, |items|) == Ok((ItemsTokens(items), rest))
    decreases |ItemsTokens(items)|
  {
    hide TakeItems;
    if items == [] {
      NothingTaken(rest);
    } else {
      var t, more := ItemTokens(items[0])[0], Inner(items[0]) + items[1..];
      OpenItem(items);
      var after := ItemsTokens(more);
      TakesItems(more, rest);
      TakeStep(t, after + rest, |items|, after, rest);
      assert ItemsTokens(items) + rest == [t] + (after + rest);
    }
  }

  lemma NothingTaken(rest: Toks)
    ensures TakeItems([] + rest, 0) == Ok(([], rest))
  {
    assert [] + rest == rest;
  }

  /** The byte skip takes exactly the bytes of the tokens stepped over. */
  lemma {:induction false} TakenIsSkipped(ts: Toks, pending: nat)
    requires AllFit(ts) && TakeItems(ts, pending).Ok?
    ensures Skip(EncAll(ts), pending) == Ok(|EncAll(TakeItems(ts, pending).value.0)|)
    decreases |ts|
  {
    hide NextTok, EncTok, EncAll, Skip, TakeItems, Pending;
    if pending == 0 {
      NoneSkipped(ts);
    } else {
      TakesHead(ts, pending);
      var t, rest := ts[0], ts[1..];
      var taken := TakeItems(rest, Pending(t, pending)).value.0;
      assert t in ts && forall x :: x in rest ==> x in ts;
      TakenIsSkipped(rest, Pending(t, pending));
      NextTokInverts(t, EncAll(rest));
      SkipWritten(EncTok(t), t, EncAll(rest), pending);
      EncHead(ts);
      EncHead([t] + taken);
      assert ([t] + taken)[1..] == taken;
    }
  }

  lemma NoneSkipped(ts: Toks)
    ensures TakeItems(ts, 0) == Ok(([], ts)) && Skip(EncAll(ts), 0) == Ok(0) && EncAll([]) == []
  {
  }

  lemma TakesHead(ts: Toks, pending: nat)
    requires pending > 0 && TakeItems(ts, pending).Ok?
    ensures ts != [] && 0 <= Pending(ts[0], pending) < U64_END && TakeItems(ts[1..], Pending(ts[0], pending)).Ok?
    ensures TakeItems(ts, pending).value.0 == [ts[0]] + TakeItems(ts[1..], Pending(ts[0], pending)).value.0
  {
  }

  // ---- values ----------------------------------------------------------------------

  predicate IsLeaf(t: Token) {
    !t.Array? && !t.Map?
  }

  function Leaves(ts: Toks): (items: seq<Item>)
    ensures |items| == |ts|
  {
    if ts == [] then [] else [Leaf(ts[0])] + Leaves(ts[1..])
  }

  lemma LeafItem(t: Token)
    requires IsLeaf(t)
    ensures ItemTokens(Leaf(t)) == [t] && ValidItem(Leaf(t))
  {
  }

  lemma NoLeaves()
    ensures Leaves([]) == [] && ItemsTokens([]) == []
  {
  }

  lemma LeavesHead(ts: Toks)
    requires ts != []
    ensures Leaves(ts) == [Leaf(ts[0])] + Leaves(ts[1..]) && Leaves(ts)[1..] == Leaves(ts[1..])
  {
  }

  lemma {:induction false} LeavesAre(ts: Toks)
    requires forall t :: t in ts ==> IsLeaf(t)
    ensures ItemsTokens(Leaves(ts)) == ts && forall x :: x in Leaves(ts) ==> ValidItem(x)
  {
    hide ItemTokens, ItemsTokens, ValidItem, IsLeaf;
    if ts == [] {
      NoLeaves();
    } else {
      assert ts[0] in ts && forall t :: t in ts[1..] ==> t in ts;
      LeavesAre(ts[1..]);
      LeafItem(ts[0]);
      LeavesHead(ts);
      ItemsHead(Leaves(ts));
      forall x | x in Leaves(ts) ensures ValidItem(x) {
        assert x == Leaf(ts[0]) || x in Leaves(ts[1..]);
      }
    }
  }

  /** A written value's tokens as one item. */
  function ValueItem(ts: Toks): Item
    requires ts != []
  {
    if ts[0].Array? then List(Leaves(ts[1..])) else Leaf(ts[0])
  }

  lemma {:induction false} RefsAreLeaves(sp: Spelling, items: seq<Value>)
    requires WriteRefs(sp, items).Ok?
    ensures forall t :: t in WriteRefs(sp, items).value ==> IsLeaf(t)
  {
    if items != [] {
      RefsAreLeaves(sp, items[1..]);
    }
  }

  lemma {:induction false} TextsAreLeaves(items: seq<Value>)
    requires WriteTexts(items).Ok?
    ensures forall t :: t in WriteTexts(items).value ==> IsLeaf(t)
  {
    if items != [] {
      TextsAreLeaves(items[1..]);
    }
  }

  lemma ListIsItem(n: nat, body: Toks)
    requires n == |body| && forall t :: t in body ==> IsLeaf(t)
    ensures
      var item := ValueItem([Array(n)] + body);
      ItemTokens(item) == [Array(n)] + body && ValidItem(item)
  {
    assert ([Array(n)] + body)[1..] == body;
    LeavesAre(body);
  }

  /** Whatever is written for a value is one complete item. */
  lemma ValueIsItem(sp: Spelling, f: Field, v: Value)
    requires WriteValue(sp, f, v).Ok?
    ensures
      var ts := WriteValue(sp, f, v).value;
      ItemTokens(ValueItem(ts)) == ts && ValidItem(ValueItem(ts))
  {
    hide WriteTexts, WriteRefs, WriteRef, ValidItem, ItemTokens;
    if v.Arr? {
      if f.kind.KRefList? {
        RefsAreLeaves(sp, v.items);
        ListIsItem(|v.items|, WriteRefs(sp, v.items).value);
      } else {
        TextsAreLeaves(v.items);
        ListIsItem(|v.items|, WriteTexts(v.items).value);
      }
    } else {
      ScalarIsItem(sp, f, v);
    }
  }

  lemma ScalarIsItem(sp: Spelling, f: Field, v: Value)
    requires WriteValue(sp, f, v).Ok? && !v.Arr?
    ensures
      var ts := WriteValue(sp, f, v).value;
      ItemTokens(ValueItem(ts)) == ts && ValidItem(ValueItem(ts))
  {
    hide WriteTexts, WriteRefs, IndexIn, UuidBytes;
    var ts := WriteValue(sp, f, v).value;
    assert ts == [ts[0]];
  }

  // ---- records ---------------------------------------------------------------------

  /** Tokens that are `n` complete items. */
  ghost predicate AreItems(ts: Toks, items: seq<Item>, n: nat) {
    ItemsTokens(items) == ts && |items| == n && forall x :: x in items ==> ValidItem(x)
  }

  lemma ItemsJoin(a: Toks, xs: seq<Item>, j: nat, b: Toks, ys: seq<Item>, k: nat)
    requires AreItems(a, xs, j) && AreItems(b, ys, k)
    ensures AreItems(a + b, xs + ys, j + k)
  {
    hide ValidItem, ItemTokens;
    ItemsTokensAppend(xs, ys);
  }

  lemma OneItem(ts: Toks, x: Item)
    requires ItemTokens(x) == ts && ValidItem(x)
    ensures AreItems(ts, [x], 1)
  {
    hide ValidItem, ItemTokens;
    var xs := [x];
    assert xs[0] == x && xs[1..] == [];
    assert ItemsTokens(xs) == ItemTokens(xs[0]) + ItemsTokens(xs[1..]);
    assert ts + [] == ts;
  }

  /** The entries of a record: a key and a value each. */
  lemma {:induction false} EntriesAreItems(sp: Spelling, fields: seq<Field>, e: Element, d: Derivation, k: nat)
    returns (items: seq<Item>)
    requires k <= |fields| && WriteEntries(sp, fields, e, d, k).Ok?
    ensures AreItems(WriteEntries(sp, fields, e, d, k).value, items, 2 * CountEntries(fields, e, d, k))
    decreases |fields| - k
  {
    hide Hold, WriteValue, AreItems;
    if k == |fields| {
      items := [];
      NoItems();
    } else {
      var rest := EntriesAreItems(sp, fields, e, d, k + 1);
      var h := Hold(fields[k], e, d);
      var tail := WriteEntries(sp, fields, e, d, k + 1).value;
      if h.Entry? {
        var body := WriteValue(sp, fields[k], h.v).value;
        ValueIsItem(sp, fields[k], h.v);
        var pair := KeyedItem(k, body, ValueItem(body));
        ItemsJoin([Uint(k)] + body, pair, 2, tail, rest, 2 * CountEntries(fields, e, d, k + 1));
        items := pair + rest;
      } else {
        assert [] + tail == tail;
        items := rest;
      }
    }
  }

  lemma NoItems()
    ensures AreItems([], [], 0)
  {
  }

  lemma KeyedItem(k: nat, body: Toks, x: Item) returns (items: seq<Item>)
    requires ItemTokens(x) == body && ValidItem(x)
    ensures AreItems([Uint(k)] + body, items, 2)
  {
    hide AreItems;
    LeafItem(Uint(k));
    OneItem([Uint(k)], Leaf(Uint(k)));
    OneItem(body, x);
    ItemsJoin([Uint(k)], [Leaf(Uint(k))], 1, body, [x], 1);
    items := [Leaf(Uint(k))] + [x];
  }

  lemma DictItem(kvs: seq<Item>, n: nat, ts: Toks)
    requires AreItems(ts, kvs, 2 * n)
    ensures ItemTokens(Dict(kvs)) == [Map(n)] + ts && ValidItem(Dict(kvs))
  {
  }

  /** A record after its head: type code, presence bits and the map of entries. */
  lemma BodyIsItems(tables: Tables, sp: Spelling, e: Element, d: Derivation) returns (items: seq<Item>)
    requires WriteElement(tables, sp, e, d).Ok?
    ensures WriteElement(tables, sp, e, d).value[0] == Array(3)
    ensures AreItems(WriteElement(tables, sp, e, d).value[1..], items, 3)
  {
    hide WriteEntries, CountEntries, PresenceBits, Pack, AreItems, WriteElement, TypeCode;
    var fields := FieldsOf(tables, e.ty);
    RecordLayout(tables, sp, e, d);
    var kvs := EntriesAreItems(sp, fields, e, d, 0);
    var n, entries := CountEntries(fields, e, d, 0), WriteEntries(sp, fields, e, d, 0).value;
    var code, word := Uint(TypeCode(tables, e.ty)), Uint(Pack(PresenceBits(fields, e, d)));
    DictItem(kvs, n, entries);
    LeafItem(code);
    LeafItem(word);
    OneItem([code], Leaf(code));
    OneItem([word], Leaf(word));
    OneItem([Map(n)] + entries, Dict(kvs));
    ItemsJoin([code], [Leaf(code)], 1, [word], [Leaf(word)], 1);
    ItemsJoin([code] + [word], [Leaf(code)] + [Leaf(word)], 2, [Map(n)] + entries, [Dict(kvs)], 1);
    items := [Leaf(code)] + [Leaf(word)] + [Dict(kvs)];
    assert WriteElement(tables, sp, e, d).value[1..] == [code] + [word] + ([Map(n)] + entries);
  }

  // ---- patches ---------------------------------------------------------------------

  lemma {:induction false} ItemsAreLeaves(sp: Spelling, f: Field, items: seq<Value>)
    requires WriteItems(sp, f, items).Ok?
    ensures |WriteItems(sp, f, items).value| == |items| && forall t :: t in WriteItems(sp, f, items).value ==> IsLeaf(t)
  {
    if f.kind.KStrList? {
      TextsAreLeaves(items);
    } else {
      RefsAreLeaves(sp, items);
    }
  }

  /** An operand after its opcode is one item. */
  lemma OperandIsItem(sp: Spelling, f: Field, op: FieldOp) returns (x: Item)
    requires WriteOp(sp, f, op).Ok?
    ensures ItemTokens(x) == WriteOp(sp, f, op).value[1..] && ValidItem(x) && IsLeaf(WriteOp(sp, f, op).value[0])
  {
    hide WriteValue, WriteItems, ItemTokens, ValidItem;
    match op
    case Set(v) =>
      ValueIsItem(sp, f, v);
      x := ValueItem(WriteValue(sp, f, v).value);
      assert WriteOp(sp, f, op).value[1..] == WriteValue(sp, f, v).value;
    case Unset =>
      x := Leaf(NullTok);
      LeafItem(NullTok);
      assert WriteOp(sp, f, op).value[1..] == [NullTok];
    case Splice(at, del, items) =>
      var body := WriteItems(sp, f, items).value;
      ItemsAreLeaves(sp, f, items);
      ListIsItem(|items|, body);
      x := SpliceItem(at, del, |items|, body);
      assert WriteOp(sp, f, op).value[1..] == [Array(3), Uint(at), Uint(del)] + ([Array(|items|)] + body);
  }

  lemma ListItem(items: seq<Item>)
    ensures ItemTokens(List(items)) == [Array(|items|)] + ItemsTokens(items)
    ensures (forall x :: x in items ==> ValidItem(x)) ==> ValidItem(List(items))
  {
  }

  lemma ItemsThree(a: Item, b: Item, c: Item)
    ensures ItemsTokens([a, b, c]) == ItemTokens(a) + (ItemTokens(b) + ItemTokens(c))
  {
    hide ItemTokens;
    var items := [a, b, c];
    assert items[1..] == [b, c] && [b, c][1..] == [c] && [c][1..] == [];
    assert ItemsTokens([c]) == ItemTokens(c) + [] == ItemTokens(c);
    assert ItemsTokens([b, c]) == ItemTokens(b) + ItemsTokens([c]);
    assert ItemsTokens(items) == ItemTokens(a) + ItemsTokens(items[1..]);
  }

  lemma SpliceItem(at: nat, del: nat, n: nat, body: Toks) returns (x: Item)
    requires n == |body| && ItemTokens(ValueItem([Array(n)] + body)) == [Array(n)] + body
    requires ValidItem(ValueItem([Array(n)] + body))
    ensures ItemTokens(x) == [Array(3), Uint(at), Uint(del)] + ([Array(n)] + body) && ValidItem(x)
  {
    var list := ValueItem([Array(n)] + body);
    var items := [Leaf(Uint(at)), Leaf(Uint(del)), list];
    x := List(items);
    hide ValueItem, ItemTokens, ItemsTokens, ValidItem;
    ItemsThree(Leaf(Uint(at)), Leaf(Uint(del)), list);
    LeafItem(Uint(at));
    LeafItem(Uint(del));
    ListItem(items);
    assert [Array(3)] + ([Uint(at)] + ([Uint(del)] + ([Array(n)] + body)))
      == [Array(3), Uint(at), Uint(del)] + ([Array(n)] + body);
  }

  /** A patch after its head: an ordinal and an operation each. */
  lemma {:induction false} OpsAreItems(sp: Spelling, fields: seq<Field>, ops: Ops) returns (items: seq<Item>)
    requires (forall i :: 0 <= i < |ops| ==> ops[i].0 < |fields|) && WriteOps(sp, fields, ops).Ok?
    ensures AreItems(WriteOps(sp, fields, ops).value, items, 2 * |ops|)
  {
    hide WriteOp, AreItems, ItemTokens, ValidItem;
    if ops == [] {
      items := [];
      NoItems();
    } else {
      var (ord, op) := ops[0];
      var rest := OpsAreItems(sp, fields, ops[1..]);
      var head := WriteOp(sp, fields[ord], op).value;
      var operand := OperandIsItem(sp, fields[ord], op);
      var body := PairItem(head[0], head[1..], operand);
      var pair := KeyedItem(ord, [Array(2)] + head, body);
      var tail := WriteOps(sp, fields, ops[1..]).value;
      ItemsJoin([Uint(ord)] + ([Array(2)] + head), pair, 2, tail, rest, 2 * |ops[1..]|);
      items := pair + rest;
      assert WriteOps(sp, fields, ops).value == [Uint(ord)] + ([Array(2)] + head) + tail;
    }
  }

  lemma PairItem(t: Token, ts: Toks, x: Item) returns (y: Item)
    requires IsLeaf(t) && ItemTokens(x) == ts && ValidItem(x)
    ensures ItemTokens(y) == [Array(2)] + ([t] + ts) && ValidItem(y)
  {
    y := List([Leaf(t), x]);
    assert [Leaf(t), x][1..] == [x] && [x][1..] == [];
    assert ItemsTokens([x]) == ts + [];
    assert ItemsTokens([Leaf(t), x]) == [t] + ItemsTokens([x]);
  }
}
