/** Sorting by `@id` text is sorting by identity: the canonical spelling keeps the order of the numbers. */
module SortOrder {
  import opened Wrappers
  import opened Seqs
  import opened Cbor
  import opened Model
  import opened Normalize

  // ---- byte order ------------------------------------------------------------------

  /** Parts of equal length decide before what follows them. */
  lemma {:induction false} BeforeJoin(a: Text, x: Text, b: Text, y: Text)
    requires |a| == |b|
    ensures Before(a + x, b + y) <==> Before(a, b) || (a == b && Before(x, y))
  {
    if a == [] {
      assert a + x == x && b + y == y;
    } else {
      BeforeJoin(a[1..], x, b[1..], y);
      assert (a + x)[1..] == a[1..] + x && (b + y)[1..] == b[1..] + y;
      assert a == [a[0]] + a[1..] && b == [b[0]] + b[1..];
    }
  }

  lemma OneBefore(a: byte, b: byte)
    ensures Before([a], [b]) <==> a < b
  {
  }

  /** Big-endian bytes are ordered as their numbers. */
  lemma {:induction false} FromBeOrders(a: seq<byte>, b: seq<byte>)
    requires |a| == |b|
    ensures Before(a, b) <==> FromBe(a) < FromBe(b)
    ensures a == b <==> FromBe(a) == FromBe(b)
  {
    hide Before;
    if a == [] {
      BeforeIrreflexive(a);
    } else {
      var n := |a| - 1;
      FromBeOrders(a[..n], b[..n]);
      assert a == a[..n] + [a[n]] && b == b[..n] + [b[n]];
      BeforeJoin(a[..n], [a[n]], b[..n], [b[n]]);
      OneBefore(a[n], b[n]);
    }
  }

  // ---- the spelling ----------------------------------------------------------------

  lemma DigitsOrder(a: byte, b: byte)
    ensures
      Before([HexDigit(a / 16), HexDigit(a % 16)], [HexDigit(b / 16), HexDigit(b % 16)]) <==> a < b
    ensures [HexDigit(a / 16), HexDigit(a % 16)] == [HexDigit(b / 16), HexDigit(b % 16)] ==> a == b
  {
    var x, y := [HexDigit(a / 16)], [HexDigit(b / 16)];
    BeforeJoin(x, [HexDigit(a % 16)], y, [HexDigit(b % 16)]);
    OneBefore(HexDigit(a / 16), HexDigit(b / 16));
    OneBefore(HexDigit(a % 16), HexDigit(b % 16));
    assert x + [HexDigit(a % 16)] == [HexDigit(a / 16), HexDigit(a % 16)];
    assert y + [HexDigit(b % 16)] == [HexDigit(b / 16), HexDigit(b % 16)];
    assert HexDigit(a / 16) == HexDigit(b / 16) <==> a / 16 == b / 16;
    assert [HexDigit(a / 16), HexDigit(a % 16)][0] == HexDigit(a / 16);
    assert [HexDigit(b / 16), HexDigit(b % 16)][0] == HexDigit(b / 16);
    assert [HexDigit(a / 16), HexDigit(a % 16)][1] == HexDigit(a % 16);
    assert [HexDigit(b / 16), HexDigit(b % 16)][1] == HexDigit(b % 16);
  }

  lemma {:induction false} HexOrders(a: seq<byte>, b: seq<byte>)
    requires |a| == |b|
    ensures |Hex(a)| == |Hex(b)|
    ensures Before(Hex(a), Hex(b)) <==> Before(a, b)
    ensures Hex(a) == Hex(b) <==> a == b
  {
    hide Before, HexDigit;
    if a == [] {
      BeforeIrreflexive(a);
    } else {
      var x, y := [HexDigit(a[0] / 16), HexDigit(a[0] % 16)], [HexDigit(b[0] / 16), HexDigit(b[0] % 16)];
      HexOrders(a[1..], b[1..]);
      DigitsOrder(a[0], b[0]);
      BeforeJoin(x, Hex(a[1..]), y, Hex(b[1..]));
      BeforeJoin([a[0]], a[1..], [b[0]], b[1..]);
      OneBefore(a[0], b[0]);
      assert a == [a[0]] + a[1..] && b == [b[0]] + b[1..];
      assert Hex(a)[..2] == x && Hex(b)[..2] == y && Hex(a)[2..] == Hex(a[1..]) && Hex(b)[2..] == Hex(b[1..]);
    }
  }

  /** A group of digits and its hyphen keep the order of what they spell. */
  lemma GroupOrders(a: seq<byte>, x: seq<byte>, restA: Text, b: seq<byte>, y: seq<byte>, restB: Text)
    requires |a| == |b| && (Before(restA, restB) <==> Before(x, y))
    ensures Before(Hex(a) + ([45] + restA), Hex(b) + ([45] + restB)) <==> Before(a + x, b + y)
  {
    hide Before, Hex;
    HexOrders(a, b);
    BeforeJoin(Hex(a), [45] + restA, Hex(b), [45] + restB);
    BeforeJoin([45], restA, [45], restB);
    BeforeIrreflexive([45]);
    BeforeJoin(a, x, b, y);
  }

  function Grouped(b: seq<byte>): (t: Text)
    requires |b| == 16
  {
    Hex(b[..4]) + ([45] + (Hex(b[4..6]) + ([45] + (Hex(b[6..8]) + ([45] + (Hex(b[8..10]) + ([45] + Hex(b[10..]))))))))
  }

  lemma SpellGrouped(u: Uuid)
    ensures Spell(u) == Grouped(UuidBytes(u))
  {
    hide Hex, UuidBytes;
  }

  lemma GroupedOrders(a: seq<byte>, b: seq<byte>)
    requires |a| == |b| == 16
    ensures Before(Grouped(a), Grouped(b)) <==> Before(a, b)
  {
    hide Before, Hex;
    var a4, b4 := Hex(a[10..]), Hex(b[10..]);
    var a3, b3 := Hex(a[8..10]) + ([45] + a4), Hex(b[8..10]) + ([45] + b4);
    var a2, b2 := Hex(a[6..8]) + ([45] + a3), Hex(b[6..8]) + ([45] + b3);
    var a1, b1 := Hex(a[4..6]) + ([45] + a2), Hex(b[4..6]) + ([45] + b2);
    HexOrders(a[10..], b[10..]);
    GroupOrders(a[8..10], a[10..], a4, b[8..10], b[10..], b4);
    Halves(a, 8, 10);
    Halves(b, 8, 10);
    GroupOrders(a[6..8], a[8..], a3, b[6..8], b[8..], b3);
    Halves(a, 6, 8);
    Halves(b, 6, 8);
    GroupOrders(a[4..6], a[6..], a2, b[4..6], b[6..], b2);
    Halves(a, 4, 6);
    Halves(b, 4, 6);
    GroupOrders(a[..4], a[4..], a1, b[..4], b[4..], b1);
    assert a == a[..4] + a[4..] && b == b[..4] + b[4..];
  }

  lemma Halves(a: seq<byte>, i: nat, j: nat)
    requires i <= j <= |a|
    ensures a[i..j] + a[j..] == a[i..]
  {
  }

  /** Text order of identities is their numeric order. */
  lemma SpellOrders(u: Uuid, v: Uuid)
    ensures Before(Spell(u), Spell(v)) <==> u < v
  {
    hide Before, Spell, Grouped, UuidBytes, FromBe;
    SpellGrouped(u);
    SpellGrouped(v);
    GroupedOrders(UuidBytes(u), UuidBytes(v));
    FromBeOrders(UuidBytes(u), UuidBytes(v));
    UuidOfBytes(u);
    UuidOfBytes(v);
  }

  /** So the graph-normal spelling lists its elements by ascending identity. */
  lemma NormalizedAscends(tables: Tables, full: FullNames, doc: Doc)
    requires Normalized(tables, full, doc).Ok?
    ensures
      var r := Normalized(tables, full, doc).value;
      forall i, j :: 0 <= i < j < |r| ==> r[i].id <= r[j].id
  {
    hide Before, Spell, NormalEach, CompletedAll, Sort;
    var each := CompletedAll(tables, NormalEach(tables, full, doc).value);
    SortSorts(each);
    var r := Normalized(tables, full, doc).value;
    forall i, j | 0 <= i < j < |r| ensures r[i].id <= r[j].id {
      SpellOrders(r[j].id, r[i].id);
    }
  }
}
