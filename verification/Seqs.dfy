/** Facts about sequences that the canonical order and the delta share. */
module Seqs {

  predicate NoDup<T(==)>(s: seq<T>) {
    forall i, j :: 0 <= i < j < |s| ==> s[i] != s[j]
  }

  function Elems<T>(s: seq<T>): set<T> {
    set x | x in s
  }

  lemma Assoc<T>(a: seq<T>, b: seq<T>, c: seq<T>)
    ensures (a + b) + c == a + (b + c)
  {
  }

  lemma ElemsSnoc<T>(s: seq<T>, x: T)
    ensures Elems(s + [x]) == Elems(s) + {x}
  {
  }

  lemma Shrinks<T>(keys: set<T>, seen: set<T>, x: T)
    requires x in keys && x !in seen
    ensures |keys - (seen + {x})| < |keys - seen|
  {
    assert keys - seen == (keys - (seen + {x})) + {x};
  }

  lemma ElemsJoin<T>(a: seq<T>, b: seq<T>)
    ensures Elems(a + b) == Elems(a) + Elems(b)
  {
    forall x ensures x in a + b <==> x in a || x in b {
    }
  }

  lemma NoElems<T>(s: seq<T>)
    ensures Elems(s) == {} <==> s == []
  {
    if s != [] {
      assert s[0] in Elems(s);
    }
  }

  /** The elements of `s` that are (`keep`) or are not in `xs`, in order. */
  function Pick<T(==)>(s: seq<T>, xs: set<T>, keep: bool): (r: seq<T>)
    ensures |r| <= |s|
    ensures forall x :: x in r ==> x in s && (x in xs) == keep
    ensures forall x :: x in s && (x in xs) == keep ==> x in r
  {
    if s == [] then []
    else if (s[0] in xs) == keep then [s[0]] + Pick(s[1..], xs, keep)
    else Pick(s[1..], xs, keep)
  }

  lemma PickEmpty<T>(xs: set<T>, keep: bool)
    ensures Pick([], xs, keep) == []
  {
  }

  lemma PickHead<T>(x: T, rest: seq<T>, xs: set<T>, keep: bool)
    ensures Pick([x] + rest, xs, keep) == (if (x in xs) == keep then [x] else []) + Pick(rest, xs, keep)
  {
    assert ([x] + rest)[1..] == rest;
  }

  lemma {:induction false} PickAppend<T>(a: seq<T>, b: seq<T>, xs: set<T>, keep: bool)
    ensures Pick(a + b, xs, keep) == Pick(a, xs, keep) + Pick(b, xs, keep)
  {
    hide Pick;
    if a == [] {
      assert a + b == b;
      PickEmpty<T>(xs, keep);
    } else {
      var rest := a[1..];
      assert a == [a[0]] + rest && a + b == [a[0]] + (rest + b);
      PickHead(a[0], rest, xs, keep);
      PickHead(a[0], rest + b, xs, keep);
      PickAppend(rest, b, xs, keep);
    }
  }

  lemma PickLast<T>(s: seq<T>, x: T, xs: set<T>, keep: bool)
    ensures Pick(s + [x], xs, keep) == Pick(s, xs, keep) + (if (x in xs) == keep then [x] else [])
  {
    PickAppend(s, [x], xs, keep);
    PickHead(x, [], xs, keep);
    assert [x] + [] == [x];
  }

  lemma {:induction false} PickNoDup<T>(s: seq<T>, xs: set<T>, keep: bool)
    requires NoDup(s)
    ensures NoDup(Pick(s, xs, keep))
  {
    if s != [] {
      assert forall i :: 0 < i < |s| ==> s[i] == s[1..][i - 1];
      PickNoDup(s[1..], xs, keep);
    }
  }

  lemma {:induction false} PickAll<T>(s: seq<T>, xs: set<T>, keep: bool)
    requires forall x :: x in s ==> (x in xs) == keep
    ensures Pick(s, xs, keep) == s
  {
    if s != [] {
      PickAll(s[1..], xs, keep);
    }
  }

  lemma {:induction false} PickNone<T>(s: seq<T>, xs: set<T>, keep: bool)
    requires forall x :: x in s ==> (x in xs) != keep
    ensures Pick(s, xs, keep) == []
  {
    if s != [] {
      PickNone(s[1..], xs, keep);
    }
  }

  /** Selecting commutes with any other selection. */
  lemma {:induction false} PickPick<T>(s: seq<T>, xs: set<T>, k: bool, ys: set<T>, l: bool)
    ensures Pick(Pick(s, xs, k), ys, l) == Pick(Pick(s, ys, l), xs, k)
  {
    if s != [] {
      PickPick(s[1..], xs, k, ys, l);
    }
  }

  /** Two sets that agree on the elements of `s` select the same. */
  lemma {:induction false} PickAgree<T>(s: seq<T>, xs: set<T>, ys: set<T>, keep: bool)
    requires forall x :: x in s ==> (x in xs <==> x in ys)
    ensures Pick(s, xs, keep) == Pick(s, ys, keep)
  {
    if s != [] {
      PickAgree(s[1..], xs, ys, keep);
    }
  }

  lemma {:induction false} NoDupLength<T>(s: seq<T>)
    requires NoDup(s)
    ensures |Elems(s)| == |s|
  {
    if s == [] {
      assert Elems(s) == {};
    } else {
      assert forall i :: 0 < i < |s| ==> s[i] == s[1..][i - 1];
      NoDupLength(s[1..]);
      assert s[0] !in s[1..];
      assert Elems(s) == {s[0]} + Elems(s[1..]);
    }
  }

  lemma NoDupAppend<T>(a: seq<T>, b: seq<T>)
    requires NoDup(a) && NoDup(b) && forall x :: x in b ==> x !in a
    ensures NoDup(a + b)
  {
    forall i, j | 0 <= i < j < |a + b| ensures (a + b)[i] != (a + b)[j] {
      if i < |a| <= j {
        assert (a + b)[j] == b[j - |a|] && b[j - |a|] in b;
      }
    }
  }

  lemma NoDupParts<T>(a: seq<T>, b: seq<T>)
    requires NoDup(a + b)
    ensures NoDup(a) && NoDup(b) && forall x :: x in b ==> x !in a
  {
    var s := a + b;
    forall i, j | 0 <= i < j < |a| ensures a[i] != a[j] { assert s[i] != s[j]; }
    forall i, j | 0 <= i < j < |b| ensures b[i] != b[j] { assert s[|a| + i] != s[|a| + j]; }
    forall i, j | 0 <= i < |a| && 0 <= j < |b| ensures a[i] != b[j] { assert s[i] != s[|a| + j]; }
  }

  /** The first position of `x`, or `|s|` where it does not occur. */
  function IndexOf<T(==)>(s: seq<T>, x: T): (i: nat)
    ensures i <= |s|
    ensures i < |s| <==> x in s
    ensures i < |s| ==> s[i] == x
    ensures forall j :: 0 <= j < i ==> s[j] != x
  {
    if s == [] then 0 else if s[0] == x then 0 else 1 + IndexOf(s[1..], x)
  }

  /** The elements of `r` stand in `s` in this order. */
  ghost predicate StandIn<T>(s: seq<T>, r: seq<T>) {
    forall i, j :: 0 <= i < j < |r| ==> IndexOf(s, r[i]) < IndexOf(s, r[j])
  }

  /** Selecting keeps the order. */
  lemma {:induction false} PickOrdered<T>(s: seq<T>, xs: set<T>, keep: bool)
    requires NoDup(s)
    ensures StandIn(s, Pick(s, xs, keep))
  {
    if s != [] {
      assert forall i :: 0 < i < |s| ==> s[i] == s[1..][i - 1];
      PickOrdered(s[1..], xs, keep);
      var tail := Pick(s[1..], xs, keep);
      forall x | x in tail ensures IndexOf(s, x) == 1 + IndexOf(s[1..], x) {
        assert x in s[1..];
      }
      assert StandIn(s, tail);
      assert IndexOf(s, s[0]) == 0;
    }
  }

  lemma IndexOfNoDup<T>(s: seq<T>, i: nat)
    requires NoDup(s) && i < |s|
    ensures IndexOf(s, s[i]) == i
  {
  }

  lemma IndexOfFirst<T>(s: seq<T>, i: nat)
    requires i < |s| && s[i] !in s[..i]
    ensures IndexOf(s, s[i]) == i
  {
    forall j | 0 <= j < i ensures s[j] != s[i] {
      assert s[..i][j] in s[..i];
    }
  }
}
