/** Lists kept end to end in one array, with where each ends. */
module Flat {

  function Flatten<T>(lists: seq<seq<T>>): seq<T> {
    if lists == [] then [] else lists[0] + Flatten(lists[1..])
  }

  lemma {:induction false} FlattenAppend<T>(a: seq<seq<T>>, b: seq<seq<T>>)
    ensures Flatten(a + b) == Flatten(a) + Flatten(b)
  {
    if a == [] {
      assert a + b == b;
    } else {
      assert (a + b)[0] == a[0] && (a + b)[1..] == a[1..] + b;
      FlattenAppend(a[1..], b);
    }
  }

  lemma FlattenLast<T>(lists: seq<seq<T>>, list: seq<T>)
    ensures Flatten(lists + [list]) == Flatten(lists) + list
  {
    FlattenAppend(lists, [list]);
    assert [list][1..] == [];
    assert Flatten([list]) == list;
  }

  /** Where list `l` ends. */
  function EndOf<T>(lists: seq<seq<T>>, l: nat): nat
    requires l < |lists|
  {
    |Flatten(lists[..l + 1])|
  }

  function StartOf<T>(lists: seq<seq<T>>, l: nat): nat
    requires l <= |lists|
  {
    |Flatten(lists[..l])|
  }

  /** Cutting the array at a list's ends gives the list back. */
  lemma CutAt<T>(lists: seq<seq<T>>, l: nat)
    requires l < |lists|
    ensures
      var flat := Flatten(lists);
      && StartOf(lists, l) <= EndOf(lists, l) == StartOf(lists, l + 1) <= |flat|
      && flat[StartOf(lists, l)..EndOf(lists, l)] == lists[l]
  {
    var before, here, after := lists[..l], lists[l], lists[l + 1..];
    assert lists[..l + 1] == before + [here];
    assert lists == (before + [here]) + after;
    FlattenLast(before, here);
    FlattenAppend(before + [here], after);
  }

  /** The prefix of lists the loop has laid down. */
  lemma CutLast<T>(lists: seq<seq<T>>, l: nat)
    requires l < |lists|
    ensures Flatten(lists[..l + 1]) == Flatten(lists[..l]) + lists[l]
  {
    assert lists[..l + 1] == lists[..l] + [lists[l]];
    FlattenLast(lists[..l], lists[l]);
  }
}
