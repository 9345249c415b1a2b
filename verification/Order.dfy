/**
  The canonical order: ownership preorder from each root, then what no root reaches.

  The order is defined over any node type, once for identities and once for positions.
  `Walk` is the stack loop the code runs; `Visit` is the recursive preorder it stands for.
 */
module Order {
  import opened Seqs

  /** The ownership adjacency: what each node owns through its two lists, in list order. */
  datatype Graph<T(==)> = Graph(kids: map<T, seq<T>>, rels: map<T, seq<T>>)

  ghost predicate Closed<T>(g: Graph<T>) {
    && g.kids.Keys == g.rels.Keys
    && (forall x, c :: x in g.kids && c in g.kids[x] ==> c in g.kids)
    && (forall x, c :: x in g.rels && c in g.rels[x] ==> c in g.kids)
  }

  ghost predicate In<T>(g: Graph<T>, s: seq<T>) {
    forall x :: x in s ==> x in g.kids
  }

  function Children<T(==)>(g: Graph<T>, x: T): seq<T>
    requires x in g.kids && x in g.rels
  {
    g.kids[x] + g.rels[x]
  }

  function Unseen<T(==)>(s: seq<T>, seen: seq<T>): seq<T> {
    Pick(s, Elems(seen), false)
  }

  // ---- the stack loop --------------------------------------------------------------

  /** Pop; skip a visited node; else visit it and push its unvisited children, first child on top. */
  function Walk<T(==)>(g: Graph<T>, stack: seq<T>, seen: seq<T>): (order: seq<T>)
    requires Closed(g) && In(g, stack)
    ensures seen <= order && forall x :: x in order ==> x in seen || x in g.kids
    decreases |g.kids.Keys - Elems(seen)|, |stack|
  {
    if stack == [] then seen
    else if stack[0] in seen then Walk(g, stack[1..], seen)
    else
      ElemsSnoc(seen, stack[0]);
      Shrinks(g.kids.Keys, Elems(seen), stack[0]);
      Walk(g, Unseen(Children(g, stack[0]), seen + [stack[0]]) + stack[1..], seen + [stack[0]])
  }

  /** The recursive preorder: a node, then what it owns, then its relationships, each once. */
  function Visit<T(==)>(g: Graph<T>, todo: seq<T>, seen: seq<T>): (order: seq<T>)
    requires Closed(g) && In(g, todo)
    ensures seen <= order
    decreases |g.kids.Keys - Elems(seen)|, |todo|
  {
    if todo == [] then seen
    else
      var x := todo[0];
      if x in seen then Visit(g, todo[1..], seen)
      else
        hide Elems, Closed, In;
        VisitIn(g, todo);
        Deeper(g.kids.Keys, seen, x, seen + [x]);
        var below := Visit(g, g.kids[x], seen + [x]);
        Deeper(g.kids.Keys, seen, x, below);
        var after := Visit(g, g.rels[x], below);
        Prefixes(seen + [x], below, after);
        Deeper(g.kids.Keys, seen, x, after);
        var order := Visit(g, todo[1..], after);
        Prefixes(seen, after, order);
        order
  }

  lemma VisitIn<T>(g: Graph<T>, todo: seq<T>)
    requires Closed(g) && In(g, todo) && todo != []
    ensures todo[0] in g.kids && todo[0] in g.rels
    ensures In(g, g.kids[todo[0]]) && In(g, g.rels[todo[0]]) && In(g, todo[1..])
  {
  }

  /** One turn of the preorder. */
  lemma VisitStep<T>(g: Graph<T>, x: T, rest: seq<T>, seen: seq<T>)
    requires Closed(g) && x in g.kids && In(g, rest)
    ensures In(g, [x] + rest) && x in g.rels && In(g, g.kids[x]) && In(g, g.rels[x])
    ensures
      Visit(g, [x] + rest, seen)
      == if x in seen then Visit(g, rest, seen)
         else Visit(g, rest, Visit(g, g.rels[x], Visit(g, g.kids[x], seen + [x])))
  {
    hide Closed;
    assert ([x] + rest)[1..] == rest && ([x] + rest)[0] == x;
    VisitIn(g, [x] + rest);
  }

  lemma Prefixes<T>(a: seq<T>, b: seq<T>, c: seq<T>)
    requires a <= b <= c
    ensures a <= c
  {
  }

  lemma Deeper<T>(keys: set<T>, seen: seq<T>, x: T, more: seq<T>)
    requires x in keys && x !in seen && seen + [x] <= more
    ensures |keys - Elems(more)| < |keys - Elems(seen)| && seen <= more
  {
    ElemsSnoc(seen, x);
    assert forall y :: y in seen + [x] ==> y in more;
    Shrinks(keys, Elems(seen), x);
    Smaller(keys, Elems(seen + [x]), Elems(more));
  }

  lemma Smaller<T>(keys: set<T>, a: set<T>, b: set<T>)
    requires a <= b
    ensures |keys - b| <= |keys - a|
  {
    assert keys - a == (keys - b) + ((keys - a) - (keys - b));
  }

  function Opened<T(==)>(g: Graph<T>, x: T, seen: seq<T>): (more: seq<T>)
    requires Closed(g) && x in g.kids
    ensures In(g, more)
  {
    Unseen(Children(g, x), seen + [x])
  }

  /** One turn of the loop. */
  lemma WalkStep<T>(g: Graph<T>, x: T, rest: seq<T>, seen: seq<T>)
    requires Closed(g) && x in g.kids && In(g, rest)
    ensures In(g, [x] + rest)
    ensures x in seen ==> Walk(g, [x] + rest, seen) == Walk(g, rest, seen)
    ensures
      x !in seen ==>
        && In(g, Opened(g, x, seen) + rest)
        && Walk(g, [x] + rest, seen) == Walk(g, Opened(g, x, seen) + rest, seen + [x])
        && |g.kids.Keys - Elems(seen + [x])| < |g.kids.Keys - Elems(seen)|
  {
    assert ([x] + rest)[1..] == rest;
    if x !in seen {
      assert Elems(seen + [x]) == Elems(seen) + {x};
      Shrinks(g.kids.Keys, Elems(seen), x);
    }
  }

  /** Leaving visited nodes off the stack changes nothing. */
  lemma {:induction false} WalkIgnoresSeen<T>(g: Graph<T>, p: seq<T>, a: seq<T>, b: seq<T>, s: set<T>, seen: seq<T>)
    requires Closed(g) && In(g, p) && In(g, a) && In(g, b) && s <= Elems(seen)
    ensures In(g, p + Pick(a, s, false) + b) && In(g, p + a + b)
    ensures Walk(g, p + Pick(a, s, false) + b, seen) == Walk(g, p + a + b, seen)
    decreases |g.kids.Keys - Elems(seen)|, |p| + |a| + |b|
  {
    hide Walk, Closed;
    var f := Pick(a, s, false);
    if p == [] {
      if a == [] {
      } else if a[0] in s {
        assert p + a + b == [a[0]] + (a[1..] + b) && p + f + b == p + Pick(a[1..], s, false) + b;
        WalkStep(g, a[0], a[1..] + b, seen);
        assert p + a[1..] + b == a[1..] + b;
        WalkIgnoresSeen(g, p, a[1..], b, s, seen);
      } else {
        assert f == [a[0]] + Pick(a[1..], s, false);
        assert p + f + b == [a[0]] + Pick(a[1..], s, false) + b && p + a + b == [a[0]] + a[1..] + b;
        WalkHeads(g, [a[0]], a[1..], b, s, seen);
      }
    } else {
      WalkHeads(g, p, a, b, s, seen);
    }
  }

  lemma {:induction false} WalkHeads<T>(g: Graph<T>, p: seq<T>, a: seq<T>, b: seq<T>, s: set<T>, seen: seq<T>)
    requires p != []
    requires Closed(g) && In(g, p) && In(g, a) && In(g, b) && s <= Elems(seen)
    ensures In(g, p + Pick(a, s, false) + b) && In(g, p + a + b)
    ensures Walk(g, p + Pick(a, s, false) + b, seen) == Walk(g, p + a + b, seen)
    decreases |g.kids.Keys - Elems(seen)|, |p| + |a| + |b|, 0
  {
    hide Walk, Closed, Pick, Opened;
    var f := Pick(a, s, false);
    var x, q := p[0], p[1..];
    assert p + f + b == [x] + (q + f + b) && p + a + b == [x] + (q + a + b);
    WalkStep(g, x, q + f + b, seen);
    WalkStep(g, x, q + a + b, seen);
    if x in seen {
      WalkIgnoresSeen(g, q, a, b, s, seen);
    } else {
      var more := Opened(g, x, seen);
      assert more + (q + f + b) == (more + q) + f + b;
      assert more + (q + a + b) == (more + q) + a + b;
      WalkIgnoresSeen(g, more + q, a, b, s, seen + [x]);
    }
  }

  /** A stack is walked segment by segment. */
  lemma WalkNone<T>(g: Graph<T>, seen: seq<T>)
    requires Closed(g)
    ensures In(g, []) && Walk(g, [], seen) == seen
  {
  }

  lemma InJoin<T>(g: Graph<T>, a: seq<T>, b: seq<T>)
    requires In(g, a) && In(g, b)
    ensures In(g, a + b)
  {
  }

  lemma InOpened<T>(g: Graph<T>, x: T, seen: seq<T>)
    requires Closed(g) && x in g.kids
    ensures In(g, Opened(g, x, seen))
  {
  }

  lemma InTail<T>(g: Graph<T>, a: seq<T>)
    requires In(g, a) && a != []
    ensures a[0] in g.kids && In(g, a[1..])
  {
  }

  lemma {:induction false} WalkSplits<T>(g: Graph<T>, a: seq<T>, b: seq<T>, seen: seq<T>)
    requires Closed(g) && In(g, a) && In(g, b)
    ensures In(g, a + b) && Walk(g, a + b, seen) == Walk(g, b, Walk(g, a, seen))
    decreases |g.kids.Keys - Elems(seen)|, |a|
  {
    hide Closed, Opened, Walk, In;
    InJoin(g, a, b);
    if a == [] {
      assert a + b == b;
      WalkNone(g, seen);
    } else {
      var x, q := a[0], a[1..];
      InTail(g, a);
      InJoin(g, q, b);
      assert a == [x] + q && a + b == [x] + (q + b);
      WalkStep(g, x, q, seen);
      WalkStep(g, x, q + b, seen);
      if x in seen {
        WalkSplits(g, q, b, seen);
      } else {
        var more := Opened(g, x, seen);
        InOpened(g, x, seen);
        InJoin(g, more, q);
        assert more + (q + b) == (more + q) + b;
        WalkSplits(g, more + q, b, seen + [x]);
      }
    }
  }

  /** The stack loop is the recursive preorder, on every graph, shared children and cycles included. */
  lemma {:induction false} WalkIsPreorder<T>(g: Graph<T>, todo: seq<T>, seen: seq<T>)
    requires Closed(g) && In(g, todo)
    ensures Walk(g, todo, seen) == Visit(g, todo, seen)
    decreases |g.kids.Keys - Elems(seen)|, |todo|
  {
    if todo != [] {
      var x, rest := todo[0], todo[1..];
      assert todo == [x] + rest;
      if x in seen {
        WalkIsPreorder(g, rest, seen);
      } else {
        WalkOpens(g, x, rest, seen);
        var from := seen + [x];
        var below := Walk(g, g.kids[x], from);
        var after := Walk(g, g.rels[x], below);
        Smaller(g.kids.Keys, Elems(from), Elems(below));
        Smaller(g.kids.Keys, Elems(below), Elems(after));
        WalkIsPreorder(g, g.kids[x], from);
        WalkIsPreorder(g, g.rels[x], below);
        WalkIsPreorder(g, rest, after);
      }
    }
  }

  lemma WalkOpens<T>(g: Graph<T>, x: T, rest: seq<T>, seen: seq<T>)
    requires Closed(g) && x in g.kids && In(g, rest) && x !in seen
    ensures In(g, [x] + rest) && In(g, g.kids[x]) && In(g, g.rels[x])
    ensures
      Walk(g, [x] + rest, seen)
      == Walk(g, rest, Walk(g, g.rels[x], Walk(g, g.kids[x], seen + [x])))
    ensures |g.kids.Keys - Elems(seen + [x])| < |g.kids.Keys - Elems(seen)|
  {
    hide Walk, Closed, In, Opened, Elems, Pick;
    ChildrenIn(g, x, rest, seen);
    var from, ch := seen + [x], Children(g, x);
    WalkStep(g, x, rest, seen);
    WalkIgnoresSeen(g, [], ch, rest, Elems(from), from);
    NothingBefore(Opened(g, x, seen), rest);
    NothingBefore(ch, rest);
    WalkSplits(g, ch, rest, from);
    WalkSplits(g, g.kids[x], g.rels[x], from);
  }

  lemma ChildrenIn<T>(g: Graph<T>, x: T, rest: seq<T>, seen: seq<T>)
    requires Closed(g) && x in g.kids && In(g, rest)
    ensures x in g.rels
    ensures In(g, [x] + rest) && In(g, g.kids[x]) && In(g, g.rels[x]) && In(g, Children(g, x)) && In(g, [])
    ensures Opened(g, x, seen) == Pick(Children(g, x), Elems(seen + [x]), false)
  {
  }

  lemma NothingBefore<T>(a: seq<T>, b: seq<T>)
    ensures [] + a + b == a + b
  {
  }

  // ---- what a walk visits ----------------------------------------------------------

  lemma {:induction false} WalkNoDup<T>(g: Graph<T>, stack: seq<T>, seen: seq<T>)
    requires Closed(g) && In(g, stack) && NoDup(seen)
    ensures NoDup(Walk(g, stack, seen))
    decreases |g.kids.Keys - Elems(seen)|, |stack|
  {
    if stack != [] {
      hide Walk;
      assert stack == [stack[0]] + stack[1..];
      WalkStep(g, stack[0], stack[1..], seen);
      if stack[0] in seen {
        WalkNoDup(g, stack[1..], seen);
      } else {
        WalkNoDup(g, Opened(g, stack[0], seen) + stack[1..], seen + [stack[0]]);
      }
    }
  }

  /** Every child of a visited node is visited or still on the stack. */
  ghost predicate Frontier<T>(g: Graph<T>, stack: seq<T>, seen: seq<T>) {
    forall x, c :: x in seen && x in g.kids && x in g.rels && c in Children(g, x) ==> c in seen || c in stack
  }

  /** A walk visits its stack and everything below it. */
  lemma {:induction false} WalkCovers<T>(g: Graph<T>, stack: seq<T>, seen: seq<T>)
    requires Closed(g) && In(g, stack) && Frontier(g, stack, seen)
    ensures forall x :: x in stack ==> x in Walk(g, stack, seen)
    ensures Frontier(g, [], Walk(g, stack, seen))
    decreases |g.kids.Keys - Elems(seen)|, |stack|
  {
    if stack != [] {
      hide Walk, Children, Closed;
      var x, rest := stack[0], stack[1..];
      assert stack == [x] + rest;
      WalkStep(g, x, rest, seen);
      if x in seen {
        WalkCovers(g, rest, seen);
      } else {
        var more, from := Opened(g, x, seen) + rest, seen + [x];
        FrontierMoves(g, x, rest, seen);
        WalkCovers(g, more, from);
        assert from[|seen|] == x;
      }
    }
  }

  lemma FrontierMoves<T>(g: Graph<T>, x: T, rest: seq<T>, seen: seq<T>)
    requires Closed(g) && x in g.kids && Frontier(g, [x] + rest, seen)
    ensures Frontier(g, Opened(g, x, seen) + rest, seen + [x])
  {
    hide Closed, Children;
    var more, from := Opened(g, x, seen) + rest, seen + [x];
    forall y, c | y in from && y in g.kids && y in g.rels && c in Children(g, y)
      ensures c in from || c in more
    {
      if y in seen {
        assert c in seen || c in [x] + rest;
      } else if c !in from {
        assert c in Opened(g, x, seen);
      }
    }
  }

  /** `order[k]` is one of `starts`, or follows a node that owns it. */
  ghost predicate OwnerAhead<T>(g: Graph<T>, starts: seq<T>, order: seq<T>, k: nat)
    requires k < |order|
  {
    order[k] in starts || exists j :: 0 <= j < k && OwnedBy(g, order[k], order[j])
  }

  ghost predicate OwnedBy<T>(g: Graph<T>, c: T, x: T) {
    x in g.kids && x in g.rels && c in Children(g, x)
  }

  /** Everything a walk adds is a start of it or follows one of its owners. */
  lemma {:induction false} WalkFollowsOwners<T>(g: Graph<T>, starts: seq<T>, stack: seq<T>, seen: seq<T>)
    requires Closed(g) && In(g, stack)
    requires forall c :: c in stack ==> c in starts || exists x :: x in seen && OwnedBy(g, c, x)
    requires forall k :: 0 <= k < |seen| ==> OwnerAhead(g, starts, seen, k)
    ensures
      var order := Walk(g, stack, seen);
      forall k :: 0 <= k < |order| ==> OwnerAhead(g, starts, order, k)
    decreases |g.kids.Keys - Elems(seen)|, |stack|
  {
    if stack != [] {
      hide Walk, Closed;
      var x, rest := stack[0], stack[1..];
      assert stack == [x] + rest;
      WalkStep(g, x, rest, seen);
      if x in seen {
        WalkFollowsOwners(g, starts, rest, seen);
      } else {
        StartsMove(g, starts, x, rest, seen);
        WalkFollowsOwners(g, starts, Opened(g, x, seen) + rest, seen + [x]);
      }
    }
  }

  lemma StartsMove<T>(g: Graph<T>, starts: seq<T>, x: T, rest: seq<T>, seen: seq<T>)
    requires Closed(g) && x in g.kids && x in g.rels && x !in seen
    requires forall c :: c in [x] + rest ==> c in starts || exists y :: y in seen && OwnedBy(g, c, y)
    requires forall k :: 0 <= k < |seen| ==> OwnerAhead(g, starts, seen, k)
    ensures
      forall c :: c in Opened(g, x, seen) + rest ==>
        c in starts || exists y :: y in seen + [x] && OwnedBy(g, c, y)
    ensures forall k :: 0 <= k < |seen + [x]| ==> OwnerAhead(g, starts, seen + [x], k)
  {
    hide Closed;
    var from := seen + [x];
    assert x in from;
    forall c | c in Opened(g, x, seen) + rest && c !in starts
      ensures exists y :: y in from && OwnedBy(g, c, y)
    {
      if c in rest {
        var y :| y in seen && OwnedBy(g, c, y);
        assert y in from;
      } else {
        assert OwnedBy(g, c, x);
      }
    }
    forall k | 0 <= k < |from| ensures OwnerAhead(g, starts, from, k) {
      if k < |seen| {
        assert OwnerAhead(g, starts, seen, k) && from[k] == seen[k];
        if seen[k] !in starts {
          var j :| 0 <= j < k && OwnedBy(g, seen[k], seen[j]);
          assert OwnedBy(g, from[k], from[j]);
        }
      } else if x !in starts {
        assert x in [x] + rest && from[k] == x;
        var y :| y in seen && OwnedBy(g, x, y);
        var j :| 0 <= j < |seen| && seen[j] == y;
        assert from[j] == y && OwnedBy(g, from[k], from[j]);
      }
    }
  }

  // ---- the canonical order ---------------------------------------------------------

  function Owned<T(==)>(g: Graph<T>): set<T>
    requires g.kids.Keys == g.rels.Keys
  {
    set x, c | x in g.kids.Keys && c in Children(g, x) :: c
  }

  /** The nodes no ownership list names, in arrangement order. */
  function Roots<T(==)>(g: Graph<T>, arr: seq<T>): seq<T>
    requires g.kids.Keys == g.rels.Keys
  {
    Pick(arr, Owned(g), false)
  }

  /** `arr` lists every node of the graph once. */
  ghost predicate Arranges<T>(g: Graph<T>, arr: seq<T>) {
    Closed(g) && NoDup(arr) && Elems(arr) == g.kids.Keys
  }

  function Reached<T(==)>(g: Graph<T>, arr: seq<T>): seq<T>
    requires Arranges(g, arr)
  {
    ArrangedIn(g, arr);
    Walk(g, Roots(g, arr), [])
  }

  function Canon<T(==)>(g: Graph<T>, arr: seq<T>): seq<T>
    requires Arranges(g, arr)
  {
    Reached(g, arr) + Pick(arr, Elems(Reached(g, arr)), false)
  }

  lemma ArrangedIn<T>(g: Graph<T>, arr: seq<T>)
    requires Arranges(g, arr)
    ensures Closed(g) && g.kids.Keys == g.rels.Keys
    ensures In(g, arr) && In(g, Roots(g, arr))
  {
    forall x | x in arr ensures x in g.kids { assert x in Elems(arr); }
  }

  /** What the preorder from `starts` misses follows it, in arrangement order. */
  function Preordered<T(==)>(g: Graph<T>, starts: seq<T>, arr: seq<T>): seq<T>
    requires Closed(g) && In(g, starts)
  {
    var order := Visit(g, starts, []);
    order + Pick(arr, Elems(order), false)
  }

  /** The canonical order is the recursive preorder from the roots, then what it misses. */
  lemma CanonIsPreorder<T>(g: Graph<T>, arr: seq<T>)
    requires Arranges(g, arr)
    ensures In(g, Roots(g, arr)) && Canon(g, arr) == Preordered(g, Roots(g, arr), arr)
  {
    hide Walk, Visit, Roots;
    ArrangedIn(g, arr);
    WalkIsPreorder(g, Roots(g, arr), []);
  }

  /** The canonical order lists every node once. */
  lemma CanonPermutes<T>(g: Graph<T>, arr: seq<T>)
    requires Arranges(g, arr)
    ensures Arranges(g, Canon(g, arr)) && |Canon(g, arr)| == |arr|
  {
    hide Closed, Walk, Owned;
    ArrangedIn(g, arr);
    var w := Reached(g, arr);
    var rest := Pick(arr, Elems(w), false);
    WalkNoDup(g, Roots(g, arr), []);
    PickNoDup(arr, Elems(w), false);
    assert forall x :: x in rest ==> x !in w;
    NoDupAppend(w, rest);
    assert Elems(w + rest) == Elems(arr);
    NoDupLength(w + rest);
    NoDupLength(arr);
  }

  /** A walk keeps the order of the unowned nodes of its stack and visits no other unowned node. */
  lemma {:induction false} WalkKeepsRoots<T>(g: Graph<T>, stack: seq<T>, seen: seq<T>)
    requires Closed(g) && g.kids.Keys == g.rels.Keys && In(g, stack)
    requires NoDup(Roots(g, stack)) && forall x :: x in Roots(g, stack) ==> x !in seen
    ensures Roots(g, Walk(g, stack, seen)) == Roots(g, seen) + Roots(g, stack)
    decreases |g.kids.Keys - Elems(seen)|, |stack|
  {
    hide Walk, Closed, Owned, Opened, Pick, Roots;
    if stack == [] {
      WalkNothing(g, seen);
    } else {
      var x, rest := stack[0], stack[1..];
      assert stack == [x] + rest;
      WalkStep(g, x, rest, seen);
      RootsOf(g, x, rest);
      if x in seen {
        WalkKeepsRoots(g, rest, seen);
      } else {
        RootsMove(g, x, rest, seen);
        WalkKeepsRoots(g, Opened(g, x, seen) + rest, seen + [x]);
        assert Roots(g, seen + [x]) + Roots(g, rest) == Roots(g, seen) + Roots(g, stack);
      }
    }
  }

  lemma WalkNothing<T>(g: Graph<T>, seen: seq<T>)
    requires Closed(g) && g.kids.Keys == g.rels.Keys
    ensures In(g, []) && Walk(g, [], seen) == seen && Roots(g, []) == []
    ensures Roots(g, seen) + Roots(g, []) == Roots(g, seen)
  {
  }

  lemma RootsMove<T>(g: Graph<T>, x: T, rest: seq<T>, seen: seq<T>)
    requires Closed(g) && g.kids.Keys == g.rels.Keys && x in g.kids
    ensures Roots(g, Opened(g, x, seen) + rest) == Roots(g, rest)
    ensures Roots(g, seen + [x]) == Roots(g, seen) + (if x in Owned(g) then [] else [x])
  {
    hide Closed, Owned, Opened;
    OpenedOwned(g, x, seen);
    PickAppend(Opened(g, x, seen), rest, Owned(g), false);
    PickAppend(seen, [x], Owned(g), false);
    RootsOf(g, x, []);
    assert [x] + [] == [x] && Roots(g, []) == [];
  }

  lemma RootsOf<T>(g: Graph<T>, x: T, rest: seq<T>)
    requires g.kids.Keys == g.rels.Keys
    ensures Roots(g, [x] + rest) == (if x in Owned(g) then [] else [x]) + Roots(g, rest)
    ensures NoDup(Roots(g, [x] + rest)) ==> NoDup(Roots(g, rest))
    ensures NoDup(Roots(g, [x] + rest)) && x !in Owned(g) ==> x !in Roots(g, rest)
    ensures x !in Owned(g) ==> x in Roots(g, [x] + rest)
    ensures forall y :: y in Roots(g, rest) ==> y in Roots(g, [x] + rest) && y !in Owned(g)
  {
    hide Owned;
    var r, all := Roots(g, rest), Roots(g, [x] + rest);
    assert ([x] + rest)[1..] == rest;
    if x !in Owned(g) {
      assert forall i :: 0 <= i < |r| ==> all[i + 1] == r[i];
      assert all[0] == x;
    }
  }

  lemma OpenedOwned<T>(g: Graph<T>, x: T, seen: seq<T>)
    requires Closed(g) && x in g.kids
    ensures Roots(g, Opened(g, x, seen)) == []
  {
    var more := Opened(g, x, seen);
    forall c | c in more ensures c in Owned(g) {
      assert c in Children(g, x);
    }
    PickNone(more, Owned(g), false);
  }

  /** Canonical order keeps the order of the roots and of the nodes no root reaches. */
  lemma CanonKeeps<T>(g: Graph<T>, arr: seq<T>)
    requires Arranges(g, arr)
    ensures Roots(g, Canon(g, arr)) == Roots(g, arr)
    ensures
      var reached := Elems(Reached(g, arr));
      Pick(Canon(g, arr), reached, false) == Pick(arr, reached, false)
  {
    hide Closed, Walk, Owned;
    ArrangedIn(g, arr);
    var w := Reached(g, arr);
    var rest := Pick(arr, Elems(w), false);
    PickNoDup(arr, Owned(g), false);
    RootsOfRoots(g, arr);
    WalkKeepsRoots(g, Roots(g, arr), []);
    assert Roots(g, []) == [];
    RootsReached(g, arr);
    PickNone(rest, Owned(g), false);
    PickAppend(w, rest, Owned(g), false);
    PickNone(w, Elems(w), false);
    PickAppend(w, rest, Elems(w), false);
    PickAll(rest, Elems(w), false);
    assert [] + rest == rest;
  }

  lemma RootsOfRoots<T>(g: Graph<T>, arr: seq<T>)
    requires g.kids.Keys == g.rels.Keys
    ensures Roots(g, Roots(g, arr)) == Roots(g, arr)
  {
    hide Owned;
    PickAll(Roots(g, arr), Owned(g), false);
  }

  /** What no root reaches is owned. */
  lemma RootsReached<T>(g: Graph<T>, arr: seq<T>)
    requires Arranges(g, arr)
    ensures forall x :: x in Pick(arr, Elems(Reached(g, arr)), false) ==> x in Owned(g)
  {
    hide Closed, Walk, Owned;
    ArrangedIn(g, arr);
    assert Frontier(g, Roots(g, arr), []);
    WalkCovers(g, Roots(g, arr), []);
  }

  /** Only the relative order of the roots, and that of what no root reaches, can move the canonical order. */
  lemma CanonDependsOn<T>(g: Graph<T>, a: seq<T>, b: seq<T>)
    requires Arranges(g, a) && Arranges(g, b)
    requires Roots(g, a) == Roots(g, b)
    requires Pick(a, Elems(Reached(g, a)), false) == Pick(b, Elems(Reached(g, a)), false)
    ensures Canon(g, a) == Canon(g, b)
  {
  }

  lemma CanonIdempotent<T>(g: Graph<T>, arr: seq<T>)
    requires Arranges(g, arr)
    ensures Arranges(g, Canon(g, arr)) && Canon(g, Canon(g, arr)) == Canon(g, arr)
  {
    hide Canon, Reached, Walk, Owned, Closed;
    CanonPermutes(g, arr);
    CanonKeeps(g, arr);
    CanonDependsOn(g, arr, Canon(g, arr));
  }

  /**
    Replaying a canonical order behind the nodes a base holds reproduces it. An applier
    lists the nodes in `base` first and the others in the canonical order of the target;
    the target was itself arranged with the nodes in `base` first.
   */
  lemma CanonReplays<T>(g: Graph<T>, arr: seq<T>, base: set<T>)
    requires Arranges(g, arr) && arr == Pick(arr, base, true) + Pick(arr, base, false)
    ensures
      var order := Canon(g, arr);
      var replayed := Pick(arr, base, true) + Pick(order, base, false);
      Arranges(g, replayed) && Canon(g, replayed) == order
  {
    hide Canon, Reached, Walk, Owned, Pick;
    var order := Canon(g, arr);
    var replayed := Pick(arr, base, true) + Pick(order, base, false);
    CanonKeeps(g, arr);
    ReplayArranges(g, arr, base);
    var owned, reached := Owned(g), Elems(Reached(g, arr));
    ReplayKeeps(arr, order, base, owned);
    ReplayKeeps(arr, order, base, reached);
    CanonDependsOn(g, arr, replayed);
  }

  lemma ReplayArranges<T>(g: Graph<T>, arr: seq<T>, base: set<T>)
    requires Arranges(g, arr)
    ensures Arranges(g, Pick(arr, base, true) + Pick(Canon(g, arr), base, false))
  {
    hide Canon, Closed;
    var order := Canon(g, arr);
    CanonPermutes(g, arr);
    PickNoDup(arr, base, true);
    PickNoDup(order, base, false);
    NoDupAppend(Pick(arr, base, true), Pick(order, base, false));
    assert forall x :: x in arr <==> x in Elems(arr);
    assert forall x :: x in order <==> x in Elems(order);
    assert Elems(Pick(arr, base, true) + Pick(order, base, false)) == Elems(arr);
  }

  lemma ReplayKeeps<T>(arr: seq<T>, order: seq<T>, base: set<T>, xs: set<T>)
    requires arr == Pick(arr, base, true) + Pick(arr, base, false)
    requires Pick(order, xs, false) == Pick(arr, xs, false)
    ensures Pick(Pick(arr, base, true) + Pick(order, base, false), xs, false) == Pick(arr, xs, false)
  {
    PickAppend(Pick(arr, base, true), Pick(order, base, false), xs, false);
    PickAppend(Pick(arr, base, true), Pick(arr, base, false), xs, false);
    PickPick(order, base, false, xs, false);
    PickPick(arr, base, false, xs, false);
  }

  // ---- renaming --------------------------------------------------------------------

  ghost predicate Covers<T, U>(f: map<T, U>, s: seq<T>) {
    forall x :: x in s ==> x in f
  }

  function Image<T, U>(f: map<T, U>, s: seq<T>): (r: seq<U>)
    requires Covers(f, s)
    ensures |r| == |s| && forall i :: 0 <= i < |s| ==> r[i] == f[s[i]]
  {
    seq(|s|, i requires 0 <= i < |s| => f[s[i]])
  }

  ghost predicate OneToOne<T, U>(f: map<T, U>) {
    forall x, y :: x in f && y in f && f[x] == f[y] ==> x == y
  }

  /** `h` is `g` with every node `x` spelled `f[x]`. */
  ghost predicate Renames<T, U>(f: map<T, U>, g: Graph<T>, h: Graph<U>) {
    && OneToOne(f) && Closed(g) && f.Keys == g.kids.Keys
    && h.kids.Keys == f.Values && h.rels.Keys == f.Values
    && (forall x :: x in f ==> x in g.kids && Covers(f, g.kids[x]) && h.kids[f[x]] == Image(f, g.kids[x]))
    && (forall x :: x in f ==> x in g.rels && Covers(f, g.rels[x]) && h.rels[f[x]] == Image(f, g.rels[x]))
  }

  lemma ImageAppend<T, U>(f: map<T, U>, a: seq<T>, b: seq<T>)
    requires Covers(f, a) && Covers(f, b)
    ensures Covers(f, a + b) && Image(f, a + b) == Image(f, a) + Image(f, b)
  {
  }

  lemma ImageOne<T, U>(f: map<T, U>, x: T)
    requires x in f
    ensures Covers(f, [x]) && Image(f, [x]) == [f[x]]
    ensures Covers(f, []) && Image(f, []) == []
  {
  }

  lemma {:induction false} ImagePick<T, U>(f: map<T, U>, s: seq<T>, xs: set<T>, ys: set<U>, keep: bool)
    requires Covers(f, s) && forall x :: x in s ==> (x in xs <==> f[x] in ys)
    ensures Covers(f, Pick(s, xs, keep)) && Image(f, Pick(s, xs, keep)) == Pick(Image(f, s), ys, keep)
  {
    hide Pick, Image;
    if s == [] {
      PickEmpty<T>(xs, keep);
      PickEmpty<U>(ys, keep);
      assert Image(f, s) == [];
    } else {
      var x, rest := s[0], s[1..];
      assert x in s && s == [x] + rest && Covers(f, rest);
      ImagePick(f, rest, xs, ys, keep);
      ImageOne(f, x);
      ImageAppend(f, [x], rest);
      PickHead(x, rest, xs, keep);
      PickHead(f[x], Image(f, rest), ys, keep);
      var head := if (x in xs) == keep then [x] else [];
      ImageAppend(f, head, Pick(rest, xs, keep));
    }
  }

  lemma ImageMembers<T, U>(f: map<T, U>, s: seq<T>)
    requires OneToOne(f) && Covers(f, s)
    ensures forall x :: x in f ==> (x in s <==> f[x] in Image(f, s))
    ensures forall x :: x in f ==> (x in Elems(s) <==> f[x] in Elems(Image(f, s)))
  {
    forall x | x in f ensures x in s <==> f[x] in Image(f, s) {
      if x in s {
        var i :| 0 <= i < |s| && s[i] == x;
        assert Image(f, s)[i] == f[x];
      }
      if f[x] in Image(f, s) {
        var i :| 0 <= i < |s| && Image(f, s)[i] == f[x];
        assert s[i] == x;
      }
    }
  }

  lemma RenamedIn<T, U>(f: map<T, U>, g: Graph<T>, h: Graph<U>, s: seq<T>)
    requires Renames(f, g, h) && In(g, s)
    ensures Covers(f, s) && In(h, Image(f, s))
  {
    forall y | y in Image(f, s) ensures y in h.kids {
      var i :| 0 <= i < |s| && Image(f, s)[i] == y;
      assert s[i] in s && f[s[i]] in f.Values;
    }
  }

  lemma RenamesAt<T, U>(f: map<T, U>, g: Graph<T>, h: Graph<U>, x: T)
    requires Renames(f, g, h) && x in f
    ensures x in g.kids && x in g.rels && f[x] in h.kids && f[x] in h.rels
    ensures Covers(f, g.kids[x]) && h.kids[f[x]] == Image(f, g.kids[x])
    ensures Covers(f, g.rels[x]) && h.rels[f[x]] == Image(f, g.rels[x])
  {
    hide Closed, OneToOne, Image;
    assert f[x] in f.Values;
  }

  lemma RenamedChildren<T, U>(f: map<T, U>, g: Graph<T>, h: Graph<U>, x: T)
    requires Renames(f, g, h) && Closed(h) && x in f
    ensures x in g.kids && x in g.rels && f[x] in h.kids && f[x] in h.rels && Covers(f, Children(g, x))
    ensures Children(h, f[x]) == Image(f, Children(g, x))
  {
    hide Renames, Closed, Image;
    RenamesAt(f, g, h, x);
    ImageAppend(f, g.kids[x], g.rels[x]);
  }

  lemma RenamesOne<T, U>(f: map<T, U>, g: Graph<T>, h: Graph<U>)
    requires Renames(f, g, h)
    ensures OneToOne(f) && h.kids.Keys == f.Values && h.rels.Keys == f.Values
  {
  }

  lemma RenamedClosed<T, U>(f: map<T, U>, g: Graph<T>, h: Graph<U>)
    requires Renames(f, g, h)
    ensures Closed(h)
  {
    hide Renames, Closed, Image;
    RenamesOne(f, g, h);
    forall y | y in f.Values
      ensures y in h.kids && y in h.rels && (forall c :: c in h.kids[y] || c in h.rels[y] ==> c in f.Values)
    {
      var x :| x in f && f[x] == y;
      RenamesAt(f, g, h, x);
      ImageValues(f, g.kids[x]);
      ImageValues(f, g.rels[x]);
    }
    ClosedBy(h);
  }

  lemma ImageValues<T, U>(f: map<T, U>, s: seq<T>)
    requires Covers(f, s)
    ensures forall c :: c in Image(f, s) ==> c in f.Values
  {
    forall c | c in Image(f, s) ensures c in f.Values {
      var i :| 0 <= i < |s| && Image(f, s)[i] == c;
      assert s[i] in s && c == f[s[i]];
    }
  }

  lemma ClosedBy<T>(g: Graph<T>)
    requires g.kids.Keys == g.rels.Keys
    requires forall x :: x in g.kids && x in g.rels ==> forall c :: c in g.kids[x] || c in g.rels[x] ==> c in g.kids
    ensures Closed(g)
  {
  }

  lemma RenamedOpened<T, U>(f: map<T, U>, g: Graph<T>, h: Graph<U>, x: T, seen: seq<T>)
    requires Renames(f, g, h) && Closed(h) && x in f && In(g, seen)
    ensures Covers(f, seen) && Covers(f, Opened(g, x, seen)) && f[x] in h.kids && f[x] in h.rels
    ensures Opened(h, f[x], Image(f, seen)) == Image(f, Opened(g, x, seen))
  {
    hide Renames, Closed, Image, Children, Pick;
    RenamedChildren(f, g, h, x);
    RenamedIn(f, g, h, seen);
    RenamesOne(f, g, h);
    var ch, from := Children(g, x), seen + [x];
    ImageOne(f, x);
    ImageAppend(f, seen, [x]);
    ImageMembers(f, from);
    ImagePick(f, ch, Elems(from), Elems(Image(f, from)), false);
  }

  lemma {:induction false} WalkRenames<T, U>(f: map<T, U>, g: Graph<T>, h: Graph<U>, stack: seq<T>, seen: seq<T>)
    requires Renames(f, g, h) && Closed(g) && Closed(h) && In(g, stack) && In(g, seen)
    ensures Covers(f, stack) && Covers(f, seen) && Covers(f, Walk(g, stack, seen))
    ensures In(h, Image(f, stack))
    ensures Walk(h, Image(f, stack), Image(f, seen)) == Image(f, Walk(g, stack, seen))
    decreases |g.kids.Keys - Elems(seen)|, |stack|
  {
    hide Walk, Closed, Renames, Opened, Image, Elems;
    RenamedIn(f, g, h, stack);
    RenamedIn(f, g, h, seen);
    if stack == [] {
      WalkEmpty(g, stack, seen);
      WalkEmpty(h, Image(f, stack), Image(f, seen));
    } else {
      var x, rest := stack[0], stack[1..];
      assert stack == [x] + rest && x in stack && In(g, rest);
      RenamedStack(f, g, h, x, rest, seen);
      WalkStep(g, x, rest, seen);
      WalkStep(h, f[x], Image(f, rest), Image(f, seen));
      if x in seen {
        WalkRenames(f, g, h, rest, seen);
      } else {
        WalkRenames(f, g, h, Opened(g, x, seen) + rest, seen + [x]);
      }
    }
  }

  lemma RenamedStack<T, U>(f: map<T, U>, g: Graph<T>, h: Graph<U>, x: T, rest: seq<T>, seen: seq<T>)
    requires Renames(f, g, h) && Closed(g) && Closed(h) && x in g.kids && In(g, rest) && In(g, seen)
    ensures x in f && Covers(f, rest) && Covers(f, seen) && Covers(f, [x] + rest) && Covers(f, seen + [x])
    ensures f[x] in h.kids && In(h, Image(f, rest)) && (x in seen <==> f[x] in Image(f, seen))
    ensures Image(f, [x] + rest) == [f[x]] + Image(f, rest)
    ensures Image(f, seen + [x]) == Image(f, seen) + [f[x]]
    ensures
      var more := Opened(g, x, seen) + rest;
      && In(g, more) && Covers(f, more)
      && Image(f, more) == Opened(h, f[x], Image(f, seen)) + Image(f, rest)
  {
    hide Closed, Opened, Image;
    RenamedIn(f, g, h, rest);
    RenamedIn(f, g, h, seen);
    RenamedOpened(f, g, h, x, seen);
    ImageMembers(f, seen);
    ImageOne(f, x);
    ImageAppend(f, [x], rest);
    ImageAppend(f, seen, [x]);
    ImageAppend(f, Opened(g, x, seen), rest);
  }

  lemma WalkEmpty<T>(g: Graph<T>, stack: seq<T>, seen: seq<T>)
    requires Closed(g) && stack == []
    ensures Walk(g, stack, seen) == seen
  {
  }

  lemma RenamedOwned<T, U>(f: map<T, U>, g: Graph<T>, h: Graph<U>, x: T)
    requires Renames(f, g, h) && Closed(h) && x in f
    ensures x in Owned(g) <==> f[x] in Owned(h)
  {
    if x in Owned(g) {
      var y :| y in g.kids && x in Children(g, y);
      RenamedChildren(f, g, h, y);
      assert f[y] in f.Values;
      ImageMembers(f, Children(g, y));
    }
    if f[x] in Owned(h) {
      var z :| z in h.kids && f[x] in Children(h, z);
      var y :| y in f && f[y] == z;
      RenamedChildren(f, g, h, y);
      ImageMembers(f, Children(g, y));
    }
  }

  /** Renaming the nodes renames the canonical order. */
  lemma CanonRenames<T, U>(f: map<T, U>, g: Graph<T>, h: Graph<U>, arr: seq<T>)
    requires Renames(f, g, h) && Arranges(g, arr)
    ensures Covers(f, arr) && Covers(f, Canon(g, arr)) && Arranges(h, Image(f, arr))
    ensures Canon(h, Image(f, arr)) == Image(f, Canon(g, arr))
  {
    hide Walk, Owned, Closed, Renames, Image, Roots, Pick;
    RenamedClosed(f, g, h);
    ArrangedIn(g, arr);
    RenamedIn(f, g, h, arr);
    RenamedArranges(f, g, h, arr);
    ArrangedIn(h, Image(f, arr));
    RootsRename(f, g, h, arr);
    WalkRenames(f, g, h, Roots(g, arr), []);
    RenamedOneToOne(f, g, h);
    assert Image(f, []) == [];
    var w := Reached(g, arr);
    ImageMembers(f, w);
    ImagePick(f, arr, Elems(w), Elems(Image(f, w)), false);
    ImageAppend(f, w, Pick(arr, Elems(w), false));
  }

  lemma RenamedOneToOne<T, U>(f: map<T, U>, g: Graph<T>, h: Graph<U>)
    requires Renames(f, g, h)
    ensures OneToOne(f) && f.Keys == g.kids.Keys
  {
  }

  lemma RootsRename<T, U>(f: map<T, U>, g: Graph<T>, h: Graph<U>, arr: seq<T>)
    requires Renames(f, g, h) && Closed(h) && Covers(f, arr) && g.kids.Keys == g.rels.Keys && h.kids.Keys == h.rels.Keys
    ensures Covers(f, Roots(g, arr)) && Image(f, Roots(g, arr)) == Roots(h, Image(f, arr))
  {
    hide Closed, Renames, Owned;
    forall x | x in arr ensures x in Owned(g) <==> f[x] in Owned(h) {
      RenamedOwned(f, g, h, x);
    }
    ImagePick(f, arr, Owned(g), Owned(h), false);
  }

  lemma RenamedArranges<T, U>(f: map<T, U>, g: Graph<T>, h: Graph<U>, arr: seq<T>)
    requires Renames(f, g, h) && Closed(h) && Arranges(g, arr) && Covers(f, arr)
    ensures Arranges(h, Image(f, arr))
  {
    hide Closed, Image, NoDup, Elems, OneToOne;
    ImageNoDup(f, arr);
    ImageElems(f, arr);
  }

  lemma ImageNoDup<T, U>(f: map<T, U>, arr: seq<T>)
    requires OneToOne(f) && Covers(f, arr) && NoDup(arr)
    ensures NoDup(Image(f, arr))
  {
    forall i, j | 0 <= i < j < |arr| ensures Image(f, arr)[i] != Image(f, arr)[j] {
      assert arr[i] != arr[j] && arr[i] in arr && arr[j] in arr;
    }
  }

  lemma ImageElems<T, U>(f: map<T, U>, arr: seq<T>)
    requires Covers(f, arr) && Elems(arr) == f.Keys
    ensures Elems(Image(f, arr)) == f.Values
  {
    forall y ensures y in Elems(Image(f, arr)) <==> y in f.Values {
      if y in Image(f, arr) {
        var i :| 0 <= i < |arr| && Image(f, arr)[i] == y;
        assert arr[i] in arr && f[arr[i]] in f.Values;
      }
      if y in f.Values {
        var x :| x in f && f[x] == y;
        assert x in Elems(arr);
        var i :| 0 <= i < |arr| && arr[i] == x;
        assert Image(f, arr)[i] == y;
      }
    }
  }
}
