/**
  The traversal as the code runs it: positions, two flag arrays and a stack.

  `OwnershipPreorder` is the walk that the digest, the delta encoder, the applier and the
  index transition each perform over their own adjacency.
 */
module Preorder {
  import opened Seqs
  import opened Order

  type Lists = seq<seq<nat>>

  /** Both ownership lists of `n` elements, by position. */
  ghost predicate Adjacency(n: nat, kids: Lists, rels: Lists) {
    && |kids| == n && |rels| == n
    && (forall i, t :: 0 <= i < n && t in kids[i] ==> t < n)
    && (forall i, t :: 0 <= i < n && t in rels[i] ==> t < n)
  }

  function PositionGraph(kids: Lists, rels: Lists): Graph<nat>
    requires |kids| == |rels|
  {
    Graph(map i: nat | i < |kids| :: kids[i], map i: nat | i < |rels| :: rels[i])
  }

  function Iota(n: nat): (s: seq<nat>)
    ensures |s| == n && forall i :: 0 <= i < n ==> s[i] == i
  {
    seq(n, i requires 0 <= i < n => i)
  }

  lemma AdjacencyArranges(n: nat, kids: Lists, rels: Lists)
    requires Adjacency(n, kids, rels)
    ensures Arranges(PositionGraph(kids, rels), Iota(n))
  {
    var g := PositionGraph(kids, rels);
    forall x: nat ensures x in Elems(Iota(n)) <==> x in g.kids.Keys {
      if x < n {
        assert Iota(n)[x] == x;
      }
    }
  }

  function Rev<T>(s: seq<T>): (r: seq<T>)
    ensures |r| == |s| && forall i :: 0 <= i < |s| ==> r[i] == s[|s| - 1 - i]
  {
    seq(|s|, i requires 0 <= i < |s| => s[|s| - 1 - i])
  }

  lemma RevPush<T>(s: seq<T>, x: T)
    ensures Rev(s + [x]) == [x] + Rev(s)
  {
  }

  /** The flags of the positions an ownership list names. */
  method MarkOwned(n: nat, kids: Lists, rels: Lists) returns (owned: array<bool>)
    requires Adjacency(n, kids, rels)
    ensures fresh(owned) && owned.Length == n
    ensures forall t: nat :: t < n ==> (owned[t] <==> t in Owned(PositionGraph(kids, rels)))
  {
    owned := new bool[n](_ => false);
    for i := 0 to n
      invariant forall t: nat :: t < n ==> (owned[t] <==> exists k :: 0 <= k < i && (t in rels[k] || t in kids[k]))
    {
      Mark(owned, rels[i]);
      Mark(owned, kids[i]);
    }
    ghost var g := PositionGraph(kids, rels);
    forall t: nat | t < n
      ensures (exists k :: 0 <= k < n && (t in rels[k] || t in kids[k])) <==> t in Owned(g)
    {
      OwnedPosition(n, kids, rels, t);
    }
  }

  lemma OwnedPosition(n: nat, kids: Lists, rels: Lists, t: nat)
    requires Adjacency(n, kids, rels)
    ensures
      t in Owned(PositionGraph(kids, rels))
      <==> exists k :: 0 <= k < n && (t in rels[k] || t in kids[k])
  {
    var g := PositionGraph(kids, rels);
    if k :| 0 <= k < n && (t in rels[k] || t in kids[k]) {
      assert k in g.kids.Keys && t in Children(g, k);
    }
  }

  method Mark(flags: array<bool>, targets: seq<nat>)
    requires forall t :: t in targets ==> t < flags.Length
    modifies flags
    ensures forall t: nat :: t < flags.Length ==> (flags[t] <==> old(flags[t]) || t in targets)
  {
    for i := 0 to |targets|
      invariant forall t: nat :: t < flags.Length ==> (flags[t] <==> old(flags[t]) || t in targets[..i])
    {
      assert targets[..i + 1] == targets[..i] + [targets[i]];
      assert targets[i] in targets;
      flags[targets[i]] := true;
    }
    assert targets[..|targets|] == targets;
  }

  /** One push, or none for a node in `seen`. */
  lemma PushStep(stack: seq<nat>, x: nat, rest: seq<nat>, seen: set<nat>, base: seq<nat>)
    requires Rev(stack) == Pick(rest, seen, false) + base
    ensures x in seen ==> Rev(stack) == Pick([x] + rest, seen, false) + base
    ensures x !in seen ==> Rev(stack + [x]) == Pick([x] + rest, seen, false) + base
  {
    hide Pick, Rev;
    PickHead(x, rest, seen, false);
    if x in seen {
      assert [] + Pick(rest, seen, false) == Pick(rest, seen, false);
    } else {
      RevPush(stack, x);
      assert ([x] + Pick(rest, seen, false)) + base == [x] + (Pick(rest, seen, false) + base);
    }
  }

  /** The stack that pops the unflagged positions in ascending order. */
  method StartStack(n: nat, owned: array<bool>, ghost os: set<nat>) returns (stack: seq<nat>)
    requires owned.Length == n && forall t: nat :: t < n ==> (owned[t] <==> t in os)
    ensures Rev(stack) == Pick(Iota(n), os, false)
  {
    hide Pick, Rev;
    stack := [];
    var i: nat := n;
    StackBottom(Iota(n), os, []);
    while i > 0
      invariant i <= n
      invariant Rev(stack) == Pick(Iota(n)[i..], os, false) + []
    {
      i := i - 1;
      assert Iota(n)[i..] == [i] + Iota(n)[i + 1..];
      PushStep(stack, i, Iota(n)[i + 1..], os, []);
      if !owned[i] {
        stack := stack + [i];
      }
    }
    assert Iota(n)[0..] == Iota(n);
  }

  lemma StackBottom(s: seq<nat>, seen: set<nat>, base: seq<nat>)
    ensures Pick(s[|s|..], seen, false) + base == base && Rev<nat>([]) == []
  {
  }

  /** Push a list so that it pops in list order, visited positions left out. */
  method PushUnvisited(stack: seq<nat>, list: seq<nat>, visited: array<bool>, ghost seen: set<nat>)
    returns (pushed: seq<nat>)
    requires forall t :: t in list ==> t < visited.Length && (visited[t] <==> t in seen)
    ensures Rev(pushed) == Pick(list, seen, false) + Rev(stack)
  {
    hide Pick, Rev;
    pushed := stack;
    var i: nat := |list|;
    StackBottom(list, seen, Rev(stack));
    while i > 0
      invariant i <= |list|
      invariant Rev(pushed) == Pick(list[i..], seen, false) + Rev(stack)
    {
      i := i - 1;
      assert list[i..] == [list[i]] + list[i + 1..] && list[i] in list;
      PushStep(pushed, list[i], list[i + 1..], seen, Rev(stack));
      if !visited[list[i]] {
        pushed := pushed + [list[i]];
      }
    }
    assert list[0..] == list;
  }

  /** The canonical order over positions: the loop is the walk, and the walk is `Canon`. */
  method OwnershipPreorder(n: nat, kids: Lists, rels: Lists) returns (order: seq<nat>)
    requires Adjacency(n, kids, rels)
    ensures Arranges(PositionGraph(kids, rels), Iota(n))
    ensures order == Canon(PositionGraph(kids, rels), Iota(n))
    ensures
      var g := PositionGraph(kids, rels);
      && Closed(g) && In(g, Roots(g, Iota(n)))
      && order == Preordered(g, Roots(g, Iota(n)), Iota(n))
  {
    AdjacencyArranges(n, kids, rels);
    CanonIsPreorder(PositionGraph(kids, rels), Iota(n));
    ghost var g := PositionGraph(kids, rels);
    var owned := MarkOwned(n, kids, rels);
    var stack := StartStack(n, owned, Owned(g));
    var visited: array<bool>;
    order, visited := WalkLoop(n, kids, rels, stack);
    order := AppendUnvisited(n, order, visited);
  }

  method WalkLoop(n: nat, kids: Lists, rels: Lists, start: seq<nat>)
    returns (order: seq<nat>, visited: array<bool>)
    requires Adjacency(n, kids, rels) && Closed(PositionGraph(kids, rels))
    requires In(PositionGraph(kids, rels), Rev(start))
    ensures order == Walk(PositionGraph(kids, rels), Rev(start), [])
    ensures visited.Length == n && Flagged(visited[..], order)
  {
    assert |kids| == |rels| == n;
    hide Walk, Closed, PositionGraph, Rev, Adjacency, Flagged, In, Walking, Unwalked;
    ghost var g := PositionGraph(kids, rels);
    visited := new bool[n](_ => false);
    order := [];
    NoneFlagged(visited[..]);
    WalkStarts(g, start);
    var stack := start;
    while stack != []
      invariant Walking(g, start, stack, order) && Flagged(visited[..], order)
      decreases Unwalked(g, order), |stack|
    {
      stack, order := WalkTurn(n, kids, rels, start, stack, order, visited);
    }
    WalkDone(g, start, order);
  }

  /** Pop a position; unless it is flagged, flag it and push its children that are not. */
  method WalkTurn(
      n: nat, kids: Lists, rels: Lists, ghost start: seq<nat>, stack: seq<nat>, order: seq<nat>, visited: array<bool>)
    returns (left: seq<nat>, walked: seq<nat>)
    requires Adjacency(n, kids, rels) && Closed(PositionGraph(kids, rels))
    requires In(PositionGraph(kids, rels), Rev(start)) && stack != []
    requires Walking(PositionGraph(kids, rels), start, stack, order)
    requires visited.Length == n && Flagged(visited[..], order)
    modifies visited
    ensures Walking(PositionGraph(kids, rels), start, left, walked) && Flagged(visited[..], walked)
    ensures
      var g := PositionGraph(kids, rels);
      Unwalked(g, walked) < Unwalked(g, order) || (walked == order && |left| < |stack|)
  {
    hide Walk, Closed, Rev, Flagged, In, Walking, Unwalked, Opened, Pick;
    ghost var g := PositionGraph(kids, rels);
    var i := stack[|stack| - 1];
    var rest := stack[..|stack| - 1];
    Popped(g, start, stack, order);
    InRange(n, kids, rels, i);
    FlaggedAt(visited[..], order, i);
    if visited[i] {
      return rest, order;
    }
    ghost var was := visited[..];
    visited[i] := true;
    assert visited[..] == was[i := true];
    left := PushChildren(rest, kids[i], rels[i], visited, order + [i]);
    walked := order + [i];
    OpenedPosition(n, kids, rels, i, order);
    Visited(g, start, rest, i, order, left);
  }

  ghost function Unwalked(g: Graph<nat>, order: seq<nat>): nat {
    |g.kids.Keys - Elems(order)|
  }

  /** Going on from this stack ends where the whole walk does. */
  ghost predicate Walking(g: Graph<nat>, start: seq<nat>, stack: seq<nat>, order: seq<nat>)
    requires Closed(g) && In(g, Rev(start))
  {
    In(g, Rev(stack)) && Walk(g, Rev(stack), order) == Walk(g, Rev(start), [])
  }

  lemma WalkStarts(g: Graph<nat>, start: seq<nat>)
    requires Closed(g) && In(g, Rev(start))
    ensures Walking(g, start, start, [])
  {
    hide Walk, Closed, Rev;
  }

  lemma WalkDone(g: Graph<nat>, start: seq<nat>, order: seq<nat>)
    requires Closed(g) && In(g, Rev(start)) && Walking(g, start, [], order)
    ensures order == Walk(g, Rev(start), [])
  {
  }

  lemma InRange(n: nat, kids: Lists, rels: Lists, i: nat)
    requires Adjacency(n, kids, rels) && i in PositionGraph(kids, rels).kids
    ensures i < n && i < |kids| && i < |rels| && forall t :: t in kids[i] || t in rels[i] ==> t < n
  {
  }

  /** The flags set are those of the positions in `order`. */
  ghost predicate Flagged(flags: seq<bool>, order: seq<nat>) {
    forall t: nat :: t < |flags| ==> (flags[t] <==> t in order)
  }

  lemma NoneFlagged(flags: seq<bool>)
    requires forall t :: 0 <= t < |flags| ==> !flags[t]
    ensures Flagged(flags, [])
  {
  }

  lemma FlaggedAt(flags: seq<bool>, order: seq<nat>, i: nat)
    requires Flagged(flags, order) && i < |flags|
    ensures flags[i] <==> i in order
    ensures Flagged(flags[i := true], order + [i])
  {
  }

  lemma OpenedPosition(n: nat, kids: Lists, rels: Lists, i: nat, order: seq<nat>)
    requires Adjacency(n, kids, rels) && Closed(PositionGraph(kids, rels)) && i < n
    ensures i in PositionGraph(kids, rels).kids
    ensures
      Opened(PositionGraph(kids, rels), i, order)
      == Pick(kids[i], Elems(order + [i]), false) + Pick(rels[i], Elems(order + [i]), false)
  {
    PickAppend(kids[i], rels[i], Elems(order + [i]), false);
  }

  /** Relationships go below what is owned, so that owned elements come first. */
  method PushChildren(stack: seq<nat>, kids: seq<nat>, rels: seq<nat>, visited: array<bool>, ghost seen: seq<nat>)
    returns (pushed: seq<nat>)
    requires Flagged(visited[..], seen) && forall t :: t in kids || t in rels ==> t < visited.Length
    ensures Rev(pushed) == Pick(kids, Elems(seen), false) + Pick(rels, Elems(seen), false) + Rev(stack)
  {
    hide Pick, Rev;
    pushed := PushUnvisited(stack, rels, visited, Elems(seen));
    pushed := PushUnvisited(pushed, kids, visited, Elems(seen));
  }

  lemma Popped(g: Graph<nat>, start: seq<nat>, stack: seq<nat>, order: seq<nat>)
    requires stack != [] && Closed(g) && In(g, Rev(start)) && Walking(g, start, stack, order)
    ensures
      var i, rest := stack[|stack| - 1], stack[..|stack| - 1];
      && i in g.kids && In(g, Rev(rest)) && In(g, [i] + Rev(rest))
      && (i in order ==> Walking(g, start, rest, order))
      && (i !in order ==> Walk(g, [i] + Rev(rest), order) == Walk(g, Rev(start), []))
  {
    hide Walk, Closed, Opened;
    var i, rest := stack[|stack| - 1], stack[..|stack| - 1];
    assert stack == rest + [i];
    RevPush(rest, i);
    assert Rev(stack)[0] == i;
    WalkStep(g, i, Rev(rest), order);
  }

  lemma Visited(g: Graph<nat>, start: seq<nat>, rest: seq<nat>, i: nat, order: seq<nat>, stack: seq<nat>)
    requires Closed(g) && In(g, Rev(start)) && i in g.kids && In(g, Rev(rest)) && In(g, [i] + Rev(rest))
    requires i !in order && Walk(g, [i] + Rev(rest), order) == Walk(g, Rev(start), [])
    requires Rev(stack) == Opened(g, i, order) + Rev(rest)
    ensures Walking(g, start, stack, order + [i])
    ensures Unwalked(g, order + [i]) < Unwalked(g, order)
  {
    hide Walk, Closed, Opened, Rev, In;
    WalkStep(g, i, Rev(rest), order);
  }

  method AppendUnvisited(n: nat, walked: seq<nat>, visited: array<bool>) returns (order: seq<nat>)
    requires visited.Length == n && Flagged(visited[..], walked)
    ensures order == walked + Pick(Iota(n), Elems(walked), false)
  {
    hide Pick;
    order := walked;
    ghost var seen := Elems(walked);
    assert forall t: nat :: t in seen <==> t in walked;
    assert Iota(n)[..0] == [];
    PickEmpty<nat>(seen, false);
    for i := 0 to n
      invariant order == walked + Pick(Iota(n)[..i], seen, false)
    {
      assert Iota(n)[..i + 1] == Iota(n)[..i] + [i];
      PickLast<nat>(Iota(n)[..i], i, seen, false);
      ghost var part := Pick(Iota(n)[..i], seen, false);
      assert part + [] == part && walked + (part + [i]) == (walked + part) + [i];
      if !visited[i] {
        order := order + [i];
      }
    }
    assert Iota(n)[..n] == Iota(n);
  }
}
