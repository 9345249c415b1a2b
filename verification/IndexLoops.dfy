/** The index transition as the code runs it: a work list edited in place, walked, renumbered. */
module IndexLoops {
  import opened Wrappers
  import opened Seqs
  import opened Model
  import opened Patch
  import opened Order
  import opened Preorder
  import opened CanonDoc
  import opened Index

  /** The patch operations in turn, over one node edited in place. */
  method PatchInPlace(start: Node, ops: NamedOps) returns (r: Option<Node>)
    ensures r == PatchNodes(start, ops)
  {
    var node := start;
    for k := 0 to |ops|
      invariant PatchNodes(start, ops) == PatchNodes(node, ops[k..])
    {
      assert ops[k..][1..] == ops[k + 1..];
      var (key, op) := ops[k];
      if key == OwnedRelatedElement || key == OwnedRelationship {
        var list := if key == OwnedRelatedElement then node.kids else node.rels;
        match op {
          case Set(v) =>
            list := if v.Arr? then RefIds(v.items) else [];
          case Unset =>
            list := [];
          case Splice(at, del, items) =>
            if at + del > |list| {
              return None;
            }
            list := list[..at] + RefIds(items) + list[at + del..];
        }
        node := if key == OwnedRelatedElement then node.(kids := list) else node.(rels := list);
      }
    }
    r := Some(node);
  }

  /** Every record in turn, over the nodes, the deletions and what is appended. */
  method RunRecords(tables: Tables, start: seq<Node>, recs: seq<ResolvedRecord>) returns (r: Option<Work>)
    ensures r == AdvanceAll(tables, Work(start, {}, []), recs)
  {
    hide PatchNodes, ElementNode;
    var order, deleted, appended := start, {}, [];
    ghost var all := AdvanceAll(tables, Work(start, {}, []), recs);
    for k := 0 to |recs|
      invariant all == AdvanceAll(tables, Work(order, deleted, appended), recs[k..])
    {
      assert recs[k..][1..] == recs[k + 1..];
      match (recs[k].target, recs[k].payload) {
        case (ToBase(i, _), DeletePayload) =>
          deleted := deleted + {i};
        case (ToBase(i, id), ElementPayload(e)) =>
          var node := ElementNode(tables, id, e);
          if node.None? || i >= |order| {
            return None;
          }
          order := order[i := node.value];
        case (ToBase(i, _), PatchPayload(ops)) =>
          if i >= |order| {
            return None;
          }
          var node := PatchInPlace(order[i], ops);
          if node.None? {
            return None;
          }
          order := order[i := node.value];
        case (ToCreate(id), ElementPayload(e)) =>
          var node := ElementNode(tables, id, e);
          if node.None? {
            return None;
          }
          appended := appended + [node.value];
        case _ =>
          return None;
      }
    }
    r := Some(Work(order, deleted, appended));
  }

  /** The surviving nodes, in order. */
  method Survive(w: Work) returns (nodes: seq<Node>)
    ensures nodes == Undeleted(w, 0)
  {
    nodes := [];
    for i := 0 to |w.order|
      invariant Undeleted(w, 0) == nodes + Undeleted(w, i)
    {
      if i !in w.deleted {
        nodes := nodes + [w.order[i]];
      }
    }
  }

  /** First positions, by identity. */
  method Positions(nodes: seq<Node>) returns (pos: map<Uuid, nat>)
    ensures forall u :: u in pos <==> u in NodeIds(nodes)
    ensures forall u :: u in pos ==> pos[u] == IndexOf(NodeIds(nodes), u)
  {
    pos := map[];
    ghost var ids := NodeIds(nodes);
    for i := 0 to |nodes|
      invariant forall u :: u in pos <==> u in ids[..i]
      invariant forall u :: u in pos ==> pos[u] == IndexOf(ids, u)
    {
      hide NodeIds, IndexOf;
      assert ids[..i + 1] == ids[..i] + [nodes[i].id];
      if nodes[i].id !in pos {
        IndexOfFirst(ids, i);
        pos := pos[nodes[i].id := i];
      }
    }
    assert NodeIds(nodes)[..|nodes|] == NodeIds(nodes);
  }

  /** Identities resolved to positions; those outside are dropped. */
  method Locate(ids: seq<Uuid>, pos: map<Uuid, nat>, us: seq<Uuid>) returns (list: seq<nat>)
    requires forall u :: u in pos <==> u in ids
    requires forall u :: u in pos ==> pos[u] == IndexOf(ids, u)
    ensures list == Located(ids, us)
  {
    list := [];
    for k := 0 to |us|
      invariant Located(ids, us) == list + Located(ids, us[k..])
    {
      assert us[k..][1..] == us[k + 1..];
      if us[k] in pos {
        list := list + [pos[us[k]]];
      }
    }
  }

  method LocateAll(nodes: seq<Node>, pos: map<Uuid, nat>, kids: bool) returns (lists: Lists)
    requires forall u :: u in pos <==> u in NodeIds(nodes)
    requires forall u :: u in pos ==> pos[u] == IndexOf(NodeIds(nodes), u)
    ensures lists == NodeLists(NodeIds(nodes), nodes, kids)
  {
    hide Located;
    lists := [];
    for i := 0 to |nodes|
      invariant |lists| == i
      invariant forall k :: 0 <= k < i ==> lists[k] == NodeLists(NodeIds(nodes), nodes, kids)[k]
    {
      var list := Locate(NodeIds(nodes), pos, if kids then nodes[i].kids else nodes[i].rels);
      lists := lists + [list];
    }
  }

  /** The walk's inverse: each position's place in it. */
  method Places(walk: seq<nat>) returns (renum: map<nat, nat>)
    requires NoDup(walk)
    ensures forall i :: i in renum <==> i in walk
    ensures forall i :: i in renum ==> renum[i] == IndexOf(walk, i)
  {
    renum := map[];
    for k := 0 to |walk|
      invariant forall i :: i in renum <==> i in walk[..k]
      invariant forall i :: i in renum ==> renum[i] == IndexOf(walk, i)
    {
      IndexOfNoDup(walk, k);
      renum := renum[walk[k] := k];
      assert walk[..k + 1] == walk[..k] + [walk[k]];
    }
    assert walk[..|walk|] == walk;
  }

  method RenumberList(walk: seq<nat>, renum: map<nat, nat>, list: seq<nat>) returns (r: seq<nat>)
    requires (forall i :: i in renum ==> renum[i] == IndexOf(walk, i)) && forall t :: t in list ==> t in renum
    ensures r == Renumber(walk, list)
  {
    r := [];
    for k := 0 to |list|
      invariant |r| == k && forall j :: 0 <= j < k ==> r[j] == IndexOf(walk, list[j])
    {
      assert list[k] in list;
      r := r + [renum[list[k]]];
    }
  }

  /** Every list, in walk order, renumbered. */
  method RenumberAll(walk: seq<nat>, renum: map<nat, nat>, lists: Lists) returns (r: Lists)
    requires Visits(walk, |lists|) && (forall i :: i in renum ==> renum[i] == IndexOf(walk, i))
    requires forall i, t :: 0 <= i < |lists| && t in lists[i] ==> t in renum
    ensures r == WalkedLists(lists, walk)
  {
    hide Renumber, WalkedLists;
    r := [];
    for k := 0 to |walk|
      invariant |r| == k && forall j :: 0 <= j < k ==> r[j] == WalkedLists(lists, walk)[j]
    {
      assert walk[k] in walk;
      var list := RenumberList(walk, renum, lists[walk[k]]);
      r := r + [list];
    }
  }

  method WalkIds(nodes: seq<Node>, walk: seq<nat>) returns (ids: seq<Uuid>, types: seq<nat>)
    requires Visits(walk, |nodes|)
    ensures ids == NodeIds(Walked(nodes, walk)) && types == NodeTypes(Walked(nodes, walk))
  {
    ids, types := [], [];
    for k := 0 to |walk|
      invariant |ids| == |types| == k
      invariant forall j :: 0 <= j < k ==> ids[j] == Walked(nodes, walk)[j].id
      invariant forall j :: 0 <= j < k ==> types[j] == Walked(nodes, walk)[j].ty
    {
      assert walk[k] in walk;
      ids, types := ids + [nodes[walk[k]].id], types + [nodes[walk[k]].ty];
    }
  }

  /** A node list walked in canonical order and renumbered by the walk. */
  method SettleNodes(nodes: seq<Node>) returns (r: BaseIndex)
    ensures r == Settle(nodes)
  {
    hide Canon, PositionGraph, Located, NodeWalk, Renumber, WalkedLists, Walked;
    var pos := Positions(nodes);
    var kids := LocateAll(nodes, pos, true);
    var rels := LocateAll(nodes, pos, false);
    var walk := OwnershipPreorder(|nodes|, kids, rels);
    WalkIs(nodes);
    var renum := Places(walk);
    var ids, types := WalkIds(nodes, walk);
    var newKids := RenumberAll(walk, renum, kids);
    var newRels := RenumberAll(walk, renum, rels);
    r := BaseIndex(ids, types, newKids, newRels);
  }

  lemma WalkIs(nodes: seq<Node>)
    ensures
      var ids := NodeIds(nodes);
      var kids, rels := NodeLists(ids, nodes, true), NodeLists(ids, nodes, false);
      && Arranges(PositionGraph(kids, rels), Iota(|nodes|))
      && NodeWalk(nodes) == Canon(PositionGraph(kids, rels), Iota(|nodes|))
    ensures NoDup(NodeWalk(nodes)) && forall t: nat :: t < |nodes| ==> t in NodeWalk(nodes)
  {
    hide Canon, PositionGraph, Located;
    var ids := NodeIds(nodes);
    var kids, rels := NodeLists(ids, nodes, true), NodeLists(ids, nodes, false);
    AdjacencyArranges(|nodes|, kids, rels);
    CanonElems(PositionGraph(kids, rels), Iota(|nodes|));
    forall t: nat | t < |nodes| ensures t in NodeWalk(nodes) {
      assert Iota(|nodes|)[t] == t;
    }
  }

  /** The whole transition. */
  method RunTransition(tables: Tables, delta: Resolved, base: BaseIndex) returns (r: Result<BaseIndex>)
    requires WellFormed(base)
    ensures r == Transition(tables, delta, base)
  {
    hide AdvanceAll, Settle, Undeleted, BaseNodes, WellFormed;
    if delta.portable {
      return Err(Malformed);
    }
    var w := RunRecords(tables, BaseNodes(base), delta.records);
    if w.None? {
      return Err(Malformed);
    }
    var nodes := Survive(w.value);
    nodes := nodes + w.value.appended;
    if |nodes| > ADJACENCY_END {
      return Err(Malformed);
    }
    var index := SettleNodes(nodes);
    r := Ok(index);
  }
}
