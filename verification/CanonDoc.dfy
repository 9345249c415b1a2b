/** The canonical order of a document: the ownership preorder over its identities. */
module CanonDoc {
  import opened Wrappers
  import opened Seqs
  import opened Model
  import opened Owners
  import opened Order
  import opened Preorder

  /** The element with identity `u`. */
  function At(doc: Doc, u: Uuid): (e: Element)
    requires u in Ids(doc)
    ensures e.id == u && e in doc
  {
    doc[IndexOf(Ids(doc), u)]
  }

  lemma AtPosition(doc: Doc, i: nat)
    requires DistinctIds(doc) && i < |doc|
    ensures doc[i].id in Ids(doc) && At(doc, doc[i].id) == doc[i]
  {
    assert Ids(doc)[i] == doc[i].id;
    IndexOfNoDup(Ids(doc), i);
  }

  /** The in-document targets of an ownership list. */
  function Targets(doc: Doc, e: Element, key: Prop): seq<Uuid> {
    Pick(ListIds(e, key), Elems(Ids(doc)), true)
  }

  function GraphOf(doc: Doc): (g: Graph<Uuid>)
    ensures g.kids.Keys == g.rels.Keys == Elems(Ids(doc))
  {
    Graph(
      map u | u in Elems(Ids(doc)) :: Targets(doc, At(doc, u), OwnedRelatedElement),
      map u | u in Elems(Ids(doc)) :: Targets(doc, At(doc, u), OwnedRelationship))
  }

  lemma GraphArranged(doc: Doc)
    requires DistinctIds(doc)
    ensures Arranges(GraphOf(doc), Ids(doc))
  {
    var g := GraphOf(doc);
    assert g.kids.Keys == Elems(Ids(doc)) == g.rels.Keys;
  }

  /** The elements of `doc` with the identities `us`, in that order. */
  function Select(doc: Doc, us: seq<Uuid>): (r: Doc)
    requires forall u :: u in us ==> u in Ids(doc)
    ensures |r| == |us| && forall i :: 0 <= i < |us| ==> r[i] == At(doc, us[i])
    ensures Ids(r) == us
  {
    seq(|us|, i requires 0 <= i < |us| => At(doc, us[i]))
  }

  function CanonIds(doc: Doc): (us: seq<Uuid>)
    requires DistinctIds(doc)
    ensures NoDup(us) && |us| == |doc| && forall u :: u in us <==> u in Ids(doc)
  {
    GraphArranged(doc);
    CanonElems(GraphOf(doc), Ids(doc));
    Canon(GraphOf(doc), Ids(doc))
  }

  lemma CanonElems<T(!new)>(g: Graph<T>, arr: seq<T>)
    requires Arranges(g, arr)
    ensures forall u :: u in Canon(g, arr) <==> u in arr
    ensures NoDup(Canon(g, arr)) && |Canon(g, arr)| == |arr|
  {
    hide Canon, Closed;
    CanonPermutes(g, arr);
    forall u ensures u in Canon(g, arr) <==> u in arr {
      assert u in Elems(Canon(g, arr)) <==> u in Elems(arr);
    }
  }

  /** The document's elements in canonical order. */
  function Canonical(doc: Doc): (r: Doc)
    requires DistinctIds(doc)
    ensures |r| == |doc| && Ids(r) == CanonIds(doc) && DistinctIds(r)
  {
    GraphArranged(doc);
    CanonElems(GraphOf(doc), Ids(doc));
    Select(doc, CanonIds(doc))
  }

  /** Two documents hold the same elements. */
  ghost predicate SameElements(a: Doc, b: Doc) {
    && DistinctIds(a) && DistinctIds(b)
    && (forall u :: u in Ids(a) <==> u in Ids(b))
    && forall u :: u in Ids(a) ==> At(a, u) == At(b, u)
  }

  lemma SelectSame(doc: Doc, us: seq<Uuid>)
    requires DistinctIds(doc) && NoDup(us) && forall u :: u in us <==> u in Ids(doc)
    ensures SameElements(doc, Select(doc, us))
  {
    var r := Select(doc, us);
    forall u | u in Ids(doc) ensures At(doc, u) == At(r, u) {
      var i :| 0 <= i < |us| && us[i] == u;
      AtPosition(r, i);
    }
  }

  /** Canonicalising keeps the elements. */
  lemma CanonDocSame(doc: Doc)
    requires DistinctIds(doc)
    ensures SameElements(doc, Canonical(doc))
  {
    hide Canon, GraphOf;
    SelectSame(doc, CanonIds(doc));
  }

  /** Documents with the same identities and forward lists, whatever their order. */
  ghost predicate SameForwards(a: Doc, b: Doc) {
    && DistinctIds(a) && DistinctIds(b)
    && (forall u :: u in Ids(a) <==> u in Ids(b))
    && forall u :: u in Ids(a) ==> SameForward(At(a, u), At(b, u))
  }

  /** The graph reads identities and forward lists alone, so order and backpointers do not matter. */
  lemma GraphSame(a: Doc, b: Doc)
    requires SameForwards(a, b)
    ensures GraphOf(a) == GraphOf(b)
  {
    hide GraphOf, SameForwards;
    var g, h := GraphOf(a), GraphOf(b);
    SameIds(a, b);
    forall u | u in Elems(Ids(a))
      ensures g.kids[u] == h.kids[u] && g.rels[u] == h.rels[u]
    {
      NodeSame(a, b, u);
    }
    assert g.kids == h.kids && g.rels == h.rels;
  }

  lemma SameIds(a: Doc, b: Doc)
    requires SameForwards(a, b)
    ensures Elems(Ids(a)) == Elems(Ids(b))
  {
  }

  lemma NodeSame(a: Doc, b: Doc, u: Uuid)
    requires SameForwards(a, b) && u in Ids(a) && Elems(Ids(a)) == Elems(Ids(b))
    ensures GraphOf(a).kids[u] == GraphOf(b).kids[u] && GraphOf(a).rels[u] == GraphOf(b).rels[u]
  {
    hide At, ListIds, Pick;
    assert SameForward(At(a, u), At(b, u));
  }

  lemma SameElementsForwards(a: Doc, b: Doc)
    requires SameElements(a, b)
    ensures SameForwards(a, b)
  {
  }

  /** Canonical order is a fixed point. */
  lemma CanonDocIdempotent(doc: Doc)
    requires DistinctIds(doc)
    ensures Canonical(Canonical(doc)) == Canonical(doc)
  {
    hide Canon, GraphOf, At;
    var c := Canonical(doc);
    CanonDocSame(doc);
    SameElementsForwards(doc, c);
    GraphSame(doc, c);
    GraphArranged(doc);
    CanonIdempotent(GraphOf(doc), Ids(doc));
    assert CanonIds(c) == Ids(c);
    SelectAll(c);
  }

  lemma SelectAll(doc: Doc)
    requires DistinctIds(doc)
    ensures Select(doc, Ids(doc)) == doc
  {
    forall i | 0 <= i < |doc| ensures Select(doc, Ids(doc))[i] == doc[i] {
      AtPosition(doc, i);
    }
  }

  /** `b` lists the roots of `a`, and what they do not reach, in the order `a` does. */
  ghost predicate SameLoose(a: Doc, b: Doc)
    requires DistinctIds(a)
  {
    GraphArranged(a);
    var g := GraphOf(a);
    && Roots(g, Ids(a)) == Roots(g, Ids(b))
    && Pick(Ids(a), Elems(Reached(g, Ids(a))), false) == Pick(Ids(b), Elems(Reached(g, Ids(a))), false)
  }

  /** Emission order does not matter: only the roots' order and that of unreached elements do. */
  lemma CanonDocDependsOn(a: Doc, b: Doc)
    requires SameElements(a, b) && SameLoose(a, b)
    ensures Canonical(a) == Canonical(b)
  {
    hide Canon, GraphOf, Roots, Reached;
    SameElementsForwards(a, b);
    GraphSame(a, b);
    GraphArranged(a);
    GraphArranged(b);
    CanonDependsOn(GraphOf(a), Ids(a), Ids(b));
    assert CanonIds(a) == CanonIds(b);
    SelectAgrees(a, b, CanonIds(a));
  }

  lemma SelectAgrees(a: Doc, b: Doc, us: seq<Uuid>)
    requires SameElements(a, b) && forall u :: u in us ==> u in Ids(a)
    ensures Select(a, us) == Select(b, us)
  {
  }

  // ---- the order, by the properties' names ------------------------------------------

  /** No element's `ownedRelatedElement` or `ownedRelationship` list names `u`. */
  ghost predicate Unowned(doc: Doc, u: Uuid) {
    forall e :: e in doc ==> u !in ListIds(e, OwnedRelatedElement) && u !in ListIds(e, OwnedRelationship)
  }

  /** The identities no list of the document names, in document order. */
  ghost function Tops(doc: Doc, us: seq<Uuid>): seq<Uuid> {
    if us == [] then [] else (if Unowned(doc, us[0]) then [us[0]] else []) + Tops(doc, us[1..])
  }

  /**
    The ownership preorder of a document: an element, then what its `ownedRelatedElement` list
    names, then what its `ownedRelationship` list names, each once and in-document only.
   */
  function Descend(doc: Doc, todo: seq<Uuid>, seen: seq<Uuid>): (order: seq<Uuid>)
    ensures seen <= order
    decreases |Elems(Ids(doc)) - Elems(seen)|, |todo|
  {
    if todo == [] then seen
    else
      var u := todo[0];
      if u in seen || u !in Ids(doc) then Descend(doc, todo[1..], seen)
      else
        Deeper(Elems(Ids(doc)), seen, u, seen + [u]);
        var below := Descend(doc, ListIds(At(doc, u), OwnedRelatedElement), seen + [u]);
        Deeper(Elems(Ids(doc)), seen, u, below);
        var after := Descend(doc, ListIds(At(doc, u), OwnedRelationship), below);
        Prefixes(seen + [u], below, after);
        Deeper(Elems(Ids(doc)), seen, u, after);
        var order := Descend(doc, todo[1..], after);
        Prefixes(seen, after, order);
        order
  }

  /** The order to be: preorder from the unowned elements, then the rest as they stand. */
  ghost function PreorderIds(doc: Doc): seq<Uuid> {
    var order := Descend(doc, Tops(doc, Ids(doc)), []);
    order + Pick(Ids(doc), Elems(order), false)
  }

  lemma OwnedByName(doc: Doc, u: Uuid)
    requires DistinctIds(doc) && u in Ids(doc)
    ensures u in Owned(GraphOf(doc)) <==> !Unowned(doc, u)
  {
    hide ListIds, DistinctIds;
    var g := GraphOf(doc);
    if u in Owned(g) {
      var x :| x in g.kids.Keys && u in Children(g, x);
      assert At(doc, x) in doc;
    }
    if e :| e in doc && (u in ListIds(e, OwnedRelatedElement) || u in ListIds(e, OwnedRelationship)) {
      var i :| 0 <= i < |doc| && doc[i] == e;
      AtPosition(doc, i);
      assert u in Targets(doc, e, OwnedRelatedElement) || u in Targets(doc, e, OwnedRelationship);
      assert e.id in g.kids.Keys && u in Children(g, e.id);
    }
  }

  lemma {:induction false} RootsByName(doc: Doc, us: seq<Uuid>)
    requires DistinctIds(doc) && forall u :: u in us ==> u in Ids(doc)
    ensures Roots(GraphOf(doc), us) == Tops(doc, us)
  {
    hide GraphOf, Owned, Unowned, DistinctIds;
    if us != [] {
      assert us[0] in us && us == [us[0]] + us[1..];
      OwnedByName(doc, us[0]);
      PickHead(us[0], us[1..], Owned(GraphOf(doc)), false);
      RootsByName(doc, us[1..]);
    }
  }

  lemma ListsAt(doc: Doc, u: Uuid)
    requires u in Ids(doc)
    ensures
      var g := GraphOf(doc);
      && u in g.kids && u in g.rels
      && g.kids[u] == Pick(ListIds(At(doc, u), OwnedRelatedElement), Elems(Ids(doc)), true)
      && g.rels[u] == Pick(ListIds(At(doc, u), OwnedRelationship), Elems(Ids(doc)), true)
  {
    hide ListIds, At;
  }

  /** The graph's preorder over the in-document part of a list is the document's over the list. */
  lemma {:induction false} VisitByName(doc: Doc, todo: seq<Uuid>, seen: seq<Uuid>)
    requires Closed(GraphOf(doc))
    ensures In(GraphOf(doc), Pick(todo, Elems(Ids(doc)), true))
    ensures Visit(GraphOf(doc), Pick(todo, Elems(Ids(doc)), true), seen) == Descend(doc, todo, seen)
    decreases |Elems(Ids(doc)) - Elems(seen)|, |todo|
  {
    hide GraphOf, At, ListIds, Visit, Descend, Closed, Pick;
    var g, held := GraphOf(doc), Elems(Ids(doc));
    PickedIn(doc, todo);
    if todo == [] {
      PickEmpty(held, true);
      NothingLeft(doc, seen);
    } else {
      var u, rest := todo[0], todo[1..];
      assert todo == [u] + rest;
      PickHead(u, rest, held, true);
      assert [] + Pick(rest, held, true) == Pick(rest, held, true);
      DescendStep(doc, u, rest, seen);
      PickedIn(doc, rest);
      if u !in held {
        VisitByName(doc, rest, seen);
      } else {
        VisitStep(g, u, Pick(rest, held, true), seen);
        ListsAt(doc, u);
        if u in seen {
          VisitByName(doc, rest, seen);
        } else {
          var e := At(doc, u);
          var below := Descend(doc, ListIds(e, OwnedRelatedElement), seen + [u]);
          var after := Descend(doc, ListIds(e, OwnedRelationship), below);
          VisitByName(doc, ListIds(e, OwnedRelatedElement), seen + [u]);
          VisitByName(doc, ListIds(e, OwnedRelationship), below);
          VisitByName(doc, rest, after);
        }
      }
    }
  }

  lemma PickedIn(doc: Doc, todo: seq<Uuid>)
    ensures In(GraphOf(doc), Pick(todo, Elems(Ids(doc)), true))
  {
  }

  lemma NothingLeft(doc: Doc, seen: seq<Uuid>)
    requires Closed(GraphOf(doc))
    ensures In(GraphOf(doc), []) && Visit(GraphOf(doc), [], seen) == seen && Descend(doc, [], seen) == seen
  {
    hide GraphOf;
  }

  /** One turn of the document's preorder. */
  lemma DescendStep(doc: Doc, u: Uuid, rest: seq<Uuid>, seen: seq<Uuid>)
    ensures
      if u in seen || u !in Elems(Ids(doc)) then Descend(doc, [u] + rest, seen) == Descend(doc, rest, seen)
      else
        && u in Ids(doc)
        && var below := Descend(doc, ListIds(At(doc, u), OwnedRelatedElement), seen + [u]);
           var after := Descend(doc, ListIds(At(doc, u), OwnedRelationship), below);
           && Descend(doc, [u] + rest, seen) == Descend(doc, rest, after)
           && |Elems(Ids(doc)) - Elems(seen + [u])| < |Elems(Ids(doc)) - Elems(seen)|
           && |Elems(Ids(doc)) - Elems(below)| < |Elems(Ids(doc)) - Elems(seen)|
           && |Elems(Ids(doc)) - Elems(after)| < |Elems(Ids(doc)) - Elems(seen)|
  {
    hide At, ListIds;
    assert ([u] + rest)[1..] == rest;
    if u !in seen && u in Elems(Ids(doc)) {
      var held := Elems(Ids(doc));
      Deeper(held, seen, u, seen + [u]);
      var below := Descend(doc, ListIds(At(doc, u), OwnedRelatedElement), seen + [u]);
      Deeper(held, seen, u, below);
      var after := Descend(doc, ListIds(At(doc, u), OwnedRelationship), below);
      Prefixes(seen + [u], below, after);
      Deeper(held, seen, u, after);
    }
  }

  /** The canonical order of a document is its ownership preorder, by name. */
  lemma CanonicalIsPreorder(doc: Doc)
    requires DistinctIds(doc)
    ensures CanonIds(doc) == Ids(Canonical(doc)) == PreorderIds(doc)
  {
    hide GraphOf, Descend, Visit, Canon, Roots, DistinctIds, Tops, Pick;
    GraphArranged(doc);
    CanonIsPreorder(GraphOf(doc), Ids(doc));
    RootsByName(doc, Ids(doc));
    TopsHeld(doc, Ids(doc));
    VisitByName(doc, Tops(doc, Ids(doc)), []);
    PickAll(Tops(doc, Ids(doc)), Elems(Ids(doc)), true);
  }

  lemma {:induction false} TopsHeld(doc: Doc, us: seq<Uuid>)
    ensures forall u :: u in Tops(doc, us) ==> u in us
  {
    hide Unowned;
    if us != [] {
      TopsHeld(doc, us[1..]);
    }
  }

  // ---- the order as the code computes it -------------------------------------------

  /** The positions the ownership list `key` of each element names. */
  method PositionLists(doc: Doc, index: map<Uuid, nat>, key: Prop) returns (lists: Lists)
    requires Indexes(doc, index) && DistinctIds(doc)
    ensures |lists| == |doc|
    ensures forall i, t :: 0 <= i < |doc| && t in lists[i] ==> t < |doc|
    ensures forall i :: 0 <= i < |doc| ==> NamesAt(doc, lists[i], Targets(doc, doc[i], key))
  {
    hide Indexes, Targets;
    lists := [];
    for i := 0 to |doc|
      invariant |lists| == i
      invariant forall k, t :: 0 <= k < i && t in lists[k] ==> t < |doc|
      invariant forall k :: 0 <= k < i ==> NamesAt(doc, lists[k], Targets(doc, doc[k], key))
    {
      var list := ResolveList(doc, index, ListIds(doc[i], key));
      assert Targets(doc, doc[i], key) == Pick(ListIds(doc[i], key), Elems(Ids(doc)), true) by {
        TargetsDef(doc, doc[i], key);
      }
      NamedBound(doc, list, Targets(doc, doc[i], key));
      lists := lists + [list];
    }
  }

  lemma TargetsDef(doc: Doc, e: Element, key: Prop)
    ensures Targets(doc, e, key) == Pick(ListIds(e, key), Elems(Ids(doc)), true)
  {
  }

  /** The positions `list` spell the identities `us`. */
  ghost predicate NamesAt(doc: Doc, list: seq<nat>, us: seq<Uuid>) {
    |list| == |us| && forall k :: 0 <= k < |us| ==> list[k] < |doc| && doc[list[k]].id == us[k]
  }

  lemma NamedBound(doc: Doc, list: seq<nat>, us: seq<Uuid>)
    requires NamesAt(doc, list, us)
    ensures forall t :: t in list ==> t < |doc|
  {
  }

  method ResolveList(doc: Doc, index: map<Uuid, nat>, us: seq<Uuid>) returns (list: seq<nat>)
    requires Indexes(doc, index)
    ensures NamesAt(doc, list, Pick(us, Elems(Ids(doc)), true))
  {
    hide Pick;
    list := [];
    ghost var held := Elems(Ids(doc));
    PickEmpty<Uuid>(held, true);
    for k := 0 to |us|
      invariant NamesAt(doc, list, Pick(us[..k], held, true))
    {
      assert us[..k + 1] == us[..k] + [us[k]];
      PickLast(us[..k], us[k], held, true);
      InIndex(doc, index, us[k]);
      if us[k] in index {
        list := list + [index[us[k]]];
      }
    }
    assert us[..|us|] == us;
  }

  lemma InIndex(doc: Doc, index: map<Uuid, nat>, u: Uuid)
    requires Indexes(doc, index)
    ensures u in index <==> u in Elems(Ids(doc))
  {
    if u in Elems(Ids(doc)) {
      var i :| 0 <= i < |doc| && Ids(doc)[i] == u;
      assert doc[i].id == u;
    }
    if u in index {
      assert Ids(doc)[index[u]] == u;
    }
  }

  /** The canonical order as positions of the array: what digests, deltas and applies walk. */
  method CanonicalOrder(doc: Doc) returns (order: seq<nat>)
    requires DistinctIds(doc)
    ensures |order| == |doc| && NamesAt(doc, order, CanonIds(doc)) && NamesAt(doc, order, PreorderIds(doc))
  {
    hide Canon, GraphOf, PreorderIds;
    CanonicalIsPreorder(doc);
    var index := IndexIds(doc);
    var kids := PositionLists(doc, index, OwnedRelatedElement);
    var rels := PositionLists(doc, index, OwnedRelationship);
    order := OwnershipPreorder(|doc|, kids, rels);
    PositionsRename(doc, kids, rels);
    NamedOrder(doc, kids, rels, order);
  }

  ghost function IdAt(doc: Doc): map<nat, Uuid> {
    map i: nat | i < |doc| :: doc[i].id
  }

  /** The position graph is the document's graph with positions spelled as identities. */
  lemma PositionsRename(doc: Doc, kids: Lists, rels: Lists)
    requires DistinctIds(doc) && Adjacency(|doc|, kids, rels)
    requires forall i :: 0 <= i < |doc| ==> NamesAt(doc, kids[i], Targets(doc, doc[i], OwnedRelatedElement))
    requires forall i :: 0 <= i < |doc| ==> NamesAt(doc, rels[i], Targets(doc, doc[i], OwnedRelationship))
    ensures Renames(IdAt(doc), PositionGraph(kids, rels), GraphOf(doc))
  {
    hide GraphOf, PositionGraph, Image;
    var f, g, h := IdAt(doc), PositionGraph(kids, rels), GraphOf(doc);
    AdjacencyArranges(|doc|, kids, rels);
    SpellingValues(doc);
    assert f.Keys == g.kids.Keys by {
      PositionKeys(doc, kids, rels);
    }
    forall i: nat | i in f
      ensures i in g.kids && i in g.rels && f[i] in h.kids
      ensures Covers(f, g.kids[i]) && h.kids[f[i]] == Image(f, g.kids[i])
      ensures Covers(f, g.rels[i]) && h.rels[f[i]] == Image(f, g.rels[i])
    {
      PositionRenames(doc, kids, rels, i);
    }
  }

  lemma PositionKeys(doc: Doc, kids: Lists, rels: Lists)
    requires |kids| == |rels| == |doc|
    ensures PositionGraph(kids, rels).kids.Keys == IdAt(doc).Keys
  {
  }

  lemma PositionRenames(doc: Doc, kids: Lists, rels: Lists, i: nat)
    requires DistinctIds(doc) && Adjacency(|doc|, kids, rels) && i < |doc|
    requires NamesAt(doc, kids[i], Targets(doc, doc[i], OwnedRelatedElement))
    requires NamesAt(doc, rels[i], Targets(doc, doc[i], OwnedRelationship))
    ensures
      var f, g, h := IdAt(doc), PositionGraph(kids, rels), GraphOf(doc);
      && i in f && i in g.kids && i in g.rels && f[i] in h.kids
      && Covers(f, g.kids[i]) && h.kids[f[i]] == Image(f, g.kids[i])
      && Covers(f, g.rels[i]) && h.rels[f[i]] == Image(f, g.rels[i])
  {
    hide Targets, At, NamesAt, Image;
    AtPosition(doc, i);
    NamedImage(doc, kids[i], Targets(doc, doc[i], OwnedRelatedElement));
    NamedImage(doc, rels[i], Targets(doc, doc[i], OwnedRelationship));
  }

  lemma SpellingValues(doc: Doc)
    requires DistinctIds(doc)
    ensures OneToOne(IdAt(doc)) && IdAt(doc).Values == Elems(Ids(doc))
  {
    var f := IdAt(doc);
    forall i: nat, j: nat | i < |doc| && j < |doc| && f[i] == f[j] ensures i == j {
      assert Ids(doc)[i] == Ids(doc)[j];
    }
    forall u ensures u in f.Values <==> u in Elems(Ids(doc)) {
      if u in Elems(Ids(doc)) {
        var i: nat :| i < |doc| && Ids(doc)[i] == u;
        assert i in f && f[i] == u;
      }
      if u in f.Values {
        var i :| i in f && f[i] == u;
        assert Ids(doc)[i] == u;
      }
    }
  }

  lemma NamedImage(doc: Doc, list: seq<nat>, us: seq<Uuid>)
    requires NamesAt(doc, list, us)
    ensures Covers(IdAt(doc), list) && Image(IdAt(doc), list) == us
  {
  }

  lemma NamedOrder(doc: Doc, kids: Lists, rels: Lists, order: seq<nat>)
    requires DistinctIds(doc) && Adjacency(|doc|, kids, rels)
    requires Renames(IdAt(doc), PositionGraph(kids, rels), GraphOf(doc))
    requires Arranges(PositionGraph(kids, rels), Iota(|doc|))
    requires order == Canon(PositionGraph(kids, rels), Iota(|doc|))
    ensures |order| == |doc| && NamesAt(doc, order, CanonIds(doc))
  {
    hide Canon, GraphOf, PositionGraph, Renames;
    var f := IdAt(doc);
    CanonRenames(f, PositionGraph(kids, rels), GraphOf(doc), Iota(|doc|));
    CanonElems(PositionGraph(kids, rels), Iota(|doc|));
    assert Image(f, Iota(|doc|)) == Ids(doc);
    ImageNamed(doc, order);
  }

  lemma ImageNamed(doc: Doc, order: seq<nat>)
    requires Covers(IdAt(doc), order)
    ensures NamesAt(doc, order, Image(IdAt(doc), order))
  {
    forall k | 0 <= k < |order| ensures order[k] < |doc| {
      assert order[k] in order;
    }
  }
}
