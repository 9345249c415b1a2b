/** The index transition commutes with applying: the proof. */
module TransitionCommutes {
  import opened Wrappers
  import opened Seqs
  import opened Cbor
  import opened Model
  import opened Owners
  import opened Values
  import opened Records
  import opened Sections
  import opened Snapshot
  import opened Patch
  import opened Order
  import opened Preorder
  import opened CanonDoc
  import opened Acts
  import opened Delta
  import opened Apply
  import opened DeltaTheorems
  import opened Lenient
  import opened Index

  // ---- settling nodes is indexing the document they reflect ------------------------

  function NodeOf(tables: Tables, e: Element): Node {
    Node(e.id, TypeCode(tables, e.ty), ListIds(e, OwnedRelatedElement), ListIds(e, OwnedRelationship))
  }

  ghost predicate Reflect(tables: Tables, nodes: seq<Node>, doc: Doc) {
    |nodes| == |doc| && forall i :: 0 <= i < |doc| ==> nodes[i] == NodeOf(tables, doc[i])
  }

  lemma {:induction false} LocatedNamed(doc: Doc, us: seq<Uuid>)
    ensures NamesAt(doc, Located(Ids(doc), us), Pick(us, Elems(Ids(doc)), true))
  {
    hide NamesAt, Ids, Located, Pick;
    NamesNone(doc);
    LocatedStep(Ids(doc), us);
    PickEmpty(Elems(Ids(doc)), true);
    if us != [] {
      var u, rest := us[0], us[1..];
      LocatedNamed(doc, rest);
      assert us == [u] + rest;
      PickHead(u, rest, Elems(Ids(doc)), true);
      var named := Pick(rest, Elems(Ids(doc)), true);
      assert [] + named == named;
      if u in Ids(doc) {
        NamesMore(doc, IndexOf(Ids(doc), u), Located(Ids(doc), rest), u, named);
      }
    }
  }

  lemma NamesNone(doc: Doc)
    ensures NamesAt(doc, [], [])
  {
  }

  lemma NamesMore(doc: Doc, t: nat, list: seq<nat>, u: Uuid, us: seq<Uuid>)
    requires t < |Ids(doc)| && Ids(doc)[t] == u && NamesAt(doc, list, us)
    ensures NamesAt(doc, [t] + list, [u] + us)
  {
  }

  /** Renumbering positions by a walk is locating the identities in the walked order. */
  lemma {:induction false} RenumberLocated(doc: Doc, walk: seq<nat>, order: seq<Uuid>, us: seq<Uuid>)
    requires DistinctIds(doc) && NoDup(order) && NamesAt(doc, walk, order)
    requires forall u :: u in order <==> u in Ids(doc)
    ensures Renumber(walk, Located(Ids(doc), us)) == Located(order, us)
  {
    hide Renumber, NamesAt, DistinctIds, NoDup;
    if us == [] {
      RenumberNone(walk);
    } else {
      RenumberLocated(doc, walk, order, us[1..]);
      var here := if us[0] in Ids(doc) then [IndexOf(Ids(doc), us[0])] else [];
      RenumberAppend(walk, here, Located(Ids(doc), us[1..]));
      if us[0] in Ids(doc) {
        WalkPosition(doc, walk, order, us[0]);
        RenumberOne(walk, IndexOf(Ids(doc), us[0]));
      } else {
        RenumberNone(walk);
      }
    }
  }

  lemma RenumberNone(walk: seq<nat>)
    ensures Renumber(walk, []) == []
  {
  }

  lemma RenumberOne(walk: seq<nat>, t: nat)
    ensures Renumber(walk, [t]) == [IndexOf(walk, t)]
  {
  }

  lemma RenumberAppend(walk: seq<nat>, a: seq<nat>, b: seq<nat>)
    ensures Renumber(walk, a + b) == Renumber(walk, a) + Renumber(walk, b)
  {
  }

  lemma WalkPosition(doc: Doc, walk: seq<nat>, order: seq<Uuid>, u: Uuid)
    requires DistinctIds(doc) && NoDup(order) && NamesAt(doc, walk, order) && u in order
    ensures u in Ids(doc) && IndexOf(walk, IndexOf(Ids(doc), u)) == IndexOf(order, u)
  {
    var m := IndexOf(order, u);
    assert Ids(doc)[walk[m]] == u;
    IndexOfNoDup(Ids(doc), walk[m]);
    forall a, b | 0 <= a < b < |walk| ensures walk[a] != walk[b] {
      assert order[a] != order[b];
    }
    IndexOfNoDup(walk, m);
  }

  lemma ReflectedLists(tables: Tables, nodes: seq<Node>, doc: Doc)
    requires DistinctIds(doc) && Reflect(tables, nodes, doc)
    ensures NodeIds(nodes) == Ids(doc)
    ensures
      var kids, rels := NodeLists(Ids(doc), nodes, true), NodeLists(Ids(doc), nodes, false);
      && (forall i :: 0 <= i < |doc| ==> NamesAt(doc, kids[i], Targets(doc, doc[i], OwnedRelatedElement)))
      && (forall i :: 0 <= i < |doc| ==> NamesAt(doc, rels[i], Targets(doc, doc[i], OwnedRelationship)))
  {
    hide Located, NamesAt;
    forall i | 0 <= i < |doc|
      ensures
        && NamesAt(doc, Located(Ids(doc), nodes[i].kids), Targets(doc, doc[i], OwnedRelatedElement))
        && NamesAt(doc, Located(Ids(doc), nodes[i].rels), Targets(doc, doc[i], OwnedRelationship))
    {
      LocatedNamed(doc, nodes[i].kids);
      LocatedNamed(doc, nodes[i].rels);
    }
  }

  /** The walk over nodes is the canonical order of the document they reflect. */
  lemma ReflectedWalk(tables: Tables, nodes: seq<Node>, doc: Doc)
    requires DistinctIds(doc) && Reflect(tables, nodes, doc)
    ensures NamesAt(doc, NodeWalk(nodes), CanonIds(doc)) && |NodeWalk(nodes)| == |doc|
  {
    hide Located, NamesAt, Canon, GraphOf, PositionGraph, CanonIds, Targets, Renames, Arranges;
    ReflectedLists(tables, nodes, doc);
    var kids, rels := NodeLists(Ids(doc), nodes, true), NodeLists(Ids(doc), nodes, false);
    AdjacencyArranges(|doc|, kids, rels);
    PositionsRename(doc, kids, rels);
    NamedOrder(doc, kids, rels, NodeWalk(nodes));
  }

  /** Settling nodes indexes the canonical form of the document they reflect. */
  lemma SettleIsStructure(tables: Tables, nodes: seq<Node>, doc: Doc)
    requires DistinctIds(doc) && Reflect(tables, nodes, doc)
    ensures Settle(nodes) == Structure(tables, Canonical(doc))
  {
    hide Located, Canon, GraphOf, NodeWalk, ListIds, CanonIds;
    var walk, c := NodeWalk(nodes), Canonical(doc);
    ReflectedWalk(tables, nodes, doc);
    ReflectedLists(tables, nodes, doc);
    forall k | 0 <= k < |doc|
      ensures walk[k] < |doc| && c[k] == doc[walk[k]]
      ensures
        Renumber(walk, Located(Ids(doc), nodes[walk[k]].kids)) == Located(Ids(c), ListIds(c[k], OwnedRelatedElement))
      ensures
        Renumber(walk, Located(Ids(doc), nodes[walk[k]].rels)) == Located(Ids(c), ListIds(c[k], OwnedRelationship))
    {
      AtPosition(doc, walk[k]);
      RenumberLocated(doc, walk, CanonIds(doc), nodes[walk[k]].kids);
      RenumberLocated(doc, walk, CanonIds(doc), nodes[walk[k]].rels);
    }
    assert NodeIds(Walked(nodes, walk)) == Ids(c);
  }

  // ---- the base's nodes ------------------------------------------------------------

  /** An ownership list that names elements of the document and nothing else. */
  ghost predicate ListClosed(doc: Doc, e: Element, key: Prop) {
    key in e.props && e.props[key].Arr? ==>
      forall v :: v in e.props[key].items ==> v.Ref? && v.id in Ids(doc)
  }

  ghost predicate ElementClosed(doc: Doc, e: Element) {
    ListClosed(doc, e, OwnedRelatedElement) && ListClosed(doc, e, OwnedRelationship)
  }

  ghost predicate ClosedOwnership(doc: Doc) {
    forall e :: e in doc ==> ElementClosed(doc, e)
  }

  lemma StructureWellFormed(tables: Tables, doc: Doc)
    ensures WellFormed(Structure(tables, doc))
  {
    hide Located;
  }

  // ---- patches ---------------------------------------------------------------------

  function NamedReplay(props: Props, ops: NamedOps): Option<Props>
    decreases |ops|
  {
    if ops == [] then Some(props)
    else
      match ApplyOp(ops[0].0, ops[0].1, props)
      case None => None
      case Some(next) => NamedReplay(next, ops[1..])
  }

  ghost predicate DistinctKeys(ops: NamedOps) {
    forall i, j :: 0 <= i < j < |ops| ==> ops[i].0 != ops[j].0
  }

  lemma {:induction false} NamedReplays(fields: seq<Field>, props: Props, ops: Ops)
    requires forall i :: 0 <= i < |ops| ==> ops[i].0 < |fields|
    ensures NamedReplay(props, Name(fields, ops)) == Replay(fields, props, ops)
    decreases |ops|
  {
    hide ApplyOp;
    if ops != [] {
      assert Name(fields, ops)[1..] == Name(fields, ops[1..]);
      var next := ApplyOp(fields[ops[0].0].name, ops[0].1, props);
      if next.Some? {
        NamedReplays(fields, next.value, ops[1..]);
      }
    }
  }

  lemma {:induction false} ParsedAscend(ts: Toks, s: Space, fields: seq<Field>, n: nat, low: nat)
    requires ParseOps(ts, s, fields, n, low).Ok?
    ensures
      var ops := ParseOps(ts, s, fields, n, low).value.0;
      forall i, j :: 0 <= i < j < |ops| ==> ops[i].0 < ops[j].0
    decreases n
  {
    hide ReadOp;
    if n > 0 {
      var (ord, ts1) := ReadUint(ts).value;
      var (op, ts2) := ReadOp(ts1, s, fields[ord]).value;
      ParsedAscend(ts2, s, fields, n - 1, ord + 1);
      var rest := ParseOps(ts2, s, fields, n - 1, ord + 1).value.0;
      var ops := ParseOps(ts, s, fields, n, low).value.0;
      assert ops == [(ord, op)] + rest;
      forall i, j | 0 <= i < j < |ops| ensures ops[i].0 < ops[j].0 {
        if i > 0 {
          assert ops[i] == rest[i - 1];
        }
        assert ops[j] == rest[j - 1];
      }
    }
  }

  lemma AscendingNames(fields: seq<Field>, ops: Ops)
    requires NoDup(FieldNames(fields)) && forall i :: 0 <= i < |ops| ==> ops[i].0 < |fields|
    requires forall i, j :: 0 <= i < j < |ops| ==> ops[i].0 < ops[j].0
    ensures DistinctKeys(Name(fields, ops))
  {
    var named := Name(fields, ops);
    forall i, j | 0 <= i < j < |ops| ensures named[i].0 != named[j].0 {
      assert FieldNames(fields)[ops[i].0] != FieldNames(fields)[ops[j].0];
    }
  }
}
