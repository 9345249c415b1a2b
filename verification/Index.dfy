/**
  The structural index: a state's identities, metaclasses and ownership adjacency without
  its content, and the transition a strict delta makes of it.
 */
module Index {
  import opened Wrappers
  import opened Seqs
  import opened Cbor
  import opened Model
  import opened Owners
  import opened Values
  import opened Records
  import opened Sections
  import opened Snapshot
  import opened Patch
  import opened Order
  import opened Preorder
  import opened CanonDoc
  import opened Acts
  import opened Delta
  import opened Apply

  // ---- the index -------------------------------------------------------------------

  /** Per element, in canonical order: its identity, type code and in-payload targets. */
  datatype BaseIndex = BaseIndex(ids: seq<Uuid>, types: seq<nat>, kids: Lists, rels: Lists)

  /** Adjacency entries are 32-bit. */
  const ADJACENCY_END: nat := 0x1_0000_0000

  /** The positions of the targets that `ids` holds; the others are dropped. */
  function Located(ids: seq<Uuid>, us: seq<Uuid>): (list: seq<nat>)
    ensures forall t :: t in list ==> t < |ids|
  {
    if us == [] then []
    else (if us[0] in ids then [IndexOf(ids, us[0])] else []) + Located(ids, us[1..])
  }

  predicate AllKnown(tables: Tables, doc: Doc) {
    forall i :: 0 <= i < |doc| ==> Known(tables, doc[i].ty)
  }

  /** The structure of a document in the order it is in. */
  function Structure(tables: Tables, doc: Doc): BaseIndex {
    BaseIndex(
      Ids(doc),
      seq(|doc|, i requires 0 <= i < |doc| => TypeCode(tables, doc[i].ty)),
      seq(|doc|, i requires 0 <= i < |doc| => Located(Ids(doc), ListIds(doc[i], OwnedRelatedElement))),
      seq(|doc|, i requires 0 <= i < |doc| => Located(Ids(doc), ListIds(doc[i], OwnedRelationship))))
  }

  /** The index of a document, whatever its order. */
  function FromCompact(tables: Tables, doc: Doc): Result<BaseIndex>
    requires DistinctIds(doc)
  {
    var c := Canonical(doc);
    if !AllKnown(tables, c) || |c| > ADJACENCY_END then Err(Malformed) else Ok(Structure(tables, c))
  }

  lemma LocatedStep(ids: seq<Uuid>, us: seq<Uuid>)
    ensures us == [] ==> Located(ids, us) == []
    ensures
      us != [] ==>
        Located(ids, us)
        == if us[0] in ids then [IndexOf(ids, us[0])] + Located(ids, us[1..]) else Located(ids, us[1..])
  {
  }

  lemma IdsAtStep(ids: seq<Uuid>, at: nat, rest: seq<nat>)
    requires at < |ids| && forall t :: t in rest ==> t < |ids|
    ensures IdsAt(ids, [at] + rest) == [ids[at]] + IdsAt(ids, rest)
  {
  }

  lemma {:induction false} LocatedAre(ids: seq<Uuid>, us: seq<Uuid>)
    ensures IdsAt(ids, Located(ids, us)) == Pick(us, Elems(ids), true)
  {
    hide IndexOf, Located, Pick;
    if us == [] {
      LocatedStep(ids, us);
      assert IdsAt(ids, []) == [];
      PickEmpty(Elems(ids), true);
    } else {
      var u, more := us[0], us[1..];
      assert us == [u] + more;
      LocatedAre(ids, more);
      LocatedStep(ids, us);
      PickHead(u, more, Elems(ids), true);
      var rest := Located(ids, more);
      if u in ids {
        IdsAtStep(ids, IndexOf(ids, u), rest);
      } else {
        assert [] + rest == rest && [] + Pick(more, Elems(ids), true) == Pick(more, Elems(ids), true);
      }
    }
  }

  /**
    The index of a document, by property name: in canonical order the identities, the type codes,
    and where its own elements stand that each element's two ownership lists name.
   */
  lemma IndexByName(tables: Tables, doc: Doc)
    requires DistinctIds(doc) && FromCompact(tables, doc).Ok?
    ensures
      var c, index := Canonical(doc), FromCompact(tables, doc).value;
      var held := Elems(Ids(c));
      && index.ids == Ids(c) && WellFormed(index)
      && forall i :: 0 <= i < |c| ==>
           && index.types[i] < |tables| && tables[index.types[i]].name == c[i].ty
           && IdsAt(index.ids, index.kids[i]) == Pick(ListIds(c[i], OwnedRelatedElement), held, true)
           && IdsAt(index.ids, index.rels[i]) == Pick(ListIds(c[i], OwnedRelationship), held, true)
  {
    hide Canonical, Located, IdsAt, ListIds, Pick, TypeCode, DistinctIds;
    var c := Canonical(doc);
    forall i | 0 <= i < |c|
      ensures
        var index := FromCompact(tables, doc).value;
        && index.types[i] < |tables| && tables[index.types[i]].name == c[i].ty
        && IdsAt(index.ids, index.kids[i]) == Pick(ListIds(c[i], OwnedRelatedElement), Elems(Ids(c)), true)
        && IdsAt(index.ids, index.rels[i]) == Pick(ListIds(c[i], OwnedRelationship), Elems(Ids(c)), true)
    {
      LocatedAre(Ids(c), ListIds(c[i], OwnedRelatedElement));
      LocatedAre(Ids(c), ListIds(c[i], OwnedRelationship));
    }
  }

  /** Documents of one set of elements hold the same elements. */
  lemma HeldAt(doc: Doc, other: Doc, e: Element)
    requires SameElements(doc, other) && e in doc
    ensures e in other
  {
    var i :| 0 <= i < |doc| && doc[i] == e;
    AtPosition(doc, i);
    assert At(other, e.id) == e;
  }

  lemma KnownAlike(tables: Tables, doc: Doc, other: Doc)
    requires SameElements(doc, other)
    ensures AllKnown(tables, other) <==> forall e :: e in doc ==> Known(tables, e.ty)
  {
    hide Known, SameElements;
    forall e ensures e in doc <==> e in other {
      SameSwapped(doc, other);
      if e in doc {
        HeldAt(doc, other, e);
      }
      if e in other {
        HeldAt(other, doc, e);
      }
    }
    assert forall i :: 0 <= i < |other| ==> other[i] in other;
  }

  lemma SameSwapped(doc: Doc, other: Doc)
    requires SameElements(doc, other)
    ensures SameElements(other, doc)
  {
    hide At, DistinctIds;
  }

  /** A document is indexed exactly if every metaclass is known and 32-bit positions reach its elements. */
  lemma IndexedIff(tables: Tables, doc: Doc)
    requires DistinctIds(doc)
    ensures
      FromCompact(tables, doc).Ok? <==> (forall e :: e in doc ==> Known(tables, e.ty)) && |doc| <= 0x1_0000_0000
  {
    hide Canonical, Known, Structure, AllKnown, SameElements, DistinctIds;
    CanonDocSame(doc);
    KnownAlike(tables, doc, Canonical(doc));
  }

  // ---- resolved records ------------------------------------------------------------

  datatype RecordTarget = ToCreate(id: Uuid) | ToBase(index: nat, id: Uuid) | ToId(id: Uuid)

  type NamedOps = seq<(Prop, FieldOp)>

  datatype RecordPayload = ElementPayload(e: Element) | PatchPayload(ops: NamedOps) | DeletePayload

  datatype ResolvedRecord = ResolvedRecord(target: RecordTarget, payload: RecordPayload, bits: nat)

  datatype Resolved = Resolved(
    portable: bool, baseDigest: Uuid, resultDigest: Uuid, claims: Pairs, units: Pairs, records: seq<ResolvedRecord>)

  /** Resolving needs no base content, and needs an index exactly when the delta is strict. */
  function GateResolve(flags: nat, arity: nat, indexed: bool): Result<bool> {
    var units := Bit(flags, FLAG_UNIT_PATHS);
    if !Bit(flags, FLAG_DELTA) || Bit(flags, FLAG_PORTABLE) == indexed then Err(WrongForm)
    else if Bit(flags, FLAG_ELIDE_IDS) then Err(NeedsResolver)
    else if Bit(flags, FLAG_FULL_FORM) || Bit(flags, FLAG_EXPLICIT_IDS) || Bit(flags, 7) then Err(Malformed)
    else if arity != 6 + (if Bit(flags, FLAG_IMPLIED_OWNERS) then 1 else 0) + (if units then 1 else 0)
    then Err(Malformed)
    else Ok(true)
  }

  function ResolveHeader(ts: Toks, indexed: bool): Result<(Header, Pairs, Toks)> {
    var (arity, ts1) :- ReadArray(ts);
    var (word, ts2) :- ReadUint(ts1);
    var (_, flags) :- ParseHeader(word);
    var _ :- GateResolve(flags, arity, indexed);
    var (three, ts3) :- ReadArray(ts2);
    if three != 3 then Err(Malformed)
    else
      var (baseDigest, ts4) :- ReadDigest(ts3);
      var (resultDigest, ts5) :- ReadDigest(ts4);
      var (claims, rest) :- ReadClaims(ts5);
      Ok((Header(Bit(flags, FLAG_PORTABLE), Bit(flags, FLAG_IMPLIED_OWNERS), Bit(flags, FLAG_UNIT_PATHS),
                 baseDigest, resultDigest), claims, rest))
  }

  /** The flags and section count the resolver takes: strict exactly with an index. */
  ghost predicate FlagsResolved(flags: nat, arity: nat, indexed: bool) {
    && Bit(flags, FLAG_DELTA) && (Bit(flags, FLAG_PORTABLE) <==> !indexed)
    && !Bit(flags, FLAG_FULL_FORM) && !Bit(flags, FLAG_EXPLICIT_IDS) && !Bit(flags, FLAG_ELIDE_IDS) && !Bit(flags, 7)
    && arity == 6 + (if Bit(flags, FLAG_IMPLIED_OWNERS) then 1 else 0) + (if Bit(flags, FLAG_UNIT_PATHS) then 1 else 0)
  }

  lemma ResolveIff(flags: nat, arity: nat, indexed: bool)
    ensures GateResolve(flags, arity, indexed) == Ok(true) <==> FlagsResolved(flags, arity, indexed)
    ensures GateResolve(flags, arity, indexed).Ok? ==> GateResolve(flags, arity, indexed) == Ok(true)
  {
    hide Bit;
  }

  /**
    A header the resolver reads: of this layout and these tables, strict exactly with an index,
    and otherwise as an applier reads it.
   */
  lemma ResolvedTaken(ts: Toks, indexed: bool)
    requires ReadArray(ts).Ok? && HeaderWordOf(ts).Ok? && HeaderWordOf(ts).value < 0x100_0000_0000
    ensures
      var word, arity := HeaderWordOf(ts).value, ReadArray(ts).value.0;
      var r := ResolveHeader(ts, indexed);
      && (r.Ok? <==>
            && word / 0x1_0000_0000 == LAYOUT_VERSION && (word / 0x1_0000) % 0x1_0000 == TABLES_VERSION
            && FlagsResolved(word % 0x100, arity, indexed) && BaseSection(ReadUint(ReadArray(ts).value.1).value.1))
      && (r.Ok? ==>
            && r.value.0.portable == !indexed && r.value.0.implied == Bit(word % 0x100, FLAG_IMPLIED_OWNERS)
            && r.value.0.units == Bit(word % 0x100, FLAG_UNIT_PATHS))
  {
    hide Bit, ReadDigest, ReadClaims, GateResolve, FlagsResolved;
    ResolveIff(HeaderWordOf(ts).value % 0x100, ReadArray(ts).value.0, indexed);
    if FlagsResolved(HeaderWordOf(ts).value % 0x100, ReadArray(ts).value.0, indexed) {
      ResolvedMode(HeaderWordOf(ts).value % 0x100, ReadArray(ts).value.0, indexed);
    }
  }

  lemma ResolvedMode(flags: nat, arity: nat, indexed: bool)
    requires FlagsResolved(flags, arity, indexed)
    ensures Bit(flags, FLAG_PORTABLE) == !indexed
  {
    hide Bit;
  }

  function ResolveTarget(t: Token, base: Option<BaseIndex>, created: seq<Uuid>, next: nat): (r: Result<RecordTarget>)
    ensures r.Ok? && r.value.ToBase? ==> base.Some? && r.value.index < |base.value.ids|
  {
    match t
    case NullTok => if next < |created| then Ok(ToCreate(created[next])) else Err(Malformed)
    case Uint(i) =>
      if base.None? || i >= |base.value.ids| then Err(Malformed) else Ok(ToBase(i, base.value.ids[i]))
    case Bstr(bs) => if base.Some? || |bs| != 16 then Err(Malformed) else Ok(ToId(UuidOf(bs)))
    case _ => Err(Malformed)
  }

  /** Operations named by property instead of by ordinal. */
  function Name(fields: seq<Field>, ops: Ops): (named: NamedOps)
    requires forall i :: 0 <= i < |ops| ==> ops[i].0 < |fields|
    ensures |named| == |ops|
    ensures forall i :: 0 <= i < |ops| ==> named[i] == (fields[ops[i].0].name, ops[i].1)
  {
    seq(|ops|, i requires 0 <= i < |ops| => (fields[ops[i].0].name, ops[i].1))
  }

  /** The field table of a base position, by its type code. */
  function FieldsAt(tables: Tables, base: BaseIndex, at: nat): seq<Field> {
    if at < |base.types| && base.types[at] < |tables| then tables[base.types[at]].fields else []
  }

  function ResolvePayload(ts: Toks, s: Space, tables: Tables, base: Option<BaseIndex>, target: RecordTarget)
    : Result<(RecordPayload, Toks)>
    requires target.ToBase? ==> base.Some?
  {
    var (t, rest) :- Next(ts);
    if t.NullTok? then
      if target.ToCreate? then Err(Malformed) else Ok((DeletePayload, rest))
    else if t.Map? then
      if !target.ToBase? then Err(Malformed)
      else
        var fields := FieldsAt(tables, base.value, target.index);
        var (ops, after) :- ParsePatch(rest, s, fields, t.len);
        Ok((PatchPayload(Name(fields, ops)), after))
    else if t == Array(3) then
      var (e, after) :- ReadBody(rest, s, tables, target.id);
      Ok((ElementPayload(e), after))
    else Err(Malformed)
  }

  function ResolveRecord(
      ts: Toks, s: Space, tables: Tables, base: Option<BaseIndex>, created: seq<Uuid>, next: nat)
    : Result<(ResolvedRecord, Toks)>
  {
    var (two, ts1) :- ReadArray(ts);
    if two != 2 then Err(Malformed)
    else
      var (t, ts2) :- Next(ts1);
      var target :- ResolveTarget(t, base, created, next);
      var (payload, rest) :- ResolvePayload(ts2, s, tables, base, target);
      Ok((ResolvedRecord(target, payload, 0), rest))
  }

  function ResolveRecords(
      ts: Toks, s: Space, tables: Tables, base: Option<BaseIndex>, created: seq<Uuid>, next: nat, n: nat)
    : (r: Result<(seq<ResolvedRecord>, nat, Toks)>)
    ensures r.Ok? ==> |r.value.0| == n
    decreases n
  {
    if n == 0 then Ok(([], next, ts))
    else
      var (rec, rest) :- ResolveRecord(ts, s, tables, base, created, next);
      var (recs, last, after) :-
        ResolveRecords(rest, s, tables, base, created, if rec.target.ToCreate? then next + 1 else next, n - 1);
      Ok(([rec] + recs, last, after))
  }

  /** Exceptions may only name records that shipped an element. */
  predicate NameElements(pairs: Pairs, recs: seq<ResolvedRecord>) {
    forall i :: 0 <= i < |pairs| ==> pairs[i].0 < |recs| && recs[pairs[i].0].payload.ElementPayload?
  }

  function WithBits(recs: seq<ResolvedRecord>, pairs: Pairs): (r: seq<ResolvedRecord>)
    ensures |r| == |recs|
    ensures forall i :: 0 <= i < |recs| ==> r[i] == recs[i].(bits := BitsAt(pairs, i))
  {
    seq(|recs|, i requires 0 <= i < |recs| => recs[i].(bits := BitsAt(pairs, i)))
  }

  function ResolveBody(ts: Toks, tables: Tables, base: Option<BaseIndex>, h: Header, claims: Pairs): Result<Resolved> {
    var ids := if base.Some? then base.value.ids else [];
    var (b, ts1) :- ReadUint(ts);
    if b != |ids| then Err(if base.Some? then BaseDigestMismatch else Malformed)
    else
      var (exts, ts2) :- ReadIds(ts1);
      var (created, ts3) :- ReadIds(ts2);
      var (n, ts4) :- ReadArray(ts3);
      if n > Remaining(ts4) then Err(Malformed)
      else
        var (recs, next, ts5) :- ResolveRecords(ts4, Space(ids, created, exts), tables, base, created, 0, n);
        if next != |created| then Err(Malformed)
        else
          var (exceptions, ts6) :- ReadIf(h.implied, ts5, OwnerBits);
          if !NameElements(exceptions, recs) then Err(Malformed)
          else
            var (units, rest) :- ReadIf(h.units, ts6, UnitPaths);
            if rest != [] then Err(Malformed)
            else Ok(Resolved(
              h.portable, h.baseDigest, h.resultDigest, claims, units, WithBits(recs, exceptions)))
  }

  /** A delta's records, resolved through an index when strict and on their own when portable. */
  function Resolve(tables: Tables, ts: Toks, base: Option<BaseIndex>): Result<Resolved> {
    var (h, claims, rest) :- ResolveHeader(ts, base.Some?);
    ResolveBody(rest, tables, base, h, claims)
  }

  // ---- the transition --------------------------------------------------------------

  /** Working state of one element: its metaclass and its forward lists as identities. */
  datatype Node = Node(id: Uuid, ty: nat, kids: seq<Uuid>, rels: seq<Uuid>)

  function NodeIds(nodes: seq<Node>): (ids: seq<Uuid>)
    ensures |ids| == |nodes| && forall i :: 0 <= i < |nodes| ==> ids[i] == nodes[i].id
  {
    seq(|nodes|, i requires 0 <= i < |nodes| => nodes[i].id)
  }

  function ElementNode(tables: Tables, id: Uuid, e: Element): Option<Node> {
    if !Known(tables, e.ty) then None
    else Some(Node(id, TypeCode(tables, e.ty), ListIds(e, OwnedRelatedElement), ListIds(e, OwnedRelationship)))
  }

  function SpliceList(list: seq<Uuid>, op: FieldOp): Option<seq<Uuid>> {
    match op
    case Set(v) => Some(if v.Arr? then RefIds(v.items) else [])
    case Unset => Some([])
    case Splice(at, del, items) =>
      if at + del > |list| then None else Some(list[..at] + RefIds(items) + list[at + del..])
  }

  /** One patch operation's effect on a node: only the two ownership lists are structure. */
  function PatchNode(node: Node, key: Prop, op: FieldOp): Option<Node> {
    if key == OwnedRelatedElement then
      match SpliceList(node.kids, op)
      case None => None
      case Some(list) => Some(node.(kids := list))
    else if key == OwnedRelationship then
      match SpliceList(node.rels, op)
      case None => None
      case Some(list) => Some(node.(rels := list))
    else Some(node)
  }

  function PatchNodes(node: Node, ops: NamedOps): Option<Node>
    decreases |ops|
  {
    if ops == [] then Some(node)
    else
      match PatchNode(node, ops[0].0, ops[0].1)
      case None => None
      case Some(next) => PatchNodes(next, ops[1..])
  }

  datatype Work = Work(order: seq<Node>, deleted: set<nat>, appended: seq<Node>)

  /** One record's effect; none where the transition refuses it. */
  function Advance(tables: Tables, w: Work, rec: ResolvedRecord): Option<Work> {
    match (rec.target, rec.payload)
    case (ToBase(i, _), DeletePayload) => Some(w.(deleted := w.deleted + {i}))
    case (ToBase(i, id), ElementPayload(e)) =>
      (match ElementNode(tables, id, e)
       case Some(node) => if i < |w.order| then Some(w.(order := w.order[i := node])) else None
       case None => None)
    case (ToBase(i, _), PatchPayload(ops)) =>
      if i >= |w.order| then None
      else
        (match PatchNodes(w.order[i], ops)
         case Some(node) => Some(w.(order := w.order[i := node]))
         case None => None)
    case (ToCreate(id), ElementPayload(e)) =>
      (match ElementNode(tables, id, e)
       case Some(node) => Some(w.(appended := w.appended + [node]))
       case None => None)
    case _ => None
  }

  function AdvanceAll(tables: Tables, w: Work, recs: seq<ResolvedRecord>): Option<Work>
    decreases |recs|
  {
    if recs == [] then Some(w)
    else
      match Advance(tables, w, recs[0])
      case None => None
      case Some(next) => AdvanceAll(tables, next, recs[1..])
  }

  function IdsAt(ids: seq<Uuid>, list: seq<nat>): seq<Uuid>
    requires forall t :: t in list ==> t < |ids|
  {
    seq(|list|, k requires 0 <= k < |list| => assert list[k] in list; ids[list[k]])
  }

  predicate WellFormed(base: BaseIndex) {
    && |base.types| == |base.kids| == |base.rels| == |base.ids|
    && (forall i :: 0 <= i < |base.ids| ==> forall t :: t in base.kids[i] ==> t < |base.ids|)
    && (forall i :: 0 <= i < |base.ids| ==> forall t :: t in base.rels[i] ==> t < |base.ids|)
  }

  function BaseNodes(base: BaseIndex): (nodes: seq<Node>)
    requires WellFormed(base)
    ensures |nodes| == |base.ids|
  {
    seq(|base.ids|, i requires 0 <= i < |base.ids| =>
      Node(base.ids[i], base.types[i], IdsAt(base.ids, base.kids[i]), IdsAt(base.ids, base.rels[i])))
  }

  /** The nodes from position `k` that are not deleted. */
  function Undeleted(w: Work, k: nat): seq<Node>
    requires k <= |w.order|
    decreases |w.order| - k
  {
    if k == |w.order| then []
    else (if k in w.deleted then [] else [w.order[k]]) + Undeleted(w, k + 1)
  }

  function NodeLists(ids: seq<Uuid>, nodes: seq<Node>, kids: bool): (lists: Lists)
    ensures |lists| == |nodes|
    ensures forall i :: 0 <= i < |nodes| ==> lists[i] == Located(ids, if kids then nodes[i].kids else nodes[i].rels)
    ensures forall i, t :: 0 <= i < |nodes| && t in lists[i] ==> t < |ids|
  {
    seq(|nodes|, i requires 0 <= i < |nodes| => Located(ids, if kids then nodes[i].kids else nodes[i].rels))
  }

  /** A list of positions renumbered by where the walk puts them. */
  function Renumber(walk: seq<nat>, list: seq<nat>): (r: seq<nat>)
    ensures |r| == |list| && forall k :: 0 <= k < |list| ==> r[k] == IndexOf(walk, list[k])
  {
    seq(|list|, k requires 0 <= k < |list| => IndexOf(walk, list[k]))
  }

  /** The canonical walk of a node list. */
  function NodeWalk(nodes: seq<Node>): (walk: seq<nat>)
    ensures Visits(walk, |nodes|)
  {
    var ids := NodeIds(nodes);
    var kids, rels := NodeLists(ids, nodes, true), NodeLists(ids, nodes, false);
    AdjacencyArranges(|nodes|, kids, rels);
    CanonElems(PositionGraph(kids, rels), Iota(|nodes|));
    Canon(PositionGraph(kids, rels), Iota(|nodes|))
  }

  ghost predicate Visits(walk: seq<nat>, n: nat) {
    |walk| == n && forall i :: i in walk ==> i < n
  }

  function Walked(nodes: seq<Node>, walk: seq<nat>): (r: seq<Node>)
    requires Visits(walk, |nodes|)
    ensures |r| == |nodes| && forall k :: 0 <= k < |nodes| ==> walk[k] < |nodes| && r[k] == nodes[walk[k]]
  {
    assert forall k :: 0 <= k < |nodes| ==> walk[k] in walk;
    seq(|nodes|, k requires 0 <= k < |nodes| => nodes[walk[k]])
  }

  function WalkedLists(lists: Lists, walk: seq<nat>): (r: Lists)
    requires Visits(walk, |lists|)
    ensures
      |r| == |lists|
      && forall k :: 0 <= k < |lists| ==> walk[k] < |lists| && r[k] == Renumber(walk, lists[walk[k]])
  {
    assert forall k :: 0 <= k < |lists| ==> walk[k] in walk;
    seq(|lists|, k requires 0 <= k < |lists| => Renumber(walk, lists[walk[k]]))
  }

  function NodeTypes(nodes: seq<Node>): (types: seq<nat>)
    ensures |types| == |nodes| && forall k :: 0 <= k < |nodes| ==> types[k] == nodes[k].ty
  {
    seq(|nodes|, k requires 0 <= k < |nodes| => nodes[k].ty)
  }

  /** The index of a payload of nodes: walked, then renumbered. */
  function Settle(nodes: seq<Node>): BaseIndex {
    hide NodeWalk, Located;
    var ids, walk := NodeIds(nodes), NodeWalk(nodes);
    BaseIndex(
      NodeIds(Walked(nodes, walk)), NodeTypes(Walked(nodes, walk)),
      WalkedLists(NodeLists(ids, nodes, true), walk), WalkedLists(NodeLists(ids, nodes, false), walk))
  }

  /** The applied result's index, from the base's index and the delta's structure alone. */
  function Transition(tables: Tables, delta: Resolved, base: BaseIndex): Result<BaseIndex>
    requires WellFormed(base)
  {
    if delta.portable then Err(Malformed)
    else
      match AdvanceAll(tables, Work(BaseNodes(base), {}, []), delta.records)
      case None => Err(Malformed)
      case Some(w) =>
        var nodes := Undeleted(w, 0) + w.appended;
        if |nodes| > ADJACENCY_END then Err(Malformed) else Ok(Settle(nodes))
  }
}
