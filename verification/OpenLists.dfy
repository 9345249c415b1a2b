/**
  Ownership lists that name more than their document holds.

  An index keeps of an ownership list only the entries its document holds; content keeps
  them all. A strict delta's operations count content's positions. `Lined` is when one list
  nevertheless comes out alike on both sides; `LinesUp` asks it of every list that can part.
 */
module OpenLists {
  import opened Wrappers
  import opened Seqs
  import opened Model
  import opened Owners
  import opened Records
  import opened Values
  import opened Snapshot
  import opened Patch
  import opened Order
  import opened CanonDoc
  import opened Index
  import opened TransitionCommutes

  // ---- one list --------------------------------------------------------------------

  /** The list property `key`; empty where it is not a list. */
  function ItemsOf(props: Props, key: Prop): seq<Value> {
    if key in props && props[key].Arr? then props[key].items else []
  }

  /** What an operation makes of a list's content. */
  function OpItems(items: seq<Value>, op: FieldOp): seq<Value>
    requires op.Splice? ==> op.at + op.del <= |items|
  {
    match op
    case Set(v) => if v.Arr? then v.items else []
    case Unset => []
    case Splice(at, del, more) => items[..at] + more + items[at + del..]
  }

  /** Splicing the held entries, and splicing content, leave the same entries of `kept`. */
  predicate SpliceLines(held: set<Uuid>, kept: set<Uuid>, items: seq<Value>, at: nat, del: nat, more: seq<Value>) {
    var list := Pick(RefIds(items), held, true);
    && at + del <= |list|
    && Pick(list[..at] + RefIds(more) + list[at + del..], kept, true)
       == Pick(RefIds(items[..at] + more + items[at + del..]), kept, true)
  }

  /**
    One list of the base, over the identities it held and those the result keeps: untouched,
    it names no created identity; spliced, the splice lands alike; set anew, it always may.
   */
  predicate Lined(held: set<Uuid>, kept: set<Uuid>, items: seq<Value>, op: Option<FieldOp>) {
    match op
    case None => forall u :: u in RefIds(items) && u in kept ==> u in held
    case Some(Splice(at, del, more)) => SpliceLines(held, kept, items, at, del, more)
    case Some(_) => true
  }

  /** What a patch makes of a list of identities; none where it refuses. */
  function Moved(list: seq<Uuid>, op: Option<FieldOp>): Option<seq<Uuid>> {
    match op
    case None => Some(list)
    case Some(o) => SpliceList(list, o)
  }

  lemma PickBoth(us: seq<Uuid>, held: set<Uuid>, kept: set<Uuid>)
    ensures
      Pick(Pick(us, held, true), kept, true) == Pick(us, kept, true)
      <==> forall u :: u in us && u in kept ==> u in held
  {
    PickPick(us, held, true, kept, true);
    if forall u :: u in us && u in kept ==> u in held {
      PickAll(Pick(us, kept, true), held, true);
    } else {
      var u :| u in us && u in kept && u !in held;
      assert u in Pick(us, kept, true) && u !in Pick(us, held, true);
      assert u !in Pick(Pick(us, held, true), kept, true);
    }
  }

  /** `Lined` is exactly when structure accepts the operation and agrees with content on what is kept. */
  lemma LinedMeans(held: set<Uuid>, kept: set<Uuid>, items: seq<Value>, op: Option<FieldOp>)
    requires op.Some? && op.value.Splice? ==> op.value.at + op.value.del <= |items|
    ensures
      var moved := Moved(Pick(RefIds(items), held, true), op);
      var after := if op.None? then items else OpItems(items, op.value);
      Lined(held, kept, items, op) <==> moved.Some? && Pick(moved.value, kept, true) == Pick(RefIds(after), kept, true)
  {
    hide RefIds, Pick;
    match op
    case None => PickBoth(RefIds(items), held, kept);
    case Some(_) =>
  }

  /** A splice past nothing unheld, in a list whose tail names no created identity. */
  lemma AlignedSplice(held: set<Uuid>, kept: set<Uuid>, items: seq<Value>, at: nat, del: nat, more: seq<Value>)
    requires at + del <= |items| && forall v :: v in items[..at + del] ==> v.Ref? && v.id in held
    requires forall u :: u in RefIds(items[at + del..]) && u in kept ==> u in held
    ensures SpliceLines(held, kept, items, at, del, more)
  {
    hide SpliceLines, RefIds, Pick;
    var x, y, z := items[..at], items[at..at + del], items[at + del..];
    assert items == x + y + z && items[..at + del] == x + y;
    AlignedParts(held, kept, x, y, z, more);
  }

  lemma AlignedParts(
      held: set<Uuid>, kept: set<Uuid>, x: seq<Value>, y: seq<Value>, z: seq<Value>, more: seq<Value>)
    requires forall v :: v in x + y ==> v.Ref? && v.id in held
    requires forall u :: u in RefIds(z) && u in kept ==> u in held
    ensures SpliceLines(held, kept, x + y + z, |x|, |y|, more)
  {
    hide SpliceLines, RefIds, Pick;
    HeldThrough(held, x, y, z);
    CutValues(x, y, z);
    SplicedRefs(x, more, z);
    SplicedIds(held, kept, RefIds(x), RefIds(y), RefIds(z), RefIds(more));
    SplicesLine(held, kept, x + y + z, |x|, |y|, more, RefIds(x) + (RefIds(y) + Pick(RefIds(z), held, true)),
      RefIds(x) + RefIds(more) + RefIds(z));
  }

  lemma SplicesLine(
      held: set<Uuid>, kept: set<Uuid>, items: seq<Value>, at: nat, del: nat, more: seq<Value>,
      list: seq<Uuid>, after: seq<Uuid>)
    requires at + del <= |items| && at + del <= |list| && list == Pick(RefIds(items), held, true)
    requires after == RefIds(items[..at] + more + items[at + del..])
    requires Pick(list[..at] + RefIds(more) + list[at + del..], kept, true) == Pick(after, kept, true)
    ensures SpliceLines(held, kept, items, at, del, more)
  {
    hide RefIds, Pick;
  }

  lemma SplicedRefs(x: seq<Value>, more: seq<Value>, z: seq<Value>)
    ensures RefIds(x + more + z) == RefIds(x) + RefIds(more) + RefIds(z)
  {
    RefIdsAppend(x, more);
    RefIdsAppend(x + more, z);
  }

  lemma SplicedIds(
      held: set<Uuid>, kept: set<Uuid>, x: seq<Uuid>, y: seq<Uuid>, z: seq<Uuid>, more: seq<Uuid>)
    requires forall u :: u in z && u in kept ==> u in held
    ensures
      var list := x + (y + Pick(z, held, true));
      Pick(list[..|x|] + more + list[|x| + |y|..], kept, true) == Pick(x + more + z, kept, true)
  {
    hide Pick;
    CutThree(x, y, Pick(z, held, true));
    PickBoth(z, held, kept);
    PickAppend(x + more, Pick(z, held, true), kept, true);
    PickAppend(x + more, z, kept, true);
  }

  lemma CutValues(x: seq<Value>, y: seq<Value>, z: seq<Value>)
    ensures |x + y + z| == |x| + |y| + |z| && (x + y + z)[..|x|] == x && (x + y + z)[|x| + |y|..] == z
  {
  }

  lemma CutThree(x: seq<Uuid>, y: seq<Uuid>, z: seq<Uuid>)
    ensures
      var s := x + (y + z);
      s[..|x|] == x && s[|x| + |y|..] == z
  {
  }

  lemma HeldThrough(held: set<Uuid>, x: seq<Value>, y: seq<Value>, z: seq<Value>)
    requires forall v :: v in x + y ==> v.Ref? && v.id in held
    ensures |RefIds(x)| == |x| && |RefIds(y)| == |y|
    ensures Pick(RefIds(x + y + z), held, true) == RefIds(x) + (RefIds(y) + Pick(RefIds(z), held, true))
  {
    hide RefIds, Pick;
    HeldRefs(held, x);
    HeldRefs(held, y);
    RefIdsAppend(x + y, z);
    RefIdsAppend(x, y);
    PickAll(RefIds(x), held, true);
    PickAll(RefIds(y), held, true);
    PickAppend(RefIds(x) + RefIds(y), RefIds(z), held, true);
    PickAppend(RefIds(x), RefIds(y), held, true);
    Assoc(RefIds(x), RefIds(y), Pick(RefIds(z), held, true));
  }

  lemma {:induction false} HeldRefs(held: set<Uuid>, items: seq<Value>)
    requires forall v :: v in items ==> v.Ref? && v.id in held
    ensures |RefIds(items)| == |items| && forall u :: u in RefIds(items) ==> u in held
  {
    if items != [] {
      HeldRefs(held, items[1..]);
    }
  }

  /** That is not the only way: an unheld entry ahead of a splice may do no harm. */
  lemma UnheldAheadMayAlign(h: Uuid, outside: Uuid, other: Uuid)
    requires h != outside && h != other && outside != other
    ensures SpliceLines({h}, {h}, [Ref(outside), Ref(h)], 1, 0, [Ref(other)])
  {
    hide RefIds, Pick;
    var items, more := [Ref(outside), Ref(h)], [Ref(other)];
    RefsOf([outside, h]);
    RefsOf([other]);
    RefsOf([outside, other, h]);
    assert items[..1] + more + items[1 + 0..] == [Ref(outside), Ref(other), Ref(h)];
    assert [h][..1] + [other] + [h][1 + 0..] == [h, other];
    PickPair(h, other, h);
    PickPair(outside, h, h);
    assert Refs([outside, h]) == items && Refs([other]) == more;
    assert Refs([outside, other, h]) == [Ref(outside), Ref(other), Ref(h)];
    PickHead(outside, [other, h], {h}, true);
    PickPair(other, h, h);
    assert [outside] + [other, h] == [outside, other, h] && [] + [h] == [h];
  }

  /** A list of references to the identities `us`. */
  function Refs(us: seq<Uuid>): seq<Value> {
    seq(|us|, i requires 0 <= i < |us| => Ref(us[i]))
  }

  lemma {:induction false} RefsOf(us: seq<Uuid>)
    ensures RefIds(Refs(us)) == us
  {
    if us != [] {
      RefsOf(us[1..]);
      assert Refs(us)[1..] == Refs(us[1..]);
    }
  }

  lemma PickPair(a: Uuid, b: Uuid, h: Uuid)
    ensures Pick([a, b], {h}, true) == (if a == h then [h] else []) + (if b == h then [h] else [])
  {
    assert [a, b][1..] == [b] && [b][1..] == [];
  }

  // ---- one node --------------------------------------------------------------------

  /** The operation a patch makes on a property, if any. */
  function OpOn(ops: NamedOps, key: Prop): (op: Option<FieldOp>)
    ensures op.None? ==> forall i :: 0 <= i < |ops| ==> ops[i].0 != key
  {
    if ops == [] then None else if ops[0].0 == key then Some(ops[0].1) else OpOn(ops[1..], key)
  }

  lemma OnlyHead(ops: NamedOps)
    requires ops != [] && DistinctKeys(ops)
    ensures DistinctKeys(ops[1..]) && OpOn(ops[1..], ops[0].0) == None
  {
    if OpOn(ops[1..], ops[0].0).Some? {
      OpHeld(ops[1..], ops[0].0);
    }
  }

  lemma {:induction false} OpHeld(ops: NamedOps, key: Prop)
    requires OpOn(ops, key).Some?
    ensures exists i :: 0 <= i < |ops| && ops[i].0 == key
  {
    if ops[0].0 != key {
      OpHeld(ops[1..], key);
      var i :| 0 <= i < |ops[1..]| && ops[1..][i].0 == key;
      assert ops[i + 1].0 == key;
    }
  }

  /** A patch over a node moves its two lists, each by the one operation on it. */
  lemma {:induction false} PatchMoves(node: Node, ops: NamedOps)
    requires DistinctKeys(ops)
    ensures
      var kids := Moved(node.kids, OpOn(ops, OwnedRelatedElement));
      var rels := Moved(node.rels, OpOn(ops, OwnedRelationship));
      PatchNodes(node, ops)
      == if kids.Some? && rels.Some? then Some(node.(kids := kids.value, rels := rels.value)) else None
    decreases |ops|
  {
    hide SpliceList, DistinctKeys;
    if ops != [] {
      OnlyHead(ops);
      var next := PatchNode(node, ops[0].0, ops[0].1);
      if next.Some? {
        PatchMoves(next.value, ops[1..]);
      }
    }
  }

  /** A patch over content moves each list by the one operation on it. */
  lemma {:induction false} ReplayMoves(props: Props, ops: NamedOps, key: Prop)
    requires DistinctKeys(ops) && NamedReplay(props, ops).Some?
    ensures
      var op, items := OpOn(ops, key), ItemsOf(props, key);
      && (op.Some? && op.value.Splice? ==> op.value.at + op.value.del <= |items|)
      && ItemsOf(NamedReplay(props, ops).value, key) == if op.None? then items else OpItems(items, op.value)
    decreases |ops|
  {
    hide DistinctKeys, ApplyOp;
    if ops != [] {
      OnlyHead(ops);
      OpOnItems(ops[0].0, ops[0].1, props, key);
      ReplayMoves(ApplyOp(ops[0].0, ops[0].1, props).value, ops[1..], key);
    }
  }

  lemma OpOnItems(at: Prop, op: FieldOp, props: Props, key: Prop)
    requires ApplyOp(at, op, props).Some?
    ensures at != key ==> ItemsOf(ApplyOp(at, op, props).value, key) == ItemsOf(props, key)
    ensures
      at == key ==>
        && (op.Splice? ==> op.at + op.del <= |ItemsOf(props, key)|)
        && ItemsOf(ApplyOp(at, op, props).value, key) == OpItems(ItemsOf(props, key), op)
  {
  }

  // ---- one document ----------------------------------------------------------------

  /** Two documents naming the same elements, whose held list entries are the same. */
  ghost predicate SameLists(a: Doc, b: Doc) {
    && |a| == |b|
    && forall i :: 0 <= i < |a| ==>
         && Targets(a, a[i], OwnedRelatedElement) == Targets(b, b[i], OwnedRelatedElement)
         && Targets(a, a[i], OwnedRelationship) == Targets(b, b[i], OwnedRelationship)
  }

  ghost predicate SameHeads(a: Doc, b: Doc) {
    |a| == |b| && forall i :: 0 <= i < |a| ==> a[i].id == b[i].id && a[i].ty == b[i].ty
  }

  /** Only the held entries of a list are located. */
  lemma {:induction false} LocatedPicked(ids: seq<Uuid>, us: seq<Uuid>)
    ensures Located(ids, Pick(us, Elems(ids), true)) == Located(ids, us)
  {
    if us != [] {
      LocatedPicked(ids, us[1..]);
      if us[0] in ids {
        LocatedHead(ids, us[0], Pick(us[1..], Elems(ids), true));
      }
    }
  }

  lemma LocatedHead(ids: seq<Uuid>, u: Uuid, us: seq<Uuid>)
    requires u in ids
    ensures Located(ids, [u] + us) == [IndexOf(ids, u)] + Located(ids, us)
  {
    assert ([u] + us)[1..] == us;
  }

  /** And they are spelled back. */
  lemma {:induction false} LocatedSpelled(ids: seq<Uuid>, us: seq<Uuid>)
    ensures IdsAt(ids, Located(ids, us)) == Pick(us, Elems(ids), true)
  {
    hide Located, IdsAt, Pick;
    if us == [] {
      LocatedNone(ids);
      PickEmpty(Elems(ids), true);
    } else {
      LocatedSpelled(ids, us[1..]);
      LocatedStep(ids, us);
      PickHead(us[0], us[1..], Elems(ids), true);
      assert us == [us[0]] + us[1..];
      if us[0] in ids {
        IdsAtHead(ids, IndexOf(ids, us[0]), Located(ids, us[1..]));
      } else {
        assert [] + Pick(us[1..], Elems(ids), true) == Pick(us[1..], Elems(ids), true);
      }
    }
  }

  lemma LocatedNone(ids: seq<Uuid>)
    ensures Located(ids, []) == [] && IdsAt(ids, []) == []
  {
  }

  lemma IdsAtHead(ids: seq<Uuid>, t: nat, rest: seq<nat>)
    requires t < |ids| && forall r :: r in rest ==> r < |ids|
    ensures forall r :: r in [t] + rest ==> r < |ids|
    ensures IdsAt(ids, [t] + rest) == [ids[t]] + IdsAt(ids, rest)
  {
  }

  lemma LocatedAlike(ids: seq<Uuid>, us: seq<Uuid>, vs: seq<Uuid>)
    ensures Located(ids, us) == Located(ids, vs) <==> Pick(us, Elems(ids), true) == Pick(vs, Elems(ids), true)
  {
    LocatedSpelled(ids, us);
    LocatedSpelled(ids, vs);
    LocatedPicked(ids, us);
    LocatedPicked(ids, vs);
  }

  /** Two structures in one order are alike exactly when the held entries are. */
  lemma StructureAlike(tables: Tables, a: Doc, b: Doc)
    requires SameHeads(a, b)
    ensures Structure(tables, a) == Structure(tables, b) <==> SameLists(a, b)
  {
    hide Located, ListIds, Pick;
    assert Ids(a) == Ids(b);
    var s, t := Structure(tables, a), Structure(tables, b);
    assert s.types == t.types;
    forall i | 0 <= i < |a|
      ensures
        s.kids[i] == t.kids[i] <==> Targets(a, a[i], OwnedRelatedElement) == Targets(b, b[i], OwnedRelatedElement)
      ensures s.rels[i] == t.rels[i] <==> Targets(a, a[i], OwnedRelationship) == Targets(b, b[i], OwnedRelationship)
    {
      LocatedAlike(Ids(a), ListIds(a[i], OwnedRelatedElement), ListIds(b[i], OwnedRelatedElement));
      LocatedAlike(Ids(a), ListIds(a[i], OwnedRelationship), ListIds(b[i], OwnedRelationship));
    }
  }

  lemma SameListsCanon(a: Doc, b: Doc)
    requires DistinctIds(a) && SameHeads(a, b) && SameLists(a, b)
    ensures DistinctIds(b) && CanonIds(a) == CanonIds(b)
  {
    hide Canon, GraphOf, SameHeads, SameLists, Arranges;
    GraphAlike(a, b);
    IdsAlike(a, b);
  }

  lemma IdsAlike(a: Doc, b: Doc)
    requires SameHeads(a, b)
    ensures Ids(a) == Ids(b)
  {
  }

  lemma GraphAlike(a: Doc, b: Doc)
    requires SameHeads(a, b) && SameLists(a, b)
    ensures GraphOf(a) == GraphOf(b)
  {
    hide GraphOf, SameHeads, SameLists;
    var g, h := GraphOf(a), GraphOf(b);
    IdsAlike(a, b);
    forall u | u in Elems(Ids(a)) ensures g.kids[u] == h.kids[u] && g.rels[u] == h.rels[u] {
      NodeAlike(a, b, u);
    }
    assert g.kids == h.kids && g.rels == h.rels;
  }

  lemma NodeAlike(a: Doc, b: Doc, u: Uuid)
    requires SameHeads(a, b) && SameLists(a, b) && u in Elems(Ids(a))
    ensures u in Elems(Ids(b))
    ensures GraphOf(a).kids[u] == GraphOf(b).kids[u] && GraphOf(a).rels[u] == GraphOf(b).rels[u]
  {
    hide Targets;
    assert Ids(a) == Ids(b);
    var i := IndexOf(Ids(a), u);
    assert At(a, u) == a[i] && At(b, u) == b[i];
  }

  lemma TargetsOf(a: Doc, b: Doc, e: Element, key: Prop)
    requires Elems(Ids(a)) == Elems(Ids(b))
    ensures Targets(a, e, key) == Targets(b, e, key)
  {
  }

  lemma CanonicalAt(a: Doc, b: Doc, k: nat)
    requires DistinctIds(a) && SameHeads(a, b) && DistinctIds(b) && CanonIds(a) == CanonIds(b) && k < |a|
    ensures
      var i := IndexOf(Ids(a), CanonIds(a)[k]);
      i < |a| && Canonical(a)[k] == a[i] && Canonical(b)[k] == b[i]
  {
    hide CanonIds;
    assert Ids(a) == Ids(b);
    assert CanonIds(a)[k] in CanonIds(a);
  }

  lemma CanonicalFinds(a: Doc, i: nat) returns (k: nat)
    requires DistinctIds(a) && i < |a|
    ensures k < |a| && IndexOf(Ids(a), CanonIds(a)[k]) == i
  {
    hide CanonIds;
    assert Ids(a)[i] in Ids(a);
    k :| 0 <= k < |a| && CanonIds(a)[k] == Ids(a)[i];
    IndexOfNoDup(Ids(a), i);
  }

  lemma CanonicalElems(a: Doc)
    requires DistinctIds(a)
    ensures Elems(Ids(Canonical(a))) == Elems(Ids(a))
  {
    hide CanonIds;
  }

  /** The indexes of two documents are one index exactly when their held list entries are the same. */
  lemma IndexAlike(tables: Tables, a: Doc, b: Doc)
    requires DistinctIds(a) && DistinctIds(b) && SameHeads(a, b)
    ensures Structure(tables, Canonical(a)) == Structure(tables, Canonical(b)) <==> SameLists(a, b)
  {
    hide Structure, Canonical, CanonIds, DistinctIds, SameLists, SameHeads;
    var s, t := Structure(tables, Canonical(a)), Structure(tables, Canonical(b));
    if SameLists(a, b) {
      SameListsCanon(a, b);
    }
    if s == t {
      StructureOrder(tables, Canonical(a), Canonical(b));
    }
    if CanonIds(a) == CanonIds(b) {
      CanonicalHeads(a, b);
      StructureAlike(tables, Canonical(a), Canonical(b));
      CanonicalLists(a, b);
    }
  }

  lemma StructureOrder(tables: Tables, a: Doc, b: Doc)
    requires Structure(tables, a) == Structure(tables, b)
    ensures Ids(a) == Ids(b)
  {
  }

  lemma CanonicalHeads(a: Doc, b: Doc)
    requires DistinctIds(a) && DistinctIds(b) && SameHeads(a, b) && CanonIds(a) == CanonIds(b)
    ensures SameHeads(Canonical(a), Canonical(b))
  {
    hide Canonical, CanonIds, DistinctIds;
    forall k | 0 <= k < |a|
      ensures Canonical(a)[k].id == Canonical(b)[k].id && Canonical(a)[k].ty == Canonical(b)[k].ty
    {
      CanonicalAt(a, b, k);
    }
  }

  lemma CanonicalLists(a: Doc, b: Doc)
    requires DistinctIds(a) && DistinctIds(b) && SameHeads(a, b) && CanonIds(a) == CanonIds(b)
    ensures SameLists(a, b) <==> SameLists(Canonical(a), Canonical(b))
  {
    hide Canonical, CanonIds, DistinctIds, SameHeads, Targets;
    CanonicalLengths(a, b);
    var c, d := Canonical(a), Canonical(b);
    if SameLists(a, b) {
      forall k | 0 <= k < |c|
        ensures Targets(c, c[k], OwnedRelatedElement) == Targets(d, d[k], OwnedRelatedElement)
        ensures Targets(c, c[k], OwnedRelationship) == Targets(d, d[k], OwnedRelationship)
      {
        CanonicalTargets(a, b, k, OwnedRelatedElement);
        CanonicalTargets(a, b, k, OwnedRelationship);
      }
    }
    if SameLists(c, d) {
      forall i | 0 <= i < |a|
        ensures Targets(a, a[i], OwnedRelatedElement) == Targets(b, b[i], OwnedRelatedElement)
        ensures Targets(a, a[i], OwnedRelationship) == Targets(b, b[i], OwnedRelationship)
      {
        var k := CanonicalFinds(a, i);
        CanonicalTargets(a, b, k, OwnedRelatedElement);
        CanonicalTargets(a, b, k, OwnedRelationship);
      }
    }
  }

  lemma CanonicalTargets(a: Doc, b: Doc, k: nat, key: Prop)
    requires DistinctIds(a) && DistinctIds(b) && SameHeads(a, b) && CanonIds(a) == CanonIds(b) && k < |a|
    ensures
      var i, c, d := IndexOf(Ids(a), CanonIds(a)[k]), Canonical(a), Canonical(b);
      && i < |a| && i < |b| && k < |c| && k < |d|
      && Targets(c, c[k], key) == Targets(a, a[i], key) && Targets(d, d[k], key) == Targets(b, b[i], key)
  {
    hide Canonical, CanonIds, DistinctIds, SameHeads, Targets;
    CanonicalLengths(a, b);
    CanonicalElems(a);
    CanonicalElems(b);
    CanonicalAt(a, b, k);
    TargetsOf(Canonical(a), a, Canonical(a)[k], key);
    TargetsOf(Canonical(b), b, Canonical(b)[k], key);
  }

  lemma CanonicalLengths(a: Doc, b: Doc)
    requires DistinctIds(a) && DistinctIds(b) && SameHeads(a, b)
    ensures |a| == |b| == |Canonical(a)| == |Canonical(b)|
  {
    hide CanonIds;
  }

  // ---- the records over a base -----------------------------------------------------

  /** What the first record on a base position carries. */
  function PayloadOn(recs: seq<ResolvedRecord>, i: nat): Option<RecordPayload> {
    if recs == [] then None
    else if recs[0].target.ToBase? && recs[0].target.index == i then Some(recs[0].payload)
    else PayloadOn(recs[1..], i)
  }

  lemma {:induction false} PayloadAppend(a: seq<ResolvedRecord>, b: seq<ResolvedRecord>, i: nat)
    ensures PayloadOn(a + b, i) == if PayloadOn(a, i).Some? then PayloadOn(a, i) else PayloadOn(b, i)
  {
    if a == [] {
      assert a + b == b;
    } else {
      assert (a + b)[0] == a[0] && (a + b)[1..] == a[1..] + b;
      PayloadAppend(a[1..], b, i);
    }
  }

  lemma {:induction false} PayloadFrom(recs: seq<ResolvedRecord>, i: nat)
    requires PayloadOn(recs, i).Some?
    ensures
      exists k :: 0 <= k < |recs| && recs[k].target.ToBase? && recs[k].target.index == i
                  && PayloadOn(recs, i) == Some(recs[k].payload)
  {
    if !(recs[0].target.ToBase? && recs[0].target.index == i) {
      PayloadFrom(recs[1..], i);
      var k :| 0 <= k < |recs[1..]| && recs[1..][k].target.ToBase? && recs[1..][k].target.index == i
               && PayloadOn(recs[1..], i) == Some(recs[1..][k].payload);
      assert recs[k + 1] == recs[1..][k];
    }
  }

  /** The identities the records create, in record order. */
  function CreatedIds(recs: seq<ResolvedRecord>): seq<Uuid> {
    if recs == [] then []
    else (if recs[0].target.ToCreate? then [recs[0].target.id] else []) + CreatedIds(recs[1..])
  }

  /** The identities the result holds: the base's that no record deletes, and the created ones. */
  function ResultIds(base: Doc, recs: seq<ResolvedRecord>): set<Uuid> {
    (set i | 0 <= i < |base| && PayloadOn(recs, i) != Some(DeletePayload) :: base[i].id) + Elems(CreatedIds(recs))
  }

  /** Both ownership lists of a base element line up under a patch; an empty one leaves them as they are. */
  predicate ElementLines(base: Doc, kept: set<Uuid>, e: Element, ops: NamedOps) {
    var held := Elems(Ids(base));
    && Lined(held, kept, ItemsOf(e.props, OwnedRelatedElement), OpOn(ops, OwnedRelatedElement))
    && Lined(held, kept, ItemsOf(e.props, OwnedRelationship), OpOn(ops, OwnedRelationship))
  }

  /** A base element that is dropped or shipped whole always lines up. */
  predicate PayloadLines(base: Doc, kept: set<Uuid>, e: Element, payload: Option<RecordPayload>) {
    match payload
    case None => ElementLines(base, kept, e, [])
    case Some(PatchPayload(ops)) => ElementLines(base, kept, e, ops)
    case Some(_) => true
  }

  ghost predicate ListsLineUp(base: Doc, recs: seq<ResolvedRecord>) {
    forall i :: 0 <= i < |base| ==> PayloadLines(base, ResultIds(base, recs), base[i], PayloadOn(recs, i))
  }

  /** What a delta must meet for structure to follow content: no identity made twice, and every list in line. */
  ghost predicate LinesUp(base: Doc, recs: seq<ResolvedRecord>) {
    NoDup(CreatedIds(recs)) && ListsLineUp(base, recs)
  }

  /** A splice within the entries an index holds. */
  predicate SpliceFits(list: seq<Uuid>, op: Option<FieldOp>) {
    op.Some? && op.value.Splice? ==> op.value.at + op.value.del <= |list|
  }

  /** A patch whose splices stay within the held entries of the lists they edit. */
  predicate PayloadFits(base: Doc, e: Element, payload: Option<RecordPayload>) {
    payload.Some? && payload.value.PatchPayload? ==>
      && SpliceFits(Targets(base, e, OwnedRelatedElement), OpOn(payload.value.ops, OwnedRelatedElement))
      && SpliceFits(Targets(base, e, OwnedRelationship), OpOn(payload.value.ops, OwnedRelationship))
  }

  /** What a delta must meet for structure to accept it at all. */
  ghost predicate ListsFit(base: Doc, recs: seq<ResolvedRecord>) {
    forall i :: 0 <= i < |base| ==> PayloadFits(base, base[i], PayloadOn(recs, i))
  }

  /** The records with other exception bits. */
  ghost predicate SameRecords(recs: seq<ResolvedRecord>, other: seq<ResolvedRecord>) {
    && |recs| == |other|
    && forall i :: 0 <= i < |recs| ==> recs[i].target == other[i].target && recs[i].payload == other[i].payload
  }

  lemma {:induction false} BitsKeepPayloads(recs: seq<ResolvedRecord>, other: seq<ResolvedRecord>)
    requires SameRecords(recs, other)
    ensures CreatedIds(recs) == CreatedIds(other) && forall i :: PayloadOn(recs, i) == PayloadOn(other, i)
  {
    if recs != [] {
      BitsKeepPayloads(recs[1..], other[1..]);
    }
  }

  lemma BitsKeepLines(base: Doc, recs: seq<ResolvedRecord>, other: seq<ResolvedRecord>)
    requires SameRecords(recs, other)
    ensures ListsLineUp(base, recs) <==> ListsLineUp(base, other)
    ensures LinesUp(base, recs) <==> LinesUp(base, other)
    ensures ListsFit(base, recs) <==> ListsFit(base, other)
  {
    hide PayloadOn, CreatedIds, NoDup, PayloadLines, PayloadFits;
    BitsKeepPayloads(recs, other);
    assert ResultIds(base, recs) == ResultIds(base, other);
  }

  // ---- lists that name nothing else ------------------------------------------------

  /** Over a base whose lists name only its own elements, every list lines up. */
  lemma ClosedLines(base: Doc, kept: set<Uuid>, e: Element, payload: Option<RecordPayload>)
    requires ElementClosed(base, e)
    requires payload.Some? && payload.value.PatchPayload? ==>
      DistinctKeys(payload.value.ops) && NamedReplay(e.props, payload.value.ops).Some?
    ensures PayloadLines(base, kept, e, payload)
  {
    hide Lined, NamedReplay, DistinctKeys, ListClosed;
    var ops := if payload.Some? && payload.value.PatchPayload? then payload.value.ops else [];
    if payload.None? || payload.value.PatchPayload? {
      NoOps(e.props, ops);
      ClosedLined(base, kept, e, ops, OwnedRelatedElement);
      ClosedLined(base, kept, e, ops, OwnedRelationship);
    }
  }

  lemma NoOps(props: Props, ops: NamedOps)
    ensures ops == [] ==> DistinctKeys(ops) && NamedReplay(props, ops) == Some(props)
  {
  }

  lemma ClosedLined(base: Doc, kept: set<Uuid>, e: Element, ops: NamedOps, key: Prop)
    requires ListClosed(base, e, key) && DistinctKeys(ops) && NamedReplay(e.props, ops).Some?
    ensures Lined(Elems(Ids(base)), kept, ItemsOf(e.props, key), OpOn(ops, key))
  {
    hide SpliceLines, RefIds, NamedReplay, DistinctKeys, Pick;
    var held, items, op := Elems(Ids(base)), ItemsOf(e.props, key), OpOn(ops, key);
    ReplayMoves(e.props, ops, key);
    HeldRefs(held, items);
    if op.Some? && op.value.Splice? {
      HeldRefs(held, items[op.value.at + op.value.del..]);
      AlignedSplice(held, kept, items, op.value.at, op.value.del, op.value.items);
    }
  }

  // ---- what lining up means for a node ---------------------------------------------

  /** A base element as its index shows it: each list cut to what the base holds. */
  function HeldNode(tables: Tables, base: Doc, e: Element): Node {
    Node(e.id, TypeCode(tables, e.ty), Targets(base, e, OwnedRelatedElement), Targets(base, e, OwnedRelationship))
  }

  lemma BaseHolds(tables: Tables, base: Doc)
    ensures WellFormed(Structure(tables, base))
    ensures
      var nodes := BaseNodes(Structure(tables, base));
      |nodes| == |base| && forall i :: 0 <= i < |base| ==> nodes[i] == HeldNode(tables, base, base[i])
  {
    hide Located, ListIds, IdsAt, Pick;
    StructureWellFormed(tables, base);
    forall i | 0 <= i < |base| ensures BaseNodes(Structure(tables, base))[i] == HeldNode(tables, base, base[i]) {
      LocatedSpelled(Ids(base), ListIds(base[i], OwnedRelatedElement));
      LocatedSpelled(Ids(base), ListIds(base[i], OwnedRelationship));
    }
  }

  /** A node and an element whose lists hold the same entries of `kept`. */
  ghost predicate Agrees(kept: set<Uuid>, node: Node, e: Element) {
    && Pick(node.kids, kept, true) == Pick(ListIds(e, OwnedRelatedElement), kept, true)
    && Pick(node.rels, kept, true) == Pick(ListIds(e, OwnedRelationship), kept, true)
  }

  lemma ListIdsOf(e: Element, key: Prop)
    ensures ListIds(e, key) == RefIds(ItemsOf(e.props, key))
  {
  }

  /** One list of a patched element, on both sides. */
  lemma ListAgrees(base: Doc, kept: set<Uuid>, e: Element, after: Element, ops: NamedOps, key: Prop)
    requires DistinctKeys(ops) && NamedReplay(e.props, ops) == Some(after.props)
    ensures
      var moved := Moved(Targets(base, e, key), OpOn(ops, key));
      Lined(Elems(Ids(base)), kept, ItemsOf(e.props, key), OpOn(ops, key))
      <==> moved.Some? && Pick(moved.value, kept, true) == Pick(ListIds(after, key), kept, true)
  {
    hide Lined, RefIds, ItemsOf, OpItems, OpOn, NamedReplay, DistinctKeys, Moved, Pick, ListIds;
    ReplayMoves(e.props, ops, key);
    ListIdsOf(e, key);
    ListIdsOf(after, key);
    TargetsDef(base, e, key);
    LinedMeans(Elems(Ids(base)), kept, ItemsOf(e.props, key), OpOn(ops, key));
  }

  /** Structure takes a patch exactly when its splices fit. */
  lemma NodeFits(tables: Tables, base: Doc, e: Element, ops: NamedOps)
    requires DistinctKeys(ops)
    ensures PatchNodes(HeldNode(tables, base, e), ops).Some? <==> PayloadFits(base, e, Some(PatchPayload(ops)))
  {
    hide OpOn, DistinctKeys, PatchNodes, Targets, RefIds;
    PatchMoves(HeldNode(tables, base, e), ops);
  }

  /** An element lines up exactly when its patched node agrees with its patched content. */
  lemma NodeAgrees(tables: Tables, base: Doc, kept: set<Uuid>, e: Element, after: Element, ops: NamedOps)
    requires DistinctKeys(ops) && NamedReplay(e.props, ops) == Some(after.props)
    ensures
      var r := PatchNodes(HeldNode(tables, base, e), ops);
      ElementLines(base, kept, e, ops) <==> r.Some? && Agrees(kept, r.value, after)
  {
    hide Lined, OpOn, NamedReplay, DistinctKeys, Moved, Pick, ListIds, PatchNodes, Targets;
    PatchMoves(HeldNode(tables, base, e), ops);
    ListAgrees(base, kept, e, after, ops, OwnedRelatedElement);
    ListAgrees(base, kept, e, after, ops, OwnedRelationship);
  }
}
