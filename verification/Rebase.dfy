/**
  Rebasing a target's identities onto a base: what a renaming does to a document.

  The rebased document is the target with one map applied to every identity it spells: an
  element's own, its `elementId` mirror, and every reference.
 */
module Rebase {
  import opened Wrappers
  import opened Seqs
  import opened Cbor
  import opened Model
  import opened Order
  import opened Owners
  import opened CanonDoc

  type Remap = map<Uuid, Uuid>

  function Renamed(remap: Remap, u: Uuid): Uuid {
    if u in remap then remap[u] else u
  }

  // ---- canonical spellings are one-to-one ------------------------------------------

  lemma {:induction false} HexLength(bs: seq<byte>)
    ensures |Hex(bs)| == 2 * |bs|
  {
    if bs != [] {
      HexLength(bs[1..]);
    }
  }

  lemma HexDigitInjective(a: nat, b: nat)
    requires a < 16 && b < 16 && HexDigit(a) == HexDigit(b)
    ensures a == b
  {
  }

  lemma {:induction false} HexInjective(a: seq<byte>, b: seq<byte>)
    requires |a| == |b| && Hex(a) == Hex(b)
    ensures a == b
  {
    if a != [] {
      var x, y := Hex(a), Hex(b);
      assert x[0] == HexDigit(a[0] / 16) && x[1] == HexDigit(a[0] % 16) && x[2..] == Hex(a[1..]);
      assert y[0] == HexDigit(b[0] / 16) && y[1] == HexDigit(b[0] % 16) && y[2..] == Hex(b[1..]);
      HexDigitInjective(a[0] / 16, b[0] / 16);
      HexDigitInjective(a[0] % 16, b[0] % 16);
      HexInjective(a[1..], b[1..]);
      assert a == [a[0]] + a[1..] && b == [b[0]] + b[1..];
    }
  }

  /** The five groups of a spelling, cut where the hyphens are. */
  lemma SpellGroups(u: Uuid)
    ensures
      var b, t := UuidBytes(u), Spell(u);
      && |t| == 36 && t[..8] == Hex(b[..4]) && t[9..13] == Hex(b[4..6]) && t[14..18] == Hex(b[6..8])
      && t[19..23] == Hex(b[8..10]) && t[24..] == Hex(b[10..])
  {
    hide UuidBytes, Hex;
    var b := UuidBytes(u);
    var g0, g1, g2, g3, g4 := Hex(b[..4]), Hex(b[4..6]), Hex(b[6..8]), Hex(b[8..10]), Hex(b[10..]);
    HexLength(b[..4]);
    HexLength(b[4..6]);
    HexLength(b[6..8]);
    HexLength(b[8..10]);
    HexLength(b[10..]);
    var t := g0 + [45] + g1 + [45] + g2 + [45] + g3 + [45] + g4;
    assert t[..8] == g0 && t[9..13] == g1;
    assert t[14..18] == g2 && t[19..23] == g3;
    assert t[24..] == g4;
  }

  lemma SpellInjective(u: Uuid, v: Uuid)
    requires Spell(u) == Spell(v)
    ensures u == v
  {
    hide Spell, Hex, UuidBytes, UuidOf;
    var a, b := UuidBytes(u), UuidBytes(v);
    SpellGroups(u);
    SpellGroups(v);
    HexInjective(a[..4], b[..4]);
    HexInjective(a[4..6], b[4..6]);
    HexInjective(a[6..8], b[6..8]);
    HexInjective(a[8..10], b[8..10]);
    HexInjective(a[10..], b[10..]);
    GroupsSame(a, b);
    UuidOfBytes(u);
    UuidOfBytes(v);
  }

  lemma GroupsSame(a: seq<byte>, b: seq<byte>)
    requires |a| == |b| == 16
    requires a[..4] == b[..4] && a[4..6] == b[4..6] && a[6..8] == b[6..8] && a[8..10] == b[8..10] && a[10..] == b[10..]
    ensures a == b
  {
    assert a == a[..4] + a[4..6] + a[6..8] + a[8..10] + a[10..];
    assert b == b[..4] + b[4..6] + b[6..8] + b[8..10] + b[10..];
  }

  // ---- the rewrite -----------------------------------------------------------------

  /** The renaming on spelled identities. */
  function RenamedText(remap: Remap, t: Text): (r: Text)
    ensures forall u :: t == Spell(u) ==> r == Spell(Renamed(remap, u))
  {
    hide Spell;
    forall u: Uuid, v: Uuid | Spell(u) == Spell(v) ensures u == v {
      SpellInjective(u, v);
    }
    if exists u :: u in remap && Spell(u) == t then
      var u :| u in remap && Spell(u) == t;
      Spell(remap[u])
    else t
  }

  function PatchValue(remap: Remap, v: Value): Value {
    match v
    case Ref(u) => Ref(Renamed(remap, u))
    case Arr(items) => Arr(PatchItems(remap, items))
    case _ => v
  }

  function PatchItems(remap: Remap, items: seq<Value>): (r: seq<Value>)
    ensures |r| == |items|
    ensures forall i :: 0 <= i < |items| ==> r[i] == PatchValue(remap, items[i])
  {
    if items == [] then [] else [PatchValue(remap, items[0])] + PatchItems(remap, items[1..])
  }

  const ELEMENT_ID: Prop := Named("elementId")

  function PatchProp(remap: Remap, key: Prop, v: Value): Value {
    if key == ELEMENT_ID && v.Str? then Str(RenamedText(remap, v.text)) else PatchValue(remap, v)
  }

  function PatchElement(remap: Remap, e: Element): Element {
    Element(Renamed(remap, e.id), e.ty, map k | k in e.props :: PatchProp(remap, k, e.props[k]))
  }

  function PatchDoc(remap: Remap, doc: Doc): (r: Doc)
    ensures |r| == |doc| && forall i :: 0 <= i < |doc| ==> r[i] == PatchElement(remap, doc[i])
  {
    seq(|doc|, i requires 0 <= i < |doc| => PatchElement(remap, doc[i]))
  }

  // ---- what the renaming keeps -----------------------------------------------------

  /** The identities a value references, in order, however nested. */
  function References(v: Value): seq<Uuid> {
    match v
    case Ref(u) => [u]
    case Arr(items) => ItemReferences(items)
    case _ => []
  }

  function ItemReferences(items: seq<Value>): seq<Uuid> {
    if items == [] then [] else References(items[0]) + ItemReferences(items[1..])
  }

  function RenamedAll(remap: Remap, us: seq<Uuid>): (r: seq<Uuid>)
    ensures |r| == |us| && forall i :: 0 <= i < |us| ==> r[i] == Renamed(remap, us[i])
  {
    seq(|us|, i requires 0 <= i < |us| => Renamed(remap, us[i]))
  }

  lemma {:induction false} ReferencesPatched(remap: Remap, v: Value)
    ensures References(PatchValue(remap, v)) == RenamedAll(remap, References(v))
  {
    if v.Arr? {
      ItemReferencesPatched(remap, v.items);
    }
  }

  lemma {:induction false} ItemReferencesPatched(remap: Remap, items: seq<Value>)
    ensures ItemReferences(PatchItems(remap, items)) == RenamedAll(remap, ItemReferences(items))
  {
    if items != [] {
      ReferencesPatched(remap, items[0]);
      ItemReferencesPatched(remap, items[1..]);
      var r := PatchItems(remap, items);
      assert r[1..] == PatchItems(remap, items[1..]);
    }
  }

  lemma IdsPatched(remap: Remap, doc: Doc)
    ensures Ids(PatchDoc(remap, doc)) == RenamedAll(remap, Ids(doc))
  {
  }

  /** A renaming fit to rebase `target`: its own identities to base identities, apart after it. */
  ghost predicate Rebases(base: Doc, target: Doc, remap: Remap) {
    && (forall u :: u in remap ==> u in Ids(target) && remap[u] in Ids(base))
    && DistinctIds(PatchDoc(remap, target))
  }

  lemma RebasedDistinct(base: Doc, target: Doc, remap: Remap)
    requires Rebases(base, target, remap)
    ensures DistinctIds(target)
  {
    hide PatchDoc;
    var was, ids := Ids(target), Ids(PatchDoc(remap, target));
    IdsPatched(remap, target);
    forall i, j | 0 <= i < j < |was| ensures was[i] != was[j] {
      assert ids[i] != ids[j];
      assert ids[i] == Renamed(remap, was[i]) && ids[j] == Renamed(remap, was[j]);
    }
  }

  /**
    Every identity names the same element after the renaming: an in-payload one the element at
    its position, an external one (no base identity) still nothing.
   */
  lemma NamesSurvive(base: Doc, target: Doc, remap: Remap, u: Uuid)
    requires Rebases(base, target, remap) && (u in Ids(target) || u !in Ids(base))
    ensures IndexOf(Ids(PatchDoc(remap, target)), Renamed(remap, u)) == IndexOf(Ids(target), u)
  {
    hide PatchDoc, DistinctIds;
    var ids, was := Ids(PatchDoc(remap, target)), Ids(target);
    IdsPatched(remap, target);
    if u in was {
      var k := IndexOf(was, u);
      assert ids[k] == Renamed(remap, was[k]);
      assert NoDup(ids) by { DistinctIsNoDup(PatchDoc(remap, target)); }
      IndexOfNoDup(ids, k);
    } else {
      forall k | 0 <= k < |ids| ensures ids[k] != u {
        assert ids[k] == Renamed(remap, was[k]) && was[k] in was;
      }
    }
  }

  /** The exact condition: an external identity keeps naming nothing unless some element adopts it. */
  lemma NamesSurviveExactly(base: Doc, target: Doc, remap: Remap, u: Uuid)
    requires Rebases(base, target, remap)
    ensures
      IndexOf(Ids(PatchDoc(remap, target)), Renamed(remap, u)) == IndexOf(Ids(target), u)
      <==> u in Ids(target) || u !in remap.Values
  {
    hide PatchDoc, DistinctIds;
    var ids, was := Ids(PatchDoc(remap, target)), Ids(target);
    IdsPatched(remap, target);
    if u in was {
      NamesSurvive(base, target, remap, u);
    } else if u in remap.Values {
      var v :| v in remap && remap[v] == u;
      assert ids[IndexOf(was, v)] == u;
    } else {
      forall k | 0 <= k < |ids| ensures ids[k] != u {
        assert ids[k] == Renamed(remap, was[k]) && was[k] in was;
      }
    }
  }

  lemma DistinctIsNoDup(doc: Doc)
    requires DistinctIds(doc)
    ensures NoDup(Ids(doc))
  {
  }

  /** The element mirror of an identity stays a mirror. */
  lemma MirrorSurvives(remap: Remap, e: Element)
    requires ELEMENT_ID in e.props && e.props[ELEMENT_ID] == Str(Spell(e.id))
    ensures
      var r := PatchElement(remap, e);
      ELEMENT_ID in r.props && r.props[ELEMENT_ID] == Str(Spell(r.id))
  {
    hide Spell, RenamedText;
  }

  /** A positional reading of references: where each leads in the document, or past its end. */
  function Leads(doc: Doc, us: seq<Uuid>): (r: seq<nat>)
    ensures |r| == |us| && forall i :: 0 <= i < |us| ==> r[i] == IndexOf(Ids(doc), us[i])
  {
    seq(|us|, i requires 0 <= i < |us| => IndexOf(Ids(doc), us[i]))
  }

  ghost predicate ExternalsFree(base: Doc, target: Doc) {
    forall e, k, u ::
      e in target && k in e.props && u in References(e.props[k]) ==> u in Ids(target) || u !in Ids(base)
  }

  /** Every reference of every property leads to the same position before and after. */
  lemma ReferencesSurvive(base: Doc, target: Doc, remap: Remap, i: nat, key: Prop)
    requires Rebases(base, target, remap) && ExternalsFree(base, target)
    requires i < |target| && key in target[i].props && key != ELEMENT_ID
    ensures
      var r := PatchDoc(remap, target);
      key in r[i].props
      && Leads(r, References(r[i].props[key])) == Leads(target, References(target[i].props[key]))
  {
    hide Rebases, References, Ids, PatchValue, Renamed, IndexOf;
    var r := PatchDoc(remap, target);
    var us := References(target[i].props[key]);
    assert r[i].props[key] == PatchValue(remap, target[i].props[key]);
    ReferencesPatched(remap, target[i].props[key]);
    forall k | 0 <= k < |us| ensures IndexOf(Ids(r), Renamed(remap, us[k])) == IndexOf(Ids(target), us[k]) {
      assert target[i] in target && us[k] in us;
      NamesSurvive(base, target, remap, us[k]);
    }
  }

  // ---- the canonical order ---------------------------------------------------------

  function Naming(remap: Remap, doc: Doc): Remap {
    map u | u in Elems(Ids(doc)) :: Renamed(remap, u)
  }

  lemma RenamedHead(remap: Remap, u: Uuid, rest: seq<Uuid>)
    ensures RenamedAll(remap, [u] + rest) == [Renamed(remap, u)] + RenamedAll(remap, rest)
    ensures RenamedAll(remap, []) == []
  {
    hide Renamed;
  }

  lemma {:induction false} PickRenamed(remap: Remap, us: seq<Uuid>, xs: set<Uuid>, ys: set<Uuid>)
    requires forall u :: u in us ==> (u in xs <==> Renamed(remap, u) in ys)
    ensures Pick(RenamedAll(remap, us), ys, true) == RenamedAll(remap, Pick(us, xs, true))
  {
    hide Renamed, RenamedAll, Pick;
    if us == [] {
      PickEmpty<Uuid>(xs, true);
      PickEmpty<Uuid>(ys, true);
      RenamedHead(remap, 0, []);
    } else {
      var u, rest := us[0], us[1..];
      assert us == [u] + rest && u in us;
      PickRenamed(remap, rest, xs, ys);
      RenamedHead(remap, u, rest);
      PickHead(u, rest, xs, true);
      PickHead(Renamed(remap, u), RenamedAll(remap, rest), ys, true);
      RenamedHead(remap, u, Pick(rest, xs, true));
      assert [] + Pick(rest, xs, true) == Pick(rest, xs, true);
      assert [] + RenamedAll(remap, Pick(rest, xs, true)) == RenamedAll(remap, Pick(rest, xs, true));
    }
  }

  lemma {:induction false} RefIdsPatched(remap: Remap, items: seq<Value>)
    ensures RefIds(PatchItems(remap, items)) == RenamedAll(remap, RefIds(items))
  {
    if items != [] {
      RefIdsPatched(remap, items[1..]);
      assert PatchItems(remap, items)[1..] == PatchItems(remap, items[1..]);
    }
  }

  lemma ListPatched(remap: Remap, e: Element, key: Prop)
    requires key != ELEMENT_ID
    ensures ListIds(PatchElement(remap, e), key) == RenamedAll(remap, ListIds(e, key))
  {
    hide RefIds, PatchItems;
    if key in e.props && e.props[key].Arr? {
      RefIdsPatched(remap, e.props[key].items);
    }
  }

  lemma {:induction false} RefIdsReferenced(items: seq<Value>, u: Uuid)
    requires u in RefIds(items)
    ensures u in ItemReferences(items)
  {
    if items[0].Ref? && items[0].id == u {
      assert References(items[0]) == [u];
    } else {
      RefIdsReferenced(items[1..], u);
    }
  }

  lemma ListOutside(base: Doc, target: Doc, e: Element, key: Prop, u: Uuid)
    requires ExternalsFree(base, target) && e in target && u in ListIds(e, key)
    ensures u in Ids(target) || u !in Ids(base)
  {
    hide RefIds, ItemReferences;
    RefIdsReferenced(e.props[key].items, u);
    assert u in References(e.props[key]);
  }

  /** An identity is in the payload before exactly when its new name is after. */
  lemma StillInside(base: Doc, target: Doc, remap: Remap, u: Uuid)
    requires Rebases(base, target, remap) && (u in Ids(target) || u !in Ids(base))
    ensures u in Elems(Ids(target)) <==> Renamed(remap, u) in Elems(Ids(PatchDoc(remap, target)))
  {
    hide Rebases, Ids, PatchDoc, Renamed;
    NamesSurvive(base, target, remap, u);
    IdsPatched(remap, target);
  }

  lemma TargetsPatched(base: Doc, target: Doc, remap: Remap, e: Element, key: Prop)
    requires Rebases(base, target, remap) && ExternalsFree(base, target) && e in target && key != ELEMENT_ID
    ensures
      Targets(PatchDoc(remap, target), PatchElement(remap, e), key) == RenamedAll(remap, Targets(target, e, key))
  {
    hide Rebases, ExternalsFree, Ids, PatchDoc, PatchElement, Renamed, ListIds, Elems, Pick;
    ListPatched(remap, e, key);
    var xs, ys := Elems(Ids(target)), Elems(Ids(PatchDoc(remap, target)));
    forall u | u in ListIds(e, key) ensures u in xs <==> Renamed(remap, u) in ys {
      ListOutside(base, target, e, key, u);
      StillInside(base, target, remap, u);
    }
    PickRenamed(remap, ListIds(e, key), xs, ys);
  }

  lemma NamingImage(remap: Remap, doc: Doc, us: seq<Uuid>)
    requires forall u :: u in us ==> u in Ids(doc)
    ensures Covers(Naming(remap, doc), us) && Image(Naming(remap, doc), us) == RenamedAll(remap, us)
  {
    hide Renamed, Ids;
  }

  lemma RebasedNoDup(base: Doc, target: Doc, remap: Remap)
    requires Rebases(base, target, remap)
    ensures NoDup(Ids(PatchDoc(remap, target))) && NoDup(Ids(target))
  {
    RebasedDistinct(base, target, remap);
  }

  lemma NamedApart(base: Doc, target: Doc, remap: Remap, u: Uuid, v: Uuid)
    requires Rebases(base, target, remap) && u in Ids(target) && v in Ids(target)
    requires Renamed(remap, u) == Renamed(remap, v)
    ensures u == v
  {
    hide Rebases, PatchDoc, Ids, Renamed;
    var ids, was := Ids(PatchDoc(remap, target)), Ids(target);
    IdsPatched(remap, target);
    RebasedNoDup(base, target, remap);
    var i, j := IndexOf(was, u), IndexOf(was, v);
    assert ids[i] == Renamed(remap, u) && ids[j] == Renamed(remap, v);
    assert i == j;
  }

  lemma NamingOneToOne(base: Doc, target: Doc, remap: Remap)
    requires Rebases(base, target, remap)
    ensures OneToOne(Naming(remap, target))
  {
    hide Rebases, Ids, Renamed;
    var f := Naming(remap, target);
    forall u, v | u in f && v in f && f[u] == f[v] ensures u == v {
      NamedApart(base, target, remap, u, v);
    }
  }

  lemma NamingValues(target: Doc, remap: Remap)
    ensures Naming(remap, target).Values == Elems(Ids(PatchDoc(remap, target)))
  {
    hide PatchDoc, Ids, Renamed;
    var f, ids, was := Naming(remap, target), Ids(PatchDoc(remap, target)), Ids(target);
    IdsPatched(remap, target);
    forall y ensures y in f.Values <==> y in Elems(ids) {
      if y in f.Values {
        var u :| u in f && f[u] == y;
        assert ids[IndexOf(was, u)] == y;
      }
      if y in Elems(ids) {
        var i :| 0 <= i < |ids| && ids[i] == y;
        assert was[i] in f && f[was[i]] == y;
      }
    }
  }

  lemma AtPatched(base: Doc, target: Doc, remap: Remap, u: Uuid)
    requires Rebases(base, target, remap) && u in Ids(target)
    ensures
      var r := PatchDoc(remap, target);
      Renamed(remap, u) in Ids(r) && At(r, Renamed(remap, u)) == PatchElement(remap, At(target, u))
  {
    hide Rebases, PatchElement, Renamed;
    NamesSurvive(base, target, remap, u);
  }

  /** One node of a renamed graph. */
  ghost predicate NodeRenames(f: Remap, g: Graph<Uuid>, h: Graph<Uuid>, u: Uuid) {
    && u in f && u in g.kids && u in g.rels && f[u] in h.kids && f[u] in h.rels
    && Covers(f, g.kids[u]) && h.kids[f[u]] == Image(f, g.kids[u])
    && Covers(f, g.rels[u]) && h.rels[f[u]] == Image(f, g.rels[u])
  }

  lemma TargetsInside(doc: Doc, e: Element, key: Prop)
    ensures forall u :: u in Targets(doc, e, key) ==> u in Ids(doc)
  {
    hide Ids, ListIds;
  }

  lemma RebasedNode(base: Doc, target: Doc, remap: Remap, u: Uuid)
    requires Rebases(base, target, remap) && ExternalsFree(base, target) && u in Ids(target)
    ensures NodeRenames(Naming(remap, target), GraphOf(target), GraphOf(PatchDoc(remap, target)), u)
  {
    hide Rebases, ExternalsFree, PatchDoc, PatchElement, Image, Pick, Renamed, Targets;
    var e := At(target, u);
    AtPatched(base, target, remap, u);
    TargetsPatched(base, target, remap, e, OwnedRelatedElement);
    TargetsPatched(base, target, remap, e, OwnedRelationship);
    TargetsInside(target, e, OwnedRelatedElement);
    TargetsInside(target, e, OwnedRelationship);
    NamingImage(remap, target, Targets(target, e, OwnedRelatedElement));
    NamingImage(remap, target, Targets(target, e, OwnedRelationship));
  }

  lemma NodesRename(f: Remap, g: Graph<Uuid>, h: Graph<Uuid>)
    requires OneToOne(f) && Closed(g) && f.Keys == g.kids.Keys
    requires h.kids.Keys == f.Values && h.rels.Keys == f.Values
    requires forall u :: u in f ==> NodeRenames(f, g, h, u)
    ensures Renames(f, g, h)
  {
    hide OneToOne, Closed, Image, Covers;
    assert forall u :: u in f ==> NodeRenames(f, g, h, u);
  }

  /** The ownership graph of the rebased document is the target's, renamed. */
  lemma RebasedGraph(base: Doc, target: Doc, remap: Remap)
    requires Rebases(base, target, remap) && ExternalsFree(base, target)
    ensures Renames(Naming(remap, target), GraphOf(target), GraphOf(PatchDoc(remap, target)))
  {
    hide Rebases, ExternalsFree, Ids, PatchDoc, Renames, OneToOne, Closed, NodeRenames;
    var f, g, h := Naming(remap, target), GraphOf(target), GraphOf(PatchDoc(remap, target));
    NamingOneToOne(base, target, remap);
    NamingValues(target, remap);
    RebasedDistinct(base, target, remap);
    GraphClosed(target);
    forall u | u in f ensures NodeRenames(f, g, h, u) {
      RebasedNode(base, target, remap, u);
    }
    NodesRename(f, g, h);
  }

  lemma GraphClosed(doc: Doc)
    requires DistinctIds(doc)
    ensures Closed(GraphOf(doc))
  {
    hide GraphOf, Closed;
    GraphArranged(doc);
  }

  /** Rebasing commutes with canonicalising: the rebased order is the target's, renamed. */
  lemma RebaseKeepsOrder(base: Doc, target: Doc, remap: Remap)
    requires Rebases(base, target, remap) && ExternalsFree(base, target)
    ensures DistinctIds(target) && DistinctIds(PatchDoc(remap, target))
    ensures CanonIds(PatchDoc(remap, target)) == RenamedAll(remap, CanonIds(target))
  {
    hide ExternalsFree, PatchDoc, GraphOf, Image, Canon, Renames, Renamed;
    var f, r := Naming(remap, target), PatchDoc(remap, target);
    RebasedDistinct(base, target, remap);
    RebasedGraph(base, target, remap);
    GraphArranged(target);
    CanonRenames(f, GraphOf(target), GraphOf(r), Ids(target));
    NamingImage(remap, target, Ids(target));
    NamingImage(remap, target, CanonIds(target));
    IdsPatched(remap, target);
  }
}
