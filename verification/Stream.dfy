/**
  Encoding a document one element at a time: records written once with raw identities, then
  respelled. What comes out is what the whole-array encoder writes.
 */
module Stream {
  import opened Wrappers
  import opened Seqs
  import opened Flat
  import opened Cbor
  import opened Model
  import opened Owners
  import opened Values
  import opened Records
  import opened Sections
  import opened Snapshot
  import opened Order
  import opened Preorder
  import opened CanonDoc
  import opened Index
  import opened TransitionCommutes
  import opened Transcode

  // ---- what is kept of each element ------------------------------------------------

  /** What an element spells for a backpointer. */
  datatype OwnerSpelling = Unspelled | NullOwner | IdOwner(u: Uuid) | OtherOwner

  function SpellingOf(e: Element, key: Prop): OwnerSpelling {
    if key !in e.props then Unspelled
    else
      match e.props[key]
      case Null => NullOwner
      case Ref(u) => IdOwner(u)
      case _ => OtherOwner
  }

  datatype Row = Row(fields: seq<Field>, owning: OwnerSpelling, related: OwnerSpelling, absentBits: nat)

  function RowOf(tables: Tables, e: Element): Row {
    Row(FieldsOf(tables, e.ty), SpellingOf(e, OwningRelationship), SpellingOf(e, OwningRelatedElement),
      AbsentBits(FieldsOf(tables, e.ty), e))
  }

  /** Two ownership lists per element: relationships, then related elements. */
  function OwnedKey(list: nat): Prop {
    if list == 0 then OwnedRelationship else OwnedRelatedElement
  }

  datatype ElementRecords = ElementRecords(
    ids: seq<Uuid>, ext: seq<Uuid>, records: Toks, starts: seq<nat>, owned: seq<nat>, ends: seq<nat>, rows: seq<Row>)

  // ---- the lists behind the flat arrays --------------------------------------------

  /** List `2 * i + slot` is element `i`'s. */
  ghost function TargetLists(doc: Doc): (lists: seq<seq<Uuid>>)
    ensures |lists| == 2 * |doc|
    ensures forall l :: 0 <= l < 2 * |doc| ==> lists[l] == ListIds(doc[l / 2], OwnedKey(l % 2))
  {
    seq(2 * |doc|, l requires 0 <= l < 2 * |doc| => ListIds(doc[l / 2], OwnedKey(l % 2)))
  }

  ghost function PositionsOf(doc: Doc): (lists: seq<seq<nat>>)
    ensures |lists| == 2 * |doc|
    ensures forall l :: 0 <= l < 2 * |doc| ==> lists[l] == Located(Ids(doc), ListIds(doc[l / 2], OwnedKey(l % 2)))
  {
    hide Located;
    seq(2 * |doc|, l requires 0 <= l < 2 * |doc| => Located(Ids(doc), ListIds(doc[l / 2], OwnedKey(l % 2))))
  }

  ghost predicate RawWritable(tables: Tables, doc: Doc) {
    forall i :: 0 <= i < |doc| ==> WriteElement(tables, Raw, doc[i], Spelled).Ok?
  }

  ghost function RawRecords(tables: Tables, doc: Doc): (lists: seq<Toks>)
    requires RawWritable(tables, doc)
    ensures |lists| == |doc|
    ensures forall i :: 0 <= i < |doc| ==> lists[i] == WriteElement(tables, Raw, doc[i], Spelled).value
  {
    seq(|doc|, i requires 0 <= i < |doc| => WriteElement(tables, Raw, doc[i], Spelled).value)
  }

  /** `ends` holds where each of `lists` ends. */
  ghost predicate EndsOf<T>(ends: seq<nat>, lists: seq<seq<T>>) {
    |ends| == |lists| && forall l :: 0 <= l < |lists| ==> ends[l] == EndOf(lists, l)
  }

  /** The records read from a document. */
  ghost predicate Reads(tables: Tables, doc: Doc, r: ElementRecords) {
    && DistinctIds(doc) && RawWritable(tables, doc)
    && r.ids == Ids(doc)
    && r.ext == BuildInterner(Ids(doc), DocRefs(tables, doc)).ext
    && r.records == Flatten(RawRecords(tables, doc))
    && |r.starts| == |doc| + 1
    && (forall i :: 0 <= i <= |doc| ==> r.starts[i] == StartOf(RawRecords(tables, doc), i))
    && r.owned == Flatten(PositionsOf(doc)) && EndsOf(r.ends, PositionsOf(doc))
    && |r.rows| == |doc| && forall i :: 0 <= i < |doc| ==> r.rows[i] == RowOf(tables, doc[i])
  }

  // ---- reading ---------------------------------------------------------------------

  /** What the reading loop holds after `i` elements. */
  datatype Reading = Reading(
    ids: seq<Uuid>, targets: seq<Uuid>, ends: seq<nat>, refs: set<Uuid>, records: Toks, starts: seq<nat>,
    rows: seq<Row>)

  ghost predicate ReadSoFar(tables: Tables, doc: Doc, i: nat, r: Reading)
    requires i <= |doc|
  {
    var done := doc[..i];
    && RawWritable(tables, done)
    && r.ids == Ids(done)
    && r.targets == Flatten(TargetLists(done)) && EndsOf(r.ends, TargetLists(done))
    && r.refs == DocRefs(tables, done)
    && r.records == Flatten(RawRecords(tables, done))
    && |r.starts| == i && (forall k :: 0 <= k < i ==> r.starts[k] == StartOf(RawRecords(tables, done), k))
    && |r.rows| == i && forall k :: 0 <= k < i ==> r.rows[k] == RowOf(tables, doc[k])
  }

  /** One element read: its lists, references, record and row laid after what is there. */
  function ReadOne(tables: Tables, r: Reading, e: Element, record: Toks): Reading {
    var first := r.targets + ListIds(e, OwnedRelationship);
    var second := first + ListIds(e, OwnedRelatedElement);
    Reading(
      r.ids + [e.id], second, r.ends + [|first|, |second|], r.refs + ElementRefs(tables, e), r.records + record,
      r.starts + [|r.records|], r.rows + [RowOf(tables, e)])
  }

  lemma ReadOneKeeps(tables: Tables, doc: Doc, i: nat, r: Reading)
    requires i < |doc| && ReadSoFar(tables, doc, i, r) && WriteElement(tables, Raw, doc[i], Spelled).Ok?
    ensures ReadSoFar(tables, doc, i + 1, ReadOne(tables, r, doc[i], WriteElement(tables, Raw, doc[i], Spelled).value))
  {
    hide WriteElement, Flatten, ListIds, RowOf, ElementRefs;
    var done, e := doc[..i], doc[i];
    assert doc[..i + 1] == done + [e];
    WritableMore(tables, doc, i);
    TargetsMore(done, e, r.ends);
    RecordsMore(tables, done, e, r.starts);
    RefsMore(tables, done, e);
    assert Ids(done + [e]) == Ids(done) + [e.id];
  }

  lemma WritableMore(tables: Tables, doc: Doc, i: nat)
    requires i < |doc| && RawWritable(tables, doc[..i]) && WriteElement(tables, Raw, doc[i], Spelled).Ok?
    ensures RawWritable(tables, doc[..i + 1])
  {
    hide WriteElement;
    var more := doc[..i + 1];
    forall k | 0 <= k < |more| ensures WriteElement(tables, Raw, more[k], Spelled).Ok? {
      if k < i {
        assert more[k] == doc[..i][k];
      }
    }
  }

  lemma TargetsMore(done: Doc, e: Element, ends: seq<nat>)
    requires EndsOf(ends, TargetLists(done))
    ensures
      var first := Flatten(TargetLists(done)) + ListIds(e, OwnedRelationship);
      var second := first + ListIds(e, OwnedRelatedElement);
      && Flatten(TargetLists(done + [e])) == second
      && EndsOf(ends + [|first|, |second|], TargetLists(done + [e]))
  {
    hide ListIds, Flatten;
    var lists, more := TargetLists(done), TargetLists(done + [e]);
    var a, b := ListIds(e, OwnedRelationship), ListIds(e, OwnedRelatedElement);
    MoreLists(done, e);
    FlattenLast(lists, a);
    FlattenLast(lists + [a], b);
    forall l | 0 <= l < |more| ensures (ends + [|Flatten(lists + [a])|, |Flatten(more)|])[l] == EndOf(more, l) {
      PrefixEnds(lists, a, b, l);
    }
  }

  lemma MoreLists(done: Doc, e: Element)
    ensures
      TargetLists(done + [e])
      == TargetLists(done) + [ListIds(e, OwnedRelationship)] + [ListIds(e, OwnedRelatedElement)]
  {
    hide ListIds;
    var more, n := TargetLists(done + [e]), |done|;
    forall l | 0 <= l < 2 * n ensures more[l] == TargetLists(done)[l] {
      assert (done + [e])[l / 2] == done[l / 2];
    }
    assert more[2 * n] == ListIds((done + [e])[(2 * n) / 2], OwnedKey((2 * n) % 2));
    assert more[2 * n + 1] == ListIds((done + [e])[(2 * n + 1) / 2], OwnedKey((2 * n + 1) % 2));
  }

  lemma PrefixEnds<T>(lists: seq<seq<T>>, a: seq<T>, b: seq<T>, l: nat)
    requires l < |lists| + 2
    ensures
      var more := lists + [a] + [b];
      EndOf(more, l)
      == if l < |lists| then EndOf(lists, l) else if l == |lists| then |Flatten(lists + [a])| else |Flatten(more)|
  {
    hide Flatten;
    var more := lists + [a] + [b];
    if l < |lists| {
      assert more[..l + 1] == lists[..l + 1];
    } else if l == |lists| {
      assert more[..l + 1] == lists + [a];
    } else {
      assert more[..l + 1] == more;
    }
  }

  lemma RecordsMore(tables: Tables, done: Doc, e: Element, starts: seq<nat>)
    requires RawWritable(tables, done) && RawWritable(tables, done + [e]) && |starts| == |done|
    requires forall k :: 0 <= k < |done| ==> starts[k] == StartOf(RawRecords(tables, done), k)
    ensures WriteElement(tables, Raw, e, Spelled).Ok?
    ensures
      var record := WriteElement(tables, Raw, e, Spelled).value;
      Flatten(RawRecords(tables, done + [e])) == Flatten(RawRecords(tables, done)) + record
    ensures
      var more := starts + [|Flatten(RawRecords(tables, done))|];
      forall k :: 0 <= k <= |done| ==> more[k] == StartOf(RawRecords(tables, done + [e]), k)
  {
    hide WriteElement, Flatten;
    var n := |done|;
    assert (done + [e])[n] == e;
    var lists, more := RawRecords(tables, done), RawRecords(tables, done + [e]);
    assert more == lists + [more[n]];
    FlattenLast(lists, more[n]);
    forall k | 0 <= k <= n ensures (starts + [|Flatten(lists)|])[k] == StartOf(more, k) {
      if k < n {
        assert more[..k] == lists[..k];
      } else {
        assert more[..k] == lists;
      }
    }
  }

  lemma RefsMore(tables: Tables, done: Doc, e: Element)
    ensures DocRefs(tables, done + [e]) == DocRefs(tables, done) + ElementRefs(tables, e)
  {
    hide ElementRefs;
  }

  /** The reading loop: each element made once, in array order. */
  method ReadElementsOnce(tables: Tables, doc: Doc) returns (r: Result<Reading>)
    ensures r.Ok? <==> RawWritable(tables, doc)
    ensures r.Ok? ==> ReadSoFar(tables, doc, |doc|, r.value)
  {
    hide WriteElement, ReadSoFar;
    var reading := Reading([], [], [], {}, [], [], []);
    NothingRead(tables, doc);
    for i := 0 to |doc|
      invariant ReadSoFar(tables, doc, i, reading)
      invariant forall k :: 0 <= k < i ==> WriteElement(tables, Raw, doc[k], Spelled).Ok?
    {
      var e := doc[i];
      var record := WriteElement(tables, Raw, e, Spelled);
      if record.Err? {
        return Err(record.kind);
      }
      ReadOneKeeps(tables, doc, i, reading);
      var targets, ends := reading.targets, reading.ends;
      targets := targets + ListIds(e, OwnedRelationship);
      var first := |targets|;
      targets := targets + ListIds(e, OwnedRelatedElement);
      ends := ends + [first, |targets|];
      reading := Reading(
        reading.ids + [e.id], targets, ends, reading.refs + ElementRefs(tables, e), reading.records + record.value,
        reading.starts + [|reading.records|], reading.rows + [RowOf(tables, e)]);
    }
    r := Ok(reading);
  }

  lemma NothingRead(tables: Tables, doc: Doc)
    ensures ReadSoFar(tables, doc, 0, Reading([], [], [], {}, [], [], []))
  {
    assert doc[..0] == [];
    assert DocRefs(tables, []) == {};
  }

  // ---- the tables made of what was read --------------------------------------------

  /** The positions by identity; none where an identity repeats. */
  method IndexAll(ids: seq<Uuid>) returns (r: Option<map<Uuid, nat>>)
    ensures r.Some? <==> NoDup(ids)
    ensures r.Some? ==> r.value == map u | u in Elems(ids) :: IndexOf(ids, u)
  {
    var index: map<Uuid, nat> := map[];
    for i := 0 to |ids|
      invariant NoDup(ids[..i]) && index.Keys == Elems(ids[..i])
      invariant forall u :: u in index ==> index[u] == IndexOf(ids, u)
    {
      assert ids[..i + 1] == ids[..i] + [ids[i]];
      if ids[i] in index {
        Repeated(ids, i);
        return None;
      }
      IndexOfFirst(ids, i);
      index := index[ids[i] := i];
    }
    assert ids[..|ids|] == ids;
    r := Some(index);
  }

  lemma Repeated(ids: seq<Uuid>, i: nat)
    requires i < |ids| && ids[i] in ids[..i]
    ensures !NoDup(ids)
  {
    var j :| 0 <= j < i && ids[..i][j] == ids[i];
    assert ids[j] == ids[i];
  }

  lemma LocatedHead(ids: seq<Uuid>, us: seq<Uuid>)
    requires us != []
    ensures us[0] in ids ==> Located(ids, us) == [IndexOf(ids, us[0])] + Located(ids, us[1..])
    ensures us[0] !in ids ==> Located(ids, us) == Located(ids, us[1..])
  {
    hide IndexOf;
    assert [] + Located(ids, us[1..]) == Located(ids, us[1..]);
  }

  lemma NoneLocated(ids: seq<Uuid>)
    ensures Located(ids, []) == []
  {
  }

  /** The positions of a list's targets, appended; those outside are left out. */
  method KeepLocal(ids: seq<Uuid>, index: map<Uuid, nat>, targets: seq<Uuid>, start: seq<nat>) returns (owned: seq<nat>)
    requires index == map u | u in Elems(ids) :: IndexOf(ids, u)
    ensures owned == start + Located(ids, targets)
  {
    hide Located, IndexOf;
    owned := start;
    for k := 0 to |targets|
      invariant start + Located(ids, targets) == owned + Located(ids, targets[k..])
    {
      assert targets[k..][1..] == targets[k + 1..];
      LocatedHead(ids, targets[k..]);
      if targets[k] in index {
        owned := owned + [index[targets[k]]];
      }
    }
    NoneLocated(ids);
  }

  /** The targets by position, flat, the ends moved in place to where the shorter lists end. */
  method Compact(ids: seq<Uuid>, index: map<Uuid, nat>, targets: seq<Uuid>, ends: seq<nat>, ghost doc: Doc)
    returns (owned: seq<nat>, moved: seq<nat>)
    requires ids == Ids(doc) && index == map u | u in Elems(ids) :: IndexOf(ids, u)
    requires targets == Flatten(TargetLists(doc)) && EndsOf(ends, TargetLists(doc))
    ensures owned == Flatten(PositionsOf(doc)) && EndsOf(moved, PositionsOf(doc))
  {
    hide Located, Flatten, EndOf, ListIds;
    ghost var from, to := TargetLists(doc), PositionsOf(doc);
    owned, moved := [], ends;
    var at := 0;
    Empties(from, to);
    for l := 0 to |ends|
      invariant |moved| == |ends| && at == StartOf(from, l)
      invariant owned == Flatten(to[..l])
      invariant forall k :: 0 <= k < l ==> moved[k] == EndOf(to, k)
      invariant forall k :: l <= k < |ends| ==> moved[k] == ends[k]
    {
      CutAt(from, l);
      CutLast(to, l);
      var end := moved[l];
      owned := KeepLocal(ids, index, targets[at..end], owned);
      at := end;
      EndIs(to, l);
      moved := moved[l := |owned|];
    }
    assert to[..|ends|] == to;
  }

  lemma Empties<A, B>(from: seq<seq<A>>, to: seq<seq<B>>)
    ensures StartOf(from, 0) == 0 && Flatten(to[..0]) == []
  {
  }

  lemma EndIs<T>(lists: seq<seq<T>>, l: nat)
    requires l < |lists|
    ensures EndOf(lists, l) == |Flatten(lists[..l + 1])|
  {
  }

  method Insert(us: seq<Uuid>, u: Uuid) returns (r: seq<Uuid>)
    requires Rising(us) && u !in us
    ensures Rising(r) && Elems(r) == Elems(us) + {u}
  {
    hide Rising, Elems;
    var k := 0;
    while k < |us| && us[k] < u
      invariant k <= |us| && forall j :: 0 <= j < k ==> us[j] < u
    {
      k := k + 1;
    }
    r := us[..k] + [u] + us[k..];
    RisingAbove(us, u, k);
    RisingAround(us, u, k);
    ElemsAround(us, u, k);
  }

  lemma RisingAbove(us: seq<Uuid>, u: Uuid, k: nat)
    requires Rising(us) && u !in us && k <= |us| && (k < |us| ==> us[k] >= u)
    ensures forall j :: k <= j < |us| ==> u < us[j]
  {
    forall j | k <= j < |us| ensures u < us[j] {
      assert us[k] in us;
    }
  }

  lemma RisingAround(us: seq<Uuid>, u: Uuid, k: nat)
    requires Rising(us) && k <= |us|
    requires (forall j :: 0 <= j < k ==> us[j] < u) && forall j :: k <= j < |us| ==> u < us[j]
    ensures Rising(us[..k] + [u] + us[k..])
  {
    var r := us[..k] + [u] + us[k..];
    forall i, j | 0 <= i < j < |r| ensures r[i] < r[j] {
      assert r[i] == if i < k then us[i] else if i == k then u else us[i - 1];
      assert r[j] == if j < k then us[j] else if j == k then u else us[j - 1];
    }
  }

  lemma ElemsAround(us: seq<Uuid>, u: Uuid, k: nat)
    requires k <= |us|
    ensures Elems(us[..k] + [u] + us[k..]) == Elems(us) + {u}
  {
    assert us == us[..k] + us[k..];
    ElemsJoin(us[..k], us[k..]);
    ElemsJoin(us[..k], [u]);
    ElemsJoin(us[..k] + [u], us[k..]);
  }

  /** The referenced identities outside the elements, gathered in any order and sorted. */
  method Externals(refs: set<Uuid>, index: map<Uuid, nat>) returns (ext: seq<Uuid>)
    ensures ext == SortIds(refs - index.Keys)
  {
    hide Rising, SortIds, Elems, ExternalSoFar;
    ext := [];
    var left := refs;
    NoneRise();
    OutsideEnds(refs, index.Keys);
    while left != {}
      invariant left <= refs && Rising(ext) && Elems(ext) == ExternalSoFar(refs, left, index.Keys)
      decreases |left|
    {
      var u :| u in left;
      NotYet(ext, u);
      OutsideStep(refs, left, index.Keys, u);
      if u !in index {
        ext := Insert(ext, u);
      }
      left := left - {u};
    }
    RisingUnique(ext, SortIds(refs - index.Keys));
  }

  /** What the loop has kept: gone from `left`, not among the keys. */
  function ExternalSoFar(refs: set<Uuid>, left: set<Uuid>, keys: set<Uuid>): set<Uuid> {
    (refs - left) - keys
  }

  lemma OutsideEnds(refs: set<Uuid>, keys: set<Uuid>)
    ensures ExternalSoFar(refs, refs, keys) == {} && ExternalSoFar(refs, {}, keys) == refs - keys
  {
  }

  lemma OutsideStep(refs: set<Uuid>, left: set<Uuid>, keys: set<Uuid>, u: Uuid)
    requires left <= refs && u in left
    ensures u !in ExternalSoFar(refs, left, keys)
    ensures ExternalSoFar(refs, left - {u}, keys) == ExternalSoFar(refs, left, keys) + (if u in keys then {} else {u})
  {
  }

  lemma NoneRise()
    ensures Rising([]) && Elems<Uuid>([]) == {}
  {
  }

  lemma NotYet(us: seq<Uuid>, u: Uuid)
    ensures u in us <==> u in Elems(us)
  {
  }

  /** Read a document once, element by element. It refuses repeated identities and what cannot be written. */
  method Read(tables: Tables, doc: Doc) returns (r: Result<ElementRecords>)
    ensures r.Ok? <==> RawWritable(tables, doc) && DistinctIds(doc)
    ensures r.Ok? ==> Reads(tables, doc, r.value)
    ensures r.Err? ==> r.kind == Malformed
  {
    hide WriteElement, Flatten, DocRefs, RawRecords, PositionsOf, TargetLists, RowOf;
    var reading := ReadElementsOnce(tables, doc);
    if reading.Err? {
      return Err(Malformed);
    }
    var got := reading.value;
    assert doc[..|doc|] == doc;
    var index := IndexAll(got.ids);
    if index.None? {
      return Err(Malformed);
    }
    var owned, ends := Compact(got.ids, index.value, got.targets, got.ends, doc);
    var ext := Externals(got.refs, index.value);
    AllStarts(tables, doc);
    assert index.value.Keys == Elems(got.ids);
    r := Ok(ElementRecords(
      got.ids, ext, got.records, got.starts + [|got.records|], owned, ends, got.rows));
  }

  lemma AllStarts(tables: Tables, doc: Doc)
    requires RawWritable(tables, doc)
    ensures StartOf(RawRecords(tables, doc), |doc|) == |Flatten(RawRecords(tables, doc))|
  {
    hide WriteElement, Flatten, RawRecords;
    assert RawRecords(tables, doc)[..|doc|] == RawRecords(tables, doc);
  }

  // ---- what is read back of them ---------------------------------------------------

  function RecordTokens(r: ElementRecords, i: nat): Toks {
    if i + 1 < |r.starts| && r.starts[i] <= r.starts[i + 1] <= |r.records|
    then r.records[r.starts[i]..r.starts[i + 1]] else []
  }

  lemma RecordIs(tables: Tables, doc: Doc, r: ElementRecords, i: nat)
    requires Reads(tables, doc, r) && i < |doc|
    ensures WriteElement(tables, Raw, doc[i], Spelled) == Ok(RecordTokens(r, i))
  {
    hide WriteElement, Flatten, RowOf, BuildInterner, DocRefs, Located;
    CutAt(RawRecords(tables, doc), i);
  }

  /** The elements `i` owns through one of its lists. */
  function Owns(r: ElementRecords, i: nat, slot: nat): seq<nat>
    requires slot < 2
  {
    var l := 2 * i + slot;
    var start := if l == 0 then 0 else if l - 1 < |r.ends| then r.ends[l - 1] else 0;
    if l < |r.ends| && start <= r.ends[l] <= |r.owned| then r.owned[start..r.ends[l]] else []
  }

  lemma OwnedIs(tables: Tables, doc: Doc, r: ElementRecords, i: nat, slot: nat)
    requires Reads(tables, doc, r) && i < |doc| && slot < 2
    ensures Owns(r, i, slot) == Located(Ids(doc), ListIds(doc[i], OwnedKey(slot)))
  {
    hide WriteElement, Flatten, RowOf, BuildInterner, DocRefs, Located, ListIds;
    var lists, l := PositionsOf(doc), 2 * i + slot;
    assert l / 2 == i && l % 2 == slot;
    CutAt(lists, l);
    if l > 0 {
      assert r.ends[l - 1] == EndOf(lists, l - 1) == StartOf(lists, l);
    } else {
      assert lists[..0] == [];
      assert StartOf(lists, 0) == 0 by { NoneBefore(lists); }
    }
  }

  lemma NoneBefore<T>(lists: seq<seq<T>>)
    ensures StartOf(lists, 0) == 0
  {
  }
}
