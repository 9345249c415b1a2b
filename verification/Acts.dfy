/**
  What a list of change records does to a base: the applier's bookkeeping, and the document
  it stands for.

  `Step` is one record's effect on the applier's maps. `RunMeans` says what any run of
  records with distinct identities amounts to: the base without the deletes, overridden by
  what was shipped, followed by what the base did not hold.
 */
module Acts {
  import opened Wrappers
  import opened Seqs
  import opened Model
  import opened Owners
  import opened CanonDoc

  /** A change record, resolved to the identity it names. `whole` tells a shipped element from a patch. */
  datatype Act =
    | Delete(id: Uuid)
    | Update(id: Uuid, e: Element, whole: bool)
    | Create(id: Uuid, e: Element)

  type Acts = seq<Act>

  function ActIds(acts: Acts): (ids: seq<Uuid>)
    ensures |ids| == |acts| && forall i :: 0 <= i < |acts| ==> ids[i] == acts[i].id
  {
    seq(|acts|, i requires 0 <= i < |acts| => acts[i].id)
  }

  /** Shipped elements carry the identity of their record. */
  ghost predicate Carried(acts: Acts) {
    forall a :: a in acts && !a.Delete? ==> a.e.id == a.id
  }

  datatype State = State(
    replaced: map<nat, Element>, deleted: set<nat>, appended: Doc, touched: set<nat>,
    shipped: seq<Option<Uuid>>, noops: nat, upserts: nat, replacedCreates: nat)

  const INITIAL: State := State(map[], {}, [], {}, [], 0, 0, 0)

  /** Append an element, or replace the one appended under its identity. */
  function Append(appended: Doc, e: Element): Doc {
    var k := IndexOf(Ids(appended), e.id);
    if k < |appended| then appended[k := e] else appended + [e]
  }

  /** One record, applied; none where the applier refuses it. */
  function Step(portable: bool, ids: seq<Uuid>, st: State, act: Act): Option<State> {
    var i := IndexOf(ids, act.id);
    var held := i < |ids|;
    match act
    case Delete(_) =>
      if !held then (if portable then Some(st.(noops := st.noops + 1, shipped := st.shipped + [None])) else None)
      else if i in st.touched then None
      else Some(st.(deleted := st.deleted + {i}, touched := st.touched + {i}, shipped := st.shipped + [None]))
    case Update(id, e, whole) =>
      var shipped := st.shipped + [if whole then Some(id) else None];
      if !held then
        (if portable
         then Some(st.(appended := Append(st.appended, e), upserts := st.upserts + 1, shipped := shipped))
         else None)
      else if i in st.touched then None
      else Some(st.(replaced := st.replaced[i := e], touched := st.touched + {i}, shipped := shipped))
    case Create(id, e) =>
      var shipped := st.shipped + [Some(id)];
      if held then
        (if portable
         then Some(st.(replaced := st.replaced[i := e], replacedCreates := st.replacedCreates + 1, shipped := shipped))
         else None)
      else
        Some(st.(
          appended := Append(st.appended, e),
          replacedCreates := st.replacedCreates + (if id in Ids(st.appended) then 1 else 0),
          shipped := shipped))
  }

  function Run(portable: bool, ids: seq<Uuid>, st: State, acts: Acts): Option<State>
    decreases |acts|
  {
    if acts == [] then Some(st)
    else
      match Step(portable, ids, st, acts[0])
      case None => None
      case Some(next) => Run(portable, ids, next, acts[1..])
  }

  /** The base from position `k`: deletes left out, replacements in place. */
  function Survivors(base: Doc, st: State, k: nat): Doc
    requires k <= |base|
    decreases |base| - k
  {
    if k == |base| then []
    else if k in st.deleted then Survivors(base, st, k + 1)
    else [if k in st.replaced then st.replaced[k] else base[k]] + Survivors(base, st, k + 1)
  }

  /** The applied payload: surviving base order, then what was appended. */
  function Assemble(base: Doc, st: State): Doc {
    Survivors(base, st, 0) + st.appended
  }

  // ---- what a run means ------------------------------------------------------------

  /** The record for an identity, if any. */
  function Find(acts: Acts, u: Uuid): (r: Option<Act>)
    ensures r.Some? ==> r.value in acts && r.value.id == u
    ensures r.None? <==> u !in ActIds(acts)
  {
    var i := IndexOf(ActIds(acts), u);
    if i < |acts| then Some(acts[i]) else None
  }

  /** The elements shipped for identities outside `held`, in record order. */
  function Fresh(held: set<Uuid>, acts: Acts): (doc: Doc)
    ensures forall e :: e in doc ==> exists a :: a in acts && !a.Delete? && a.id !in held && e == a.e
  {
    if acts == [] then []
    else
      (if !acts[0].Delete? && acts[0].id !in held then [acts[0].e] else []) + Fresh(held, acts[1..])
  }

  function CountNoops(held: set<Uuid>, acts: Acts): nat {
    if acts == [] then 0
    else (if acts[0].Delete? && acts[0].id !in held then 1 else 0) + CountNoops(held, acts[1..])
  }

  function CountUpserts(held: set<Uuid>, acts: Acts): nat {
    if acts == [] then 0
    else (if acts[0].Update? && acts[0].id !in held then 1 else 0) + CountUpserts(held, acts[1..])
  }

  function CountReplaced(held: set<Uuid>, acts: Acts): nat {
    if acts == [] then 0
    else (if acts[0].Create? && acts[0].id in held then 1 else 0) + CountReplaced(held, acts[1..])
  }

  function ShippedOf(act: Act): Option<Uuid> {
    if act.Create? || (act.Update? && act.whole) then Some(act.id) else None
  }

  function Shipped(acts: Acts): (s: seq<Option<Uuid>>)
    ensures |s| == |acts| && forall i :: 0 <= i < |acts| ==> s[i] == ShippedOf(acts[i])
  {
    seq(|acts|, i requires 0 <= i < |acts| => ShippedOf(acts[i]))
  }

  /** Which base positions the records `done` deleted, replaced and touched. */
  ghost predicate Placed(ids: seq<Uuid>, done: Acts, st: State) {
    && (forall i :: i in st.deleted <==> 0 <= i < |ids| && Find(done, ids[i]).Some? && Find(done, ids[i]).value.Delete?)
    && (forall i ::
          i in st.replaced <==> 0 <= i < |ids| && Find(done, ids[i]).Some? && !Find(done, ids[i]).value.Delete?)
    && (forall i :: i in st.replaced ==> st.replaced[i] == Find(done, ids[i]).value.e)
    && (forall i :: i in st.touched ==> 0 <= i < |ids| && Find(done, ids[i]).Some?)
  }

  /** What the records `done` appended, shipped and reported. */
  ghost predicate Counted(ids: seq<Uuid>, done: Acts, st: State) {
    && st.appended == Fresh(Elems(ids), done)
    && st.shipped == Shipped(done)
    && st.noops == CountNoops(Elems(ids), done)
    && st.upserts == CountUpserts(Elems(ids), done)
    && st.replacedCreates == CountReplaced(Elems(ids), done)
  }

  /** The bookkeeping after the records `done`, read off the records alone. */
  ghost predicate Means(ids: seq<Uuid>, done: Acts, st: State) {
    Placed(ids, done, st) && Counted(ids, done, st)
  }

  /** Records a strict delta may carry against `ids`: it touches what is held and creates what is not. */
  predicate Admits(portable: bool, ids: seq<Uuid>, act: Act) {
    portable || (act.Create? <==> act.id !in ids)
  }

  lemma {:induction false} FreshSnoc(held: set<Uuid>, done: Acts, act: Act)
    ensures
      Fresh(held, done + [act])
      == Fresh(held, done) + (if !act.Delete? && act.id !in held then [act.e] else [])
    ensures
      CountNoops(held, done + [act]) == CountNoops(held, done) + (if act.Delete? && act.id !in held then 1 else 0)
    ensures
      CountUpserts(held, done + [act]) == CountUpserts(held, done) + (if act.Update? && act.id !in held then 1 else 0)
    ensures
      CountReplaced(held, done + [act]) == CountReplaced(held, done) + (if act.Create? && act.id in held then 1 else 0)
  {
    if done != [] {
      assert (done + [act])[0] == done[0] && (done + [act])[1..] == done[1..] + [act];
      FreshSnoc(held, done[1..], act);
    } else {
      assert done + [act] == [act] && [act][1..] == [];
    }
  }

  lemma FindSnoc(done: Acts, act: Act, u: Uuid)
    requires act.id !in ActIds(done)
    ensures Find(done + [act], u) == (if u == act.id then Some(act) else Find(done, u))
  {
    var all := done + [act];
    assert ActIds(all) == ActIds(done) + [act.id];
    IndexSnoc(ActIds(done), act.id, u);
  }

  lemma {:induction false} IndexSnoc(s: seq<Uuid>, x: Uuid, u: Uuid)
    ensures IndexOf(s + [x], u) == (if u in s then IndexOf(s, u) else if u == x then |s| else |s| + 1)
  {
    if s != [] {
      assert (s + [x])[1..] == s[1..] + [x];
      IndexSnoc(s[1..], x, u);
    } else {
      assert (s + [x])[1..] == [];
    }
  }

  /** An identity not yet recorded is not yet appended. */
  lemma FreshIds(held: set<Uuid>, done: Acts, u: Uuid)
    requires Carried(done) && u !in ActIds(done)
    ensures u !in Ids(Fresh(held, done))
  {
    forall e | e in Fresh(held, done) ensures e.id in ActIds(done) {
      var a :| a in done && !a.Delete? && a.id !in held && e == a.e;
      var j :| 0 <= j < |done| && done[j] == a;
      assert ActIds(done)[j] == e.id;
    }
  }

  lemma StepMeans(portable: bool, ids: seq<Uuid>, done: Acts, act: Act, st: State)
    requires NoDup(ids) && Carried(done) && Means(ids, done, st)
    requires act.id !in ActIds(done) && (!act.Delete? ==> act.e.id == act.id) && Admits(portable, ids, act)
    ensures Step(portable, ids, st, act).Some?
    ensures Means(ids, done + [act], Step(portable, ids, st, act).value)
  {
    hide Placed, Counted, Step, Admits;
    StepSucceeds(portable, ids, done, act, st);
    StepCounted(portable, ids, done, act, st);
    StepPlaced(portable, ids, done, act, st);
  }

  lemma StepSucceeds(portable: bool, ids: seq<Uuid>, done: Acts, act: Act, st: State)
    requires Placed(ids, done, st) && act.id !in ActIds(done) && Admits(portable, ids, act)
    ensures Step(portable, ids, st, act).Some?
  {
    hide Find, Append;
    var i := IndexOf(ids, act.id);
    if i < |ids| {
      assert i !in st.touched;
    }
  }

  lemma StepCounted(portable: bool, ids: seq<Uuid>, done: Acts, act: Act, st: State)
    requires Carried(done) && Counted(ids, done, st) && act.id !in ActIds(done)
    requires !act.Delete? ==> act.e.id == act.id
    requires Step(portable, ids, st, act).Some?
    ensures Counted(ids, done + [act], Step(portable, ids, st, act).value)
  {
    hide Fresh, CountNoops, CountUpserts, CountReplaced;
    FreshSnoc(Elems(ids), done, act);
    FreshIds(Elems(ids), done, act.id);
    assert Shipped(done + [act]) == Shipped(done) + [ShippedOf(act)];
  }

  lemma StepPlaced(portable: bool, ids: seq<Uuid>, done: Acts, act: Act, st: State)
    requires NoDup(ids) && Placed(ids, done, st) && act.id !in ActIds(done)
    requires Step(portable, ids, st, act).Some?
    ensures Placed(ids, done + [act], Step(portable, ids, st, act).value)
  {
    hide Find, Step, NoDup;
    var all, next := done + [act], Step(portable, ids, st, act).value;
    StepChanges(portable, ids, st, act);
    forall i | 0 <= i < |ids|
      ensures Find(all, ids[i]) == (if i == IndexOf(ids, act.id) then Some(act) else Find(done, ids[i]))
    {
      FindSnoc(done, act, ids[i]);
      IndexOfNoDup(ids, i);
    }
    PlacedAt(ids, done, all, st, next, act);
  }

  /** What a step does to the base positions: it marks the one its record names, if there is one. */
  ghost predicate Marks(ids: seq<Uuid>, st: State, next: State, act: Act) {
    var k := IndexOf(ids, act.id);
    && (act.Delete? && k < |ids| ==> next.deleted == st.deleted + {k})
    && (!act.Delete? || k >= |ids| ==> next.deleted == st.deleted)
    && (!act.Delete? && k < |ids| ==> next.replaced == st.replaced[k := act.e])
    && (act.Delete? || k >= |ids| ==> next.replaced == st.replaced)
    && (next.touched == st.touched || (k < |ids| && next.touched == st.touched + {k}))
  }

  lemma StepChanges(portable: bool, ids: seq<Uuid>, st: State, act: Act)
    requires Step(portable, ids, st, act).Some?
    ensures Marks(ids, st, Step(portable, ids, st, act).value, act)
  {
    hide Append;
  }

  lemma PlacedAt(ids: seq<Uuid>, done: Acts, all: Acts, st: State, next: State, act: Act)
    requires Placed(ids, done, st) && Marks(ids, st, next, act)
    requires IndexOf(ids, act.id) < |ids| ==> Find(done, act.id).None?
    requires forall i :: 0 <= i < |ids| ==>
      Find(all, ids[i]) == if i == IndexOf(ids, act.id) then Some(act) else Find(done, ids[i])
    ensures Placed(ids, all, next)
  {
    hide Find, Placed, Marks;
    forall i: nat ensures PlacedOne(ids, all, next, i) {
      PlacedThere(ids, done, st, i);
      if i < |ids| {
        if i == IndexOf(ids, act.id) {
          MarksHere(ids, done, all, st, next, act, i);
        } else {
          MarksElsewhere(ids, done, all, st, next, act, i);
        }
      } else {
        MarksElsewhere(ids, done, all, st, next, act, i);
      }
    }
    PlacedEach(ids, all, next);
  }

  /** `Placed`, at one position. */
  ghost predicate PlacedOne(ids: seq<Uuid>, done: Acts, st: State, i: nat) {
    if i < |ids| && Find(done, ids[i]).Some?
    then
      var a := Find(done, ids[i]).value;
      && (i in st.deleted <==> a.Delete?) && (i in st.replaced <==> !a.Delete?)
      && (!a.Delete? ==> st.replaced[i] == a.e)
    else i !in st.deleted && i !in st.replaced && i !in st.touched
  }

  lemma PlacedThere(ids: seq<Uuid>, done: Acts, st: State, i: nat)
    requires Placed(ids, done, st)
    ensures PlacedOne(ids, done, st, i)
  {
    hide Find;
  }

  lemma PlacedEach(ids: seq<Uuid>, done: Acts, st: State)
    requires forall i: nat :: PlacedOne(ids, done, st, i)
    ensures Placed(ids, done, st)
  {
    hide Find, PlacedOne;
    forall i: nat
      ensures i in st.deleted <==> i < |ids| && Find(done, ids[i]).Some? && Find(done, ids[i]).value.Delete?
      ensures i in st.replaced <==> i < |ids| && Find(done, ids[i]).Some? && !Find(done, ids[i]).value.Delete?
      ensures i in st.replaced ==> st.replaced[i] == Find(done, ids[i]).value.e
      ensures i in st.touched ==> i < |ids| && Find(done, ids[i]).Some?
    {
      PlacedMeans(ids, done, st, i);
    }
  }

  lemma PlacedMeans(ids: seq<Uuid>, done: Acts, st: State, i: nat)
    requires PlacedOne(ids, done, st, i)
    ensures i in st.deleted <==> i < |ids| && Find(done, ids[i]).Some? && Find(done, ids[i]).value.Delete?
    ensures i in st.replaced <==> i < |ids| && Find(done, ids[i]).Some? && !Find(done, ids[i]).value.Delete?
    ensures i in st.replaced ==> st.replaced[i] == Find(done, ids[i]).value.e
    ensures i in st.touched ==> i < |ids| && Find(done, ids[i]).Some?
  {
    hide Find;
  }

  lemma MarksHere(ids: seq<Uuid>, done: Acts, all: Acts, st: State, next: State, act: Act, i: nat)
    requires Marks(ids, st, next, act) && PlacedOne(ids, done, st, i) && i < |ids| && i == IndexOf(ids, act.id)
    requires Find(done, ids[i]).None? && Find(all, ids[i]) == Some(act)
    ensures PlacedOne(ids, all, next, i)
  {
    hide Find, IndexOf;
  }

  lemma MarksElsewhere(ids: seq<Uuid>, done: Acts, all: Acts, st: State, next: State, act: Act, i: nat)
    requires Marks(ids, st, next, act) && PlacedOne(ids, done, st, i) && (i >= |ids| || i != IndexOf(ids, act.id))
    requires i < |ids| ==> Find(all, ids[i]) == Find(done, ids[i])
    ensures PlacedOne(ids, all, next, i)
  {
    hide Find, IndexOf;
  }

  /** Any run of admitted records with distinct identities succeeds and means what the records say. */
  lemma {:induction false} RunMeans(portable: bool, ids: seq<Uuid>, done: Acts, acts: Acts, st: State)
    requires NoDup(ids) && NoDup(ActIds(done + acts)) && Carried(done + acts) && Means(ids, done, st)
    requires forall a :: a in acts ==> Admits(portable, ids, a)
    ensures Run(portable, ids, st, acts).Some?
    ensures Means(ids, done + acts, Run(portable, ids, st, acts).value)
    decreases |acts|
  {
    hide Means, Step, Admits;
    if acts == [] {
      assert done + acts == done;
    } else {
      var act, rest := acts[0], acts[1..];
      assert done + acts == (done + [act]) + rest;
      RunStarts(done, act, rest);
      StepMeans(portable, ids, done, act, st);
      RunMeans(portable, ids, done + [act], rest, Step(portable, ids, st, act).value);
    }
  }

  lemma RunStarts(done: Acts, act: Act, rest: Acts)
    requires NoDup(ActIds(done + [act] + rest)) && Carried(done + [act] + rest)
    ensures Carried(done) && act.id !in ActIds(done) && (!act.Delete? ==> act.e.id == act.id)
  {
    var all := done + [act] + rest;
    assert act in all;
    assert ActIds(all) == ActIds(done) + ([act.id] + ActIds(rest));
    NoDupParts(ActIds(done), [act.id] + ActIds(rest));
    assert act.id in [act.id] + ActIds(rest);
  }

  lemma NothingDone(ids: seq<Uuid>)
    ensures Means(ids, [], INITIAL)
  {
  }

  // ---- the document a run leaves ---------------------------------------------------

  /** The identities deleted by the records. */
  function Deletes(acts: Acts): set<Uuid> {
    set a | a in acts && a.Delete? :: a.id
  }

  lemma DeletesFind(acts: Acts, u: Uuid)
    requires NoDup(ActIds(acts))
    ensures u in Deletes(acts) <==> Find(acts, u).Some? && Find(acts, u).value.Delete?
  {
    if u in Deletes(acts) {
      var a :| a in acts && a.Delete? && a.id == u;
      var i :| 0 <= i < |acts| && acts[i] == a;
      assert ActIds(acts)[i] == u;
      IndexOfNoDup(ActIds(acts), i);
    }
  }

  lemma {:induction false} SurvivorIds(base: Doc, acts: Acts, st: State, k: nat)
    requires k <= |base| && NoDup(ActIds(acts)) && Carried(acts) && Placed(Ids(base), acts, st)
    ensures Ids(Survivors(base, st, k)) == Pick(Ids(base)[k..], Deletes(acts), false)
    decreases |base| - k
  {
    hide Find, Deletes, Placed, Pick;
    if k == |base| {
      PickEmpty<Uuid>(Deletes(acts), false);
    } else {
      SurvivorIds(base, acts, st, k + 1);
      PositionPlaced(base, acts, st, k);
      assert Ids(base)[k..] == [base[k].id] + Ids(base)[k + 1..];
      PickHead(base[k].id, Ids(base)[k + 1..], Deletes(acts), false);
      SurvivorsStep(base, st, k);
    }
  }

  /** The identities position `k` leaves, before those of the positions after it. */
  lemma SurvivorsStep(base: Doc, st: State, k: nat)
    requires k < |base| && (k in st.replaced ==> st.replaced[k].id == base[k].id)
    ensures
      Ids(Survivors(base, st, k))
      == (if k in st.deleted then [] else [base[k].id]) + Ids(Survivors(base, st, k + 1))
  {
    var e := if k in st.replaced then st.replaced[k] else base[k];
    var rest := Survivors(base, st, k + 1);
    assert Ids([e] + rest) == [e.id] + Ids(rest);
  }

  lemma PositionPlaced(base: Doc, acts: Acts, st: State, k: nat)
    requires k < |base| && NoDup(ActIds(acts)) && Carried(acts) && Placed(Ids(base), acts, st)
    ensures k in st.deleted <==> base[k].id in Deletes(acts)
    ensures k in st.replaced ==> st.replaced[k].id == base[k].id
  {
    hide Find, Deletes;
    DeletesFind(acts, base[k].id);
    assert Ids(base)[k] == base[k].id;
  }

  /** What the assembled payload holds for an identity: what was shipped, else what the base held. */
  function Now(base: Doc, acts: Acts, u: Uuid): Element
    requires u in Ids(base) || (Find(acts, u).Some? && !Find(acts, u).value.Delete?)
  {
    var act := Find(acts, u);
    if act.Some? && !act.value.Delete? then act.value.e else At(base, u)
  }

  lemma SurvivorsHead(base: Doc, st: State, k: nat)
    requires k <= |base|
    ensures k == |base| ==> Survivors(base, st, k) == []
    ensures
      k < |base| ==>
        var head, rest := if k in st.replaced then st.replaced[k] else base[k], Survivors(base, st, k + 1);
        Survivors(base, st, k) == if k in st.deleted then rest else [head] + rest
  {
  }

  /** A base position that is not deleted holds what its record shipped, or what it held. */
  lemma StandingNow(base: Doc, acts: Acts, st: State, k: nat)
    requires DistinctIds(base) && k < |base| && Means(Ids(base), acts, st) && Carried(acts) && k !in st.deleted
    ensures
      var e := if k in st.replaced then st.replaced[k] else base[k];
      e.id in Ids(base) && e == Now(base, acts, e.id)
  {
    hide Find, Placed, Counted, At, DistinctIds;
    AtPosition(base, k);
    assert Ids(base)[k] == base[k].id;
    PlacedThere(Ids(base), acts, st, k);
  }

  lemma {:induction false} SurvivorAt(base: Doc, acts: Acts, st: State, k: nat, i: nat)
    requires DistinctIds(base) && k <= |base| && Means(Ids(base), acts, st) && i < |Survivors(base, st, k)|
    requires NoDup(ActIds(acts)) && Carried(acts)
    ensures
      var e := Survivors(base, st, k)[i];
      e.id in Ids(base) && e == Now(base, acts, e.id)
    decreases |base| - k
  {
    hide Find, Means, At, Survivors, DistinctIds, NoDup, ActIds, Now, Carried;
    SurvivorsHead(base, st, k);
    if k < |base| {
      if k in st.deleted {
        SurvivorAt(base, acts, st, k + 1, i);
      } else if i > 0 {
        SurvivorAt(base, acts, st, k + 1, i - 1);
      } else {
        StandingNow(base, acts, st, k);
      }
    }
  }

  lemma {:induction false} FreshAt(held: set<Uuid>, acts: Acts, i: nat)
    requires Carried(acts) && NoDup(ActIds(acts)) && i < |Fresh(held, acts)|
    ensures
      var e := Fresh(held, acts)[i];
      e.id !in held && Find(acts, e.id).Some? && !Find(acts, e.id).value.Delete? && Find(acts, e.id).value.e == e
  {
    var e := Fresh(held, acts)[i];
    assert e in Fresh(held, acts);
    var a :| a in acts && !a.Delete? && a.id !in held && e == a.e;
    var j :| 0 <= j < |acts| && acts[j] == a;
    assert ActIds(acts)[j] == a.id;
    IndexOfNoDup(ActIds(acts), j);
  }

  lemma {:induction false} FreshNoDup(held: set<Uuid>, acts: Acts)
    requires Carried(acts) && NoDup(ActIds(acts))
    ensures NoDup(Ids(Fresh(held, acts)))
  {
    if acts != [] {
      var act, rest := acts[0], acts[1..];
      assert ActIds(acts) == [act.id] + ActIds(rest);
      NoDupParts([act.id], ActIds(rest));
      FreshNoDup(held, rest);
      FreshIds(held, rest, act.id);
      if !act.Delete? && act.id !in held {
        assert act in acts;
        assert Ids(Fresh(held, acts)) == [act.id] + Ids(Fresh(held, rest));
      } else {
        assert Fresh(held, acts) == Fresh(held, rest);
      }
    }
  }

  /**
    The assembled payload: the base's identities without the deletes, in base order, then
    the identities the base did not hold, in record order; each with what was shipped for
    it, else what the base held. Its identities are distinct.
   */
  lemma AssembleMeans(base: Doc, acts: Acts, st: State)
    requires DistinctIds(base) && NoDup(ActIds(acts)) && Carried(acts) && Means(Ids(base), acts, st)
    ensures
      var doc := Assemble(base, st);
      && Ids(doc) == Pick(Ids(base), Deletes(acts), false) + Ids(Fresh(Elems(Ids(base)), acts))
      && DistinctIds(doc)
      && forall i :: 0 <= i < |doc| ==>
           && (doc[i].id in Ids(base) || (Find(acts, doc[i].id).Some? && !Find(acts, doc[i].id).value.Delete?))
           && doc[i] == Now(base, acts, doc[i].id)
  {
    hide Find, Deletes, Fresh, CountNoops, CountUpserts, CountReplaced, Shipped, At, Now, Survivors;
    var held := Elems(Ids(base));
    var kept, added := Survivors(base, st, 0), Fresh(held, acts);
    var doc := kept + added;
    SurvivorIds(base, acts, st, 0);
    assert Ids(base)[0..] == Ids(base);
    assert Ids(doc) == Ids(kept) + Ids(added);
    PickNoDup(Ids(base), Deletes(acts), false);
    FreshNoDup(held, acts);
    FreshOutside(held, acts);
    NoDupAppend(Ids(kept), Ids(added));
    forall i | 0 <= i < |doc|
      ensures doc[i].id in Ids(base) || (Find(acts, doc[i].id).Some? && !Find(acts, doc[i].id).value.Delete?)
      ensures doc[i] == Now(base, acts, doc[i].id)
    {
      if i < |kept| {
        SurvivorAt(base, acts, st, 0, i);
      } else {
        FreshAt(held, acts, i - |kept|);
        NowFresh(base, acts, doc[i].id);
      }
    }
  }

  lemma NowFresh(base: Doc, acts: Acts, u: Uuid)
    requires Find(acts, u).Some? && !Find(acts, u).value.Delete?
    ensures Now(base, acts, u) == Find(acts, u).value.e
  {
  }

  lemma FreshOutside(held: set<Uuid>, acts: Acts)
    requires Carried(acts) && NoDup(ActIds(acts))
    ensures forall u :: u in Ids(Fresh(held, acts)) ==> u !in held
  {
    hide Fresh, Find;
    var added := Fresh(held, acts);
    forall u | u in Ids(added) ensures u !in held {
      var i :| 0 <= i < |added| && Ids(added)[i] == u;
      FreshAt(held, acts, i);
    }
  }
}
