/**
  What any run of change records amounts to, identities repeated or not: which records are taken,
  and what the bookkeeping and the assembled document are, read off the records alone.
 */
module Runs {
  import opened Wrappers
  import opened Seqs
  import opened Model
  import opened Snapshot
  import opened Sections
  import opened CanonDoc
  import opened Acts
  import opened Apply

  // ---- what the records say --------------------------------------------------------

  ghost predicate Ships(a: Act, u: Uuid) {
    !a.Delete? && a.id == u
  }

  /** The element last shipped under an identity. */
  function LastShip(acts: Acts, u: Uuid): (r: Option<Element>)
    ensures r.None? <==> forall k :: 0 <= k < |acts| ==> !Ships(acts[k], u)
    ensures
      r.Some? ==>
        exists k :: 0 <= k < |acts| && Ships(acts[k], u) && acts[k].e == r.value
          && forall j :: k < j < |acts| ==> !Ships(acts[j], u)
  {
    if acts == [] then None
    else
      var n := |acts| - 1;
      if !acts[n].Delete? && acts[n].id == u then Some(acts[n].e) else LastShip(acts[..n], u)
  }

  /** The identities outside `ids` that records ship, in the order of their first shipping. */
  function NewIds(ids: seq<Uuid>, acts: Acts): (us: seq<Uuid>)
    ensures forall u :: u in us <==> u !in ids && LastShip(acts, u).Some?
    ensures NoDup(us)
  {
    if acts == [] then []
    else
      var n := |acts| - 1;
      var before := NewIds(ids, acts[..n]);
      if !acts[n].Delete? && acts[n].id !in ids && acts[n].id !in before then before + [acts[n].id] else before
  }

  ghost predicate Drops(acts: Acts, u: Uuid) {
    exists k :: 0 <= k < |acts| && acts[k].Delete? && acts[k].id == u
  }

  /** A delete or an update names `u`. */
  ghost predicate Touches(acts: Acts, u: Uuid) {
    exists k :: 0 <= k < |acts| && !acts[k].Create? && acts[k].id == u
  }

  /** The records counted as no-op deletes, as upserts, and as replaced creates. */
  ghost function NoopsAt(ids: seq<Uuid>, acts: Acts): set<nat> {
    set k | 0 <= k < |acts| && acts[k].Delete? && acts[k].id !in ids
  }

  ghost function UpsertsAt(ids: seq<Uuid>, acts: Acts): set<nat> {
    set k | 0 <= k < |acts| && acts[k].Update? && acts[k].id !in ids
  }

  ghost function ReplacedAt(ids: seq<Uuid>, acts: Acts): set<nat> {
    set k | 0 <= k < |acts| && acts[k].Create? && (acts[k].id in ids || LastShip(acts[..k], acts[k].id).Some?)
  }

  /** The base positions after the records: dropped, overridden by the last shipping, touched. */
  ghost predicate Positions(ids: seq<Uuid>, acts: Acts, st: State) {
    && (forall i :: i in st.deleted <==> 0 <= i < |ids| && Drops(acts, ids[i]))
    && (forall i :: i in st.touched <==> 0 <= i < |ids| && Touches(acts, ids[i]))
    && (forall i :: i in st.replaced <==> 0 <= i < |ids| && LastShip(acts, ids[i]).Some?)
    && (forall i :: i in st.replaced ==> LastShip(acts, ids[i]) == Some(st.replaced[i]))
  }

  /** What is appended: each new identity where it was first shipped, as it was last shipped. */
  ghost predicate Appends(ids: seq<Uuid>, acts: Acts, st: State) {
    && Ids(st.appended) == NewIds(ids, acts)
    && forall i :: 0 <= i < |st.appended| ==> LastShip(acts, st.appended[i].id) == Some(st.appended[i])
  }

  ghost predicate Counts(ids: seq<Uuid>, acts: Acts, st: State) {
    && st.noops == |NoopsAt(ids, acts)| && st.upserts == |UpsertsAt(ids, acts)|
    && st.replacedCreates == |ReplacedAt(ids, acts)| && st.shipped == Shipped(acts)
  }

  ghost predicate RunSays(ids: seq<Uuid>, acts: Acts, st: State) {
    Positions(ids, acts, st) && Appends(ids, acts, st) && Counts(ids, acts, st)
  }

  /**
    Which record is taken after `done`: a strict one must touch what is held and create what is
    not, and no held identity is deleted or updated once it was.
   */
  ghost predicate Taken(portable: bool, ids: seq<Uuid>, done: Acts, act: Act) {
    Admits(portable, ids, act) && !(act.id in ids && !act.Create? && Touches(done, act.id))
  }

  // ---- one more record -------------------------------------------------------------

  lemma ShipSnoc(done: Acts, act: Act, u: Uuid)
    ensures LastShip(done + [act], u) == if !act.Delete? && act.id == u then Some(act.e) else LastShip(done, u)
  {
    assert (done + [act])[..|done|] == done;
  }

  lemma NewSnoc(ids: seq<Uuid>, done: Acts, act: Act)
    ensures
      NewIds(ids, done + [act])
      == NewIds(ids, done)
         + if !act.Delete? && act.id !in ids && act.id !in NewIds(ids, done) then [act.id] else []
  {
    hide LastShip;
    var before := NewIds(ids, done);
    assert (done + [act])[..|done|] == done;
    assert before + [] == before;
  }

  lemma DropSnoc(done: Acts, act: Act, u: Uuid)
    ensures Drops(done + [act], u) <==> Drops(done, u) || (act.Delete? && act.id == u)
    ensures Touches(done + [act], u) <==> Touches(done, u) || (!act.Create? && act.id == u)
  {
    var all := done + [act];
    assert forall k :: 0 <= k < |done| ==> all[k] == done[k];
    assert all[|done|] == act;
  }

  lemma Grown(a: set<nat>, b: set<nat>, n: nat, more: bool)
    requires n !in a && b == a + if more then {n} else {}
    ensures |b| == |a| + if more then 1 else 0
  {
    assert !more ==> b == a;
  }

  lemma NoopSnoc(ids: seq<Uuid>, done: Acts, act: Act)
    ensures |NoopsAt(ids, done + [act])| == |NoopsAt(ids, done)| + if act.Delete? && act.id !in ids then 1 else 0
  {
    var all, n := done + [act], |done|;
    assert forall k :: 0 <= k < n ==> all[k] == done[k];
    assert all[n] == act;
    Grown(NoopsAt(ids, done), NoopsAt(ids, all), n, act.Delete? && act.id !in ids);
  }

  lemma UpsertSnoc(ids: seq<Uuid>, done: Acts, act: Act)
    ensures |UpsertsAt(ids, done + [act])| == |UpsertsAt(ids, done)| + if act.Update? && act.id !in ids then 1 else 0
  {
    var all, n := done + [act], |done|;
    assert forall k :: 0 <= k < n ==> all[k] == done[k];
    assert all[n] == act;
    Grown(UpsertsAt(ids, done), UpsertsAt(ids, all), n, act.Update? && act.id !in ids);
  }

  lemma ReplacedSnoc(ids: seq<Uuid>, done: Acts, act: Act)
    ensures
      |ReplacedAt(ids, done + [act])|
      == |ReplacedAt(ids, done)|
         + if act.Create? && (act.id in ids || LastShip(done, act.id).Some?) then 1 else 0
  {
    hide LastShip;
    var all, n := done + [act], |done|;
    assert all[n] == act && all[..n] == done;
    forall k | 0 <= k < n ensures all[k] == done[k] && all[..k] == done[..k] {
    }
    Grown(ReplacedAt(ids, done), ReplacedAt(ids, all), n,
      act.Create? && (act.id in ids || LastShip(done, act.id).Some?));
  }

  lemma StepTaken(portable: bool, ids: seq<Uuid>, done: Acts, act: Act, st: State)
    requires Positions(ids, done, st)
    ensures Step(portable, ids, st, act).Some? <==> Taken(portable, ids, done, act)
  {
    hide Append, LastShip, Drops, Touches;
    var i := IndexOf(ids, act.id);
    if i < |ids| {
      assert i in st.touched <==> Touches(done, ids[i]);
    }
  }

  /** What one record does to one base position. */
  lemma StepAt(portable: bool, ids: seq<Uuid>, st: State, act: Act, i: nat)
    requires NoDup(ids) && i < |ids| && Step(portable, ids, st, act).Some?
    ensures
      var next, here := Step(portable, ids, st, act).value, act.id == ids[i];
      && (i in next.deleted <==> i in st.deleted || (act.Delete? && here))
      && (i in next.touched <==> i in st.touched || (!act.Create? && here))
      && (i in next.replaced <==> i in st.replaced || (!act.Delete? && here))
      && (i in next.replaced ==> next.replaced[i] == if !act.Delete? && here then act.e else st.replaced[i])
  {
    hide Append;
    IndexOfNoDup(ids, i);
  }

  lemma StepBounds(portable: bool, ids: seq<Uuid>, st: State, act: Act, i: nat)
    requires Step(portable, ids, st, act).Some? && i >= |ids|
    requires i !in st.deleted && i !in st.touched && i !in st.replaced
    ensures
      var next := Step(portable, ids, st, act).value;
      i !in next.deleted && i !in next.touched && i !in next.replaced
  {
    hide Append;
  }

  lemma StepPositions(portable: bool, ids: seq<Uuid>, done: Acts, act: Act, st: State)
    requires NoDup(ids) && Positions(ids, done, st) && Step(portable, ids, st, act).Some?
    ensures Positions(ids, done + [act], Step(portable, ids, st, act).value)
  {
    hide Step, LastShip, Drops, Touches, NoDup;
    var next, all := Step(portable, ids, st, act).value, done + [act];
    forall i: nat
      ensures i in next.deleted <==> i < |ids| && Drops(all, ids[i])
      ensures i in next.touched <==> i < |ids| && Touches(all, ids[i])
      ensures i in next.replaced <==> i < |ids| && LastShip(all, ids[i]).Some?
      ensures i in next.replaced ==> LastShip(all, ids[i]) == Some(next.replaced[i])
    {
      if i < |ids| {
        DropSnoc(done, act, ids[i]);
        ShipSnoc(done, act, ids[i]);
        StepAt(portable, ids, st, act, i);
      } else {
        StepBounds(portable, ids, st, act, i);
      }
    }
  }

  /** One element put under its identity: in the place it has, or at the end. */
  lemma PutIn(doc: Doc, e: Element)
    requires NoDup(Ids(doc))
    ensures Ids(Append(doc, e)) == if e.id in Ids(doc) then Ids(doc) else Ids(doc) + [e.id]
    ensures
      forall i :: 0 <= i < |Append(doc, e)| ==>
        var x := Append(doc, e)[i];
        if x.id == e.id then x == e else x in doc
  {
    var k := IndexOf(Ids(doc), e.id);
    if k < |doc| {
      assert Ids(doc[k := e]) == Ids(doc);
      forall i | 0 <= i < |doc| && i != k ensures doc[i].id != e.id {
        assert Ids(doc)[i] != Ids(doc)[k];
      }
    } else {
      assert Ids(doc + [e]) == Ids(doc) + [e.id];
    }
  }

  lemma AppendedSays(ids: seq<Uuid>, done: Acts, act: Act, appended: Doc)
    requires !act.Delete? && act.e.id == act.id && act.id !in ids
    requires Ids(appended) == NewIds(ids, done)
    requires forall i :: 0 <= i < |appended| ==> LastShip(done, appended[i].id) == Some(appended[i])
    ensures Ids(Append(appended, act.e)) == NewIds(ids, done + [act])
    ensures
      forall i :: 0 <= i < |Append(appended, act.e)| ==>
        LastShip(done + [act], Append(appended, act.e)[i].id) == Some(Append(appended, act.e)[i])
  {
    hide LastShip, NewIds, Append;
    NewSnoc(ids, done, act);
    PutIn(appended, act.e);
    var now := Append(appended, act.e);
    forall i | 0 <= i < |now| ensures LastShip(done + [act], now[i].id) == Some(now[i]) {
      ShipSnoc(done, act, now[i].id);
      if now[i].id != act.id {
        var j :| 0 <= j < |appended| && appended[j] == now[i];
      }
    }
  }

  lemma StandsSays(ids: seq<Uuid>, done: Acts, act: Act, appended: Doc)
    requires act.Delete? || act.id in ids
    requires Ids(appended) == NewIds(ids, done)
    requires forall i :: 0 <= i < |appended| ==> LastShip(done, appended[i].id) == Some(appended[i])
    ensures Ids(appended) == NewIds(ids, done + [act])
    ensures forall i :: 0 <= i < |appended| ==> LastShip(done + [act], appended[i].id) == Some(appended[i])
  {
    hide LastShip, NewIds;
    NewSnoc(ids, done, act);
    forall i | 0 <= i < |appended| ensures LastShip(done + [act], appended[i].id) == Some(appended[i]) {
      ShipSnoc(done, act, appended[i].id);
      NewOutside(ids, done, Ids(appended)[i]);
    }
  }

  lemma NewOutside(ids: seq<Uuid>, acts: Acts, u: Uuid)
    requires u in NewIds(ids, acts)
    ensures u !in ids
  {
  }

  lemma StepAppends(portable: bool, ids: seq<Uuid>, done: Acts, act: Act, st: State)
    requires Appends(ids, done, st) && Step(portable, ids, st, act).Some? && (!act.Delete? ==> act.e.id == act.id)
    ensures Appends(ids, done + [act], Step(portable, ids, st, act).value)
  {
    hide Append, LastShip, NewIds;
    if act.Delete? || act.id in ids {
      StandsSays(ids, done, act, st.appended);
    } else {
      AppendedSays(ids, done, act, st.appended);
    }
  }

  lemma StepCounts(portable: bool, ids: seq<Uuid>, done: Acts, act: Act, st: State)
    requires Appends(ids, done, st) && Counts(ids, done, st) && Step(portable, ids, st, act).Some?
    ensures Counts(ids, done + [act], Step(portable, ids, st, act).value)
  {
    hide Append, LastShip, NewIds, NoopsAt, UpsertsAt, ReplacedAt;
    NoopSnoc(ids, done, act);
    UpsertSnoc(ids, done, act);
    ReplacedSnoc(ids, done, act);
    NewHas(ids, done, act.id);
    assert Shipped(done + [act]) == Shipped(done) + [ShippedOf(act)];
  }

  lemma NewHas(ids: seq<Uuid>, acts: Acts, u: Uuid)
    ensures u in NewIds(ids, acts) <==> u !in ids && LastShip(acts, u).Some?
  {
  }

  // ---- a whole run -----------------------------------------------------------------

  lemma NothingSaid(ids: seq<Uuid>)
    ensures RunSays(ids, [], INITIAL)
  {
  }

  /** Every record is taken after those before it. */
  ghost predicate AllTaken(portable: bool, ids: seq<Uuid>, done: Acts, acts: Acts) {
    forall k :: 0 <= k < |acts| ==> Taken(portable, ids, done + acts[..k], acts[k])
  }

  lemma TakenHead(portable: bool, ids: seq<Uuid>, done: Acts, acts: Acts)
    requires acts != []
    ensures
      AllTaken(portable, ids, done, acts)
      <==> Taken(portable, ids, done, acts[0]) && AllTaken(portable, ids, done + [acts[0]], acts[1..])
  {
    hide Taken;
    var rest, more := acts[1..], done + [acts[0]];
    assert done + acts[..0] == done;
    forall k | 0 <= k < |rest| ensures done + acts[..k + 1] == more + rest[..k] && acts[k + 1] == rest[k] {
    }
    if AllTaken(portable, ids, done, acts) {
      forall k | 0 <= k < |rest| ensures Taken(portable, ids, more + rest[..k], rest[k]) {
        assert Taken(portable, ids, done + acts[..k + 1], acts[k + 1]);
      }
      assert Taken(portable, ids, done + acts[..0], acts[0]);
    }
    if Taken(portable, ids, done, acts[0]) && AllTaken(portable, ids, more, rest) {
      forall k | 0 <= k < |acts| ensures Taken(portable, ids, done + acts[..k], acts[k]) {
        if k > 0 {
          assert Taken(portable, ids, more + rest[..k - 1], rest[k - 1]);
        }
      }
    }
  }

  lemma {:induction false} RunOn(portable: bool, ids: seq<Uuid>, done: Acts, acts: Acts, st: State)
    requires NoDup(ids) && Carried(acts) && RunSays(ids, done, st)
    ensures Run(portable, ids, st, acts).Some? <==> AllTaken(portable, ids, done, acts)
    ensures Run(portable, ids, st, acts).Some? ==> RunSays(ids, done + acts, Run(portable, ids, st, acts).value)
    decreases |acts|
  {
    hide Step, Positions, Appends, Counts, AllTaken, Taken;
    if acts == [] {
      assert done + acts == done;
      NoneToTake(portable, ids, done);
    } else {
      var act := acts[0];
      assert act in acts;
      TakenHead(portable, ids, done, acts);
      StepTaken(portable, ids, done, act, st);
      if Step(portable, ids, st, act).Some? {
        StepPositions(portable, ids, done, act, st);
        StepAppends(portable, ids, done, act, st);
        StepCounts(portable, ids, done, act, st);
        RunOn(portable, ids, done + [act], acts[1..], Step(portable, ids, st, act).value);
        assert done + [act] + acts[1..] == done + acts;
      }
    }
  }

  lemma NoneToTake(portable: bool, ids: seq<Uuid>, done: Acts)
    ensures AllTaken(portable, ids, done, [])
  {
  }

  /**
    Any run: it goes through exactly if every record is taken after those before it, and then
    what is deleted, overridden, appended and counted is what the records say.
   */
  lemma AnyRun(portable: bool, ids: seq<Uuid>, acts: Acts)
    requires NoDup(ids) && Carried(acts)
    ensures
      Run(portable, ids, INITIAL, acts).Some?
      <==> forall k :: 0 <= k < |acts| ==> Taken(portable, ids, acts[..k], acts[k])
    ensures Run(portable, ids, INITIAL, acts).Some? ==> RunSays(ids, acts, Run(portable, ids, INITIAL, acts).value)
  {
    hide RunSays, Taken, Run, INITIAL;
    NothingSaid(ids);
    RunOn(portable, ids, [], acts, INITIAL);
    assert [] + acts == acts;
    forall k | 0 <= k < |acts| ensures [] + acts[..k] == acts[..k] {
    }
    assert AllTaken(portable, ids, [], acts)
           <==> forall k :: 0 <= k < |acts| ==> Taken(portable, ids, acts[..k], acts[k]);
  }

  // ---- the document any run leaves -------------------------------------------------

  lemma {:induction false} KeptIds(base: Doc, acts: Acts, st: State, k: nat)
    requires k <= |base| && Positions(Ids(base), acts, st) && Carried(acts)
    ensures Ids(Survivors(base, st, k)) == Pick(Ids(base)[k..], Deletes(acts), false)
    decreases |base| - k
  {
    hide Positions, Deletes, Pick, Survivors, Carried;
    SurvivorsHead(base, st, k);
    if k == |base| {
      PickEmpty<Uuid>(Deletes(acts), false);
    } else {
      KeptIds(base, acts, st, k + 1);
      KeptAt(base, acts, st, k);
      assert Ids(base)[k..] == [base[k].id] + Ids(base)[k + 1..];
      PickHead(base[k].id, Ids(base)[k + 1..], Deletes(acts), false);
      SurvivorsStep(base, st, k);
    }
  }

  lemma KeptAt(base: Doc, acts: Acts, st: State, k: nat)
    requires k < |base| && Positions(Ids(base), acts, st) && Carried(acts)
    ensures k in st.deleted <==> base[k].id in Deletes(acts)
    ensures k in st.replaced ==> st.replaced[k].id == base[k].id
    ensures
      var e := if k in st.replaced then st.replaced[k] else base[k];
      if LastShip(acts, base[k].id).Some? then LastShip(acts, base[k].id) == Some(e) else e == base[k]
  {
    hide LastShip;
    var u := base[k].id;
    assert Ids(base)[k] == u;
    DropsDeletes(acts, u);
    if LastShip(acts, u).Some? {
      LastCarried(acts, u);
    }
  }

  lemma DropsDeletes(acts: Acts, u: Uuid)
    ensures Drops(acts, u) <==> u in Deletes(acts)
  {
    if u in Deletes(acts) {
      var a :| a in acts && a.Delete? && a.id == u;
      var k :| 0 <= k < |acts| && acts[k] == a;
    }
  }

  lemma LastCarried(acts: Acts, u: Uuid)
    requires Carried(acts) && LastShip(acts, u).Some?
    ensures LastShip(acts, u).value.id == u
  {
    hide LastShip;
    var k :| 0 <= k < |acts| && Ships(acts[k], u) && acts[k].e == LastShip(acts, u).value;
    assert acts[k] in acts;
  }

  /** An element as last shipped, or as the base held it. */
  ghost predicate StandsAs(base: Doc, acts: Acts, e: Element) {
    match LastShip(acts, e.id) case Some(x) => x == e case None => e in base
  }

  lemma {:induction false} KeptStand(base: Doc, acts: Acts, st: State, k: nat)
    requires k <= |base| && Positions(Ids(base), acts, st) && Carried(acts)
    ensures forall i :: 0 <= i < |Survivors(base, st, k)| ==> StandsAs(base, acts, Survivors(base, st, k)[i])
    decreases |base| - k
  {
    hide Positions, Survivors, Carried, LastShip;
    SurvivorsHead(base, st, k);
    if k < |base| {
      KeptStand(base, acts, st, k + 1);
      KeptAt(base, acts, st, k);
    }
  }

  /**
    The document any run leaves: the base's identities without the deleted ones, in base order,
    then the new ones as first shipped; each element as last shipped, else as the base held it.
   */
  lemma AnyRunLeaves(base: Doc, acts: Acts, st: State)
    requires DistinctIds(base) && Carried(acts) && RunSays(Ids(base), acts, st)
    ensures
      var doc := Assemble(base, st);
      && Ids(doc) == Pick(Ids(base), Deletes(acts), false) + NewIds(Ids(base), acts)
      && forall i :: 0 <= i < |doc| ==> StandsAs(base, acts, doc[i])
  {
    hide Positions, Counts, Survivors, LastShip, NewIds, Deletes, Pick, Carried, DistinctIds;
    KeptIds(base, acts, st, 0);
    KeptStand(base, acts, st, 0);
    assert Ids(base)[0..] == Ids(base);
    assert Ids(Survivors(base, st, 0) + st.appended) == Ids(Survivors(base, st, 0)) + Ids(st.appended);
  }

  // ---- the exceptions of what was shipped ------------------------------------------

  /** The exception bits of an identity are those of the last record that shipped it whole. */
  lemma {:induction false} BitsOfLast(shipped: seq<Option<Uuid>>, pairs: Pairs, u: Uuid, k: nat)
    requires k <= |shipped|
    ensures BitsFor(shipped, pairs, u, k).None? <==> forall j :: 0 <= j < k ==> shipped[j] != Some(u)
    ensures
      forall j :: 0 <= j < k && shipped[j] == Some(u) && (forall i :: j < i < k ==> shipped[i] != Some(u)) ==>
        BitsFor(shipped, pairs, u, k) == Some(BitsAt(pairs, j))
  {
    hide BitsAt;
    if k > 0 {
      BitsOfLast(shipped, pairs, u, k - 1);
    }
  }
}
