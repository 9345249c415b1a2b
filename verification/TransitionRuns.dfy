/** The index transition and the applier run in step: records that say the same, and what they leave. */
module TransitionRuns {
  import opened Wrappers
  import opened Seqs
  import opened Cbor
  import opened Model
  import opened Owners
  import opened Values
  import opened Records
  import opened Sections
  import opened Snapshot
  import opened Patch
  import opened Preorder
  import opened Order
  import opened CanonDoc
  import opened Acts
  import opened Delta
  import opened Apply
  import opened DeltaRecords
  import opened DeltaRoundTrip
  import opened DeltaTheorems
  import opened Portable
  import opened Lenient
  import opened Index
  import opened TransitionCommutes
  import opened OpenLists

  // ---- the two readers agree on every record ---------------------------------------

  /** A resolved record that says what the applier's act says. */
  ghost predicate Says(tables: Tables, base: Doc, a: Act, rec: ResolvedRecord) {
    && (rec.target.ToCreate? <==> a.Create?)
    && (a.Create? ==> rec.target == ToCreate(a.id) && rec.payload == ElementPayload(a.e) && Known(tables, a.e.ty))
    && (!a.Create? ==>
          && rec.target.ToBase? && rec.target.index < |base|
          && base[rec.target.index].id == a.id == rec.target.id)
    && (a.Delete? ==> rec.payload == DeletePayload)
    && (a.Update? && a.whole ==> rec.payload == ElementPayload(a.e) && Known(tables, a.e.ty))
    && (a.Update? && !a.whole ==>
          && rec.payload.PatchPayload? && DistinctKeys(rec.payload.ops)
          && a.e == base[rec.target.index].(props := a.e.props)
          && NamedReplay(base[rec.target.index].props, rec.payload.ops) == Some(a.e.props))
  }

  lemma BodyKnown(ts: Toks, s: Space, tables: Tables, id: Uuid)
    requires ReadBody(ts, s, tables, id).Ok?
    ensures Known(tables, ReadBody(ts, s, tables, id).value.0.ty)
  {
    hide ReadEntries, FillDefaults;
    var code := ts[0].n;
    TypeCodeBound(tables, code);
  }

  lemma {:induction false} TypeCodeBound(tables: Tables, code: nat)
    requires code < |tables|
    ensures TypeCode(tables, tables[code].name) < |tables|
  {
    if code > 0 && tables[0].name != tables[code].name {
      TypeCodeBound(tables[1..], code - 1);
    }
  }

  lemma FieldsAgree(tables: Tables, base: Doc, at: nat)
    requires AllKnown(tables, base) && at < |base|
    ensures FieldsAt(tables, Structure(tables, base), at) == FieldsOf(tables, base[at].ty)
  {
    hide Located;
  }

  lemma PatchSays(tables: Tables, base: Doc, at: nat, ts: Toks, s: Space, n: nat)
    requires ValidTables(tables) && AllKnown(tables, base) && at < |base|
    requires ReadPatch(ts, s, tables, n, base[at]).Ok?
    ensures
      var (e, rest) := ReadPatch(ts, s, tables, n, base[at]).value;
      var fields := FieldsAt(tables, Structure(tables, base), at);
      && ParsePatch(ts, s, fields, n).Ok? && ParsePatch(ts, s, fields, n).value.1 == rest
      && var named := Name(fields, ParsePatch(ts, s, fields, n).value.0);
         && DistinctKeys(named) && e == base[at].(props := e.props)
         && NamedReplay(base[at].props, named) == Some(e.props)
  {
    hide ParseOps, ReadPatchOps, Replay, NamedReplay, EncAll, Structure, FieldsAt, DistinctKeys;
    var fields := FieldsOf(tables, base[at].ty);
    FieldsAgree(tables, base, at);
    FieldsOfValid(tables, base[at].ty);
    NamesDistinct(fields);
    ReadingIsParsingAndReplaying(ts, s, fields, n, 0, base[at].props);
    var ops := ParseOps(ts, s, fields, n, 0).value.0;
    ParsedAscend(ts, s, fields, n, 0);
    AscendingNames(fields, ops);
    NamedReplays(fields, base[at].props, ops);
  }

  lemma ReadActSays(
      ts: Toks, s: Space, tables: Tables, base: Doc, created: seq<Uuid>, next: nat)
    requires ValidTables(tables) && AllKnown(tables, base)
    requires ReadAct(ts, s, tables, base, false, created, next).Ok?
    ensures
      var (a, rest) := ReadAct(ts, s, tables, base, false, created, next).value;
      var r := ResolveRecord(ts, s, tables, Some(Structure(tables, base)), created, next);
      && r.Ok? && r.value.1 == rest && Says(tables, base, a, r.value.0) && r.value.0.bits == 0
  {
    hide ReadPayload, ResolvePayload, Structure, Says;
    var (_, ts1) := ReadArray(ts).value;
    var (t, ts2) := Next(ts1).value;
    StructureIds(tables, base);
    PayloadSays(ts2, s, tables, base, created, next, ReadTarget(t, base, false).value);
  }

  lemma StructureIds(tables: Tables, base: Doc)
    ensures Structure(tables, base).ids == Ids(base)
  {
  }

  function ResolvedTarget(base: Doc, created: seq<Uuid>, next: nat, target: Target): RecordTarget
    requires target.Held? ==> target.at < |base|
    requires target.New? ==> next < |created|
  {
    match target
    case New => ToCreate(created[next])
    case Held(at) => ToBase(at, base[at].id)
    case Absent(u) => ToId(u)
  }

  lemma PayloadSays(
      ts: Toks, s: Space, tables: Tables, base: Doc, created: seq<Uuid>, next: nat, target: Target)
    requires ValidTables(tables) && AllKnown(tables, base) && !target.Absent?
    requires target.Held? ==> target.at < |base|
    requires ReadPayload(ts, s, tables, base, false, created, next, target).Ok?
    ensures target.New? ==> next < |created|
    ensures
      var (a, rest) := ReadPayload(ts, s, tables, base, false, created, next, target).value;
      var to := ResolvedTarget(base, created, next, target);
      var r := ResolvePayload(ts, s, tables, Some(Structure(tables, base)), to);
      && r.Ok? && r.value.1 == rest && Says(tables, base, a, ResolvedRecord(to, r.value.0, 0))
  {
    hide ReadPatch, ParsePatch, ReadBody, Structure, FieldsAt, NamedReplay, DistinctKeys, TypeCode;
    var (t, rest) := Next(ts).value;
    if t.Map? {
      PatchSays(tables, base, target.at, rest, s, t.len);
    } else if t == Array(3) {
      BodyKnown(rest, s, tables, TargetId(base, created, next, target).value);
    }
  }

  ghost predicate AllSay(tables: Tables, base: Doc, acts: Acts, recs: seq<ResolvedRecord>) {
    |acts| == |recs| && forall i :: 0 <= i < |acts| ==> Says(tables, base, acts[i], recs[i])
  }

  /** The resolver reads every record list the applier reads, record by record alike. */
  lemma {:induction false} ReadActsSay(
      ts: Toks, s: Space, tables: Tables, base: Doc, created: seq<Uuid>, next: nat, n: nat)
    requires ValidTables(tables) && AllKnown(tables, base)
    requires ReadActs(ts, s, tables, base, false, created, next, n).Ok?
    ensures
      var (acts, last, rest) := ReadActs(ts, s, tables, base, false, created, next, n).value;
      var r := ResolveRecords(ts, s, tables, Some(Structure(tables, base)), created, next, n);
      r.Ok? && r.value.1 == last && r.value.2 == rest && AllSay(tables, base, acts, r.value.0)
    decreases n
  {
    hide ReadAct, ResolveRecord, Structure, Says;
    if n > 0 {
      var (a, rest) := ReadAct(ts, s, tables, base, false, created, next).value;
      ReadActSays(ts, s, tables, base, created, next);
      var rec := ResolveRecord(ts, s, tables, Some(Structure(tables, base)), created, next).value.0;
      SaysCreate(tables, base, a, rec);
      ReadActsSay(rest, s, tables, base, created, if a.Create? then next + 1 else next, n - 1);
    }
  }

  lemma SaysCreate(tables: Tables, base: Doc, a: Act, rec: ResolvedRecord)
    requires Says(tables, base, a, rec)
    ensures rec.target.ToCreate? <==> a.Create?
  {
  }

  // ---- the two runs stay in step ---------------------------------------------------

  function Standing(base: Doc, st: State, i: nat): Element
    requires i < |base|
  {
    if i in st.replaced then st.replaced[i] else base[i]
  }

  /** One base position on both sides, by what its record carried. */
  ghost predicate StandsAt(
      tables: Tables, base: Doc, st: State, node: Node, i: nat, payload: Option<RecordPayload>)
    requires i < |base|
  {
    var e := Standing(base, st, i);
    && e.id == base[i].id
    && match payload
       case None =>
         i !in st.deleted && i !in st.touched && e == base[i] && node == HeldNode(tables, base, base[i])
       case Some(DeletePayload) =>
         i in st.deleted && i in st.touched && e == base[i] && node == HeldNode(tables, base, base[i])
       case Some(ElementPayload(whole)) =>
         i !in st.deleted && i in st.touched && e == whole && node == NodeOf(tables, whole)
       case Some(PatchPayload(ops)) =>
         && i !in st.deleted && i in st.touched && DistinctKeys(ops)
         && e == base[i].(props := e.props) && NamedReplay(base[i].props, ops) == Some(e.props)
         && PatchNodes(HeldNode(tables, base, base[i]), ops) == Some(node)
  }

  /** The transition's working state follows the applier's, position by position, after the records `done`. */
  ghost predicate InStep(tables: Tables, base: Doc, st: State, w: Work, done: seq<ResolvedRecord>) {
    && |w.order| == |base| && w.deleted == st.deleted
    && forall i :: 0 <= i < |base| ==> StandsAt(tables, base, st, w.order[i], i, PayloadOn(done, i))
  }

  /** A patch that content takes and structure refuses. */
  ghost predicate Refuses(tables: Tables, base: Doc, i: nat, payload: Option<RecordPayload>)
    requires i < |base|
  {
    && payload.Some? && payload.value.PatchPayload? && DistinctKeys(payload.value.ops)
    && NamedReplay(base[i].props, payload.value.ops).Some?
    && PatchNodes(HeldNode(tables, base, base[i]), payload.value.ops).None?
  }

  lemma PayloadOne(done: seq<ResolvedRecord>, rec: ResolvedRecord, i: nat)
    ensures
      PayloadOn(done + [rec], i)
      == if PayloadOn(done, i).Some? then PayloadOn(done, i)
         else if rec.target.ToBase? && rec.target.index == i then Some(rec.payload) else None
  {
    PayloadAppend(done, [rec], i);
    assert PayloadOn([], i) == None && [rec][1..] == [];
  }

  lemma StepInStep(
      tables: Tables, base: Doc, st: State, w: Work, done: seq<ResolvedRecord>, a: Act, rec: ResolvedRecord)
    requires DistinctIds(base) && InStep(tables, base, st, w, done)
    requires Says(tables, base, a, rec) && (!a.Delete? ==> a.e.id == a.id) && Step(false, Ids(base), st, a).Some?
    ensures
      var r := Advance(tables, w, rec);
      && (r.None? ==>
            && rec.target.ToBase? && rec.target.index < |base|
            && Refuses(tables, base, rec.target.index, PayloadOn(done + [rec], rec.target.index)))
      && (r.Some? ==>
            && InStep(tables, base, Step(false, Ids(base), st, a).value, r.value, done + [rec])
            && r.value.appended == w.appended + (if a.Create? then [NodeOf(tables, a.e)] else []))
  {
    hide StandsAt, Advance, Step, Says, PayloadOn, Refuses;
    var next := Step(false, Ids(base), st, a).value;
    if a.Create? {
      StepCreates(tables, base, st, w, a, rec);
    } else {
      StepChangesBase(tables, base, st, w, a, rec);
      StepHere(tables, base, st, w, done, a, rec);
    }
    forall j | 0 <= j < |base| && Advance(tables, w, rec).Some?
      ensures StandsAt(tables, base, next, Advance(tables, w, rec).value.order[j], j, PayloadOn(done + [rec], j))
    {
      PayloadOne(done, rec, j);
      if a.Create? || j != rec.target.index {
        StandsElsewhere(tables, base, st, next, w.order[j], j, PayloadOn(done, j));
      }
    }
  }

  /** What the applier holds of base position `j` is as it was. */
  ghost predicate SameAt(st: State, next: State, j: nat) {
    && (j in next.deleted <==> j in st.deleted) && (j in next.touched <==> j in st.touched)
    && (j in next.replaced <==> j in st.replaced) && (j in st.replaced ==> next.replaced[j] == st.replaced[j])
  }

  lemma StandsElsewhere(
      tables: Tables, base: Doc, st: State, next: State, node: Node, j: nat, payload: Option<RecordPayload>)
    requires j < |base| && SameAt(st, next, j) && StandsAt(tables, base, st, node, j, payload)
    ensures StandsAt(tables, base, next, node, j, payload)
  {
    hide PatchNodes, NamedReplay, DistinctKeys, HeldNode, NodeOf;
  }

  lemma StepCreates(tables: Tables, base: Doc, st: State, w: Work, a: Act, rec: ResolvedRecord)
    requires a.Create? && Says(tables, base, a, rec) && a.e.id == a.id && Step(false, Ids(base), st, a).Some?
    requires |w.order| == |base| && w.deleted == st.deleted
    ensures rec.target.ToCreate? && Advance(tables, w, rec).Some?
    ensures
      var next, r := Step(false, Ids(base), st, a).value, Advance(tables, w, rec).value;
      && r.order == w.order && r.deleted == next.deleted && r.appended == w.appended + [NodeOf(tables, a.e)]
      && forall j :: SameAt(st, next, j)
  {
    hide ListIds, TypeCode, Append, Pick;
    CreateInStep(tables, base, st, a);
  }

  /** A record of a base position leaves every other one alone on both sides. */
  lemma StepChangesBase(tables: Tables, base: Doc, st: State, w: Work, a: Act, rec: ResolvedRecord)
    requires DistinctIds(base) && !a.Create? && Says(tables, base, a, rec) && Step(false, Ids(base), st, a).Some?
    requires |w.order| == |base| && w.deleted == st.deleted
    ensures rec.target.ToBase? && rec.target.index < |base| && base[rec.target.index].id == a.id
    ensures IndexOf(Ids(base), a.id) == rec.target.index
    ensures
      var next, r := Step(false, Ids(base), st, a).value, Advance(tables, w, rec);
      r.Some? ==>
        && |r.value.order| == |base| && r.value.deleted == next.deleted && r.value.appended == w.appended
        && forall j: nat :: j < |base| && j != rec.target.index ==>
             SameAt(st, next, j) && r.value.order[j] == w.order[j]
  {
    hide PatchNodes, NamedReplay, DistinctKeys, ListIds, TypeCode, Append, HeldNode, Pick, NodeOf;
    var i := rec.target.index;
    assert Ids(base)[i] == a.id;
    IndexOfNoDup(Ids(base), i);
  }

  /** The position the record names, on both sides. */
  lemma StepHere(
      tables: Tables, base: Doc, st: State, w: Work, done: seq<ResolvedRecord>, a: Act, rec: ResolvedRecord)
    requires DistinctIds(base) && InStep(tables, base, st, w, done) && !a.Create?
    requires Says(tables, base, a, rec) && (!a.Delete? ==> a.e.id == a.id) && Step(false, Ids(base), st, a).Some?
    requires rec.target.ToBase? && rec.target.index < |base| && IndexOf(Ids(base), a.id) == rec.target.index
    ensures
      var i, r := rec.target.index, Advance(tables, w, rec);
      var payload := PayloadOn(done + [rec], i);
      && (r.None? ==> Refuses(tables, base, i, payload))
      && (r.Some? ==>
            && i < |r.value.order|
            && StandsAt(tables, base, Step(false, Ids(base), st, a).value, r.value.order[i], i, payload))
  {
    hide PatchNodes, NamedReplay, DistinctKeys, ListIds, TypeCode, Append, PayloadOn, HeldNode, Pick, DistinctIds,
      IndexOf;
    var i := rec.target.index;
    assert StandsAt(tables, base, st, w.order[i], i, PayloadOn(done, i));
    PayloadOne(done, rec, i);
  }

  lemma CreateInStep(tables: Tables, base: Doc, st: State, a: Act)
    requires a.Create? && Step(false, Ids(base), st, a).Some?
    ensures
      var next := Step(false, Ids(base), st, a).value;
      next.replaced == st.replaced && next.deleted == st.deleted && next.touched == st.touched
  {
    hide Append;
  }

  /** The elements created, in record order. */
  function CreatedBy(acts: Acts): Doc {
    if acts == [] then [] else (if acts[0].Create? then [acts[0].e] else []) + CreatedBy(acts[1..])
  }

  function NodesOf(tables: Tables, doc: Doc): (nodes: seq<Node>)
    ensures |nodes| == |doc| && forall i :: 0 <= i < |doc| ==> nodes[i] == NodeOf(tables, doc[i])
  {
    seq(|doc|, i requires 0 <= i < |doc| => NodeOf(tables, doc[i]))
  }

  /** The two runs stay in step to the end, or structure refuses a patch that content took. */
  lemma {:induction false} RunInStep(
      tables: Tables, base: Doc, st: State, w: Work, done: seq<ResolvedRecord>, acts: Acts, recs: seq<ResolvedRecord>)
    requires DistinctIds(base) && InStep(tables, base, st, w, done)
    requires AllSay(tables, base, acts, recs) && Carried(acts) && Run(false, Ids(base), st, acts).Some?
    ensures
      var r := AdvanceAll(tables, w, recs);
      && (r.None? ==> exists i :: 0 <= i < |base| && Refuses(tables, base, i, PayloadOn(done + recs, i)))
      && (r.Some? ==>
            && InStep(tables, base, Run(false, Ids(base), st, acts).value, r.value, done + recs)
            && r.value.appended == w.appended + NodesOf(tables, CreatedBy(acts)))
    decreases |acts|
  {
    hide InStep, Says, Advance, Step, DistinctIds, NodesOf, CreatedBy, NodeOf, PayloadOn, Refuses;
    CreatedNodes(tables, acts, w.appended);
    if acts == [] {
      assert done + recs == done;
    } else {
      var a, rec := acts[0], recs[0];
      assert a in acts && done + recs == done + [rec] + recs[1..];
      StepInStep(tables, base, st, w, done, a, rec);
      var moved := Advance(tables, w, rec);
      if moved.Some? {
        RunInStep(tables, base, Step(false, Ids(base), st, a).value, moved.value, done + [rec], acts[1..], recs[1..]);
      } else {
        RefusalStays(tables, base, done + [rec], recs[1..], rec.target.index);
      }
    }
  }

  lemma RefusalStays(tables: Tables, base: Doc, a: seq<ResolvedRecord>, b: seq<ResolvedRecord>, i: nat)
    requires i < |base| && Refuses(tables, base, i, PayloadOn(a, i))
    ensures Refuses(tables, base, i, PayloadOn(a + b, i))
  {
    PayloadAppend(a, b, i);
  }

  lemma NodesAppend(tables: Tables, a: Doc, b: Doc)
    ensures NodesOf(tables, a + b) == NodesOf(tables, a) + NodesOf(tables, b)
  {
    hide NodeOf;
  }

  lemma NodesFew(tables: Tables, e: Element)
    ensures NodesOf(tables, []) == [] && NodesOf(tables, [e]) == [NodeOf(tables, e)]
  {
    hide NodeOf;
  }

  lemma CreatedNodes(tables: Tables, acts: Acts, appended: seq<Node>)
    ensures acts == [] ==> appended + NodesOf(tables, CreatedBy(acts)) == appended
    ensures
      acts != [] ==>
        appended + NodesOf(tables, CreatedBy(acts))
        == appended + (if acts[0].Create? then [NodeOf(tables, acts[0].e)] else [])
           + NodesOf(tables, CreatedBy(acts[1..]))
  {
    hide NodeOf, NodesOf, CreatedBy;
    CreatedStep(acts);
    NodesFew(tables, Element(0, "", map[]));
    if acts != [] {
      var here := if acts[0].Create? then [acts[0].e] else [];
      NodesFew(tables, if acts[0].Create? then acts[0].e else Element(0, "", map[]));
      NodesAppend(tables, here, CreatedBy(acts[1..]));
      Assoc(appended, NodesOf(tables, here), NodesOf(tables, CreatedBy(acts[1..])));
    } else {
      assert appended + [] == appended;
    }
  }

  lemma CreatedStep(acts: Acts)
    ensures acts == [] ==> CreatedBy(acts) == []
    ensures acts != [] ==> CreatedBy(acts) == (if acts[0].Create? then [acts[0].e] else []) + CreatedBy(acts[1..])
  {
  }

  // ---- what is appended ------------------------------------------------------------

  function AppendAll(appended: Doc, es: Doc): Doc
    decreases |es|
  {
    if es == [] then appended else AppendAll(Append(appended, es[0]), es[1..])
  }

  lemma {:induction false} RunAppends(base: Doc, st: State, acts: Acts)
    requires Run(false, Ids(base), st, acts).Some?
    ensures Run(false, Ids(base), st, acts).value.appended == AppendAll(st.appended, CreatedBy(acts))
    decreases |acts|
  {
    hide Append, IndexOf;
    if acts != [] {
      var next := Step(false, Ids(base), st, acts[0]).value;
      RunAppends(base, next, acts[1..]);
      var here := if acts[0].Create? then [acts[0].e] else [];
      assert CreatedBy(acts) == here + CreatedBy(acts[1..]);
      if acts[0].Create? {
        assert CreatedBy(acts)[1..] == CreatedBy(acts[1..]);
      } else {
        assert here + CreatedBy(acts[1..]) == CreatedBy(acts[1..]);
      }
    }
  }

  lemma AppendGrows(appended: Doc, e: Element)
    requires NoDup(Ids(appended))
    ensures NoDup(Ids(Append(appended, e)))
    ensures e.id in Ids(appended) ==> |Append(appended, e)| == |appended|
    ensures e.id !in Ids(appended) ==> Append(appended, e) == appended + [e]
  {
    AppendSound([], appended, e);
  }

  /** Nothing is lost exactly when no identity is created twice. */
  lemma {:induction false} AppendAllDistinct(appended: Doc, es: Doc)
    requires NoDup(Ids(appended))
    ensures |AppendAll(appended, es)| <= |appended| + |es|
    ensures NoDup(Ids(appended + es)) ==> AppendAll(appended, es) == appended + es
    ensures |AppendAll(appended, es)| == |appended| + |es| ==> NoDup(Ids(appended + es))
    decreases |es|
  {
    hide Append;
    if es == [] {
      assert appended + es == appended;
    } else {
      var e, rest := es[0], es[1..];
      AppendGrows(appended, e);
      AppendAllDistinct(Append(appended, e), rest);
      assert (appended + [e]) + rest == appended + es;
      if NoDup(Ids(appended + es)) {
        assert Ids(appended + es) == Ids(appended) + Ids(es) && Ids(es) == [e.id] + Ids(rest);
        NoDupParts(Ids(appended), Ids(es));
        assert e.id in Ids(es);
      }
    }
  }

  lemma {:induction false} CreatedIdsSay(tables: Tables, base: Doc, acts: Acts, recs: seq<ResolvedRecord>)
    requires AllSay(tables, base, acts, recs) && Carried(acts)
    ensures CreatedIds(recs) == Ids(CreatedBy(acts))
  {
    if acts != [] {
      var a := acts[0];
      assert a in acts && Says(tables, base, a, recs[0]);
      CreatedIdsSay(tables, base, acts[1..], recs[1..]);
      var here := if a.Create? then [a.e] else [];
      assert Ids(here + CreatedBy(acts[1..])) == Ids(here) + Ids(CreatedBy(acts[1..]));
      assert Ids(here) == if a.Create? then [a.id] else [];
    }
  }

  lemma {:induction false} BitsKeepIds(recs: seq<ResolvedRecord>, other: seq<ResolvedRecord>)
    requires |recs| == |other|
    requires forall i :: 0 <= i < |recs| ==> recs[i].target == other[i].target && recs[i].payload == other[i].payload
    ensures CreatedIds(recs) == CreatedIds(other)
  {
    if recs != [] {
      BitsKeepIds(recs[1..], other[1..]);
    }
  }

  // ---- the payload of nodes --------------------------------------------------------

  /** An element with its ownership lists as a node holds them. */
  function Relisted(e: Element, node: Node): (r: Element)
    ensures r.id == e.id && r.ty == e.ty
  {
    e.(props := e.props[OwnedRelatedElement := Arr(Refs(node.kids))][OwnedRelationship := Arr(Refs(node.rels))])
  }

  /** The base as the applier left it, with the transition's lists. */
  function Shadow(base: Doc, st: State, order: seq<Node>): (doc: Doc)
    requires |order| == |base|
    ensures |doc| == |base| && forall i :: 0 <= i < |base| ==> doc[i] == Relisted(Standing(base, st, i), order[i])
  {
    seq(|base|, i requires 0 <= i < |base| => Relisted(Standing(base, st, i), order[i]))
  }

  function Unreplaced(st: State): State {
    st.(replaced := map[])
  }

  lemma RelistedNode(tables: Tables, e: Element, node: Node)
    requires node.id == e.id && node.ty == TypeCode(tables, e.ty)
    ensures NodeOf(tables, Relisted(e, node)) == node
    ensures ListIds(Relisted(e, node), OwnedRelatedElement) == node.kids
    ensures ListIds(Relisted(e, node), OwnedRelationship) == node.rels
  {
    hide RefIds, Refs;
    RefsOf(node.kids);
    RefsOf(node.rels);
  }

  lemma StandsLike(tables: Tables, base: Doc, st: State, node: Node, i: nat, payload: Option<RecordPayload>)
    requires i < |base| && StandsAt(tables, base, st, node, i, payload)
    ensures node.id == Standing(base, st, i).id && node.ty == TypeCode(tables, Standing(base, st, i).ty)
  {
    hide NamedReplay, TypeCode, DistinctKeys, Pick, ListIds, PatchNodes;
    if payload.Some? && payload.value.PatchPayload? {
      PatchMoves(HeldNode(tables, base, base[i]), payload.value.ops);
    }
  }

  lemma {:induction false} LeftReflects(tables: Tables, doc: Doc, st: State, w: Work, k: nat)
    requires k <= |doc| == |w.order| && w.deleted == st.deleted && st.replaced == map[]
    requires forall i :: 0 <= i < |doc| ==> w.order[i] == NodeOf(tables, doc[i])
    ensures Undeleted(w, k) == NodesOf(tables, Survivors(doc, st, k))
    decreases |doc| - k
  {
    hide NodeOf, NodesOf;
    NodesFew(tables, Element(0, "", map[]));
    if k < |doc| {
      LeftReflects(tables, doc, st, w, k + 1);
      var rest := Survivors(doc, st, k + 1);
      var here := if k in st.deleted then [] else [doc[k]];
      assert Survivors(doc, st, k) == here + rest;
      NodesAppend(tables, here, rest);
      NodesFew(tables, doc[k]);
    }
  }

  /** The base positions from `k` that are not deleted. */
  function Surviving(deleted: set<nat>, n: nat, k: nat): (at: seq<nat>)
    requires k <= n
    ensures forall i :: i in at <==> k <= i < n && i !in deleted
    decreases n - k
  {
    if k == n then [] else (if k in deleted then [] else [k]) + Surviving(deleted, n, k + 1)
  }

  lemma {:induction false} SurvivorsAt(base: Doc, st: State, k: nat)
    requires k <= |base|
    ensures
      var at, left := Surviving(st.deleted, |base|, k), Survivors(base, st, k);
      && |left| == |at|
      && forall j :: 0 <= j < |at| ==> at[j] in at && left[j] == Standing(base, st, at[j])
    decreases |base| - k
  {
    hide Survivors, Surviving, Standing;
    if k == |base| {
      SurvivorsEnd(base, st);
      NoneSurviving(st.deleted, k);
    } else {
      SurvivorsAt(base, st, k + 1);
      SurvivingStep(base, st, k);
    }
  }

  lemma NoneSurviving(deleted: set<nat>, n: nat)
    ensures Surviving(deleted, n, n) == []
  {
  }

  lemma SurvivingStep(base: Doc, st: State, k: nat)
    requires k < |base|
    ensures
      Survivors(base, st, k)
      == (if k in st.deleted then [] else [Standing(base, st, k)]) + Survivors(base, st, k + 1)
    ensures
      Surviving(st.deleted, |base|, k)
      == (if k in st.deleted then [] else [k]) + Surviving(st.deleted, |base|, k + 1)
  {
  }

  lemma StructureSame(tables: Tables, a: Doc, b: Doc)
    requires SameStructure(a, b) && forall i :: 0 <= i < |a| ==> a[i].ty == b[i].ty
    ensures Structure(tables, a) == Structure(tables, b)
  {
    hide Located, ListIds;
    assert forall i :: 0 <= i < |a| ==> SameForward(a[i], b[i]);
    assert Ids(a) == Ids(b);
  }

  lemma FillType(tables: Tables, doc: Doc, shipped: seq<Option<Uuid>>, pairs: Pairs, e: Element)
    ensures FillOne(tables, doc, shipped, pairs, e).ty == e.ty
  {
    hide BitsFor, DerivedOwner, FillSlot;
  }

  /** The applied document's structure is that of the assembled payload in canonical order. */
  lemma AppliedStructure(tables: Tables, base: Doc, st: State, implied: bool, exceptions: Pairs)
    requires DistinctIds(base) && SoundState(Ids(base), st)
    ensures DistinctIds(Assemble(base, st))
    ensures
      var value := Applied(tables, base, st, implied, exceptions);
      Structure(tables, value) == Structure(tables, Canonical(Assemble(base, st)))
      && |value| == |Assemble(base, st)|
  {
    hide Canonical, SameStructure, SoundState, Assemble, FillOne, Structure;
    AssembledDistinct(base, st);
    var doc := Canonical(Assemble(base, st));
    if implied {
      var value := FillShipped(tables, doc, st.shipped, exceptions);
      FilledStructure(tables, doc, st.shipped, exceptions);
      forall i | 0 <= i < |doc| ensures doc[i].ty == value[i].ty {
        FillType(tables, doc, st.shipped, exceptions, doc[i]);
      }
      StructureSame(tables, doc, value);
    }
  }

  lemma StartsInStep(tables: Tables, base: Doc)
    ensures WellFormed(Structure(tables, base))
    ensures InStep(tables, base, INITIAL, Work(BaseNodes(Structure(tables, base)), {}, []), [])
  {
    hide Structure, HeldNode, BaseNodes;
    BaseHolds(tables, base);
  }

  lemma AssembleLength(base: Doc, st: State)
    ensures |Assemble(base, st)| == |Survivors(base, st, 0)| + |st.appended|
  {
    hide Survivors;
  }

  /** The applied payload with the transition's lists. */
  function ShadowDoc(base: Doc, st: State, order: seq<Node>): Doc
    requires |order| == |base|
  {
    Survivors(Shadow(base, st, order), Unreplaced(st), 0) + st.appended
  }

  lemma ShadowStanding(base: Doc, st: State, order: seq<Node>, i: nat)
    requires i < |base| == |order|
    ensures Standing(Shadow(base, st, order), Unreplaced(st), i) == Relisted(Standing(base, st, i), order[i])
  {
    hide Relisted;
  }

  /** Element by element, the two payloads: a survivor with its node's lists, or an appended element. */
  lemma ShadowAt(base: Doc, st: State, order: seq<Node>)
    requires |order| == |base|
    ensures
      var at, a, s := Surviving(st.deleted, |base|, 0), Assemble(base, st), ShadowDoc(base, st, order);
      && |a| == |s| >= |at|
      && (forall j :: 0 <= j < |at| ==>
            && at[j] in at && a[j] == Standing(base, st, at[j])
            && s[j] == Relisted(Standing(base, st, at[j]), order[at[j]]))
      && (forall j :: |at| <= j < |a| ==> s[j] == a[j])
  {
    hide Relisted, Survivors, Surviving, Shadow, Standing;
    SurvivorsAt(base, st, 0);
    SurvivorsAt(Shadow(base, st, order), Unreplaced(st), 0);
    var at, s := Surviving(st.deleted, |base|, 0), ShadowDoc(base, st, order);
    forall j | 0 <= j < |at| ensures at[j] in at && s[j] == Relisted(Standing(base, st, at[j]), order[at[j]]) {
      ShadowStanding(base, st, order, at[j]);
    }
  }

  /** Every surviving base position's node agrees with what stands there. */
  ghost predicate AllAgree(base: Doc, st: State, order: seq<Node>, kept: set<Uuid>)
    requires |order| == |base|
  {
    forall i :: 0 <= i < |base| && i !in st.deleted ==> Agrees(kept, order[i], Standing(base, st, i))
  }

  lemma ShadowHeads(base: Doc, st: State, order: seq<Node>)
    requires |order| == |base|
    ensures SameHeads(ShadowDoc(base, st, order), Assemble(base, st))
  {
    hide Relisted, Survivors, Surviving, Shadow, Standing, ShadowDoc, Assemble;
    ShadowAt(base, st, order);
  }

  /** A relisted element's held lists are its node's. */
  lemma RelistedTargets(tables: Tables, doc: Doc, e: Element, node: Node)
    requires node.id == e.id && node.ty == TypeCode(tables, e.ty)
    ensures Targets(doc, Relisted(e, node), OwnedRelatedElement) == Pick(node.kids, Elems(Ids(doc)), true)
    ensures Targets(doc, Relisted(e, node), OwnedRelationship) == Pick(node.rels, Elems(Ids(doc)), true)
  {
    hide Relisted, ListIds, Pick;
    RelistedNode(tables, e, node);
    TargetsDef(doc, Relisted(e, node), OwnedRelatedElement);
    TargetsDef(doc, Relisted(e, node), OwnedRelationship);
  }

  ghost predicate OrderLike(tables: Tables, base: Doc, st: State, order: seq<Node>) {
    && |order| == |base|
    && forall i :: 0 <= i < |base| ==>
         order[i].id == Standing(base, st, i).id && order[i].ty == TypeCode(tables, Standing(base, st, i).ty)
  }

  lemma AgreesTargets(tables: Tables, a: Doc, s: Doc, e: Element, node: Node)
    requires node.id == e.id && node.ty == TypeCode(tables, e.ty) && Elems(Ids(a)) == Elems(Ids(s))
    ensures
      Agrees(Elems(Ids(a)), node, e)
      <==> && Targets(s, Relisted(e, node), OwnedRelatedElement) == Targets(a, e, OwnedRelatedElement)
           && Targets(s, Relisted(e, node), OwnedRelationship) == Targets(a, e, OwnedRelationship)
  {
    hide Relisted, ListIds, Pick, TypeCode;
    RelistedTargets(tables, s, e, node);
    TargetsDef(a, e, OwnedRelatedElement);
    TargetsDef(a, e, OwnedRelationship);
  }

  lemma ShadowLists(tables: Tables, base: Doc, st: State, order: seq<Node>)
    requires OrderLike(tables, base, st, order)
    ensures
      SameLists(ShadowDoc(base, st, order), Assemble(base, st))
      <==> AllAgree(base, st, order, Elems(Ids(Assemble(base, st))))
  {
    hide Relisted, Survivors, Standing, ShadowDoc, Assemble, Shadow, Targets, Agrees, TypeCode;
    var at, a, s := Surviving(st.deleted, |base|, 0), Assemble(base, st), ShadowDoc(base, st, order);
    ShadowAt(base, st, order);
    ShadowHeads(base, st, order);
    IdsAlike(s, a);
    forall j | 0 <= j < |a|
      ensures
        (Targets(s, s[j], OwnedRelatedElement) == Targets(a, a[j], OwnedRelatedElement)
         && Targets(s, s[j], OwnedRelationship) == Targets(a, a[j], OwnedRelationship))
        <==> (j < |at| ==> Agrees(Elems(Ids(a)), order[at[j]], Standing(base, st, at[j])))
    {
      if j < |at| {
        AgreesTargets(tables, a, s, Standing(base, st, at[j]), order[at[j]]);
      } else {
        TargetsOf(s, a, a[j], OwnedRelatedElement);
        TargetsOf(s, a, a[j], OwnedRelationship);
      }
    }
    forall i | 0 <= i < |base| && i !in st.deleted ensures exists j :: 0 <= j < |at| && at[j] == i {
      assert i in at;
    }
  }

  lemma ShadowReflects(tables: Tables, base: Doc, st: State, w: Work)
    requires OrderLike(tables, base, st, w.order) && w.deleted == st.deleted
    ensures Reflect(tables, Undeleted(w, 0) + NodesOf(tables, st.appended), ShadowDoc(base, st, w.order))
  {
    hide NodeOf, Relisted, Survivors, Standing, Undeleted;
    var shadow := Shadow(base, st, w.order);
    forall i | 0 <= i < |base| ensures w.order[i] == NodeOf(tables, shadow[i]) {
      RelistedNode(tables, Standing(base, st, i), w.order[i]);
    }
    LeftReflects(tables, shadow, Unreplaced(st), w, 0);
  }

  /** Settled, the nodes index the applied payload exactly when every survivor agrees. */
  lemma SettledAgree(tables: Tables, base: Doc, st: State, w: Work)
    requires OrderLike(tables, base, st, w.order) && w.deleted == st.deleted && DistinctIds(Assemble(base, st))
    ensures
      Settle(Undeleted(w, 0) + NodesOf(tables, st.appended)) == Structure(tables, Canonical(Assemble(base, st)))
      <==> AllAgree(base, st, w.order, Elems(Ids(Assemble(base, st))))
  {
    hide NodesOf, Survivors, Standing, Undeleted, Settle, Structure, Canonical, Assemble, ShadowDoc, SameHeads,
      SameLists, AllAgree, OrderLike, Reflect, DistinctIds;
    LikeLength(tables, base, st, w.order);
    ShadowReflects(tables, base, st, w);
    ShadowHeads(base, st, w.order);
    IdsAlike(ShadowDoc(base, st, w.order), Assemble(base, st));
    DistinctAlike(ShadowDoc(base, st, w.order), Assemble(base, st));
    ShadowLists(tables, base, st, w.order);
    SettleIsStructure(tables, Undeleted(w, 0) + NodesOf(tables, st.appended), ShadowDoc(base, st, w.order));
    IndexAlike(tables, ShadowDoc(base, st, w.order), Assemble(base, st));
  }

  lemma DistinctAlike(a: Doc, b: Doc)
    requires Ids(a) == Ids(b)
    ensures DistinctIds(a) <==> DistinctIds(b)
  {
  }

  lemma InStepLike(tables: Tables, base: Doc, st: State, w: Work, done: seq<ResolvedRecord>)
    requires InStep(tables, base, st, w, done)
    ensures OrderLike(tables, base, st, w.order) && w.deleted == st.deleted
  {
    hide StandsAt, PayloadOn, TypeCode, Standing;
    forall i | 0 <= i < |base|
      ensures w.order[i].id == Standing(base, st, i).id && w.order[i].ty == TypeCode(tables, Standing(base, st, i).ty)
    {
      StandsLike(tables, base, st, w.order[i], i, PayloadOn(done, i));
    }
  }

  /** One position agrees exactly when its lists line up. */
  lemma StandsAgree(
      tables: Tables, base: Doc, st: State, node: Node, i: nat, payload: Option<RecordPayload>, kept: set<Uuid>)
    requires i < |base| && StandsAt(tables, base, st, node, i, payload)
    ensures
      PayloadLines(base, kept, base[i], payload) <==> (i in st.deleted || Agrees(kept, node, Standing(base, st, i)))
    ensures i in st.deleted <==> payload == Some(DeletePayload)
  {
    hide NamedReplay, TypeCode, DistinctKeys, Pick, ListIds, PatchNodes, ElementLines, HeldNode;
    var e := Standing(base, st, i);
    match payload
    case None =>
      NoOps(base[i].props, []);
      NoPatch(HeldNode(tables, base, base[i]));
      NodeAgrees(tables, base, kept, base[i], base[i], []);
    case Some(PatchPayload(ops)) => NodeAgrees(tables, base, kept, base[i], e, ops);
    case Some(_) =>
  }

  lemma NoPatch(node: Node)
    ensures PatchNodes(node, []) == Some(node)
  {
  }

  /** What the assembled payload holds is what the records keep. */
  lemma KeptAssembled(tables: Tables, base: Doc, st: State, w: Work, acts: Acts, recs: seq<ResolvedRecord>)
    requires InStep(tables, base, st, w, recs)
    requires st.appended == CreatedBy(acts) && CreatedIds(recs) == Ids(CreatedBy(acts))
    ensures Elems(Ids(Assemble(base, st))) == ResultIds(base, recs)
  {
    hide StandsAt, PayloadOn, Standing, Survivors, Surviving, CreatedBy, CreatedIds;
    SurvivorsAt(base, st, 0);
    var at, left := Surviving(st.deleted, |base|, 0), Survivors(base, st, 0);
    IdsAppend(left, st.appended);
    forall i | 0 <= i < |base|
      ensures (i in st.deleted <==> PayloadOn(recs, i) == Some(DeletePayload)) && Standing(base, st, i).id == base[i].id
    {
      StandsAgree(tables, base, st, w.order[i], i, PayloadOn(recs, i), {});
      StandsNamed(tables, base, st, w.order[i], i, PayloadOn(recs, i));
    }
    forall u | u in Ids(left) ensures u in ResultIds(base, recs) {
      var j :| 0 <= j < |left| && Ids(left)[j] == u;
      assert at[j] in at;
    }
    forall i | 0 <= i < |base| && PayloadOn(recs, i) != Some(DeletePayload) ensures base[i].id in Ids(left) {
      assert i in at;
      var j :| 0 <= j < |at| && at[j] == i;
      assert Ids(left)[j] == base[i].id;
    }
  }

  lemma StandsNamed(tables: Tables, base: Doc, st: State, node: Node, i: nat, payload: Option<RecordPayload>)
    requires i < |base| && StandsAt(tables, base, st, node, i, payload)
    ensures Standing(base, st, i).id == base[i].id
  {
  }

  lemma AgreeLines(tables: Tables, base: Doc, st: State, w: Work, recs: seq<ResolvedRecord>)
    requires InStep(tables, base, st, w, recs)
    ensures AllAgree(base, st, w.order, ResultIds(base, recs)) <==> ListsLineUp(base, recs)
  {
    hide StandsAt, PayloadOn, Standing, ResultIds, Agrees, PayloadLines;
    forall i | 0 <= i < |base|
      ensures
        PayloadLines(base, ResultIds(base, recs), base[i], PayloadOn(recs, i))
        <==> (i in st.deleted || Agrees(ResultIds(base, recs), w.order[i], Standing(base, st, i)))
    {
      StandsAgree(tables, base, st, w.order[i], i, PayloadOn(recs, i), ResultIds(base, recs));
    }
  }

  /** A list that structure refuses to splice does not fit. */
  lemma RefusedFits(tables: Tables, base: Doc, recs: seq<ResolvedRecord>, i: nat)
    requires i < |base| && Refuses(tables, base, i, PayloadOn(recs, i))
    ensures !ListsFit(base, recs)
  {
    hide PayloadOn, NamedReplay, DistinctKeys, PatchNodes, PayloadFits, HeldNode;
    NodeFits(tables, base, base[i], PayloadOn(recs, i).value.ops);
    assert !PayloadFits(base, base[i], PayloadOn(recs, i));
  }

  /** Where the two runs end in step, every splice fitted. */
  lemma StandingFits(tables: Tables, base: Doc, st: State, w: Work, recs: seq<ResolvedRecord>)
    requires InStep(tables, base, st, w, recs)
    ensures ListsFit(base, recs)
  {
    hide PayloadOn, NamedReplay, DistinctKeys, PatchNodes, HeldNode, Standing;
    forall i | 0 <= i < |base| ensures PayloadFits(base, base[i], PayloadOn(recs, i)) {
      assert StandsAt(tables, base, st, w.order[i], i, PayloadOn(recs, i));
      if PayloadOn(recs, i).Some? && PayloadOn(recs, i).value.PatchPayload? {
        NodeFits(tables, base, base[i], PayloadOn(recs, i).value.ops);
      }
    }
  }

  /** A list that structure refuses to splice does not line up. */
  lemma RefusedLines(tables: Tables, base: Doc, recs: seq<ResolvedRecord>, i: nat)
    requires i < |base| && Refuses(tables, base, i, PayloadOn(recs, i))
    ensures !ListsLineUp(base, recs)
  {
    hide PayloadOn, ResultIds, NamedReplay, DistinctKeys, PatchNodes, ElementLines, HeldNode;
    var ops := PayloadOn(recs, i).value.ops;
    var after := base[i].(props := NamedReplay(base[i].props, ops).value);
    NodeAgrees(tables, base, ResultIds(base, recs), base[i], after, ops);
    assert !PayloadLines(base, ResultIds(base, recs), base[i], PayloadOn(recs, i));
  }

  /**
    The transition's outcome on records that say what the applier's acts say: it indexes the
    applied state exactly when the records line up, and is refused exactly where a splice
    does not fit.
   */
  lemma AdvancedIsApplied(
      tables: Tables, base: Doc, acts: Acts, recs: seq<ResolvedRecord>, st: State, implied: bool, exceptions: Pairs)
    requires DistinctIds(base) && SoundState(Ids(base), st)
    requires AllSay(tables, base, acts, recs) && Carried(acts) && Run(false, Ids(base), INITIAL, acts) == Some(st)
    ensures WellFormed(Structure(tables, base))
    ensures
      var w := AdvanceAll(tables, Work(BaseNodes(Structure(tables, base)), {}, []), recs);
      var value := Applied(tables, base, st, implied, exceptions);
      && (w.Some? <==> ListsFit(base, recs))
      && (w.None? ==> !LinesUp(base, recs))
      && (w.Some? ==>
            && |w.value.order| == |base|
            && var nodes := Undeleted(w.value, 0) + w.value.appended;
               && (NoDup(CreatedIds(recs)) ==> |nodes| == |value|)
               && (LinesUp(base, recs) <==> |nodes| == |value| && Settle(nodes) == Structure(tables, value)))
  {
    hide Structure, SoundState, AllSay, Carried, Run, AdvanceAll, Applied, Settle, BaseNodes, Assemble, Survivors,
      Undeleted, CreatedBy, DistinctIds, Append, AppendAll, NodeOf, NodesOf, InStep, Refuses, PayloadOn, ListsLineUp,
      ListsFit, ResultIds, AllAgree, OrderLike, NoDup, CreatedIds, Canonical;
    StartsInStep(tables, base);
    var w0 := Work(BaseNodes(Structure(tables, base)), {}, []);
    RunInStep(tables, base, INITIAL, w0, [], acts, recs);
    assert [] + recs == recs;
    var moved := AdvanceAll(tables, w0, recs);
    if moved.None? {
      var i :| 0 <= i < |base| && Refuses(tables, base, i, PayloadOn(recs, i));
      RefusedLines(tables, base, recs, i);
      RefusedFits(tables, base, recs, i);
    } else {
      var w := moved.value;
      StandingFits(tables, base, st, w, recs);
      assert [] + NodesOf(tables, CreatedBy(acts)) == NodesOf(tables, CreatedBy(acts));
      OutcomeLines(tables, base, acts, recs, st, w, implied, exceptions);
    }
  }

  lemma OutcomeLines(
      tables: Tables, base: Doc, acts: Acts, recs: seq<ResolvedRecord>, st: State, w: Work, implied: bool,
      exceptions: Pairs)
    requires DistinctIds(base) && SoundState(Ids(base), st)
    requires AllSay(tables, base, acts, recs) && Carried(acts) && Run(false, Ids(base), INITIAL, acts) == Some(st)
    requires InStep(tables, base, st, w, recs) && w.appended == NodesOf(tables, CreatedBy(acts))
    ensures |w.order| == |base|
    ensures
      var value, nodes := Applied(tables, base, st, implied, exceptions), Undeleted(w, 0) + w.appended;
      && (NoDup(CreatedIds(recs)) ==> |nodes| == |value|)
      && (LinesUp(base, recs) <==> |nodes| == |value| && Settle(nodes) == Structure(tables, value))
  {
    hide Structure, SoundState, AllSay, Carried, Run, Applied, Settle, Assemble, Survivors, Undeleted, CreatedBy,
      DistinctIds, Append, AppendAll, NodeOf, NodesOf, InStep, ListsLineUp, ResultIds, AllAgree, OrderLike, NoDup,
      CreatedIds, Canonical;
    InStepLike(tables, base, st, w, recs);
    LikeLength(tables, base, st, w.order);
    RunAppends(base, INITIAL, acts);
    NoIds();
    AppendAllDistinct([], CreatedBy(acts));
    assert [] + CreatedBy(acts) == CreatedBy(acts);
    CreatedIdsSay(tables, base, acts, recs);
    AppliedStructure(tables, base, st, implied, exceptions);
    AssembleLength(base, st);
    LeftLength(tables, base, st, w);
    if NoDup(CreatedIds(recs)) {
      SettledAgree(tables, base, st, w);
      KeptAssembled(tables, base, st, w, acts, recs);
      AgreeLines(tables, base, st, w, recs);
    }
  }

  lemma NoIds()
    ensures NoDup(Ids([]))
  {
  }

  lemma LikeLength(tables: Tables, base: Doc, st: State, order: seq<Node>)
    requires OrderLike(tables, base, st, order)
    ensures |order| == |base|
  {
  }

  lemma LeftLength(tables: Tables, base: Doc, st: State, w: Work)
    requires OrderLike(tables, base, st, w.order) && w.deleted == st.deleted
    ensures |Undeleted(w, 0)| == |Survivors(base, st, 0)|
  {
    hide NodeOf, Relisted, Standing, Undeleted, NodesOf, Survivors, Shadow, OrderLike;
    LikeLength(tables, base, st, w.order);
    ShadowReflects(tables, base, st, w);
    ShadowAt(base, st, w.order);
    AssembleLength(base, st);
  }
}
