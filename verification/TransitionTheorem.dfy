/** The index transition commutes with applying: the theorem. */
module TransitionTheorem {
  import opened Wrappers
  import opened Seqs
  import opened Cbor
  import opened Model
  import opened Owners
  import opened Values
  import opened Records
  import opened Sections
  import opened Snapshot
  import opened Patch
  import opened Preorder
  import opened Order
  import opened CanonDoc
  import opened Acts
  import opened Delta
  import opened Apply
  import opened DeltaRecords
  import opened DeltaRoundTrip
  import opened DeltaTheorems
  import opened Portable
  import opened Lenient
  import opened Index
  import opened TransitionCommutes
  import opened OpenLists
  import opened TransitionRuns

  // ---- the payload, section by section ---------------------------------------------

  lemma GatesAgree(flags: nat, scheme: nat, arity: nat)
    requires GateDelta(flags, scheme, arity, false).Ok? && !Bit(flags, FLAG_PORTABLE)
    ensures GateResolve(flags, arity, true) == Ok(true)
  {
    hide Bit;
  }

  lemma HeadersAgree(ts: Toks)
    requires ReadHeader(ts, false).Ok? && !ReadHeader(ts, false).value.0.portable
    ensures ResolveHeader(ts, true).Ok?
    ensures
      var (h, rest) := ReadHeader(ts, false).value;
      ResolveHeader(ts, true).value.0 == h && ResolveHeader(ts, true).value.2 == rest
  {
    hide Bit, GateDelta, GateResolve, ReadDigest, ReadClaims, ParseHeader;
    var (arity, ts1) := ReadArray(ts).value;
    var (word, _) := ReadUint(ts1).value;
    var (scheme, flags) := ParseHeader(word).value;
    GatesAgree(flags, scheme, arity);
  }

  /** What an accepted strict body holds. */
  lemma BodyParts(hash: Hash, tables: Tables, ts: Toks, base: Doc, h: Header, matched: bool)
    returns (created: seq<Uuid>, s: Space, ts4: Toks, n: nat, acts: Acts, ts5: Toks, st: State)
    requires DistinctIds(base) && !h.portable && ApplyBody(hash, tables, ts, base, h, matched).Ok?
    ensures ReadUint(ts).Ok? && ReadUint(ts).value.0 == |base|
    ensures ReadIds(ReadUint(ts).value.1).Ok? && s == Space(Ids(base), created, ReadIds(ReadUint(ts).value.1).value.0)
    ensures ReadIds(ReadIds(ReadUint(ts).value.1).value.1).Ok?
    ensures ReadIds(ReadIds(ReadUint(ts).value.1).value.1).value.0 == created
    ensures ReadArray(ReadIds(ReadIds(ReadUint(ts).value.1).value.1).value.1) == Ok((n, ts4)) && n <= Remaining(ts4)
    ensures ReadActs(ts4, s, tables, base, false, created, 0, n) == Ok((acts, |created|, ts5))
    ensures Run(false, Ids(base), INITIAL, acts) == Some(st) && SoundState(Ids(base), st)
    ensures ApplyBody(hash, tables, ts, base, h, matched) == Finish(hash, tables, ts5, base, st, h, matched)
  {
    hide ReadUint, ReadIds, ReadArray, ReadActs, Run, EncAll, Finish, DistinctIds, INITIAL;
    var ts1 := ReadUint(ts).value.1;
    var (exts, ts2) := ReadIds(ts1).value;
    var (c, ts3) := ReadIds(ts2).value;
    created := c;
    s := Space(Ids(base), created, exts);
    n, ts4 := ReadArray(ts3).value.0, ReadArray(ts3).value.1;
    var (read, _, rest) := ReadActs(ts4, s, tables, base, false, created, 0, n).value;
    acts, ts5 := read, rest;
    st := Run(false, Ids(base), INITIAL, acts).value;
    InitialSound(Ids(base));
    RunSound(false, Ids(base), INITIAL, acts);
  }

  /** Exceptions name shipped acts exactly where they name shipped elements. */
  lemma ShippedElements(tables: Tables, base: Doc, acts: Acts, recs: seq<ResolvedRecord>, pairs: Pairs)
    requires AllSay(tables, base, acts, recs) && NameShipped(pairs, Shipped(acts))
    ensures NameElements(pairs, recs)
  {
    forall i | 0 <= i < |pairs| ensures pairs[i].0 < |recs| && recs[pairs[i].0].payload.ElementPayload? {
      assert Says(tables, base, acts[pairs[i].0], recs[pairs[i].0]);
    }
  }

  lemma StepShips(ids: seq<Uuid>, st: State, act: Act)
    requires Step(false, ids, st, act).Some?
    ensures Step(false, ids, st, act).value.shipped == st.shipped + [ShippedOf(act)]
  {
    hide Append, IndexOf;
  }

  lemma {:induction false} RunShips(ids: seq<Uuid>, st: State, acts: Acts)
    requires Run(false, ids, st, acts).Some?
    ensures Run(false, ids, st, acts).value.shipped == st.shipped + Shipped(acts)
    decreases |acts|
  {
    hide Step, Shipped, ShippedOf;
    ShippedHead(acts);
    if acts != [] {
      StepShips(ids, st, acts[0]);
      RunShips(ids, Step(false, ids, st, acts[0]).value, acts[1..]);
    }
  }

  lemma ShippedHead(acts: Acts)
    ensures acts == [] ==> forall s: seq<Option<Uuid>> {:trigger s + Shipped(acts)} :: s + Shipped(acts) == s
    ensures
      acts != [] ==>
        forall s: seq<Option<Uuid>> {:trigger s + Shipped(acts)} ::
          s + Shipped(acts) == s + [ShippedOf(acts[0])] + Shipped(acts[1..])
  {
    hide ShippedOf;
    if acts != [] {
      assert Shipped(acts) == [ShippedOf(acts[0])] + Shipped(acts[1..]);
    }
  }

  /** The acts of a strict body. */
  function StrictActs(ts: Toks, tables: Tables, base: Doc): Result<Acts> {
    var (_, ts1) :- ReadUint(ts);
    var (exts, ts2) :- ReadIds(ts1);
    var (created, ts3) :- ReadIds(ts2);
    var (n, ts4) :- ReadArray(ts3);
    var (acts, _, _) :- ReadActs(ts4, Space(Ids(base), created, exts), tables, base, false, created, 0, n);
    Ok(acts)
  }

  /** The records of a strict body, resolved through the base's index. */
  function StrictRecords(ts: Toks, tables: Tables, base: Doc): Result<seq<ResolvedRecord>> {
    var (_, ts1) :- ReadUint(ts);
    var (exts, ts2) :- ReadIds(ts1);
    var (created, ts3) :- ReadIds(ts2);
    var (n, ts4) :- ReadArray(ts3);
    var (recs, _, _) :-
      ResolveRecords(ts4, Space(Ids(base), created, exts), tables, Some(Structure(tables, base)), created, 0, n);
    Ok(recs)
  }

  /** An accepted strict body resolves through the base's index, record by record alike. */
  lemma BodyResolves(
      hash: Hash, tables: Tables, ts: Toks, base: Doc, h: Header, matched: bool, claims: Pairs)
    returns (acts: Acts, recs: seq<ResolvedRecord>, st: State, exceptions: Pairs)
    requires ValidTables(tables) && AllKnown(tables, base)
    requires DistinctIds(base) && !h.portable && ApplyBody(hash, tables, ts, base, h, matched).Ok?
    ensures StrictActs(ts, tables, base) == Ok(acts) && AllSay(tables, base, acts, recs) && Carried(acts)
    ensures StrictRecords(ts, tables, base) == Ok(recs)
    ensures Run(false, Ids(base), INITIAL, acts) == Some(st) && SoundState(Ids(base), st)
    ensures ApplyBody(hash, tables, ts, base, h, matched).value.0 == Applied(tables, base, st, h.implied, exceptions)
    ensures
      ResolveBody(ts, tables, Some(Structure(tables, base)), h, claims)
      == Ok(Resolved(h.portable, h.baseDigest, h.resultDigest, claims,
              ApplyBody(hash, tables, ts, base, h, matched).value.1.units, WithBits(recs, exceptions)))
  {
    hide ValidTables, AllKnown, ReadUint, ReadIds, ReadArray, ReadActs, Run, EncAll, Finish, ApplyBody, DistinctIds,
      INITIAL, SoundState, Applied, ReadIf, Structure, NameShipped, NameElements, AllSay, ResolveRecords;
    var created, s, ts4, n, read, ts5, state := BodyParts(hash, tables, ts, base, h, matched);
    acts, st := read, state;
    StructureIds(tables, base);
    ReadActsSay(ts4, s, tables, base, created, 0, n);
    recs := ResolveRecords(ts4, s, tables, Some(Structure(tables, base)), created, 0, n).value.0;
    FinishParts(hash, tables, ts5, base, st, h, matched);
    exceptions := ReadIf(h.implied, ts5, OwnerBits).value.0;
    RunShips(Ids(base), INITIAL, acts);
    NoneShipped(acts);
    ShippedElements(tables, base, acts, recs, exceptions);
  }

  lemma NoneShipped(acts: Acts)
    ensures INITIAL.shipped + Shipped(acts) == Shipped(acts)
  {
  }

  // ---- the theorem -----------------------------------------------------------------

  lemma {:induction false} WriteKnown(tables: Tables, sp: Spelling, doc: Doc, i: nat)
    requires i < |doc| && WriteElements(tables, sp, doc, false, 0).Ok?
    ensures Known(tables, doc[i].ty)
  {
    hide WriteElements, WriteElement, DerivationFor, KeysKnown;
    ElementsWritten(tables, sp, doc, false, 0, i);
    WrittenKeys(tables, sp, doc[i], DerivationFor(doc, false, doc[i]));
  }

  lemma DigestKnown(hash: Hash, tables: Tables, doc: Doc)
    requires Digest(hash, tables, doc).Ok?
    ensures AllKnown(tables, doc)
  {
    hide WriteElements, SnapshotTokens, BuildInterner, DocRefs, NoDup, ValidUnits, TypeCode;
    var sp := Wire(BuildInterner(Ids(doc), DocRefs(tables, doc)));
    forall i | 0 <= i < |doc| ensures Known(tables, doc[i].ty) {
      WriteKnown(tables, sp, doc, i);
    }
  }

  lemma ClosedCanonical(doc: Doc)
    requires DistinctIds(doc) && ClosedOwnership(doc)
    ensures ClosedOwnership(Canonical(doc))
  {
    hide Canon, GraphOf;
    var c := Canonical(doc);
    forall e | e in c ensures ElementClosed(c, e) {
      assert e in doc;
      assert ElementClosed(doc, e);
    }
  }

  lemma SettleLength(nodes: seq<Node>)
    ensures |Settle(nodes).ids| == |nodes|
  {
    hide NodeWalk;
  }

  lemma StructureLength(tables: Tables, doc: Doc)
    ensures |Structure(tables, doc).ids| == |doc|
  {
  }

  lemma FromCanonical(tables: Tables, value: Doc)
    requires DistinctIds(value) && Canonical(value) == value && AllKnown(tables, value)
    ensures
      FromCompact(tables, value)
      == if |value| > ADJACENCY_END then Err(Malformed) else Ok(Structure(tables, value))
  {
    hide Canonical, Structure;
  }

  /** A strict delta the resolver and the applier both take, seen from both sides. */
  lemma TransitionOfBody(
      hash: Hash, tables: Tables, ts: Toks, base: Doc, h: Header, matched: bool, claims: Pairs)
    requires ValidTables(tables) && AllKnown(tables, base)
    requires DistinctIds(base) && !h.portable && ApplyBody(hash, tables, ts, base, h, matched).Ok?
    ensures StrictActs(ts, tables, base).Ok?
    ensures
      var value, index := ApplyBody(hash, tables, ts, base, h, matched).value.0, Structure(tables, base);
      var r := ResolveBody(ts, tables, Some(index), h, claims);
      && r.Ok? && WellFormed(index)
      && r.value.baseDigest == h.baseDigest && r.value.resultDigest == h.resultDigest && r.value.claims == claims
      && r.value.units == ApplyBody(hash, tables, ts, base, h, matched).value.1.units && !r.value.portable
      && CreatedIds(r.value.records) == Ids(CreatedBy(StrictActs(ts, tables, base).value))
      && StrictRecords(ts, tables, base).Ok? && SameRecords(r.value.records, StrictRecords(ts, tables, base).value)
      && (ClosedOwnership(base) ==> ListsLineUp(base, r.value.records))
      && (DistinctIds(value) && Canonical(value) == value && AllKnown(tables, value) ==>
            var moved := Transition(tables, r.value, index);
            && (NoDup(CreatedIds(r.value.records)) ==>
                  (moved.Ok? <==> ListsFit(base, r.value.records) && |value| <= ADJACENCY_END))
            && (LinesUp(base, r.value.records) ==> moved == FromCompact(tables, value))
            && (moved.Ok? && moved == FromCompact(tables, value) ==> LinesUp(base, r.value.records)))
  {
    hide ValidTables, AllKnown, ClosedOwnership, ApplyBody, DistinctIds, Applied, Structure, Settle, Run, AllSay,
      Carried, SoundState, ResolveBody, Canonical, AdvanceAll, BaseNodes, INITIAL, FromCompact, WellFormed, NoDup,
      StrictActs, CreatedBy, StrictRecords, LinesUp, ListsLineUp, ListsFit, CreatedIds, Transition, SameRecords;
    var acts, recs, st, exceptions := BodyResolves(hash, tables, ts, base, h, matched, claims);
    var index := Structure(tables, base);
    var r := ResolveBody(ts, tables, Some(index), h, claims).value;
    SameButBits(recs, exceptions);
    BitsKeepIds(WithBits(recs, exceptions), recs);
    CreatedIdsSay(tables, base, acts, recs);
    BitsKeepLines(base, r.records, recs);
    StructureWellFormed(tables, base);
    if ClosedOwnership(base) {
      ClosedLineUp(tables, base, acts, recs);
    }
    TransitionOfRecords(tables, base, acts, recs, st, h.implied, exceptions, r);
  }

  lemma SameButBits(recs: seq<ResolvedRecord>, exceptions: Pairs)
    ensures SameRecords(WithBits(recs, exceptions), recs)
  {
  }

  lemma TransitionOfRecords(
      tables: Tables, base: Doc, acts: Acts, recs: seq<ResolvedRecord>, st: State, implied: bool, exceptions: Pairs,
      delta: Resolved)
    requires DistinctIds(base) && SoundState(Ids(base), st)
    requires AllSay(tables, base, acts, recs) && Carried(acts) && Run(false, Ids(base), INITIAL, acts) == Some(st)
    requires !delta.portable && delta.records == WithBits(recs, exceptions)
    ensures WellFormed(Structure(tables, base))
    ensures
      var value := Applied(tables, base, st, implied, exceptions);
      DistinctIds(value) && Canonical(value) == value && AllKnown(tables, value) ==>
        var moved := Transition(tables, delta, Structure(tables, base));
        && (NoDup(CreatedIds(recs)) ==> (moved.Ok? <==> ListsFit(base, recs) && |value| <= ADJACENCY_END))
        && (LinesUp(base, recs) ==> moved == FromCompact(tables, value))
        && (moved.Ok? && moved == FromCompact(tables, value) ==> LinesUp(base, recs))
  {
    hide AllKnown, DistinctIds, Applied, Structure, Settle, Run, AllSay, Carried, SoundState, Canonical, AdvanceAll,
      BaseNodes, INITIAL, FromCompact, WellFormed, LinesUp, ListsFit, Undeleted, NoDup, CreatedIds;
    AdvancedIsApplied(tables, base, acts, recs, st, implied, exceptions);
    var value, index := Applied(tables, base, st, implied, exceptions), Structure(tables, base);
    var w0 := Work(BaseNodes(index), {}, []);
    BitsAdvance(tables, w0, recs, exceptions);
    var w := AdvanceAll(tables, w0, recs);
    if w.Some? {
      SettleLength(Undeleted(w.value, 0) + w.value.appended);
    }
    StructureLength(tables, value);
    if DistinctIds(value) && Canonical(value) == value && AllKnown(tables, value) {
      FromCanonical(tables, value);
    }
  }

  /** Over closed lists every record the applier takes lines up. */
  lemma ClosedLineUp(tables: Tables, base: Doc, acts: Acts, recs: seq<ResolvedRecord>)
    requires ClosedOwnership(base) && AllSay(tables, base, acts, recs)
    ensures ListsLineUp(base, recs)
  {
    hide Says, PayloadOn, ElementClosed, PayloadLines, ResultIds, NamedReplay, DistinctKeys;
    forall i | 0 <= i < |base| ensures PayloadLines(base, ResultIds(base, recs), base[i], PayloadOn(recs, i)) {
      if PayloadOn(recs, i).Some? {
        PayloadFrom(recs, i);
        var k :| 0 <= k < |recs| && recs[k].target.ToBase? && recs[k].target.index == i
                 && PayloadOn(recs, i) == Some(recs[k].payload);
        assert Says(tables, base, acts[k], recs[k]);
        SaysReplay(tables, base, acts[k], recs[k]);
      }
      assert ElementClosed(base, base[i]);
      ClosedLines(base, ResultIds(base, recs), base[i], PayloadOn(recs, i));
    }
  }

  lemma SaysReplay(tables: Tables, base: Doc, a: Act, rec: ResolvedRecord)
    requires Says(tables, base, a, rec) && rec.target.ToBase?
    ensures rec.target.index < |base|
    ensures
      rec.payload.PatchPayload? ==>
        DistinctKeys(rec.payload.ops) && NamedReplay(base[rec.target.index].props, rec.payload.ops).Some?
  {
    hide NamedReplay, DistinctKeys;
  }

  lemma {:induction false} AdvanceIgnoresBits(
      tables: Tables, w: Work, recs: seq<ResolvedRecord>, other: seq<ResolvedRecord>)
    requires |recs| == |other|
    requires forall i :: 0 <= i < |recs| ==> recs[i].target == other[i].target && recs[i].payload == other[i].payload
    ensures AdvanceAll(tables, w, recs) == AdvanceAll(tables, w, other)
    decreases |recs|
  {
    hide PatchNodes, ElementNode;
    if recs != [] {
      var next := Advance(tables, w, recs[0]);
      assert Advance(tables, w, other[0]) == next;
      if next.Some? {
        AdvanceIgnoresBits(tables, next.value, recs[1..], other[1..]);
      }
    }
  }

  lemma BitsAdvance(tables: Tables, w: Work, recs: seq<ResolvedRecord>, pairs: Pairs)
    ensures AdvanceAll(tables, w, WithBits(recs, pairs)) == AdvanceAll(tables, w, recs)
  {
    hide AdvanceAll;
    AdvanceIgnoresBits(tables, w, WithBits(recs, pairs), recs);
  }

  /**
    The index transition commutes with applying. Every strict payload the applier takes
    resolves through the base's index, and transitioning that index from structure alone gives
    the index of the applied state, order and adjacency included, if and only if the records
    line up: no identity is created twice, and every ownership list that survives and is not
    shipped whole comes out alike. Over a base whose lists name only its own elements the
    lists always do. It refuses such a payload exactly where a splice runs past the entries
    the index holds; elsewhere, out of line, it answers with another index.
   */
  lemma TransitionCommutesWithApply(hash: Hash, tables: Tables, ts: Toks, base0: Doc)
    requires ValidTables(tables) && DistinctIds(base0) && FromCompact(tables, base0).Ok?
    requires ApplyDelta(hash, tables, ts, base0, false).Ok? && !ReadHeader(ts, false).value.0.portable
    ensures
      var value, index := ApplyDelta(hash, tables, ts, base0, false).value.0, FromCompact(tables, base0).value;
      var r, base := Resolve(tables, ts, Some(index)), Canonical(base0);
      && DistinctIds(value) && r.Ok? && WellFormed(index)
      && (ClosedOwnership(base0) ==> ListsLineUp(base, r.value.records))
      && var moved := Transition(tables, r.value, index);
         && (NoDup(CreatedIds(r.value.records)) ==>
               (moved.Ok? <==> ListsFit(base, r.value.records) && |value| <= ADJACENCY_END))
         && (LinesUp(base, r.value.records) ==> moved == FromCompact(tables, value))
         && (moved.Ok? && moved == FromCompact(tables, value) ==> LinesUp(base, r.value.records))
  {
    hide ValidTables, AllKnown, ClosedOwnership, ApplyBody, ApplyDelta, DistinctIds, Structure, ResolveBody, Canonical,
      WellFormed, NoDup, ReadHeader, ResolveHeader, Digest, Transition, LinesUp, ListsLineUp, ListsFit, CreatedIds;
    var base := Canonical(base0);
    ApplyUnfolds(hash, tables, ts, base0, false);
    ApplyIsCanonical(hash, tables, ts, base0, false);
    var (h, rest) := ReadHeader(ts, false).value;
    var value := ApplyDelta(hash, tables, ts, base0, false).value.0;
    DigestKnown(hash, tables, value);
    if ClosedOwnership(base0) {
      ClosedCanonical(base0);
    }
    HeadersAgree(ts);
    TransitionOfBody(hash, tables, rest, base, h, true, ResolveHeader(ts, true).value.1);
  }

  /** The resolved records of an accepted strict payload, and what they create. */
  lemma ResolvedRecords(hash: Hash, tables: Tables, ts: Toks, base0: Doc)
    requires ValidTables(tables) && DistinctIds(base0) && FromCompact(tables, base0).Ok?
    requires ApplyDelta(hash, tables, ts, base0, false).Ok? && !ReadHeader(ts, false).value.0.portable
    ensures
      var acts := StrictActs(ReadHeader(ts, false).value.1, tables, Canonical(base0));
      var r := Resolve(tables, ts, Some(FromCompact(tables, base0).value));
      var recs := StrictRecords(ReadHeader(ts, false).value.1, tables, Canonical(base0));
      && acts.Ok? && r.Ok? && CreatedIds(r.value.records) == Ids(CreatedBy(acts.value))
      && recs.Ok? && SameRecords(r.value.records, recs.value)
  {
    hide ValidTables, AllKnown, ClosedOwnership, ApplyBody, ApplyDelta, DistinctIds, Structure, ResolveBody, Canonical,
      WellFormed, NoDup, ReadHeader, ResolveHeader, Digest, Transition, StrictActs, CreatedBy, CreatedIds, LinesUp,
      ListsLineUp, ListsFit, StrictRecords, SameRecords;
    var base := Canonical(base0);
    ApplyUnfolds(hash, tables, ts, base0, false);
    var (h, rest) := ReadHeader(ts, false).value;
    HeadersAgree(ts);
    TransitionOfBody(hash, tables, rest, base, h, true, ResolveHeader(ts, true).value.1);
  }

  /**
    What a resolved delta says of itself, for every strict payload the applier takes: the
    digest of the base it was applied to, the digest of what that made, and the units the
    applier reports.
   */
  lemma ResolvedSays(hash: Hash, tables: Tables, ts: Toks, base0: Doc)
    requires ValidTables(tables) && DistinctIds(base0) && FromCompact(tables, base0).Ok?
    requires ApplyDelta(hash, tables, ts, base0, false).Ok? && !ReadHeader(ts, false).value.0.portable
    ensures
      var (value, report) := ApplyDelta(hash, tables, ts, base0, false).value;
      var r := Resolve(tables, ts, Some(FromCompact(tables, base0).value));
      && r.Ok? && !r.value.portable && DistinctIds(value)
      && Digest(hash, tables, Canonical(base0)) == Ok(r.value.baseDigest)
      && Digest(hash, tables, Canonical(value)) == Ok(r.value.resultDigest)
      && r.value.units == report.units
  {
    hide ValidTables, AllKnown, ClosedOwnership, ApplyBody, ApplyDelta, DistinctIds, Structure, ResolveBody, Canonical,
      WellFormed, NoDup, ReadHeader, ResolveHeader, Digest, Transition, StrictActs, CreatedBy, CreatedIds, LinesUp,
      ListsLineUp, ListsFit, StrictRecords, SameRecords;
    var base := Canonical(base0);
    ApplyUnfolds(hash, tables, ts, base0, false);
    ApplyIsCanonical(hash, tables, ts, base0, false);
    var (h, rest) := ReadHeader(ts, false).value;
    HeadersAgree(ts);
    TransitionOfBody(hash, tables, rest, base, h, true, ResolveHeader(ts, true).value.1);
  }
}
