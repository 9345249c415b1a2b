/**
  Accepted payloads on which structure and content part: answered differently, refused, and one
  identity made twice.
 */
module OpenPayloads {
  import opened Wrappers
  import opened Seqs
  import opened Cbor
  import opened Model
  import opened Values
  import opened Records
  import opened Snapshot
  import opened Patch
  import opened Sections
  import opened Owners
  import opened CanonDoc
  import opened Acts
  import opened Delta
  import opened Apply
  import opened Transcode
  import opened StreamWrite
  import opened Encodable
  import opened Diffable
  import opened DeltaTheorems
  import opened Index
  import opened TransitionCommutes
  import opened OpenLists
  import opened TransitionRuns
  import opened TransitionTheorem
  import opened EncodedLines

  // ---- one metaclass, one list -----------------------------------------------------

  const OWNED: Field := Field(OwnedRelationship, KRefList, [], NULL_DEFAULT)
  const TYPES: Tables := [Metaclass("P", [OWNED])]
  const PLAIN: Options := Options(false, [], [])

  /** An element whose one property is its list of owned relationships. */
  function Part(id: Uuid, items: seq<Value>): Element {
    Element(id, "P", map[OwnedRelationship := Arr(items)])
  }

  lemma TypesValid()
    ensures ValidTables(TYPES) && OwnersAreRefs(TYPES)
    ensures TypeCode(TYPES, "P") == 0 && Known(TYPES, "P") && FieldsOf(TYPES, "P") == [OWNED]
  {
    assert |FieldNames([OWNED])| == 1;
  }

  ghost predicate IsPart(e: Element) {
    && e.ty == "P" && e.props.Keys == {OwnedRelationship} && e.props[OwnedRelationship].Arr?
    && |e.props[OwnedRelationship].items| <= 2
    && forall i :: 0 <= i < |e.props[OwnedRelationship].items| ==>
         Encodable.Nameable(e.props[OwnedRelationship].items[i])
  }

  lemma PartEncodes(e: Element)
    requires IsPart(e)
    ensures Encodes(TYPES, e) && ElementFits(e)
  {
    TypesValid();
    assert Ordinal([OWNED], OwnedRelationship) == 0;
    assert forall key :: key in e.props ==> key in e.props.Keys;
  }

  ghost predicate AllParts(doc: Doc) {
    forall e :: e in doc ==> IsPart(e)
  }

  lemma PartsEncode(doc: Doc)
    requires AllParts(doc)
    ensures AllEncode(TYPES, doc) && DocFits(doc) && AllKnown(TYPES, doc)
  {
    hide IsPart, Encodes, ElementFits;
    TypesValid();
    forall e | e in doc ensures Encodes(TYPES, e) && ElementFits(e) && e.ty == "P" {
      assert IsPart(e);
      PartEncodes(e);
      PartType(e);
    }
  }

  lemma PartType(e: Element)
    requires IsPart(e)
    ensures e.ty == "P"
  {
  }

  lemma NoExtras(target: Doc, result: Doc)
    ensures Extras(target, result, PLAIN).Ok?
  {
  }

  /** The encoder takes any two states of such elements, and the base has an index. */
  lemma PartsDiff(hash: Hash, base0: Doc, target0: Doc)
    requires DistinctIds(base0) && DistinctIds(target0) && AllParts(base0) && AllParts(target0)
    requires |base0| <= ADJACENCY_END
    ensures EncodeDelta(hash, TYPES, base0, target0, PLAIN).Ok? && FromCompact(TYPES, base0).Ok?
  {
    hide AllParts, AllEncode, DocFits, ValidTables, OwnersAreRefs, DistinctIds, Extras, Canonical, AppliedOrder,
      EncodeDelta;
    TypesValid();
    PartsEncode(base0);
    PartsEncode(target0);
    NoExtras(target0, AppliedOrder(Canonical(base0), Canonical(target0)));
    DiffSucceeds(hash, TYPES, base0, target0, PLAIN);
    CanonicalParts(base0);
    PartsEncode(Canonical(base0));
  }

  lemma CanonicalParts(doc: Doc)
    requires DistinctIds(doc) && AllParts(doc)
    ensures AllParts(Canonical(doc))
  {
    hide IsPart, CanonIds;
  }

  /** A state of one element is canonical. */
  lemma OneCanonical(e: Element)
    ensures DistinctIds([e]) && Canonical([e]) == [e]
  {
    hide CanonIds;
    var us := CanonIds([e]);
    assert us[0] in us;
    assert Ids([e]) == [e.id];
  }

  // ---- answered differently --------------------------------------------------------

  /** An element naming an outsider, kept as it is while the outsider is created. */
  const NAMING: Element := Part(0, [Ref(1)])
  const NAMED_LATER: Element := Part(1, [])

  lemma NamingPlanned(result: Doc)
    requires SameElements([NAMING, NAMED_LATER], result)
    ensures |result| == 2 && !DiffLinesUp(TYPES, [NAMING], result) && DiffFits(TYPES, [NAMING], result)
  {
    hide DeltaInterner, ShipsWhole, At, DiffLinesUp;
    var base, target := [NAMING], [NAMING, NAMED_LATER];
    NamingIds();
    AtPosition(target, 0);
    SameCount(target, result);
    assert RefIds(NAMING.props[OwnedRelationship].items) == [1] by {
      assert [Ref(1)][1..] == [];
    }
    UnchangedNamer(TYPES, base, result, 0, OwnedRelationship, 1);
  }

  lemma NamingIds()
    ensures Ids([NAMING]) == [0] && Ids([NAMING, NAMED_LATER]) == [0, 1]
    ensures 0 in Ids([NAMING, NAMED_LATER]) && 1 in Ids([NAMING, NAMED_LATER])
    ensures DistinctIds([NAMING]) && DistinctIds([NAMING, NAMED_LATER])
  {
    assert [0, 1][0] == 0 && [0, 1][1] == 1;
  }

  lemma SameCount(a: Doc, b: Doc)
    requires SameElements(a, b)
    ensures |a| == |b|
  {
    NoDupLength(Ids(a));
    NoDupLength(Ids(b));
    assert Elems(Ids(a)) == Elems(Ids(b));
  }

  /** A strict delta the encoder writes, the applier takes to its result and the index resolves. */
  ghost predicate Taken(hash: Hash, base0: Doc, target0: Doc) {
    && DistinctIds(base0) && DistinctIds(target0)
    && var delta := EncodeDelta(hash, TYPES, base0, target0, PLAIN);
       && delta.Ok? && FromCompact(TYPES, base0).Ok?
       && var applied, index := ApplyDelta(hash, TYPES, delta.value, base0, false), FromCompact(TYPES, base0).value;
          && applied.Ok? && applied.value.0 == AppliedOrder(Canonical(base0), Canonical(target0))
          && Resolve(TYPES, delta.value, Some(index)).Ok? && WellFormed(index)
  }

  /** What the transition makes of it. */
  function Transitioned(hash: Hash, base0: Doc, target0: Doc): Result<BaseIndex>
    requires Taken(hash, base0, target0)
  {
    var delta, index := EncodeDelta(hash, TYPES, base0, target0, PLAIN).value, FromCompact(TYPES, base0).value;
    Transition(TYPES, Resolve(TYPES, delta, Some(index)).value, index)
  }

  lemma PartsTaken(hash: Hash, base0: Doc, target0: Doc)
    requires DistinctIds(base0) && DistinctIds(target0) && AllParts(base0) && AllParts(target0)
    requires |base0| <= ADJACENCY_END
    ensures Taken(hash, base0, target0)
    ensures
      var base := Canonical(base0);
      var result := AppliedOrder(base, Canonical(target0));
      && SameElements(target0, result)
      && (Transitioned(hash, base0, target0).Ok? <==> DiffFits(TYPES, base, result) && |result| <= ADJACENCY_END)
      && (Transitioned(hash, base0, target0).Ok? && Transitioned(hash, base0, target0) == FromCompact(TYPES, result) ==>
            DiffLinesUp(TYPES, base, result))
  {
    hide AppliedOrder, Canonical, FromCompact, DiffLinesUp, DiffFits, DistinctIds, SameElements, AllParts, Taken,
      Transitioned;
    PartsApply(hash, base0, target0);
    EncodedIndexed(hash, base0, target0);
  }

  lemma PartsApply(hash: Hash, base0: Doc, target0: Doc)
    requires DistinctIds(base0) && DistinctIds(target0) && AllParts(base0) && AllParts(target0)
    requires |base0| <= ADJACENCY_END
    ensures Taken(hash, base0, target0) && SameElements(target0, AppliedOrder(Canonical(base0), Canonical(target0)))
  {
    hide AppliedOrder, Canonical, EncodeDelta, ApplyDelta, FromCompact, Resolve, Transition, WellFormed, DiffLinesUp,
      DiffFits, DistinctIds, ValidTables, OwnersAreRefs, SameElements, MapUnits, ClosedOwnership, AllParts;
    TypesValid();
    PartsDiff(hash, base0, target0);
    ApplyUndoesDiff(hash, TYPES, base0, target0, PLAIN, base0, false);
    EncodedTransitions(hash, TYPES, base0, target0, PLAIN);
  }

  lemma EncodedIndexed(hash: Hash, base0: Doc, target0: Doc)
    requires Taken(hash, base0, target0)
    ensures
      var base := Canonical(base0);
      var result := AppliedOrder(base, Canonical(target0));
      && DistinctIds(result)
      && (Transitioned(hash, base0, target0).Ok? <==> DiffFits(TYPES, base, result) && |result| <= ADJACENCY_END)
      && (Transitioned(hash, base0, target0).Ok? && Transitioned(hash, base0, target0) == FromCompact(TYPES, result) ==>
            DiffLinesUp(TYPES, base, result))
  {
    hide AppliedOrder, Canonical, EncodeDelta, ApplyDelta, FromCompact, Resolve, Transition, WellFormed, DiffLinesUp,
      DiffFits, DistinctIds, ValidTables, ClosedOwnership;
    TypesValid();
    EncodedTransitions(hash, TYPES, base0, target0, PLAIN);
  }

  /**
    A strict payload the encoder writes and the applier takes, over which the transition
    answers with another index than the applied state's, whatever the hash.
   */
  lemma OutsiderParts(hash: Hash)
    ensures Taken(hash, [NAMING], [NAMING, NAMED_LATER])
    ensures
      var result := AppliedOrder(Canonical([NAMING]), Canonical([NAMING, NAMED_LATER]));
      var answer := Transitioned(hash, [NAMING], [NAMING, NAMED_LATER]);
      DistinctIds(result) && answer.Ok? && answer != FromCompact(TYPES, result)
  {
    hide AppliedOrder, Canonical, FromCompact, DiffLinesUp, DiffFits, DistinctIds, SameElements, Taken, Transitioned,
      NAMING, NAMED_LATER;
    var base0, target0 := [NAMING], [NAMING, NAMED_LATER];
    NamingIds();
    NamingParts();
    OneCanonical(NAMING);
    PartsTaken(hash, base0, target0);
    NamingPlanned(AppliedOrder(Canonical(base0), Canonical(target0)));
  }

  lemma NamingParts()
    ensures AllParts([NAMING]) && AllParts([NAMING, NAMED_LATER])
  {
  }

  // ---- refused ---------------------------------------------------------------------

  /** A list with a symbolic entry, from which the reference behind it is removed. */
  const NAME: Text := [0, 0]
  const LONGER: Element := Part(0, [Sym(NAME), Ref(0)])
  const SHORTER: Element := Part(0, [Sym(NAME)])
  const CUT: FieldOp := Splice(1, 1, [])

  lemma CutPlanned()
    ensures PlanSplice([Sym(NAME), Ref(0)], [Sym(NAME)]) == CUT
  {
    var a, b := [Sym(NAME), Ref(0)], [Sym(NAME)];
    assert a[0] == b[0] && FromEnd(a, 0) == Ref(0) && FromEnd(b, 0) == Sym(NAME);
    assert CommonPrefix(a, b, 0) == CommonPrefix(a, b, 1) == 1;
    assert CommonSuffix(a, b, 0) == 0;
    assert b[1..1] == [];
  }

  lemma CutReplays()
    ensures ApplyOp(OwnedRelationship, CUT, LONGER.props) == Some(SHORTER.props)
  {
    var a := [Sym(NAME), Ref(0)];
    assert a[..1] + [] + a[2..] == [Sym(NAME)];
    assert LONGER.props[OwnedRelationship := Arr([Sym(NAME)])] == SHORTER.props;
  }

  lemma CutPatch()
    ensures PlanPatch(TYPES, LONGER, SHORTER) == Some([(0, CUT)])
    ensures PlannedOps(TYPES, LONGER, SHORTER) == [(OwnedRelationship, CUT)]
  {
    hide PlanSplice, ApplyOp;
    TypesValid();
    CutPlanned();
    CutReplays();
    var fields := FieldsOf(TYPES, "P");
    assert LONGER.props != SHORTER.props by {
      assert |[Sym(NAME), Ref(0)]| != |[Sym(NAME)]|;
    }
    assert PlanOps(fields, LONGER.props, SHORTER.props, 1) == [];
    assert PlanOps(fields, LONGER.props, SHORTER.props, 0) == [(0, CUT)];
    assert [(0, CUT)][1..] == [];
    assert Replay(fields, LONGER.props, [(0, CUT)]) == Some(SHORTER.props);
    assert Name(fields, [(0, CUT)]) == [(OwnedRelationship, CUT)];
  }

  /** The patch and the whole element, as they are written. */
  lemma CutWritten(n: Interner, d: Derivation)
    requires d.Implied?
    ensures
      WritePatch(Wire(n), [OWNED], [(0, CUT)])
      == Ok([Map(1), Uint(0), Array(2), Uint(OP_SPLICE), Array(3), Uint(1), Uint(1), Array(0)])
    ensures
      WriteElement(TYPES, Wire(n), SHORTER, d)
      == Ok([Array(3), Uint(0), Uint(0), Map(1), Uint(0), Array(1), Tstr(NAME)])
  {
    hide WriteOps, WriteEntries, CountEntries, PresenceBits, Pack;
    TypesValid();
    CutOps(n);
    CutEntries(n, d);
    var ops: Toks := [Uint(0), Array(2), Uint(OP_SPLICE), Array(3), Uint(1), Uint(1), Array(0)];
    assert [Map(1)] + ops == [Map(1), Uint(0), Array(2), Uint(OP_SPLICE), Array(3), Uint(1), Uint(1), Array(0)];
    var entries: Toks := [Uint(0), Array(1), Tstr(NAME)];
    assert [Array(3), Uint(0), Uint(0), Map(1)] + entries
           == [Array(3), Uint(0), Uint(0), Map(1), Uint(0), Array(1), Tstr(NAME)];
  }

  lemma CutOps(n: Interner)
    ensures
      WriteOps(Wire(n), [OWNED], [(0, CUT)])
      == Ok([Uint(0), Array(2), Uint(OP_SPLICE), Array(3), Uint(1), Uint(1), Array(0)])
  {
    var head: Toks := [Uint(OP_SPLICE), Array(3), Uint(1), Uint(1), Array(0)];
    assert [(0, CUT)][1..] == [];
    assert WriteItems(Wire(n), OWNED, []) == Ok([]);
    assert head + [] == head;
    assert WriteOp(Wire(n), OWNED, CUT) == Ok(head);
    assert WriteOps(Wire(n), [OWNED], []) == Ok([]);
    assert [Uint(0), Array(2)] + head + []
           == [Uint(0), Array(2), Uint(OP_SPLICE), Array(3), Uint(1), Uint(1), Array(0)];
  }

  lemma CutEntries(n: Interner, d: Derivation)
    ensures WriteEntries(Wire(n), [OWNED], SHORTER, d, 0) == Ok([Uint(0), Array(1), Tstr(NAME)])
    ensures CountEntries([OWNED], SHORTER, d, 0) == 1 && Pack(PresenceBits([OWNED], SHORTER, d)) == 0
  {
    CutValue(n);
    assert Hold(OWNED, SHORTER, d) == Entry(Arr([Sym(NAME)]));
    assert [Uint(0)] + [Array(1), Tstr(NAME)] == [Uint(0), Array(1), Tstr(NAME)];
    assert WriteEntries(Wire(n), [OWNED], SHORTER, d, 1) == Ok([]);
    assert [Uint(0), Array(1), Tstr(NAME)] + [] == [Uint(0), Array(1), Tstr(NAME)];
    assert PresenceBits([OWNED], SHORTER, d)[1..] == [];
  }

  lemma CutValue(n: Interner)
    ensures WriteValue(Wire(n), OWNED, Arr([Sym(NAME)])) == Ok([Array(1), Tstr(NAME)])
  {
    assert [Sym(NAME)][1..] == [];
    assert WriteRefs(Wire(n), []) == Ok([]);
    assert [Tstr(NAME)] + [] == [Tstr(NAME)];
    assert WriteRefs(Wire(n), [Sym(NAME)]) == Ok([Tstr(NAME)]);
    assert [Array(1)] + [Tstr(NAME)] == [Array(1), Tstr(NAME)];
  }

  predicate Small(t: Token) {
    match t
    case Uint(k) => k <= 23
    case Array(k) => k <= 23
    case Map(k) => k <= 23
    case _ => false
  }

  lemma {:induction false} SmallTokens(ts: Toks)
    requires forall i :: 0 <= i < |ts| ==> Small(ts[i])
    ensures |EncAll(ts)| == |ts|
  {
    if ts != [] {
      SmallTokens(ts[1..]);
    }
  }

  /** The patch takes eight bytes and the whole element nine at least, so the patch is sent. */
  lemma CutSent(n: Interner, d: Derivation)
    requires d.Implied?
    ensures ShipsWhole(TYPES, Wire(n), false, LONGER, SHORTER, d) == Ok(false)
  {
    hide WritePatch, WriteElement, PlanPatch;
    TypesValid();
    CutPatch();
    CutWritten(n, d);
    var patch: Toks := [Map(1), Uint(0), Array(2), Uint(OP_SPLICE), Array(3), Uint(1), Uint(1), Array(0)];
    var whole: Toks := [Array(3), Uint(0), Uint(0), Map(1), Uint(0), Array(1)];
    SmallTokens(patch);
    SmallTokens(whole);
    assert whole + [Tstr(NAME)] == [Array(3), Uint(0), Uint(0), Map(1), Uint(0), Array(1), Tstr(NAME)];
    EncAllAppend(whole, [Tstr(NAME)]);
    assert [Tstr(NAME)][1..] == [] && EncAll([]) == [];
    assert |EncAll([Tstr(NAME)])| >= 3;
  }

  lemma LongerPlanned(result: Doc)
    requires SameElements([SHORTER], result)
    ensures PlannedPayload(TYPES, [LONGER], result, 0) == Some(PatchPayload([(OwnedRelationship, CUT)]))
    ensures !DiffFits(TYPES, [LONGER], result)
  {
    hide DeltaInterner, ShipsWhole, At, PlannedOps, SentWhole, PayloadFits, LONGER, SHORTER;
    ShorterAt(result);
    LongerIsNot();
    LongerSent(result);
    CutPatch();
    LongerMisfits();
  }

  lemma ShorterAt(result: Doc)
    requires SameElements([SHORTER], result)
    ensures LONGER.id in Ids(result) && At(result, LONGER.id) == SHORTER
  {
    hide At;
    assert Ids([SHORTER]) == [0] && [0][0] == 0;
    AtPosition([SHORTER], 0);
  }

  lemma LongerIsNot()
    ensures LONGER != SHORTER
  {
    assert |LONGER.props[OwnedRelationship].items| != |SHORTER.props[OwnedRelationship].items|;
  }

  lemma LongerSent(result: Doc)
    ensures !SentWhole(TYPES, [LONGER], result, LONGER, SHORTER)
  {
    hide DeltaInterner, ShipsWhole;
    CutSent(DeltaInterner(TYPES, false, [LONGER], result), DerivationFor(result, true, SHORTER));
  }

  lemma LongerMisfits()
    ensures !PayloadFits([LONGER], LONGER, Some(PatchPayload([(OwnedRelationship, CUT)])))
  {
    assert RefIds([Sym(NAME), Ref(0)]) == [0] by {
      assert [Sym(NAME), Ref(0)][1..] == [Ref(0)] && [Ref(0)][1..] == [];
    }
    assert Ids([LONGER]) == [0];
  }

  /**
    A strict payload the encoder writes and the applier takes, which the transition refuses
    because a splice counts an entry the index never held, whatever the hash.
   */
  lemma SymbolicParts(hash: Hash)
    ensures Taken(hash, [LONGER], [SHORTER]) && Transitioned(hash, [LONGER], [SHORTER]).Err?
  {
    hide AppliedOrder, Canonical, FromCompact, DiffLinesUp, DiffFits, DistinctIds, SameElements, Taken, Transitioned,
      LONGER, SHORTER;
    OneCanonical(LONGER);
    OneCanonical(SHORTER);
    LongerParts();
    PartsTaken(hash, [LONGER], [SHORTER]);
    LongerPlanned(AppliedOrder(Canonical([LONGER]), Canonical([SHORTER])));
  }

  lemma LongerParts()
    ensures AllParts([LONGER]) && AllParts([SHORTER])
  {
  }

  // ---- an identity created twice ---------------------------------------------------

  const MADE: Element := Part(0, [])
  const TWICE: seq<Record> := [Made(MADE), Made(MADE)]
  const WRITTEN: Toks := [Array(2), NullTok, Array(3), Uint(0), Uint(1), Map(0)]

  /** A strict body over an empty base, whose two records create one identity. */
  function TwiceBody(): Toks {
    BodySection(false, [], Interner(map[], []), [MADE, MADE], TWICE, WRITTEN + WRITTEN, [], [])
  }

  /** The payload that holds it, announcing the digests of the empty state and of the element made. */
  function TwicePayload(baseDigest: Uuid, resultDigest: Uuid): Toks {
    [Array(7), Uint(HeaderWord(FlagByte(true, false, false, true), ID_SCHEME)),
     Array(3), Bstr(UuidBytes(baseDigest)), Bstr(UuidBytes(resultDigest))] + (WritePairs([]) + TwiceBody())
  }

  lemma MadeBody(s: Space, rest: Toks)
    ensures ReadBody([Uint(0), Uint(1), Map(0)] + rest, s, TYPES, 0) == Ok((MADE, rest))
  {
    hide Spell;
    TypesValid();
    var ts: Toks := [Uint(0), Uint(1), Map(0)] + rest;
    assert ts[1..][1..][1..] == rest && ts[1..][0] == Uint(1) && ts[1..][1..][0] == Map(0);
    assert Shift(1, 1) == Shift(0, 0) == 0;
    assert FillDefaults([OWNED], 1, 0, 1, map[OwnedRelationship := Arr([])]) == Ok(MADE.props);
    assert FillDefaults([OWNED], 1, 0, 0, map[]) == Ok(MADE.props);
  }

  lemma MadeReads(s: Space, created: seq<Uuid>, next: nat, rest: Toks)
    requires next < |created| && created[next] == 0
    ensures ReadAct(WRITTEN + rest, s, TYPES, [], false, created, next) == Ok((Create(0, MADE), rest))
  {
    hide ReadBody;
    var ts, tail: Toks := WRITTEN + rest, [Uint(0), Uint(1), Map(0)] + rest;
    assert ts[0] == Array(2) && ts[1..][0] == NullTok && ts[1..][1..] == [Array(3)] + tail;
    assert ([Array(3)] + tail)[1..] == tail;
    MadeBody(s, rest);
  }

  lemma TwiceActs(s: Space, rest: Toks)
    ensures
      ReadActs(WRITTEN + WRITTEN + rest, s, TYPES, [], false, [0, 0], 0, 2)
      == Ok(([Create(0, MADE), Create(0, MADE)], 2, rest))
  {
    hide ReadAct;
    Assoc(WRITTEN, WRITTEN, rest);
    MadeReads(s, [0, 0], 0, WRITTEN + rest);
    MadeReads(s, [0, 0], 1, rest);
    assert ReadActs(rest, s, TYPES, [], false, [0, 0], 2, 0) == Ok(([], 2, rest));
    assert [Create(0, MADE)] + [] == [Create(0, MADE)];
    assert [Create(0, MADE)] + [Create(0, MADE)] == [Create(0, MADE), Create(0, MADE)];
  }

  lemma TwiceRuns() returns (st: State)
    ensures Run(false, [], INITIAL, [Create(0, MADE), Create(0, MADE)]) == Some(st)
    ensures st.appended == [MADE] && Assemble([], st) == [MADE] && SoundState([], st)
  {
    var acts := [Create(0, MADE), Create(0, MADE)];
    assert acts[1..] == [Create(0, MADE)] && acts[1..][1..] == [];
    var once := Step(false, [], INITIAL, acts[0]).value;
    assert Ids([]) == [] && [] + [MADE] == [MADE];
    assert once.appended == [MADE];
    assert Ids([MADE]) == [0] && IndexOf([0], 0) == 0 && [MADE][0 := MADE] == [MADE];
    st := Step(false, [], once, acts[1]).value;
    assert st.appended == [MADE];
    assert Survivors([], st, 0) == [] && [] + [MADE] == [MADE];
    assert Run(false, [], st, []) == Some(st);
    assert Carried(acts);
    InitialSound([]);
    RunSound(false, [], INITIAL, acts);
  }

  lemma TwiceApplied(st: State)
    requires Assemble([], st) == [MADE] && SoundState([], st)
    ensures DistinctIds([]) && Ids([]) == [] && Applied(TYPES, [], st, true, []) == [MADE]
  {
    hide Assemble, Canonical, SoundState, FillOne, MADE, TYPES;
    OneCanonical(MADE);
    assert Ids([]) == [];
    MadeFills(st.shipped);
    assert FillShipped(TYPES, [MADE], st.shipped, []) == [MADE];
  }

  lemma MadeFills(shipped: seq<Option<Uuid>>)
    ensures FillOne(TYPES, [MADE], shipped, [], MADE) == MADE
  {
    hide BitsFor, DerivedOwner;
    TypesValid();
    assert Ordinal([OWNED], OwningRelationship) == 1 && Ordinal([OWNED], OwningRelatedElement) == 1;
  }

  /** The body, read, run and finished. */
  lemma TwiceBodyApplies(hash: Hash, h: Header)
    requires h.implied && !h.units && !h.portable && Digest(hash, TYPES, [MADE]) == Ok(h.resultDigest)
    ensures DistinctIds([])
    ensures
      && ApplyBody(hash, TYPES, TwiceBody(), [], h, true).Ok?
      && ApplyBody(hash, TYPES, TwiceBody(), [], h, true).value.0 == [MADE]
    ensures StrictActs(TwiceBody(), TYPES, []) == Ok([Create(0, MADE), Create(0, MADE)])
  {
    hide ReadActs, Digest, Applied, Run, ReadIds, ReadUint, ReadArray, BodySection, RecordSection, EncAll, ReadIf,
      SoundState, INITIAL, WritePairs, UnitSection, Assemble, TYPES, MADE, WRITTEN;
    MadeIds();
    var n := Interner(map[], []);
    var rest := WritePairs([]) + UnitSection([]);
    SectionsRead(false, [], n, [MADE, MADE], TWICE, WRITTEN + WRITTEN, [], []);
    RemainingAppend(WRITTEN + WRITTEN, rest);
    WrittenTokens();
    TwiceActs(Space([], [0, 0], []), rest);
    var st := TwiceRuns();
    TwiceApplied(st);
    TailRead([], [], 1);
  }

  lemma WrittenTokens()
    ensures |WRITTEN + WRITTEN| >= |TWICE|
  {
  }

  lemma MadeIds()
    ensures Ids([MADE, MADE]) == [0, 0] && DistinctIds([]) && Ids([]) == []
  {
  }

  lemma EmptyIndexed()
    requires AllKnown(TYPES, [])
    ensures FromCompact(TYPES, []).Ok?
  {
    hide Structure, TYPES;
  }

  lemma EmptyCanonical()
    ensures DistinctIds([]) && Canonical([]) == []
  {
    hide CanonIds;
  }

  /** A strict payload over an empty base that the applier takes, leaving one element for two records. */
  lemma TwiceApplies(hash: Hash) returns (ts: Toks)
    ensures DistinctIds([]) && Canonical([]) == [] && FromCompact(TYPES, []).Ok?
    ensures ReadHeader(ts, false).Ok? && !ReadHeader(ts, false).value.0.portable
    ensures ReadHeader(ts, false).value.1 == TwiceBody()
    ensures ApplyDelta(hash, TYPES, ts, [], false).Ok? && ApplyDelta(hash, TYPES, ts, [], false).value.0 == [MADE]
  {
    hide ReadHeader, Digest, ApplyDelta, ApplyBody, TwiceBody, Canonical, WritePairs, HeaderWord, FlagByte, UuidBytes,
      DocFits, OwnersAreRefs, ValidTables, AllEncode, AllParts, DistinctIds, TYPES, MADE, FromCompact, TwicePayload;
    EmptyCanonical();
    MadeDigests(hash);
    EmptyIndexed();
    var baseDigest, resultDigest := Digest(hash, TYPES, []).value, Digest(hash, TYPES, [MADE]).value;
    ts := TwicePayload(baseDigest, resultDigest);
    TwiceHeader(baseDigest, resultDigest);
    ApplyParts(hash, TYPES, ts, [], false);
    TwiceBodyApplies(hash, Header(false, true, false, baseDigest, resultDigest));
  }

  lemma TwiceHeader(baseDigest: Uuid, resultDigest: Uuid)
    ensures
      ReadHeader(TwicePayload(baseDigest, resultDigest), false)
      == Ok((Header(false, true, false, baseDigest, resultDigest), TwiceBody()))
  {
    hide ReadHeader, TwiceBody, WritePairs, HeaderWord, FlagByte, UuidBytes;
    NoClaims();
    HeaderReads(false, false, false, baseDigest, resultDigest, [], TwiceBody());
  }

  lemma NoClaims()
    ensures AllClaims([])
  {
  }

  lemma MadeDigests(hash: Hash)
    ensures Digest(hash, TYPES, []).Ok? && Digest(hash, TYPES, [MADE]).Ok? && AllKnown(TYPES, [])
  {
    hide Digest, DocFits, OwnersAreRefs, ValidTables, AllEncode, DistinctIds, Canonical, AllParts, TYPES, MADE;
    TypesValid();
    MadeParts();
    OneCanonical(MADE);
    EmptyCanonical();
    PartsEncode([]);
    PartsEncode([MADE]);
    DigestSucceeds(hash, TYPES, []);
    DigestSucceeds(hash, TYPES, [MADE]);
  }

  lemma MadeParts()
    ensures AllParts([]) && AllParts([MADE])
  {
  }

  /**
    The other way out of line: a strict payload the applier takes that creates one identity
    twice. The applied state has an index, and the transition does not answer with it.
   */
  lemma TwiceParts(hash: Hash) returns (ts: Toks)
    ensures DistinctIds([]) && FromCompact(TYPES, []).Ok? && WellFormed(FromCompact(TYPES, []).value)
    ensures ApplyDelta(hash, TYPES, ts, [], false).Ok? && ApplyDelta(hash, TYPES, ts, [], false).value.0 == [MADE]
    ensures DistinctIds([MADE]) && FromCompact(TYPES, [MADE]).Ok?
    ensures
      var index := FromCompact(TYPES, []).value;
      var r := Resolve(TYPES, ts, Some(index));
      && r.Ok? && CreatedIds(r.value.records) == [0, 0]
      && Transition(TYPES, r.value, index) != FromCompact(TYPES, [MADE])
  {
    hide ReadHeader, ApplyDelta, TwiceBody, Canonical, DistinctIds, TYPES, FromCompact, Resolve, Transition, CreatedBy,
      CreatedIds, ListsLineUp, ListsFit, ResultIds, ClosedOwnership, StrictActs, StrictRecords, SameRecords, WellFormed,
      ValidTables;
    ts := TwiceApplies(hash);
    TypesValid();
    ResolvedRecords(hash, TYPES, ts, []);
    TransitionCommutesWithApply(hash, TYPES, ts, []);
    MadeCreates(hash);
    MadeIndexed();
    var recs := Resolve(TYPES, ts, Some(FromCompact(TYPES, []).value)).value.records;
    assert !NoDup(CreatedIds(recs)) by {
      assert CreatedIds(recs)[0] == CreatedIds(recs)[1];
    }
  }

  lemma MadeCreates(hash: Hash)
    ensures StrictActs(TwiceBody(), TYPES, []).Ok?
    ensures Ids(CreatedBy(StrictActs(TwiceBody(), TYPES, []).value)) == [0, 0]
  {
    hide Digest, TwiceBody, StrictActs, ApplyBody;
    MadeDigests(hash);
    TwiceBodyApplies(hash, Header(false, true, false, 0, Digest(hash, TYPES, [MADE]).value));
    var acts := [Create(0, MADE), Create(0, MADE)];
    assert acts[1..] == [Create(0, MADE)] && acts[1..][1..] == [];
    assert CreatedBy([]) == [] && [MADE] + [] == [MADE];
    assert CreatedBy([Create(0, MADE)]) == [MADE] && [MADE] + [MADE] == [MADE, MADE];
    assert CreatedBy(acts) == [MADE, MADE];
    MadeIds();
  }

  lemma MadeIndexed()
    ensures DistinctIds([MADE]) && FromCompact(TYPES, [MADE]).Ok?
  {
    hide Canonical, DistinctIds;
    TypesValid();
    OneCanonical(MADE);
  }
}
