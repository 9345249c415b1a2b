/**
  Applying a delta: reading its records against the base, running them, putting the result
  in canonical order and re-deriving the backpointers of what was shipped.
 */
module Apply {
  import opened Wrappers
  import opened Seqs
  import opened Cbor
  import opened Model
  import opened Owners
  import opened Values
  import opened Records
  import opened Sections
  import opened Snapshot
  import opened Patch
  import opened CanonDoc
  import opened Acts
  import opened Delta

  datatype Report = Report(matched: bool, noops: nat, upserts: nat, replacedCreates: nat, units: Pairs)

  // ---- the header ------------------------------------------------------------------

  /** What the flags of a delta may say. An elided delta needs a resolver, which is not modelled. */
  function GateDelta(flags: nat, scheme: nat, arity: nat, lenient: bool): Result<bool> {
    var portable, units := Bit(flags, FLAG_PORTABLE), Bit(flags, FLAG_UNIT_PATHS);
    if !Bit(flags, FLAG_DELTA) then Err(WrongForm)
    else if Bit(flags, FLAG_FULL_FORM) || Bit(flags, FLAG_EXPLICIT_IDS) || Bit(flags, 7) then Err(Malformed)
    else if arity != 6 + (if Bit(flags, FLAG_IMPLIED_OWNERS) then 1 else 0) + (if units then 1 else 0)
    then Err(Malformed)
    else if units && portable then Err(Malformed)
    else if Bit(flags, FLAG_ELIDE_IDS) && portable then Err(Malformed)
    else if Bit(flags, FLAG_ELIDE_IDS) && scheme != ID_SCHEME && scheme != CANONICAL_GRAPH then Err(UnsupportedVersion)
    else if lenient && !portable then Err(Malformed)
    else if Bit(flags, FLAG_ELIDE_IDS) then Err(NeedsResolver)
    else Ok(true)
  }

  function ReadDigest(ts: Toks): Result<(Uuid, Toks)> {
    var (t, rest) :- Next(ts);
    var u :- ReadId(t);
    Ok((u, rest))
  }

  function ReadClaimList(ts: Toks, n: nat): Result<(Pairs, Toks)> {
    if n == 0 then Ok(([], ts))
    else
      var (key, ts1) :- ReadUint(ts);
      var (t, ts2) :- Next(ts1);
      if !IsClaim(t) then Err(Malformed)
      else
        var (more, rest) :- ReadClaimList(ts2, n - 1);
        Ok(([(key, t)] + more, rest))
  }

  /** The claims as they stand: their keys are not compared on reading. */
  function ReadClaims(ts: Toks): Result<(Pairs, Toks)> {
    var (t, rest) :- Next(ts);
    if !t.Map? || t.len > Remaining(rest) / 2 then Err(Malformed) else ReadClaimList(rest, t.len)
  }

  /** What precedes the base section's checks: the mode, what the flags announce, the two digests. */
  datatype Header = Header(portable: bool, implied: bool, units: bool, baseDigest: Uuid, resultDigest: Uuid)

  function ReadHeader(ts: Toks, lenient: bool): Result<(Header, Toks)> {
    var (arity, ts1) :- ReadArray(ts);
    var (word, ts2) :- ReadUint(ts1);
    var (scheme, flags) :- ParseHeader(word);
    var _ :- GateDelta(flags, scheme, arity, lenient);
    var (three, ts3) :- ReadArray(ts2);
    if three != 3 then Err(Malformed)
    else
      var (baseDigest, ts4) :- ReadDigest(ts3);
      var (resultDigest, ts5) :- ReadDigest(ts4);
      var (_, rest) :- ReadClaims(ts5);
      Ok((Header(Bit(flags, FLAG_PORTABLE), Bit(flags, FLAG_IMPLIED_OWNERS), Bit(flags, FLAG_UNIT_PATHS),
                 baseDigest, resultDigest), rest))
  }

  // ---- the records -----------------------------------------------------------------

  /** A record's resolved target: new, a base position, or an identity the base does not hold. */
  datatype Target = New | Held(at: nat) | Absent(u: Uuid)

  function ReadTarget(t: Token, base: Doc, portable: bool): (r: Result<Target>)
    ensures r.Ok? && r.value.Held? ==> r.value.at < |base|
    ensures r.Ok? && r.value.Absent? ==> portable && r.value.u !in Ids(base)
  {
    match t
    case NullTok => Ok(New)
    case Uint(i) => if portable || i >= |base| then Err(Malformed) else Ok(Held(i))
    case Bstr(bs) =>
      if !portable || |bs| != 16 then Err(Malformed)
      else
        var u := UuidOf(bs);
        if u in Ids(base) then Ok(Held(IndexOf(Ids(base), u))) else Ok(Absent(u))
    case _ => Err(Malformed)
  }

  function TargetId(base: Doc, created: seq<Uuid>, next: nat, target: Target): Result<Uuid>
    requires target.Held? ==> target.at < |base|
  {
    match target
    case New => if next < |created| then Ok(created[next]) else Err(Malformed)
    case Held(at) => Ok(base[at].id)
    case Absent(u) => Ok(u)
  }

  /** A record's payload, for a resolved target. */
  function ReadPayload(
      ts: Toks, s: Space, tables: Tables, base: Doc, portable: bool, created: seq<Uuid>, next: nat, target: Target)
    : (r: Result<(Act, Toks)>)
    requires target.Held? ==> target.at < |base|
    ensures r.Ok? ==> (r.value.0.Create? <==> target.New?)
    ensures r.Ok? && !r.value.0.Delete? ==> r.value.0.e.id == r.value.0.id
    ensures r.Ok? ==> TargetId(base, created, next, target) == Ok(r.value.0.id)
  {
    var (t, rest) :- Next(ts);
    if t.NullTok? then
      match target
      case New => Err(Malformed)
      case Held(at) => Ok((Delete(base[at].id), rest))
      case Absent(u) => Ok((Delete(u), rest))
    else if t.Map? then
      if portable || !target.Held? then Err(Malformed)
      else
        var (e, after) :- ReadPatch(rest, s, tables, t.len, base[target.at]);
        Ok((Update(base[target.at].id, e, false), after))
    else if t == Array(3) then
      var u :- TargetId(base, created, next, target);
      var (e, after) :- ReadBody(rest, s, tables, u);
      Ok((if target.New? then Create(u, e) else Update(u, e, true), after))
    else Err(Malformed)
  }

  function ReadAct(
      ts: Toks, s: Space, tables: Tables, base: Doc, portable: bool, created: seq<Uuid>, next: nat)
    : (r: Result<(Act, Toks)>)
    ensures r.Ok? && !r.value.0.Delete? ==> r.value.0.e.id == r.value.0.id
  {
    var (two, ts1) :- ReadArray(ts);
    if two != 2 then Err(Malformed)
    else
      var (t, ts2) :- Next(ts1);
      var target :- ReadTarget(t, base, portable);
      ReadPayload(ts2, s, tables, base, portable, created, next, target)
  }

  /** `n` records; `next` counts the created identities taken. */
  function ReadActs(
      ts: Toks, s: Space, tables: Tables, base: Doc, portable: bool, created: seq<Uuid>, next: nat, n: nat)
    : (r: Result<(Acts, nat, Toks)>)
    ensures r.Ok? ==> |r.value.0| == n && Carried(r.value.0)
    decreases n
  {
    if n == 0 then Ok(([], next, ts))
    else
      var (act, rest) :- ReadAct(ts, s, tables, base, portable, created, next);
      var (acts, last, after) :-
        ReadActs(rest, s, tables, base, portable, created, if act.Create? then next + 1 else next, n - 1);
      Ok(([act] + acts, last, after))
  }

  // ---- which headers are taken -----------------------------------------------------

  /** The word that follows the payload's array head. */
  function HeaderWordOf(ts: Toks): Result<nat> {
    var (_, ts1) :- ReadArray(ts);
    var (word, _) :- ReadUint(ts1);
    Ok(word)
  }

  /**
    What a header says that is read: a delta of this layout and these tables, no form or
    identity the applier cannot read, units only when strict, portable when lenient, and as
    many sections as its flags announce.
   */
  ghost predicate Acceptable(word: nat, arity: nat, lenient: bool) {
    && word / 0x1_0000_0000 == LAYOUT_VERSION && (word / 0x1_0000) % 0x1_0000 == TABLES_VERSION
    && FlagsTaken(word % 0x100, arity, lenient)
  }

  ghost predicate FlagsTaken(flags: nat, arity: nat, lenient: bool) {
    && Bit(flags, FLAG_DELTA)
    && !Bit(flags, FLAG_FULL_FORM) && !Bit(flags, FLAG_EXPLICIT_IDS) && !Bit(flags, FLAG_ELIDE_IDS) && !Bit(flags, 7)
    && (Bit(flags, FLAG_UNIT_PATHS) ==> !Bit(flags, FLAG_PORTABLE))
    && (lenient ==> Bit(flags, FLAG_PORTABLE))
    && arity == 6 + (if Bit(flags, FLAG_IMPLIED_OWNERS) then 1 else 0) + (if Bit(flags, FLAG_UNIT_PATHS) then 1 else 0)
  }

  /** The gate passes exactly such flags, whatever the scheme. */
  lemma GateIff(flags: nat, scheme: nat, arity: nat, lenient: bool)
    ensures GateDelta(flags, scheme, arity, lenient) == Ok(true) <==> FlagsTaken(flags, arity, lenient)
    ensures GateDelta(flags, scheme, arity, lenient).Ok? ==> GateDelta(flags, scheme, arity, lenient) == Ok(true)
  {
    hide Bit;
  }

  /** What follows the word: the two digests and the claims. */
  predicate BaseSection(ts: Toks) {
    && ReadArray(ts).Ok? && ReadArray(ts).value.0 == 3
    && ReadDigest(ReadArray(ts).value.1).Ok? && ReadDigest(ReadDigest(ReadArray(ts).value.1).value.1).Ok?
    && ReadClaims(ReadDigest(ReadDigest(ReadArray(ts).value.1).value.1).value.1).Ok?
  }

  /** A header is read exactly where its word and section count are acceptable and its base section is in order. */
  lemma HeaderIff(ts: Toks, lenient: bool)
    requires ReadArray(ts).Ok? && HeaderWordOf(ts).Ok? && HeaderWordOf(ts).value < 0x100_0000_0000
    ensures
      ReadHeader(ts, lenient).Ok?
      <==> Acceptable(HeaderWordOf(ts).value, ReadArray(ts).value.0, lenient)
           && BaseSection(ReadUint(ReadArray(ts).value.1).value.1)
  {
    hide Bit, ReadDigest, ReadClaims, GateDelta, FlagsTaken;
    var arity, word := ReadArray(ts).value.0, HeaderWordOf(ts).value;
    GateIff(word % 0x100, (word / 0x100) % 0x100, arity, lenient);
  }

  /** A header is read only if it says that, and then it reads as it says. */
  lemma HeaderTaken(ts: Toks, lenient: bool)
    requires ReadHeader(ts, lenient).Ok?
    ensures ReadArray(ts).Ok? && HeaderWordOf(ts).Ok?
    ensures
      var word, h := HeaderWordOf(ts).value, ReadHeader(ts, lenient).value.0;
      && Acceptable(word, ReadArray(ts).value.0, lenient)
      && h.portable == Bit(word % 0x100, FLAG_PORTABLE) && h.implied == Bit(word % 0x100, FLAG_IMPLIED_OWNERS)
      && h.units == Bit(word % 0x100, FLAG_UNIT_PATHS)
  {
    hide Bit, ReadDigest, ReadClaims;
  }

  /** The same of what is applied: a strict delta is never applied leniently. */
  lemma AppliedTaken(hash: Hash, tables: Tables, ts: Toks, base0: Doc, lenient: bool)
    requires DistinctIds(base0) && ApplyDelta(hash, tables, ts, base0, lenient).Ok?
    ensures ReadArray(ts).Ok? && HeaderWordOf(ts).Ok?
    ensures Acceptable(HeaderWordOf(ts).value, ReadArray(ts).value.0, lenient)
  {
    hide ReadHeader, ApplyGated, Canonical, Acceptable, HeaderWordOf;
    HeaderTaken(ts, lenient);
  }

  // ---- what every record keeps -----------------------------------------------------

  /** Replacements keep their position's identity; what is appended is new, once each. */
  ghost predicate SoundState(ids: seq<Uuid>, st: State) {
    && (forall i :: i in st.replaced ==> i < |ids| && st.replaced[i].id == ids[i])
    && NoDup(Ids(st.appended))
    && (forall u :: u in Ids(st.appended) ==> u !in ids)
  }

  lemma AppendSound(ids: seq<Uuid>, appended: Doc, e: Element)
    requires NoDup(Ids(appended)) && (forall u :: u in Ids(appended) ==> u !in ids) && e.id !in ids
    ensures NoDup(Ids(Append(appended, e))) && forall u :: u in Ids(Append(appended, e)) ==> u !in ids
  {
    var k := IndexOf(Ids(appended), e.id);
    if k < |appended| {
      assert Ids(appended[k := e]) == Ids(appended);
    } else {
      assert Ids(appended + [e]) == Ids(appended) + [e.id];
    }
  }

  lemma StepSound(portable: bool, ids: seq<Uuid>, st: State, act: Act)
    requires SoundState(ids, st) && (!act.Delete? ==> act.e.id == act.id) && Step(portable, ids, st, act).Some?
    ensures SoundState(ids, Step(portable, ids, st, act).value)
  {
    hide Append;
    if !act.Delete? && act.id !in ids {
      AppendSound(ids, st.appended, act.e);
    }
  }

  /** Every run keeps the bookkeeping sound, repeated and colliding identities included. */
  lemma {:induction false} RunSound(portable: bool, ids: seq<Uuid>, st: State, acts: Acts)
    requires SoundState(ids, st) && Carried(acts) && Run(portable, ids, st, acts).Some?
    ensures SoundState(ids, Run(portable, ids, st, acts).value)
    decreases |acts|
  {
    hide SoundState, Step;
    if acts != [] {
      assert acts[0] in acts;
      StepSound(portable, ids, st, acts[0]);
      RunSound(portable, ids, Step(portable, ids, st, acts[0]).value, acts[1..]);
    }
  }

  lemma {:induction false} SurvivorsSound(base: Doc, st: State, k: nat)
    requires k <= |base| && DistinctIds(base) && SoundState(Ids(base), st)
    ensures NoDup(Ids(Survivors(base, st, k)))
    ensures forall u :: u in Ids(Survivors(base, st, k)) ==> u in Ids(base)[k..]
    decreases |base| - k
  {
    hide Survivors;
    if k == |base| {
      SurvivorsEnd(base, st);
    } else {
      SurvivorsSound(base, st, k + 1);
      SurvivorsStep(base, st, k);
      assert Ids(base)[k..] == [base[k].id] + Ids(base)[k + 1..];
      assert Ids(base) == Ids(base)[..k] + Ids(base)[k..];
      NoDupParts(Ids(base)[..k], Ids(base)[k..]);
      NoDupParts([base[k].id], Ids(base)[k + 1..]);
      NoDupAppend(if k in st.deleted then [] else [base[k].id], Ids(Survivors(base, st, k + 1)));
    }
  }

  lemma SurvivorsEnd(base: Doc, st: State)
    ensures Survivors(base, st, |base|) == []
  {
  }

  /** Any run over distinct identities leaves distinct identities. */
  lemma AssembledDistinct(base: Doc, st: State)
    requires DistinctIds(base) && SoundState(Ids(base), st)
    ensures DistinctIds(Assemble(base, st))
  {
    hide Survivors;
    SurvivorsSound(base, st, 0);
    var kept := Survivors(base, st, 0);
    assert Ids(base)[0..] == Ids(base);
    assert Ids(kept + st.appended) == Ids(kept) + Ids(st.appended);
    NoDupAppend(Ids(kept), Ids(st.appended));
  }

  // ---- backpointers of what was shipped --------------------------------------------

  /** Exceptions may only name records that shipped an element. */
  predicate NameShipped(pairs: Pairs, shipped: seq<Option<Uuid>>) {
    forall i :: 0 <= i < |pairs| ==> pairs[i].0 < |shipped| && shipped[pairs[i].0].Some?
  }

  /** The bits of the last record that shipped `u`, among the first `k`. */
  function BitsFor(shipped: seq<Option<Uuid>>, pairs: Pairs, u: Uuid, k: nat): Option<nat>
    requires k <= |shipped|
  {
    if k == 0 then None
    else if shipped[k - 1] == Some(u) then Some(BitsAt(pairs, k - 1))
    else BitsFor(shipped, pairs, u, k - 1)
  }

  function FillOne(tables: Tables, doc: Doc, shipped: seq<Option<Uuid>>, pairs: Pairs, e: Element): Element {
    match BitsFor(shipped, pairs, e.id, |shipped|)
    case None => e
    case Some(bits) =>
      FillElement(FieldsOf(tables, e.ty), bits, DerivedOwner(doc, 0, e.id), DerivedOwner(doc, 1, e.id), e)
  }

  /** Re-derive the backpointers of the shipped elements; every other element is left as it is. */
  function FillShipped(tables: Tables, doc: Doc, shipped: seq<Option<Uuid>>, pairs: Pairs): (filled: Doc)
    ensures |filled| == |doc|
    ensures forall i :: 0 <= i < |doc| ==> filled[i] == FillOne(tables, doc, shipped, pairs, doc[i])
  {
    seq(|doc|, i requires 0 <= i < |doc| => FillOne(tables, doc, shipped, pairs, doc[i]))
  }

  /** What an applier re-derives, over the assembled document: the shipped elements alone, by name. */
  lemma ShippedByName(tables: Tables, doc: Doc, shipped: seq<Option<Uuid>>, pairs: Pairs, i: nat)
    requires i < |doc|
    ensures
      var now := FillShipped(tables, doc, shipped, pairs)[i];
      match BitsFor(shipped, pairs, doc[i].id, |shipped|)
      case None => now == doc[i]
      case Some(bits) => RefilledBoth(tables, doc, bits, doc[i], now)
  {
    hide RefilledBoth, FillElement, DerivedOwner, BitsFor;
    var bits := BitsFor(shipped, pairs, doc[i].id, |shipped|);
    if bits.Some? {
      FillByName(tables, doc, bits.value, doc[i]);
    }
  }

  // ---- the whole application -------------------------------------------------------

  function Applied(tables: Tables, base: Doc, st: State, implied: bool, exceptions: Pairs): Doc
    requires DistinctIds(base) && SoundState(Ids(base), st)
  {
    AssembledDistinct(base, st);
    var doc := Canonical(Assemble(base, st));
    if implied then FillShipped(tables, doc, st.shipped, exceptions) else doc
  }

  predicate NonEmptyPaths(units: Pairs) {
    forall i :: 0 <= i < |units| ==> units[i].1.Tstr? && units[i].1.bytes != []
  }

  /** The sections after the records, and the checks on the assembled result. */
  function Finish(
      hash: Hash, tables: Tables, ts: Toks, base: Doc, st: State, h: Header, matched: bool): Result<(Doc, Report)>
    requires DistinctIds(base) && SoundState(Ids(base), st)
  {
    var (exceptions, ts1) :- ReadIf(h.implied, ts, OwnerBits);
    if !NameShipped(exceptions, st.shipped) then Err(Malformed)
    else
      var (units, rest) :- ReadIf(h.units, ts1, UnitPaths);
      if !NonEmptyPaths(units) || rest != [] then Err(Malformed)
      else
        var value := Applied(tables, base, st, h.implied, exceptions);
        var got :- if matched then Digest(hash, tables, value) else Ok(h.resultDigest);
        if got != h.resultDigest || !LastBelow(units, |value|) then Err(Malformed)
        else Ok((value, Report(matched, st.noops, st.upserts, st.replacedCreates, units)))
  }

  /** From the base index-space declaration on, over the canonical base. */
  function ApplyBody(hash: Hash, tables: Tables, ts: Toks, base: Doc, h: Header, matched: bool): Result<(Doc, Report)>
    requires DistinctIds(base)
  {
    var (b, ts1) :- ReadUint(ts);
    if b != (if h.portable then 0 else |base|) then Err(if h.portable then Malformed else BaseDigestMismatch)
    else
      var (exts, ts2) :- ReadIds(ts1);
      var (created, ts3) :- ReadIds(ts2);
      var (n, ts4) :- ReadArray(ts3);
      if n > Remaining(ts4) then Err(Malformed)
      else
        var s := Space(if h.portable then [] else Ids(base), created, exts);
        var (acts, next, ts5) :- ReadActs(ts4, s, tables, base, h.portable, created, 0, n);
        match Run(h.portable, Ids(base), INITIAL, acts)
        case None => Err(Malformed)
        case Some(st) =>
          if next != |created| then Err(Malformed)
          else
            RunSound(h.portable, Ids(base), INITIAL, acts);
            Finish(hash, tables, ts5, base, st, h, matched)
  }

  /** After the header: the digest gate, over the canonical base. */
  function ApplyGated(hash: Hash, tables: Tables, ts: Toks, base: Doc, h: Header, lenient: bool): Result<(Doc, Report)>
    requires DistinctIds(base)
  {
    var held :- Digest(hash, tables, base);
    if held != h.baseDigest && !lenient then Err(BaseDigestMismatch)
    else ApplyBody(hash, tables, ts, base, h, held == h.baseDigest)
  }

  /** Apply a delta to `base0`, whatever its order. */
  function ApplyDelta(hash: Hash, tables: Tables, ts: Toks, base0: Doc, lenient: bool): Result<(Doc, Report)>
    requires DistinctIds(base0)
  {
    var (h, rest) :- ReadHeader(ts, lenient);
    ApplyGated(hash, tables, rest, Canonical(base0), h, lenient)
  }

  function ApplyCbor(hash: Hash, tables: Tables, b: seq<byte>, base0: Doc, lenient: bool): Result<(Doc, Report)>
    requires DistinctIds(base0)
  {
    if |b| < 8 || b[..8] != MAGIC then Err(MissingMagic)
    else
      var ts :- Lex(b[8..]);
      ApplyDelta(hash, tables, ts, base0, lenient)
  }

  // ---- the record loop as the code runs it -----------------------------------------

  /** Reading and applying each record in turn is reading them all, then running them. */
  method ApplyRecords(
      ts: Toks, s: Space, tables: Tables, base: Doc, portable: bool, created: seq<Uuid>, n: nat)
    returns (r: Option<(State, nat, Toks)>)
    requires DistinctIds(base)
    ensures
      var read := ReadActs(ts, s, tables, base, portable, created, 0, n);
      if read.Err? || Run(portable, Ids(base), INITIAL, read.value.0).None? then r.None?
      else r == Some((Run(portable, Ids(base), INITIAL, read.value.0).value, read.value.1, read.value.2))
  {
    hide ReadAct, Step;
    var at, st, next := ts, INITIAL, 0;
    ghost var all := ReadActs(ts, s, tables, base, portable, created, 0, n);
    for k := 0 to n
      invariant
        var left := ReadActs(at, s, tables, base, portable, created, next, n - k);
        && (left.Err? <==> all.Err?)
        && (all.Ok? ==>
              && left.value.1 == all.value.1 && left.value.2 == all.value.2
              && Run(portable, Ids(base), st, left.value.0) == Run(portable, Ids(base), INITIAL, all.value.0))
    {
      var read := ReadAct(at, s, tables, base, portable, created, next);
      if read.Err? {
        return None;
      }
      var (act, rest) := read.value;
      var stepped := Step(portable, Ids(base), st, act);
      ghost var tail :=
        ReadActs(rest, s, tables, base, portable, created, if act.Create? then next + 1 else next, n - k - 1);
      if tail.Ok? {
        assert ([act] + tail.value.0)[1..] == tail.value.0;
      }
      if stepped.None? {
        return None;
      }
      at, st := rest, stepped.value;
      if act.Create? {
        next := next + 1;
      }
    }
    r := Some((st, next, at));
  }
}
