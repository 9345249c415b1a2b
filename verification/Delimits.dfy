/**
  A payload says where it ends: every reader takes the same from a longer one, and what follows
  an accepted payload makes it refused. So no accepted payload begins another.
 */
module Delimits {
  import opened Wrappers
  import opened Seqs
  import opened Cbor
  import opened Model
  import opened Values
  import opened Records
  import opened Sections
  import opened Snapshot
  import opened Patch
  import opened CanonDoc
  import opened Acts
  import opened Delta
  import opened Apply
  import opened Index

  // ---- tokens ----------------------------------------------------------------------

  lemma NextMore(ts: Toks, more: Toks)
    requires ts != []
    ensures (ts + more)[0] == ts[0] && (ts + more)[1..] == ts[1..] + more
  {
  }

  lemma MoreRemains(ts: Toks, more: Toks)
    ensures Remaining(ts) <= Remaining(ts + more)
  {
    EncAllAppend(ts, more);
  }

  lemma {:induction false} RefsMore(ts: Toks, more: Toks, s: Space, n: nat)
    requires ReadRefs(ts, s, n).Ok?
    ensures ReadRefs(ts + more, s, n) == Ok((ReadRefs(ts, s, n).value.0, ReadRefs(ts, s, n).value.1 + more))
  {
    hide ReadRef;
    if n > 0 {
      NextMore(ts, more);
      RefsMore(ts[1..], more, s, n - 1);
    }
  }

  lemma {:induction false} TextsMore(ts: Toks, more: Toks, n: nat)
    requires ReadTexts(ts, n).Ok?
    ensures ReadTexts(ts + more, n) == Ok((ReadTexts(ts, n).value.0, ReadTexts(ts, n).value.1 + more))
  {
    if n > 0 {
      NextMore(ts, more);
      TextsMore(ts[1..], more, n - 1);
    }
  }

  lemma ValueMore(ts: Toks, more: Toks, s: Space, f: Field)
    requires ReadValue(ts, s, f).Ok?
    ensures ReadValue(ts + more, s, f) == Ok((ReadValue(ts, s, f).value.0, ReadValue(ts, s, f).value.1 + more))
  {
    hide ReadRefs, ReadTexts, Remaining, Reference, IsFinite;
    NextMore(ts, more);
    MoreRemains(ts[1..], more);
    var t := ts[0];
    if t.Array? && f.kind.KRefList? {
      RefsMore(ts[1..], more, s, t.len);
    } else if t.Array? && f.kind.KStrList? {
      TextsMore(ts[1..], more, t.len);
    }
  }

  lemma {:induction false} EntriesMore(
      ts: Toks, more: Toks, s: Space, fields: seq<Field>, word: nat, n: nat, low: nat, props: Props)
    requires ReadEntries(ts, s, fields, word, n, low, props).Ok?
    ensures
      var read := ReadEntries(ts, s, fields, word, n, low, props).value;
      ReadEntries(ts + more, s, fields, word, n, low, props) == Ok((read.0, read.1 + more))
    decreases n
  {
    hide ReadValue, Bit;
    if n > 0 {
      var o := ts[0].n;
      NextMore(ts, more);
      ValueMore(ts[1..], more, s, fields[o]);
      var (v, rest) := ReadValue(ts[1..], s, fields[o]).value;
      EntriesMore(rest, more, s, fields, word, n - 1, o + 1, props[fields[o].name := v]);
    }
  }

  lemma BodyMore(ts: Toks, more: Toks, s: Space, tables: Tables, id: Uuid)
    requires ReadBody(ts, s, tables, id).Ok?
    ensures
      var read := ReadBody(ts, s, tables, id).value;
      ReadBody(ts + more, s, tables, id) == Ok((read.0, read.1 + more))
  {
    hide ReadEntries, FillDefaults, Shift;
    NextMore(ts, more);
    NextMore(ts[1..], more);
    NextMore(ts[1..][1..], more);
    EntriesMore(ts[1..][1..][1..], more, s, tables[ts[0].n].fields, ts[1].n, ts[2].len, 0, map[]);
  }

  lemma {:induction false} ElementsMore(ts: Toks, more: Toks, s: Space, tables: Tables, ids: seq<Uuid>)
    requires ReadElements(ts, s, tables, ids).Ok?
    ensures
      var read := ReadElements(ts, s, tables, ids).value;
      ReadElements(ts + more, s, tables, ids) == Ok((read.0, read.1 + more))
    decreases |ids|
  {
    hide ReadBody;
    if ids != [] {
      NextMore(ts, more);
      BodyMore(ts[1..], more, s, tables, ids[0]);
      var (_, after) := ReadElement(ts, s, tables, ids[0]).value;
      ElementsMore(after, more, s, tables, ids[1..]);
    }
  }

  lemma {:induction false} IdListMore(ts: Toks, more: Toks, n: nat)
    requires ReadIdList(ts, n).Ok?
    ensures ReadIdList(ts + more, n) == Ok((ReadIdList(ts, n).value.0, ReadIdList(ts, n).value.1 + more))
  {
    hide ReadId;
    if n > 0 {
      NextMore(ts, more);
      IdListMore(ts[1..], more, n - 1);
    }
  }

  lemma IdsMore(ts: Toks, more: Toks)
    requires ReadIds(ts).Ok?
    ensures ReadIds(ts + more) == Ok((ReadIds(ts).value.0, ReadIds(ts).value.1 + more))
  {
    hide ReadIdList, Remaining;
    NextMore(ts, more);
    MoreRemains(ts[1..], more);
    IdListMore(ts[1..], more, ts[0].len);
  }

  lemma {:induction false} PairListMore(ts: Toks, more: Toks, sec: Section, n: nat, low: nat)
    requires ReadPairList(ts, sec, n, low).Ok?
    ensures
      var read := ReadPairList(ts, sec, n, low).value;
      ReadPairList(ts + more, sec, n, low) == Ok((read.0, read.1 + more))
    decreases n
  {
    hide ValueFits;
    if n > 0 {
      NextMore(ts, more);
      NextMore(ts[1..], more);
      PairListMore(ts[1..][1..], more, sec, n - 1, ts[0].n + 1);
    }
  }

  lemma SectionMore(present: bool, ts: Toks, more: Toks, sec: Section)
    requires ReadIf(present, ts, sec).Ok?
    ensures
      ReadIf(present, ts + more, sec)
      == Ok((ReadIf(present, ts, sec).value.0, ReadIf(present, ts, sec).value.1 + more))
  {
    hide ReadPairList, Remaining, Ascending, ValueFits;
    if present {
      NextMore(ts, more);
      MoreRemains(ts[1..], more);
      PairListMore(ts[1..], more, sec, ts[0].len, 0);
    }
  }

  // ---- snapshots -------------------------------------------------------------------

  lemma SnapshotBodyEnds(tables: Tables, ts: Toks, more: Toks, implied: bool, hasUnits: bool)
    requires DecodeBody(tables, ts, implied, hasUnits).Ok? && more != []
    ensures DecodeBody(tables, ts + more, implied, hasUnits).Err?
  {
    hide ReadIds, ReadElements, ReadIf, FillOwners, LastBelow;
    var (exts, ts1) := ReadIds(ts).value;
    var (ids, ts2) := ReadIds(ts1).value;
    var (n, ts3) := ReadArray(ts2).value;
    var s := Space(ids, [], exts);
    var (_, ts4) := ReadElements(ts3, s, tables, ids).value;
    var (_, ts5) := ReadIf(implied, ts4, OwnerBits).value;
    IdsMore(ts, more);
    IdsMore(ts1, more);
    NextMore(ts2, more);
    ElementsMore(ts3, more, s, tables, ids);
    SectionMore(implied, ts4, more, OwnerBits);
    SectionMore(hasUnits, ts5, more, UnitPaths);
    assert [] + more == more;
  }

  /** Anything after an accepted snapshot makes it refused. */
  lemma SnapshotEnds(tables: Tables, ts: Toks, more: Toks)
    requires Decode(tables, ts).Ok? && more != []
    ensures Decode(tables, ts + more).Err?
  {
    hide DecodeBody, ParseHeader, GateSnapshot, Bit;
    NextMore(ts, more);
    NextMore(ts[1..], more);
    var (_, flags) := ParseHeader(ts[1].n).value;
    SnapshotBodyEnds(tables, ts[1..][1..], more, Bit(flags, FLAG_IMPLIED_OWNERS), Bit(flags, FLAG_UNIT_PATHS));
  }

  // ---- deltas ----------------------------------------------------------------------

  lemma ItemsMore(ts: Toks, more: Toks, s: Space, f: Field, n: nat)
    requires ReadItems(ts, s, f, n).Ok?
    ensures ReadItems(ts + more, s, f, n) == Ok((ReadItems(ts, s, f, n).value.0, ReadItems(ts, s, f, n).value.1 + more))
  {
    hide ReadRefs, ReadTexts;
    if f.kind.KRefList? {
      RefsMore(ts, more, s, n);
    } else if f.kind.KStrList? {
      TextsMore(ts, more, n);
    }
  }

  lemma SpliceMore(ts: Toks, more: Toks, s: Space, f: Field)
    requires ReadSplice(ts, s, f).Ok?
    ensures ReadSplice(ts + more, s, f) == Ok((ReadSplice(ts, s, f).value.0, ReadSplice(ts, s, f).value.1 + more))
  {
    hide ReadItems, Remaining;
    var ts4 := ts[1..][1..][1..][1..];
    NextMore(ts, more);
    NextMore(ts[1..], more);
    NextMore(ts[1..][1..], more);
    NextMore(ts[1..][1..][1..], more);
    MoreRemains(ts4, more);
    ItemsMore(ts4, more, s, f, ts[1..][1..][1..][0].len);
  }

  lemma OpMore(ts: Toks, more: Toks, s: Space, f: Field)
    requires ReadOp(ts, s, f).Ok?
    ensures ReadOp(ts + more, s, f) == Ok((ReadOp(ts, s, f).value.0, ReadOp(ts, s, f).value.1 + more))
  {
    hide ReadValue, ReadSplice;
    var code, ts2 := ts[1..][0].n, ts[1..][1..];
    NextMore(ts, more);
    NextMore(ts[1..], more);
    if code == OP_SET {
      ValueMore(ts2, more, s, f);
    } else if code == OP_UNSET {
      NextMore(ts2, more);
    } else {
      SpliceMore(ts2, more, s, f);
    }
  }

  lemma {:induction false} PatchOpsMore(
      ts: Toks, more: Toks, s: Space, fields: seq<Field>, n: nat, low: nat, props: Props)
    requires ReadPatchOps(ts, s, fields, n, low, props).Ok?
    ensures
      var read := ReadPatchOps(ts, s, fields, n, low, props).value;
      ReadPatchOps(ts + more, s, fields, n, low, props) == Ok((read.0, read.1 + more))
    decreases n
  {
    hide ReadOp, ApplyOp;
    if n > 0 {
      var ord := ts[0].n;
      NextMore(ts, more);
      OpMore(ts[1..], more, s, fields[ord]);
      var (op, rest) := ReadOp(ts[1..], s, fields[ord]).value;
      PatchOpsMore(rest, more, s, fields, n - 1, ord + 1, ApplyOp(fields[ord].name, op, props).value);
    }
  }

  lemma PatchMore(ts: Toks, more: Toks, s: Space, tables: Tables, n: nat, base: Element)
    requires ReadPatch(ts, s, tables, n, base).Ok?
    ensures
      var read := ReadPatch(ts, s, tables, n, base).value;
      ReadPatch(ts + more, s, tables, n, base) == Ok((read.0, read.1 + more))
  {
    hide ReadPatchOps, Remaining;
    MoreRemains(ts, more);
    PatchOpsMore(ts, more, s, FieldsOf(tables, base.ty), n, 0, base.props);
  }

  lemma PayloadMore(
      ts: Toks, more: Toks, s: Space, tables: Tables, base: Doc, portable: bool, created: seq<Uuid>, next: nat,
      target: Target)
    requires target.Held? ==> target.at < |base|
    requires ReadPayload(ts, s, tables, base, portable, created, next, target).Ok?
    ensures
      var read := ReadPayload(ts, s, tables, base, portable, created, next, target).value;
      ReadPayload(ts + more, s, tables, base, portable, created, next, target) == Ok((read.0, read.1 + more))
  {
    hide ReadPatch, ReadBody, TargetId;
    NextMore(ts, more);
    var t, rest := ts[0], ts[1..];
    if t.Map? {
      PatchMore(rest, more, s, tables, t.len, base[target.at]);
    } else if t == Array(3) {
      BodyMore(rest, more, s, tables, TargetId(base, created, next, target).value);
    }
  }

  lemma ActMore(
      ts: Toks, more: Toks, s: Space, tables: Tables, base: Doc, portable: bool, created: seq<Uuid>, next: nat)
    requires ReadAct(ts, s, tables, base, portable, created, next).Ok?
    ensures
      var read := ReadAct(ts, s, tables, base, portable, created, next).value;
      ReadAct(ts + more, s, tables, base, portable, created, next) == Ok((read.0, read.1 + more))
  {
    hide ReadPayload, ReadTarget;
    NextMore(ts, more);
    NextMore(ts[1..], more);
    var target := ReadTarget(ts[1..][0], base, portable).value;
    PayloadMore(ts[1..][1..], more, s, tables, base, portable, created, next, target);
  }

  lemma {:induction false} ActsMore(
      ts: Toks, more: Toks, s: Space, tables: Tables, base: Doc, portable: bool, created: seq<Uuid>, next: nat, n: nat)
    requires ReadActs(ts, s, tables, base, portable, created, next, n).Ok?
    ensures
      var read := ReadActs(ts, s, tables, base, portable, created, next, n).value;
      ReadActs(ts + more, s, tables, base, portable, created, next, n) == Ok((read.0, read.1, read.2 + more))
    decreases n
  {
    hide ReadAct;
    if n > 0 {
      var (act, rest) := ReadAct(ts, s, tables, base, portable, created, next).value;
      ActMore(ts, more, s, tables, base, portable, created, next);
      ActsMore(rest, more, s, tables, base, portable, created, if act.Create? then next + 1 else next, n - 1);
    }
  }

  lemma FinishEnds(
      hash: Hash, tables: Tables, ts: Toks, more: Toks, base: Doc, st: State, h: Header, matched: bool)
    requires DistinctIds(base) && SoundState(Ids(base), st) && more != []
    requires Finish(hash, tables, ts, base, st, h, matched).Ok?
    ensures Finish(hash, tables, ts + more, base, st, h, matched).Err?
  {
    hide ReadIf, NameShipped, NonEmptyPaths, Applied, Digest, LastBelow, DistinctIds, SoundState;
    var (_, ts1) := ReadIf(h.implied, ts, OwnerBits).value;
    SectionMore(h.implied, ts, more, OwnerBits);
    SectionMore(h.units, ts1, more, UnitPaths);
    assert [] + more == more;
  }

  lemma DeltaBodyEnds(hash: Hash, tables: Tables, ts: Toks, more: Toks, base: Doc, h: Header, matched: bool)
    requires DistinctIds(base) && more != [] && ApplyBody(hash, tables, ts, base, h, matched).Ok?
    ensures ApplyBody(hash, tables, ts + more, base, h, matched).Err?
  {
    hide ReadIds, ReadActs, Run, Finish, Remaining, INITIAL, DistinctIds, SoundState;
    var (_, ts1) := ReadUint(ts).value;
    var (exts, ts2) := ReadIds(ts1).value;
    var (created, ts3) := ReadIds(ts2).value;
    var (n, ts4) := ReadArray(ts3).value;
    var s := Space(if h.portable then [] else Ids(base), created, exts);
    var (acts, _, ts5) := ReadActs(ts4, s, tables, base, h.portable, created, 0, n).value;
    NextMore(ts, more);
    IdsMore(ts1, more);
    IdsMore(ts2, more);
    NextMore(ts3, more);
    MoreRemains(ts4, more);
    ActsMore(ts4, more, s, tables, base, h.portable, created, 0, n);
    RunStarts(base);
    RunSound(h.portable, Ids(base), INITIAL, acts);
    FinishEnds(hash, tables, ts5, more, base, Run(h.portable, Ids(base), INITIAL, acts).value, h, matched);
  }

  lemma RunStarts(base: Doc)
    ensures SoundState(Ids(base), INITIAL)
  {
  }

  lemma {:induction false} ClaimsMore(ts: Toks, more: Toks, n: nat)
    requires ReadClaimList(ts, n).Ok?
    ensures ReadClaimList(ts + more, n) == Ok((ReadClaimList(ts, n).value.0, ReadClaimList(ts, n).value.1 + more))
  {
    hide IsClaim;
    if n > 0 {
      NextMore(ts, more);
      NextMore(ts[1..], more);
      ClaimsMore(ts[1..][1..], more, n - 1);
    }
  }

  lemma ClaimSectionMore(ts: Toks, more: Toks)
    requires ReadClaims(ts).Ok?
    ensures ReadClaims(ts + more) == Ok((ReadClaims(ts).value.0, ReadClaims(ts).value.1 + more))
  {
    hide ReadClaimList, Remaining;
    NextMore(ts, more);
    MoreRemains(ts[1..], more);
    ClaimsMore(ts[1..], more, ts[0].len);
  }

  lemma HeaderMore(ts: Toks, more: Toks, lenient: bool)
    requires ReadHeader(ts, lenient).Ok?
    ensures
      ReadHeader(ts + more, lenient) == Ok((ReadHeader(ts, lenient).value.0, ReadHeader(ts, lenient).value.1 + more))
  {
    hide ParseHeader, GateDelta, Bit, ReadId, ReadClaims;
    var ts2 := ts[1..][1..];
    var ts3 := ts2[1..];
    NextMore(ts, more);
    NextMore(ts[1..], more);
    NextMore(ts2, more);
    NextMore(ts3, more);
    NextMore(ts3[1..], more);
    ClaimSectionMore(ts3[1..][1..], more);
  }

  /** Anything after an accepted delta makes it refused. */
  lemma DeltaEnds(hash: Hash, tables: Tables, ts: Toks, more: Toks, base0: Doc, lenient: bool)
    requires DistinctIds(base0) && more != [] && ApplyDelta(hash, tables, ts, base0, lenient).Ok?
    ensures ApplyDelta(hash, tables, ts + more, base0, lenient).Err?
  {
    hide ReadHeader, Canonical, Digest, ApplyBody, DistinctIds;
    var (h, rest) := ReadHeader(ts, lenient).value;
    var base := Canonical(base0);
    HeaderMore(ts, more, lenient);
    DeltaBodyEnds(hash, tables, rest, more, base, h, Digest(hash, tables, base).value == h.baseDigest);
  }

  // ---- resolved deltas -------------------------------------------------------------

  lemma {:induction false} ParsedMore(ts: Toks, more: Toks, s: Space, fields: seq<Field>, n: nat, low: nat)
    requires ParseOps(ts, s, fields, n, low).Ok?
    ensures
      var read := ParseOps(ts, s, fields, n, low).value;
      ParseOps(ts + more, s, fields, n, low) == Ok((read.0, read.1 + more))
    decreases n
  {
    hide ReadOp;
    if n > 0 {
      var ord := ts[0].n;
      NextMore(ts, more);
      OpMore(ts[1..], more, s, fields[ord]);
      var (_, rest) := ReadOp(ts[1..], s, fields[ord]).value;
      ParsedMore(rest, more, s, fields, n - 1, ord + 1);
    }
  }

  lemma ResolvedPayloadMore(
      ts: Toks, more: Toks, s: Space, tables: Tables, base: Option<BaseIndex>, target: RecordTarget)
    requires (target.ToBase? ==> base.Some?) && ResolvePayload(ts, s, tables, base, target).Ok?
    ensures
      var read := ResolvePayload(ts, s, tables, base, target).value;
      ResolvePayload(ts + more, s, tables, base, target) == Ok((read.0, read.1 + more))
  {
    hide ParseOps, ReadBody, Name, Remaining, FieldsAt;
    NextMore(ts, more);
    var t, rest := ts[0], ts[1..];
    if t.Map? {
      MoreRemains(rest, more);
      ParsedMore(rest, more, s, FieldsAt(tables, base.value, target.index), t.len, 0);
    } else if t == Array(3) {
      BodyMore(rest, more, s, tables, target.id);
    }
  }

  lemma ResolvedRecordMore(
      ts: Toks, more: Toks, s: Space, tables: Tables, base: Option<BaseIndex>, created: seq<Uuid>, next: nat)
    requires ResolveRecord(ts, s, tables, base, created, next).Ok?
    ensures
      var read := ResolveRecord(ts, s, tables, base, created, next).value;
      ResolveRecord(ts + more, s, tables, base, created, next) == Ok((read.0, read.1 + more))
  {
    hide ResolvePayload, ResolveTarget;
    NextMore(ts, more);
    NextMore(ts[1..], more);
    var target := ResolveTarget(ts[1..][0], base, created, next).value;
    ResolvedPayloadMore(ts[1..][1..], more, s, tables, base, target);
  }

  lemma {:induction false} ResolvedRecordsMore(
      ts: Toks, more: Toks, s: Space, tables: Tables, base: Option<BaseIndex>, created: seq<Uuid>, next: nat, n: nat)
    requires ResolveRecords(ts, s, tables, base, created, next, n).Ok?
    ensures
      var read := ResolveRecords(ts, s, tables, base, created, next, n).value;
      ResolveRecords(ts + more, s, tables, base, created, next, n) == Ok((read.0, read.1, read.2 + more))
    decreases n
  {
    hide ResolveRecord;
    if n > 0 {
      var (rec, rest) := ResolveRecord(ts, s, tables, base, created, next).value;
      ResolvedRecordMore(ts, more, s, tables, base, created, next);
      ResolvedRecordsMore(rest, more, s, tables, base, created,
        if rec.target.ToCreate? then next + 1 else next, n - 1);
    }
  }

  lemma ResolvedBodyEnds(ts: Toks, more: Toks, tables: Tables, base: Option<BaseIndex>, h: Header, claims: Pairs)
    requires ResolveBody(ts, tables, base, h, claims).Ok? && more != []
    ensures ResolveBody(ts + more, tables, base, h, claims).Err?
  {
    hide ReadIds, ResolveRecords, Remaining, ReadIf, NameElements, WithBits;
    var ids := if base.Some? then base.value.ids else [];
    var (_, ts1) := ReadUint(ts).value;
    var (exts, ts2) := ReadIds(ts1).value;
    var (created, ts3) := ReadIds(ts2).value;
    var (n, ts4) := ReadArray(ts3).value;
    var s := Space(ids, created, exts);
    var (_, _, ts5) := ResolveRecords(ts4, s, tables, base, created, 0, n).value;
    var (_, ts6) := ReadIf(h.implied, ts5, OwnerBits).value;
    NextMore(ts, more);
    IdsMore(ts1, more);
    IdsMore(ts2, more);
    NextMore(ts3, more);
    MoreRemains(ts4, more);
    ResolvedRecordsMore(ts4, more, s, tables, base, created, 0, n);
    SectionMore(h.implied, ts5, more, OwnerBits);
    SectionMore(h.units, ts6, more, UnitPaths);
    assert [] + more == more;
  }

  lemma ResolvedHeaderMore(ts: Toks, more: Toks, indexed: bool)
    requires ResolveHeader(ts, indexed).Ok?
    ensures
      var read := ResolveHeader(ts, indexed).value;
      ResolveHeader(ts + more, indexed) == Ok((read.0, read.1, read.2 + more))
  {
    hide ParseHeader, GateResolve, Bit, ReadId, ReadClaims;
    var ts2 := ts[1..][1..];
    var ts3 := ts2[1..];
    NextMore(ts, more);
    NextMore(ts[1..], more);
    NextMore(ts2, more);
    NextMore(ts3, more);
    NextMore(ts3[1..], more);
    ClaimSectionMore(ts3[1..][1..], more);
  }

  /** Nor does anything follow a delta that resolves. */
  lemma ResolvedEnds(tables: Tables, ts: Toks, more: Toks, base: Option<BaseIndex>)
    requires Resolve(tables, ts, base).Ok? && more != []
    ensures Resolve(tables, ts + more, base).Err?
  {
    hide ResolveHeader, ResolveBody;
    var (h, claims, rest) := ResolveHeader(ts, base.Some?).value;
    ResolvedHeaderMore(ts, more, base.Some?);
    ResolvedBodyEnds(rest, more, tables, base, h, claims);
  }

  // ---- bytes -----------------------------------------------------------------------

  lemma HeadMore(b: seq<byte>, more: seq<byte>)
    requires ReadHead(b).Ok?
    ensures ReadHead(b + more) == ReadHead(b)
  {
    hide FromBe;
    assert (b + more)[0] == b[0] && (b + more)[1..] == b[1..] + more;
    var major, ai := b[0] / 32, b[0] % 32;
    if major == 7 && ai == 27 {
      assert (b + more)[1..9] == b[1..9];
    } else if major < 6 && 24 <= ai <= 27 {
      var width := if ai == 24 then 1 else if ai == 25 then 2 else if ai == 26 then 4 else 8;
      assert (b[1..] + more)[..width] == b[1..][..width];
    }
  }

  lemma TokenMore(b: seq<byte>, more: seq<byte>)
    requires NextTok(b).Ok?
    ensures NextTok(b + more) == NextTok(b) && (b + more)[NextTok(b).value.1..] == b[NextTok(b).value.1..] + more
  {
    hide ReadHead;
    HeadMore(b, more);
    var (head, used) := ReadHead(b).value;
    if head.HBstr? || head.HTstr? {
      assert (b + more)[used..used + head.len] == b[used..used + head.len];
    }
  }

  /** What follows is read apart. */
  lemma {:induction false} LexMore(b: seq<byte>, more: seq<byte>)
    requires Lex(b).Ok?
    ensures
      Lex(b + more)
      == match Lex(more) case Ok(ts) => Ok(Lex(b).value + ts) case Err(kind) => Err(kind)
    decreases |b|
  {
    hide NextTok;
    if b == [] {
      assert b + more == more;
      assert Lex(more).Ok? ==> [] + Lex(more).value == Lex(more).value;
    } else {
      var (t, used) := NextTok(b).value;
      TokenMore(b, more);
      LexMore(b[used..], more);
      if Lex(more).Ok? {
        Assoc([t], Lex(b[used..]).value, Lex(more).value);
      }
    }
  }

  lemma SomeTokens(b: seq<byte>)
    requires b != [] && Lex(b).Ok?
    ensures Lex(b).value != []
  {
    hide NextTok;
  }

  /** No accepted snapshot file begins another. */
  lemma FileEnds(tables: Tables, b: seq<byte>, more: seq<byte>)
    requires FromCbor(tables, b).Ok? && more != []
    ensures FromCbor(tables, b + more).Err? && |b| >= 8 && b[..8] == [0xD9, 0xD9, 0xF7, 0xDA, 0x24, 0x53, 0x32, 0x43]
  {
    hide Decode, Lex;
    assert (b + more)[..8] == b[..8] && (b + more)[8..] == b[8..] + more;
    LexMore(b[8..], more);
    if Lex(more).Ok? {
      SomeTokens(more);
      SnapshotEnds(tables, Lex(b[8..]).value, Lex(more).value);
    }
  }

  /** Nor does an accepted delta file. */
  lemma DeltaFileEnds(hash: Hash, tables: Tables, b: seq<byte>, more: seq<byte>, base0: Doc, lenient: bool)
    requires DistinctIds(base0) && ApplyCbor(hash, tables, b, base0, lenient).Ok? && more != []
    ensures ApplyCbor(hash, tables, b + more, base0, lenient).Err?
    ensures |b| >= 8 && b[..8] == [0xD9, 0xD9, 0xF7, 0xDA, 0x24, 0x53, 0x32, 0x43]
  {
    hide ApplyDelta, Lex, DistinctIds;
    assert (b + more)[..8] == b[..8] && (b + more)[8..] == b[8..] + more;
    LexMore(b[8..], more);
    if Lex(more).Ok? {
      SomeTokens(more);
      DeltaEnds(hash, tables, Lex(b[8..]).value, Lex(more).value, base0, lenient);
    }
  }
}
