/** What any accepted payload must be, whoever wrote it: what its records hold, and where it ends. */
module Accepted {
  import opened Wrappers
  import opened Seqs
  import opened Cbor
  import opened Model
  import opened Owners
  import opened Values
  import opened Records
  import opened Sections
  import opened Snapshot
  import opened Patch
  import opened CanonDoc
  import opened Acts
  import opened Delta
  import opened Apply
  import opened Index
  import opened Lenient
  import opened Runs
  import opened TransitionRuns

  // ---- values ----------------------------------------------------------------------

  ghost predicate AllNamed(items: seq<Value>) {
    forall i :: 0 <= i < |items| ==> items[i].Ref? || items[i].Sym?
  }

  ghost predicate AllTexts(items: seq<Value>) {
    forall i :: 0 <= i < |items| ==> items[i].Str?
  }

  /** The tokens and kinds a value may be read from. */
  ghost predicate MadeOf(f: Field, t: Token, v: Value) {
    match v
    case Null => t == NullTok
    case Bool(b) => t == if b then True else False
    case Str(text) =>
      || (t == Tstr(text) && !f.kind.KRef?)
      || (f.kind.KEnum? && t.Uint? && t.n < |f.vocab| && f.vocab[t.n] == text)
    case Sym(name) => f.kind.KRef? && t == Tstr(name)
    case Ref(_) => f.kind.KRef? && t.Uint?
    case Int(i) => f.kind.KLiteral? && t == IntToken(i)
    case Float(bits) => f.kind.KLiteral? && t == F64(bits)
    case Arr(items) =>
      t == Array(|items|) && ((f.kind.KRefList? && AllNamed(items)) || (f.kind.KStrList? && AllTexts(items)))
    case Other(_) => false
  }

  lemma {:induction false} RefsTaken(ts: Toks, s: Space, n: nat)
    requires ReadRefs(ts, s, n).Ok?
    ensures AllNamed(ReadRefs(ts, s, n).value.0)
    ensures |ts| == n + |ReadRefs(ts, s, n).value.1|
  {
    if n > 0 {
      RefsTaken(ts[1..], s, n - 1);
    }
  }

  lemma {:induction false} TextsTaken(ts: Toks, n: nat)
    requires ReadTexts(ts, n).Ok?
    ensures AllTexts(ReadTexts(ts, n).value.0)
    ensures |ts| == n + |ReadTexts(ts, n).value.1|
  {
    if n > 0 {
      TextsTaken(ts[1..], n - 1);
    }
  }

  /** A value is read from its own kind of token, for its own kind of field, and from no other. */
  lemma ValueTaken(ts: Toks, s: Space, f: Field)
    requires ReadValue(ts, s, f).Ok?
    ensures
      var (v, rest) := ReadValue(ts, s, f).value;
      ts != [] && MadeOf(f, ts[0], v) && |ts| == |rest| + 1 + (if v.Arr? then |v.items| else 0)
  {
    hide ReadRefs, ReadTexts, EncAll;
    var t := ts[0];
    if t.Array? && f.kind.KRefList? {
      RefsTaken(ts[1..], s, t.len);
    } else if t.Array? && f.kind.KStrList? {
      TextsTaken(ts[1..], t.len);
    }
  }

  // ---- records ---------------------------------------------------------------------

  /** Ordinals ascending from `low` below `n`, none of them a presence bit. */
  ghost predicate Ordinals(ords: seq<nat>, low: nat, n: nat, word: nat) {
    && (forall i :: 0 <= i < |ords| ==> low <= ords[i] < n && !Bit(word, ords[i]))
    && forall i, j :: 0 <= i < j < |ords| ==> ords[i] < ords[j]
  }

  /** `after` holds what `before` does, and besides exactly the fields at `ords`. */
  ghost predicate Gains(fields: seq<Field>, before: Props, after: Props, ords: seq<nat>) {
    forall key :: key in after <==> key in before || exists k :: k in ords && k < |fields| && fields[k].name == key
  }

  lemma OrdinalsMore(o: nat, ords: seq<nat>, low: nat, n: nat, word: nat)
    requires low <= o < n && !Bit(word, o) && Ordinals(ords, o + 1, n, word)
    ensures Ordinals([o] + ords, low, n, word)
  {
    hide Bit;
  }

  lemma GainsMore(fields: seq<Field>, before: Props, now: Props, after: Props, o: nat, ords: seq<nat>)
    requires o < |fields| && Gains(fields, now, after, ords)
    requires now.Keys == before.Keys + {fields[o].name}
    ensures Gains(fields, before, after, [o] + ords)
  {
    forall key
      ensures
        key in after
        <==> key in before || exists k :: k in [o] + ords && k < |fields| && fields[k].name == key
    {
      assert key in now <==> key in now.Keys;
      assert key in before <==> key in before.Keys;
      if k :| k in ords && k < |fields| && fields[k].name == key {
        assert k in [o] + ords;
      }
      if key == fields[o].name {
        assert o in [o] + ords;
      }
    }
  }

  /** The entries read: as many as announced, at ascending ordinals that no presence bit marks. */
  lemma {:induction false} EntriesTaken(
      ts: Toks, s: Space, fields: seq<Field>, word: nat, n: nat, low: nat, props: Props) returns (ords: seq<nat>)
    requires ReadEntries(ts, s, fields, word, n, low, props).Ok?
    ensures |ords| == n && Ordinals(ords, low, |fields|, word)
    ensures Gains(fields, props, ReadEntries(ts, s, fields, word, n, low, props).value.0, ords)
    decreases n
  {
    hide ReadValue, Bit, Ordinals, Gains;
    ords := [];
    if n == 0 {
      NoneGained(fields, props, low, word);
    } else {
      var o, after := ts[0].n, ts[1..];
      var (v, rest) := ReadValue(after, s, fields[o]).value;
      var now := props[fields[o].name := v];
      var more := EntriesTaken(rest, s, fields, word, n - 1, o + 1, now);
      OrdinalsMore(o, more, low, |fields|, word);
      GainsMore(fields, props, now, ReadEntries(ts, s, fields, word, n, low, props).value.0, o, more);
      ords := [o] + more;
    }
  }

  lemma NoneGained(fields: seq<Field>, props: Props, low: nat, word: nat)
    ensures Ordinals([], low, |fields|, word) && Gains(fields, props, props, [])
  {
  }

  /** The defaults a presence word restores, and where: exactly at its bits. */
  lemma {:induction false} DefaultsTaken(fields: seq<Field>, word: nat, id: Uuid, k: nat, props: Props)
    requires k <= |fields| && FillDefaults(fields, word, id, k, props).Ok? && NoDup(FieldNames(fields))
    ensures
      var filled := FillDefaults(fields, word, id, k, props).value;
      && (forall i :: k <= i < |fields| && Bit(word, i) ==>
            fields[i].name in filled && DefaultValue(fields[i], id) == Some(filled[fields[i].name]))
      && (forall key :: key in props ==> key in filled)
      && (forall key :: key in filled ==>
            (key in props && filled[key] == props[key])
            || exists i :: k <= i < |fields| && Bit(word, i) && fields[i].name == key)
      && (forall i :: 0 <= i < k && fields[i].name in props ==>
            fields[i].name in filled && filled[fields[i].name] == props[fields[i].name])
    decreases |fields| - k
  {
    hide Bit, DefaultValue, FieldNames;
    if k < |fields| {
      if Bit(word, k) {
        var f := fields[k];
        var now := props[f.name := DefaultValue(f, id).value];
        DefaultsTaken(fields, word, id, k + 1, now);
        assert forall i :: 0 <= i < k ==> FieldNames(fields)[i] != FieldNames(fields)[k];
      } else {
        DefaultsTaken(fields, word, id, k + 1, props);
      }
    }
  }

  lemma {:induction false} NoBitsAbove(word: nat, n: nat, i: nat)
    requires Shift(word, n) == 0 && n <= i
    ensures !Bit(word, i)
  {
    if n > 0 {
      NoBitsAbove(word / 2, n - 1, i - 1);
    } else {
      NoBit(i);
    }
  }

  /** The fields a record holds: those its presence word marks and those its entries are for. */
  ghost predicate HoldsExactly(fields: seq<Field>, word: nat, ords: seq<nat>, props: Props) {
    forall key ::
      key in props <==> exists k :: 0 <= k < |fields| && fields[k].name == key && (Bit(word, k) || k in ords)
  }

  lemma HoldsAll(fields: seq<Field>, word: nat, id: Uuid, ords: seq<nat>, props: Props)
    requires Gains(fields, map[], props, ords) && Ordinals(ords, 0, |fields|, word)
    requires FillDefaults(fields, word, id, 0, props).Ok? && NoDup(FieldNames(fields))
    ensures HoldsExactly(fields, word, ords, FillDefaults(fields, word, id, 0, props).value)
  {
    hide Bit, DefaultValue, FieldNames, FillDefaults, Gains;
    DefaultsTaken(fields, word, id, 0, props);
    var filled := FillDefaults(fields, word, id, 0, props).value;
    forall key
      ensures
        key in filled <==> exists k :: 0 <= k < |fields| && fields[k].name == key && (Bit(word, k) || k in ords)
    {
      GainedIs(fields, props, ords, key);
      if k :| 0 <= k < |fields| && fields[k].name == key && k in ords {
        assert key in props;
      }
    }
  }

  lemma GainedIs(fields: seq<Field>, props: Props, ords: seq<nat>, key: Prop)
    requires Gains(fields, map[], props, ords)
    ensures key in props <==> exists k :: k in ords && k < |fields| && fields[k].name == key
  {
  }

  /**
    An accepted record: a metaclass the tables have, no presence bit beyond its fields, as many
    entries as announced, at ascending ordinals no bit marks. Its element has exactly the
    properties so named, each one marked by a bit at its default.
   */
  lemma RecordTaken(ts: Toks, s: Space, tables: Tables, id: Uuid) returns (ords: seq<nat>)
    requires ValidTables(tables) && ReadBody(ts, s, tables, id).Ok?
    ensures |ts| >= 3 && ts[0].Uint? && ts[0].n < |tables| && ts[1].Uint? && ts[2].Map?
    ensures
      var e, fields, word := ReadBody(ts, s, tables, id).value.0, tables[ts[0].n].fields, ts[1].n;
      && e.id == id && e.ty == tables[ts[0].n].name
      && (forall i: nat :: i >= |fields| ==> !Bit(word, i))
      && |ords| == ts[2].len && Ordinals(ords, 0, |fields|, word)
      && HoldsExactly(fields, word, ords, e.props)
      && forall i :: 0 <= i < |fields| && Bit(word, i) ==>
           fields[i].name in e.props && DefaultValue(fields[i], id) == Some(e.props[fields[i].name])
  {
    hide Bit, Shift, DefaultValue, ReadEntries, FillDefaults, FieldNames, HoldsExactly, Ordinals, Gains;
    var fields, word := tables[ts[0].n].fields, ts[1].n;
    var rest := ts[1..][1..][1..];
    assert tables[ts[0].n] in tables;
    NamesOnce(fields);
    ords := EntriesTaken(rest, s, fields, word, ts[2].len, 0, map[]);
    var props := ReadEntries(rest, s, fields, word, ts[2].len, 0, map[]).value.0;
    HoldsAll(fields, word, id, ords, props);
    DefaultsTaken(fields, word, id, 0, props);
    forall i: nat | i >= |fields| ensures !Bit(word, i) {
      NoBitsAbove(word, |fields|, i);
    }
  }

  lemma NamesOnce(fields: seq<Field>)
    requires ValidFields(fields)
    ensures NoDup(FieldNames(fields))
  {
  }

  // ---- snapshots -------------------------------------------------------------------

  lemma {:induction false} ElementsNamed(ts: Toks, s: Space, tables: Tables, ids: seq<Uuid>)
    requires ReadElements(ts, s, tables, ids).Ok?
    ensures Ids(ReadElements(ts, s, tables, ids).value.0) == ids
    decreases |ids|
  {
    hide ReadElement;
    if ids != [] {
      var (e, after) := ReadElement(ts, s, tables, ids[0]).value;
      ElementNamed(ts, s, tables, ids[0]);
      ElementsNamed(after, s, tables, ids[1..]);
    }
  }

  lemma ElementNamed(ts: Toks, s: Space, tables: Tables, id: Uuid)
    requires ReadElement(ts, s, tables, id).Ok?
    ensures ReadElement(ts, s, tables, id).value.0.id == id
  {
    hide ReadEntries, FillDefaults, Shift;
  }

  lemma UnitsBelow(units: Pairs, n: nat)
    requires PairsFit(UnitPaths, units) && LastBelow(units, n)
    ensures Ascending(units) && forall i :: 0 <= i < |units| ==> units[i].0 < n && units[i].1.Tstr?
  {
  }

  lemma NoUnits()
    ensures PairsFit(UnitPaths, [])
  {
  }

  /** The owner exceptions of a snapshot's body name elements below `n`. */
  ghost predicate NamesWithin(ts: Toks, tables: Tables, implied: bool, n: nat)
    requires ReadIds(ts).Ok? && ReadIds(ReadIds(ts).value.1).Ok? && ReadArray(ReadIds(ReadIds(ts).value.1).value.1).Ok?
  {
    var (exts, ts1) := ReadIds(ts).value;
    var (ids, ts2) := ReadIds(ts1).value;
    var read := ReadElements(ReadArray(ts2).value.1, Space(ids, [], exts), tables, ids);
    && read.Ok? && ReadIf(implied, read.value.1, OwnerBits).Ok?
    && forall p :: p in ReadIf(implied, read.value.1, OwnerBits).value.0 ==> p.0 < n
  }

  /**
    An accepted snapshot: as many elements as identities, under those identities in table order,
    owner exceptions of elements of it, and units that name elements of it in ascending order.
   */
  lemma SnapshotLaidOut(tables: Tables, ts: Toks, implied: bool, hasUnits: bool)
    requires DecodeBody(tables, ts, implied, hasUnits).Ok?
    ensures
      var (doc, units) := DecodeBody(tables, ts, implied, hasUnits).value;
      && ReadIds(ts).Ok? && ReadIds(ReadIds(ts).value.1).Ok?
      && Ids(doc) == ReadIds(ReadIds(ts).value.1).value.0
      && ReadArray(ReadIds(ReadIds(ts).value.1).value.1).Ok?
      && ReadArray(ReadIds(ReadIds(ts).value.1).value.1).value.0 == |doc|
      && Ascending(units) && (forall i :: 0 <= i < |units| ==> units[i].0 < |doc| && units[i].1.Tstr?)
      && NamesWithin(ts, tables, implied, |doc|)
  {
    hide ReadIds, ReadElements, ReadPairs, FillElement, Ascending, PairsFit, DerivedOwner, BitsAt;
    var (exts, ts1) := ReadIds(ts).value;
    var (ids, ts2) := ReadIds(ts1).value;
    var (n, ts3) := ReadArray(ts2).value;
    ElementsNamed(ts3, Space(ids, [], exts), tables, ids);
    var (raw, ts4) := ReadElements(ts3, Space(ids, [], exts), tables, ids).value;
    var (exceptions, ts5) := ReadIf(implied, ts4, OwnerBits).value;
    FilledNamed(tables, raw, exceptions);
    NoUnits();
    UnitsBelow(ReadIf(hasUnits, ts5, UnitPaths).value.0, n);
    NoExceptions();
    LastIsGreatest(exceptions, n);
  }

  lemma NoExceptions()
    ensures PairsFit(OwnerBits, [])
  {
  }

  lemma LastIsGreatest(pairs: Pairs, n: nat)
    requires PairsFit(OwnerBits, pairs) && LastBelow(pairs, n)
    ensures forall i :: 0 <= i < |pairs| ==> pairs[i].0 < n
  {
  }

  lemma FilledNamed(tables: Tables, doc: Doc, pairs: Pairs)
    ensures Ids(FillOwners(tables, doc, pairs)) == Ids(doc)
  {
    hide DerivedOwner, BitsAt, FillSlot;
  }

  // ---- deltas ----------------------------------------------------------------------

  /** An applier reports units only of elements of the result, ascending, each under a path. */
  lemma UnitsReported(hash: Hash, tables: Tables, ts: Toks, base0: Doc, lenient: bool)
    requires DistinctIds(base0) && ApplyDelta(hash, tables, ts, base0, lenient).Ok?
    ensures
      var (value, report) := ApplyDelta(hash, tables, ts, base0, lenient).value;
      ValidUnits(report.units, |value|)
  {
    hide ReadHeader, Canonical, Digest, ReadUint, ReadIds, ReadArray, ReadActs, Run, Finish, EncAll, INITIAL, Ids,
      DistinctIds, ValidUnits;
    var (h, rest) := ReadHeader(ts, lenient).value;
    var base := Canonical(base0);
    var held := Digest(hash, tables, base).value;
    BodyFinishes(hash, tables, rest, base, h, held == h.baseDigest);
  }

  lemma BodyFinishes(hash: Hash, tables: Tables, ts: Toks, base: Doc, h: Header, matched: bool)
    requires DistinctIds(base) && ApplyBody(hash, tables, ts, base, h, matched).Ok?
    ensures
      var (value, report) := ApplyBody(hash, tables, ts, base, h, matched).value;
      ValidUnits(report.units, |value|)
  {
    hide ReadUint, ReadIds, ReadArray, ReadActs, Run, Finish, EncAll, INITIAL, Ids, DistinctIds, ValidUnits, SoundState;
    var (_, ts1) := ReadUint(ts).value;
    var (exts, ts2) := ReadIds(ts1).value;
    var (created, ts3) := ReadIds(ts2).value;
    var (n, ts4) := ReadArray(ts3).value;
    var s := Space(if h.portable then [] else Ids(base), created, exts);
    var (acts, _, ts5) := ReadActs(ts4, s, tables, base, h.portable, created, 0, n).value;
    var st := Run(h.portable, Ids(base), INITIAL, acts).value;
    RunStartsSound(base);
    RunSound(h.portable, Ids(base), INITIAL, acts);
    FinishUnits(hash, tables, ts5, base, st, h, matched);
  }

  lemma RunStartsSound(base: Doc)
    ensures SoundState(Ids(base), INITIAL)
  {
  }

  lemma FinishUnits(hash: Hash, tables: Tables, ts: Toks, base: Doc, st: State, h: Header, matched: bool)
    requires DistinctIds(base) && SoundState(Ids(base), st) && Finish(hash, tables, ts, base, st, h, matched).Ok?
    ensures
      var (value, report) := Finish(hash, tables, ts, base, st, h, matched).value;
      ValidUnits(report.units, |value|)
  {
    hide ReadPairs, Applied, Digest, NameShipped, DistinctIds, SoundState, Ascending, PairsFit, Ids;
    NoUnits();
    var (exceptions, ts1) := ReadIf(h.implied, ts, OwnerBits).value;
    var (units, rest) := ReadIf(h.units, ts1, UnitPaths).value;
    UnitsBelow(units, |Applied(tables, base, st, h.implied, exceptions)|);
  }

  lemma CreateNamed(
      ts: Toks, s: Space, tables: Tables, base: Doc, portable: bool, created: seq<Uuid>, next: nat)
    requires ReadAct(ts, s, tables, base, portable, created, next).Ok?
    ensures
      var act := ReadAct(ts, s, tables, base, portable, created, next).value.0;
      act.Create? ==> next < |created| && act.e.id == created[next]
  {
    hide ReadBody, ReadPatch;
  }

  lemma CreatedHead(act: Act, rest: Acts)
    ensures Ids(CreatedBy([act] + rest)) == (if act.Create? then [act.e.id] else []) + Ids(CreatedBy(rest))
    ensures Ids(CreatedBy([])) == []
  {
    assert ([act] + rest)[1..] == rest;
  }

  /** The identities created, in record order, are those of the table, from one position to another. */
  lemma {:induction false} CreatesTaken(
      ts: Toks, s: Space, tables: Tables, base: Doc, portable: bool, created: seq<Uuid>, next: nat, n: nat)
    requires next <= |created| && ReadActs(ts, s, tables, base, portable, created, next, n).Ok?
    ensures
      var (acts, last, _) := ReadActs(ts, s, tables, base, portable, created, next, n).value;
      next <= last <= |created| && Ids(CreatedBy(acts)) == created[next..last]
    decreases n
  {
    hide ReadAct, CreatedBy, Ids;
    if n == 0 {
      CreatedHead(Delete(0), []);
    } else {
      var (act, rest) := ReadAct(ts, s, tables, base, portable, created, next).value;
      CreateNamed(ts, s, tables, base, portable, created, next);
      var after := if act.Create? then next + 1 else next;
      CreatesTaken(rest, s, tables, base, portable, created, after, n - 1);
      var (acts, last, _) := ReadActs(rest, s, tables, base, portable, created, after, n - 1).value;
      CreatedHead(act, acts);
      if act.Create? {
        assert [created[next]] + created[next + 1..last] == created[next..last];
      } else {
        assert [] + created[next..last] == created[next..last];
      }
    }
  }

  /**
    The records of an accepted delta: as many as announced, over an index space of the base's
    size, or none when portable, and creating exactly the identities of the created table, in
    its order.
   */
  lemma RecordsTaken(hash: Hash, tables: Tables, ts: Toks, base: Doc, h: Header, matched: bool)
    requires DistinctIds(base) && ApplyBody(hash, tables, ts, base, h, matched).Ok?
    ensures ReadUint(ts).Ok? && ReadUint(ts).value.0 == (if h.portable then 0 else |base|)
    ensures ReadIds(ReadUint(ts).value.1).Ok? && ReadIds(ReadIds(ReadUint(ts).value.1).value.1).Ok?
    ensures ReadArray(ReadIds(ReadIds(ReadUint(ts).value.1).value.1).value.1).Ok?
    ensures
      var (exts, ts2) := ReadIds(ReadUint(ts).value.1).value;
      var (created, ts3) := ReadIds(ts2).value;
      var (n, ts4) := ReadArray(ts3).value;
      var s := Space(if h.portable then [] else Ids(base), created, exts);
      var read := ReadActs(ts4, s, tables, base, h.portable, created, 0, n);
      && read.Ok? && |read.value.0| == n && Ids(CreatedBy(read.value.0)) == created
      && Run(h.portable, Ids(base), INITIAL, read.value.0).Some?
  {
    hide ReadUint, ReadIds, ReadArray, ReadActs, Run, Finish, EncAll, INITIAL, Ids, DistinctIds, SoundState, CreatedBy;
    var (_, ts1) := ReadUint(ts).value;
    var (exts, ts2) := ReadIds(ts1).value;
    var (created, ts3) := ReadIds(ts2).value;
    var (n, ts4) := ReadArray(ts3).value;
    var s := Space(if h.portable then [] else Ids(base), created, exts);
    CreatesTaken(ts4, s, tables, base, h.portable, created, 0, n);
    assert created[0..|created|] == created;
  }

  /** The records of a delta's body, and what follows them. */
  function RecordsRead(tables: Tables, ts: Toks, base: Doc, portable: bool): Result<(Acts, Toks)> {
    var (_, ts1) :- ReadUint(ts);
    var (exts, ts2) :- ReadIds(ts1);
    var (created, ts3) :- ReadIds(ts2);
    var (n, ts4) :- ReadArray(ts3);
    var s := Space(if portable then [] else Ids(base), created, exts);
    var (acts, _, rest) :- ReadActs(ts4, s, tables, base, portable, created, 0, n);
    Ok((acts, rest))
  }

  function RecordsOf(tables: Tables, ts: Toks, base: Doc, portable: bool): Result<Acts> {
    var (acts, _) :- RecordsRead(tables, ts, base, portable);
    Ok(acts)
  }

  /** The owner exceptions of an accepted delta name only records that shipped an element whole. */
  lemma ExceptionsTaken(hash: Hash, tables: Tables, ts: Toks, base: Doc, h: Header, matched: bool)
    requires DistinctIds(base) && ApplyBody(hash, tables, ts, base, h, matched).Ok?
    ensures RecordsRead(tables, ts, base, h.portable).Ok?
    ensures
      var (acts, rest) := RecordsRead(tables, ts, base, h.portable).value;
      && ReadIf(h.implied, rest, OwnerBits).Ok?
      && forall p :: p in ReadIf(h.implied, rest, OwnerBits).value.0 ==> p.0 < |acts| && ShippedOf(acts[p.0]).Some?
  {
    hide ReadUint, ReadIds, ReadArray, ReadActs, Run, EncAll, INITIAL, Ids, DistinctIds, SoundState, ShippedOf,
      ReadPairs, Applied, Digest, RunSays, Taken;
    var (_, ts1) := ReadUint(ts).value;
    var (exts, ts2) := ReadIds(ts1).value;
    var (created, ts3) := ReadIds(ts2).value;
    var (n, ts4) := ReadArray(ts3).value;
    var s := Space(if h.portable then [] else Ids(base), created, exts);
    var (acts, _, ts5) := ReadActs(ts4, s, tables, base, h.portable, created, 0, n).value;
    var st := Run(h.portable, Ids(base), INITIAL, acts).value;
    RunStartsSound(base);
    RunSound(h.portable, Ids(base), INITIAL, acts);
    DistinctNoDup(base);
    AnyRun(h.portable, Ids(base), acts);
    ShippedAre(Ids(base), acts, st);
  }

  lemma ShippedAre(ids: seq<Uuid>, acts: Acts, st: State)
    requires RunSays(ids, acts, st)
    ensures st.shipped == Shipped(acts)
  {
    hide Appends, Positions, NoopsAt, UpsertsAt, ReplacedAt;
  }

  /**
    An accepted delta, read off its records alone, identities repeated or not: every record is
    taken, the report counts what they say, and the result holds what the base held and no record
    dropped, and what any record shipped anew.
   */
  lemma ReportSays(hash: Hash, tables: Tables, ts: Toks, base: Doc, h: Header, matched: bool)
    requires DistinctIds(base) && ApplyBody(hash, tables, ts, base, h, matched).Ok?
    ensures RecordsOf(tables, ts, base, h.portable).Ok?
    ensures
      var (value, report) := ApplyBody(hash, tables, ts, base, h, matched).value;
      var ids, acts := Ids(base), RecordsOf(tables, ts, base, h.portable).value;
      && (forall k :: 0 <= k < |acts| ==> Taken(h.portable, ids, acts[..k], acts[k]))
      && report.matched == matched && report.noops == |NoopsAt(ids, acts)| && report.upserts == |UpsertsAt(ids, acts)|
      && report.replacedCreates == |ReplacedAt(ids, acts)|
      && forall u :: u in Ids(value) <==> if u in ids then !Drops(acts, u) else LastShip(acts, u).Some?
  {
    hide ReadUint, ReadIds, ReadArray, ReadActs, Run, Finish, EncAll, INITIAL, Ids, DistinctIds, SoundState, RunSays,
      Taken, LastShip, Drops, NoopsAt, UpsertsAt, ReplacedAt;
    var (_, ts1) := ReadUint(ts).value;
    var (exts, ts2) := ReadIds(ts1).value;
    var (created, ts3) := ReadIds(ts2).value;
    var (n, ts4) := ReadArray(ts3).value;
    var s := Space(if h.portable then [] else Ids(base), created, exts);
    var (acts, _, ts5) := ReadActs(ts4, s, tables, base, h.portable, created, 0, n).value;
    var st := Run(h.portable, Ids(base), INITIAL, acts).value;
    RunStartsSound(base);
    RunSound(h.portable, Ids(base), INITIAL, acts);
    DistinctNoDup(base);
    AnyRun(h.portable, Ids(base), acts);
    FinishParts(hash, tables, ts5, base, st, h, matched);
    ValueHolds(tables, base, acts, st, h.implied, ReadIf(h.implied, ts5, OwnerBits).value.0);
    SaysCounts(Ids(base), acts, st);
  }

  lemma DistinctNoDup(doc: Doc)
    requires DistinctIds(doc)
    ensures NoDup(Ids(doc))
  {
  }

  lemma SaysCounts(ids: seq<Uuid>, acts: Acts, st: State)
    requires RunSays(ids, acts, st)
    ensures st.noops == |NoopsAt(ids, acts)| && st.upserts == |UpsertsAt(ids, acts)|
    ensures st.replacedCreates == |ReplacedAt(ids, acts)|
  {
    hide Positions, Appends;
  }

  lemma ValueHolds(tables: Tables, base: Doc, acts: Acts, st: State, implied: bool, exceptions: Pairs)
    requires DistinctIds(base) && SoundState(Ids(base), st) && Carried(acts) && RunSays(Ids(base), acts, st)
    ensures
      var value := Applied(tables, base, st, implied, exceptions);
      forall u :: u in Ids(value) <==> if u in Ids(base) then !Drops(acts, u) else LastShip(acts, u).Some?
  {
    hide Canonical, FillShipped, SoundState, RunSays, Assemble, LastShip, Drops, NewIds, Deletes, Pick, DistinctIds,
      StandsAs;
    AssembledDistinct(base, st);
    var doc := Assemble(base, st);
    AnyRunLeaves(base, acts, st);
    CanonDocSame(doc);
    FilledIds(tables, Canonical(doc), st.shipped, exceptions);
    forall u ensures u in Ids(doc) <==> if u in Ids(base) then !Drops(acts, u) else LastShip(acts, u).Some? {
      PickedOrNew(base, acts, u);
    }
  }

  lemma PickedOrNew(base: Doc, acts: Acts, u: Uuid)
    ensures
      u in Pick(Ids(base), Deletes(acts), false) + NewIds(Ids(base), acts)
      <==> if u in Ids(base) then !Drops(acts, u) else LastShip(acts, u).Some?
  {
    hide LastShip, Drops, Deletes;
    DropsDeletes(acts, u);
  }

  lemma FilledIds(tables: Tables, doc: Doc, shipped: seq<Option<Uuid>>, pairs: Pairs)
    ensures Ids(FillShipped(tables, doc, shipped, pairs)) == Ids(doc)
  {
    hide DerivedOwner, BitsFor, FillSlot;
  }

  // ---- resolved deltas -------------------------------------------------------------

  /**
    A resolved record: a base element only through an index, under its identity there; a bare
    identity only without one; content under the target's identity; a patch only of a base
    element; never a created element deleted; exception bits only on content.
   */
  ghost predicate Stands(base: Option<BaseIndex>, rec: ResolvedRecord) {
    && (rec.target.ToBase? ==>
          base.Some? && rec.target.index < |base.value.ids| && base.value.ids[rec.target.index] == rec.target.id)
    && (rec.target.ToId? ==> base.None?)
    && (rec.payload.ElementPayload? ==> rec.payload.e.id == rec.target.id)
    && (rec.payload.PatchPayload? ==> rec.target.ToBase?)
    && (rec.target.ToCreate? ==> rec.payload.ElementPayload?)
    && (rec.bits != 0 ==> rec.payload.ElementPayload?)
  }

  /** The identities the records create, in record order. */
  function Creates(recs: seq<ResolvedRecord>): seq<Uuid> {
    if recs == [] then []
    else (if recs[0].target.ToCreate? then [recs[0].target.id] else []) + Creates(recs[1..])
  }

  lemma BodyIsNamed(ts: Toks, s: Space, tables: Tables, id: Uuid)
    requires ReadBody(ts, s, tables, id).Ok?
    ensures ReadBody(ts, s, tables, id).value.0.id == id
  {
    hide ReadEntries, FillDefaults, Shift;
  }

  lemma RecordStands(
      ts: Toks, s: Space, tables: Tables, base: Option<BaseIndex>, created: seq<Uuid>, next: nat)
    requires ResolveRecord(ts, s, tables, base, created, next).Ok?
    ensures
      var rec := ResolveRecord(ts, s, tables, base, created, next).value.0;
      && Stands(base, rec) && rec.bits == 0
      && (rec.target.ToCreate? ==> next < |created| && rec.target.id == created[next])
  {
    hide ReadBody, ParsePatch, Name;
    var target := ResolveTarget(ts[1], base, created, next).value;
    var rest := ts[1..][1..];
    if rest[0] == Array(3) {
      BodyIsNamed(rest[1..], s, tables, target.id);
    }
  }

  /** The records resolved, and the identities they create: those of the table between two positions. */
  lemma {:induction false} RecordsStand(
      ts: Toks, s: Space, tables: Tables, base: Option<BaseIndex>, created: seq<Uuid>, next: nat, n: nat)
    requires next <= |created| && ResolveRecords(ts, s, tables, base, created, next, n).Ok?
    ensures
      var (recs, last, _) := ResolveRecords(ts, s, tables, base, created, next, n).value;
      && next <= last <= |created| && Creates(recs) == created[next..last]
      && forall i :: 0 <= i < |recs| ==> Stands(base, recs[i]) && recs[i].bits == 0
    decreases n
  {
    hide ResolveRecord, Stands;
    if n > 0 {
      var (rec, rest) := ResolveRecord(ts, s, tables, base, created, next).value;
      RecordStands(ts, s, tables, base, created, next);
      var after := if rec.target.ToCreate? then next + 1 else next;
      RecordsStand(rest, s, tables, base, created, after, n - 1);
      var (recs, last, _) := ResolveRecords(rest, s, tables, base, created, after, n - 1).value;
      assert ([rec] + recs)[1..] == recs;
      if rec.target.ToCreate? {
        assert [created[next]] + created[next + 1..last] == created[next..last];
      } else {
        assert [] + created[next..last] == created[next..last];
      }
    }
  }

  lemma {:induction false} BitsListed(pairs: Pairs, k: nat)
    requires BitsAt(pairs, k) != 0
    ensures exists i :: 0 <= i < |pairs| && pairs[i].0 == k
  {
    if pairs[0].0 != k {
      BitsListed(pairs[1..], k);
      var i :| 0 <= i < |pairs[1..]| && pairs[1..][i].0 == k;
      assert pairs[i + 1].0 == k;
    }
  }

  lemma BitsStand(base: Option<BaseIndex>, recs: seq<ResolvedRecord>, pairs: Pairs)
    requires NameElements(pairs, recs) && forall i :: 0 <= i < |recs| ==> Stands(base, recs[i])
    ensures forall i :: 0 <= i < |recs| ==> Stands(base, WithBits(recs, pairs)[i])
  {
    hide BitsAt;
    forall i | 0 <= i < |recs| ensures Stands(base, WithBits(recs, pairs)[i]) {
      if BitsAt(pairs, i) != 0 {
        BitsListed(pairs, i);
      }
    }
  }

  lemma {:induction false} CreatesSame(recs: seq<ResolvedRecord>, others: seq<ResolvedRecord>)
    requires |recs| == |others| && forall i :: 0 <= i < |recs| ==> recs[i].target == others[i].target
    ensures Creates(recs) == Creates(others)
  {
    if recs != [] {
      CreatesSame(recs[1..], others[1..]);
    }
  }

  /**
    Whatever resolves: a base of the index's size, as many records as announced, each as it may
    stand, creating exactly the identities of the created table in its order, and units under
    ascending positions.
   */
  lemma ResolvedStands(ts: Toks, tables: Tables, base: Option<BaseIndex>, h: Header, claims: Pairs)
    requires ResolveBody(ts, tables, base, h, claims).Ok?
    ensures ReadUint(ts).Ok? && ReadUint(ts).value.0 == (if base.Some? then |base.value.ids| else 0)
    ensures ReadIds(ReadUint(ts).value.1).Ok? && ReadIds(ReadIds(ReadUint(ts).value.1).value.1).Ok?
    ensures ReadArray(ReadIds(ReadIds(ReadUint(ts).value.1).value.1).value.1).Ok?
    ensures
      var r := ResolveBody(ts, tables, base, h, claims).value;
      var (created, ts3) := ReadIds(ReadIds(ReadUint(ts).value.1).value.1).value;
      && |r.records| == ReadArray(ts3).value.0 && Creates(r.records) == created
      && (forall i :: 0 <= i < |r.records| ==> Stands(base, r.records[i]))
      && PairsFit(UnitPaths, r.units)
  {
    hide ReadUint, ReadIds, ReadArray, ResolveRecords, EncAll, Stands, BitsAt, NameElements, PairsFit, ReadPairs,
      Creates;
    var ids := if base.Some? then base.value.ids else [];
    var (_, ts1) := ReadUint(ts).value;
    var (exts, ts2) := ReadIds(ts1).value;
    var (created, ts3) := ReadIds(ts2).value;
    var (n, ts4) := ReadArray(ts3).value;
    var (recs, _, ts5) := ResolveRecords(ts4, Space(ids, created, exts), tables, base, created, 0, n).value;
    RecordsStand(ts4, Space(ids, created, exts), tables, base, created, 0, n);
    assert created[0..|created|] == created;
    var (exceptions, _) := ReadIf(h.implied, ts5, OwnerBits).value;
    BitsStand(base, recs, exceptions);
    CreatesSame(recs, WithBits(recs, exceptions));
    NoUnits();
  }
}
