/**
  Field-level patches: planning the difference of two elements, replaying it, and reading
  it back from the wire over the base element.
 */
module Patch {
  import opened Wrappers
  import opened Seqs
  import opened Cbor
  import opened Model
  import opened Values
  import opened Records
  import opened Snapshot
  import opened Sections

  /** Field present with a value, field absent, or list items replaced in place. */
  datatype FieldOp = Set(v: Value) | Unset | Splice(at: nat, del: nat, items: seq<Value>)

  type Ops = seq<(nat, FieldOp)>

  const OP_SET: nat := 0
  const OP_UNSET: nat := 1
  const OP_SPLICE: nat := 2

  function Get(props: Props, key: Prop): Option<Value> {
    if key in props then Some(props[key]) else None
  }

  predicate IsListKind(f: Field) {
    f.kind.KRefList? || f.kind.KStrList?
  }

  // ---- planning --------------------------------------------------------------------

  /** The length of the longest common prefix, from a common prefix of `p`. */
  function CommonPrefix(a: seq<Value>, b: seq<Value>, p: nat): (r: nat)
    requires p <= |a| && p <= |b| && forall i :: 0 <= i < p ==> a[i] == b[i]
    ensures r <= |a| && r <= |b| && forall i :: 0 <= i < r ==> a[i] == b[i]
    ensures r < |a| && r < |b| ==> a[r] != b[r]
    decreases |a| - p
  {
    if p < |a| && p < |b| && a[p] == b[p] then CommonPrefix(a, b, p + 1) else p
  }

  function FromEnd(a: seq<Value>, i: nat): Value
    requires i < |a|
  {
    a[|a| - 1 - i]
  }

  /** The length of the longest common suffix, from a common suffix of `s`. */
  function CommonSuffix(a: seq<Value>, b: seq<Value>, s: nat): (r: nat)
    requires s <= |a| && s <= |b| && forall i :: 0 <= i < s ==> FromEnd(a, i) == FromEnd(b, i)
    ensures r <= |a| && r <= |b| && forall i :: 0 <= i < r ==> FromEnd(a, i) == FromEnd(b, i)
    ensures r < |a| && r < |b| ==> FromEnd(a, r) != FromEnd(b, r)
    decreases |a| - s
  {
    if s < |a| && s < |b| && FromEnd(a, s) == FromEnd(b, s) then CommonSuffix(a, b, s + 1) else s
  }

  function Min(a: nat, b: nat): nat {
    if a < b then a else b
  }

  /** The single contiguous splice between two lists. */
  function PlanSplice(ba: seq<Value>, ta: seq<Value>): (op: FieldOp)
    ensures op.Splice? && op.at + op.del <= |ba|
    ensures ba[..op.at] + op.items + ba[op.at + op.del..] == ta
  {
    var p := CommonPrefix(ba, ta, 0);
    var s := Min(CommonSuffix(ba, ta, 0), Min(|ba|, |ta|) - p);
    SpliceJoins(ba, ta, p, s);
    Splice(p, |ba| - p - s, ta[p..|ta| - s])
  }

  lemma SpliceJoins(ba: seq<Value>, ta: seq<Value>, p: nat, s: nat)
    requires p + s <= |ba| && p + s <= |ta|
    requires forall i :: 0 <= i < p ==> ba[i] == ta[i]
    requires forall i :: 0 <= i < s ==> FromEnd(ba, i) == FromEnd(ta, i)
    ensures ba[..p] + ta[p..|ta| - s] + ba[|ba| - s..] == ta
  {
    var x, y := ba[|ba| - s..], ta[|ta| - s..];
    forall i | 0 <= i < s ensures x[i] == y[i] {
      assert FromEnd(ba, s - 1 - i) == FromEnd(ta, s - 1 - i);
    }
    assert x == y;
    assert ba[..p] == ta[..p];
  }

  /**
    The planned splice is the least: any other splice that makes the target list of the base
    list removes as many items and carries as many, or more.
   */
  lemma SpliceIsLeast(ba: seq<Value>, ta: seq<Value>, at: nat, del: nat, items: seq<Value>)
    requires at + del <= |ba| && ba[..at] + items + ba[at + del..] == ta
    ensures PlanSplice(ba, ta).del <= del && |PlanSplice(ba, ta).items| <= |items|
  {
    var tail := |ba| - at - del;
    assert |ta| == at + |items| + tail;
    PrefixIsLongest(ba, ta, 0, at, items + ba[at + del..]);
    SuffixIsLongest(ba, ta, 0, tail);
  }

  lemma PrefixIsLongest(ba: seq<Value>, ta: seq<Value>, p: nat, at: nat, rest: seq<Value>)
    requires p <= |ba| && p <= |ta| && forall i :: 0 <= i < p ==> ba[i] == ta[i]
    requires at <= |ba| && ta == ba[..at] + rest
    ensures at <= CommonPrefix(ba, ta, p)
  {
    forall i | 0 <= i < at ensures ta[i] == ba[i] {
      assert ta[i] == ba[..at][i];
    }
  }

  lemma SuffixIsLongest(ba: seq<Value>, ta: seq<Value>, s: nat, tail: nat)
    requires s <= |ba| && s <= |ta| && forall i :: 0 <= i < s ==> FromEnd(ba, i) == FromEnd(ta, i)
    requires tail <= |ba| && tail <= |ta| && ta[|ta| - tail..] == ba[|ba| - tail..]
    ensures tail <= CommonSuffix(ba, ta, s)
  {
    forall i | 0 <= i < tail ensures FromEnd(ba, i) == FromEnd(ta, i) {
      assert ta[|ta| - tail..][tail - 1 - i] == ba[|ba| - tail..][tail - 1 - i];
    }
  }

  /** The operation one field needs, if any. */
  function PlanField(f: Field, b: Option<Value>, t: Option<Value>): Option<FieldOp> {
    if b == t then None
    else if b.Some? && b.value.Arr? && t.Some? && t.value.Arr? && IsListKind(f)
    then Some(PlanSplice(b.value.items, t.value.items))
    else if t.Some? then Some(Set(t.value))
    else Some(Unset)
  }

  function PlanOps(fields: seq<Field>, b: Props, t: Props, k: nat): (ops: Ops)
    requires k <= |fields|
    ensures forall i :: 0 <= i < |ops| ==> k <= ops[i].0 < |fields|
    ensures forall i, j :: 0 <= i < j < |ops| ==> ops[i].0 < ops[j].0
    decreases |fields| - k
  {
    if k == |fields| then []
    else
      var rest := PlanOps(fields, b, t, k + 1);
      match PlanField(fields[k], Get(b, fields[k].name), Get(t, fields[k].name))
      case None => rest
      case Some(op) => [(k, op)] + rest
  }

  /** What a plan does to the field at `ord`: nothing, or what its difference calls for. */
  ghost predicate SaysOf(f: Field, ord: nat, was: Option<Value>, now: Option<Value>, ops: Ops) {
    && (was == now ==> forall i :: 0 <= i < |ops| ==> ops[i].0 != ord)
    && (was != now ==> exists i :: 0 <= i < |ops| && ops[i].0 == ord)
    && (forall i :: 0 <= i < |ops| && ops[i].0 == ord ==> Suits(f, was, now, ops[i].1))
  }

  /**
    What is planned of one field: nothing where it is alike in both, else one operation, which
    is a splice exactly where both are lists of a list field, and otherwise sets the target's
    value or takes the property away.
   */
  lemma {:induction false} PlanSays(fields: seq<Field>, b: Props, t: Props, k: nat, ord: nat)
    requires k <= ord < |fields|
    ensures
      var was, now := Get(b, fields[ord].name), Get(t, fields[ord].name);
      SaysOf(fields[ord], ord, was, now, PlanOps(fields, b, t, k))
    decreases ord - k
  {
    hide PlanField, Get, Suits, SaysOf, PlanOps;
    var f := fields[k];
    var was, now := Get(b, f.name), Get(t, f.name);
    var planned, rest := PlanField(f, was, now), PlanOps(fields, b, t, k + 1);
    PlanSuits(f, was, now);
    PlanOpsStep(fields, b, t, k);
    if k == ord {
      SaysHere(f, ord, was, now, planned, rest);
    } else {
      PlanSays(fields, b, t, k + 1, ord);
      if planned.Some? {
        SaysMore(fields[ord], ord, Get(b, fields[ord].name), Get(t, fields[ord].name), (k, planned.value), rest);
      }
    }
  }

  lemma SaysHere(f: Field, ord: nat, was: Option<Value>, now: Option<Value>, planned: Option<FieldOp>, rest: Ops)
    requires forall i :: 0 <= i < |rest| ==> rest[i].0 != ord
    requires planned.None? <==> was == now
    requires planned.Some? ==> Suits(f, was, now, planned.value)
    ensures SaysOf(f, ord, was, now, if planned.Some? then [(ord, planned.value)] + rest else rest)
  {
    hide Suits;
    if planned.Some? {
      var ops := [(ord, planned.value)] + rest;
      assert ops[0].0 == ord;
    }
  }

  lemma SaysMore(f: Field, ord: nat, was: Option<Value>, now: Option<Value>, op: (nat, FieldOp), rest: Ops)
    requires SaysOf(f, ord, was, now, rest) && op.0 != ord
    ensures SaysOf(f, ord, was, now, [op] + rest)
  {
    hide Suits;
    var ops := [op] + rest;
    forall i | 0 <= i < |ops| && ops[i].0 == ord ensures was != now && Suits(f, was, now, ops[i].1) {
      assert ops[i] == rest[i - 1];
    }
    if was != now {
      var i :| 0 <= i < |rest| && rest[i].0 == ord;
      assert ops[i + 1].0 == ord;
    }
  }

  /** The kind of operation a difference calls for. */
  ghost predicate Suits(f: Field, was: Option<Value>, now: Option<Value>, op: FieldOp) {
    && (op.Splice? <==> IsListKind(f) && was.Some? && was.value.Arr? && now.Some? && now.value.Arr?)
    && (op.Set? ==> now == Some(op.v))
    && (op.Unset? ==> now == None)
  }

  lemma PlanSuits(f: Field, b: Option<Value>, t: Option<Value>)
    ensures PlanField(f, b, t).None? <==> b == t
    ensures PlanField(f, b, t).Some? ==> Suits(f, b, t, PlanField(f, b, t).value)
  {
    hide PlanSplice;
  }

  /** The planned patch, or none where types differ, nothing differs or the self-check fails. */
  function PlanPatch(tables: Tables, base: Element, target: Element): Option<Ops> {
    if base.ty != target.ty || !Known(tables, target.ty) then None
    else
      var ops := PlanOps(FieldsOf(tables, target.ty), base.props, target.props, 0);
      if ops != [] && Replay(FieldsOf(tables, target.ty), base.props, ops) == Some(target.props)
         && base.id == target.id
      then Some(ops) else None
  }

  // ---- replaying -------------------------------------------------------------------

  function ApplyOp(key: Prop, op: FieldOp, props: Props): Option<Props> {
    match op
    case Set(v) => Some(props[key := v])
    case Unset => Some(props - {key})
    case Splice(at, del, items) =>
      if key in props && props[key].Arr? && at + del <= |props[key].items| then
        var a := props[key].items;
        Some(props[key := Arr(a[..at] + items + a[at + del..])])
      else None
  }

  function Replay(fields: seq<Field>, props: Props, ops: Ops): Option<Props>
    decreases |ops|
  {
    if ops == [] then Some(props)
    else if ops[0].0 >= |fields| then None
    else
      match ApplyOp(fields[ops[0].0].name, ops[0].1, props)
      case None => None
      case Some(next) => Replay(fields, next, ops[1..])
  }

  /** The replay as the code runs it, over one object edited in place. */
  method ReplayOps(fields: seq<Field>, base: Props, ops: Ops) returns (r: Option<Props>)
    ensures r == Replay(fields, base, ops)
  {
    var obj := base;
    for k := 0 to |ops|
      invariant Replay(fields, base, ops) == Replay(fields, obj, ops[k..])
    {
      assert ops[k..][1..] == ops[k + 1..];
      var (ord, op) := ops[k];
      if ord >= |fields| {
        return None;
      }
      var key := fields[ord].name;
      match op {
        case Set(v) =>
          obj := obj[key := v];
        case Unset =>
          obj := obj - {key};
        case Splice(at, del, items) =>
          if key !in obj || !obj[key].Arr? || at + del > |obj[key].items| {
            return None;
          }
          var a := obj[key].items;
          obj := obj[key := Arr(a[..at] + items + a[at + del..])];
      }
    }
    r := Some(obj);
  }

  // ---- planning is correct and complete --------------------------------------------

  /** Replaying a field's operation over its base value gives its target value and touches nothing else. */
  lemma PlanFieldReplays(f: Field, key: Prop, props: Props, t: Props)
    ensures
      match PlanField(f, Get(props, key), Get(t, key))
      case None => Get(props, key) == Get(t, key)
      case Some(op) =>
        && ApplyOp(key, op, props).Some?
        && Get(ApplyOp(key, op, props).value, key) == Get(t, key)
        && forall other :: other != key ==> Get(ApplyOp(key, op, props).value, other) == Get(props, other)
  {
    hide PlanSplice;
  }

  /** `props` agrees with `t` below ordinal `k` and with `b` from there on. */
  ghost predicate Between(fields: seq<Field>, props: Props, b: Props, t: Props, k: nat) {
    forall key ::
      var at := Ordinal(fields, key);
      Get(props, key) == if at < k then Get(t, key) else Get(b, key)
  }

  lemma {:induction false} PlanReplays(fields: seq<Field>, b: Props, t: Props, props: Props, k: nat)
    requires k <= |fields| && NoDup(FieldNames(fields)) && Between(fields, props, b, t, k)
    ensures
      var r := Replay(fields, props, PlanOps(fields, b, t, k));
      r.Some? && Between(fields, r.value, b, t, |fields|)
    decreases |fields| - k
  {
    hide PlanField, ApplyOp, Ordinal, FieldNames, NoDup, Get, PlanOps, Replay, Between;
    PlanStep(fields, b, t, k, props);
    if k < |fields| {
      var f := fields[k];
      BetweenHere(fields, props, b, t, k);
      PlanFieldReplays(f, f.name, props, t);
      match PlanField(f, Get(b, f.name), Get(t, f.name))
      case None =>
        BetweenMoves(fields, props, props, b, t, k);
        PlanReplays(fields, b, t, props, k + 1);
      case Some(op) =>
        var next := ApplyOp(f.name, op, props).value;
        BetweenMoves(fields, props, next, b, t, k);
        PlanReplays(fields, b, t, next, k + 1);
    }
  }

  lemma BetweenHere(fields: seq<Field>, props: Props, b: Props, t: Props, k: nat)
    requires k < |fields| && NoDup(FieldNames(fields)) && Between(fields, props, b, t, k)
    ensures Get(props, fields[k].name) == Get(b, fields[k].name)
  {
    hide Ordinal, FieldNames, NoDup, Get;
    OrdinalOfField(fields, k);
  }

  /** One field of the plan, replayed. */
  lemma PlanStep(fields: seq<Field>, b: Props, t: Props, k: nat, props: Props)
    requires k <= |fields|
    ensures k == |fields| ==> Replay(fields, props, PlanOps(fields, b, t, k)) == Some(props)
    ensures
      k < |fields| ==>
        Replay(fields, props, PlanOps(fields, b, t, k))
        == match PlanField(fields[k], Get(b, fields[k].name), Get(t, fields[k].name))
           case None => Replay(fields, props, PlanOps(fields, b, t, k + 1))
           case Some(op) =>
             (match ApplyOp(fields[k].name, op, props)
              case None => None
              case Some(next) => Replay(fields, next, PlanOps(fields, b, t, k + 1)))
  {
    hide PlanField, ApplyOp, Get;
    if k < |fields| {
      var rest := PlanOps(fields, b, t, k + 1);
      var op := PlanField(fields[k], Get(b, fields[k].name), Get(t, fields[k].name));
      if op.Some? {
        assert ([(k, op.value)] + rest)[1..] == rest;
      }
    }
  }

  lemma BetweenMoves(fields: seq<Field>, props: Props, next: Props, b: Props, t: Props, k: nat)
    requires k < |fields| && NoDup(FieldNames(fields)) && Between(fields, props, b, t, k)
    requires Get(next, fields[k].name) == Get(t, fields[k].name)
    requires forall other :: other != fields[k].name ==> Get(next, other) == Get(props, other)
    ensures Between(fields, next, b, t, k + 1)
  {
    hide Get, Ordinal, FieldNames, NoDup;
    OrdinalOfField(fields, k);
    forall key
      ensures
        var at := Ordinal(fields, key);
        Get(next, key) == if at < k + 1 then Get(t, key) else Get(b, key)
    {
      var at := Ordinal(fields, key);
      assert Get(props, key) == if at < k then Get(t, key) else Get(b, key);
      OrdinalNames(fields, key);
    }
  }

  lemma OrdinalNames(fields: seq<Field>, key: Prop)
    ensures Ordinal(fields, key) < |fields| ==> fields[Ordinal(fields, key)].name == key
  {
  }

  lemma PropsEqual(a: Props, b: Props)
    requires forall key :: Get(a, key) == Get(b, key)
    ensures a == b
  {
    forall key
      ensures key in a <==> key in b
      ensures key in a ==> a[key] == b[key]
    {
      assert Get(a, key) == Get(b, key);
    }
  }

  lemma PlanTarget(fields: seq<Field>, b: Element, t: Element)
    requires NoDup(FieldNames(fields)) && KeysKnown(fields, b) && KeysKnown(fields, t)
    ensures Replay(fields, b.props, PlanOps(fields, b.props, t.props, 0)) == Some(t.props)
  {
    hide Replay, PlanOps, FieldNames, NoDup;
    PlanReplays(fields, b.props, t.props, b.props, 0);
    var r := Replay(fields, b.props, PlanOps(fields, b.props, t.props, 0)).value;
    forall key ensures Get(r, key) == Get(t.props, key) {
      var at := Ordinal(fields, key);
      assert Get(r, key) == if at < |fields| then Get(t.props, key) else Get(b.props, key);
    }
    PropsEqual(r, t.props);
  }

  /**
    For two different elements of one identity and metaclass whose properties the field
    table holds, a patch is always planned: ordinals ascend, splices are in range, and its
    replay is the target.
   */
  lemma PlanIsComplete(tables: Tables, base: Element, target: Element)
    requires ValidTables(tables) && Known(tables, target.ty)
    requires base.id == target.id && base.ty == target.ty && base != target
    requires KeysKnown(FieldsOf(tables, base.ty), base) && KeysKnown(FieldsOf(tables, target.ty), target)
    ensures PlanPatch(tables, base, target).Some?
    ensures Replay(FieldsOf(tables, target.ty), base.props, PlanPatch(tables, base, target).value) == Some(target.props)
  {
    hide Replay, PlanOps, KeysKnown, Ordinal;
    var fields := FieldsOf(tables, target.ty);
    FieldsOfValid(tables, target.ty);
    NamesDistinct(fields);
    PlanTarget(fields, base, target);
    var ops := PlanOps(fields, base.props, target.props, 0);
    if ops == [] {
      ReplayNothing(fields, base.props);
    }
  }

  lemma ReplayNothing(fields: seq<Field>, props: Props)
    ensures Replay(fields, props, []) == Some(props)
  {
  }

  // ---- the wire --------------------------------------------------------------------

  function WriteItems(sp: Spelling, f: Field, items: seq<Value>): Result<Toks> {
    if f.kind.KStrList? then WriteTexts(items) else WriteRefs(sp, items)
  }

  function WriteOp(sp: Spelling, f: Field, op: FieldOp): (r: Result<Toks>)
    ensures r.Ok? ==> |r.value| >= 2
  {
    match op
    case Set(v) =>
      var ts :- WriteValue(sp, f, v);
      Ok([Uint(OP_SET)] + ts)
    case Unset => Ok([Uint(OP_UNSET), NullTok])
    case Splice(at, del, items) =>
      var ts :- WriteItems(sp, f, items);
      Ok([Uint(OP_SPLICE), Array(3), Uint(at), Uint(del), Array(|items|)] + ts)
  }

  function WriteOps(sp: Spelling, fields: seq<Field>, ops: Ops): (r: Result<Toks>)
    requires forall i :: 0 <= i < |ops| ==> ops[i].0 < |fields|
    ensures r.Ok? ==> |r.value| >= 2 * |ops|
  {
    if ops == [] then Ok([])
    else
      var head :- WriteOp(sp, fields[ops[0].0], ops[0].1);
      var tail :- WriteOps(sp, fields, ops[1..]);
      Ok([Uint(ops[0].0), Array(2)] + head + tail)
  }

  function WritePatch(sp: Spelling, fields: seq<Field>, ops: Ops): Result<Toks>
    requires forall i :: 0 <= i < |ops| ==> ops[i].0 < |fields|
  {
    var ts :- WriteOps(sp, fields, ops);
    Ok([Map(|ops|)] + ts)
  }

  function ReadItems(ts: Toks, s: Space, f: Field, n: nat): (r: Result<(seq<Value>, Toks)>)
    ensures r.Ok? ==> |r.value.0| == n
  {
    if f.kind.KRefList? then ReadRefs(ts, s, n)
    else if f.kind.KStrList? then ReadTexts(ts, n)
    else if n == 0 then Ok(([], ts))
    else Err(Malformed)
  }

  /** One operation after its ordinal: `array(2)` of an opcode and its operand. */
  function ReadOp(ts: Toks, s: Space, f: Field): Result<(FieldOp, Toks)> {
    var (two, ts1) :- ReadArray(ts);
    var (code, ts2) :- ReadUint(ts1);
    if two != 2 then Err(Malformed)
    else if code == OP_SET then
      var (v, rest) :- ReadValue(ts2, s, f);
      Ok((Set(v), rest))
    else if code == OP_UNSET then
      var (t, rest) :- Next(ts2);
      if t.NullTok? then Ok((Unset, rest)) else Err(Malformed)
    else if code == OP_SPLICE then ReadSplice(ts2, s, f)
    else Err(Malformed)
  }

  /** A splice's operand. */
  function ReadSplice(ts: Toks, s: Space, f: Field): Result<(FieldOp, Toks)> {
    var (three, ts1) :- ReadArray(ts);
    var (at, ts2) :- ReadUint(ts1);
    var (del, ts3) :- ReadUint(ts2);
    var (n, ts4) :- ReadArray(ts3);
    if three != 3 || n > Remaining(ts4) then Err(Malformed)
    else
      var (items, rest) :- ReadItems(ts4, s, f, n);
      Ok((Splice(at, del, items), rest))
  }

  /** The applier's reader: each operation edits the base element's properties as it is read. */
  function ReadPatchOps(ts: Toks, s: Space, fields: seq<Field>, n: nat, low: nat, props: Props): Result<(Props, Toks)>
    decreases n
  {
    if n == 0 then Ok((props, ts))
    else
      var (ord, ts1) :- ReadUint(ts);
      if ord < low || ord >= |fields| then Err(Malformed)
      else
        var (op, rest) :- ReadOp(ts1, s, fields[ord]);
        match ApplyOp(fields[ord].name, op, props)
        case None => Err(Malformed)
        case Some(next) => ReadPatchOps(rest, s, fields, n - 1, ord + 1, next)
  }

  /** A patch payload after its map head, replayed over the element held. */
  function ReadPatch(ts: Toks, s: Space, tables: Tables, n: nat, base: Element): Result<(Element, Toks)> {
    if !Known(tables, base.ty) || n > Remaining(ts) / 2 then Err(Malformed)
    else
      var (props, rest) :- ReadPatchOps(ts, s, FieldsOf(tables, base.ty), n, 0, base.props);
      Ok((base.(props := props), rest))
  }

  /** The index's reader: the operations themselves, with no base element at hand. */
  function ParseOps(ts: Toks, s: Space, fields: seq<Field>, n: nat, low: nat): (r: Result<(Ops, Toks)>)
    ensures r.Ok? ==> |r.value.0| == n && forall i :: 0 <= i < n ==> low <= r.value.0[i].0 < |fields|
    decreases n
  {
    if n == 0 then Ok(([], ts))
    else
      var (ord, ts1) :- ReadUint(ts);
      if ord < low || ord >= |fields| then Err(Malformed)
      else
        var (op, ts2) :- ReadOp(ts1, s, fields[ord]);
        var (ops, rest) :- ParseOps(ts2, s, fields, n - 1, ord + 1);
        Ok(([(ord, op)] + ops, rest))
  }

  function ParsePatch(ts: Toks, s: Space, fields: seq<Field>, n: nat): (r: Result<(Ops, Toks)>)
    ensures r.Ok? ==> forall i :: 0 <= i < |r.value.0| ==> r.value.0[i].0 < |fields|
  {
    if n > Remaining(ts) / 2 then Err(Malformed) else ParseOps(ts, s, fields, n, 0)
  }

  // ---- the two readers, and the writer ---------------------------------------------

  /** On any payload: reading over a base is parsing, then replaying over that base. */
  lemma {:induction false} ReadingIsParsingAndReplaying(
      ts: Toks, s: Space, fields: seq<Field>, n: nat, low: nat, props: Props)
    ensures
      var read, parsed := ReadPatchOps(ts, s, fields, n, low, props), ParseOps(ts, s, fields, n, low);
      && (read.Ok? <==> parsed.Ok? && Replay(fields, props, parsed.value.0).Some?)
      && (read.Ok? ==> read.value == (Replay(fields, props, parsed.value.0).value, parsed.value.1))
    decreases n
  {
    hide ReadOp, ApplyOp, ReadPatchOps, ParseOps, Replay;
    if n == 0 {
      NoOperations(ts, s, fields, low, props);
    } else if ReadUint(ts).Ok? && low <= ReadUint(ts).value.0 < |fields|
              && ReadOp(ReadUint(ts).value.1, s, fields[ReadUint(ts).value.0]).Ok?
    {
      var (ord, ts1) := ReadUint(ts).value;
      var (op, rest) := ReadOp(ts1, s, fields[ord]).value;
      OperationStep(ts, s, fields, n, low, props);
      var next := ApplyOp(fields[ord].name, op, props);
      if next.Some? {
        ReadingIsParsingAndReplaying(rest, s, fields, n - 1, ord + 1, next.value);
      }
    } else {
      OperationRefused(ts, s, fields, n, low, props);
    }
  }

  lemma NoOperations(ts: Toks, s: Space, fields: seq<Field>, low: nat, props: Props)
    ensures ReadPatchOps(ts, s, fields, 0, low, props) == Ok((props, ts))
    ensures ParseOps(ts, s, fields, 0, low) == Ok(([], ts)) && Replay(fields, props, []) == Some(props)
  {
  }

  lemma OperationRefused(ts: Toks, s: Space, fields: seq<Field>, n: nat, low: nat, props: Props)
    requires n > 0
    requires
      || ReadUint(ts).Err? || !(low <= ReadUint(ts).value.0 < |fields|)
      || ReadOp(ReadUint(ts).value.1, s, fields[ReadUint(ts).value.0]).Err?
    ensures ReadPatchOps(ts, s, fields, n, low, props).Err? && ParseOps(ts, s, fields, n, low).Err?
  {
    hide ReadOp, ApplyOp;
  }

  /** One operation read: the reader edits with it at once, the parser keeps it for the replay. */
  lemma OperationStep(ts: Toks, s: Space, fields: seq<Field>, n: nat, low: nat, props: Props)
    requires n > 0 && ReadUint(ts).Ok? && low <= ReadUint(ts).value.0 < |fields|
    requires ReadOp(ReadUint(ts).value.1, s, fields[ReadUint(ts).value.0]).Ok?
    ensures
      var (ord, ts1) := ReadUint(ts).value;
      var (op, rest) := ReadOp(ts1, s, fields[ord]).value;
      var next, tail := ApplyOp(fields[ord].name, op, props), ParseOps(rest, s, fields, n - 1, ord + 1);
      && ReadPatchOps(ts, s, fields, n, low, props)
         == (if next.Some? then ReadPatchOps(rest, s, fields, n - 1, ord + 1, next.value) else Err(Malformed))
      && (ParseOps(ts, s, fields, n, low).Ok? <==> tail.Ok?)
      && (tail.Ok? ==>
            && ParseOps(ts, s, fields, n, low) == Ok(([(ord, op)] + tail.value.0, tail.value.1))
            && Replay(fields, props, [(ord, op)] + tail.value.0)
               == if next.Some? then Replay(fields, next.value, tail.value.0) else None)
  {
    hide ReadOp, ApplyOp;
    var (ord, ts1) := ReadUint(ts).value;
    var (op, rest) := ReadOp(ts1, s, fields[ord]).value;
    var tail := ParseOps(rest, s, fields, n - 1, ord + 1);
    if tail.Ok? {
      assert ([(ord, op)] + tail.value.0)[1..] == tail.value.0;
    }
  }

  lemma ReadOpInverts(n: Interner, s: Space, f: Field, op: FieldOp, ts: Toks, rest: Toks)
    requires Agree(n, s) && WriteOp(Wire(n), f, op).Ok? && (op.Splice? ==> IsListKind(f))
    requires ts == [Array(2)] + WriteOp(Wire(n), f, op).value + rest
    ensures ReadOp(ts, s, f) == Ok((op, rest))
  {
    hide Agree, WriteValue, ReadValue, EncAll, ReadItems, WriteItems;
    var w := WriteOp(Wire(n), f, op).value;
    assert ts[0] == Array(2) && ts[1..] == w + rest && ts[1] == w[0] && ts[1..][1..] == w[1..] + rest;
    match op
    case Set(v) => ReadValueInverts(n, s, f, v, w[1..] + rest, rest);
    case Unset =>
      assert w[1..] + rest == [NullTok] + rest;
    case Splice(at, del, items) =>
      var body := WriteItems(Wire(n), f, items).value;
      SpliceLayout(n, s, f, items, at, del, body, rest);
      assert w[1..] + rest == [Array(3), Uint(at), Uint(del), Array(|items|)] + (body + rest);
  }

  lemma SpliceLayout(
      n: Interner, s: Space, f: Field, items: seq<Value>, at: nat, del: nat, body: Toks, rest: Toks)
    requires Agree(n, s) && WriteItems(Wire(n), f, items) == Ok(body) && IsListKind(f)
    ensures
      var ts := [Array(3), Uint(at), Uint(del), Array(|items|)] + (body + rest);
      && ts[1..][1..][1..][1..] == body + rest && |items| <= Remaining(body + rest)
      && ReadItems(body + rest, s, f, |items|) == Ok((items, rest))
  {
    hide Agree, EncAll, ReadRefs, ReadTexts;
    RemainingAppend(body, rest);
    if f.kind.KStrList? {
      ReadTextsInverts(items, body + rest, rest);
    } else {
      ReadRefsInverts(n, s, items, body + rest, rest);
    }
  }

  lemma NoOpsWritten(sp: Spelling, fields: seq<Field>)
    ensures WriteOps(sp, fields, []) == Ok([])
  {
  }

  lemma OpsHead(sp: Spelling, fields: seq<Field>, ops: Ops)
    requires ops != [] && (forall i :: 0 <= i < |ops| ==> ops[i].0 < |fields|) && WriteOps(sp, fields, ops).Ok?
    ensures WriteOp(sp, fields[ops[0].0], ops[0].1).Ok? && WriteOps(sp, fields, ops[1..]).Ok?
    ensures
      WriteOps(sp, fields, ops).value
      == [Uint(ops[0].0), Array(2)] + WriteOp(sp, fields[ops[0].0], ops[0].1).value
         + WriteOps(sp, fields, ops[1..]).value
  {
    hide WriteOp;
  }

  /** Parsing returns the operations that were written. */
  lemma {:induction false} ParseOpsInverts(
      n: Interner, s: Space, fields: seq<Field>, ops: Ops, low: nat, ts: Toks, rest: Toks)
    requires Agree(n, s) && (forall i :: 0 <= i < |ops| ==> low <= ops[i].0 < |fields|)
    requires forall i, j :: 0 <= i < j < |ops| ==> ops[i].0 < ops[j].0
    requires SplicesFit(fields, ops)
    requires WriteOps(Wire(n), fields, ops).Ok? && ts == WriteOps(Wire(n), fields, ops).value + rest
    ensures ParseOps(ts, s, fields, |ops|, low) == Ok((ops, rest))
    decreases |ops|
  {
    hide Agree, WriteOp, ReadOp, IsListKind, WriteOps, ParseOps, ReadPatchOps, Replay, ApplyOp;
    if ops == [] {
      NoOpsWritten(Wire(n), fields);
      assert ts == rest;
      NoOperations(ts, s, fields, low, map[]);
    } else {
      var (ord, op) := ops[0];
      OpsHead(Wire(n), fields, ops);
      var head := WriteOp(Wire(n), fields[ord], op).value;
      var more := WriteOps(Wire(n), fields, ops[1..]).value + rest;
      assert ts == [Uint(ord)] + ([Array(2)] + head + more);
      assert ts[0] == Uint(ord) && ts[1..] == [Array(2)] + head + more;
      ReadOpInverts(n, s, fields[ord], op, ts[1..], more);
      ParseOpsInverts(n, s, fields, ops[1..], ord + 1, more, rest);
      OperationStep(ts, s, fields, |ops|, low, map[]);
      assert [(ord, op)] + ops[1..] == ops;
    }
  }

  /** Splices are planned for list fields alone. */
  ghost predicate SplicesFit(fields: seq<Field>, ops: Ops) {
    forall i :: 0 <= i < |ops| && ops[i].1.Splice? ==> ops[i].0 < |fields| && IsListKind(fields[ops[i].0])
  }

  lemma {:induction false} PlannedSplices(fields: seq<Field>, b: Props, t: Props, k: nat)
    requires k <= |fields|
    ensures SplicesFit(fields, PlanOps(fields, b, t, k))
    decreases |fields| - k
  {
    hide PlanSplice, Get, IsListKind, PlanOps, PlanField, SplicesFit;
    PlanOpsStep(fields, b, t, k);
    if k < |fields| {
      PlannedSplices(fields, b, t, k + 1);
      var planned := PlanField(fields[k], Get(b, fields[k].name), Get(t, fields[k].name));
      if planned.Some? {
        PlanFieldSplice(fields[k], Get(b, fields[k].name), Get(t, fields[k].name));
        SplicesMore(fields, k, planned.value, PlanOps(fields, b, t, k + 1));
      }
    }
  }

  lemma PlanOpsStep(fields: seq<Field>, b: Props, t: Props, k: nat)
    requires k <= |fields|
    ensures k == |fields| ==> PlanOps(fields, b, t, k) == [] && SplicesFit(fields, [])
    ensures
      k < |fields| ==>
        var planned := PlanField(fields[k], Get(b, fields[k].name), Get(t, fields[k].name));
        var rest := PlanOps(fields, b, t, k + 1);
        PlanOps(fields, b, t, k) == if planned.Some? then [(k, planned.value)] + rest else rest
  {
    hide PlanField, Get, IsListKind;
  }

  lemma PlanFieldSplice(f: Field, b: Option<Value>, t: Option<Value>)
    requires PlanField(f, b, t).Some?
    ensures PlanField(f, b, t).value.Splice? ==> IsListKind(f)
  {
    hide PlanSplice, IsListKind;
  }

  lemma SplicesMore(fields: seq<Field>, k: nat, op: FieldOp, rest: Ops)
    requires k < |fields| && SplicesFit(fields, rest) && (op.Splice? ==> IsListKind(fields[k]))
    ensures SplicesFit(fields, [(k, op)] + rest)
  {
    hide IsListKind;
    var ops := [(k, op)] + rest;
    forall i | 0 <= i < |ops| && ops[i].1.Splice? ensures ops[i].0 < |fields| && IsListKind(fields[ops[i].0]) {
      if i > 0 {
        assert ops[i] == rest[i - 1];
      }
    }
  }

  /** Reading a planned patch over the base it was planned against gives the target. */
  lemma PatchInverts(
      tables: Tables, n: Interner, s: Space, base: Element, target: Element, ts: Toks, rest: Toks)
    requires Agree(n, s) && PlanPatch(tables, base, target).Some?
    requires
      var ops := PlanPatch(tables, base, target).value;
      && WritePatch(Wire(n), FieldsOf(tables, target.ty), ops).Ok?
      && ts == WritePatch(Wire(n), FieldsOf(tables, target.ty), ops).value[1..] + rest
    ensures
      var ops := PlanPatch(tables, base, target).value;
      && ReadPatch(ts, s, tables, |ops|, base) == Ok((target, rest))
      && ParsePatch(ts, s, FieldsOf(tables, target.ty), |ops|) == Ok((ops, rest))
  {
    hide Agree, WriteOps, ParseOps, ReadPatchOps, PlanOps, Replay, EncAll;
    var fields := FieldsOf(tables, target.ty);
    var ops := PlanPatch(tables, base, target).value;
    var body := WriteOps(Wire(n), fields, ops).value;
    assert ts == body + rest;
    RemainingAppend(body, rest);
    PlannedSplices(fields, base.props, target.props, 0);
    ParseOpsInverts(n, s, fields, ops, 0, ts, rest);
    ReadingIsParsingAndReplaying(ts, s, fields, |ops|, 0, base.props);
  }
}
