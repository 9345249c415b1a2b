/** Property values on the wire: how the encoder spells them and the decoder reads them back. */
module Values {
  import opened Wrappers
  import opened Seqs
  import opened Cbor
  import opened Model

  type Toks = seq<Token>

  /** The bytes left, the bound the reader holds every announced length against. */
  function Remaining(ts: Toks): nat {
    |EncAll(ts)|
  }

  lemma RemainingAppend(a: Toks, b: Toks)
    ensures Remaining(a + b) >= |a| + |b|
  {
    EncAllAppend(a, b);
  }

  function Next(ts: Toks): (r: Result<(Token, Toks)>)
    ensures r.Ok? ==> ts == [r.value.0] + r.value.1
  {
    if ts == [] then Err(Truncated) else Ok((ts[0], ts[1..]))
  }

  // ---- the reference index space ---------------------------------------------------

  /** The encoder's numbering: local identities first, then the externals in order. */
  datatype Interner = Interner(local: map<Uuid, nat>, ext: seq<Uuid>)

  function IndexIn(n: Interner, u: Uuid): Result<nat> {
    if u in n.local then Ok(n.local[u])
    else if u in n.ext then Ok(|n.local| + IndexOf(n.ext, u))
    else Err(Malformed)
  }

  /** The decoder's tables: a payload's own identities, the created ones, the externals. */
  datatype Space = Space(ids: seq<Uuid>, created: seq<Uuid>, exts: seq<Uuid>)

  function Reference(s: Space, i: nat): Result<Value> {
    if i < |s.ids| then Ok(Ref(s.ids[i]))
    else if i - |s.ids| < |s.created| then Ok(Ref(s.created[i - |s.ids|]))
    else if i - |s.ids| - |s.created| < |s.exts| then Ok(Ref(s.exts[i - |s.ids| - |s.created|]))
    else Err(Malformed)
  }

  /** Both sides number the same identities alike. */
  ghost predicate Agree(n: Interner, s: Space) {
    && |n.local| == |s.ids| + |s.created|
    && n.ext == s.exts
    && forall u :: u in n.local ==> n.local[u] < |n.local| && (s.ids + s.created)[n.local[u]] == u
  }

  lemma ReferenceInverts(n: Interner, s: Space, u: Uuid)
    requires Agree(n, s) && IndexIn(n, u).Ok?
    ensures Reference(s, IndexIn(n, u).value) == Ok(Ref(u))
  {
  }

  /** How a record spells a reference to an identity: as its wire index, or as its sixteen bytes. */
  datatype Spelling = Wire(interner: Interner) | Raw

  function WriteId(sp: Spelling, u: Uuid): Result<Token> {
    match sp
    case Wire(n) => var i :- IndexIn(n, u); Ok(Uint(i))
    case Raw => Ok(Bstr(UuidBytes(u)))
  }

  // ---- writing ---------------------------------------------------------------------

  function WriteRef(sp: Spelling, v: Value): Result<Token> {
    match v
    case Ref(u) => WriteId(sp, u)
    case Sym(s) => Ok(Tstr(s))
    case _ => Err(Malformed)
  }

  function WriteRefs(sp: Spelling, items: seq<Value>): (r: Result<Toks>)
    ensures r.Ok? ==> |r.value| == |items|
  {
    if items == [] then Ok([])
    else
      var t :- WriteRef(sp, items[0]);
      var ts :- WriteRefs(sp, items[1..]);
      Ok([t] + ts)
  }

  function WriteTexts(items: seq<Value>): (r: Result<Toks>)
    ensures r.Ok? ==> |r.value| == |items|
  {
    if items == [] then Ok([])
    else if !items[0].Str? then Err(Malformed)
    else
      var ts :- WriteTexts(items[1..]);
      Ok([Tstr(items[0].text)] + ts)
  }

  function WriteValue(sp: Spelling, f: Field, v: Value): (r: Result<Toks>)
    ensures r.Ok? ==> |r.value| >= 1
  {
    if v.Null? then Ok([NullTok])
    else
      match f.kind
      case KBool => if v.Bool? then Ok([if v.b then True else False]) else Err(Malformed)
      case KStr => if v.Str? then Ok([Tstr(v.text)]) else Err(Malformed)
      case KElementId => if v.Str? then Ok([Tstr(v.text)]) else Err(Malformed)
      case KStrList =>
        if !v.Arr? then Err(Malformed)
        else
          var ts :- WriteTexts(v.items);
          Ok([Array(|v.items|)] + ts)
      case KRef =>
        if v.Ref? || v.Sym? || v.Other? then
          var t :- WriteRef(sp, v);
          Ok([t])
        else Err(Malformed)
      case KRefList =>
        if !v.Arr? then Err(Malformed)
        else
          var ts :- WriteRefs(sp, v.items);
          Ok([Array(|v.items|)] + ts)
      case KEnum =>
        if v.Str? && v.text in f.vocab then Ok([Uint(IndexOf(f.vocab, v.text))]) else Err(Malformed)
      case KLiteral =>
        match v
        case Bool(b) => Ok([if b then True else False])
        case Str(s) => Ok([Tstr(s)])
        case Int(i) => Ok([IntToken(i)])
        case Float(bits) => Ok([F64(bits)])
        case _ => Err(Malformed)
  }

  // ---- reading ---------------------------------------------------------------------

  /** One item of a reference list. */
  function ReadRef(s: Space, t: Token): Result<Value> {
    match t
    case Uint(i) => Reference(s, i)
    case Tstr(text) => Ok(Sym(text))
    case _ => Err(Malformed)
  }

  function ReadRefs(ts: Toks, s: Space, n: nat): (r: Result<(seq<Value>, Toks)>)
    ensures r.Ok? ==> |r.value.0| == n
  {
    if n == 0 then Ok(([], ts))
    else
      var (t, after) :- Next(ts);
      var v :- ReadRef(s, t);
      var (vs, rest) :- ReadRefs(after, s, n - 1);
      Ok(([v] + vs, rest))
  }

  function ReadTexts(ts: Toks, n: nat): (r: Result<(seq<Value>, Toks)>)
    ensures r.Ok? ==> |r.value.0| == n
  {
    if n == 0 then Ok(([], ts))
    else
      var (t, after) :- Next(ts);
      if !t.Tstr? then Err(Malformed)
      else
        var (vs, rest) :- ReadTexts(after, n - 1);
        Ok(([Str(t.bytes)] + vs, rest))
  }

  function ReadValue(ts: Toks, s: Space, f: Field): (r: Result<(Value, Toks)>) {
    var (t, after) :- Next(ts);
    match t
    case NullTok => Ok((Null, after))
    case Uint(i) =>
      (match f.kind
       case KRef => var v :- Reference(s, i); Ok((v, after))
       case KEnum => if i < |f.vocab| then Ok((Str(f.vocab[i]), after)) else Err(Malformed)
       case KLiteral => if i < U64_END then Ok((Int(i), after)) else Err(Malformed)
       case _ => Err(Malformed))
    case NInt(a) =>
      if f.kind.KLiteral? && a < 0x8000_0000_0000_0000 then Ok((Int(-1 - a), after)) else Err(Malformed)
    case F64(bits) =>
      if f.kind.KLiteral? && IsFinite(bits) then Ok((Float(bits), after)) else Err(Malformed)
    case Tstr(text) => Ok((if f.kind.KRef? then Sym(text) else Str(text), after))
    case True => Ok((Bool(true), after))
    case False => Ok((Bool(false), after))
    case Array(n) =>
      if n > Remaining(after) then Err(Malformed)
      else if f.kind.KRefList? then
        var (vs, rest) :- ReadRefs(after, s, n);
        Ok((Arr(vs), rest))
      else if f.kind.KStrList? then
        var (vs, rest) :- ReadTexts(after, n);
        Ok((Arr(vs), rest))
      else Err(Malformed)
    case _ => Err(Malformed)
  }

  // ---- reading inverts writing -----------------------------------------------------

  lemma ReadRefInverts(n: Interner, s: Space, v: Value)
    requires Agree(n, s) && WriteRef(Wire(n), v).Ok?
    ensures ReadRef(s, WriteRef(Wire(n), v).value) == Ok(v)
  {
    if v.Ref? {
      ReferenceInverts(n, s, v.id);
    }
  }

  lemma {:induction false} ReadRefsInverts(n: Interner, s: Space, items: seq<Value>, ts: Toks, rest: Toks)
    requires Agree(n, s) && WriteRefs(Wire(n), items).Ok?
    requires ts == WriteRefs(Wire(n), items).value + rest
    ensures ReadRefs(ts, s, |items|) == Ok((items, rest))
  {
    hide Agree;
    if items == [] {
      assert ts == rest;
    } else {
      ReadRefInverts(n, s, items[0]);
      ReadRefsInverts(n, s, items[1..], ts[1..], rest);
      assert [items[0]] + items[1..] == items;
    }
  }

  lemma {:induction false} ReadTextsInverts(items: seq<Value>, ts: Toks, rest: Toks)
    requires WriteTexts(items).Ok? && ts == WriteTexts(items).value + rest
    ensures ReadTexts(ts, |items|) == Ok((items, rest))
  {
    if items == [] {
      assert ts == rest;
    } else {
      ReadTextsInverts(items[1..], ts[1..], rest);
      assert [items[0]] + items[1..] == items;
    }
  }

  /** Every value a field can carry is read back as it was written, whatever follows. */
  lemma ReadValueInverts(n: Interner, s: Space, f: Field, v: Value, ts: Toks, rest: Toks)
    requires Agree(n, s) && WriteValue(Wire(n), f, v).Ok?
    requires ts == WriteValue(Wire(n), f, v).value + rest
    ensures ReadValue(ts, s, f) == Ok((v, rest))
  {
    hide Agree, IndexIn, Reference, EncAll, ReadRefs, ReadTexts, WriteRefs, WriteTexts, IsFinite;
    var w := WriteValue(Wire(n), f, v).value;
    assert ts[0] == w[0] && ts[1..] == w[1..] + rest;
    if v.Arr? {
      var body := w[1..];
      RemainingAppend(body, rest);
      if f.kind.KRefList? {
        ReadRefsInverts(n, s, v.items, ts[1..], rest);
      } else {
        ReadTextsInverts(v.items, ts[1..], rest);
      }
    } else {
      assert w[1..] + rest == rest;
      if v.Ref? {
        ReferenceInverts(n, s, v.id);
      }
    }
  }
}
