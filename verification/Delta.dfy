/**
  Encoding a delta: what changed between two states, as records over the base's canonical
  order, with the result spelled in the order an applier will reproduce it.
 */
module Delta {
  import opened Wrappers
  import opened Seqs
  import opened Cbor
  import opened Model
  import opened Owners
  import opened Values
  import opened Records
  import opened Sections
  import opened Snapshot
  import opened Patch
  import opened Order
  import opened CanonDoc
  import opened Acts

  /** The digest of a byte string: an unkeyed hash into identities, otherwise unknown. */
  type Hash = seq<byte> -> Uuid

  function Digest(hash: Hash, tables: Tables, doc: Doc): Result<Uuid> {
    var b :- DigestBytes(tables, doc);
    Ok(hash(b))
  }

  // ---- the order an applier reproduces ---------------------------------------------

  /** The target's identities: those the base holds in base order, then the others in target order. */
  function ArrangedIds(base: Doc, target: Doc): (us: seq<Uuid>)
    ensures forall u :: u in us <==> u in Ids(target)
  {
    Pick(Ids(base), Elems(Ids(target)), true) + Pick(Ids(target), Elems(Ids(base)), false)
  }

  lemma ArrangedDistinct(base: Doc, target: Doc)
    requires DistinctIds(base) && DistinctIds(target)
    ensures NoDup(ArrangedIds(base, target))
  {
    PickNoDup(Ids(base), Elems(Ids(target)), true);
    PickNoDup(Ids(target), Elems(Ids(base)), false);
    NoDupAppend(Pick(Ids(base), Elems(Ids(target)), true), Pick(Ids(target), Elems(Ids(base)), false));
  }

  function Arranged(base: Doc, target: Doc): (doc: Doc)
    requires DistinctIds(base) && DistinctIds(target)
    ensures DistinctIds(doc) && Ids(doc) == ArrangedIds(base, target)
  {
    ArrangedDistinct(base, target);
    Select(target, ArrangedIds(base, target))
  }

  /** The target in the order applying a delta to `base` reproduces it. */
  function AppliedOrder(base: Doc, target: Doc): (doc: Doc)
    requires DistinctIds(base) && DistinctIds(target)
    ensures DistinctIds(doc)
  {
    Canonical(Arranged(base, target))
  }

  /** The result holds the target's elements. */
  lemma AppliedOrderSame(base: Doc, target: Doc)
    requires DistinctIds(base) && DistinctIds(target)
    ensures SameElements(target, AppliedOrder(base, target))
  {
    hide Canon, GraphOf, ArrangedIds, At;
    ArrangedDistinct(base, target);
    SelectSame(target, ArrangedIds(base, target));
    CanonDocSame(Arranged(base, target));
  }

  // ---- what changed ----------------------------------------------------------------

  /** A change record: a base position dropped, shipped whole or patched, or an element made. */
  datatype Record = Drop(at: nat) | Whole(at: nat, e: Element) | Patched(at: nat, e: Element) | Made(e: Element)

  predicate InBase(base: Doc, rec: Record) {
    rec.Made? || rec.at < |base|
  }

  /** The elements only the result holds, in result order. */
  function Created(base: Doc, result: Doc): (doc: Doc)
    ensures Ids(doc) == Pick(Ids(result), Elems(Ids(base)), false)
  {
    Select(result, Pick(Ids(result), Elems(Ids(base)), false))
  }

  predicate Changes(base: Doc, result: Doc, k: nat)
    requires k < |base|
  {
    base[k].id in Ids(result) && At(result, base[k].id) != base[k]
  }

  /** The changed elements, by base position from `k`. */
  function Updates(base: Doc, result: Doc, k: nat): (doc: Doc)
    requires k <= |base|
    ensures forall e :: e in doc ==> e in result
    decreases |base| - k
  {
    if k == |base| then []
    else (if Changes(base, result, k) then [At(result, base[k].id)] else []) + Updates(base, result, k + 1)
  }

  /** Whether the update ships whole: always when portable, else unless a patch is strictly smaller. */
  function ShipsWhole(tables: Tables, sp: Spelling, portable: bool, b: Element, e: Element, d: Derivation)
    : Result<bool>
  {
    var whole :- WriteElement(tables, sp, e, d);
    if portable then Ok(true)
    else
      match PlanPatch(tables, b, e)
      case None => Ok(true)
      case Some(ops) =>
        var patch :- WritePatch(sp, FieldsOf(tables, e.ty), ops);
        Ok(|EncAll(patch)| >= |EncAll(whole)|)
  }

  /** The records of the base positions from `k`, ascending. */
  function PlanTouched(tables: Tables, sp: Spelling, portable: bool, base: Doc, result: Doc, k: nat)
    : (r: Result<seq<Record>>)
    requires k <= |base|
    ensures r.Ok? ==> forall rec :: rec in r.value ==> !rec.Made? && k <= rec.at < |base|
    decreases |base| - k
  {
    if k == |base| then Ok([])
    else if base[k].id !in Ids(result) then
      var rest :- PlanTouched(tables, sp, portable, base, result, k + 1);
      Ok([Drop(k)] + rest)
    else
      var e := At(result, base[k].id);
      if e == base[k] then PlanTouched(tables, sp, portable, base, result, k + 1)
      else
        var whole :- ShipsWhole(tables, sp, portable, base[k], e, DerivationFor(result, true, e));
        var rest :- PlanTouched(tables, sp, portable, base, result, k + 1);
        Ok([if whole then Whole(k, e) else Patched(k, e)] + rest)
  }

  function Makes(created: Doc): (recs: seq<Record>)
    ensures |recs| == |created| && forall i :: 0 <= i < |created| ==> recs[i] == Made(created[i])
  {
    seq(|created|, i requires 0 <= i < |created| => Made(created[i]))
  }

  // ---- the records on the wire -----------------------------------------------------

  function Identity(portable: bool, base: Doc, rec: Record): Token
    requires InBase(base, rec)
  {
    if rec.Made? then NullTok
    else if portable then Bstr(UuidBytes(base[rec.at].id))
    else Uint(rec.at)
  }

  function Payload(tables: Tables, sp: Spelling, base: Doc, result: Doc, rec: Record): Result<Toks>
    requires InBase(base, rec)
  {
    match rec
    case Drop(_) => Ok([NullTok])
    case Whole(_, e) => WriteElement(tables, sp, e, DerivationFor(result, true, e))
    case Patched(at, e) =>
      (match PlanPatch(tables, base[at], e)
       case None => Err(Malformed)
       case Some(ops) => WritePatch(sp, FieldsOf(tables, e.ty), ops))
    case Made(e) => WriteElement(tables, sp, e, DerivationFor(result, true, e))
  }

  function WriteRecord(tables: Tables, sp: Spelling, portable: bool, base: Doc, result: Doc, rec: Record): Result<Toks>
    requires InBase(base, rec)
  {
    var payload :- Payload(tables, sp, base, result, rec);
    Ok([Array(2), Identity(portable, base, rec)] + payload)
  }

  function WriteRecords(
      tables: Tables, sp: Spelling, portable: bool, base: Doc, result: Doc, recs: seq<Record>): (r: Result<Toks>)
    requires forall rec :: rec in recs ==> InBase(base, rec)
    ensures r.Ok? ==> |r.value| >= |recs|
  {
    if recs == [] then Ok([])
    else
      var head :- WriteRecord(tables, sp, portable, base, result, recs[0]);
      var tail :- WriteRecords(tables, sp, portable, base, result, recs[1..]);
      Ok(head + tail)
  }

  /** The shipped elements that lack a backpointer, by record ordinal from `k`. */
  function RecordExceptions(tables: Tables, recs: seq<Record>, k: nat): (pairs: Pairs)
    requires k <= |recs|
    ensures PairsFit(OwnerBits, pairs)
    ensures forall i :: 0 <= i < |pairs| ==> k <= pairs[i].0 < |recs|
    ensures forall i :: 0 <= i < |pairs| ==> recs[pairs[i].0].Whole? || recs[pairs[i].0].Made?
    decreases |recs| - k
  {
    if k == |recs| then []
    else
      var rest := RecordExceptions(tables, recs, k + 1);
      if !recs[k].Whole? && !recs[k].Made? then rest
      else
        var bits := AbsentBits(FieldsOf(tables, recs[k].e.ty), recs[k].e);
        if bits == 0 then rest else [(k, Uint(bits))] + rest
  }

  // ---- claims and units ------------------------------------------------------------

  /** A routing hint: an identity or text. */
  predicate IsClaim(t: Token) {
    (t.Bstr? && |t.bytes| == 16) || t.Tstr?
  }

  function InsertPair(p: (nat, Token), pairs: Pairs): Pairs {
    if pairs == [] || p.0 < pairs[0].0 then [p] + pairs else [pairs[0]] + InsertPair(p, pairs[1..])
  }

  /** A list of pairs sorted by key. */
  function SortPairs(pairs: Pairs): Pairs {
    if pairs == [] then [] else InsertPair(pairs[0], SortPairs(pairs[1..]))
  }

  /** The units as passed, by position in the result. */
  function PlaceUnits(target: Doc, result: Doc, units: seq<(nat, Text)>): (r: Result<Pairs>)
    ensures r.Ok? ==> |r.value| == |units|
  {
    if units == [] then Ok([])
    else
      var (i, path) := units[0];
      if path == [] || i >= |target| then Err(Malformed)
      else
        var rest :- PlaceUnits(target, result, units[1..]);
        Ok([(IndexOf(Ids(result), target[i].id), Tstr(path))] + rest)
  }

  function MapUnits(target: Doc, result: Doc, units: seq<(nat, Text)>): Result<Pairs> {
    var placed :- PlaceUnits(target, result, units);
    var sorted := SortPairs(placed);
    if Ascending(sorted) then Ok(sorted) else Err(Malformed)
  }

  // ---- the payload -----------------------------------------------------------------

  datatype Options = Options(portable: bool, claims: Pairs, units: seq<(nat, Text)>)

  function Locals(portable: bool, base: Doc, created: Doc): seq<Uuid> {
    (if portable then [] else Ids(base)) + Ids(created)
  }

  function DeltaInterner(tables: Tables, portable: bool, base: Doc, result: Doc): Interner {
    var created := Created(base, result);
    BuildInterner(Locals(portable, base, created), DocRefs(tables, Updates(base, result, 0) + created))
  }

  function DeltaTokens(
      portable: bool, base: Doc, n: Interner, created: Doc, baseDigest: Uuid, resultDigest: Uuid,
      claims: Pairs, recs: seq<Record>, body: Toks, exceptions: Pairs, units: Pairs): Toks
  {
    [Array(7 + (if units != [] then 1 else 0)),
     Uint(HeaderWord(FlagByte(true, portable, units != [], true), ID_SCHEME)),
     Array(3), Bstr(UuidBytes(baseDigest)), Bstr(UuidBytes(resultDigest))]
    + (WritePairs(claims)
       + ([Uint(if portable then 0 else |base|)]
          + ([Array(|n.ext|)] + WriteIds(n.ext)
             + ([Array(|created|)] + WriteIds(Ids(created))
                + ([Array(|recs|)]
                   + (body
                      + (WritePairs(exceptions)
                         + (if units != [] then WritePairs(units) else [])))))))
    )
  }

  /** The change records of a diff: touched base positions ascending, then what was created. */
  function PlanRecords(tables: Tables, portable: bool, base: Doc, result: Doc): (r: Result<seq<Record>>)
    ensures r.Ok? ==> forall rec :: rec in r.value ==> InBase(base, rec)
  {
    var touched :- PlanTouched(tables, Wire(DeltaInterner(tables, portable, base, result)), portable, base, result, 0);
    Ok(touched + Makes(Created(base, result)))
  }

  /** The body of an encoding, over the canonical base and the result in applied order. */
  function EncodeBody(
      tables: Tables, portable: bool, base: Doc, result: Doc, baseDigest: Uuid, resultDigest: Uuid,
      claims: Pairs, units: Pairs): Result<Toks>
  {
    var n := DeltaInterner(tables, portable, base, result);
    var recs :- PlanRecords(tables, portable, base, result);
    var body :- WriteRecords(tables, Wire(n), portable, base, result, recs);
    Ok(DeltaTokens(portable, base, n, Created(base, result), baseDigest, resultDigest, claims, recs, body,
      RecordExceptions(tables, recs, 0), units))
  }

  predicate ValidClaims(claims: Pairs) {
    Ascending(claims) && forall p :: p in claims ==> IsClaim(p.1)
  }

  /** The claims sorted, and the units by result position: both refused for a repeated key. */
  function Extras(target0: Doc, result: Doc, opts: Options): Result<(Pairs, Pairs)> {
    if opts.units != [] && opts.portable then Err(Malformed)
    else
      var units :- MapUnits(target0, result, opts.units);
      var claims := SortPairs(opts.claims);
      if ValidClaims(claims) then Ok((claims, units)) else Err(Malformed)
  }

  /** The change set that turns `base0` into `target0`. */
  function EncodeDelta(hash: Hash, tables: Tables, base0: Doc, target0: Doc, opts: Options): Result<Toks>
    requires DistinctIds(base0) && DistinctIds(target0)
  {
    var base := Canonical(base0);
    var result := AppliedOrder(base, Canonical(target0));
    var baseDigest :- Digest(hash, tables, base);
    var resultDigest :- Digest(hash, tables, result);
    var (claims, units) :- Extras(target0, result, opts);
    EncodeBody(tables, opts.portable, base, result, baseDigest, resultDigest, claims, units)
  }
}
