/**
  The rebase as the code runs it: the exact pass, the alignment worklist, the rewrite and the
  collision check.

  The worklist starts from a hash map's pairs, whose order the code does not choose; here it
  is chosen arbitrarily, so what is proved holds for every order.
 */
module RebaseLoops {
  import opened Wrappers
  import opened Seqs
  import opened Cbor
  import opened Model
  import opened CanonDoc
  import opened Rebase
  import opened RebasePairs

  method PairRoots(base: Doc, basePaths: Paths, target: Doc, paths: Paths) returns (pair: Matching)
    requires |basePaths| == |base| && |paths| == |target|
    ensures pair == RootPairs(base, basePaths, target, paths)
  {
    hide RootsFrom, RootByName, RestPairs, Pick;
    var baseRoots, roots := RootsFrom(basePaths, 0), RootsFrom(paths, 0);
    pair := map[];
    for i := 0 to |roots|
      invariant
        pair == map t | t in roots[..i] && RootByName(base, baseRoots, target, roots, t).Some? ::
          RootByName(base, baseRoots, target, roots, t).value
    {
      assert roots[..i + 1] == roots[..i] + [roots[i]];
      var b := RootByName(base, baseRoots, target, roots, roots[i]);
      if b.Some? {
        pair := pair[roots[i] := b.value];
      }
    }
    assert roots[..|roots|] == roots;
    assert pair == KeyPairs(base, baseRoots, target, roots);
    pair := PairRest(pair, roots, Pick(baseRoots, pair.Values, false));
  }

  method PairRest(keyed: Matching, roots: seq<nat>, free: seq<nat>) returns (pair: Matching)
    ensures pair == RestPairs(keyed, roots, free)
  {
    pair := keyed;
    var next := 0;
    for i := 0 to |roots|
      invariant next <= |free|
      invariant RestPairs(pair, roots[i..], free[next..]) == RestPairs(keyed, roots, free)
    {
      if roots[i] !in pair && next < |free| {
        pair := pair[roots[i] := free[next]];
        next := next + 1;
      }
    }
  }

  // ---- the exact pass --------------------------------------------------------------

  /** Where the exact pass stands after `upto` elements. */
  ghost predicate ExactSoFar(base: Doc, target: Doc, exact: Matching, st: Pairing, log: Log, upto: nat)
    requires upto <= |target|
    requires forall t :: t in exact ==> t < |target| && exact[t] < |base|
  {
    && SoundPairing(base, target, exact, st, log)
    && log == PairsIn(exact)
    && (forall t, b :: (t, b) in log ==> t in exact && t in st.elems && st.elems[t] == b)
    && (forall t :: t in exact ==> t in st.elems)
    && (forall u :: u in st.remap ==> exists x :: 0 <= x < upto && target[x].id == u)
    && (DistinctIds(target) ==> Adopted(base, target, exact, st.remap))
  }

  lemma PassSkips(base: Doc, target: Doc, exact: Matching, st: Pairing, log: Log, i: nat)
    requires i < |target| && forall t :: t in exact ==> t < i && exact[t] < |base|
    requires ExactSoFar(base, target, exact, st, log, i)
    ensures ExactSoFar(base, target, exact, st, log, i + 1)
  {
    hide SoundPairing, Adopted, DistinctIds;
    forall u | u in st.remap ensures exists x :: 0 <= x < i + 1 && target[x].id == u {
      var x :| 0 <= x < i && target[x].id == u;
    }
  }

  lemma PassAdopts(base: Doc, target: Doc, exact: Matching, st: Pairing, log: Log, i: nat, b: nat)
    requires i < |target| && b < |base| && forall t :: t in exact ==> t < i && exact[t] < |base|
    requires ExactSoFar(base, target, exact, st, log, i)
    ensures
      ExactSoFar(base, target, exact[i := b], Adopt(base, target, st, i, b), log + {(i, b)}, i + 1)
  {
    hide SoundPairing, Adopted, DistinctIds, Justified;
    var more, now := exact[i := b], Adopt(base, target, st, i, b);
    ExactGrows(base, target, exact, more, st, log);
    SoundInRange(base, target, more, st, log);
    assert Justified(base, target, more, log, i, b) by { JustifiedExact(base, target, more, log, i, b); }
    AdoptSound(base, target, more, st, log, i, b);
    if DistinctIds(target) {
      AdoptExact(base, target, exact, st, i, b);
    }
    forall u | u in now.remap ensures exists x :: 0 <= x < i + 1 && target[x].id == u {
      if u in st.remap {
        var x :| 0 <= x < i && target[x].id == u;
      } else {
        assert u == target[i].id;
      }
    }
  }

  lemma SoundInRange(base: Doc, target: Doc, exact: Matching, st: Pairing, log: Log)
    requires SoundPairing(base, target, exact, st, log)
    ensures LogIn(base, target, log)
    ensures forall t :: t in st.elems ==> t < |target| && st.elems[t] < |base|
  {
    hide Justified;
  }

  lemma JustifiedExact(base: Doc, target: Doc, exact: Matching, log: Log, t: nat, b: nat)
    requires LogIn(base, target, log) && t < |target| && b < |base| && t in exact && exact[t] == b
    ensures Justified(base, target, exact, log, t, b)
  {
  }

  lemma ExactStep(base: Doc, target: Doc, exact: Matching, i: nat)
    requires forall t :: t in exact ==> t < |target| && exact[t] < |base|
    ensures
      var before := ExactState(base, target, exact, i);
      ExactState(base, target, exact, i + 1) == if i in exact then Adopt(base, target, before, i, exact[i]) else before
  {
    hide Adopt;
  }

  lemma StartsPassed(base: Doc, target: Doc, exact: Matching)
    requires forall t :: t in exact ==> t < |target| && exact[t] < |base|
    ensures ExactState(base, target, exact, 0) == UNPAIRED
    ensures ExactSoFar(base, target, map[], UNPAIRED, {}, 0)
  {
  }

  method ExactPass(base: Doc, basePaths: Paths, target: Doc, paths: Paths, pair: Matching)
    returns (st: Pairing, ghost log: Log)
    requires |basePaths| == |base| && |paths| == |target|
    ensures
      var exact := Exact(pair, basePaths, paths, |target|);
      && SoundPairing(base, target, exact, st, log)
      && (forall t :: t in exact ==> t in st.elems)
      && (DistinctIds(target) ==> Adopted(base, target, exact, st.remap))
      && st == ExactState(base, target, exact, |target|)
    ensures forall t, b :: (t, b) in log ==> t in st.elems && st.elems[t] == b
    ensures log == PairsIn(Exact(pair, basePaths, paths, |target|))
  {
    hide SoundPairing, Partner, Adopted, DistinctIds, ExactSoFar, Adopt, ExactState, Exact;
    ghost var full := Exact(pair, basePaths, paths, |target|);
    st, log := UNPAIRED, {};
    StartsPassed(base, target, full);
    NoneExact(pair, basePaths, paths);
    for i := 0 to |paths|
      invariant ExactSoFar(base, target, Exact(pair, basePaths, paths, i), st, log, i)
      invariant st == ExactState(base, target, full, i)
    {
      ghost var exact := Exact(pair, basePaths, paths, i);
      var b := Partner(pair, basePaths, paths, i);
      ExactStep(base, target, full, i);
      ExactMore(pair, basePaths, paths, i);
      if b.Some? {
        PassAdopts(base, target, exact, st, log, i, b.value);
        st, log := Adopt(base, target, st, i, b.value), log + {(i, b.value)};
      } else {
        PassSkips(base, target, exact, st, log, i);
      }
    }
    PassedIs(base, target, Exact(pair, basePaths, paths, |target|), st, log);
  }

  lemma NoneExact(pair: Matching, basePaths: Paths, paths: Paths)
    ensures Exact(pair, basePaths, paths, 0) == map[]
  {
  }

  lemma ExactMore(pair: Matching, basePaths: Paths, paths: Paths, i: nat)
    requires i < |paths|
    ensures
      var b := Partner(pair, basePaths, paths, i);
      var before := Exact(pair, basePaths, paths, i);
      Exact(pair, basePaths, paths, i + 1) == if b.Some? then before[i := b.value] else before
  {
    hide Partner;
  }

  lemma PassedIs(base: Doc, target: Doc, exact: Matching, st: Pairing, log: Log)
    requires forall t :: t in exact ==> t < |target| && exact[t] < |base|
    requires ExactSoFar(base, target, exact, st, log, |target|)
    ensures SoundPairing(base, target, exact, st, log) && forall t :: t in exact ==> t in st.elems
    ensures DistinctIds(target) ==> Adopted(base, target, exact, st.remap)
    ensures forall t, b :: (t, b) in log ==> t in st.elems && st.elems[t] == b
    ensures log == PairsIn(exact)
  {
    hide SoundPairing, Adopted, DistinctIds;
  }

  // ---- the alignment ---------------------------------------------------------------

  /** What every step of the alignment keeps. */
  ghost predicate Aligning(base: Doc, target: Doc, exact: Matching, st: Pairing, log: Log)
    requires forall t :: t in exact ==> t < |target| && exact[t] < |base|
  {
    && SoundPairing(base, target, exact, st, log)
    && (forall t :: t in exact ==> t in st.elems)
    && (DistinctIds(target) ==> Adopted(base, target, exact, st.remap))
  }

  lemma AlignAdopts(base: Doc, target: Doc, exact: Matching, st: Pairing, log: Log, p: nat, q: nat, t: nat, b: nat)
    requires forall x :: x in exact ==> x < |target| && exact[x] < |base|
    requires Aligning(base, target, exact, st, log) && p < |target| && q < |base| && (p, q) in log
    requires t in ChildPositions(target, p) && b in ChildPositions(base, q) && t !in exact && t < |target| && b < |base|
    requires KeyOf(target, t) == KeyOf(base, b)
    ensures Aligning(base, target, exact, Adopt(base, target, st, t, b), log + {(t, b)})
  {
    hide SoundPairing, Adopted, DistinctIds, KeyOf, ChildPositions;
    SoundInRange(base, target, exact, st, log);
    AdoptSound(base, target, exact, st, log, t, b);
    if DistinctIds(target) {
      AdoptKeeps(base, target, exact, st, t, b);
    }
  }

  method AlignChildren(
      base: Doc, target: Doc, before: Pairing, waiting: Queue, t: nat, b: nat, ghost exact: Matching, ghost had: Log)
    returns (st: Pairing, queue: Queue, ghost log: Log)
    requires forall x :: x in exact ==> x < |target| && exact[x] < |base|
    requires Aligning(base, target, exact, before, had) && t < |target| && b < |base| && (t, b) in had
    requires forall p :: p in waiting ==> p in had
    ensures st == AdoptAll(base, target, before, PairsOf(base, target, before, t, b))
    ensures queue == waiting + PairsOf(base, target, before, t, b)
    ensures Aligning(base, target, exact, st, log) && had <= log
    ensures forall p :: p in queue ==> p in log
    ensures log == had + Elems(PairsOf(base, target, before, t, b))
    ensures forall p :: p in log ==> p in had || p in queue
  {
    hide Aligning, ChildPositions, KeyOf, Pick, Adopt, AlignPairs, AdoptAll;
    st, queue, log := before, waiting, had;
    var unt := Unpaired(target, t, before.elems.Keys);
    var unb := Unpaired(base, b, before.used);
    ExactPaired(base, target, exact, before, had);
    var i, j := 0, 0;
    while i < |unt| && j < |unb|
      invariant i <= |unt| && j <= |unb|
      invariant
        AdoptAll(base, target, st, AlignPairs(base, target, unt[i..], unb[j..]))
        == AdoptAll(base, target, before, AlignPairs(base, target, unt, unb))
      invariant
        queue + AlignPairs(base, target, unt[i..], unb[j..]) == waiting + AlignPairs(base, target, unt, unb)
      invariant Aligning(base, target, exact, st, log) && had <= log
      invariant forall p :: p in queue ==> p in log
      invariant forall p :: p in log ==> p in had || p in queue
      decreases |unt| - i + |unb| - j
    {
      var tc, bc := unt[i], unb[j];
      AlignAt(base, target, unt, unb, i, j);
      if KeyOf(target, tc) == KeyOf(base, bc) {
        assert tc in unt && bc in unb;
        AlignAdopts(base, target, exact, st, log, t, b, tc, bc);
        AdoptHead(base, target, st, tc, bc, AlignPairs(base, target, unt[i + 1..], unb[j + 1..]));
        Assoc(queue, [(tc, bc)], AlignPairs(base, target, unt[i + 1..], unb[j + 1..]));
        st, queue, log := Adopt(base, target, st, tc, bc), queue + [(tc, bc)], log + {(tc, bc)};
        i, j := i + 1, j + 1;
      } else if |unb| - j > |unt| - i {
        j := j + 1;
      } else if |unt| - i > |unb| - j {
        i := i + 1;
      } else {
        i, j := i + 1, j + 1;
      }
    }
    AlignEnds(base, target, unt[i..], unb[j..], st);
    assert queue + [] == queue;
    LogIs(had, waiting, PairsOf(base, target, before, t, b), queue, log);
  }

  lemma LogIs(had: Log, waiting: Queue, pairs: Queue, queue: Queue, log: Log)
    requires had <= log && queue == waiting + pairs && forall p :: p in waiting ==> p in had
    requires (forall p :: p in queue ==> p in log) && forall p :: p in log ==> p in had || p in queue
    ensures log == had + Elems(pairs)
  {
  }

  /** One step of the alignment, from positions `i` and `j` on. */
  lemma AlignAt(base: Doc, target: Doc, unt: seq<nat>, unb: seq<nat>, i: nat, j: nat)
    requires Within(unt, |target|) && Within(unb, |base|) && i < |unt| && j < |unb|
    ensures
      AlignPairs(base, target, unt[i..], unb[j..])
      == if KeyOf(target, unt[i]) == KeyOf(base, unb[j])
         then [(unt[i], unb[j])] + AlignPairs(base, target, unt[i + 1..], unb[j + 1..])
         else if |unb| - j > |unt| - i then AlignPairs(base, target, unt[i..], unb[j + 1..])
         else if |unt| - i > |unb| - j then AlignPairs(base, target, unt[i + 1..], unb[j..])
         else AlignPairs(base, target, unt[i + 1..], unb[j + 1..])
  {
    hide KeyOf, AlignPairs;
    AlignOnce(base, target, unt[i..], unb[j..]);
    assert unt[i..][1..] == unt[i + 1..] && unb[j..][1..] == unb[j + 1..];
  }

  lemma AlignEnds(base: Doc, target: Doc, unt: seq<nat>, unb: seq<nat>, st: Pairing)
    requires Within(unt, |target|) && Within(unb, |base|) && (unt == [] || unb == [])
    ensures AlignPairs(base, target, unt, unb) == [] && AdoptAll(base, target, st, []) == st
  {
  }

  lemma ExactPaired(base: Doc, target: Doc, exact: Matching, st: Pairing, log: Log)
    requires forall x :: x in exact ==> x < |target| && exact[x] < |base|
    requires Aligning(base, target, exact, st, log)
    ensures forall t :: t in exact ==> t in st.elems
  {
  }

  function AllPairs(n: nat, m: nat): set<(nat, nat)> {
    set t: nat, b: nat | t < n && b < m :: (t, b)
  }

  /** The pairs of a map, in an order of its own choosing. */
  method Listed(pairs: Matching) returns (queue: Queue)
    ensures forall t, b :: (t, b) in queue <==> t in pairs && pairs[t] == b
  {
    queue := [];
    var left := pairs.Keys;
    while left != {}
      invariant left <= pairs.Keys
      invariant forall t, b :: (t, b) in queue <==> t in pairs && t !in left && pairs[t] == b
    {
      var t :| t in left;
      queue := queue + [(t, pairs[t])];
      left := left - {t};
    }
  }

  /**
    The worklist ends, and takes up every adopted pair exactly once: `trace` is the order it
    took them in, and the pairing is what taking them up in that order makes.
   */
  method Align(base: Doc, target: Doc, before: Pairing, ghost exact: Matching, ghost had: Log)
    returns (st: Pairing, ghost log: Log, ghost trace: Queue)
    requires forall x :: x in exact ==> x < |target| && exact[x] < |base|
    requires Aligning(base, target, exact, before, had)
    requires forall t, b :: (t, b) in had ==> t in before.elems && before.elems[t] == b
    ensures Aligning(base, target, exact, st, log) && had <= log
    ensures NoDup(trace) && Elems(trace) == log
    ensures QueueIn(trace, |target|, |base|) && st == RunAlign(base, target, before, trace)
    ensures Timely(base, target, before, had, trace) && log == Logged(base, target, before, had, trace)
  {
    hide Aligning, RunAlign, PairsOf, AdoptAll, NoDup, Logged, Timely, Elems;
    st, log, trace := before, had, [];
    var processed: set<(nat, nat)> := {};
    var queue := Listed(st.elems);
    PairsLogged(base, target, exact, st, log);
    forall p: (nat, nat) ensures p in queue <==> p in log {
      var (t, b) := p;
      assert p == (t, b);
    }
    NothingTaken(base, target, before, had);
    while queue != []
      invariant Aligning(base, target, exact, st, log) && had <= log
      invariant forall p :: p in queue ==> p in log
      invariant forall p :: p in log ==> p in processed || p in queue
      invariant processed <= log && processed <= AllPairs(|target|, |base|)
      invariant NoDup(trace) && Elems(trace) == processed
      invariant QueueIn(trace, |target|, |base|) && st == RunAlign(base, target, before, trace)
      invariant Timely(base, target, before, had, trace) && log == Logged(base, target, before, had, trace)
      decreases AllPairs(|target|, |base|) - processed, |queue|
    {
      var (t, b) := queue[|queue| - 1];
      assert (t, b) in queue;
      ghost var was := queue;
      queue := queue[..|queue| - 1];
      assert was == queue + [(t, b)];
      if (t, b) !in processed {
        LoggedInRange(base, target, exact, st, log, t, b);
        assert (t, b) in AllPairs(|target|, |base|);
        RunAlignStep(base, target, before, trace, t, b);
        LoggedStep(base, target, before, had, trace, t, b);
        TimelyStep(base, target, before, had, trace, t, b);
        TakenUp(trace, (t, b));
        processed, trace := processed + {(t, b)}, trace + [(t, b)];
        st, queue, log := AlignChildren(base, target, st, queue, t, b, exact, log);
      }
    }
  }

  lemma NothingTaken(base: Doc, target: Doc, st: Pairing, had: Log)
    ensures NoDup<(nat, nat)>([]) && Elems<(nat, nat)>([]) == {} && RunAlign(base, target, st, []) == st
    ensures Timely(base, target, st, had, []) && Logged(base, target, st, had, []) == had
  {
  }

  lemma TakenUp<T>(trace: seq<T>, p: T)
    requires NoDup(trace) && p !in Elems(trace)
    ensures NoDup(trace + [p]) && Elems(trace + [p]) == Elems(trace) + {p}
  {
    NoDupAppend(trace, [p]);
    ElemsSnoc(trace, p);
  }

  lemma PairsLogged(base: Doc, target: Doc, exact: Matching, st: Pairing, log: Log)
    requires forall x :: x in exact ==> x < |target| && exact[x] < |base|
    requires Aligning(base, target, exact, st, log)
    ensures forall t :: t in st.elems ==> (t, st.elems[t]) in log
  {
    hide Justified, Adopted;
  }

  lemma LoggedInRange(base: Doc, target: Doc, exact: Matching, st: Pairing, log: Log, t: nat, b: nat)
    requires forall x :: x in exact ==> x < |target| && exact[x] < |base|
    requires Aligning(base, target, exact, st, log) && (t, b) in log
    ensures t < |target| && b < |base|
  {
    hide Justified, Adopted;
  }

  // ---- the whole operation ---------------------------------------------------------

  /** Derives the ownership paths of a document, or refuses it; the naming rules are not modelled. */
  type Segments = Doc -> Result<Paths>

  ghost predicate FitsDocs(segments: Segments) {
    forall doc :: segments(doc).Ok? ==> |segments(doc).value| == |doc|
  }

  function ExactOf(segments: Segments, base: Doc, target: Doc): (r: Matching)
    requires FitsDocs(segments) && segments(base).Ok? && segments(target).Ok?
    ensures forall t :: t in r ==> t < |target| && r[t] < |base|
  {
    var basePaths, paths := segments(base).value, segments(target).value;
    assert |basePaths| == |base| && |paths| == |target|;
    Exact(RootPairs(base, basePaths, target, paths), basePaths, paths, |target|)
  }

  /**
    `out` is the target under the renaming of a whole run: the exact pass, then every adopted
    pair taken up once, in the order `trace`.
   */
  ghost predicate Rebased(segments: Segments, base: Doc, target: Doc, st: Pairing, trace: Queue, out: Doc) {
    && FitsDocs(segments) && segments(base).Ok? && segments(target).Ok?
    && Ran(base, target, ExactOf(segments, base, target), st, trace)
    && out == PatchDoc(st.remap, target) && DistinctIds(out)
    && Adopted(base, target, ExactOf(segments, base, target), st.remap)
  }

  ghost predicate Ran(base: Doc, target: Doc, exact: Matching, st: Pairing, trace: Queue)
    requires forall t :: t in exact ==> t < |target| && exact[t] < |base|
  {
    var before, had := ExactState(base, target, exact, |target|), PairsIn(exact);
    && QueueIn(trace, |target|, |base|) && NoDup(trace)
    && st == RunAlign(base, target, before, trace)
    && Timely(base, target, before, had, trace) && Elems(trace) == Logged(base, target, before, had, trace)
    && SoundPairing(base, target, exact, st, Elems(trace))
    && (DistinctIds(target) ==> Adopted(base, target, exact, st.remap))
  }

  method Patch(remap: Remap, target: Doc) returns (out: Doc)
    ensures out == PatchDoc(remap, target)
  {
    hide PatchElement;
    out := [];
    for i := 0 to |target|
      invariant |out| == i && forall k :: 0 <= k < i ==> out[k] == PatchElement(remap, target[k])
    {
      out := out + [PatchElement(remap, target[i])];
    }
  }

  method Collides(doc: Doc) returns (collides: bool)
    ensures collides <==> !DistinctIds(doc)
  {
    var seen: set<Uuid> := {};
    for i := 0 to |doc|
      invariant forall k, l :: 0 <= k < l < i ==> doc[k].id != doc[l].id
      invariant forall u :: u in seen <==> exists k :: 0 <= k < i && doc[k].id == u
    {
      if doc[i].id in seen {
        var k :| 0 <= k < i && doc[k].id == doc[i].id;
        assert Ids(doc)[k] == Ids(doc)[i];
        return true;
      }
      seen := seen + {doc[i].id};
    }
    collides := false;
  }

  /** What a rebase may return: the target renamed by a whole run, or a refusal with its cause. */
  ghost predicate Returned(segments: Segments, base: Doc, target: Doc, r: Result<Doc>, st: Pairing, trace: Queue)
    requires FitsDocs(segments)
  {
    match r
    case Ok(out) => Rebased(segments, base, target, st, trace, out)
    case Err(kind) =>
      && kind == Malformed
      && (segments(base).Err? || segments(target).Err?
          || (Ran(base, target, ExactOf(segments, base, target), st, trace)
              && !DistinctIds(PatchDoc(st.remap, target))))
  }

  /** Refused only where a path cannot be derived or the renaming collides. */
  method RebaseIds(segments: Segments, base: Doc, target: Doc)
    returns (r: Result<Doc>, ghost st: Pairing, ghost trace: Queue)
    requires FitsDocs(segments)
    ensures Returned(segments, base, target, r, st, trace)
  {
    hide FitsDocs, DistinctIds, SoundPairing, Adopted, PatchDoc, RootPairs, RunAlign, ExactState, NoDup, Elems, Timely,
      Logged, PairsIn;
    st, trace := UNPAIRED, [];
    var basePaths := segments(base);
    if basePaths.Err? {
      return Err(Malformed), st, trace;
    }
    var paths := segments(target);
    if paths.Err? {
      return Err(Malformed), st, trace;
    }
    PathsFit(segments, base);
    PathsFit(segments, target);
    var pair := PairRoots(base, basePaths.value, target, paths.value);
    ghost var exact := ExactOf(segments, base, target);
    var st0, log0 := ExactPass(base, basePaths.value, target, paths.value, pair);
    var st1, log1, order := Align(base, target, st0, exact, log0);
    st, trace := st1, order;
    var out := Patch(st1.remap, target);
    var collides := Collides(out);
    if collides {
      return Err(Malformed), st, trace;
    }
    TargetDistinct(base, target, exact, st, Elems(trace));
    r := Ok(out);
  }

  lemma PathsFit(segments: Segments, doc: Doc)
    requires FitsDocs(segments) && segments(doc).Ok?
    ensures |segments(doc).value| == |doc|
  {
  }

  /** What a sound pairing's renaming is: target identities to base identities. */
  lemma SoundRebases(base: Doc, target: Doc, exact: Matching, st: Pairing, log: Log)
    requires SoundPairing(base, target, exact, st, log) && DistinctIds(PatchDoc(st.remap, target))
    ensures Rebases(base, target, st.remap)
  {
    hide Justified, PatchDoc, DistinctIds;
    forall u | u in st.remap ensures u in Ids(target) && st.remap[u] in Ids(base) {
      var t, b :| (t, b) in log && target[t].id == u && base[b].id == st.remap[u];
      assert Ids(target)[t] == u && Ids(base)[b] == st.remap[u];
    }
  }

  lemma TargetDistinct(base: Doc, target: Doc, exact: Matching, st: Pairing, log: Log)
    requires SoundPairing(base, target, exact, st, log) && DistinctIds(PatchDoc(st.remap, target))
    ensures DistinctIds(target)
  {
    hide SoundPairing, PatchDoc, DistinctIds;
    SoundRebases(base, target, exact, st, log);
    RebasedDistinct(base, target, st.remap);
  }

  /**
    A rebase that succeeds returns the target under a renaming: same order, distinct identities,
    each path-matched element under its base partner's identity, each unpaired one under its
    own, and the canonical order carried along.
   */
  lemma RebasedIsTarget(segments: Segments, base: Doc, target: Doc, st: Pairing, trace: Queue, out: Doc)
    requires Rebased(segments, base, target, st, trace, out)
    ensures Rebases(base, target, st.remap) && out == PatchDoc(st.remap, target)
    ensures |out| == |target| && DistinctIds(target) && DistinctIds(out)
    ensures
      forall t :: t in ExactOf(segments, base, target) ==>
        out[t].id == base[ExactOf(segments, base, target)[t]].id
    ensures forall t: nat :: t < |target| && t !in st.elems ==> out[t].id == target[t].id
    ensures ExternalsFree(base, target) ==> CanonIds(out) == RenamedAll(st.remap, CanonIds(target))
  {
    hide ExactOf, SoundPairing, RunAlign, ExactState, NoDup, Elems, DistinctIds, PatchDoc, ExternalsFree, CanonIds;
    var exact := ExactOf(segments, base, target);
    SoundRebases(base, target, exact, st, Elems(trace));
    TargetDistinct(base, target, exact, st, Elems(trace));
    forall t: nat | t < |target| ensures out[t].id == Renamed(st.remap, target[t].id) {
      PatchedAt(st.remap, target, t);
    }
    forall t: nat | t < |target| && t !in st.elems ensures target[t].id !in st.remap {
      UnpairedKeeps(base, target, exact, st, Elems(trace), t);
    }
    if ExternalsFree(base, target) {
      RebaseKeepsOrder(base, target, st.remap);
    }
  }

  lemma PatchedAt(remap: Remap, target: Doc, t: nat)
    requires t < |target|
    ensures |PatchDoc(remap, target)| == |target| && PatchDoc(remap, target)[t].id == Renamed(remap, target[t].id)
  {
  }

  lemma UnpairedKeeps(base: Doc, target: Doc, exact: Matching, st: Pairing, log: Log, t: nat)
    requires SoundPairing(base, target, exact, st, log) && DistinctIds(target) && t < |target| && t !in st.elems
    ensures target[t].id !in st.remap
  {
    hide Justified;
    forall x, b | (x, b) in log ensures target[x].id != target[t].id {
      assert x in st.elems && x != t;
      assert Ids(target)[x] != Ids(target)[t];
    }
  }

  // ---- what becomes of external identities -----------------------------------------

  /** Some base element with the identity `u` may be paired: by path, or by looking like a target element. */
  ghost predicate MayPair(segments: Segments, base: Doc, target: Doc, u: Uuid)
    requires FitsDocs(segments) && segments(base).Ok? && segments(target).Ok?
  {
    exists t: nat, b: nat ::
      && t < |target| && b < |base| && base[b].id == u
      && ((t in ExactOf(segments, base, target) && ExactOf(segments, base, target)[t] == b)
          || (t !in ExactOf(segments, base, target) && KeyOf(target, t) == KeyOf(base, b)))
  }

  /**
    What becomes of an identity no target element has. Kept to name nothing, unless a run
    adopts it; and a run adopts the identity of every path match, and no other but that of a
    base element some unmatched target element looks like.
   */
  lemma ExternalFate(segments: Segments, base: Doc, target: Doc, st: Pairing, trace: Queue, out: Doc, u: Uuid)
    requires Rebased(segments, base, target, st, trace, out) && u !in Ids(target)
    ensures
      var exact := ExactOf(segments, base, target);
      && Renamed(st.remap, u) == u
      && (u in Ids(out) <==> u in st.remap.Values)
      && (forall t :: t in exact && base[exact[t]].id == u ==> out[t].id == u)
      && (u in Ids(out) ==> MayPair(segments, base, target, u))
      && (u in Ids(out) ==> u in Ids(base))
  {
    hide ExactOf, SoundPairing, RunAlign, ExactState, NoDup, Elems, DistinctIds, PatchDoc, ExternalsFree, CanonIds,
      KeyOf, MayPair;
    var exact := ExactOf(segments, base, target);
    RebasedIsTarget(segments, base, target, st, trace, out);
    NamesSurviveExactly(base, target, st.remap, u);
    if u in st.remap.Values {
      var v :| v in st.remap && st.remap[v] == u;
      AdoptedMayPair(segments, base, target, st, trace, v);
    }
  }

  lemma AdoptedMayPair(segments: Segments, base: Doc, target: Doc, st: Pairing, trace: Queue, v: Uuid)
    requires FitsDocs(segments) && segments(base).Ok? && segments(target).Ok? && v in st.remap
    requires SoundPairing(base, target, ExactOf(segments, base, target), st, Elems(trace))
    ensures MayPair(segments, base, target, st.remap[v])
  {
    hide ExactOf, KeyOf, ChildPositions;
    var t, b :| (t, b) in Elems(trace) && target[t].id == v && base[b].id == st.remap[v];
    assert Justified(base, target, ExactOf(segments, base, target), Elems(trace), t, b);
  }

  const WAS: Element := Element(1, "PartUsage", map[])
  const TYPED: Element := Element(2, "PartUsage", map[Named("type") := Ref(1)])

  /** Paths that make every element a root. */
  function Flat(doc: Doc): Result<Paths> {
    Ok(seq(|doc|, i requires 0 <= i < |doc| => Some(Path(i, []))))
  }

  lemma OneRoot(e: Element)
    ensures
      && Flat([e]) == Ok([Some(Path(0, []))]) && RootsFrom(Flat([e]).value, 0) == [0]
      && ChildPositions([e], 0) == ListAt([e], 0, OwnedRelationship) + ListAt([e], 0, OwnedRelatedElement)
  {
    var paths: Paths := [Some(Path(0, []))];
    assert Flat([e]).value == paths;
    assert RootsFrom(paths, 1) == [];
  }

  lemma NoChildren(e: Element)
    requires OwnedRelationship !in e.props && OwnedRelatedElement !in e.props
    ensures ListAt([e], 0, OwnedRelationship) == [] && ChildPositions([e], 0) == [] && RootName([e], 0) == None
  {
  }

  lemma RootsPair()
    ensures RootPairs([WAS], Flat([WAS]).value, [TYPED], Flat([TYPED]).value) == map[0 := 0]
  {
    hide RootsFrom, RestPairs, KeyPairs, Pick;
    OneRoot(WAS);
    OneRoot(TYPED);
    NoneKeyed();
    RestPaired();
    var none: Matching := map[];
    assert none.Values == {};
  }

  lemma NoneKeyed()
    ensures KeyPairs([WAS], [0], [TYPED], [0]) == map[]
  {
    hide RootName;
    NoChildren(TYPED);
  }

  lemma RestPaired()
    ensures Pick<nat>([0], {}, false) == [0] && RestPairs(map[], [0], [0]) == map[0 := 0]
  {
    assert [0][1..] == [];
  }

  lemma PathsPair()
    ensures FitsDocs(Flat) && ExactOf(Flat, [WAS], [TYPED]) == map[0 := 0]
  {
    hide RootsFrom, RootPairs;
    OneRoot(WAS);
    OneRoot(TYPED);
    RootsPair();
    var paths: Paths := [Some(Path(0, []))];
    assert LastAt(paths, Some(Path(0, []))) == Some(0);
    assert Partner(map[0 := 0], paths, paths, 0) == Some(0);
    assert Exact(map[0 := 0], paths, paths, 1) == map[0 := 0];
  }

  /** The pairing of that run, and the document it leaves. */
  const CAPTURING: Pairing := Pairing(map[0 := 0], {0}, map[2 := 1])
  const TAKEN: Queue := [(0, 0)]

  lemma CapturedDoc()
    ensures
      var out := PatchDoc(CAPTURING.remap, [TYPED]);
      && Ids([TYPED]) == [2] && Ids(out) == [1] && DistinctIds(out)
      && Adopted([WAS], [TYPED], map[0 := 0], CAPTURING.remap)
      && Named("type") in out[0].props && References(out[0].props[Named("type")]) == [1]
  {
    hide RenamedText;
    var out := PatchDoc(CAPTURING.remap, [TYPED]);
    assert out[0] == PatchElement(CAPTURING.remap, TYPED);
    assert Ids([TYPED]) == [2] && Ids(out) == [1];
  }

  lemma CapturedState()
    ensures ExactState([WAS], [TYPED], map[0 := 0], 1) == CAPTURING
  {
    var exact: Matching := map[0 := 0];
    assert ExactState([WAS], [TYPED], exact, 0) == UNPAIRED;
    assert Adopt([WAS], [TYPED], UNPAIRED, 0, 0) == CAPTURING;
  }

  lemma OnePair()
    ensures PairsIn(map[0 := 0]) == {(0, 0)} == Elems(TAKEN)
  {
    var exact: Matching := map[0 := 0];
    assert 0 in exact && TAKEN[0] == (0, 0);
  }

  lemma CapturedAlign()
    ensures QueueIn(TAKEN, 1, 1) && RunAlign([WAS], [TYPED], CAPTURING, TAKEN) == CAPTURING
    ensures Timely([WAS], [TYPED], CAPTURING, PairsIn(map[0 := 0]), TAKEN)
    ensures Logged([WAS], [TYPED], CAPTURING, PairsIn(map[0 := 0]), TAKEN) == Elems(TAKEN)
  {
    hide ChildPositions;
    NoChildren(TYPED);
    assert Unpaired([TYPED], 0, CAPTURING.elems.Keys) == [];
    assert PairsOf([WAS], [TYPED], CAPTURING, 0, 0) == [];
    assert TAKEN[..0] == [] && RunAlign([WAS], [TYPED], CAPTURING, []) == CAPTURING;
    OnePair();
  }

  lemma CapturedSound()
    ensures SoundPairing([WAS], [TYPED], map[0 := 0], CAPTURING, Elems(TAKEN)) && NoDup(TAKEN)
  {
    hide KeyOf, ChildPositions;
    assert forall p :: p in Elems(TAKEN) <==> p == (0, 0);
    JustifiedExact([WAS], [TYPED], map[0 := 0], Elems(TAKEN), 0, 0);
  }

  /**
    A whole run that captures: the one target element takes the identity of the base element at
    its path, and the reference it held to that identity, naming nothing, now names itself.
   */
  lemma ExternalCaptured()
    ensures
      var out := PatchDoc(CAPTURING.remap, [TYPED]);
      && Rebased(Flat, [WAS], [TYPED], CAPTURING, TAKEN, out)
      && Ids([TYPED]) == [2] && Ids(out) == [1]
      && Named("type") in out[0].props && References(out[0].props[Named("type")]) == [1]
  {
    hide PatchDoc, ExactOf, ExactState, RunAlign, SoundPairing, NoDup, Elems, DistinctIds, FitsDocs, Timely, Logged,
      PairsIn, Adopted;
    PathsPair();
    CapturedState();
    CapturedAlign();
    CapturedSound();
    CapturedDoc();
  }
}
