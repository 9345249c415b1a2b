/**
  Where no element a path does not match is listed twice as a child, a rebase does not depend
  on the order of its worklist: every whole run pairs exactly what can be reached from the path matches by
  aligning children, and its outcome is a function of the two documents.
 */
module RebaseConfluence {
  import opened Wrappers
  import opened Seqs
  import opened Cbor
  import opened Model
  import Order
  import opened CanonDoc
  import opened Rebase
  import opened RebasePairs
  import opened RebaseLoops

  /** No element outside `matched` is listed twice as a child, neither by two owners nor by one. */
  ghost predicate Unshared(doc: Doc, matched: set<nat>) {
    forall p: nat, q: nat, i: nat, j: nat ::
      && p < |doc| && q < |doc| && i < |ChildPositions(doc, p)| && j < |ChildPositions(doc, q)|
      && ChildPositions(doc, p)[i] == ChildPositions(doc, q)[j] && ChildPositions(doc, p)[i] !in matched
      ==> p == q && i == j
  }

  /** What a path does not match is a child once at most, in either document. */
  ghost predicate OwnedOnce(base: Doc, target: Doc, exact: Matching) {
    Unshared(target, exact.Keys) && Unshared(base, exact.Values)
  }

  ghost predicate ExactIn(base: Doc, target: Doc, exact: Matching) {
    forall t :: t in exact ==> t < |target| && exact[t] < |base|
  }

  // ---- what the inputs pair --------------------------------------------------------

  /** The pairs that aligning the children of one pair makes, those matched by path left out. */
  function Opens(base: Doc, target: Doc, exact: Matching, p: nat, q: nat): Queue {
    if p < |target| && q < |base|
    then AlignPairs(base, target, Unpaired(target, p, exact.Keys), Unpaired(base, q, exact.Values))
    else []
  }

  /** A path match, then at each step a pair the step before opens. */
  ghost predicate Descent(base: Doc, target: Doc, exact: Matching, chain: Queue) {
    && chain != [] && chain[0] in PairsIn(exact)
    && forall k :: 0 < k < |chain| ==> chain[k] in Opens(base, target, exact, chain[k - 1].0, chain[k - 1].1)
  }

  /** Read off the two documents and their path matches: the pair is reached from a path match. */
  ghost predicate Paired(base: Doc, target: Doc, exact: Matching, t: nat, b: nat) {
    exists chain :: Descent(base, target, exact, chain) && chain[|chain| - 1] == (t, b)
  }

  lemma PairedExact(base: Doc, target: Doc, exact: Matching, t: nat)
    requires t in exact
    ensures Paired(base, target, exact, t, exact[t])
  {
    var chain: Queue := [(t, exact[t])];
    assert Descent(base, target, exact, chain);
  }

  lemma PairedOpens(base: Doc, target: Doc, exact: Matching, p: nat, q: nat, t: nat, b: nat)
    requires Paired(base, target, exact, p, q) && (t, b) in Opens(base, target, exact, p, q)
    ensures Paired(base, target, exact, t, b)
  {
    hide Opens;
    var chain :| Descent(base, target, exact, chain) && chain[|chain| - 1] == (p, q);
    var more := chain + [(t, b)];
    forall k | 0 < k < |more| ensures more[k] in Opens(base, target, exact, more[k - 1].0, more[k - 1].1) {
      assert more[k - 1] == chain[k - 1];
      assert k < |chain| ==> more[k] == chain[k];
    }
    assert Descent(base, target, exact, more);
  }

  // ---- one step --------------------------------------------------------------------

  /** Some pair taken up opens this one. */
  ghost predicate OpenedBy(base: Doc, target: Doc, exact: Matching, taken: Log, t: nat, b: nat) {
    exists q :: q in taken && (t, b) in Opens(base, target, exact, q.0, q.1)
  }

  /** What every run keeps: one-to-one pairs, each from a path match or opened by a pair taken up. */
  ghost predicate Orderly(base: Doc, target: Doc, exact: Matching, st: Pairing, log: Log, taken: Log) {
    && ExactIn(base, target, st.elems)
    && log == PairsIn(st.elems) && st.used == st.elems.Values && Order.OneToOne(st.elems)
    && (forall t :: t in exact ==> t in st.elems && st.elems[t] == exact[t])
    && taken <= log
    && (forall t :: t in st.elems && t !in exact ==> OpenedBy(base, target, exact, taken, t, st.elems[t]))
    && (forall p :: p in taken ==> Elems(Opens(base, target, exact, p.0, p.1)) <= log)
    && forall t :: t in st.elems ==> Paired(base, target, exact, t, st.elems[t])
  }

  lemma OpensIn(base: Doc, target: Doc, exact: Matching, p: nat, q: nat, t: nat, b: nat)
    requires (t, b) in Opens(base, target, exact, p, q)
    ensures p < |target| && q < |base| && t < |target| && b < |base|
    ensures t in ChildPositions(target, p) && t !in exact && b in ChildPositions(base, q) && b !in exact.Values
  {
    hide AlignPairs, Unpaired, ChildPositions;
    var pairs := AlignPairs(base, target, Unpaired(target, p, exact.Keys), Unpaired(base, q, exact.Values));
    var k :| 0 <= k < |pairs| && pairs[k] == (t, b);
  }

  lemma OneOwner(doc: Doc, matched: set<nat>, p: nat, q: nat, c: nat)
    requires Unshared(doc, matched) && c !in matched && p < |doc| && q < |doc|
    requires c in ChildPositions(doc, p) && c in ChildPositions(doc, q)
    ensures p == q
  {
    hide ChildPositions;
    var i :| 0 <= i < |ChildPositions(doc, p)| && ChildPositions(doc, p)[i] == c;
    var j :| 0 <= j < |ChildPositions(doc, q)| && ChildPositions(doc, q)[j] == c;
  }

  lemma PairOf(elems: Matching, t: nat, b: nat)
    ensures (t, b) in PairsIn(elems) <==> t in elems && elems[t] == b
  {
  }

  /** A child of the pair at hand is taken only where it is matched by path. */
  lemma TargetFree(base: Doc, target: Doc, exact: Matching, st: Pairing, log: Log, taken: Log, p: nat, q: nat, c: nat)
    requires Orderly(base, target, exact, st, log, taken) && Unshared(target, exact.Keys)
    requires p < |target| && (p, q) in log && (p, q) !in taken && c in ChildPositions(target, p)
    ensures c in st.elems <==> c in exact
  {
    hide ChildPositions, Opens, Unshared, Paired;
    if c in st.elems && c !in exact {
      var o :| o in taken && (c, st.elems[c]) in Opens(base, target, exact, o.0, o.1);
      OpensIn(base, target, exact, o.0, o.1, c, st.elems[c]);
      OneOwner(target, exact.Keys, p, o.0, c);
      PairOf(st.elems, o.0, o.1);
      PairOf(st.elems, p, q);
    }
  }

  lemma BaseFree(base: Doc, target: Doc, exact: Matching, st: Pairing, log: Log, taken: Log, p: nat, q: nat, d: nat)
    requires Orderly(base, target, exact, st, log, taken) && Unshared(base, exact.Values)
    requires q < |base| && (p, q) in log && (p, q) !in taken && d in ChildPositions(base, q)
    ensures d in st.used <==> d in exact.Values
  {
    hide ChildPositions, Opens, Unshared, Paired;
    if d in exact.Values {
      var t :| t in exact && exact[t] == d;
      assert st.elems[t] == d;
    }
    if d in st.used && d !in exact.Values {
      var c :| c in st.elems && st.elems[c] == d;
      var o :| o in taken && (c, st.elems[c]) in Opens(base, target, exact, o.0, o.1);
      OpensIn(base, target, exact, o.0, o.1, c, d);
      OneOwner(base, exact.Values, q, o.1, d);
      PairOf(st.elems, o.0, o.1);
      PairOf(st.elems, p, q);
    }
  }

  /** A pair opens the same whenever it is taken up. */
  lemma OpensAsTaken(base: Doc, target: Doc, exact: Matching, st: Pairing, log: Log, taken: Log, p: nat, q: nat)
    requires Orderly(base, target, exact, st, log, taken) && OwnedOnce(base, target, exact)
    requires p < |target| && q < |base| && (p, q) in log && (p, q) !in taken
    ensures PairsOf(base, target, st, p, q) == Opens(base, target, exact, p, q)
  {
    hide ChildPositions, Orderly, Unshared, AlignPairs, Pick;
    forall c | c in ChildPositions(target, p) ensures c in st.elems.Keys <==> c in exact.Keys {
      TargetFree(base, target, exact, st, log, taken, p, q, c);
    }
    forall d | d in ChildPositions(base, q) ensures d in st.used <==> d in exact.Values {
      BaseFree(base, target, exact, st, log, taken, p, q, d);
    }
    PickAgree(ChildPositions(target, p), st.elems.Keys, exact.Keys, false);
    PickAgree(ChildPositions(base, q), st.used, exact.Values, false);
  }

  // ---- adopting pairs that meet nothing --------------------------------------------

  /** Pairs of distinct elements on both sides. */
  ghost predicate Different(pairs: Queue) {
    forall i, j :: 0 <= i < j < |pairs| ==> pairs[i].0 != pairs[j].0 && pairs[i].1 != pairs[j].1
  }

  /** Different pairs, of elements that are not paired yet. */
  ghost predicate Addable(st: Pairing, pairs: Queue) {
    && Different(pairs)
    && (forall i :: 0 <= i < |pairs| ==> pairs[i].0 !in st.elems && pairs[i].1 !in st.used)
  }

  ghost predicate UsedOnce(st: Pairing) {
    st.used == st.elems.Values && Order.OneToOne(st.elems)
  }

  lemma AdoptOne(base: Doc, target: Doc, st: Pairing, t: nat, b: nat)
    requires t < |target| && b < |base| && UsedOnce(st) && t !in st.elems && b !in st.used
    ensures
      var now := Adopt(base, target, st, t, b);
      && now.elems == st.elems[t := b] && UsedOnce(now) && PairsIn(now.elems) == PairsIn(st.elems) + {(t, b)}
  {
    var now := Adopt(base, target, st, t, b);
    forall d ensures d in now.elems.Values <==> d in st.elems.Values || d == b {
      if d in st.elems.Values {
        var x :| x in st.elems && st.elems[x] == d;
        assert now.elems[x] == d;
      }
      if d == b {
        assert now.elems[t] == b;
      }
    }
    forall p ensures p in PairsIn(now.elems) <==> p in PairsIn(st.elems) || p == (t, b) {
      PairOf(now.elems, p.0, p.1);
      PairOf(st.elems, p.0, p.1);
    }
  }

  lemma {:induction false} AdoptsApart(base: Doc, target: Doc, st: Pairing, pairs: Queue)
    requires QueueIn(pairs, |target|, |base|) && UsedOnce(st) && Addable(st, pairs)
    ensures
      var now := AdoptAll(base, target, st, pairs);
      && UsedOnce(now) && PairsIn(now.elems) == PairsIn(st.elems) + Elems(pairs)
      && forall t :: t in st.elems ==> t in now.elems && now.elems[t] == st.elems[t]
    decreases |pairs|
  {
    hide Adopt, UsedOnce, PairsIn;
    if pairs == [] {
      assert Elems(pairs) == {};
    } else {
      var (t, b) := pairs[0];
      assert pairs[0] == (t, b);
      AdoptOne(base, target, st, t, b);
      StillApart(base, target, st, pairs);
      AdoptsApart(base, target, Adopt(base, target, st, t, b), pairs[1..]);
      assert Elems(pairs) == {(t, b)} + Elems(pairs[1..]);
    }
  }

  lemma StillApart(base: Doc, target: Doc, st: Pairing, pairs: Queue)
    requires pairs != [] && pairs[0].0 < |target| && pairs[0].1 < |base| && Addable(st, pairs)
    ensures Addable(Adopt(base, target, st, pairs[0].0, pairs[0].1), pairs[1..])
  {
  }

  /** Lists without repeats are aligned into pairs of distinct elements. */
  lemma {:induction false} AlignsDistinct(base: Doc, target: Doc, unt: seq<nat>, unb: seq<nat>)
    requires Within(unt, |target|) && Within(unb, |base|) && NoDup(unt) && NoDup(unb)
    ensures Different(AlignPairs(base, target, unt, unb))
    decreases |unt| + |unb|
  {
    hide KeyOf, NoDup, AlignPairs, Different;
    NothingDifferent();
    AlignOnce(base, target, unt, unb);
    if unt != [] && unb != [] {
      TailsDistinct(unt);
      TailsDistinct(unb);
      if KeyOf(target, unt[0]) == KeyOf(base, unb[0]) {
        AlignsDistinct(base, target, unt[1..], unb[1..]);
        HeadDistinct(unt, unb, AlignPairs(base, target, unt[1..], unb[1..]));
      } else if |unb| > |unt| {
        AlignsDistinct(base, target, unt, unb[1..]);
      } else if |unt| > |unb| {
        AlignsDistinct(base, target, unt[1..], unb);
      } else {
        AlignsDistinct(base, target, unt[1..], unb[1..]);
      }
    }
  }

  lemma NothingDifferent()
    ensures Different([])
  {
  }

  lemma TailsDistinct(s: seq<nat>)
    requires s != [] && NoDup(s)
    ensures NoDup(s[1..]) && s[0] !in s[1..]
  {
    assert s == [s[0]] + s[1..];
    NoDupParts([s[0]], s[1..]);
  }

  lemma HeadDistinct(unt: seq<nat>, unb: seq<nat>, rest: Queue)
    requires unt != [] && unb != [] && unt[0] !in unt[1..] && unb[0] !in unb[1..]
    requires forall p :: p in rest ==> p.0 in unt[1..] && p.1 in unb[1..]
    requires Different(rest)
    ensures Different([(unt[0], unb[0])] + rest)
  {
    var r := [(unt[0], unb[0])] + rest;
    forall i, j | 0 <= i < j < |r| ensures r[i].0 != r[j].0 && r[i].1 != r[j].1 {
      assert r[j] == rest[j - 1] && rest[j - 1] in rest;
      if i > 0 {
        assert r[i] == rest[i - 1];
      }
    }
  }

  lemma {:induction false} PickDistinct<T>(s: seq<T>, xs: set<T>)
    requires forall i, j :: 0 <= i < j < |s| && s[i] == s[j] ==> s[i] in xs
    ensures NoDup(Pick(s, xs, false))
  {
    if s != [] {
      assert forall i :: 0 < i < |s| ==> s[i] == s[1..][i - 1];
      PickDistinct(s[1..], xs);
    }
  }

  lemma UnsharedNoDup(doc: Doc, matched: set<nat>, i: nat, taken: set<nat>)
    requires Unshared(doc, matched) && i < |doc| && matched <= taken
    ensures NoDup(Unpaired(doc, i, taken))
  {
    hide ChildPositions;
    var kids := ChildPositions(doc, i);
    forall j, k | 0 <= j < k < |kids| && kids[j] == kids[k] ensures kids[j] in taken {
    }
    PickDistinct(kids, taken);
  }

  /** What a pair opens when taken up is apart from what is paired. */
  lemma OpensApart(base: Doc, target: Doc, exact: Matching, st: Pairing, p: nat, q: nat)
    requires OwnedOnce(base, target, exact) && p < |target| && q < |base|
    requires exact.Keys <= st.elems.Keys && exact.Values <= st.used
    ensures Addable(st, PairsOf(base, target, st, p, q))
  {
    hide Unshared, Unpaired, NoDup, AlignPairs, Different;
    var unt, unb := Unpaired(target, p, st.elems.Keys), Unpaired(base, q, st.used);
    UnsharedNoDup(target, exact.Keys, p, st.elems.Keys);
    UnsharedNoDup(base, exact.Values, q, st.used);
    AlignsDistinct(base, target, unt, unb);
    var pairs := AlignPairs(base, target, unt, unb);
    assert PairsOf(base, target, st, p, q) == pairs;
    forall i | 0 <= i < |pairs| ensures pairs[i].0 !in st.elems && pairs[i].1 !in st.used {
      assert pairs[i] in pairs;
      assert pairs[i].0 in unt && pairs[i].1 in unb;
      assert pairs[i].0 !in st.elems.Keys;
    }
    assert Addable(st, pairs);
  }

  // ---- every step ------------------------------------------------------------------

  lemma MatchesHeld(base: Doc, target: Doc, exact: Matching, st: Pairing, log: Log, taken: Log)
    requires Orderly(base, target, exact, st, log, taken)
    ensures exact.Keys <= st.elems.Keys && exact.Values <= st.used
  {
    hide OpenedBy, Paired;
    forall b | b in exact.Values ensures b in st.used {
      var t :| t in exact && exact[t] == b;
      assert st.elems[t] == b;
    }
  }

  lemma OrderlyStep(base: Doc, target: Doc, exact: Matching, st: Pairing, log: Log, taken: Log, p: nat, q: nat)
    requires Orderly(base, target, exact, st, log, taken) && OwnedOnce(base, target, exact)
    requires p < |target| && q < |base| && (p, q) in log && (p, q) !in taken
    ensures
      var pairs := PairsOf(base, target, st, p, q);
      Orderly(base, target, exact, AdoptAll(base, target, st, pairs), log + Elems(pairs), taken + {(p, q)})
  {
    hide OwnedOnce, PairsOf, Opens, Paired, AdoptAll, PairsIn, Addable;
    var pairs := PairsOf(base, target, st, p, q);
    OpensAsTaken(base, target, exact, st, log, taken, p, q);
    MatchesHeld(base, target, exact, st, log, taken);
    OpensApart(base, target, exact, st, p, q);
    AdoptsApart(base, target, st, pairs);
    var now, more := AdoptAll(base, target, st, pairs), taken + {(p, q)};
    PairOf(st.elems, p, q);
    forall t | t in now.elems
      ensures t < |target| && now.elems[t] < |base| && Paired(base, target, exact, t, now.elems[t])
      ensures t !in exact ==> OpenedBy(base, target, exact, more, t, now.elems[t])
    {
      PairOf(now.elems, t, now.elems[t]);
      PairOf(st.elems, t, now.elems[t]);
      if t in st.elems && st.elems[t] == now.elems[t] {
        if t !in exact {
          var o :| o in taken && (t, st.elems[t]) in Opens(base, target, exact, o.0, o.1);
          assert o in more;
        }
      } else {
        OpensIn(base, target, exact, p, q, t, now.elems[t]);
        PairedOpens(base, target, exact, p, q, t, now.elems[t]);
        assert (p, q) in more;
      }
    }
  }

  // ---- the renaming of a pairing ---------------------------------------------------

  /** An identity of the renaming: some paired element's, renamed to its partner's. */
  ghost predicate SpeltBy(base: Doc, target: Doc, st: Pairing, u: Uuid)
    requires ExactIn(base, target, st.elems) && u in st.remap
  {
    exists t :: t in st.elems && target[t].id == u && base[st.elems[t]].id == st.remap[u] && st.remap[u] != u
  }

  /** The renaming is that of the pairs, and of nothing else. */
  ghost predicate Spelled(base: Doc, target: Doc, st: Pairing) {
    && ExactIn(base, target, st.elems)
    && (forall t :: t in st.elems ==> Renamed(st.remap, target[t].id) == base[st.elems[t]].id)
    && (forall u :: u in st.remap ==> SpeltBy(base, target, st, u))
  }

  lemma OthersDiffer(base: Doc, target: Doc, st: Pairing, t: nat)
    requires ExactIn(base, target, st.elems) && DistinctIds(target) && t < |target| && t !in st.elems
    ensures forall x :: x in st.elems ==> target[x].id != target[t].id
  {
    forall x | x in st.elems ensures target[x].id != target[t].id {
      assert Ids(target)[x] != Ids(target)[t];
    }
  }

  lemma SpelledOne(base: Doc, target: Doc, st: Pairing, t: nat, b: nat)
    requires Spelled(base, target, st) && DistinctIds(target) && t < |target| && b < |base| && t !in st.elems
    ensures Spelled(base, target, Adopt(base, target, st, t, b))
  {
    hide DistinctIds, SpeltBy, Renamed;
    var now := Adopt(base, target, st, t, b);
    OthersDiffer(base, target, st, t);
    forall x | x in now.elems ensures Renamed(now.remap, target[x].id) == base[now.elems[x]].id {
      RenamedAfter(st.remap, target[t].id, base[b].id, target[x].id);
      if x == t {
        NotYetRenamed(base, target, st, t);
      }
    }
    forall u | u in now.remap ensures SpeltBy(base, target, now, u) {
      if u == target[t].id && target[t].id != base[b].id {
        SpeltHere(base, target, st, t, b);
      } else {
        SpeltBefore(base, target, st, t, b, u);
      }
    }
  }

  lemma RenamedAfter(remap: Remap, was: Uuid, now: Uuid, u: Uuid)
    ensures u != was ==> Renamed(remap[was := now], u) == Renamed(remap, u)
    ensures Renamed(remap[was := now], was) == now
    ensures was !in remap ==> Renamed(remap, was) == was
  {
  }

  lemma NotYetRenamed(base: Doc, target: Doc, st: Pairing, t: nat)
    requires Spelled(base, target, st) && t < |target| && forall x :: x in st.elems ==> target[x].id != target[t].id
    ensures target[t].id !in st.remap
  {
    hide Renamed;
  }

  lemma SpeltHere(base: Doc, target: Doc, st: Pairing, t: nat, b: nat)
    requires ExactIn(base, target, st.elems) && t < |target| && b < |base| && target[t].id != base[b].id
    ensures SpeltBy(base, target, Adopt(base, target, st, t, b), target[t].id)
  {
    var now := Adopt(base, target, st, t, b);
    assert t in now.elems && now.elems[t] == b;
  }

  lemma SpeltBefore(base: Doc, target: Doc, st: Pairing, t: nat, b: nat, u: Uuid)
    requires Spelled(base, target, st) && t < |target| && b < |base| && t !in st.elems
    requires u in st.remap && (u != target[t].id || target[t].id == base[b].id)
    ensures SpeltBy(base, target, Adopt(base, target, st, t, b), u)
  {
    hide Renamed;
    var now := Adopt(base, target, st, t, b);
    var x :| x in st.elems && target[x].id == u && base[st.elems[x]].id == st.remap[u] && st.remap[u] != u;
    assert x in now.elems && now.elems[x] == st.elems[x];
  }

  lemma {:induction false} SpelledAll(base: Doc, target: Doc, st: Pairing, pairs: Queue)
    requires QueueIn(pairs, |target|, |base|) && Addable(st, pairs) && Spelled(base, target, st) && DistinctIds(target)
    ensures Spelled(base, target, AdoptAll(base, target, st, pairs))
    decreases |pairs|
  {
    hide Adopt, Spelled, DistinctIds;
    if pairs != [] {
      SpelledOne(base, target, st, pairs[0].0, pairs[0].1);
      StillApart(base, target, st, pairs);
      SpelledAll(base, target, Adopt(base, target, st, pairs[0].0, pairs[0].1), pairs[1..]);
    }
  }

  /** Pairings of the same elements rename alike. */
  lemma SpelledAlike(base: Doc, target: Doc, a: Pairing, b: Pairing)
    requires Spelled(base, target, a) && Spelled(base, target, b) && a.elems == b.elems
    ensures a.remap == b.remap
  {
    SpelledWithin(base, target, a, b);
    SpelledWithin(base, target, b, a);
    assert a.remap.Keys == b.remap.Keys;
  }

  lemma SpelledWithin(base: Doc, target: Doc, a: Pairing, b: Pairing)
    requires Spelled(base, target, a) && Spelled(base, target, b) && a.elems == b.elems
    ensures forall u :: u in a.remap ==> u in b.remap && a.remap[u] == b.remap[u]
  {
    forall u | u in a.remap ensures u in b.remap && a.remap[u] == b.remap[u] {
      var t :| t in a.elems && target[t].id == u && base[a.elems[t]].id == a.remap[u] && a.remap[u] != u;
      assert Renamed(b.remap, target[t].id) == base[b.elems[t]].id;
    }
  }

  // ---- from the exact pass to the end ----------------------------------------------

  /** The exact pass pairs exactly the path matches. */
  lemma {:induction false} ExactPairs(base: Doc, target: Doc, exact: Matching, upto: nat)
    requires ExactIn(base, target, exact) && Order.OneToOne(exact) && upto <= |target|
    ensures
      var st := ExactState(base, target, exact, upto);
      && UsedOnce(st) && (forall t :: t in st.elems ==> t in exact && t < upto && st.elems[t] == exact[t])
      && (forall t :: t in exact && t < upto ==> t in st.elems)
      && (DistinctIds(target) ==> Spelled(base, target, st))
  {
    hide Adopt, Spelled, DistinctIds;
    if upto == 0 {
      Unspelled(base, target);
    } else {
      var n := upto - 1;
      ExactPairs(base, target, exact, n);
      var before := ExactState(base, target, exact, n);
      if n in exact {
        forall x | x in before.elems ensures before.elems[x] != exact[n] {
        }
        AdoptOne(base, target, before, n, exact[n]);
        if DistinctIds(target) {
          SpelledOne(base, target, before, n, exact[n]);
        }
      }
    }
  }

  lemma Unspelled(base: Doc, target: Doc)
    ensures Spelled(base, target, UNPAIRED) && UsedOnce(UNPAIRED)
  {
  }

  lemma OrderlyStart(base: Doc, target: Doc, exact: Matching)
    requires ExactIn(base, target, exact) && Order.OneToOne(exact)
    ensures
      var st := ExactState(base, target, exact, |target|);
      && Orderly(base, target, exact, st, PairsIn(exact), {})
      && (DistinctIds(target) ==> Spelled(base, target, st))
  {
    hide Paired, Spelled, DistinctIds;
    ExactPairs(base, target, exact, |target|);
    var st := ExactState(base, target, exact, |target|);
    assert st.elems == exact;
    forall t | t in exact ensures Paired(base, target, exact, t, exact[t]) {
      PairedExact(base, target, exact, t);
    }
  }

  /** Every run keeps its pairs orderly and its renaming theirs. */
  lemma {:induction false} RunKeeps(base: Doc, target: Doc, exact: Matching, trace: Queue)
    requires ExactIn(base, target, exact) && Order.OneToOne(exact) && OwnedOnce(base, target, exact)
    requires QueueIn(trace, |target|, |base|) && NoDup(trace)
    requires Timely(base, target, ExactState(base, target, exact, |target|), PairsIn(exact), trace)
    ensures
      var st0 := ExactState(base, target, exact, |target|);
      var st := RunAlign(base, target, st0, trace);
      && Orderly(base, target, exact, st, Logged(base, target, st0, PairsIn(exact), trace), Elems(trace))
      && (DistinctIds(target) ==> Spelled(base, target, st))
    decreases |trace|
  {
    hide ExactState, Orderly, Spelled, DistinctIds, OwnedOnce, PairsOf, AdoptAll, PairsIn, NoDup, Elems, Addable;
    var st0 := ExactState(base, target, exact, |target|);
    if trace == [] {
      OrderlyStart(base, target, exact);
      NoPairs();
    } else {
      var n := |trace| - 1;
      var (p, q) := trace[n];
      TraceEnds(base, target, st0, PairsIn(exact), trace);
      RunKeeps(base, target, exact, trace[..n]);
      var before := RunAlign(base, target, st0, trace[..n]);
      var log := Logged(base, target, st0, PairsIn(exact), trace[..n]);
      OrderlyStep(base, target, exact, before, log, Elems(trace[..n]), p, q);
      MatchesHeld(base, target, exact, before, log, Elems(trace[..n]));
      OpensApart(base, target, exact, before, p, q);
      if DistinctIds(target) {
        SpelledAll(base, target, before, PairsOf(base, target, before, p, q));
      }
    }
  }

  lemma NoPairs()
    ensures Elems<(nat, nat)>([]) == {}
  {
  }

  lemma TraceEnds(base: Doc, target: Doc, st: Pairing, had: Log, trace: Queue)
    requires trace != [] && QueueIn(trace, |target|, |base|) && NoDup(trace) && Timely(base, target, st, had, trace)
    ensures
      var n := |trace| - 1;
      && QueueIn(trace[..n], |target|, |base|) && NoDup(trace[..n]) && Timely(base, target, st, had, trace[..n])
      && trace[n] in Logged(base, target, st, had, trace[..n]) && trace[n] !in Elems(trace[..n])
      && Elems(trace) == Elems(trace[..n]) + {trace[n]}
  {
    hide Logged;
    var n := |trace| - 1;
    forall k | 0 <= k < n ensures trace[..n][k] in Logged(base, target, st, had, trace[..n][..k]) {
      assert trace[..n][..k] == trace[..k];
    }
    assert trace == trace[..n] + [trace[n]];
  }

  // ---- what every whole run pairs --------------------------------------------------

  /** Every step of a descent is paired by a run that took up all it adopted. */
  lemma {:induction false} DescentReached(
      base: Doc, target: Doc, exact: Matching, st: Pairing, log: Log, chain: Queue, n: nat)
    requires Orderly(base, target, exact, st, log, log) && Descent(base, target, exact, chain) && n < |chain|
    ensures chain[n] in log
  {
    hide Opens, Paired;
    if n == 0 {
      PairOf(exact, chain[0].0, chain[0].1);
      PairOf(st.elems, chain[0].0, chain[0].1);
    } else {
      DescentReached(base, target, exact, st, log, chain, n - 1);
      assert chain[n] in Elems(Opens(base, target, exact, chain[n - 1].0, chain[n - 1].1));
    }
  }

  /**
    What a whole run pairs, said of its inputs: where what no path matches is a child once at
    most, and no two path matches share a partner, exactly the pairs reached from a path match.
   */
  lemma RunIsPaired(base: Doc, target: Doc, exact: Matching, st: Pairing, trace: Queue)
    requires ExactIn(base, target, exact) && Ran(base, target, exact, st, trace)
    requires Order.OneToOne(exact) && OwnedOnce(base, target, exact)
    ensures forall t: nat, b: nat :: (t in st.elems && st.elems[t] == b) <==> Paired(base, target, exact, t, b)
    ensures st.used == st.elems.Values && (DistinctIds(target) ==> Spelled(base, target, st))
  {
    hide SoundPairing, Adopted, OwnedOnce, Timely, Logged, RunAlign, ExactState, Spelled, DistinctIds, Opens, NoDup;
    RunKeeps(base, target, exact, trace);
    forall t: nat, b: nat ensures (t in st.elems && st.elems[t] == b) <==> Paired(base, target, exact, t, b) {
      if Paired(base, target, exact, t, b) {
        var chain :| Descent(base, target, exact, chain) && chain[|chain| - 1] == (t, b);
        DescentReached(base, target, exact, st, Elems(trace), chain, |chain| - 1);
        PairOf(st.elems, t, b);
      }
    }
  }

  /** Any two whole runs over the same path matches end alike. */
  lemma RunsAgree(
      base: Doc, target: Doc, exact: Matching, a: Pairing, traceA: Queue, b: Pairing, traceB: Queue)
    requires ExactIn(base, target, exact) && Order.OneToOne(exact) && OwnedOnce(base, target, exact)
    requires Ran(base, target, exact, a, traceA) && Ran(base, target, exact, b, traceB) && DistinctIds(target)
    ensures a == b
  {
    hide Ran, OwnedOnce, DistinctIds, Paired, Spelled;
    RunIsPaired(base, target, exact, a, traceA);
    RunIsPaired(base, target, exact, b, traceB);
    forall t ensures t in a.elems <==> t in b.elems {
      if t in a.elems {
        assert Paired(base, target, exact, t, a.elems[t]);
      }
      if t in b.elems {
        assert Paired(base, target, exact, t, b.elems[t]);
      }
    }
    forall t | t in a.elems ensures a.elems[t] == b.elems[t] {
      assert Paired(base, target, exact, t, a.elems[t]);
    }
    assert a.elems == b.elems;
    SpelledAlike(base, target, a, b);
  }

  // ---- the operation ---------------------------------------------------------------

  /** Path matches that share a partner collide, so a rebase that succeeds had none. */
  lemma MatchesApart(base: Doc, target: Doc, exact: Matching, remap: Remap)
    requires ExactIn(base, target, exact) && Adopted(base, target, exact, remap)
    requires DistinctIds(PatchDoc(remap, target))
    ensures Order.OneToOne(exact)
  {
    hide PatchElement, Renamed;
    var ids := Ids(PatchDoc(remap, target));
    IdsPatched(remap, target);
    forall t, x | t in exact && x in exact && exact[t] == exact[x] ensures t == x {
      assert ids[t] == Renamed(remap, target[t].id) == Renamed(remap, target[x].id) == ids[x];
    }
  }

  lemma RebasedMatches(segments: Segments, base: Doc, target: Doc, st: Pairing, trace: Queue, out: Doc)
    requires Rebased(segments, base, target, st, trace, out)
    ensures
      var exact := ExactOf(segments, base, target);
      && ExactIn(base, target, exact) && Order.OneToOne(exact) && DistinctIds(target)
      && Ran(base, target, exact, st, trace)
  {
    hide ExactOf, Adopted, DistinctIds, PatchDoc, RunAlign, ExactState, NoDup, Elems, Timely, Logged, SoundPairing;
    var exact := ExactOf(segments, base, target);
    MatchesApart(base, target, exact, st.remap);
    TargetDistinct(base, target, exact, st, Elems(trace));
  }

  /** Whatever order the worklist is taken in, a rebase returns the same document or refuses alike. */
  lemma OutcomesAgree(
      segments: Segments, base: Doc, target: Doc,
      r: Result<Doc>, a: Pairing, traceA: Queue, s: Result<Doc>, b: Pairing, traceB: Queue)
    requires FitsDocs(segments)
    requires
      segments(base).Ok? && segments(target).Ok? ==> OwnedOnce(base, target, ExactOf(segments, base, target))
    requires Returned(segments, base, target, r, a, traceA) && Returned(segments, base, target, s, b, traceB)
    ensures r == s
  {
    hide FitsDocs, OwnedOnce, ExactOf, Ran, PatchDoc, DistinctIds, Adopted;
    if segments(base).Ok? && segments(target).Ok? {
      var exact := ExactOf(segments, base, target);
      if r.Ok? {
        RebasedMatches(segments, base, target, a, traceA, r.value);
      }
      if s.Ok? {
        RebasedMatches(segments, base, target, b, traceB, s.value);
      }
      if r.Ok? || s.Ok? {
        RunsAgree(base, target, exact, a, traceA, b, traceB);
      }
    }
  }

  /** Some base element of the identity `u` is reached from a path match. */
  ghost predicate IdReached(base: Doc, target: Doc, exact: Matching, u: Uuid) {
    exists t: nat, b: nat :: b < |base| && base[b].id == u && Paired(base, target, exact, t, b)
  }

  /**
    The exact fate of an identity no target element has, on the inputs: it is captured if and
    only if a base element of that identity is reached from a path match, and else goes on
    naming nothing.
   */
  lemma CaptureIff(segments: Segments, base: Doc, target: Doc, st: Pairing, trace: Queue, out: Doc, u: Uuid)
    requires Rebased(segments, base, target, st, trace, out)
    requires OwnedOnce(base, target, ExactOf(segments, base, target)) && u !in Ids(target)
    ensures u in Ids(out) <==> IdReached(base, target, ExactOf(segments, base, target), u)
    ensures
      IndexOf(Ids(out), Renamed(st.remap, u)) == IndexOf(Ids(target), u)
      <==> !IdReached(base, target, ExactOf(segments, base, target), u)
  {
    hide ExactOf, OwnedOnce, Ran, PatchDoc, DistinctIds, Paired, MayPair, Adopted, IdReached;
    var exact := ExactOf(segments, base, target);
    RebasedMatches(segments, base, target, st, trace, out);
    RunIsPaired(base, target, exact, st, trace);
    ExternalFate(segments, base, target, st, trace, out, u);
    RebasedIsTarget(segments, base, target, st, trace, out);
    CapturedReached(base, target, exact, st, u);
    SameLength(st.remap, target);
  }

  lemma SameLength(remap: Remap, target: Doc)
    ensures |Ids(PatchDoc(remap, target))| == |Ids(target)|
  {
  }

  lemma CapturedReached(base: Doc, target: Doc, exact: Matching, st: Pairing, u: Uuid)
    requires Spelled(base, target, st) && u !in Ids(target)
    requires forall t: nat, b: nat :: (t in st.elems && st.elems[t] == b) <==> Paired(base, target, exact, t, b)
    ensures u in st.remap.Values <==> IdReached(base, target, exact, u)
  {
    hide Paired, IndexOf;
    if u in st.remap.Values {
      var v :| v in st.remap && st.remap[v] == u;
      var t :| t in st.elems && target[t].id == v && base[st.elems[t]].id == st.remap[v] && st.remap[v] != v;
      assert Paired(base, target, exact, t, st.elems[t]);
    }
    if IdReached(base, target, exact, u) {
      var t: nat, b: nat :| b < |base| && base[b].id == u && Paired(base, target, exact, t, b);
      assert t in st.elems && st.elems[t] == b;
      assert Ids(target)[t] == target[t].id;
      assert target[t].id in st.remap && st.remap[target[t].id] == u;
    }
  }
}
