/**
  What any sequence of queries can answer: exactly on which type graphs every answer is the
  nearest pattern, whatever was asked before. The condition is on the graph alone.
 */
module GoverningRuns {
  import opened Wrappers
  import opened Seqs
  import opened Governing

  type Memo = map<Ty, Option<Ty>>

  /** The types without a pattern that a first search goes past before it stops. */
  function Passed(g: Types, queue: seq<Ty>, seen: set<Ty>): set<Ty>
    requires Closed(g) && InGraph(g, queue)
    decreases |g.supers.Keys - seen|, |queue|
  {
    if queue == [] then {}
    else
      var t, rest := queue[0], queue[1..];
      assert t in queue;
      if t in seen then Passed(g, rest, seen)
      else if t in g.own then {}
      else
        Shrinks(g.supers.Keys, seen, t);
        {t} + Passed(g, rest + g.supers[t], seen + {t})
  }

  lemma PassedStep(g: Types, queue: seq<Ty>, seen: set<Ty>)
    requires Closed(g) && InGraph(g, queue)
    ensures queue == [] ==> Passed(g, queue, seen) == {}
    ensures
      queue != [] ==>
        var t, rest := queue[0], queue[1..];
        && t in g.supers && InGraph(g, rest) && InGraph(g, rest + g.supers[t])
        && Passed(g, queue, seen)
           == if t in seen then Passed(g, rest, seen)
              else if t in g.own then {}
              else {t} + Passed(g, rest + g.supers[t], seen + {t})
    ensures queue != [] && queue[0] !in seen ==> |g.supers.Keys - (seen + {queue[0]})| < |g.supers.Keys - seen|
  {
    if queue != [] {
      assert queue[0] in queue;
      if queue[0] !in seen {
        Shrinks(g.supers.Keys, seen, queue[0]);
      }
    }
  }

  /** What a first search from `t` finds. */
  function First(g: Types, t: Ty): Option<Ty>
    requires Closed(g) && t in g.supers
  {
    Search(g, EMPTY, [t], {})
  }

  /** Each type of the path is gone past by a first search from the one before it. */
  ghost predicate Trail(g: Types, path: seq<Ty>)
    requires Closed(g)
  {
    && path != [] && path[0] in g.supers
    && (|path| > 1 ==> path[1] in Passed(g, [path[0]], {}) && Trail(g, path[1..]))
  }

  /** A first search from the end of a trail from `t` finds `found`. */
  ghost predicate Trailed(g: Types, t: Ty, found: Option<Ty>)
    requires Closed(g)
  {
    exists path ::
      && Trail(g, path) && path[0] == t && path[|path| - 1] in g.supers
      && First(g, path[|path| - 1]) == found
  }

  /**
    The condition: from each type, what a first search finds at the end of a trail is a
    nearest pattern of the type the trail starts from.
   */
  ghost predicate Steady(g: Types)
    requires Closed(g)
  {
    forall t, found :: Trailed(g, t, found) && found.Some? ==> Nearest(g, t, found.value)
  }

  /** Whatever was asked before, each answer is a nearest pattern. */
  ghost predicate AlwaysNearest(g: Types)
    requires Closed(g)
  {
    forall tys, ty :: InGraph(g, tys) && ty in g.supers && Answer(g, After(g, EMPTY, tys), ty).Some? ==>
      Nearest(g, ty, Answer(g, After(g, EMPTY, tys), ty).value)
  }

  // ---- a search over a memo, beside a first search ---------------------------------

  /** The queue without the types nothing governs. */
  ghost function Live(g: Types, queue: seq<Ty>): seq<Ty> {
    if queue == [] then []
    else if Governed(g, queue[0]) then [queue[0]] + Live(g, queue[1..])
    else Live(g, queue[1..])
  }

  lemma {:induction false} LiveJoin(g: Types, a: seq<Ty>, b: seq<Ty>)
    ensures Live(g, a + b) == Live(g, a) + Live(g, b)
  {
    hide Governed;
    if a == [] {
      assert a + b == b;
    } else {
      assert (a + b)[0] == a[0] && (a + b)[1..] == a[1..] + b;
      LiveJoin(g, a[1..], b);
    }
  }

  lemma {:induction false} LiveNone(g: Types, queue: seq<Ty>)
    requires forall t :: t in queue ==> !Governed(g, t)
    ensures Live(g, queue) == []
  {
    hide Governed;
    if queue != [] {
      LiveNone(g, queue[1..]);
    }
  }

  lemma UpUngoverned(g: Types, t: Ty)
    requires Closed(g) && t in g.supers && !Governed(g, t)
    ensures t !in g.own && Live(g, g.supers[t]) == []
  {
    ReachesSelf(g, t);
    forall u | u in g.supers[t] ensures !Governed(g, u) {
      assert Chain(g, [t, u]) && [t, u][0] == t && [t, u][1] == u;
      if Governed(g, u) {
        GovernedUp(g, t, u);
      }
    }
    LiveNone(g, g.supers[t]);
  }

  /** Two searches that differ only in what nothing governs. */
  ghost predicate Beside(g: Types, queue: seq<Ty>, seen: set<Ty>, other: seq<Ty>, gone: set<Ty>) {
    Live(g, queue) == Live(g, other) && forall t :: Governed(g, t) ==> (t in seen <==> t in gone)
  }

  /** A type with a pattern is remembered as its own answer. */
  ghost predicate OwnKept(g: Types, memo: Memo) {
    forall t :: t in memo && t in g.own ==> memo[t] == Some(t)
  }

  /** The remembered answers a first search would go past. */
  function Met(memo: Memo, passed: set<Ty>): set<Ty> {
    set t | t in passed && t in memo && memo[t].Some?
  }

  /**
    The answer is the first search's if that goes past no remembered answer, and one of the
    remembered answers it goes past if it does.
   */
  ghost predicate FirstOrMet(memo: Memo, passed: set<Ty>, found: Option<Ty>, first: Option<Ty>) {
    && (Met(memo, passed) == {} ==> found == first)
    && (Met(memo, passed) != {} ==> exists s :: s in Met(memo, passed) && memo[s] == found)
  }

  lemma AgreesMore(memo: Memo, passed: set<Ty>, t: Ty, found: Option<Ty>, first: Option<Ty>)
    requires FirstOrMet(memo, passed, found, first) && (t in memo ==> memo[t].None?)
    ensures FirstOrMet(memo, {t} + passed, found, first)
  {
    assert Met(memo, {t} + passed) == Met(memo, passed);
  }

  /** One turn past a type nothing governs. */
  lemma BesideSkips(g: Types, memo: Memo, queue: seq<Ty>, seen: set<Ty>, other: seq<Ty>, gone: set<Ty>)
    returns (next: seq<Ty>, more: set<Ty>)
    requires Closed(g) && SoundMemo(g, memo) && InGraph(g, queue) && Beside(g, queue, seen, other, gone)
    requires queue != [] && !Governed(g, queue[0])
    ensures InGraph(g, next) && Beside(g, next, more, other, gone)
    ensures Search(g, memo, queue, seen) == Search(g, memo, next, more)
    ensures
      || (more == seen && |next| < |queue|)
      || |g.supers.Keys - more| < |g.supers.Keys - seen|
    ensures
      memo == EMPTY ==>
        || Passed(g, queue, seen) == Passed(g, next, more)
        || Passed(g, queue, seen) == {queue[0]} + Passed(g, next, more)
  {
    hide Search, Passed, Governed, Reaches;
    var t, rest := queue[0], queue[1..];
    SearchStep(g, memo, queue, seen);
    PassedStep(g, queue, seen);
    UpUngoverned(g, t);
    UngovernedMet(g, memo, t);
    if t in seen {
      next, more := rest, seen;
    } else if t in memo {
      next, more := rest, seen + {t};
    } else {
      LiveJoin(g, rest, g.supers[t]);
      next, more := rest + g.supers[t], seen + {t};
    }
  }

  /** A search over a sound memo answers what a first search would, or a remembered answer that one goes past. */
  lemma {:induction false} SearchAgrees(
      g: Types, memo: Memo, queue: seq<Ty>, seen: set<Ty>, other: seq<Ty>, gone: set<Ty>)
    requires Closed(g) && SoundMemo(g, memo) && OwnKept(g, memo) && InGraph(g, queue) && InGraph(g, other)
    requires Beside(g, queue, seen, other, gone)
    ensures FirstOrMet(memo, Passed(g, other, gone), Search(g, memo, queue, seen), Search(g, EMPTY, other, gone))
    decreases |g.supers.Keys - seen| + |g.supers.Keys - gone|, |queue| + |other|
  {
    hide Search, Passed, Governed, FirstOrMet, Closed;
    if queue != [] && !Governed(g, queue[0]) {
      var next, more := BesideSkips(g, memo, queue, seen, other, gone);
      SearchAgrees(g, memo, next, more, other, gone);
    } else if other != [] && !Governed(g, other[0]) {
      var next, more := BesideSkips(g, EMPTY, other, gone, queue, seen);
      SearchAgrees(g, memo, queue, seen, next, more);
      UngovernedMet(g, memo, other[0]);
      AgreesMore(memo, Passed(g, next, more), other[0], Search(g, memo, queue, seen), Search(g, EMPTY, next, more));
    } else {
      SearchStep(g, memo, queue, seen);
      SearchStep(g, EMPTY, other, gone);
      PassedStep(g, other, gone);
      if queue == [] || other == [] {
        assert queue == [] && other == [];
        AgreesNone(memo);
      } else {
        AgreesLive(g, memo, queue, seen, other, gone);
      }
    }
  }

  lemma UngovernedMet(g: Types, memo: Memo, t: Ty)
    requires SoundMemo(g, memo) && !Governed(g, t)
    ensures t in memo ==> memo[t].None?
  {
  }

  lemma AgreesNone(memo: Memo)
    ensures FirstOrMet(memo, {}, None, None)
  {
  }

  /** One turn of both searches, at the same type that something governs. */
  lemma {:induction false} AgreesLive(
      g: Types, memo: Memo, queue: seq<Ty>, seen: set<Ty>, other: seq<Ty>, gone: set<Ty>)
    requires Closed(g) && SoundMemo(g, memo) && OwnKept(g, memo) && InGraph(g, queue) && InGraph(g, other)
    requires Beside(g, queue, seen, other, gone)
    requires queue != [] && other != [] && Governed(g, queue[0]) && Governed(g, other[0])
    ensures FirstOrMet(memo, Passed(g, other, gone), Search(g, memo, queue, seen), Search(g, EMPTY, other, gone))
    decreases |g.supers.Keys - seen| + |g.supers.Keys - gone|, |queue| + |other|, 0
  {
    hide Search, Passed, Governed, FirstOrMet, Closed;
    SearchStep(g, memo, queue, seen);
    SearchStep(g, EMPTY, other, gone);
    PassedStep(g, other, gone);
    var t := queue[0];
    assert Live(g, queue)[0] == t && Live(g, other)[0] == other[0];
    assert Live(g, queue)[1..] == Live(g, queue[1..]) && Live(g, other)[1..] == Live(g, other[1..]);
    if t in seen {
      SearchAgrees(g, memo, queue[1..], seen, other[1..], gone);
    } else if t in memo {
      RememberedAgrees(g, memo, t, Passed(g, other, gone), Search(g, EMPTY, other, gone));
    } else if t in g.own {
      UnmetAgrees(memo, Some(t));
    } else {
      LiveJoin(g, queue[1..], g.supers[t]);
      LiveJoin(g, other[1..], g.supers[t]);
      var next, again := queue[1..] + g.supers[t], other[1..] + g.supers[t];
      SearchAgrees(g, memo, next, seen + {t}, again, gone + {t});
      AgreesMore(memo, Passed(g, again, gone + {t}), t, Search(g, memo, queue, seen), Search(g, EMPTY, other, gone));
    }
  }

  lemma RememberedAgrees(g: Types, memo: Memo, t: Ty, passed: set<Ty>, first: Option<Ty>)
    requires SoundMemo(g, memo) && OwnKept(g, memo) && t in memo && Governed(g, t)
    requires if t in g.own then passed == {} && first == Some(t) else t in passed
    ensures FirstOrMet(memo, passed, memo[t], first)
  {
    hide Governed;
    if t !in g.own {
      assert t in Met(memo, passed);
    }
  }

  lemma UnmetAgrees(memo: Memo, found: Option<Ty>)
    ensures FirstOrMet(memo, {}, found, found)
  {
  }

  // ---- what a run of queries remembers ---------------------------------------------

  /** Each remembered answer is what a first search finds at the end of a trail. */
  ghost predicate Traced(g: Types, memo: Memo)
    requires Closed(g)
  {
    SoundMemo(g, memo) && OwnKept(g, memo) && forall t :: t in memo && memo[t].Some? ==> Trailed(g, t, memo[t])
  }

  /** A search that finds nothing has passed through types nothing governs. */
  lemma {:induction false} SearchNone(g: Types, memo: Memo, queue: seq<Ty>, seen: set<Ty>) returns (last: set<Ty>)
    requires Closed(g) && SoundMemo(g, memo) && InGraph(g, queue) && Searched(g, memo, seen, queue)
    requires Search(g, memo, queue, seen).None?
    ensures Searched(g, memo, last, []) && seen <= last && Visited(g, memo, queue, seen) <= last
    decreases |g.supers.Keys - seen|, |queue|
  {
    hide Search, Searched, SoundMemo, Closed;
    SearchStep(g, memo, queue, seen);
    if queue == [] {
      last := seen;
    } else {
      var t, rest := queue[0], queue[1..];
      SearchedPops(g, memo, seen, queue);
      if t in seen {
        last := SearchNone(g, memo, rest, seen);
      } else if t in memo {
        last := SearchNone(g, memo, rest, seen + {t});
      } else {
        last := SearchNone(g, memo, rest + g.supers[t], seen + {t});
      }
    }
  }

  lemma NoneVisited(g: Types, memo: Memo, ty: Ty)
    requires Closed(g) && SoundMemo(g, memo) && ty in g.supers && InGraph(g, [ty]) && ty !in memo
    requires Search(g, memo, [ty], {}).None?
    ensures !Governed(g, ty) && forall t :: t in Visited(g, memo, [ty], {}) ==> t in g.supers && !Governed(g, t)
  {
    hide Search, Governed, SoundMemo;
    var last := SearchNone(g, memo, [ty], {});
    assert ty in Visited(g, memo, [ty], {});
    Settle(g, memo, last, ty);
  }

  lemma TrailedMore(g: Types, t: Ty, u: Ty, found: Option<Ty>)
    requires Closed(g) && t in g.supers && u in Passed(g, [t], {}) && Trailed(g, u, found)
    ensures Trailed(g, t, found)
  {
    hide Passed, First;
    var path :| Trail(g, path) && path[0] == u && path[|path| - 1] in g.supers && First(g, path[|path| - 1]) == found;
    var longer := [t] + path;
    assert longer[1..] == path;
    assert Trail(g, longer) && longer[0] == t && longer[|longer| - 1] == path[|path| - 1];
  }

  lemma TrailedFirst(g: Types, t: Ty)
    requires Closed(g) && t in g.supers
    ensures Trailed(g, t, First(g, t))
  {
    hide Passed, First;
    assert Trail(g, [t]) && [t][0] == t;
  }

  /** A search over what earlier queries left finds what a first search finds at the end of a trail. */
  lemma SearchTrailed(g: Types, memo: Memo, ty: Ty)
    requires Closed(g) && Traced(g, memo) && ty in g.supers && InGraph(g, [ty])
    ensures Search(g, memo, [ty], {}).Some? ==> Trailed(g, ty, Search(g, memo, [ty], {}))
    ensures FirstOrMet(memo, Passed(g, [ty], {}), Search(g, memo, [ty], {}), First(g, ty))
  {
    hide Search, Passed, Trailed, Live, Governed, SoundMemo, OwnKept;
    SearchAgrees(g, memo, [ty], {}, [ty], {});
    TrailedFirst(g, ty);
    if Met(memo, Passed(g, [ty], {})) != {} {
      var s :| s in Met(memo, Passed(g, [ty], {})) && memo[s] == Search(g, memo, [ty], {});
      TrailedMore(g, ty, s, memo[s]);
    }
  }

  lemma AnswerTrailed(g: Types, memo: Memo, ty: Ty)
    requires Closed(g) && Traced(g, memo) && ty in g.supers
    ensures Answer(g, memo, ty).Some? ==> Trailed(g, ty, Answer(g, memo, ty))
  {
    hide Search, Passed, Trailed, FirstOrMet, SoundMemo, OwnKept;
    if ty !in memo {
      assert InGraph(g, [ty]);
      SearchTrailed(g, memo, ty);
    }
  }

  lemma KeptSome(g: Types, memo: Memo, ty: Ty, found: Option<Ty>)
    requires Closed(g) && Traced(g, memo) && found.Some? && found.value in g.own && Reaches(g, ty, found.value)
    requires ty in g.supers && Trailed(g, ty, found) && (ty in g.own ==> found == Some(ty))
    ensures Traced(g, memo[ty := found])
  {
    hide Trailed, Governed, Reaches;
  }

  lemma OwnGoverned(g: Types, t: Ty)
    requires t in g.own && t in g.supers
    ensures Governed(g, t)
  {
    ReachesSelf(g, t);
  }

  lemma KeptNones(g: Types, memo: Memo, more: Memo)
    requires Closed(g) && Traced(g, memo)
    requires forall t :: t in more ==>
      (t in memo && more[t] == memo[t]) || (t in g.supers && !Governed(g, t) && more[t].None?)
    ensures Traced(g, more)
  {
    hide Trailed, Governed, Reaches;
    forall t | t in more && t in g.own && !(t in memo && more[t] == memo[t]) ensures false {
      OwnGoverned(g, t);
    }
  }

  lemma KeptNone(g: Types, memo: Memo, ty: Ty)
    requires Closed(g) && Traced(g, memo) && ty in g.supers && InGraph(g, [ty]) && ty !in memo
    requires Search(g, memo, [ty], {}).None?
    ensures Traced(g, Learned(g, memo, ty))
  {
    hide Search, Visited, Trailed, Governed, Reaches;
    NoneVisited(g, memo, ty);
    KeptNones(g, memo, Learned(g, memo, ty));
  }

  /** Asking once more keeps it so. */
  lemma KeptLearned(g: Types, memo: Memo, ty: Ty)
    requires Closed(g) && Traced(g, memo) && ty in g.supers
    ensures Traced(g, Learned(g, memo, ty))
  {
    hide Traced, Search, Visited, Trailed, Governed, Reaches, FirstOrMet, Passed;
    if ty !in memo {
      assert InGraph(g, [ty]);
      if Search(g, memo, [ty], {}).None? {
        KeptNone(g, memo, ty);
      } else {
        KeptSound(g, memo);
        SearchTrailed(g, memo, ty);
        SearchAnswers(g, memo, ty);
        OwnFirst(g, memo, ty);
        KeptSome(g, memo, ty, Search(g, memo, [ty], {}));
      }
    }
  }

  lemma KeptSound(g: Types, memo: Memo)
    requires Closed(g) && Traced(g, memo)
    ensures SoundMemo(g, memo) && OwnKept(g, memo)
  {
  }

  lemma OwnFirst(g: Types, memo: Memo, ty: Ty)
    requires Closed(g) && ty in g.supers && InGraph(g, [ty]) && ty !in memo
    ensures ty in g.own ==> Search(g, memo, [ty], {}) == Some(ty)
  {
    hide Search;
    SearchStep(g, memo, [ty], {});
  }

  lemma {:induction false} KeptAfter(g: Types, tys: seq<Ty>)
    requires Closed(g) && InGraph(g, tys)
    ensures Traced(g, After(g, EMPTY, tys))
  {
    hide Trailed, Governed, Reaches, Learned;
    if tys != [] {
      assert tys[|tys| - 1] in tys;
      KeptAfter(g, tys[..|tys| - 1]);
      KeptLearned(g, After(g, EMPTY, tys[..|tys| - 1]), tys[|tys| - 1]);
    }
  }

  // ---- the exact condition ---------------------------------------------------------

  /** `tys` lead to every remembered answer being `found`, the one for `ty` among them. */
  ghost predicate Spread(g: Types, tys: seq<Ty>, ty: Ty, found: Option<Ty>)
    requires Closed(g)
  {
    && InGraph(g, tys) && ty in After(g, EMPTY, tys)
    && forall t :: t in After(g, EMPTY, tys) ==> After(g, EMPTY, tys)[t] == found
  }

  /** Asked about from its end backwards, a trail answers the same all along. */
  lemma {:induction false} TrailAsked(g: Types, path: seq<Ty>) returns (before: seq<Ty>)
    requires Closed(g) && Trail(g, path) && path[|path| - 1] in g.supers && First(g, path[|path| - 1]).Some?
    ensures
      var found := First(g, path[|path| - 1]);
      && InGraph(g, before) && Answer(g, After(g, EMPTY, before), path[0]) == found
      && Spread(g, before + [path[0]], path[0], found)
  {
    hide Search, Passed, After, First, InGraph, Answer, Spread;
    var ty, found := path[0], First(g, path[|path| - 1]);
    if |path| == 1 {
      before := [];
      SpreadFirst(g, ty);
    } else {
      var rest := TrailAsked(g, path[1..]);
      before := rest + [path[1]];
      SpreadMore(g, before, ty, path[1], found);
    }
  }

  lemma SpreadFirst(g: Types, ty: Ty)
    requires Closed(g) && ty in g.supers && First(g, ty).Some?
    ensures InGraph(g, []) && Answer(g, After(g, EMPTY, []), ty) == First(g, ty)
    ensures Spread(g, [] + [ty], ty, First(g, ty))
  {
    hide Search;
    assert [] + [ty] == [ty] && [ty][..0] == [];
    assert After(g, EMPTY, [ty]) == Learned(g, EMPTY, ty);
  }

  lemma SpreadMore(g: Types, before: seq<Ty>, ty: Ty, next: Ty, found: Option<Ty>)
    requires Closed(g) && ty in g.supers && next in Passed(g, [ty], {}) && found.Some?
    requires Spread(g, before, next, found)
    ensures InGraph(g, before) && Answer(g, After(g, EMPTY, before), ty) == found
    ensures Spread(g, before + [ty], ty, found)
  {
    hide Search, Passed, Trailed, Visited, Traced;
    var memo, more := After(g, EMPTY, before), before + [ty];
    KeptAfter(g, before);
    if ty !in memo {
      assert InGraph(g, [ty]);
      SearchTrailed(g, memo, ty);
      assert next in Met(memo, Passed(g, [ty], {}));
    }
    assert more[..|more| - 1] == before && more[|more| - 1] == ty;
    assert InGraph(g, more);
    assert After(g, EMPTY, more) == Learned(g, memo, ty);
  }

  /**
    Every answer of every sequence of queries is a nearest pattern exactly on the graphs where
    what a first search finds at the end of a trail is nearest from the trail's start.
   */
  lemma AlwaysNearestIff(g: Types)
    requires Closed(g)
    ensures AlwaysNearest(g) <==> Steady(g)
  {
    hide Search, Passed, Nearest, After, InGraph, Answer, Trail, First, Traced;
    if Steady(g) {
      forall tys, ty | InGraph(g, tys) && ty in g.supers && Answer(g, After(g, EMPTY, tys), ty).Some?
        ensures Nearest(g, ty, Answer(g, After(g, EMPTY, tys), ty).value)
      {
        KeptAfter(g, tys);
        AnswerTrailed(g, After(g, EMPTY, tys), ty);
      }
    }
    if AlwaysNearest(g) {
      forall t, found: Option<Ty> | Trailed(g, t, found) && found.Some? ensures Nearest(g, t, found.value) {
        TrailedNearest(g, t, found);
      }
    }
  }

  lemma TrailedNearest(g: Types, t: Ty, found: Option<Ty>)
    requires Closed(g) && AlwaysNearest(g) && Trailed(g, t, found) && found.Some?
    ensures Nearest(g, t, found.value)
  {
    hide Search, Passed, Nearest, After, InGraph, Answer, Spread, First;
    var path :| Trail(g, path) && path[0] == t && path[|path| - 1] in g.supers && First(g, path[|path| - 1]) == found;
    var before := TrailAsked(g, path);
  }

  // ---- graphs without a second supertype -------------------------------------------

  /** Every type has at most one explicit supertype. */
  ghost predicate Single(g: Types) {
    forall t :: t in g.supers ==> |g.supers[t]| <= 1
  }

  /** Where a search down one line finds something, so does one that has seen less of it. */
  lemma {:induction false} LineLess(g: Types, queue: seq<Ty>, seen: set<Ty>, less: set<Ty>)
    requires Closed(g) && Single(g) && InGraph(g, queue) && |queue| <= 1 && less <= seen
    requires Search(g, EMPTY, queue, seen).Some?
    ensures Search(g, EMPTY, queue, less) == Search(g, EMPTY, queue, seen)
    decreases |g.supers.Keys - seen|
  {
    hide Search, Closed;
    SearchStep(g, EMPTY, queue, seen);
    SearchStep(g, EMPTY, queue, less);
    var t := queue[0];
    if t in seen {
      SearchStep(g, EMPTY, queue[1..], seen);
    } else if t !in g.own {
      assert queue[1..] + g.supers[t] == g.supers[t];
      LineLess(g, g.supers[t], seen + {t}, less + {t});
    }
  }

  /** What is gone past on one line leads to what the line leads to. */
  lemma {:induction false} LinePassed(g: Types, queue: seq<Ty>, seen: set<Ty>, u: Ty)
    requires Closed(g) && Single(g) && InGraph(g, queue) && |queue| <= 1 && u in Passed(g, queue, seen)
    requires Search(g, EMPTY, queue, seen).Some?
    ensures u in g.supers && First(g, u) == Search(g, EMPTY, queue, seen)
    decreases |g.supers.Keys - seen|
  {
    hide Search, Passed, Closed;
    SearchStep(g, EMPTY, queue, seen);
    PassedStep(g, queue, seen);
    var t := queue[0];
    assert queue == [t] && queue[1..] == [];
    if t in seen {
      SearchStep(g, EMPTY, [], seen);
    } else if u == t {
      LineLess(g, queue, seen, {});
    } else {
      assert [] + g.supers[t] == g.supers[t];
      LinePassed(g, g.supers[t], seen + {t}, u);
    }
  }

  /** Where nothing governs a type, nothing governs what its search goes past. */
  lemma {:induction false} PassedReached(g: Types, ty: Ty, queue: seq<Ty>, seen: set<Ty>)
    requires Closed(g) && InGraph(g, queue) && AllReached(g, ty, queue)
    ensures forall u :: u in Passed(g, queue, seen) ==> Reaches(g, ty, u)
    decreases |g.supers.Keys - seen|, |queue|
  {
    hide Passed, Reaches, AllReached, Closed;
    PassedStep(g, queue, seen);
    if queue != [] {
      var t, rest := queue[0], queue[1..];
      ReachedNext(g, ty, queue);
      if t in seen {
        PassedReached(g, ty, rest, seen);
      } else if t !in g.own {
        PassedReached(g, ty, rest + g.supers[t], seen + {t});
      }
    }
  }

  lemma FirstIff(g: Types, t: Ty)
    requires Closed(g) && t in g.supers
    ensures First(g, t).Some? <==> Governed(g, t)
    ensures First(g, t).Some? ==> Nearest(g, t, First(g, t).value)
  {
    hide Search, Nearest, Reaches, NearestStop, Rivalled, Visited;
    assert InGraph(g, [t]);
    if First(g, t).Some? {
      SearchAnswered(g, EMPTY, t);
      FreshIsNearest(g, t, First(g, t));
    } else {
      NoneVisited(g, EMPTY, t);
    }
  }

  lemma {:induction false} LineTrail(g: Types, path: seq<Ty>)
    requires Closed(g) && Single(g) && Trail(g, path) && path[|path| - 1] in g.supers
    requires First(g, path[|path| - 1]).Some?
    ensures First(g, path[0]) == First(g, path[|path| - 1])
  {
    hide Passed, First, Single, Governed, Reaches;
    if |path| > 1 {
      LineTrail(g, path[1..]);
      LineStep(g, path[0], path[1]);
    }
  }

  lemma LineStep(g: Types, t: Ty, u: Ty)
    requires Closed(g) && Single(g) && t in g.supers && u in g.supers && u in Passed(g, [t], {})
    requires First(g, u).Some?
    ensures First(g, t) == First(g, u)
  {
    hide Search, Passed, Single, Reaches, Nearest;
    ReachesSelf(g, t);
    PassedReached(g, t, [t], {});
    FirstIff(g, u);
    GovernedUp(g, t, u);
    FirstIff(g, t);
    LinePassed(g, [t], {}, u);
  }

  /** With at most one explicit supertype each, no earlier query makes an answer any further away. */
  lemma SingleIsSteady(g: Types)
    requires Closed(g) && Single(g)
    ensures Steady(g) && AlwaysNearest(g)
  {
    hide Single, First, Nearest, Trailed, AlwaysNearest, Search, Governed;
    forall t, found: Option<Ty> | Trailed(g, t, found) && found.Some? ensures Nearest(g, t, found.value) {
      LineNearest(g, t, found);
    }
    AlwaysNearestIff(g);
  }

  lemma LineNearest(g: Types, t: Ty, found: Option<Ty>)
    requires Closed(g) && Single(g) && Trailed(g, t, found) && found.Some?
    ensures Nearest(g, t, found.value)
  {
    hide Single, First, Nearest, Search, Passed, Governed;
    var path :| Trail(g, path) && path[0] == t && path[|path| - 1] in g.supers && First(g, path[|path| - 1]) == found;
    LineTrail(g, path);
    FirstIff(g, t);
  }

  /** The diamond is not steady: asked about 1 and then 3, it answers what is not nearest. */
  lemma DiamondUnsteady()
    ensures Closed(DIAMOND) && !AlwaysNearest(DIAMOND) && !Steady(DIAMOND)
  {
    hide Search, Nearest, Steady, Answer, Learned, SoundMemo;
    MemoNotNearest();
    NotAlways(DIAMOND, [1], ASKED, 3, 0);
    AlwaysNearestIff(DIAMOND);
  }

  lemma NotAlways(g: Types, tys: seq<Ty>, memo: Memo, ty: Ty, v: Ty)
    requires Closed(g) && InGraph(g, tys) && |tys| == 1 && ty in g.supers && memo == Learned(g, EMPTY, tys[0])
    requires Answer(g, memo, ty) == Some(v) && !Nearest(g, ty, v)
    ensures !AlwaysNearest(g)
  {
    hide Search, Nearest, Answer, Learned;
    assert tys[..0] == [] && After(g, EMPTY, tys) == memo;
  }
}
