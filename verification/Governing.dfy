/**
  Which literal pattern governs a type: its own, or one up its explicit supertypes, by a
  breadth-first search that remembers what it learnt of every type it passed through.
 */
module Governing {
  import opened Wrappers
  import opened Seqs

  type Ty = nat

  /** The supertype graph, and the types that carry a compiled pattern of their own. */
  datatype Types = Types(supers: map<Ty, seq<Ty>>, own: set<Ty>)

  ghost predicate Closed(g: Types) {
    forall t, u :: t in g.supers && u in g.supers[t] ==> u in g.supers
  }

  /** A chain of explicit supertypes. */
  ghost predicate Chain(g: Types, path: seq<Ty>) {
    && path != []
    && (forall i :: 0 <= i < |path| ==> path[i] in g.supers)
    && forall i :: 0 < i < |path| ==> path[i] in g.supers[path[i - 1]]
  }

  /** `u` is `t` or one of its supertypes. */
  ghost predicate Reaches(g: Types, t: Ty, u: Ty) {
    exists path :: Chain(g, path) && path[0] == t && path[|path| - 1] == u
  }

  /** Some type at or above `t` carries a pattern. */
  ghost predicate Governed(g: Types, t: Ty) {
    exists u :: u in g.own && Reaches(g, t, u)
  }

  lemma ReachesSelf(g: Types, t: Ty)
    requires t in g.supers
    ensures Reaches(g, t, t)
  {
    assert Chain(g, [t]) && [t][0] == t;
  }

  lemma ReachesOn(g: Types, t: Ty, u: Ty, v: Ty)
    requires Reaches(g, t, u) && Reaches(g, u, v)
    ensures Reaches(g, t, v)
  {
    var a :| Chain(g, a) && a[0] == t && a[|a| - 1] == u;
    var b :| Chain(g, b) && b[0] == u && b[|b| - 1] == v;
    var path := a + b[1..];
    forall i | 0 < i < |path| ensures path[i] in g.supers[path[i - 1]] {
      if i >= |a| {
        assert path[i] == b[i - |a| + 1];
        assert path[i - 1] == b[i - |a|];
      }
    }
    assert Chain(g, path) && path[0] == t && path[|path| - 1] == v;
  }

  lemma ReachesUp(g: Types, t: Ty, u: Ty, v: Ty)
    requires Closed(g) && Reaches(g, t, u) && u in g.supers && v in g.supers[u]
    ensures Reaches(g, t, v)
  {
    assert Chain(g, [u, v]) && [u, v][0] == u && [u, v][1] == v;
    ReachesOn(g, t, u, v);
  }

  // ---- the memo --------------------------------------------------------------------

  /**
    What is remembered is true: a type's answer carries a pattern and is above it; an absence
    is of the whole closure.
   */
  ghost predicate SoundMemo(g: Types, memo: map<Ty, Option<Ty>>) {
    && (forall t :: t in memo ==> t in g.supers)
    && (forall t :: t in memo && memo[t].Some? ==> memo[t].value in g.own && Reaches(g, t, memo[t].value))
    && (forall t :: t in memo && memo[t].None? ==> !Governed(g, t))
  }

  /** Every type searched so far is remembered as ungoverned, or carries nothing and passed on its supertypes. */
  ghost predicate Searched(g: Types, memo: map<Ty, Option<Ty>>, seen: set<Ty>, queue: seq<Ty>) {
    forall t :: t in seen ==>
      && t in g.supers
      && ((t in memo && memo[t].None?)
          || (t !in g.own && forall u :: u in g.supers[t] ==> u in seen || u in queue))
  }

  /** Once nothing is left to search, no chain from a searched type reaches a pattern. */
  lemma {:induction false} NoneAlong(g: Types, memo: map<Ty, Option<Ty>>, seen: set<Ty>, path: seq<Ty>)
    requires SoundMemo(g, memo) && Searched(g, memo, seen, []) && Chain(g, path) && path[0] in seen
    ensures path[|path| - 1] !in g.own
    decreases |path|
  {
    var t := path[0];
    if t in memo && memo[t].None? {
      assert Reaches(g, t, path[|path| - 1]);
    } else if |path| > 1 {
      var rest := path[1..];
      assert forall i :: 0 < i < |rest| ==> rest[i] == path[i + 1] && rest[i - 1] == path[i];
      assert Chain(g, rest);
      NoneAlong(g, memo, seen, rest);
    }
  }

  lemma NoneGoverns(g: Types, memo: map<Ty, Option<Ty>>, seen: set<Ty>)
    requires SoundMemo(g, memo) && Searched(g, memo, seen, [])
    ensures forall t :: t in seen ==> !Governed(g, t)
  {
    forall t, u | t in seen && u in g.own && Reaches(g, t, u) ensures false {
      var path :| Chain(g, path) && path[0] == t && path[|path| - 1] == u;
      NoneAlong(g, memo, seen, path);
    }
  }

  // ---- how near an answer is -------------------------------------------------------

  /** `u` is at most `n` supertype steps above `t`. */
  ghost predicate StepsTo(g: Types, t: Ty, u: Ty, n: nat) {
    exists path :: Chain(g, path) && path[0] == t && path[|path| - 1] == u && |path| <= n + 1
  }

  /** `v` carries a pattern, and no other type with one is nearer. */
  ghost predicate Nearest(g: Types, ty: Ty, v: Ty) {
    v in g.own && Reaches(g, ty, v) && forall u, n: nat :: u in g.own && StepsTo(g, ty, u, n) ==> StepsTo(g, ty, v, n)
  }

  /** A type the search stops at: a remembered answer, or a pattern of its own. */
  predicate Stops(g: Types, memo: map<Ty, Option<Ty>>, t: Ty) {
    if t in memo then memo[t].Some? else t in g.own
  }

  function AnswerAt(memo: map<Ty, Option<Ty>>, t: Ty): Option<Ty> {
    if t in memo then memo[t] else Some(t)
  }

  /** No type the search would stop at is nearer. */
  ghost predicate NearestStop(g: Types, memo: map<Ty, Option<Ty>>, ty: Ty, t: Ty) {
    && Stops(g, memo, t) && Reaches(g, ty, t)
    && forall u, n: nat :: Stops(g, memo, u) && StepsTo(g, ty, u, n) ==> StepsTo(g, ty, t, n)
  }

  /** `t` is exactly `n` steps up. */
  ghost predicate AtDepth(g: Types, ty: Ty, t: Ty, n: nat) {
    StepsTo(g, ty, t, n) && (n > 0 ==> !StepsTo(g, ty, t, n - 1))
  }

  /**
    A pattern lies nearer than the answer `v` remembered at the stop `t`: in one of the layers
    from the stop's own up to where going on from `t` leads to `v`.
   */
  ghost predicate Rivalled(g: Types, ty: Ty, t: Ty, v: Ty) {
    exists a: nat, b: nat, u, n: nat ::
      && AtDepth(g, ty, t, a) && StepsTo(g, t, v, b) && a <= n < a + b
      && u in g.own && StepsTo(g, ty, u, n) && !StepsTo(g, ty, v, n)
  }

  lemma StepsMore(g: Types, t: Ty, u: Ty, n: nat, m: nat)
    requires StepsTo(g, t, u, n) && n <= m
    ensures StepsTo(g, t, u, m)
  {
  }

  lemma StepsReach(g: Types, t: Ty, u: Ty)
    ensures forall n: nat :: StepsTo(g, t, u, n) ==> Reaches(g, t, u)
    ensures Reaches(g, t, u) ==> exists n: nat :: StepsTo(g, t, u, n)
  {
    if Reaches(g, t, u) {
      var path :| Chain(g, path) && path[0] == t && path[|path| - 1] == u;
      assert StepsTo(g, t, u, |path|);
    }
  }

  lemma StepsJoin(g: Types, t: Ty, u: Ty, v: Ty, n: nat, m: nat)
    requires StepsTo(g, t, u, n) && StepsTo(g, u, v, m)
    ensures StepsTo(g, t, v, n + m)
  {
    var a :| Chain(g, a) && a[0] == t && a[|a| - 1] == u && |a| <= n + 1;
    var b :| Chain(g, b) && b[0] == u && b[|b| - 1] == v && |b| <= m + 1;
    var path := a + b[1..];
    forall i | 0 < i < |path| ensures path[i] in g.supers[path[i - 1]] {
      if i >= |a| {
        assert path[i] == b[i - |a| + 1];
        assert path[i - 1] == b[i - |a|];
      }
    }
    assert Chain(g, path) && path[0] == t && path[|path| - 1] == v;
  }

  lemma StepUp(g: Types, ty: Ty, t: Ty, u: Ty, k: nat)
    requires Closed(g) && StepsTo(g, ty, t, k) && t in g.supers && u in g.supers[t]
    ensures StepsTo(g, ty, u, k + 1)
  {
    assert Chain(g, [t, u]) && [t, u][0] == t && [t, u][1] == u;
    assert StepsTo(g, t, u, 1);
    StepsJoin(g, ty, t, u, k, 1);
  }

  /** The last step of a chain, if it has one. */
  lemma LastStep(g: Types, ty: Ty, u: Ty, k: nat) returns (w: Ty)
    requires StepsTo(g, ty, u, k + 1) && !StepsTo(g, ty, u, k)
    ensures StepsTo(g, ty, w, k) && w in g.supers && u in g.supers[w] && Reaches(g, w, u)
  {
    var path :| Chain(g, path) && path[0] == ty && path[|path| - 1] == u && |path| <= k + 2;
    assert |path| == k + 2;
    w := path[k];
    var front := path[..k + 1];
    assert Chain(g, front) && front[0] == ty && front[|front| - 1] == w;
    assert Chain(g, [w, u]) && [w, u][0] == w && [w, u][1] == u;
  }

  lemma DepthOf(g: Types, ty: Ty, t: Ty, n: nat) returns (d: nat)
    requires StepsTo(g, ty, t, n)
    ensures AtDepth(g, ty, t, d)
  {
    d := n;
    while d > 0 && StepsTo(g, ty, t, d - 1)
      invariant StepsTo(g, ty, t, d)
    {
      d := d - 1;
    }
  }

  lemma GovernedUp(g: Types, w: Ty, u: Ty)
    requires Reaches(g, w, u) && Governed(g, u)
    ensures Governed(g, w)
  {
    var v :| v in g.own && Reaches(g, u, v);
    ReachesOn(g, w, u, v);
  }

  lemma StopGoverned(g: Types, memo: map<Ty, Option<Ty>>, t: Ty)
    requires SoundMemo(g, memo) && Stops(g, memo, t) && t in g.supers
    ensures Governed(g, t) && AnswerAt(memo, t).Some?
    ensures AnswerAt(memo, t).value in g.own && Reaches(g, t, AnswerAt(memo, t).value)
  {
    ReachesSelf(g, t);
  }

  lemma OwnStops(g: Types, memo: map<Ty, Option<Ty>>, u: Ty)
    requires SoundMemo(g, memo) && u in g.own && u in g.supers
    ensures Stops(g, memo, u)
  {
    ReachesSelf(g, u);
  }

  lemma StepsIn(g: Types, t: Ty, u: Ty, n: nat)
    requires StepsTo(g, t, u, n)
    ensures t in g.supers && u in g.supers
  {
  }

  /**
    Which answers are nearest. With `t` the stop and `v` its answer: exactly those with no
    rival in the layers between. Nothing nearer than the stop has to be looked at.
   */
  lemma NearestIff(g: Types, memo: map<Ty, Option<Ty>>, ty: Ty, t: Ty)
    requires SoundMemo(g, memo) && NearestStop(g, memo, ty, t) && t in g.supers
    ensures AnswerAt(memo, t).Some?
    ensures
      var v := AnswerAt(memo, t).value;
      && v in g.own && Reaches(g, ty, v)
      && (Nearest(g, ty, v) <==> !Rivalled(g, ty, t, v))
      && (v == t ==> Nearest(g, ty, v))
  {
    hide Reaches, StepsTo, SoundMemo, Governed;
    StopGoverned(g, memo, t);
    var v := AnswerAt(memo, t).value;
    ReachesOn(g, ty, t, v);
    if !Rivalled(g, ty, t, v) || v == t {
      forall u, n: nat | u in g.own && StepsTo(g, ty, u, n) ensures StepsTo(g, ty, v, n) {
        OwnBeyondStop(g, memo, ty, t, u, n);
        if v != t {
          AnswerWithin(g, ty, t, v, u, n);
        }
      }
    }
  }

  /** Every pattern is at or beyond the stop. */
  lemma OwnBeyondStop(g: Types, memo: map<Ty, Option<Ty>>, ty: Ty, t: Ty, u: Ty, n: nat)
    requires SoundMemo(g, memo) && NearestStop(g, memo, ty, t) && u in g.own && StepsTo(g, ty, u, n)
    ensures StepsTo(g, ty, t, n)
  {
    hide Reaches, SoundMemo;
    StepsIn(g, ty, u, n);
    OwnStops(g, memo, u);
  }

  lemma AnswerWithin(g: Types, ty: Ty, t: Ty, v: Ty, u: Ty, n: nat)
    requires !Rivalled(g, ty, t, v) && StepsTo(g, ty, t, n) && Reaches(g, t, v)
    requires u in g.own && StepsTo(g, ty, u, n)
    ensures StepsTo(g, ty, v, n)
  {
    hide Reaches, StepsTo;
    StepsReach(g, t, v);
    var b: nat :| StepsTo(g, t, v, b);
    var a := DepthOf(g, ty, t, n);
    if n < a {
      StepsMore(g, ty, t, n, a - 1);
    } else if a + b <= n {
      StepsJoin(g, ty, t, v, a, b);
      StepsMore(g, ty, v, a + b, n);
    }
  }

  // ---- the search as a function ----------------------------------------------------

  ghost predicate InGraph(g: Types, queue: seq<Ty>) {
    forall t :: t in queue ==> t in g.supers
  }

  /** The first remembered answer, else the first type with a pattern, breadth first. */
  function Search(g: Types, memo: map<Ty, Option<Ty>>, queue: seq<Ty>, seen: set<Ty>): Option<Ty>
    requires Closed(g) && InGraph(g, queue)
    decreases |g.supers.Keys - seen|, |queue|
  {
    if queue == [] then None
    else
      var t, rest := queue[0], queue[1..];
      assert t in queue;
      if t in seen then Search(g, memo, rest, seen)
      else
        Shrinks(g.supers.Keys, seen, t);
        if t in memo then (if memo[t].Some? then memo[t] else Search(g, memo, rest, seen + {t}))
        else if t in g.own then Some(t)
        else Search(g, memo, rest + g.supers[t], seen + {t})
  }

  /** One turn of the search. */
  lemma SearchStep(g: Types, memo: map<Ty, Option<Ty>>, queue: seq<Ty>, seen: set<Ty>)
    requires Closed(g) && InGraph(g, queue)
    ensures queue == [] ==> Search(g, memo, queue, seen) == None
    ensures
      queue != [] ==>
        var t, rest := queue[0], queue[1..];
        && t in g.supers && InGraph(g, rest) && InGraph(g, rest + g.supers[t])
        && Search(g, memo, queue, seen)
           == if t in seen then Search(g, memo, rest, seen)
              else if t in memo then (if memo[t].Some? then memo[t] else Search(g, memo, rest, seen + {t}))
              else if t in g.own then Some(t)
              else Search(g, memo, rest + g.supers[t], seen + {t})
    ensures queue != [] && queue[0] !in seen ==> |g.supers.Keys - (seen + {queue[0]})| < |g.supers.Keys - seen|
  {
    if queue != [] {
      assert queue[0] in queue;
      if queue[0] !in seen {
        Shrinks(g.supers.Keys, seen, queue[0]);
      }
    }
  }

  /** The types a search that finds nothing passes through. */
  function Visited(g: Types, memo: map<Ty, Option<Ty>>, queue: seq<Ty>, seen: set<Ty>): set<Ty>
    requires Closed(g) && InGraph(g, queue)
    decreases |g.supers.Keys - seen|, |queue|
  {
    if queue == [] then {}
    else
      var t, rest := queue[0], queue[1..];
      assert t in queue;
      if t in seen then Visited(g, memo, rest, seen)
      else
        Shrinks(g.supers.Keys, seen, t);
        if t in memo then Visited(g, memo, rest, seen + {t})
        else {t} + Visited(g, memo, rest + g.supers[t], seen + {t})
  }

  // ---- queries one after the other -------------------------------------------------

  /** What asking about `ty` answers. */
  function Answer(g: Types, memo: map<Ty, Option<Ty>>, ty: Ty): Option<Ty>
    requires Closed(g) && ty in g.supers
  {
    if ty in memo then memo[ty] else Search(g, memo, [ty], {})
  }

  /** What is remembered after asking about `ty`. */
  function Learned(g: Types, memo: map<Ty, Option<Ty>>, ty: Ty): map<Ty, Option<Ty>>
    requires Closed(g) && ty in g.supers
  {
    if ty in memo then memo
    else
      var found := Search(g, memo, [ty], {});
      if found.Some? then memo[ty := found]
      else (memo + map t | t in Visited(g, memo, [ty], {}) :: None)[ty := None]
  }

  /** What is remembered after asking about each of `tys` in turn. */
  function After(g: Types, memo: map<Ty, Option<Ty>>, tys: seq<Ty>): map<Ty, Option<Ty>>
    requires Closed(g) && InGraph(g, tys)
  {
    if tys == [] then memo
    else
      assert tys[|tys| - 1] in tys;
      Learned(g, After(g, memo, tys[..|tys| - 1]), tys[|tys| - 1])
  }

  lemma AfterNone(g: Types, memo: map<Ty, Option<Ty>>, tys: seq<Ty>)
    requires Closed(g)
    ensures InGraph(g, tys[..0]) && After(g, memo, tys[..0]) == memo
  {
  }

  lemma AfterOne(g: Types, memo: map<Ty, Option<Ty>>, tys: seq<Ty>, k: nat)
    requires Closed(g) && InGraph(g, tys) && k < |tys|
    ensures InGraph(g, tys[..k]) && InGraph(g, tys[..k + 1]) && tys[k] in g.supers
    ensures After(g, memo, tys[..k + 1]) == Learned(g, After(g, memo, tys[..k]), tys[k])
  {
    assert tys[..k + 1][..k] == tys[..k] && tys[..k + 1][k] == tys[k];
  }

  /** The search so far passed through `visited`, and goes on through the rest of `reached`. */
  ghost predicate Passing(
      g: Types, memo: map<Ty, Option<Ty>>, visited: seq<Ty>, queue: seq<Ty>, seen: set<Ty>, reached: set<Ty>)
    requires Closed(g) && InGraph(g, queue)
  {
    && (forall t :: t in visited ==> t in seen && t !in memo)
    && (set t | t in visited) + Visited(g, memo, queue, seen) == reached
  }

  lemma PassingStarts(g: Types, memo: map<Ty, Option<Ty>>, ty: Ty) returns (reached: set<Ty>)
    requires Closed(g) && InGraph(g, [ty])
    ensures reached == Visited(g, memo, [ty], {}) && Passing(g, memo, [], [ty], {}, reached)
  {
    reached := Visited(g, memo, [ty], {});
  }

  lemma PassingStep(
      g: Types, memo: map<Ty, Option<Ty>>, visited: seq<Ty>, queue: seq<Ty>, seen: set<Ty>, reached: set<Ty>)
    requires Closed(g) && InGraph(g, queue) && queue != [] && Passing(g, memo, visited, queue, seen, reached)
    ensures
      var t, rest := queue[0], queue[1..];
      && t in g.supers && InGraph(g, rest) && InGraph(g, rest + g.supers[t])
      && (t in seen ==> Passing(g, memo, visited, rest, seen, reached))
      && (t !in seen && t in memo ==> Passing(g, memo, visited, rest, seen + {t}, reached))
      && (t !in seen && t !in memo ==> Passing(g, memo, visited + [t], rest + g.supers[t], seen + {t}, reached))
  {
    var t := queue[0];
    assert t in queue;
    assert (set u | u in visited + [t]) == (set u | u in visited) + {t};
  }

  lemma PassingEnds(g: Types, memo: map<Ty, Option<Ty>>, visited: seq<Ty>, seen: set<Ty>, ty: Ty)
    requires Closed(g) && ty in g.supers && InGraph(g, [ty]) && ty !in memo && Search(g, memo, [ty], {}).None?
    requires Passing(g, memo, visited, [], seen, Visited(g, memo, [ty], {}))
    ensures forall t :: t in visited ==> t in seen && t !in memo
    ensures forall t :: t in visited <==> t in Visited(g, memo, [ty], {})
  {
    hide Search;
    assert Visited(g, memo, [], seen) == {};
    forall t ensures t in visited <==> t in Visited(g, memo, [ty], {}) {
      assert t in (set u | u in visited) + {} <==> t in visited;
    }
  }

  lemma LearnedNone(g: Types, memo: map<Ty, Option<Ty>>, ty: Ty, after: map<Ty, Option<Ty>>)
    requires Closed(g) && ty in g.supers && InGraph(g, [ty]) && ty !in memo && Search(g, memo, [ty], {}).None?
    requires forall t :: t in Visited(g, memo, [ty], {}) ==> t !in memo
    requires forall t :: t in after <==> t in memo || t in Visited(g, memo, [ty], {})
    requires forall t :: t in after ==> after[t] == if t in memo then memo[t] else None
    ensures Answer(g, memo, ty) == None && Learned(g, memo, ty) == after[ty := None]
  {
    hide Search, Visited;
    var more := memo + map t | t in Visited(g, memo, [ty], {}) :: None;
    assert more[ty := None] == after[ty := None];
  }

  lemma Remembered(g: Types, memo: map<Ty, Option<Ty>>, ty: Ty)
    requires Closed(g) && ty in g.supers && ty in memo
    ensures Answer(g, memo, ty) == memo[ty] && Learned(g, memo, ty) == memo
  {
  }

  lemma LearnedSome(g: Types, memo: map<Ty, Option<Ty>>, ty: Ty)
    requires Closed(g) && ty in g.supers && InGraph(g, [ty]) && ty !in memo && Search(g, memo, [ty], {}).Some?
    ensures
      var found := Search(g, memo, [ty], {});
      Answer(g, memo, ty) == found && Learned(g, memo, ty) == memo[ty := found]
  {
    hide Search;
  }

  ghost predicate AllReached(g: Types, ty: Ty, queue: seq<Ty>) {
    forall u :: u in queue ==> Reaches(g, ty, u)
  }

  lemma ReachedNext(g: Types, ty: Ty, queue: seq<Ty>)
    requires Closed(g) && AllReached(g, ty, queue) && queue != [] && queue[0] in g.supers
    ensures AllReached(g, ty, queue[1..]) && AllReached(g, ty, queue[1..] + g.supers[queue[0]])
    ensures Reaches(g, ty, queue[0])
  {
    hide Reaches;
    forall u | u in g.supers[queue[0]] ensures Reaches(g, ty, u) {
      ReachesUp(g, ty, queue[0], u);
    }
  }

  /** What the search finds carries a pattern and is above the type asked about. */
  lemma {:induction false} SearchFinds(g: Types, memo: map<Ty, Option<Ty>>, ty: Ty, queue: seq<Ty>, seen: set<Ty>)
    requires Closed(g) && SoundMemo(g, memo) && InGraph(g, queue) && AllReached(g, ty, queue)
    requires Search(g, memo, queue, seen).Some?
    ensures
      var u := Search(g, memo, queue, seen).value;
      u in g.own && Reaches(g, ty, u)
    decreases |g.supers.Keys - seen|, |queue|
  {
    hide Reaches, Search, AllReached, Closed;
    SearchStep(g, memo, queue, seen);
    var t, rest := queue[0], queue[1..];
    ReachedNext(g, ty, queue);
    if t in seen {
      SearchFinds(g, memo, ty, rest, seen);
    } else if t in memo && memo[t].Some? {
      ReachesOn(g, ty, t, memo[t].value);
    } else if t in memo {
      SearchFinds(g, memo, ty, rest, seen + {t});
    } else if t !in g.own {
      SearchFinds(g, memo, ty, rest + g.supers[t], seen + {t});
    }
  }

  // ---- breadth first ---------------------------------------------------------------

  /**
    The queue is the rest `a` of layer `k` and the part `b` of the next one found so far. Of
    what can lead to a pattern, everything below layer `k` has been searched.
   */
  ghost predicate Layers(
      g: Types, memo: map<Ty, Option<Ty>>, ty: Ty, a: seq<Ty>, b: seq<Ty>, seen: set<Ty>, k: nat)
  {
    && (forall u :: u in a ==> StepsTo(g, ty, u, k))
    && (forall u :: u in b ==> StepsTo(g, ty, u, k + 1))
    && (forall u :: u in seen ==> !Stops(g, memo, u))
    && (forall u :: Governed(g, u) && StepsTo(g, ty, u, k) ==> u in seen || u in a)
    && (forall u :: k > 0 && Governed(g, u) && StepsTo(g, ty, u, k - 1) ==> u in seen)
    && (forall w, u :: w in seen && Governed(g, w) && w in g.supers && u in g.supers[w] ==>
          u in seen || u in a || u in b)
  }

  lemma LayersStart(g: Types, memo: map<Ty, Option<Ty>>, ty: Ty)
    requires ty in g.supers
    ensures Layers(g, memo, ty, [ty], [], {}, 0)
  {
    hide Governed;
    assert Chain(g, [ty]) && [ty][0] == ty;
  }

  /** A type already searched, or remembered as ungoverned, is passed over. */
  lemma LayersPass(g: Types, memo: map<Ty, Option<Ty>>, ty: Ty, a: seq<Ty>, b: seq<Ty>, seen: set<Ty>, k: nat)
    requires Layers(g, memo, ty, a, b, seen, k) && a != [] && SoundMemo(g, memo)
    ensures a[0] in seen ==> Layers(g, memo, ty, a[1..], b, seen, k)
    ensures a[0] in memo && memo[a[0]].None? ==> Layers(g, memo, ty, a[1..], b, seen + {a[0]}, k)
  {
    hide Governed, StepsTo, Reaches;
    assert forall u :: u in a ==> u == a[0] || u in a[1..];
  }

  lemma LayersOpen(g: Types, memo: map<Ty, Option<Ty>>, ty: Ty, a: seq<Ty>, b: seq<Ty>, seen: set<Ty>, k: nat)
    requires Closed(g) && Layers(g, memo, ty, a, b, seen, k) && a != [] && a[0] in g.supers && !Stops(g, memo, a[0])
    ensures Layers(g, memo, ty, a[1..], b + g.supers[a[0]], seen + {a[0]}, k)
  {
    hide Governed, StepsTo, Stops;
    assert forall u :: u in a ==> u == a[0] || u in a[1..];
    forall u | u in g.supers[a[0]] ensures StepsTo(g, ty, u, k + 1) {
      StepUp(g, ty, a[0], u, k);
    }
  }

  lemma LayersNext(g: Types, memo: map<Ty, Option<Ty>>, ty: Ty, b: seq<Ty>, seen: set<Ty>, k: nat)
    requires Layers(g, memo, ty, [], b, seen, k)
    ensures Layers(g, memo, ty, b, [], seen, k + 1)
  {
    hide Governed, StepsTo, Stops, Reaches;
    forall u | Governed(g, u) && StepsTo(g, ty, u, k + 1) ensures u in seen || u in b {
      if !StepsTo(g, ty, u, k) {
        var w := LastStep(g, ty, u, k);
        GovernedUp(g, w, u);
      }
    }
  }

  lemma StopIsNearest(
      g: Types, memo: map<Ty, Option<Ty>>, ty: Ty, a: seq<Ty>, b: seq<Ty>, seen: set<Ty>, k: nat)
    requires SoundMemo(g, memo) && Layers(g, memo, ty, a, b, seen, k) && a != [] && Stops(g, memo, a[0])
    ensures NearestStop(g, memo, ty, a[0])
  {
    hide Governed, StepsTo, SoundMemo, Stops, Reaches;
    var t := a[0];
    assert t in a && StepsTo(g, ty, t, k);
    StepsReach(g, ty, t);
    forall u, n: nat | Stops(g, memo, u) && StepsTo(g, ty, u, n) ensures StepsTo(g, ty, t, n) {
      StepsIn(g, ty, u, n);
      StopGoverned(g, memo, u);
      if n < k {
        StepsMore(g, ty, u, n, k - 1);
      } else {
        StepsMore(g, ty, t, k, n);
      }
    }
  }

  /** The search stops at a nearest type it can stop at, and gives that type's answer. */
  lemma {:induction false} SearchStops(
      g: Types, memo: map<Ty, Option<Ty>>, ty: Ty, a: seq<Ty>, b: seq<Ty>, seen: set<Ty>, k: nat) returns (t: Ty)
    requires Closed(g) && SoundMemo(g, memo) && InGraph(g, a + b) && Layers(g, memo, ty, a, b, seen, k)
    requires Search(g, memo, a + b, seen).Some?
    ensures t in g.supers && NearestStop(g, memo, ty, t) && Search(g, memo, a + b, seen) == AnswerAt(memo, t)
    decreases |g.supers.Keys - seen|, |a + b|, if a == [] then 1 else 0
  {
    hide Search, Closed, SoundMemo, Layers, NearestStop;
    SearchStep(g, memo, a + b, seen);
    if a == [] {
      assert a + b == b && b + [] == b;
      LayersNext(g, memo, ty, b, seen, k);
      t := SearchStops(g, memo, ty, b, [], seen, k + 1);
    } else {
      var head, rest := a[0], a[1..];
      assert (a + b)[0] == head && (a + b)[1..] == rest + b;
      LayersPass(g, memo, ty, a, b, seen, k);
      if head in seen {
        t := SearchStops(g, memo, ty, rest, b, seen, k);
      } else if Stops(g, memo, head) {
        StopIsNearest(g, memo, ty, a, b, seen, k);
        t := head;
      } else if head in memo {
        t := SearchStops(g, memo, ty, rest, b, seen + {head}, k);
      } else {
        LayersOpen(g, memo, ty, a, b, seen, k);
        Assoc(rest, b, g.supers[head]);
        t := SearchStops(g, memo, ty, rest, b + g.supers[head], seen + {head}, k);
      }
    }
  }

  /** The answer of one query, given what was remembered before it. */
  ghost predicate Answered(g: Types, memo: map<Ty, Option<Ty>>, ty: Ty, found: Option<Ty>) {
    && (found.Some? <==> Governed(g, ty))
    && (found.Some? ==>
          exists t ::
            && NearestStop(g, memo, ty, t) && found == AnswerAt(memo, t)
            && found.value in g.own && Reaches(g, ty, found.value)
            && (Nearest(g, ty, found.value) <==> !Rivalled(g, ty, t, found.value))
            && (found.value == t ==> Nearest(g, ty, found.value)))
  }

  lemma SearchAnswered(g: Types, memo: map<Ty, Option<Ty>>, ty: Ty)
    requires Closed(g) && SoundMemo(g, memo) && ty in g.supers && InGraph(g, [ty]) && Search(g, memo, [ty], {}).Some?
    ensures Answered(g, memo, ty, Search(g, memo, [ty], {}))
  {
    hide Search, SoundMemo, Nearest, NearestStop, Rivalled, Layers, Reaches;
    LayersStart(g, memo, ty);
    assert [ty] + [] == [ty];
    var t := SearchStops(g, memo, ty, [ty], [], {}, 0);
    NearestIff(g, memo, ty, t);
  }

  lemma MemoAnswered(g: Types, memo: map<Ty, Option<Ty>>, ty: Ty)
    requires SoundMemo(g, memo) && ty in memo
    ensures Answered(g, memo, ty, memo[ty])
  {
    hide Nearest, Rivalled;
    if memo[ty].Some? {
      ReachesSelf(g, ty);
      forall u, n: nat | Stops(g, memo, u) && StepsTo(g, ty, u, n) ensures StepsTo(g, ty, ty, n) {
        assert Chain(g, [ty]) && [ty][0] == ty;
      }
      assert NearestStop(g, memo, ty, ty);
      NearestIff(g, memo, ty, ty);
    }
  }

  /** With nothing remembered the answer is the nearest, as the search is breadth first. */
  lemma FreshIsNearest(g: Types, ty: Ty, found: Option<Ty>)
    requires Answered(g, map[], ty, found) && found.Some?
    ensures Nearest(g, ty, found.value)
  {
    hide Nearest, Rivalled, NearestStop, Reaches, Governed;
  }

  // ---- the search ------------------------------------------------------------------

  class Pass {
    const g: Types
    var memo: map<Ty, Option<Ty>>

    ghost predicate Valid()
      reads this
    {
      Closed(g) && SoundMemo(g, memo)
    }

    constructor (types: Types)
      requires Closed(types)
      ensures Valid() && g == types && memo == map[]
    {
      g := types;
      memo := map[];
    }

    /** The search of a type nothing is remembered of, breadth first, and the types it passed through. */
    method Explore(ty: Ty) returns (found: Option<Ty>, visited: seq<Ty>, ghost seen: set<Ty>)
      requires Valid() && ty in g.supers && ty !in memo
      ensures InGraph(g, [ty]) && found == Search(g, memo, [ty], {})
      ensures
        found.None? ==>
          && ty in seen && Searched(g, memo, seen, [])
          && Passing(g, memo, visited, [], seen, Visited(g, memo, [ty], {}))
    {
      hide Reaches, Governed, Search, SoundMemo, Searched, Closed, InGraph, Visited, Passing;
      var queue := [ty];
      var popped: set<Ty> := {};
      visited, found := [], None;
      ghost var answer := SearchStarts(g, memo, ty);
      ghost var reached := PassingStarts(g, memo, ty);
      while queue != []
        invariant found.None? && InGraph(g, queue)
        invariant answer == Search(g, memo, queue, popped)
        invariant ty in popped || ty in queue
        invariant Passing(g, memo, visited, queue, popped, reached)
        invariant Searched(g, memo, popped, queue)
        decreases |g.supers.Keys - popped|, |queue|
      {
        var t := queue[0];
        var rest := queue[1..];
        SearchStep(g, memo, queue, popped);
        PassingStep(g, memo, visited, queue, popped, reached);
        SearchedPops(g, memo, popped, queue);
        if t in popped {
          queue := rest;
          continue;
        }
        if t in memo {
          if memo[t].Some? {
            return memo[t], visited, popped;
          }
          popped, queue := popped + {t}, rest;
          continue;
        }
        visited := visited + [t];
        if t in g.own {
          return Some(t), visited, popped;
        }
        popped, queue := popped + {t}, rest + g.supers[t];
      }
      SearchStep(g, memo, queue, popped);
      seen := popped;
    }

    /** Each type the search passed through is governed by nothing. */
    method Remember(visited: seq<Ty>, ghost seen: set<Ty>)
      requires Valid() && (forall t :: t in visited ==> t in seen && t !in memo)
      requires forall t :: t in seen ==> t in g.supers && !Governed(g, t)
      modifies this
      ensures Valid()
      ensures forall t :: t in memo <==> t in old(memo) || t in visited
      ensures forall t :: t in memo ==> memo[t] == if t in old(memo) then old(memo)[t] else None
    {
      for k := 0 to |visited|
        invariant Valid()
        invariant forall t :: t in memo <==> t in old(memo) || t in visited[..k]
        invariant forall t :: t in memo ==> memo[t] == if t in old(memo) then old(memo)[t] else None
      {
        assert visited[..k + 1] == visited[..k] + [visited[k]];
        memo := memo[visited[k] := None];
      }
      assert visited[..|visited|] == visited;
    }

    /**
      The governing type of `ty`. It is found exactly when some type at or above `ty`
      carries a pattern, and it is such a type: the answer of a nearest type the search can
      stop at. It is the nearest pattern exactly when no rival lies between that stop and
      the answer remembered there. Every search ends, and keeps the memo true.
     */
    method Govern(ty: Ty) returns (found: Option<Ty>)
      requires Valid() && ty in g.supers
      modifies this
      ensures Valid() && ty in memo && memo[ty] == found
      ensures forall t :: t in old(memo) ==> t in memo && memo[t] == old(memo)[t]
      ensures found == Answer(g, old(memo), ty) && memo == Learned(g, old(memo), ty)
      ensures Answered(g, old(memo), ty, found)
      ensures old(memo) == map[] && found.Some? ==> Nearest(g, ty, found.value)
    {
      hide Answered, Nearest, NearestStop, Rivalled, Layers, Stops, StepsTo;
      if ty in memo {
        found := memo[ty];
        Remembered(g, memo, ty);
        MemoAnswered(g, memo, ty);
        return;
      }
      hide Reaches, Governed, Search, SoundMemo, Searched, Closed, InGraph, Visited, Passing, Learned, Answer;
      var visited;
      ghost var seen;
      found, visited, seen := Explore(ty);
      if found.None? {
        PassingEnds(g, memo, visited, seen, ty);
        Settle(g, memo, seen, ty);
        Remember(visited, seen);
        LearnedNone(g, old(memo), ty, memo);
        NoneAnswered(g, old(memo), ty);
      } else {
        SearchAnswers(g, memo, ty);
        SearchAnswered(g, memo, ty);
        LearnedSome(g, memo, ty);
        if memo == map[] {
          FreshIsNearest(g, ty, found);
        }
      }
      MemoAdds(g, memo, ty, found);
      memo := memo[ty := found];
    }

    /** Any sequence of queries: each answer is right for what the queries before it left remembered. */
    method GovernAll(tys: seq<Ty>) returns (answers: seq<Option<Ty>>, ghost memos: seq<map<Ty, Option<Ty>>>)
      requires Valid() && InGraph(g, tys)
      modifies this
      ensures Valid() && |answers| == |tys| && |memos| == |tys| + 1 && memos[0] == old(memo) && memos[|tys|] == memo
      ensures forall k :: 0 <= k < |tys| ==> SoundMemo(g, memos[k]) && Answered(g, memos[k], tys[k], answers[k])
      ensures forall k :: 0 <= k <= |tys| ==> InGraph(g, tys[..k]) && memos[k] == After(g, old(memo), tys[..k])
      ensures forall k :: 0 <= k < |tys| ==> tys[k] in g.supers && answers[k] == Answer(g, memos[k], tys[k])
    {
      hide Answered, SoundMemo, Closed, Nearest, Governed, Reaches, StepsTo, After, Answer, Learned;
      AfterNone(g, memo, tys);
      answers, memos := [], [memo];
      for k := 0 to |tys|
        invariant Valid() && |answers| == k && |memos| == k + 1 && memos[0] == old(memo) && memos[k] == memo
        invariant forall j :: 0 <= j < k ==> SoundMemo(g, memos[j]) && Answered(g, memos[j], tys[j], answers[j])
        invariant forall j :: 0 <= j <= k ==> InGraph(g, tys[..j]) && memos[j] == After(g, old(memo), tys[..j])
        invariant forall j :: 0 <= j < k ==> tys[j] in g.supers && answers[j] == Answer(g, memos[j], tys[j])
      {
        AfterOne(g, old(memo), tys, k);
        var answer := Govern(tys[k]);
        answers, memos := answers + [answer], memos + [memo];
      }
    }
  }

  lemma NoneAnswered(g: Types, memo: map<Ty, Option<Ty>>, ty: Ty)
    requires !Governed(g, ty)
    ensures Answered(g, memo, ty, None)
  {
  }

  lemma SearchedPops(g: Types, memo: map<Ty, Option<Ty>>, seen: set<Ty>, queue: seq<Ty>)
    requires Searched(g, memo, seen, queue) && queue != [] && queue[0] in g.supers
    ensures queue[0] in seen ==> Searched(g, memo, seen, queue[1..])
    ensures queue[0] in memo && memo[queue[0]].None? ==> Searched(g, memo, seen + {queue[0]}, queue[1..])
    ensures queue[0] !in g.own ==> Searched(g, memo, seen + {queue[0]}, queue[1..] + g.supers[queue[0]])
  {
    var t, rest := queue[0], queue[1..];
    assert forall u :: u in queue ==> u == t || u in rest;
  }

  lemma SearchStarts(g: Types, memo: map<Ty, Option<Ty>>, ty: Ty) returns (answer: Option<Ty>)
    requires Closed(g) && ty in g.supers
    ensures InGraph(g, [ty]) && Searched(g, memo, {}, [ty]) && answer == Search(g, memo, [ty], {})
  {
    answer := Search(g, memo, [ty], {});
  }

  lemma SearchAnswers(g: Types, memo: map<Ty, Option<Ty>>, ty: Ty)
    requires Closed(g) && SoundMemo(g, memo) && ty in g.supers && InGraph(g, [ty]) && Search(g, memo, [ty], {}).Some?
    ensures
      var u := Search(g, memo, [ty], {}).value;
      u in g.own && Reaches(g, ty, u) && Governed(g, ty)
  {
    hide Search, SoundMemo;
    ReachesSelf(g, ty);
    SearchFinds(g, memo, ty, [ty], {});
  }

  /** Nothing left to search: every type searched is governed by nothing. */
  lemma Settle(g: Types, memo: map<Ty, Option<Ty>>, seen: set<Ty>, ty: Ty)
    requires SoundMemo(g, memo) && Searched(g, memo, seen, []) && ty in seen
    ensures !Governed(g, ty) && forall t :: t in seen ==> t in g.supers && !Governed(g, t)
  {
    NoneGoverns(g, memo, seen);
  }

  lemma MemoAdds(g: Types, memo: map<Ty, Option<Ty>>, ty: Ty, found: Option<Ty>)
    requires SoundMemo(g, memo) && ty in g.supers && (found.Some? <==> Governed(g, ty))
    requires found.Some? ==> found.value in g.own && Reaches(g, ty, found.value)
    ensures SoundMemo(g, memo[ty := found])
  {
  }

  // ---- what the memo costs ---------------------------------------------------------

  /** Type 3 has supertypes 1 and 2; 1 has supertype 0; 0 and 2 carry patterns. */
  const DIAMOND: Types := Types(map[0 := [], 1 := [0], 2 := [], 3 := [1, 2]], {0, 2})

  const ASKED: map<Ty, Option<Ty>> := map[1 := Some(0)]

  const EMPTY: map<Ty, Option<Ty>> := map[]

  /**
    The answer need not be the nearest. Asked first, 3 is governed by 2, one step up. Once 1
    has been asked about and is remembered as governed by 0, asking about 3 stops at 1 and
    answers 0, two steps up; that memory is sound.
   */
  lemma MemoNotNearest()
    ensures Closed(DIAMOND) && SoundMemo(DIAMOND, ASKED) && ASKED == Learned(DIAMOND, EMPTY, 1)
    ensures Answer(DIAMOND, EMPTY, 3) == Some(2) && Answer(DIAMOND, ASKED, 3) == Some(0)
    ensures Nearest(DIAMOND, 3, 2) && !Nearest(DIAMOND, 3, 0)
  {
    hide Search, Nearest, SoundMemo;
    DiamondClosed();
    DiamondFirst(DIAMOND, EMPTY);
    DiamondSecond(DIAMOND, ASKED);
    DiamondDepths();
  }

  lemma DiamondDepths()
    ensures Nearest(DIAMOND, 3, 2) && !Nearest(DIAMOND, 3, 0)
  {
    var g := DIAMOND;
    assert Chain(g, [3, 2]) && [3, 2][0] == 3 && [3, 2][1] == 2;
    assert StepsTo(g, 3, 2, 1);
    forall path | Chain(g, path) && path[0] == 3 && |path| <= 2 ensures path[|path| - 1] in {1, 2, 3} {
    }
    assert !StepsTo(g, 3, 0, 1);
    forall u, n: nat | u in g.own && StepsTo(g, 3, u, n) ensures StepsTo(g, 3, 2, n) {
      var path :| Chain(g, path) && path[0] == 3 && path[|path| - 1] == u && |path| <= n + 1;
      StepsMore(g, 3, 2, 1, n);
    }
  }

  lemma DiamondClosed()
    ensures Closed(DIAMOND) && SoundMemo(DIAMOND, ASKED) && IsDiamond(DIAMOND)
  {
    assert Chain(DIAMOND, [1, 0]) && [1, 0][0] == 1 && [1, 0][1] == 0;
  }

  ghost predicate IsDiamond(g: Types) {
    && {0, 1, 2, 3} == g.supers.Keys && g.own == {0, 2}
    && g.supers[0] == [] && g.supers[1] == [0] && g.supers[2] == [] && g.supers[3] == [1, 2]
  }

  lemma DiamondFirst(g: Types, memo: map<Ty, Option<Ty>>)
    requires Closed(g) && IsDiamond(g) && memo == map[]
    ensures Search(g, memo, [1], {}) == Some(0) && Search(g, memo, [3], {}) == Some(2)
  {
    hide Search, Closed;
    SearchOpens(g, memo, [1], {}, [0], {1});
    SearchEnds(g, memo, [0], {1});
    SearchOpens(g, memo, [3], {}, [1, 2], {3});
    SearchOpens(g, memo, [1, 2], {3}, [2, 0], {1, 3});
    SearchEnds(g, memo, [2, 0], {1, 3});
  }

  lemma DiamondSecond(g: Types, memo: map<Ty, Option<Ty>>)
    requires Closed(g) && IsDiamond(g) && memo.Keys == {1} && memo[1] == Some(0)
    ensures Search(g, memo, [3], {}) == Some(0)
  {
    hide Search, Closed;
    SearchOpens(g, memo, [3], {}, [1, 2], {3});
    SearchEnds(g, memo, [1, 2], {3});
  }

  /** A type new to the search, not remembered and without a pattern queues its supertypes. */
  lemma SearchOpens(
      g: Types, memo: map<Ty, Option<Ty>>, queue: seq<Ty>, seen: set<Ty>, next: seq<Ty>, more: set<Ty>)
    requires Closed(g) && InGraph(g, queue) && queue != [] && queue[0] in g.supers
    requires queue[0] !in seen && queue[0] !in g.own && queue[0] !in memo
    requires next == queue[1..] + g.supers[queue[0]] && more == seen + {queue[0]}
    ensures InGraph(g, next) && Search(g, memo, queue, seen) == Search(g, memo, next, more)
  {
    hide Search;
    SearchStep(g, memo, queue, seen);
  }

  lemma SearchEnds(g: Types, memo: map<Ty, Option<Ty>>, queue: seq<Ty>, seen: set<Ty>)
    requires Closed(g) && InGraph(g, queue) && queue != [] && queue[0] !in seen && Stops(g, memo, queue[0])
    ensures Search(g, memo, queue, seen) == AnswerAt(memo, queue[0])
  {
    hide Search;
    SearchStep(g, memo, queue, seen);
  }
}
