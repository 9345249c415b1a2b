/**
  Pairing a target's elements with a base's: by ownership path under paired roots, then by
  order-aligning the children that pass left unpaired under each paired parent.
 */
module RebasePairs {
  import opened Wrappers
  import opened Seqs
  import opened Cbor
  import opened Model
  import opened Rebase

  // ---- paths and roots -------------------------------------------------------------

  /** An element's ownership path: its root's position and the chain of segments below it. */
  datatype Path = Path(root: nat, chain: Text)

  type Paths = seq<Option<Path>>

  /** The last position of `x`, as an index collected left to right keeps it. */
  function LastAt<T(==)>(s: seq<T>, x: T): (r: Option<nat>)
    ensures r.Some? ==> r.value < |s| && s[r.value] == x
    ensures r.None? <==> x !in s
  {
    if s == [] then None
    else if s[|s| - 1] == x then Some(|s| - 1)
    else LastAt(s[..|s| - 1], x)
  }

  predicate Within(s: seq<nat>, n: nat) {
    forall i :: 0 <= i < |s| ==> s[i] < n
  }

  /** The positions the identities `us` have in the document, the others left out. */
  function Found(ids: seq<Uuid>, us: seq<Uuid>): (r: seq<nat>)
    ensures Within(r, |ids|)
  {
    if us == [] then []
    else (match LastAt(ids, us[0]) case Some(i) => [i] case None => []) + Found(ids, us[1..])
  }

  function ListAt(doc: Doc, i: nat, key: Prop): (r: seq<nat>)
    requires i < |doc|
    ensures Within(r, |doc|)
  {
    Found(Ids(doc), ListIds(doc[i], key))
  }

  function ChildPositions(doc: Doc, i: nat): (r: seq<nat>)
    requires i < |doc|
    ensures Within(r, |doc|)
  {
    ListAt(doc, i, OwnedRelationship) + ListAt(doc, i, OwnedRelatedElement)
  }

  /** The first of `keys` that holds a string. */
  function TextOf(e: Element, keys: seq<Prop>): Option<Text> {
    if keys == [] then None
    else if keys[0] in e.props && e.props[keys[0]].Str? then Some(e.props[keys[0]].text)
    else TextOf(e, keys[1..])
  }

  const MEMBER_NAMES: seq<Prop> := [Named("memberName"), Named("memberShortName")]
  const DECLARED_NAMES: seq<Prop> := [Named("declaredName"), Named("declaredShortName")]

  function ElementName(e: Element): Option<Text> {
    TextOf(e, DECLARED_NAMES + MEMBER_NAMES)
  }

  function FirstDeclared(doc: Doc, kids: seq<nat>): Option<Text>
    requires Within(kids, |doc|)
  {
    if kids == [] then None
    else
      var n := TextOf(doc[kids[0]], DECLARED_NAMES);
      if n.Some? then n else FirstDeclared(doc, kids[1..])
  }

  function FirstMember(doc: Doc, rels: seq<nat>): Option<Text>
    requires Within(rels, |doc|)
  {
    if rels == [] then None
    else
      var n := TextOf(doc[rels[0]], MEMBER_NAMES);
      if n.Some? then n
      else
        var d := FirstDeclared(doc, ListAt(doc, rels[0], OwnedRelatedElement));
        if d.Some? then d else FirstMember(doc, rels[1..])
  }

  function RootName(doc: Doc, root: nat): Option<Text>
    requires root < |doc|
  {
    FirstMember(doc, ListAt(doc, root, OwnedRelationship))
  }

  function RootsFrom(paths: Paths, i: nat): (r: seq<nat>)
    requires i <= |paths|
    ensures Within(r, |paths|)
    decreases |paths| - i
  {
    if i == |paths| then []
    else (if paths[i] == Some(Path(i, [])) then [i] else []) + RootsFrom(paths, i + 1)
  }

  /** The roots of a document named `name`. */
  function NamedRoots(doc: Doc, roots: seq<nat>, name: Text): (r: seq<nat>)
    requires Within(roots, |doc|)
    ensures forall k :: k in r ==> k in roots
  {
    if roots == [] then []
    else (if RootName(doc, roots[0]) == Some(name) then [roots[0]] else []) + NamedRoots(doc, roots[1..], name)
  }

  /** The base root whose first member name is `t`'s, where each side has just one such root. */
  function RootByName(base: Doc, baseRoots: seq<nat>, target: Doc, roots: seq<nat>, t: nat): (r: Option<nat>)
    requires Within(baseRoots, |base|)
    requires Within(roots, |target|)
    requires t in roots
    ensures r.Some? ==> r.value in baseRoots
  {
    match RootName(target, t)
    case None => None
    case Some(name) =>
      var there, here := NamedRoots(base, baseRoots, name), NamedRoots(target, roots, name);
      if |there| == 1 && |here| == 1 then Some(there[0]) else None
  }

  type Matching = map<nat, nat>

  /** The leftover roots, paired in order while base roots last. */
  function RestPairs(pairs: Matching, roots: seq<nat>, free: seq<nat>): (r: Matching)
    ensures forall t :: t in r ==> (t in pairs && r[t] == pairs[t]) || (t in roots && r[t] in free)
    ensures forall t :: t in pairs ==> t in r && r[t] == pairs[t]
    decreases |roots|
  {
    if roots == [] || free == [] then pairs
    else if roots[0] in pairs then RestPairs(pairs, roots[1..], free)
    else RestPairs(pairs[roots[0] := free[0]], roots[1..], free[1..])
  }

  function KeyPairs(base: Doc, baseRoots: seq<nat>, target: Doc, roots: seq<nat>): (r: Matching)
    requires Within(baseRoots, |base|)
    requires Within(roots, |target|)
    ensures forall t :: t in r ==> t in roots && r[t] in baseRoots
  {
    map t | t in roots && RootByName(base, baseRoots, target, roots, t).Some? ::
      RootByName(base, baseRoots, target, roots, t).value
  }

  function RootPairs(base: Doc, basePaths: Paths, target: Doc, paths: Paths): (r: Matching)
    requires |basePaths| == |base| && |paths| == |target|
  {
    var baseRoots, roots := RootsFrom(basePaths, 0), RootsFrom(paths, 0);
    var keyed := KeyPairs(base, baseRoots, target, roots);
    RestPairs(keyed, roots, Pick(baseRoots, keyed.Values, false))
  }

  // ---- which roots pair, by name ---------------------------------------------------

  /** The string an element holds under a property of this name. */
  function StringAt(e: Element, name: string): Option<Text> {
    if Named(name) in e.props && e.props[Named(name)].Str? then Some(e.props[Named(name)].text) else None
  }

  /** The first text there is. */
  function FirstText(names: seq<Option<Text>>): Option<Text> {
    if names == [] then None else if names[0].Some? then names[0] else FirstText(names[1..])
  }

  lemma {:induction false} FirstTextOf(a: seq<Option<Text>>, b: seq<Option<Text>>)
    ensures FirstText(a + b) == if FirstText(a).Some? then FirstText(a) else FirstText(b)
  {
    if a == [] {
      assert a + b == b;
    } else {
      FirstTextOf(a[1..], b);
      assert (a + b)[0] == a[0] && (a + b)[1..] == a[1..] + b;
    }
  }

  lemma FirstOfTwo(a: Option<Text>, b: Option<Text>)
    ensures FirstText([a, b]) == if a.Some? then a else b
  {
    assert [a, b][1..] == [b] && [b][1..] == [];
    assert FirstText([b]) == b;
  }

  lemma TextOfTwo(e: Element, a: Prop, b: Prop)
    ensures
      var t := TextOf(e, [b]);
      && (t == if b in e.props && e.props[b].Str? then Some(e.props[b].text) else None)
      && (TextOf(e, [a, b]) == if a in e.props && e.props[a].Str? then Some(e.props[a].text) else t)
  {
    assert [a, b][1..] == [b] && [b][1..] == [];
  }

  lemma {:induction false} TextOfMore(e: Element, a: seq<Prop>, b: seq<Prop>)
    ensures TextOf(e, a + b) == if TextOf(e, a).Some? then TextOf(e, a) else TextOf(e, b)
  {
    if a == [] {
      assert a + b == b;
    } else {
      TextOfMore(e, a[1..], b);
      assert (a + b)[0] == a[0] && (a + b)[1..] == a[1..] + b;
    }
  }

  lemma MemberNameIs(e: Element)
    ensures TextOf(e, MEMBER_NAMES) == FirstText([StringAt(e, "memberName"), StringAt(e, "memberShortName")])
  {
    hide FirstText, TextOf;
    TextOfTwo(e, Named("memberName"), Named("memberShortName"));
    FirstOfTwo(StringAt(e, "memberName"), StringAt(e, "memberShortName"));
  }

  lemma DeclaredNameIs(e: Element)
    ensures TextOf(e, DECLARED_NAMES) == FirstText([StringAt(e, "declaredName"), StringAt(e, "declaredShortName")])
  {
    hide FirstText, TextOf;
    TextOfTwo(e, Named("declaredName"), Named("declaredShortName"));
    FirstOfTwo(StringAt(e, "declaredName"), StringAt(e, "declaredShortName"));
  }

  /** An element's own name: the first string under these four properties, in this order. */
  lemma ElementNameIs(e: Element)
    ensures
      ElementName(e)
      == FirstText([StringAt(e, "declaredName"), StringAt(e, "declaredShortName"),
                    StringAt(e, "memberName"), StringAt(e, "memberShortName")])
  {
    hide FirstText, TextOf;
    var declared := [StringAt(e, "declaredName"), StringAt(e, "declaredShortName")];
    var member := [StringAt(e, "memberName"), StringAt(e, "memberShortName")];
    DeclaredNameIs(e);
    MemberNameIs(e);
    TextOfMore(e, DECLARED_NAMES, MEMBER_NAMES);
    FirstTextOf(declared, member);
    assert declared + member == [declared[0], declared[1], member[0], member[1]];
  }

  /** The declared names of elements, in order. */
  function DeclaredIn(doc: Doc, kids: seq<nat>): seq<Option<Text>>
    requires Within(kids, |doc|)
  {
    if kids == [] then []
    else
      [StringAt(doc[kids[0]], "declaredName"), StringAt(doc[kids[0]], "declaredShortName")]
      + DeclaredIn(doc, kids[1..])
  }

  /** What may name a root: of each relationship its member names, then the declared names of what it owns. */
  function NamesIn(doc: Doc, rels: seq<nat>): seq<Option<Text>>
    requires Within(rels, |doc|)
  {
    if rels == [] then []
    else
      [StringAt(doc[rels[0]], "memberName"), StringAt(doc[rels[0]], "memberShortName")]
      + DeclaredIn(doc, ListAt(doc, rels[0], OwnedRelatedElement)) + NamesIn(doc, rels[1..])
  }

  lemma {:induction false} FirstDeclaredIs(doc: Doc, kids: seq<nat>)
    requires Within(kids, |doc|)
    ensures FirstDeclared(doc, kids) == FirstText(DeclaredIn(doc, kids))
  {
    hide FirstText, TextOf, StringAt;
    if kids == [] {
      NoText();
    } else {
      DeclaredNameIs(doc[kids[0]]);
      FirstDeclaredIs(doc, kids[1..]);
      FirstTextOf([StringAt(doc[kids[0]], "declaredName"), StringAt(doc[kids[0]], "declaredShortName")],
        DeclaredIn(doc, kids[1..]));
    }
  }

  lemma NoText()
    ensures FirstText([]) == None
  {
  }

  lemma {:induction false} FirstMemberIs(doc: Doc, rels: seq<nat>)
    requires Within(rels, |doc|)
    ensures FirstMember(doc, rels) == FirstText(NamesIn(doc, rels))
  {
    hide FirstText, TextOf, StringAt, ListAt, DeclaredIn, FirstDeclared;
    if rels == [] {
      NoText();
    } else {
      var member := [StringAt(doc[rels[0]], "memberName"), StringAt(doc[rels[0]], "memberShortName")];
      var kids := ListAt(doc, rels[0], OwnedRelatedElement);
      MemberNameIs(doc[rels[0]]);
      FirstDeclaredIs(doc, kids);
      FirstMemberIs(doc, rels[1..]);
      FirstTextOf(member, DeclaredIn(doc, kids));
      FirstTextOf(member + DeclaredIn(doc, kids), NamesIn(doc, rels[1..]));
    }
  }

  /** A root is called by the first string among the names of what it owns. */
  lemma RootNameIs(doc: Doc, root: nat)
    requires root < |doc|
    ensures RootName(doc, root) == FirstText(NamesIn(doc, ListAt(doc, root, OwnedRelationship)))
  {
    FirstMemberIs(doc, ListAt(doc, root, OwnedRelationship));
  }

  /** The one root of this name. */
  ghost predicate OnlyNamed(doc: Doc, roots: seq<nat>, name: Text, root: nat)
    requires Within(roots, |doc|)
  {
    && root in roots && root < |doc| && RootName(doc, root) == Some(name)
    && forall k :: 0 <= k < |roots| && roots[k] != root ==> RootName(doc, roots[k]) != Some(name)
  }

  ghost predicate Ascends(s: seq<nat>) {
    forall i, j :: 0 <= i < j < |s| ==> s[i] < s[j]
  }

  lemma RootsStep(paths: Paths, i: nat)
    requires i < |paths|
    ensures
      RootsFrom(paths, i) == (if paths[i] == Some(Path(i, [])) then [i] else []) + RootsFrom(paths, i + 1)
  {
  }

  lemma RootsEnd(paths: Paths)
    ensures RootsFrom(paths, |paths|) == [] && Ascends([])
  {
  }

  /** The roots: the elements whose path is their own position and no segment. */
  lemma {:induction false} RootsAre(paths: Paths, i: nat, k: nat)
    requires i <= |paths|
    ensures k in RootsFrom(paths, i) <==> i <= k < |paths| && paths[k] == Some(Path(k, []))
    decreases |paths| - i
  {
    hide RootsFrom;
    if i < |paths| {
      RootsStep(paths, i);
      RootsAre(paths, i + 1, k);
    } else {
      RootsEnd(paths);
    }
  }

  lemma AscendsMore(i: nat, s: seq<nat>)
    requires Ascends(s) && forall k :: k in s ==> i < k
    ensures Ascends([i] + s)
  {
    assert forall j :: 0 <= j < |s| ==> s[j] in s;
  }

  lemma {:induction false} RootsAscend(paths: Paths, i: nat)
    requires i <= |paths|
    ensures Ascends(RootsFrom(paths, i))
    ensures forall k :: k in RootsFrom(paths, i) ==> i <= k
    decreases |paths| - i
  {
    hide RootsFrom, Ascends;
    if i < |paths| {
      var rest := RootsFrom(paths, i + 1);
      RootsStep(paths, i);
      RootsAscend(paths, i + 1);
      AscendsMore(i, rest);
      assert [] + rest == rest;
    } else {
      RootsEnd(paths);
    }
  }

  lemma {:induction false} NamedNone(doc: Doc, roots: seq<nat>, name: Text)
    requires Within(roots, |doc|) && forall k :: 0 <= k < |roots| ==> RootName(doc, roots[k]) != Some(name)
    ensures NamedRoots(doc, roots, name) == []
  {
    hide RootName;
    if roots != [] {
      NamedNone(doc, roots[1..], name);
    }
  }

  /** The roots of a name are one exactly where one root alone has it. */
  lemma {:induction false} NamedOnce(doc: Doc, roots: seq<nat>, name: Text, root: nat)
    requires Within(roots, |doc|) && Ascends(roots)
    ensures OnlyNamed(doc, roots, name, root) <==> NamedRoots(doc, roots, name) == [root]
  {
    hide RootName;
    if roots != [] {
      var rest := roots[1..];
      var named := NamedRoots(doc, rest, name);
      assert forall k :: 0 <= k < |rest| ==> rest[k] == roots[k + 1] && roots[0] < rest[k];
      if RootName(doc, roots[0]) == Some(name) {
        if OnlyNamed(doc, roots, name, root) {
          NamedNone(doc, rest, name);
        }
        if [roots[0]] + named == [root] {
          assert |named| == 0 && ([roots[0]] + named)[0] == root;
          NamedEmpty(doc, rest, name);
        }
      } else {
        NamedOnce(doc, rest, name, root);
      }
    }
  }

  lemma {:induction false} NamedEmpty(doc: Doc, roots: seq<nat>, name: Text)
    requires Within(roots, |doc|) && NamedRoots(doc, roots, name) == []
    ensures forall k :: 0 <= k < |roots| ==> RootName(doc, roots[k]) != Some(name)
  {
    hide RootName;
    if roots != [] {
      NamedEmpty(doc, roots[1..], name);
      assert forall k :: 0 < k < |roots| ==> roots[k] == roots[1..][k - 1];
    }
  }

  /** Two roots that share a name no other root of either side has. */
  ghost predicate Namesakes(base: Doc, baseRoots: seq<nat>, target: Doc, roots: seq<nat>, t: nat, b: nat)
    requires Within(baseRoots, |base|) && Within(roots, |target|)
  {
    exists name :: OnlyNamed(target, roots, name, t) && OnlyNamed(base, baseRoots, name, b)
  }

  lemma KeyedAreNamesakes(base: Doc, baseRoots: seq<nat>, target: Doc, roots: seq<nat>, t: nat, b: nat)
    requires Within(baseRoots, |base|) && Within(roots, |target|) && Ascends(baseRoots) && Ascends(roots)
    ensures
      var keyed := KeyPairs(base, baseRoots, target, roots);
      t in keyed && keyed[t] == b <==> Namesakes(base, baseRoots, target, roots, t, b)
  {
    hide RootName, NamedRoots;
    if t in roots {
      var name := RootName(target, t);
      if name.Some? {
        NamedOnce(target, roots, name.value, t);
        NamedOnce(base, baseRoots, name.value, b);
        NamedAs(target, roots, name.value, t);
        NamedAs(base, baseRoots, name.value, b);
      }
    }
  }

  lemma NamedAs(doc: Doc, roots: seq<nat>, name: Text, root: nat)
    requires Within(roots, |doc|) && Ascends(roots)
    ensures
      |NamedRoots(doc, roots, name)| == 1 && root in roots && RootName(doc, root) == Some(name) ==>
        NamedRoots(doc, roots, name) == [root]
    ensures |NamedRoots(doc, roots, name)| == 1 && NamedRoots(doc, roots, name)[0] == root ==>
      OnlyNamed(doc, roots, name, root)
  {
    hide RootName, NamedRoots;
    var found := NamedRoots(doc, roots, name);
    if |found| == 1 {
      assert found == [found[0]];
      NamedOnce(doc, roots, name, found[0]);
      if root in roots && RootName(doc, root) == Some(name) {
        var k :| 0 <= k < |roots| && roots[k] == root;
      }
    }
  }

  lemma RestStep(pairs: Matching, t: nat, roots: seq<nat>, free: seq<nat>)
    ensures t in pairs ==> RestPairs(pairs, [t] + roots, free) == RestPairs(pairs, roots, free)
    ensures
      t !in pairs && free != [] ==>
        RestPairs(pairs, [t] + roots, free) == RestPairs(pairs[t := free[0]], roots, free[1..])
    ensures RestPairs(pairs, roots, []) == pairs
  {
    assert ([t] + roots)[1..] == roots;
    if t in pairs && free == [] {
      assert RestPairs(pairs, roots, free) == pairs;
    }
  }

  lemma AscendsTail(t: nat, rest: seq<nat>)
    requires Ascends([t] + rest)
    ensures Ascends(rest) && t !in rest
  {
    var roots := [t] + rest;
    assert forall i :: 0 <= i < |rest| ==> rest[i] == roots[i + 1] && roots[i + 1] != roots[0];
  }

  /** What is left over, without a root that another pair takes. */
  lemma LeftTail(pairs: Matching, t: nat, b: nat, rest: seq<nat>)
    requires t !in rest
    ensures t in pairs ==> Pick([t] + rest, pairs.Keys, false) == Pick(rest, pairs.Keys, false)
    ensures
      t !in pairs ==> Pick([t] + rest, pairs.Keys, false) == [t] + Pick(rest, pairs[t := b].Keys, false)
  {
    hide Pick;
    PickHead(t, rest, pairs.Keys, false);
    if t in pairs {
      assert [] + Pick(rest, pairs.Keys, false) == Pick(rest, pairs.Keys, false);
    } else {
      PickAgree(rest, pairs.Keys, pairs[t := b].Keys, false);
    }
  }

  /** The roots left over pair in order, as far as both last. */
  lemma {:induction false} RestInOrder(pairs: Matching, roots: seq<nat>, free: seq<nat>, k: nat)
    requires Ascends(roots) && k < |Pick(roots, pairs.Keys, false)|
    ensures
      var t, all := Pick(roots, pairs.Keys, false)[k], RestPairs(pairs, roots, free);
      if k < |free| then t in all && all[t] == free[k] else t !in all
    decreases |roots|
  {
    hide Pick, RestPairs, Ascends;
    if roots == [] {
      PickEmpty(pairs.Keys, false);
    } else {
      var t, rest := roots[0], roots[1..];
      assert roots == [t] + rest;
      AscendsTail(t, rest);
      LeftTail(pairs, t, if free == [] then 0 else free[0], rest);
      RestStep(pairs, t, rest, free);
      if t in pairs {
        RestInOrder(pairs, rest, free, k);
      } else if free != [] {
        if k > 0 {
          RestInOrder(pairs[t := free[0]], rest, free[1..], k - 1);
        } else {
          assert t in RestPairs(pairs, roots, free);
        }
      } else {
        var left := Pick(roots, pairs.Keys, false);
        RestStep(pairs, t, roots, free);
        assert left[k] in left;
      }
    }
  }

  /**
    The root pairing. Two roots pair by name exactly where each side has one root of that name;
    the roots this leaves unpaired pair in payload order while base roots last; the rest stay
    unpaired.
   */
  lemma RootsPairedByName(base: Doc, basePaths: Paths, target: Doc, paths: Paths)
    requires |basePaths| == |base| && |paths| == |target|
    ensures
      var baseRoots, roots := RootsFrom(basePaths, 0), RootsFrom(paths, 0);
      var keyed, pair := KeyPairs(base, baseRoots, target, roots), RootPairs(base, basePaths, target, paths);
      var left, free := Pick(roots, keyed.Keys, false), Pick(baseRoots, keyed.Values, false);
      && (forall t, b :: t in keyed && keyed[t] == b <==> Namesakes(base, baseRoots, target, roots, t, b))
      && (forall t :: t in keyed ==> t in pair && pair[t] == keyed[t])
      && (forall k :: 0 <= k < |left| ==>
            if k < |free| then left[k] in pair && pair[left[k]] == free[k] else left[k] !in pair)
      && (forall t :: t in pair ==> t < |paths| && paths[t] == Some(Path(t, [])))
      && (forall t :: t in pair ==> pair[t] < |basePaths| && basePaths[pair[t]] == Some(Path(pair[t], [])))
  {
    hide RootName, NamedRoots, RootByName, Namesakes;
    var baseRoots, roots := RootsFrom(basePaths, 0), RootsFrom(paths, 0);
    RootsAscend(basePaths, 0);
    RootsAscend(paths, 0);
    var keyed := KeyPairs(base, baseRoots, target, roots);
    var left, free := Pick(roots, keyed.Keys, false), Pick(baseRoots, keyed.Values, false);
    forall t, b ensures t in keyed && keyed[t] == b <==> Namesakes(base, baseRoots, target, roots, t, b) {
      KeyedAreNamesakes(base, baseRoots, target, roots, t, b);
    }
    forall k | 0 <= k < |left|
      ensures
        var pair := RestPairs(keyed, roots, free);
        if k < |free| then left[k] in pair && pair[left[k]] == free[k] else left[k] !in pair
    {
      RestInOrder(keyed, roots, free, k);
    }
    forall t | t in RootPairs(base, basePaths, target, paths)
      ensures
        var b := RootPairs(base, basePaths, target, paths)[t];
        && t < |paths| && paths[t] == Some(Path(t, []))
        && b < |basePaths| && basePaths[b] == Some(Path(b, []))
    {
      RootsAre(paths, 0, t);
      RootsAre(basePaths, 0, RootPairs(base, basePaths, target, paths)[t]);
    }
  }

  // ---- exact partners --------------------------------------------------------------

  /** The base element at the same path under the paired root. */
  function Partner(pair: Matching, basePaths: Paths, paths: Paths, i: nat): (b: Option<nat>)
    requires i < |paths|
    ensures b.Some? ==> b.value < |basePaths|
  {
    match paths[i]
    case None => None
    case Some(p) => if p.root in pair then LastAt(basePaths, Some(Path(pair[p.root], p.chain))) else None
  }

  /** The exact partners of the first `upto` elements. */
  function Exact(pair: Matching, basePaths: Paths, paths: Paths, upto: nat): (r: Matching)
    requires upto <= |paths|
    ensures forall t: nat :: t in r <==> t < upto && Partner(pair, basePaths, paths, t).Some?
    ensures forall t :: t in r ==> Some(r[t]) == Partner(pair, basePaths, paths, t)
  {
    map t: nat | t < upto && Partner(pair, basePaths, paths, t).Some? :: Partner(pair, basePaths, paths, t).value
  }

  /** A path match: the last base element with this chain of segments, under the root this one is paired with. */
  lemma PartnerIs(pair: Matching, basePaths: Paths, paths: Paths, i: nat, b: nat)
    requires i < |paths|
    ensures
      Partner(pair, basePaths, paths, i) == Some(b)
      <==> && paths[i].Some? && paths[i].value.root in pair && b < |basePaths|
           && basePaths[b] == Some(Path(pair[paths[i].value.root], paths[i].value.chain))
           && forall k :: b < k < |basePaths| ==> basePaths[k] != basePaths[b]
  {
    hide LastAt;
    if paths[i].Some? && paths[i].value.root in pair {
      LastIs(basePaths, Some(Path(pair[paths[i].value.root], paths[i].value.chain)), b);
    }
  }

  lemma {:induction false} LastIs<T>(s: seq<T>, x: T, b: nat)
    ensures LastAt(s, x) == Some(b) <==> b < |s| && s[b] == x && forall k :: b < k < |s| ==> s[k] != x
  {
    if s != [] && s[|s| - 1] != x {
      LastIs(s[..|s| - 1], x, b);
    }
  }

  // ---- adoption --------------------------------------------------------------------

  /** What the pairing holds: each paired target element's base element, those used, and the renaming. */
  datatype Pairing = Pairing(elems: Matching, used: set<nat>, remap: Remap)

  function Adopt(base: Doc, target: Doc, st: Pairing, t: nat, b: nat): Pairing
    requires t < |target| && b < |base|
  {
    var was, now := target[t].id, base[b].id;
    Pairing(st.elems[t := b], st.used + {b}, if was == now then st.remap else st.remap[was := now])
  }

  const UNPAIRED: Pairing := Pairing(map[], {}, map[])

  /** The pairing after the first `upto` elements took their exact partners. */
  function ExactState(base: Doc, target: Doc, exact: Matching, upto: nat): Pairing
    requires forall t :: t in exact ==> t < |target| && exact[t] < |base|
  {
    if upto == 0 then UNPAIRED
    else
      var before := ExactState(base, target, exact, upto - 1);
      if upto - 1 in exact then Adopt(base, target, before, upto - 1, exact[upto - 1]) else before
  }

  /** Metaclass, own name, and the first owned member's metaclass and name. */
  datatype AlignKey = AlignKey(ty: string, name: Option<Text>, member: Option<(string, Option<Text>)>)

  function KeyOf(doc: Doc, i: nat): AlignKey
    requires i < |doc|
  {
    var members := ListAt(doc, i, OwnedRelatedElement);
    AlignKey(doc[i].ty, ElementName(doc[i]),
             if members == [] then None else Some((doc[members[0]].ty, ElementName(doc[members[0]]))))
  }

  /** An element's name, by the properties that hold it. */
  function NameOf(e: Element): Option<Text> {
    FirstText([StringAt(e, "declaredName"), StringAt(e, "declaredShortName"),
               StringAt(e, "memberName"), StringAt(e, "memberShortName")])
  }

  /** The identities of a list that the document holds. */
  function HeldIn(doc: Doc, us: seq<Uuid>): seq<Uuid> {
    Pick(us, Elems(Ids(doc)), true)
  }

  /** The identities at some positions of a document. */
  function IdsOf(doc: Doc, at: seq<nat>): (us: seq<Uuid>)
    requires Within(at, |doc|)
    ensures |us| == |at| && forall k :: 0 <= k < |at| ==> us[k] == doc[at[k]].id
  {
    seq(|at|, k requires 0 <= k < |at| => doc[at[k]].id)
  }

  lemma {:induction false} FoundAre(doc: Doc, us: seq<Uuid>)
    ensures IdsOf(doc, Found(Ids(doc), us)) == HeldIn(doc, us)
  {
    hide LastAt, IdsOf;
    if us == [] {
      assert IdsOf(doc, []) == [];
    } else {
      FoundAre(doc, us[1..]);
      var at := LastAt(Ids(doc), us[0]);
      var rest := Found(Ids(doc), us[1..]);
      if at.Some? {
        assert IdsOf(doc, [at.value] + rest) == [us[0]] + IdsOf(doc, rest);
      } else {
        assert [] + rest == rest;
      }
    }
  }

  /** The children of an element: its relationships first, then its related elements, each list in order. */
  lemma ChildrenAre(doc: Doc, i: nat)
    requires i < |doc|
    ensures
      IdsOf(doc, ChildPositions(doc, i))
      == HeldIn(doc, ListIds(doc[i], OwnedRelationship)) + HeldIn(doc, ListIds(doc[i], OwnedRelatedElement))
  {
    hide Found, HeldIn, ListIds;
    FoundAre(doc, ListIds(doc[i], OwnedRelationship));
    FoundAre(doc, ListIds(doc[i], OwnedRelatedElement));
  }

  /** The first related element an element owns that the document holds. */
  function FirstRelated(doc: Doc, i: nat): (m: Option<nat>)
    requires i < |doc|
    ensures m.Some? ==> m.value < |doc|
  {
    var held := HeldIn(doc, ListIds(doc[i], OwnedRelatedElement));
    if held == [] then None else LastAt(Ids(doc), held[0])
  }

  lemma {:induction false} FirstFound(ids: seq<Uuid>, us: seq<Uuid>)
    ensures
      var held, at := Pick(us, Elems(ids), true), Found(ids, us);
      && (held == [] <==> at == [])
      && (at != [] ==> LastAt(ids, held[0]) == Some(at[0]))
  {
    hide LastAt;
    if us != [] {
      FirstFound(ids, us[1..]);
    }
  }

  /** What is compared of an element: its metaclass and its name. */
  function Look(e: Element): (string, Option<Text>) {
    (e.ty, NameOf(e))
  }

  lemma KeyIs(doc: Doc, i: nat)
    requires i < |doc|
    ensures (KeyOf(doc, i).ty, KeyOf(doc, i).name) == Look(doc[i])
    ensures
      KeyOf(doc, i).member
      == match FirstRelated(doc, i) case None => None case Some(m) => Some(Look(doc[m]))
  {
    hide LastAt, Found, ElementName, ListIds, FirstText, StringAt, Pick;
    var members := ListAt(doc, i, OwnedRelatedElement);
    FirstFound(Ids(doc), ListIds(doc[i], OwnedRelatedElement));
    ElementNameIs(doc[i]);
    if members != [] {
      ElementNameIs(doc[members[0]]);
    }
  }

  /**
    Two elements look alike exactly if they agree on metaclass and name, and the first related
    elements they own do too, or they own none.
   */
  lemma LooksAlike(base: Doc, target: Doc, t: nat, b: nat)
    requires t < |target| && b < |base|
    ensures
      KeyOf(target, t) == KeyOf(base, b)
      <==> Look(target[t]) == Look(base[b])
           && match (FirstRelated(target, t), FirstRelated(base, b))
              case (None, None) => true
              case (Some(m), Some(n)) => Look(target[m]) == Look(base[n])
              case _ => false
  {
    hide Look, KeyOf, FirstRelated;
    KeyIs(target, t);
    KeyIs(base, b);
  }

  type Log = set<(nat, nat)>

  ghost predicate LogIn(base: Doc, target: Doc, log: Log) {
    forall t, b :: (t, b) in log ==> t < |target| && b < |base|
  }

  /** A pair the log may hold: an exact one, or children of a paired parent that look the same. */
  ghost predicate Justified(base: Doc, target: Doc, exact: Matching, log: Log, t: nat, b: nat)
    requires LogIn(base, target, log) && t < |target| && b < |base|
  {
    || (t in exact && exact[t] == b)
    || (t !in exact && KeyOf(target, t) == KeyOf(base, b)
        && exists p, q :: (p, q) in log && t in ChildPositions(target, p) && b in ChildPositions(base, q))
  }

  /** What every step of the pairing keeps; `log` holds every pair adopted so far. */
  ghost predicate SoundPairing(base: Doc, target: Doc, exact: Matching, st: Pairing, log: Log) {
    && LogIn(base, target, log)
    && (forall t, b :: (t, b) in log ==> t in st.elems && b in st.used && Justified(base, target, exact, log, t, b))
    && (forall t :: t in st.elems ==> (t, st.elems[t]) in log)
    && (forall u :: u in st.remap ==> exists t, b :: (t, b) in log && target[t].id == u && base[b].id == st.remap[u])
  }

  /** Every exact partner's identity is adopted. */
  ghost predicate Adopted(base: Doc, target: Doc, exact: Matching, remap: Remap)
    requires forall t :: t in exact ==> t < |target| && exact[t] < |base|
  {
    forall t :: t in exact ==> Renamed(remap, target[t].id) == base[exact[t]].id
  }

  lemma MoreJustified(base: Doc, target: Doc, exact: Matching, log: Log, more: Log, t: nat, b: nat)
    requires LogIn(base, target, log) && LogIn(base, target, more) && log <= more
    requires t < |target| && b < |base| && Justified(base, target, exact, log, t, b)
    ensures Justified(base, target, exact, more, t, b)
  {
    hide KeyOf, ChildPositions;
    if t !in exact {
      var p, q :| (p, q) in log && t in ChildPositions(target, p) && b in ChildPositions(base, q);
      assert (p, q) in more;
    }
  }

  lemma AdoptSound(base: Doc, target: Doc, exact: Matching, st: Pairing, log: Log, t: nat, b: nat)
    requires SoundPairing(base, target, exact, st, log) && t < |target| && b < |base|
    requires Justified(base, target, exact, log, t, b)
    ensures SoundPairing(base, target, exact, Adopt(base, target, st, t, b), log + {(t, b)})
  {
    hide Justified;
    var more, now := log + {(t, b)}, Adopt(base, target, st, t, b);
    forall x, y | (x, y) in more ensures Justified(base, target, exact, more, x, y) {
      if (x, y) in log {
        MoreJustified(base, target, exact, log, more, x, y);
      } else {
        MoreJustified(base, target, exact, log, more, t, b);
      }
    }
    forall u | u in now.remap
      ensures exists x, y :: (x, y) in more && target[x].id == u && base[y].id == now.remap[u]
    {
      if u == target[t].id && target[t].id != base[b].id {
        assert (t, b) in more;
      } else {
        var x, y :| (x, y) in log && target[x].id == u && base[y].id == st.remap[u];
        assert (x, y) in more;
      }
    }
  }

  /** Growing the exact partners by an element nothing has adopted yet keeps every justification. */
  lemma ExactGrows(base: Doc, target: Doc, exact: Matching, more: Matching, st: Pairing, log: Log)
    requires SoundPairing(base, target, exact, st, log)
    requires forall t, b :: (t, b) in log ==> t in exact
    requires forall t :: t in exact ==> t in more && more[t] == exact[t]
    ensures SoundPairing(base, target, more, st, log)
  {
    hide KeyOf, ChildPositions;
  }

  lemma AdoptKeeps(base: Doc, target: Doc, exact: Matching, st: Pairing, t: nat, b: nat)
    requires forall x :: x in exact ==> x < |target| && exact[x] < |base|
    requires DistinctIds(target) && t < |target| && b < |base| && t !in exact
    requires Adopted(base, target, exact, st.remap)
    ensures Adopted(base, target, exact, Adopt(base, target, st, t, b).remap)
  {
    forall x | x in exact ensures target[x].id != target[t].id {
      assert Ids(target)[x] != Ids(target)[t];
    }
  }

  lemma AdoptExact(base: Doc, target: Doc, exact: Matching, st: Pairing, t: nat, b: nat)
    requires forall x :: x in exact ==> x < t && exact[x] < |base|
    requires DistinctIds(target) && t < |target| && b < |base|
    requires forall u :: u in st.remap ==> exists x :: 0 <= x < t && target[x].id == u
    requires Adopted(base, target, exact, st.remap)
    ensures Adopted(base, target, exact[t := b], Adopt(base, target, st, t, b).remap)
  {
    forall x: nat | x < t ensures target[x].id != target[t].id {
      assert Ids(target)[x] != Ids(target)[t];
    }
    assert target[t].id !in st.remap;
  }

  // ---- aligning the children of one pair -------------------------------------------

  type Queue = seq<(nat, nat)>

  ghost predicate QueueIn(pairs: Queue, n: nat, m: nat) {
    forall i :: 0 <= i < |pairs| ==> pairs[i].0 < n && pairs[i].1 < m
  }

  /** The pairs the alignment of two child lists makes, in order. */
  function AlignPairs(base: Doc, target: Doc, unt: seq<nat>, unb: seq<nat>): (r: Queue)
    requires Within(unt, |target|) && Within(unb, |base|)
    ensures QueueIn(r, |target|, |base|)
    ensures forall p :: p in r ==> p.0 in unt && p.1 in unb
    decreases |unt| + |unb|
  {
    hide KeyOf;
    if unt == [] || unb == [] then []
    else if KeyOf(target, unt[0]) == KeyOf(base, unb[0]) then
      [(unt[0], unb[0])] + AlignPairs(base, target, unt[1..], unb[1..])
    else if |unb| > |unt| then AlignPairs(base, target, unt, unb[1..])
    else if |unt| > |unb| then AlignPairs(base, target, unt[1..], unb)
    else AlignPairs(base, target, unt[1..], unb[1..])
  }

  function InOrder(a: seq<nat>, b: seq<nat>): (r: Queue)
    requires |a| == |b|
    ensures |r| == |a|
  {
    seq(|a|, i requires 0 <= i < |a| => (a[i], b[i]))
  }

  lemma AlignNone(base: Doc, target: Doc, unt: seq<nat>, unb: seq<nat>)
    requires Within(unt, |target|) && Within(unb, |base|) && (unt == [] || unb == [])
    ensures AlignPairs(base, target, unt, unb) == []
  {
    hide KeyOf;
  }

  lemma AlignMatches(base: Doc, target: Doc, unt: seq<nat>, unb: seq<nat>)
    requires Within(unt, |target|) && Within(unb, |base|) && unt != [] && unb != []
    requires KeyOf(target, unt[0]) == KeyOf(base, unb[0])
    ensures
      AlignPairs(base, target, unt, unb)
      == [(unt[0], unb[0])] + AlignPairs(base, target, unt[1..], unb[1..])
  {
    hide KeyOf;
  }

  lemma AlignSkips(base: Doc, target: Doc, unt: seq<nat>, unb: seq<nat>)
    requires Within(unt, |target|) && Within(unb, |base|) && unt != [] && unb != []
    requires KeyOf(target, unt[0]) != KeyOf(base, unb[0])
    ensures |unb| > |unt| ==> AlignPairs(base, target, unt, unb) == AlignPairs(base, target, unt, unb[1..])
    ensures |unt| > |unb| ==> AlignPairs(base, target, unt, unb) == AlignPairs(base, target, unt[1..], unb)
    ensures |unt| == |unb| ==> AlignPairs(base, target, unt, unb) == AlignPairs(base, target, unt[1..], unb[1..])
  {
    hide KeyOf;
  }

  /** One comparison of the alignment. */
  lemma AlignOnce(base: Doc, target: Doc, unt: seq<nat>, unb: seq<nat>)
    requires Within(unt, |target|) && Within(unb, |base|)
    ensures (unt == [] || unb == []) ==> AlignPairs(base, target, unt, unb) == []
    ensures
      unt != [] && unb != [] ==>
        AlignPairs(base, target, unt, unb)
        == if KeyOf(target, unt[0]) == KeyOf(base, unb[0])
           then [(unt[0], unb[0])] + AlignPairs(base, target, unt[1..], unb[1..])
           else if |unb| > |unt| then AlignPairs(base, target, unt, unb[1..])
           else if |unt| > |unb| then AlignPairs(base, target, unt[1..], unb)
           else AlignPairs(base, target, unt[1..], unb[1..])
  {
    hide KeyOf, AlignPairs;
    if unt == [] || unb == [] {
      AlignNone(base, target, unt, unb);
    } else if KeyOf(target, unt[0]) == KeyOf(base, unb[0]) {
      AlignMatches(base, target, unt, unb);
    } else {
      AlignSkips(base, target, unt, unb);
    }
  }

  lemma AlignSame(base: Doc, target: Doc, t: nat, b: nat, unt: seq<nat>, unb: seq<nat>)
    requires Within(unt, |target|) && Within(unb, |base|) && t < |target| && b < |base|
    requires KeyOf(target, t) == KeyOf(base, b)
    ensures AlignPairs(base, target, [t] + unt, [b] + unb) == [(t, b)] + AlignPairs(base, target, unt, unb)
  {
    hide KeyOf, AlignPairs;
    AlignOnce(base, target, [t] + unt, [b] + unb);
    assert ([t] + unt)[1..] == unt && ([b] + unb)[1..] == unb;
  }

  lemma InOrderHead(t: nat, b: nat, a: seq<nat>, c: seq<nat>)
    requires |a| == |c|
    ensures InOrder([t] + a, [b] + c) == [(t, b)] + InOrder(a, c)
  {
  }

  ghost predicate LookAlike(base: Doc, target: Doc, a: seq<nat>, b: seq<nat>)
    requires Within(a, |target|) && Within(b, |base|)
  {
    |a| == |b| && forall i :: 0 <= i < |a| ==> KeyOf(target, a[i]) == KeyOf(base, b[i])
  }

  /** A shifted run of same-shaped siblings pairs wholesale. */
  lemma {:induction false} RunPairs(base: Doc, target: Doc, a: seq<nat>, b: seq<nat>)
    requires Within(a, |target|) && Within(b, |base|) && LookAlike(base, target, a, b)
    ensures AlignPairs(base, target, a, b) == InOrder(a, b)
  {
    hide KeyOf;
    if a != [] {
      RunPairs(base, target, a[1..], b[1..]);
      assert InOrder(a, b) == [(a[0], b[0])] + InOrder(a[1..], b[1..]);
    }
  }

  /** With a surplus base child ahead that looks unlike the next target child, it is skipped. */
  lemma SkipsDeleted(base: Doc, target: Doc, c: seq<nat>, x: nat, d: seq<nat>)
    requires Within(c, |target|) && Within(d, |base|) && x < |base| && LookAlike(base, target, c, d)
    requires c != [] ==> KeyOf(target, c[0]) != KeyOf(base, x)
    ensures AlignPairs(base, target, c, [x] + d) == InOrder(c, d)
  {
    hide KeyOf, AlignPairs;
    AlignOnce(base, target, c, [x] + d);
    assert ([x] + d)[1..] == d;
    RunPairs(base, target, c, d);
    assert c == [] ==> InOrder(c, d) == [];
  }

  lemma SkipsInserted(base: Doc, target: Doc, x: nat, c: seq<nat>, d: seq<nat>)
    requires Within(c, |target|) && Within(d, |base|) && x < |target| && LookAlike(base, target, c, d)
    requires d != [] ==> KeyOf(target, x) != KeyOf(base, d[0])
    ensures AlignPairs(base, target, [x] + c, d) == InOrder(c, d)
  {
    hide KeyOf, AlignPairs;
    AlignOnce(base, target, [x] + c, d);
    assert ([x] + c)[1..] == c;
    RunPairs(base, target, c, d);
    assert d == [] ==> InOrder(c, d) == [];
  }

  /** A run of look-alikes pairs, and the alignment goes on after it. */
  lemma {:induction false} RunThen(base: Doc, target: Doc, a: seq<nat>, b: seq<nat>, c: seq<nat>, d: seq<nat>)
    requires Within(a, |target|) && Within(c, |target|) && Within(b, |base|) && Within(d, |base|)
    requires LookAlike(base, target, a, b)
    ensures Within(a + c, |target|) && Within(b + d, |base|)
    ensures AlignPairs(base, target, a + c, b + d) == InOrder(a, b) + AlignPairs(base, target, c, d)
    decreases |a|
  {
    hide KeyOf, AlignPairs, InOrder;
    if a == [] {
      assert a + c == c && b + d == d;
      assert InOrder(a, b) == [];
    } else {
      RunThen(base, target, a[1..], b[1..], c, d);
      AlignSame(base, target, a[0], b[0], a[1..] + c, b[1..] + d);
      assert a + c == [a[0]] + (a[1..] + c) && b + d == [b[0]] + (b[1..] + d);
      assert a == [a[0]] + a[1..] && b == [b[0]] + b[1..];
      InOrderHead(a[0], b[0], a[1..], b[1..]);
      Assoc([(a[0], b[0])], InOrder(a[1..], b[1..]), AlignPairs(base, target, c, d));
    }
  }

  /**
    One deleted sibling churns no other: where base children `b + [x] + d` became target
    children `a + c`, every survivor pairs with itself, unless `x` itself looks like the next.
   */
  lemma DeletionPairs(base: Doc, target: Doc, a: seq<nat>, c: seq<nat>, b: seq<nat>, x: nat, d: seq<nat>)
    requires Within(a, |target|) && Within(c, |target|) && Within(b, |base|) && Within(d, |base|) && x < |base|
    requires LookAlike(base, target, a, b) && LookAlike(base, target, c, d)
    requires c != [] ==> KeyOf(target, c[0]) != KeyOf(base, x)
    ensures Within(a + c, |target|) && Within(b + ([x] + d), |base|)
    ensures AlignPairs(base, target, a + c, b + ([x] + d)) == InOrder(a, b) + InOrder(c, d)
  {
    hide KeyOf, AlignPairs, InOrder, LookAlike;
    RunThen(base, target, a, b, c, [x] + d);
    SkipsDeleted(base, target, c, x, d);
  }

  /** One inserted sibling churns no other. */
  lemma InsertionPairs(base: Doc, target: Doc, a: seq<nat>, x: nat, c: seq<nat>, b: seq<nat>, d: seq<nat>)
    requires Within(a, |target|) && Within(c, |target|) && Within(b, |base|) && Within(d, |base|) && x < |target|
    requires LookAlike(base, target, a, b) && LookAlike(base, target, c, d)
    requires d != [] ==> KeyOf(target, x) != KeyOf(base, d[0])
    ensures Within(a + ([x] + c), |target|) && Within(b + d, |base|)
    ensures AlignPairs(base, target, a + ([x] + c), b + d) == InOrder(a, b) + InOrder(c, d)
  {
    hide KeyOf, AlignPairs, InOrder, LookAlike;
    RunThen(base, target, a, b, [x] + c, d);
    SkipsInserted(base, target, x, c, d);
  }

  /** One replaced sibling churns no other: neither it nor what replaced it is paired. */
  lemma ReplacementPairs(
      base: Doc, target: Doc, a: seq<nat>, x: nat, c: seq<nat>, b: seq<nat>, y: nat, d: seq<nat>)
    requires Within(a, |target|) && Within(c, |target|) && Within(b, |base|) && Within(d, |base|)
    requires x < |target| && y < |base| && KeyOf(target, x) != KeyOf(base, y)
    requires LookAlike(base, target, a, b) && LookAlike(base, target, c, d)
    ensures Within(a + ([x] + c), |target|) && Within(b + ([y] + d), |base|)
    ensures AlignPairs(base, target, a + ([x] + c), b + ([y] + d)) == InOrder(a, b) + InOrder(c, d)
  {
    hide KeyOf, AlignPairs, InOrder;
    RunThen(base, target, a, b, [x] + c, [y] + d);
    AlignOnce(base, target, [x] + c, [y] + d);
    assert ([x] + c)[1..] == c && ([y] + d)[1..] == d;
    RunPairs(base, target, c, d);
  }

  function AdoptAll(base: Doc, target: Doc, st: Pairing, pairs: Queue): Pairing
    requires QueueIn(pairs, |target|, |base|)
    decreases |pairs|
  {
    if pairs == [] then st
    else AdoptAll(base, target, Adopt(base, target, st, pairs[0].0, pairs[0].1), pairs[1..])
  }

  lemma AdoptHead(base: Doc, target: Doc, st: Pairing, t: nat, b: nat, rest: Queue)
    requires QueueIn(rest, |target|, |base|) && t < |target| && b < |base|
    ensures QueueIn([(t, b)] + rest, |target|, |base|)
    ensures
      AdoptAll(base, target, st, [(t, b)] + rest) == AdoptAll(base, target, Adopt(base, target, st, t, b), rest)
  {
    hide Adopt;
    assert ([(t, b)] + rest)[1..] == rest;
  }

  /** The children of a pair, those already taken left out. */
  function Unpaired(doc: Doc, i: nat, taken: set<nat>): (r: seq<nat>)
    requires i < |doc|
    ensures Within(r, |doc|) && forall k :: k in r ==> k in ChildPositions(doc, i) && k !in taken
  {
    var r := Pick(ChildPositions(doc, i), taken, false);
    assert forall k :: 0 <= k < |r| ==> r[k] in r && r[k] in ChildPositions(doc, i);
    r
  }

  function PairsOf(base: Doc, target: Doc, st: Pairing, t: nat, b: nat): (r: Queue)
    requires t < |target| && b < |base|
    ensures QueueIn(r, |target|, |base|)
  {
    AlignPairs(base, target, Unpaired(target, t, st.elems.Keys), Unpaired(base, b, st.used))
  }

  /** Taking up the pairs `trace` in order. */
  function RunAlign(base: Doc, target: Doc, st: Pairing, trace: Queue): Pairing
    requires QueueIn(trace, |target|, |base|)
    decreases |trace|
  {
    if trace == [] then st
    else
      var n := |trace| - 1;
      var before := RunAlign(base, target, st, trace[..n]);
      AdoptAll(base, target, before, PairsOf(base, target, before, trace[n].0, trace[n].1))
  }

  lemma RunAlignStep(base: Doc, target: Doc, st: Pairing, trace: Queue, t: nat, b: nat)
    requires QueueIn(trace, |target|, |base|) && t < |target| && b < |base|
    ensures QueueIn(trace + [(t, b)], |target|, |base|)
    ensures
      var before := RunAlign(base, target, st, trace);
      RunAlign(base, target, st, trace + [(t, b)])
      == AdoptAll(base, target, before, PairsOf(base, target, before, t, b))
  {
    hide AdoptAll, PairsOf;
    assert (trace + [(t, b)])[..|trace|] == trace;
  }

  /** The pairs of a map. */
  function PairsIn(pairs: Matching): Log {
    set t | t in pairs :: (t, pairs[t])
  }

  /** The pairs adopted once the pairs `trace` are taken up in order, `had` being adopted before. */
  function Logged(base: Doc, target: Doc, st: Pairing, had: Log, trace: Queue): Log
    requires QueueIn(trace, |target|, |base|)
    decreases |trace|
  {
    if trace == [] then had
    else
      var n := |trace| - 1;
      var before := RunAlign(base, target, st, trace[..n]);
      Logged(base, target, st, had, trace[..n]) + Elems(PairsOf(base, target, before, trace[n].0, trace[n].1))
  }

  lemma LoggedStep(base: Doc, target: Doc, st: Pairing, had: Log, trace: Queue, t: nat, b: nat)
    requires QueueIn(trace, |target|, |base|) && t < |target| && b < |base|
    ensures QueueIn(trace + [(t, b)], |target|, |base|)
    ensures
      Logged(base, target, st, had, trace + [(t, b)])
      == Logged(base, target, st, had, trace) + Elems(PairsOf(base, target, RunAlign(base, target, st, trace), t, b))
  {
    hide RunAlign, PairsOf, Elems;
    assert (trace + [(t, b)])[..|trace|] == trace;
  }

  /** Each pair is taken up after it was adopted. */
  ghost predicate Timely(base: Doc, target: Doc, st: Pairing, had: Log, trace: Queue)
    requires QueueIn(trace, |target|, |base|)
  {
    forall k :: 0 <= k < |trace| ==> trace[k] in Logged(base, target, st, had, trace[..k])
  }

  lemma TimelyStep(base: Doc, target: Doc, st: Pairing, had: Log, trace: Queue, t: nat, b: nat)
    requires QueueIn(trace, |target|, |base|) && Timely(base, target, st, had, trace)
    requires t < |target| && b < |base| && (t, b) in Logged(base, target, st, had, trace)
    ensures QueueIn(trace + [(t, b)], |target|, |base|) && Timely(base, target, st, had, trace + [(t, b)])
  {
    hide Logged;
    var more := trace + [(t, b)];
    forall k | 0 <= k < |more| ensures more[k] in Logged(base, target, st, had, more[..k]) {
      if k < |trace| {
        assert more[..k] == trace[..k];
      } else {
        assert more[..k] == trace;
      }
    }
  }
}
