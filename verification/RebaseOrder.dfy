/**
  Where two owners share a child that no path matches, what a rebase captures is not settled by
  its inputs: two orders of the worklist are whole runs, and one of them adopts an identity
  the other does not. The paths are those of the owner chain.
 */
module RebaseOrder {
  import opened Wrappers
  import opened Seqs
  import opened Cbor
  import opened Model
  import opened CanonDoc
  import opened Rebase
  import opened RebasePairs
  import opened RebaseLoops

  // ---- paths along the owner chain -------------------------------------------------

  predicate IsMembership(ty: string) {
    |ty| >= 10 && ty[|ty| - 10..] == "Membership"
  }

  function Rels(doc: Doc, i: nat): seq<nat> {
    if i < |doc| then ListAt(doc, i, OwnedRelationship) else []
  }

  function Kids(doc: Doc, i: nat): seq<nat> {
    if i < |doc| then ListAt(doc, i, OwnedRelatedElement) else []
  }

  /** The declared name of the one member of a membership. */
  function MemberName(doc: Doc, rel: nat): Option<Text> {
    if rel < |doc| && IsMembership(doc[rel].ty) && |Kids(doc, rel)| == 1 && Kids(doc, rel)[0] < |doc|
    then TextOf(doc[Kids(doc, rel)[0]], DECLARED_NAMES)
    else None
  }

  /** A positional segment: a letter and an ordinal of one digit. */
  function Label(letter: byte, ordinal: nat): Text
    requires ordinal < 10
  {
    [letter, 48 + ordinal]
  }

  /** The segment `seg` leads from `p` to `c`, which `p` owns or, of a named member, is the membership. */
  ghost predicate Segment(doc: Doc, p: nat, c: nat, seg: Text) {
    || (exists n :: 0 <= n < |Rels(doc, p)| && n < 10 && Rels(doc, p)[n] == c
                    && MemberName(doc, c).None? && seg == Label(114, n))
    || (exists n :: 0 <= n < |Rels(doc, p)| && MemberName(doc, Rels(doc, p)[n]).Some?
                    && Kids(doc, Rels(doc, p)[n]) == [c] && seg == [58, 58] + MemberName(doc, Rels(doc, p)[n]).value)
    || (MemberName(doc, c).Some? && Kids(doc, c) == [p] && seg == [109])
    || (exists n :: 0 <= n < |Kids(doc, p)| && n < 10 && Kids(doc, p)[n] == c
                    && MemberName(doc, p).None? && seg == Label(101, n))
  }

  function Extended(path: Path, seg: Text): Path {
    Path(path.root, if path.chain == [] then seg else path.chain + [47] + seg)
  }

  ghost predicate HasOwner(doc: Doc, c: nat) {
    exists p :: 0 <= p < |doc| && c in ChildPositions(doc, p)
  }

  /** Roots have the empty path, and what is owned extends the path of an owner of its. */
  ghost predicate FollowsOwners(doc: Doc, paths: Paths) {
    && |paths| == |doc|
    && forall c :: 0 <= c < |doc| ==>
         if !HasOwner(doc, c) then paths[c] == Some(Path(c, []))
         else exists p, seg ::
           && 0 <= p < |doc| && Segment(doc, p, c, seg)
           && paths[p].Some? && paths[c] == Some(Extended(paths[p].value, seg))
  }

  // ---- the two documents -----------------------------------------------------------

  function Owning(id: Uuid, rels: seq<Value>): Element {
    Element(id, "Namespace", map[OwnedRelationship := Arr(rels)])
  }

  /** Two owners of one annotation each. */
  const BASE: Doc :=
    [Owning(10, [Ref(12)]), Owning(11, [Ref(13)]), Element(12, "Annotation", map[]), Element(13, "Annotation", map[])]

  /** Two owners that share theirs, which refers outside; the first lists a named member before it. */
  const TARGET: Doc :=
    [Owning(20, [Ref(24), Ref(22)]), Owning(21, [Ref(22)]),
     Element(22, "Annotation", map[Named("type") := Ref(12)]),
     Element(24, "OwningMembership", map[OwnedRelatedElement := Arr([Ref(25)])]),
     Element(25, "Package", map[Named("declaredName") := Str([97])])]

  const BASE_PATHS: Paths :=
    [Some(Path(0, [])), Some(Path(1, [])), Some(Path(0, [114, 48])), Some(Path(1, [114, 48]))]

  const TARGET_PATHS: Paths :=
    [Some(Path(0, [])), Some(Path(1, [])), Some(Path(0, [114, 49])), Some(Path(0, [58, 58, 97, 47, 109])),
     Some(Path(0, [58, 58, 97]))]

  lemma IdsAre()
    ensures Ids(BASE) == [10, 11, 12, 13] && Ids(TARGET) == [20, 21, 22, 24, 25]
    ensures NoDup(Ids(BASE)) && NoDup(Ids(TARGET))
  {
  }

  lemma {:induction false} LastIs(ids: seq<Uuid>, i: nat)
    requires NoDup(ids) && i < |ids|
    ensures LastAt(ids, ids[i]) == Some(i)
  {
  }

  lemma {:induction false} RefsAre(us: seq<Uuid>)
    ensures RefIds(seq(|us|, k requires 0 <= k < |us| => Ref(us[k]))) == us
  {
    var items := seq(|us|, k requires 0 <= k < |us| => Ref(us[k]));
    if us != [] {
      RefsAre(us[1..]);
      assert items[1..] == seq(|us[1..]|, k requires 0 <= k < |us[1..]| => Ref(us[1..][k]));
    }
  }

  lemma {:induction false} FoundAre(ids: seq<Uuid>, us: seq<Uuid>, at: seq<nat>)
    requires NoDup(ids) && |at| == |us| && forall k :: 0 <= k < |at| ==> at[k] < |ids| && us[k] == ids[at[k]]
    ensures Found(ids, us) == at
  {
    hide LastAt, NoDup;
    if us != [] {
      LastIs(ids, at[0]);
      FoundAre(ids, us[1..], at[1..]);
    }
  }

  /** A list of references to elements of the document, by their positions. */
  lemma ListOf(doc: Doc, i: nat, key: Prop, us: seq<Uuid>, at: seq<nat>)
    requires i < |doc| && NoDup(Ids(doc)) && key in doc[i].props && doc[i].props[key].Arr?
    requires doc[i].props[key].items == seq(|us|, k requires 0 <= k < |us| => Ref(us[k]))
    requires |at| == |us| && forall k :: 0 <= k < |at| ==> at[k] < |doc| && us[k] == doc[at[k]].id
    ensures ListAt(doc, i, key) == at
  {
    hide Found, RefIds, NoDup;
    RefsAre(us);
    FoundAre(Ids(doc), us, at);
  }

  lemma NoList(doc: Doc, i: nat, key: Prop)
    requires i < |doc| && key !in doc[i].props
    ensures ListAt(doc, i, key) == []
  {
  }

  lemma BaseLists()
    ensures Rels(BASE, 0) == [2] && Rels(BASE, 1) == [3] && Rels(BASE, 2) == Rels(BASE, 3) == []
    ensures Kids(BASE, 0) == Kids(BASE, 1) == Kids(BASE, 2) == Kids(BASE, 3) == []
  {
    hide ListAt, NoDup;
    IdsAre();
    ListOf(BASE, 0, OwnedRelationship, [12], [2]);
    ListOf(BASE, 1, OwnedRelationship, [13], [3]);
    NoList(BASE, 2, OwnedRelationship);
    NoList(BASE, 3, OwnedRelationship);
    forall i | 0 <= i < 4 ensures Kids(BASE, i) == [] {
      NoList(BASE, i, OwnedRelatedElement);
    }
  }

  lemma TargetLists()
    ensures Rels(TARGET, 0) == [3, 2] && Rels(TARGET, 1) == [2]
    ensures Rels(TARGET, 2) == Rels(TARGET, 3) == Rels(TARGET, 4) == []
    ensures Kids(TARGET, 0) == Kids(TARGET, 1) == Kids(TARGET, 2) == Kids(TARGET, 4) == [] && Kids(TARGET, 3) == [4]
  {
    hide ListAt, NoDup;
    IdsAre();
    ListOf(TARGET, 0, OwnedRelationship, [24, 22], [3, 2]);
    ListOf(TARGET, 1, OwnedRelationship, [22], [2]);
    ListOf(TARGET, 3, OwnedRelatedElement, [25], [4]);
    forall i | 2 <= i < 5 ensures Rels(TARGET, i) == [] {
      NoList(TARGET, i, OwnedRelationship);
    }
    forall i | 0 <= i < 5 && i != 3 ensures Kids(TARGET, i) == [] {
      NoList(TARGET, i, OwnedRelatedElement);
    }
  }

  lemma ListsMakeChildren(doc: Doc, i: nat)
    requires i < |doc|
    ensures ChildPositions(doc, i) == Rels(doc, i) + Kids(doc, i)
  {
  }

  lemma ChildrenAre()
    ensures ChildPositions(BASE, 0) == [2] && ChildPositions(BASE, 1) == [3]
    ensures ChildPositions(BASE, 2) == ChildPositions(BASE, 3) == []
    ensures ChildPositions(TARGET, 0) == [3, 2] && ChildPositions(TARGET, 1) == [2] && ChildPositions(TARGET, 2) == []
    ensures ChildPositions(TARGET, 3) == [4] && ChildPositions(TARGET, 4) == []
  {
    hide ChildPositions, Rels, Kids;
    BaseLists();
    TargetLists();
    forall i | 0 <= i < 4 ensures ChildPositions(BASE, i) == Rels(BASE, i) + Kids(BASE, i) {
      ListsMakeChildren(BASE, i);
    }
    forall i | 0 <= i < 5 ensures ChildPositions(TARGET, i) == Rels(TARGET, i) + Kids(TARGET, i) {
      ListsMakeChildren(TARGET, i);
    }
  }

  lemma Membership()
    ensures IsMembership("OwningMembership") && !IsMembership("Annotation") && !IsMembership("Namespace")
    ensures !IsMembership("Package")
  {
    assert "OwningMembership"[6..] == "Membership";
    assert "Annotation"[0] != "Membership"[0];
  }

  lemma NamesAre()
    ensures forall c :: 0 <= c < 4 ==> MemberName(BASE, c) == None
    ensures forall c :: 0 <= c < 5 && c != 3 ==> MemberName(TARGET, c) == None
    ensures MemberName(TARGET, 3) == Some([97])
  {
    hide MemberName;
    Membership();
    forall c | 0 <= c < 4 ensures MemberName(BASE, c) == None {
      NoMember(BASE, c);
    }
    forall c | 0 <= c < 5 && c != 3 ensures MemberName(TARGET, c) == None {
      NoMember(TARGET, c);
    }
    OneNamed();
  }

  lemma NoMember(doc: Doc, c: nat)
    requires c < |doc| && !IsMembership(doc[c].ty)
    ensures MemberName(doc, c) == None
  {
  }

  lemma OneNamed()
    ensures MemberName(TARGET, 3) == Some([97])
  {
    hide Kids;
    Membership();
    TargetLists();
    assert DECLARED_NAMES[0] == Named("declaredName");
  }

  /** An unnamed relationship takes its ordinal. */
  lemma ByOrdinal(doc: Doc, p: nat, n: nat)
    requires n < |Rels(doc, p)| && n < 10 && MemberName(doc, Rels(doc, p)[n]).None?
    ensures Segment(doc, p, Rels(doc, p)[n], Label(114, n))
  {
    hide Rels, Kids, MemberName;
  }

  /** A named member takes its name, past its membership, and the membership hangs off the member. */
  lemma ByName(doc: Doc, p: nat, n: nat, c: nat)
    requires n < |Rels(doc, p)| && MemberName(doc, Rels(doc, p)[n]).Some? && Kids(doc, Rels(doc, p)[n]) == [c]
    ensures Segment(doc, p, c, [58, 58] + MemberName(doc, Rels(doc, p)[n]).value)
    ensures Segment(doc, c, Rels(doc, p)[n], [109])
  {
    hide Rels, Kids, MemberName;
  }

  /** One owned element's path. */
  lemma PathFrom(doc: Doc, paths: Paths, p: nat, c: nat, seg: Text)
    requires p < |doc| == |paths| && c < |doc| && Segment(doc, p, c, seg) && HasOwner(doc, c)
    requires paths[p].Some? && paths[c] == Some(Extended(paths[p].value, seg))
    ensures
      exists q, s ::
        0 <= q < |doc| && Segment(doc, q, c, s) && paths[q].Some? && paths[c] == Some(Extended(paths[q].value, s))
  {
    hide Segment, HasOwner;
  }

  lemma OwnedAre()
    ensures !HasOwner(BASE, 0) && !HasOwner(BASE, 1) && HasOwner(BASE, 2) && HasOwner(BASE, 3)
    ensures !HasOwner(TARGET, 0) && !HasOwner(TARGET, 1)
    ensures HasOwner(TARGET, 2) && HasOwner(TARGET, 3) && HasOwner(TARGET, 4)
  {
    hide ChildPositions;
    ChildrenAre();
    assert 2 in ChildPositions(BASE, 0) && 3 in ChildPositions(BASE, 1);
    assert 2 in ChildPositions(TARGET, 1) && 3 in ChildPositions(TARGET, 0) && 4 in ChildPositions(TARGET, 3);
  }

  lemma BaseFollows()
    ensures FollowsOwners(BASE, BASE_PATHS)
  {
    hide HasOwner, Rels, Kids, MemberName, Segment;
    OwnedAre();
    BaseLists();
    NamesAre();
    ByOrdinal(BASE, 0, 0);
    ByOrdinal(BASE, 1, 0);
    PathFrom(BASE, BASE_PATHS, 0, 2, Label(114, 0));
    PathFrom(BASE, BASE_PATHS, 1, 3, Label(114, 0));
  }

  lemma TargetFollows()
    ensures FollowsOwners(TARGET, TARGET_PATHS)
  {
    hide HasOwner, Rels, Kids, MemberName, Segment;
    OwnedAre();
    TargetLists();
    NamesAre();
    ByOrdinal(TARGET, 0, 1);
    ByName(TARGET, 0, 0, 4);
    assert [58, 58] + [97] == [58, 58, 97] && [58, 58, 97] + [47] + [109] == [58, 58, 97, 47, 109];
    PathFrom(TARGET, TARGET_PATHS, 0, 2, Label(114, 1));
    PathFrom(TARGET, TARGET_PATHS, 0, 4, [58, 58] + [97]);
    PathFrom(TARGET, TARGET_PATHS, 4, 3, [109]);
  }

  // ---- the exact pass --------------------------------------------------------------

  /** The program's derivation, as far as it is used: it gives the two documents these paths. */
  ghost predicate Derives(segments: Segments) {
    FitsDocs(segments) && segments(BASE) == Ok(BASE_PATHS) && segments(TARGET) == Ok(TARGET_PATHS)
  }

  /** There is such a derivation. */
  function Given(doc: Doc): Result<Paths> {
    if doc == BASE then Ok(BASE_PATHS) else if doc == TARGET then Ok(TARGET_PATHS) else Err(Malformed)
  }

  lemma GivenDerives()
    ensures Derives(Given)
  {
    assert |BASE| != |TARGET|;
  }

  lemma RootsAre()
    ensures RootsFrom(BASE_PATHS, 0) == [0, 1] && RootsFrom(TARGET_PATHS, 0) == [0, 1]
  {
    assert RootsFrom(BASE_PATHS, 4) == RootsFrom(BASE_PATHS, 3) == RootsFrom(BASE_PATHS, 2) == [];
    assert RootsFrom(TARGET_PATHS, 5) == RootsFrom(TARGET_PATHS, 4) == RootsFrom(TARGET_PATHS, 3) == [];
    assert RootsFrom(TARGET_PATHS, 2) == [];
    assert RootsFrom(BASE_PATHS, 1) == [1] && RootsFrom(TARGET_PATHS, 1) == [1];
    assert [0] + [1] == [0, 1];
  }

  lemma Unnamed(e: Element, keys: seq<Prop>)
    requires forall i :: 0 <= i < |keys| ==> keys[i] !in e.props || !e.props[keys[i]].Str?
    ensures TextOf(e, keys) == None
  {
  }

  /** No base root is named: its one member is an annotation without a name. */
  lemma NoRootName(b: nat)
    requires b < 2
    ensures RootName(BASE, b) == None
  {
    hide ListAt;
    BaseLists();
    Unnamed(BASE[2 + b], MEMBER_NAMES);
    assert FirstDeclared(BASE, []) == None && FirstMember(BASE, []) == None;
    assert [2 + b][1..] == [];
  }

  /** So no name pairs roots. */
  lemma NoneKeyed()
    ensures KeyPairs(BASE, [0, 1], TARGET, [0, 1]) == map[]
  {
    hide RootName;
    NoRootName(0);
    NoRootName(1);
    forall name ensures NamedRoots(BASE, [0, 1], name) == [] {
      assert [0, 1][1..] == [1] && [1][1..] == [];
      assert NamedRoots(BASE, [1], name) == [];
    }
  }

  lemma RestPaired()
    ensures Pick<nat>([0, 1], {}, false) == [0, 1] && RestPairs(map[], [0, 1], [0, 1]) == map[0 := 0, 1 := 1]
  {
    assert [0, 1][1..] == [1] && [1][1..] == [] && [0] + [1] == [0, 1];
    assert Pick<nat>([1], {}, false) == [1];
    assert RestPairs(map[0 := 0], [1], [1]) == map[0 := 0, 1 := 1];
  }

  lemma RootsPair()
    ensures RootPairs(BASE, BASE_PATHS, TARGET, TARGET_PATHS) == map[0 := 0, 1 := 1]
  {
    hide RootsFrom, RestPairs, Pick, KeyPairs;
    RootsAre();
    NoneKeyed();
    RestPaired();
    var none: Matching := map[];
    assert none.Values == {};
  }

  lemma LastPath(i: nat)
    requires i < 2
    ensures LastAt(BASE_PATHS, Some(Path(i, []))) == Some(i)
  {
    var paths := BASE_PATHS;
    assert paths[..3] == [Some(Path(0, [])), Some(Path(1, [])), Some(Path(0, [114, 48]))];
    assert paths[..3][..2] == [Some(Path(0, [])), Some(Path(1, []))];
    assert paths[..3][..2][..1] == [Some(Path(0, []))];
  }

  /** The base has no element at the path of the shared annotation, nor at those of the named member. */
  lemma Unmatched(t: nat)
    requires 2 <= t < 5
    ensures Partner(map[0 := 0, 1 := 1], BASE_PATHS, TARGET_PATHS, t) == None
  {
    assert |[114, 48]| == 2 && [114, 48][1] != [114, 49][1];
    assert |TARGET_PATHS[3].value.chain| == 5 && |TARGET_PATHS[4].value.chain| == 3;
    assert Some(Path(0, TARGET_PATHS[t].value.chain)) !in BASE_PATHS;
  }

  lemma ExactAre(segments: Segments)
    requires Derives(segments)
    ensures ExactOf(segments, BASE, TARGET) == map[0 := 0, 1 := 1]
  {
    hide RootPairs, Partner;
    RootsPair();
    Matched(0);
    Matched(1);
    Unmatched(2);
    Unmatched(3);
    Unmatched(4);
    var pair: Matching := map[0 := 0, 1 := 1];
    assert Exact(pair, BASE_PATHS, TARGET_PATHS, 5) == pair;
  }

  lemma Matched(t: nat)
    requires t < 2
    ensures Partner(map[0 := 0, 1 := 1], BASE_PATHS, TARGET_PATHS, t) == Some(t)
  {
    LastPath(t);
  }

  /** After the exact pass; and at the end, the owners `p` on both sides taken up first, newest pair next. */
  const ROOTED: Pairing := Pairing(map[0 := 0, 1 := 1], {0, 1}, map[20 := 10, 21 := 11])

  function Ending(p: nat): Pairing
    requires p < 2
  {
    Pairing(map[0 := 0, 1 := 1, 2 := 2 + p], {0, 1, 2 + p}, map[20 := 10, 21 := 11, 22 := 12 + p])
  }

  function Taking(p: nat): Queue
    requires p < 2
  {
    [(p, p), (2, 2 + p), (1 - p, 1 - p)]
  }

  lemma {:induction false} NoMore(base: Doc, target: Doc, exact: Matching, n: nat, upto: nat)
    requires forall t :: t in exact ==> t < n && t < |target| && exact[t] < |base|
    requires n <= upto <= |target|
    ensures ExactState(base, target, exact, upto) == ExactState(base, target, exact, n)
    decreases upto
  {
    if n < upto {
      NoMore(base, target, exact, n, upto - 1);
    }
  }

  lemma RootedState()
    ensures ExactState(BASE, TARGET, map[0 := 0, 1 := 1], 5) == ROOTED
  {
    var exact: Matching := map[0 := 0, 1 := 1];
    NoMore(BASE, TARGET, exact, 2, 5);
    assert ExactState(BASE, TARGET, exact, 0) == UNPAIRED;
    assert ExactState(BASE, TARGET, exact, 1) == Pairing(map[0 := 0], {0}, map[20 := 10]);
    assert ExactState(BASE, TARGET, exact, 2) == ROOTED;
  }

  // ---- the worklist ----------------------------------------------------------------

  lemma NoText(e: Element)
    requires forall key :: key in DECLARED_NAMES + MEMBER_NAMES ==> key !in e.props
    ensures ElementName(e) == None
  {
    forall i | 0 <= i < |DECLARED_NAMES + MEMBER_NAMES| ensures (DECLARED_NAMES + MEMBER_NAMES)[i] !in e.props {
      assert (DECLARED_NAMES + MEMBER_NAMES)[i] in DECLARED_NAMES + MEMBER_NAMES;
    }
    Unnamed(e, DECLARED_NAMES + MEMBER_NAMES);
  }

  /** The three annotations look alike, and unlike the membership. */
  lemma KeysAre(p: nat)
    requires p < 2
    ensures KeyOf(TARGET, 2) == KeyOf(BASE, 2 + p) && KeyOf(TARGET, 3) != KeyOf(BASE, 2)
  {
    hide ListAt, ElementName;
    TargetLists();
    BaseLists();
    NoText(TARGET[2]);
    NoText(BASE[2 + p]);
    assert TARGET[3].ty[0] != BASE[2].ty[0];
  }

  lemma PickFew(a: nat, b: nat, xs: set<nat>)
    ensures Pick([a], xs, false) == if a in xs then [] else [a]
    ensures a !in xs && b !in xs ==> Pick([a, b], xs, false) == [a, b]
    ensures a !in xs && b in xs ==> Pick([a, b], xs, false) == [a]
  {
    assert [a][1..] == [] && [a, b][1..] == [b] && [b][1..] == [];
    assert [a] + [b] == [a, b] && [a] + [] == [a];
  }

  /** Aligning lists of one child each. */
  lemma AlignsOne(t: nat, b: nat)
    requires t < 5 && b < 4
    ensures
      AlignPairs(BASE, TARGET, [t], [b]) == if KeyOf(TARGET, t) == KeyOf(BASE, b) then [(t, b)] else []
  {
    hide KeyOf, AlignPairs;
    AlignOnce(BASE, TARGET, [t], [b]);
    AlignNone(BASE, TARGET, [], []);
    assert [t][1..] == [] && [b][1..] == [];
    var pairs: Queue := [(t, b)];
    assert pairs + [] == pairs;
  }

  /** The first owner skips its named member. */
  lemma AlignsTwo()
    ensures AlignPairs(BASE, TARGET, [3, 2], [2]) == [(2, 2)]
  {
    hide KeyOf, AlignPairs;
    KeysAre(0);
    AlignOnce(BASE, TARGET, [3, 2], [2]);
    AlignsOne(2, 2);
    assert [3, 2][1..] == [2];
  }

  lemma KeysTaken(p: nat)
    requires p < 2
    ensures ROOTED.elems.Keys == {0, 1} == ROOTED.used
    ensures Ending(p).elems.Keys == {0, 1, 2} && Ending(p).used == {0, 1, 2 + p}
  {
  }

  lemma FirstOwners(p: nat)
    requires p < 2
    ensures PairsOf(BASE, TARGET, ROOTED, p, p) == [(2, 2 + p)]
  {
    hide ChildPositions, AlignPairs, KeyOf, Pick;
    ChildrenAre();
    KeysTaken(p);
    PickFew(3, 2, {0, 1});
    PickFew(2, 2, {0, 1});
    AlignsTwo();
    KeysAre(1);
    AlignsOne(2, 3);
  }

  lemma OtherOwners(p: nat)
    requires p < 2
    ensures PairsOf(BASE, TARGET, Ending(p), 1 - p, 1 - p) == []
  {
    hide ChildPositions, AlignPairs, KeyOf, Pick;
    ChildrenAre();
    KeysTaken(p);
    PickFew(3, 2, {0, 1, 2});
    PickFew(2, 2, {0, 1, 2});
    PickFew(2, 2, {0, 1, 3});
    PickFew(3, 2, {0, 1, 2});
    KeysAre(0);
    AlignsOne(3, 2);
    AlignNone(BASE, TARGET, [], [3]);
  }

  /** The owners taken up first pair the annotations. */
  lemma TakesFirst(p: nat)
    requires p < 2
    ensures PairsOf(BASE, TARGET, ROOTED, p, p) == [(2, 2 + p)]
    ensures AdoptAll(BASE, TARGET, ROOTED, [(2, 2 + p)]) == Ending(p)
  {
    hide PairsOf;
    FirstOwners(p);
    var pairs: Queue := [(2, 2 + p)];
    assert pairs[1..] == [];
    assert Adopt(BASE, TARGET, ROOTED, 2, 2 + p) == Ending(p);
  }

  /** Nothing is left for the other owners, and the annotations own nothing. */
  lemma TakesNoMore(p: nat)
    requires p < 2
    ensures PairsOf(BASE, TARGET, Ending(p), 1 - p, 1 - p) == [] && PairsOf(BASE, TARGET, Ending(p), 2, 2 + p) == []
    ensures AdoptAll(BASE, TARGET, Ending(p), []) == Ending(p)
  {
    hide ChildPositions, AlignPairs;
    OtherOwners(p);
    ChildrenAre();
    PickEmpty(Ending(p).elems.Keys, false);
    AlignNone(BASE, TARGET, [], Unpaired(BASE, 2 + p, Ending(p).used));
  }

  lemma RunIs(p: nat)
    requires p < 2
    ensures QueueIn(Taking(p), 5, 4) && RunAlign(BASE, TARGET, ROOTED, Taking(p)) == Ending(p)
    ensures Timely(BASE, TARGET, ROOTED, PairsIn(ROOTED.elems), Taking(p))
    ensures Logged(BASE, TARGET, ROOTED, PairsIn(ROOTED.elems), Taking(p)) == Elems(Taking(p))
  {
    hide PairsOf, AdoptAll, RunAlign, Logged, Timely, PairsIn, Elems, Ending;
    var had, first, second := PairsIn(ROOTED.elems), [(p, p)], [(p, p), (2, 2 + p)];
    TakesFirst(p);
    TakesNoMore(p);
    RunNothing(ROOTED, had);
    MatchesAre();
    PairsAre(p);
    assert [] + [(p, p)] == first && first + [(2, 2 + p)] == second && second + [(1 - p, 1 - p)] == Taking(p);
    Took(ROOTED, had, [], p, p);
    Took(ROOTED, had, first, 2, 2 + p);
    Took(ROOTED, had, second, 1 - p, 1 - p);
  }

  /** Taking up one more pair, on all counts. */
  lemma Took(st: Pairing, had: Log, trace: Queue, t: nat, b: nat)
    requires QueueIn(trace, 5, 4) && Timely(BASE, TARGET, st, had, trace) && t < 5 && b < 4
    requires (t, b) in Logged(BASE, TARGET, st, had, trace)
    ensures QueueIn(trace + [(t, b)], 5, 4) && Timely(BASE, TARGET, st, had, trace + [(t, b)])
    ensures
      var before := RunAlign(BASE, TARGET, st, trace);
      var pairs := PairsOf(BASE, TARGET, before, t, b);
      && RunAlign(BASE, TARGET, st, trace + [(t, b)]) == AdoptAll(BASE, TARGET, before, pairs)
      && Logged(BASE, TARGET, st, had, trace + [(t, b)]) == Logged(BASE, TARGET, st, had, trace) + Elems(pairs)
  {
    hide PairsOf, AdoptAll, RunAlign, Logged, Timely, Elems;
    RunAlignStep(BASE, TARGET, st, trace, t, b);
    LoggedStep(BASE, TARGET, st, had, trace, t, b);
    TimelyStep(BASE, TARGET, st, had, trace, t, b);
  }

  lemma RunNothing(st: Pairing, had: Log)
    ensures QueueIn([], 5, 4) && RunAlign(BASE, TARGET, st, []) == st && Timely(BASE, TARGET, st, had, [])
    ensures Logged(BASE, TARGET, st, had, []) == had
  {
  }

  lemma MatchesAre()
    ensures PairsIn(ROOTED.elems) == {(0, 0), (1, 1)}
  {
    var pairs := ROOTED.elems;
    assert 0 in pairs && 1 in pairs;
  }

  lemma PairsAre(p: nat)
    requires p < 2
    ensures Elems<(nat, nat)>([]) == {} && Elems<(nat, nat)>([(2, 2 + p)]) == {(2, 2 + p)}
    ensures Elems(Taking(p)) == {(0, 0), (1, 1), (2, 2 + p)}
  {
    var trace, one: Queue := Taking(p), [(2, 2 + p)];
    assert trace[0] == (p, p) && trace[1] == (2, 2 + p) && trace[2] == (1 - p, 1 - p) && one[0] == (2, 2 + p);
  }

  ghost predicate LogOf(log: Log, p: nat)
    requires p < 2
  {
    forall q :: q in log <==> q == (0, 0) || q == (1, 1) || q == (2, 2 + p)
  }

  lemma AllJustified(log: Log, p: nat)
    requires p < 2 && LogOf(log, p)
    ensures LogIn(BASE, TARGET, log)
    ensures forall t, b :: (t, b) in log ==> Justified(BASE, TARGET, map[0 := 0, 1 := 1], log, t, b)
  {
    hide KeyOf, ChildPositions, Justified;
    JustifiedExact(BASE, TARGET, map[0 := 0, 1 := 1], log, 0, 0);
    JustifiedExact(BASE, TARGET, map[0 := 0, 1 := 1], log, 1, 1);
    LeafJustified(log, p);
  }

  lemma LeafJustified(log: Log, p: nat)
    requires p < 2 && LogIn(BASE, TARGET, log) && (p, p) in log
    ensures Justified(BASE, TARGET, map[0 := 0, 1 := 1], log, 2, 2 + p)
  {
    hide KeyOf, ChildPositions;
    ChildrenAre();
    KeysAre(p);
    assert [3, 2][1] == 2;
  }

  lemma SoundIs(p: nat)
    requires p < 2
    ensures SoundPairing(BASE, TARGET, map[0 := 0, 1 := 1], Ending(p), Elems(Taking(p))) && NoDup(Taking(p))
  {
    hide Justified, Elems, Taking;
    PairsAre(p);
    AllJustified(Elems(Taking(p)), p);
    TakingOnce(p);
  }

  lemma TakingOnce(p: nat)
    requires p < 2
    ensures NoDup(Taking(p))
  {
  }

  lemma OutIs(p: nat)
    requires p < 2
    ensures
      var out := PatchDoc(Ending(p).remap, TARGET);
      Ids(out) == [10, 11, 12 + p, 24, 25] && DistinctIds(out)
    ensures Adopted(BASE, TARGET, map[0 := 0, 1 := 1], Ending(p).remap)
  {
    hide PatchProp;
    assert Ids(PatchDoc(Ending(p).remap, TARGET)) == [10, 11, 12 + p, 24, 25];
  }

  /** Each of the two orders is a whole run. */
  lemma BothRun(segments: Segments, p: nat)
    requires Derives(segments) && p < 2
    ensures Rebased(segments, BASE, TARGET, Ending(p), Taking(p), PatchDoc(Ending(p).remap, TARGET))
  {
    hide PatchDoc, ExactOf, ExactState, RunAlign, SoundPairing, NoDup, Elems, DistinctIds, FitsDocs, Adopted, Ending,
      Taking, Timely, Logged, PairsIn, BASE, TARGET;
    DocSizes();
    ExactAre(segments);
    RootedState();
    RunIs(p);
    SoundIs(p);
    OutIs(p);
  }

  lemma DocSizes()
    ensures |BASE| == 4 && |TARGET| == 5 && ROOTED.elems == map[0 := 0, 1 := 1]
  {
  }

  /**
    On documents with a shared child, under any derivation that gives their owner-chain paths,
    both orders are whole runs. One captures the outside reference and the other leaves it
    naming nothing: here the order the pairs are taken up in decides.
   */
  lemma CaptureFollowsOrder(segments: Segments)
    requires Derives(segments)
    ensures FollowsOwners(BASE, BASE_PATHS) && FollowsOwners(TARGET, TARGET_PATHS)
    ensures
      forall p :: 0 <= p < 2 ==>
        Rebased(segments, BASE, TARGET, Ending(p), Taking(p), PatchDoc(Ending(p).remap, TARGET))
    ensures Named("type") in TARGET[2].props && References(TARGET[2].props[Named("type")]) == [12]
    ensures 12 !in Ids(TARGET)
    ensures 12 in Ids(PatchDoc(Ending(0).remap, TARGET)) && 12 !in Ids(PatchDoc(Ending(1).remap, TARGET))
  {
    hide PatchDoc, Rebased, NoDup, DistinctIds, Ending, Taking, FollowsOwners, Derives;
    BaseFollows();
    TargetFollows();
    forall p | 0 <= p < 2
      ensures Rebased(segments, BASE, TARGET, Ending(p), Taking(p), PatchDoc(Ending(p).remap, TARGET))
    {
      BothRun(segments, p);
    }
    IdsAre();
    OutIs(0);
    OutIs(1);
    assert [10, 11, 12, 24, 25][2] == 12;
  }
}
