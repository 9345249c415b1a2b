/**
  Persisting a multi-file refactor: preflight, stage, recheck, replace, and on a failure
  roll back. Other processes edit the target files at any point between two file system
  calls; any call may fail.

  A run makes each call at most once, so its surroundings are two functions of the call:
  whether it works, and what outsiders did since the call before it. `World` carries the
  file system, the paths outsiders changed, and what each replacement made put there and overwrote.
 */
module Persist {
  import opened Wrappers
  import opened Seqs

  /** A file, by its path. */
  type File = nat

  /** A file system call, by what it does and for which change. */
  datatype Call =
    | Reread(k: nat)
    | Open(k: nat)
    | WriteNew(k: nat)
    | WriteOld(k: nat)
    | Unstage(k: nat)
    | Recheck(k: nat)
    | Check(k: nat)
    | Install(k: nat)
    | CheckBack(k: nat)
    | Restore(k: nat)
    | DropNew(k: nat)
    | DropOld(k: nat)

  /** Files outsiders wrote, or deleted. */
  type Edits = map<File, Option<string>>

  /** What is not ours to say: which calls work, and what outsiders did just before each. */
  datatype Env = Env(works: Call -> bool, edits: Call -> Edits)

  /** A replacement made: the text it put there, and what was there before it. */
  datatype Move = Move(put: string, over: Option<string>)

  datatype World = World(files: map<File, string>, outside: set<File>, moved: map<Call, Move>)

  /** One file's text before and after the refactor. */
  datatype Change = Change(path: File, before: string, after: string)

  datatype Staged = Staged(target: File, newPath: File, backup: File)

  /** Done, or refused with the recovery copies retained, by the position of their change. */
  datatype Outcome = Done | Refused(retained: map<nat, File>)

  // ---- the file system, its failures and its other users ---------------------------

  predicate Same(a: map<File, string>, b: map<File, string>, p: File) {
    (p in a <==> p in b) && (p in a ==> a[p] == b[p])
  }

  function TextAt(w: World, p: File): Option<string> {
    if p in w.files then Some(w.files[p]) else None
  }

  predicate Holds(w: World, p: File, text: string) {
    p in w.files && w.files[p] == text
  }

  function Began(start: map<File, string>): World {
    World(start, {}, map[])
  }

  /** Outsiders write, create or delete anything but the sidecars. */
  function Meddled(w: World, sidecars: set<File>, theirs: Edits): (v: World)
    ensures forall p :: p in sidecars || p !in v.outside ==> Same(w.files, v.files, p)
    ensures forall p :: p !in theirs ==> Same(w.files, v.files, p)
    ensures w.outside <= v.outside <= w.outside + theirs.Keys && v.moved == w.moved
    ensures v.outside * sidecars <= w.outside
  {
    var hit := theirs.Keys - sidecars;
    var files := (w.files - hit) + map p | p in hit && theirs[p].Some? :: theirs[p].value;
    World(files, w.outside + (set p | p in hit && !Same(w.files, files, p)), w.moved)
  }

  /** The paths outsiders changed grow, and only by edits they made. */
  ghost predicate Grows(env: Env, w: World, v: World) {
    && w.outside <= v.outside
    && forall p :: p in v.outside ==> p in w.outside || exists c :: p in env.edits(c)
  }

  lemma GrowsNot(env: Env, w: World)
    ensures Grows(env, w, w)
  {
  }

  lemma GrowsOn(env: Env, w: World, was: World, v: World)
    requires Grows(env, w, was) && Grows(env, was, v)
    ensures Grows(env, w, v)
  {
  }

  lemma GrowsBy(env: Env, w: World, sidecars: set<File>, c: Call)
    ensures Grows(env, w, Meddled(w, sidecars, env.edits(c)))
  {
    hide Meddled;
  }

  /** Reading fails with the call, or finds no file. */
  method ReadFile(env: Env, w: World, sidecars: set<File>, c: Call, p: File) returns (v: World, text: Option<string>)
    ensures v == Meddled(w, sidecars, env.edits(c)) && Grows(env, w, v)
    ensures text == if env.works(c) then TextAt(v, p) else None
  {
    GrowsBy(env, w, sidecars, c);
    v := Meddled(w, sidecars, env.edits(c));
    text := if env.works(c) then TextAt(v, p) else None;
  }

  /** `from` moved over `to`, and the record of it. */
  function MovedOver(w: World, c: Call, from: File, to: File): World
    requires from in w.files
  {
    World(w.files[to := w.files[from]] - {from}, w.outside, w.moved[c := Move(w.files[from], TextAt(w, to))])
  }

  /** Move `from` over `to`, whole or not at all. */
  method Replace(env: Env, w: World, sidecars: set<File>, c: Call, from: File, to: File) returns (v: World, ok: bool)
    requires from != to
    ensures
      var u := Meddled(w, sidecars, env.edits(c));
      && ok == (env.works(c) && from in u.files)
      && v == if ok then MovedOver(u, c, from, to) else u
    ensures Grows(env, w, v)
  {
    GrowsBy(env, w, sidecars, c);
    v := Meddled(w, sidecars, env.edits(c));
    ok := env.works(c) && from in v.files;
    if ok {
      v := MovedOver(v, c, from, to);
    }
  }

  method Remove(env: Env, w: World, sidecars: set<File>, c: Call, p: File) returns (v: World)
    ensures
      var u := Meddled(w, sidecars, env.edits(c));
      v == if env.works(c) then u.(files := u.files - {p}) else u
    ensures Grows(env, w, v)
  {
    GrowsBy(env, w, sidecars, c);
    v := Meddled(w, sidecars, env.edits(c));
    if env.works(c) {
      v := v.(files := v.files - {p});
    }
  }

  /** A path above every taken one. */
  method Above(taken: set<File>) returns (p: File)
    ensures p !in taken
  {
    p := 0;
    var left := taken;
    while left != {}
      invariant left <= taken && forall q :: q in taken && q !in left ==> q < p
      decreases |left|
    {
      var q :| q in left;
      if p <= q {
        p := q + 1;
      }
      left := left - {q};
    }
  }

  /** A new file beside a target, under a name nothing has. */
  method WriteSidecar(env: Env, w: World, sidecars: set<File>, taken: set<File>, c: Call, text: string)
    returns (v: World, path: Option<File>)
    ensures Grows(env, w, v) && (path.Some? <==> env.works(c))
    ensures
      var u := Meddled(w, sidecars, env.edits(c));
      && (path.None? ==> v == u)
      && (path.Some? ==>
            && path.value !in taken && path.value !in u.files && path.value !in u.outside
            && v == u.(files := u.files[path.value := text]))
  {
    GrowsBy(env, w, sidecars, c);
    v, path := Meddled(w, sidecars, env.edits(c)), None;
    if env.works(c) {
      var p := Above(taken + v.files.Keys + v.outside);
      v, path := v.(files := v.files[p := text]), Some(p);
    }
  }

  // ---- what each stage keeps -------------------------------------------------------

  function Sidecars(staged: seq<Staged>): set<File> {
    (set s | s in staged :: s.newPath) + (set s | s in staged :: s.backup)
  }

  /** The files a run may change: its targets and their sidecars. */
  function Ours(staged: seq<Staged>): set<File> {
    (set s | s in staged :: s.target) + Sidecars(staged)
  }

  lemma InOurs(staged: seq<Staged>, k: nat)
    requires k < |staged|
    ensures staged[k].target in Ours(staged) && staged[k].newPath in Ours(staged) && staged[k].backup in Ours(staged)
  {
    assert staged[k] in staged;
  }

  /** Targets and sidecars are all different files. */
  ghost predicate Apart(staged: seq<Staged>) {
    && (forall j, k :: 0 <= j < k < |staged| ==> staged[j].target != staged[k].target)
    && (forall j, k :: 0 <= j < k < |staged| ==> staged[j].newPath != staged[k].newPath)
    && (forall j, k :: 0 <= j < k < |staged| ==> staged[j].backup != staged[k].backup)
    && (forall j, k :: 0 <= j < |staged| && 0 <= k < |staged| ==> staged[j].newPath != staged[k].backup)
    && (forall j, k :: 0 <= j < |staged| && 0 <= k < |staged| ==> staged[j].target != staged[k].newPath)
    && (forall j, k :: 0 <= j < |staged| && 0 <= k < |staged| ==> staged[j].target != staged[k].backup)
  }

  /** Unless an outsider changed it, the target holds `text`. */
  ghost predicate StillHolds(w: World, s: Staged, text: string) {
    s.target !in w.outside ==> Holds(w, s.target, text)
  }

  /** Not replaced yet: both sidecars are staged. */
  ghost predicate Waiting(w: World, c: Change, s: Staged) {
    StillHolds(w, s, c.before) && Holds(w, s.newPath, c.after) && Holds(w, s.backup, c.before)
  }

  /** Replaced: the staged text is gone and the recovery copy is still there. */
  ghost predicate Installed(w: World, c: Change, s: Staged) {
    StillHolds(w, s, c.after) && Holds(w, s.backup, c.before) && s.newPath !in w.files
  }

  /** Only outsiders acted, and not on sidecars. */
  ghost predicate Follows(w: World, v: World, sidecars: set<File>) {
    && w.outside <= v.outside && v.moved == w.moved
    && forall p :: p in sidecars || p !in v.outside ==> Same(w.files, v.files, p)
  }

  lemma OutsideIs(w: World, sidecars: set<File>, theirs: Edits)
    ensures Follows(w, Meddled(w, sidecars, theirs), sidecars)
  {
    hide Meddled, Same;
  }

  /** Beside `mine`, nothing changed but what outsiders changed. */
  ghost predicate Keeps(w: World, v: World, mine: set<File>) {
    forall p :: p !in v.outside && p !in mine ==> Same(w.files, v.files, p)
  }

  lemma KeepsOn(w: World, was: World, v: World, mine: set<File>)
    requires Keeps(w, was, mine) && Keeps(was, v, mine) && was.outside <= v.outside
    ensures Keeps(w, v, mine)
  {
    forall p | p !in v.outside && p !in mine ensures Same(w.files, v.files, p) {
      assert Same(w.files, was.files, p) && Same(was.files, v.files, p);
    }
  }

  lemma KeepsMore(w: World, v: World, mine: set<File>, more: set<File>)
    requires Keeps(w, v, mine) && mine <= more
    ensures Keeps(w, v, more)
  {
    hide Same;
  }

  lemma KeepsOutside(w: World, v: World, sidecars: set<File>, mine: set<File>)
    requires Follows(w, v, sidecars)
    ensures Keeps(w, v, mine) && w.outside <= v.outside
  {
    hide Same;
  }

  lemma KeepsMove(w: World, c: Call, from: File, to: File, mine: set<File>)
    requires from in w.files && from in mine && to in mine
    ensures Keeps(w, MovedOver(w, c, from, to), mine)
  {
  }

  lemma FollowsKeeps(w: World, v: World, c: Change, s: Staged, sidecars: set<File>)
    requires Follows(w, v, sidecars) && s.newPath in sidecars && s.backup in sidecars
    ensures forall text :: StillHolds(w, s, text) ==> StillHolds(v, s, text)
    ensures Waiting(w, c, s) ==> Waiting(v, c, s)
    ensures Installed(w, c, s) ==> Installed(v, c, s)
    ensures Holds(w, s.backup, c.before) ==> Holds(v, s.backup, c.before)
  {
    assert Same(w.files, v.files, s.newPath) && Same(w.files, v.files, s.backup);
    if s.target !in v.outside {
      assert Same(w.files, v.files, s.target);
    }
  }

  /** A replacement of another target leaves this one's stage as it was. */
  lemma ElsewhereKeeps(w: World, v: World, c: Change, s: Staged, from: File, to: File)
    requires from in w.files && v.files == w.files[to := w.files[from]] - {from} && v.outside == w.outside
    requires to !in {s.target, s.newPath, s.backup} && from !in {s.target, s.newPath, s.backup}
    ensures forall text :: StillHolds(w, s, text) ==> StillHolds(v, s, text)
    ensures Waiting(w, c, s) ==> Waiting(v, c, s)
    ensures Installed(w, c, s) ==> Installed(v, c, s)
    ensures Holds(w, s.backup, c.before) ==> Holds(v, s.backup, c.before)
  {
  }

  ghost predicate StagedApart(changes: seq<Change>, staged: seq<Staged>) {
    |changes| == |staged| && Apart(staged)
  }

  lemma InSidecars(staged: seq<Staged>, k: nat)
    requires k < |staged|
    ensures staged[k].newPath in Sidecars(staged) && staged[k].backup in Sidecars(staged)
  {
    assert staged[k] in staged;
  }

  // ---- history ---------------------------------------------------------------------

  /** A replacement made put `put` there, and overwrote `text` or what outsiders wrote after the read that guards it. */
  ghost predicate Guarded(env: Env, w: World, c: Call, target: File, text: string, put: string) {
    c in w.moved ==> w.moved[c].put == put && (w.moved[c].over == Some(text) || target in env.edits(c))
  }

  /** Each replacement put its own text, and lost at most what appeared between its own recheck and itself. */
  ghost predicate Honest(env: Env, changes: seq<Change>, staged: seq<Staged>, w: World) {
    forall k :: 0 <= k < |staged| && k < |changes| ==> HonestAt(env, w, changes[k], staged[k].target, k)
  }

  ghost predicate HonestAt(env: Env, w: World, c: Change, target: File, k: nat) {
    && Guarded(env, w, Install(k), target, c.before, c.after)
    && Guarded(env, w, Restore(k), target, c.after, c.before)
  }

  /** The replacements made: the first `i` installed, those in `restored` rolled back. */
  ghost predicate MovesMade(staged: seq<Staged>, w: World, i: nat, restored: set<nat>) {
    && (forall k :: 0 <= k < |staged| ==> (Install(k) in w.moved <==> k < i))
    && (forall k :: 0 <= k < |staged| ==> (Restore(k) in w.moved <==> k in restored))
  }

  /** A replacement right after its recheck: the text the recheck saw is overwritten, or what came since. */
  lemma ReplacesGuarded(
      env: Env, seen: World, sidecars: set<File>, c: Call, from: File, to: File, text: string, put: string)
    requires TextAt(seen, to) == Some(text) && Holds(Meddled(seen, sidecars, env.edits(c)), from, put)
    ensures Guarded(env, MovedOver(Meddled(seen, sidecars, env.edits(c)), c, from, to), c, to, text, put)
  {
    hide Meddled;
    if to !in env.edits(c) {
      assert Same(seen.files, Meddled(seen, sidecars, env.edits(c)).files, to);
    }
  }

  // ---- replacing -------------------------------------------------------------------

  /** The loop's state before replacement `i`: installed below, waiting from there. */
  ghost predicate Midway(env: Env, changes: seq<Change>, staged: seq<Staged>, w: World, i: nat) {
    && StagedApart(changes, staged) && i <= |staged| && Honest(env, changes, staged, w) && MovesMade(staged, w, i, {})
    && (forall k :: 0 <= k < i ==> Installed(w, changes[k], staged[k]))
    && (forall k :: i <= k < |staged| ==> Waiting(w, changes[k], staged[k]))
  }

  lemma MidwayFollows(env: Env, changes: seq<Change>, staged: seq<Staged>, w: World, v: World, i: nat)
    requires Midway(env, changes, staged, w, i) && Follows(w, v, Sidecars(staged))
    ensures Midway(env, changes, staged, v, i)
  {
    hide Installed, Waiting, Apart, Sidecars;
    forall k | 0 <= k < |staged|
      ensures k < i ==> Installed(v, changes[k], staged[k])
      ensures k >= i ==> Waiting(v, changes[k], staged[k])
    {
      InSidecars(staged, k);
      FollowsKeeps(w, v, changes[k], staged[k], Sidecars(staged));
    }
  }

  lemma ApartFrom(staged: seq<Staged>, i: nat, k: nat)
    requires Apart(staged) && i < |staged| && k < |staged| && i != k
    ensures staged[i].target !in {staged[k].target, staged[k].newPath, staged[k].backup}
    ensures staged[i].newPath !in {staged[k].target, staged[k].newPath, staged[k].backup}
    ensures staged[i].backup !in {staged[k].target, staged[k].newPath, staged[k].backup}
  {
  }

  lemma MidwayInstalls(env: Env, changes: seq<Change>, staged: seq<Staged>, w: World, i: nat)
    requires Midway(env, changes, staged, w, i) && i < |staged| && staged[i].newPath in w.files
    requires
      Guarded(env, MovedOver(w, Install(i), staged[i].newPath, staged[i].target), Install(i), staged[i].target,
        changes[i].before, changes[i].after)
    ensures Midway(env, changes, staged, MovedOver(w, Install(i), staged[i].newPath, staged[i].target), i + 1)
  {
    hide Apart, Guarded;
    var s := staged[i];
    var v := MovedOver(w, Install(i), s.newPath, s.target);
    InstalledHere(w, v, changes[i], s, staged, i);
    HonestMore(env, changes, staged, w, v, Install(i));
    forall k | 0 <= k < |staged| && k != i
      ensures k < i ==> Installed(v, changes[k], staged[k])
      ensures k > i ==> Waiting(v, changes[k], staged[k])
    {
      hide Installed, Waiting;
      ApartFrom(staged, i, k);
      ElsewhereKeeps(w, v, changes[k], staged[k], s.newPath, s.target);
    }
  }

  /** Another replacement in the log leaves what the others overwrote as it was. */
  lemma HonestMore(env: Env, changes: seq<Change>, staged: seq<Staged>, w: World, v: World, c: Call)
    requires Honest(env, changes, staged, w) && c in v.moved && v.moved == w.moved[c := v.moved[c]]
    requires c.Install? || c.Restore?
    requires c.k < |staged| == |changes|
    requires
      && var (was, now) := (changes[c.k].before, changes[c.k].after);
      && (c.Install? ==> Guarded(env, v, c, staged[c.k].target, was, now))
      && (c.Restore? ==> Guarded(env, v, c, staged[c.k].target, now, was))
    ensures Honest(env, changes, staged, v)
  {
    forall k | 0 <= k < |staged| ensures HonestAt(env, v, changes[k], staged[k].target, k) {
      assert HonestAt(env, w, changes[k], staged[k].target, k);
    }
  }

  lemma InstalledHere(w: World, v: World, c: Change, s: Staged, staged: seq<Staged>, i: nat)
    requires Waiting(w, c, s) && Apart(staged) && i < |staged| && staged[i] == s && v.outside == w.outside
    requires v.files == w.files[s.target := w.files[s.newPath]] - {s.newPath}
    ensures Installed(v, c, s)
  {
  }

  /** Why a target was not replaced. */
  ghost predicate Stopped(env: Env, w: World, k: nat, target: File) {
    !env.works(Check(k)) || !env.works(Install(k)) || target in w.outside
  }

  /** One replacement: recheck, then replace; false only where a call failed or an outsider was there. */
  method ReplaceOne(env: Env, changes: seq<Change>, staged: seq<Staged>, w: World, i: nat) returns (v: World, ok: bool)
    requires Midway(env, changes, staged, w, i) && i < |staged|
    ensures Midway(env, changes, staged, v, if ok then i + 1 else i) && Grows(env, w, v)
    ensures !ok ==> Stopped(env, v, i, staged[i].target)
    ensures Keeps(w, v, Ours(staged)) && w.outside <= v.outside
  {
    hide Midway, Sidecars, Follows, Meddled, Guarded, MovedOver, Grows, Keeps, Ours;
    var current;
    v, current := ReadFile(env, w, Sidecars(staged), Check(i), staged[i].target);
    OutsideIs(w, Sidecars(staged), env.edits(Check(i)));
    MidwayFollows(env, changes, staged, w, v, i);
    MidwayAt(env, changes, staged, v, i);
    KeepsOutside(w, v, Sidecars(staged), Ours(staged));
    if current != Some(changes[i].before) {
      return v, false;
    }
    ghost var seen := v;
    ghost var u := Meddled(v, Sidecars(staged), env.edits(Install(i)));
    OutsideIs(v, Sidecars(staged), env.edits(Install(i)));
    MidwayFollows(env, changes, staged, v, u, i);
    MidwayAt(env, changes, staged, u, i);
    KeepsOutside(seen, u, Sidecars(staged), Ours(staged));
    KeepsOn(w, seen, u, Ours(staged));
    v, ok := Replace(env, v, Sidecars(staged), Install(i), staged[i].newPath, staged[i].target);
    GrowsOn(env, w, seen, v);
    if ok {
      ReplacesGuarded(env, seen, Sidecars(staged), Install(i), staged[i].newPath, staged[i].target, changes[i].before,
        changes[i].after);
      MidwayInstalls(env, changes, staged, u, i);
      InOurs(staged, i);
      KeepsMove(u, Install(i), staged[i].newPath, staged[i].target, Ours(staged));
      MovedOutside(u, Install(i), staged[i].newPath, staged[i].target);
      KeepsOn(w, u, v, Ours(staged));
    }
  }

  lemma MovedOutside(w: World, c: Call, from: File, to: File)
    requires from in w.files
    ensures MovedOver(w, c, from, to).outside == w.outside
  {
  }

  lemma MidwayAt(env: Env, changes: seq<Change>, staged: seq<Staged>, w: World, i: nat)
    requires Midway(env, changes, staged, w, i) && i < |staged|
    ensures |changes| == |staged| && staged[i].newPath != staged[i].target
    ensures Holds(w, staged[i].newPath, changes[i].after)
    ensures staged[i].target !in w.outside ==> TextAt(w, staged[i].target) == Some(changes[i].before)
  {
  }

  // ---- rolling back ----------------------------------------------------------------

  /** After a failure at `i`, with positions from `j` up dealt with: restored, or retained. */
  ghost predicate RollingBack(
      env: Env, changes: seq<Change>, staged: seq<Staged>, w: World, i: nat, j: nat, restored: set<nat>)
  {
    && StagedApart(changes, staged) && j <= i <= |staged|
    && Honest(env, changes, staged, w) && MovesMade(staged, w, i, restored)
    && (forall k :: k in restored ==> j <= k < i)
    && (forall k :: 0 <= k < i && k !in restored ==> Installed(w, changes[k], staged[k]))
    && (forall k :: k in restored ==> StillHolds(w, staged[k], changes[k].before))
    && (forall k :: i <= k < |staged| ==> StillHolds(w, staged[k], changes[k].before))
  }

  lemma RollbackStarts(env: Env, changes: seq<Change>, staged: seq<Staged>, w: World, i: nat)
    requires Midway(env, changes, staged, w, i)
    ensures RollingBack(env, changes, staged, w, i, i, {})
  {
    hide Apart, Honest, MovesMade, StillHolds;
  }

  lemma RollingFollows(
      env: Env, changes: seq<Change>, staged: seq<Staged>, w: World, v: World, i: nat, j: nat, restored: set<nat>)
    requires RollingBack(env, changes, staged, w, i, j, restored) && Follows(w, v, Sidecars(staged))
    ensures RollingBack(env, changes, staged, v, i, j, restored)
  {
    hide Installed, StillHolds, Apart, Sidecars;
    forall k | 0 <= k < |staged|
      ensures k < i && k !in restored ==> Installed(v, changes[k], staged[k])
      ensures k in restored || k >= i ==> StillHolds(v, staged[k], changes[k].before)
    {
      InSidecars(staged, k);
      FollowsKeeps(w, v, changes[k], staged[k], Sidecars(staged));
    }
  }

  lemma RollingRestores(
      env: Env, changes: seq<Change>, staged: seq<Staged>, w: World, i: nat, j: nat, restored: set<nat>)
    requires RollingBack(env, changes, staged, w, i, j + 1, restored) && staged[j].backup in w.files
    requires
      Guarded(env, MovedOver(w, Restore(j), staged[j].backup, staged[j].target), Restore(j), staged[j].target,
        changes[j].after, changes[j].before)
    ensures
      RollingBack(
        env, changes, staged, MovedOver(w, Restore(j), staged[j].backup, staged[j].target), i, j, restored + {j})
  {
    hide Apart, Guarded;
    var s := staged[j];
    var v := MovedOver(w, Restore(j), s.backup, s.target);
    RestoredHere(w, v, changes[j], s, staged, j);
    HonestMore(env, changes, staged, w, v, Restore(j));
    forall k | 0 <= k < |staged| && k != j
      ensures k < i && k !in restored ==> Installed(v, changes[k], staged[k])
      ensures k in restored || k >= i ==> StillHolds(v, staged[k], changes[k].before)
    {
      hide Installed, StillHolds;
      ApartFrom(staged, j, k);
      ElsewhereKeeps(w, v, changes[k], staged[k], s.backup, s.target);
    }
  }

  lemma RestoredHere(w: World, v: World, c: Change, s: Staged, staged: seq<Staged>, j: nat)
    requires Installed(w, c, s) && Apart(staged) && j < |staged| && staged[j] == s && v.outside == w.outside
    requires v.files == w.files[s.target := w.files[s.backup]] - {s.backup}
    ensures StillHolds(v, s, c.before)
  {
  }

  lemma RollingAt(env: Env, changes: seq<Change>, staged: seq<Staged>, w: World, i: nat, j: nat, restored: set<nat>)
    requires RollingBack(env, changes, staged, w, i, j + 1, restored)
    ensures j < |staged| == |changes| && staged[j].backup != staged[j].target
    ensures Holds(w, staged[j].backup, changes[j].before)
    ensures staged[j].target !in w.outside ==> TextAt(w, staged[j].target) == Some(changes[j].after)
    ensures RollingBack(env, changes, staged, w, i, j, restored)
  {
    hide Honest, MovesMade;
  }

  /** Why a replaced target was not restored. */
  ghost predicate Hindered(env: Env, w: World, k: nat, target: File) {
    !env.works(CheckBack(k)) || !env.works(Restore(k)) || target in w.outside
  }

  /** One rollback: a target is restored unless a call fails, or an outsider was there and is spared. */
  method RollbackOne(
      env: Env, changes: seq<Change>, staged: seq<Staged>, w: World, i: nat, j: nat, restored: set<nat>)
    returns (v: World, ok: bool)
    requires RollingBack(env, changes, staged, w, i, j + 1, restored)
    ensures RollingBack(env, changes, staged, v, i, j, if ok then restored + {j} else restored) && Grows(env, w, v)
    ensures j < |staged| && (!ok ==> Hindered(env, v, j, staged[j].target))
    ensures Keeps(w, v, Ours(staged)) && w.outside <= v.outside
  {
    hide RollingBack, Sidecars, Follows, Meddled, Guarded, MovedOver, Grows, Keeps, Ours;
    RollingAt(env, changes, staged, w, i, j, restored);
    var current;
    v, current := ReadFile(env, w, Sidecars(staged), CheckBack(j), staged[j].target);
    OutsideIs(w, Sidecars(staged), env.edits(CheckBack(j)));
    RollingFollows(env, changes, staged, w, v, i, j + 1, restored);
    RollingAt(env, changes, staged, v, i, j, restored);
    KeepsOutside(w, v, Sidecars(staged), Ours(staged));
    if current != Some(changes[j].after) {
      return v, false;
    }
    ghost var seen := v;
    ghost var u := Meddled(v, Sidecars(staged), env.edits(Restore(j)));
    OutsideIs(v, Sidecars(staged), env.edits(Restore(j)));
    RollingFollows(env, changes, staged, v, u, i, j + 1, restored);
    RollingAt(env, changes, staged, u, i, j, restored);
    KeepsOutside(seen, u, Sidecars(staged), Ours(staged));
    KeepsOn(w, seen, u, Ours(staged));
    v, ok := Replace(env, v, Sidecars(staged), Restore(j), staged[j].backup, staged[j].target);
    GrowsOn(env, w, seen, v);
    if ok {
      ReplacesGuarded(env, seen, Sidecars(staged), Restore(j), staged[j].backup, staged[j].target, changes[j].after,
        changes[j].before);
      RollingRestores(env, changes, staged, u, i, j, restored);
      InOurs(staged, j);
      KeepsMove(u, Restore(j), staged[j].backup, staged[j].target, Ours(staged));
      MovedOutside(u, Restore(j), staged[j].backup, staged[j].target);
      KeepsOn(w, u, v, Ours(staged));
    }
  }

  // ---- cleaning up -----------------------------------------------------------------

  /** A retained copy is where the outcome says and holds the text from before. */
  ghost predicate CopiesKept(changes: seq<Change>, staged: seq<Staged>, w: World, retained: map<nat, File>) {
    forall k :: k in retained ==>
      k < |staged| == |changes| && retained[k] == staged[k].backup && Holds(w, staged[k].backup, changes[k].before)
  }

  /** Every target replaced and not restored has its copy retained. */
  ghost predicate Accounted(staged: seq<Staged>, w: World, retained: map<nat, File>) {
    forall k :: 0 <= k < |staged| ==> Install(k) in w.moved ==> Restore(k) in w.moved || k in retained
  }

  /** What a refusal leaves: each target as it was, or its recovery copy retained. */
  ghost predicate Settled(
      env: Env, changes: seq<Change>, staged: seq<Staged>, w: World, i: nat, retained: map<nat, File>)
  {
    && StagedApart(changes, staged) && i <= |staged|
    && Honest(env, changes, staged, w) && CopiesKept(changes, staged, w, retained)
    && (forall k :: k in retained ==> k < i && StillHolds(w, staged[k], changes[k].after))
    && (forall k :: 0 <= k < |staged| && k !in retained ==> StillHolds(w, staged[k], changes[k].before))
    && Accounted(staged, w, retained)
  }

  function RetainedCopies(staged: seq<Staged>, i: nat, restored: set<nat>): map<nat, File>
    requires i <= |staged|
  {
    map k: nat | k < i && k !in restored :: staged[k].backup
  }

  lemma RollbackSettles(env: Env, changes: seq<Change>, staged: seq<Staged>, w: World, i: nat, restored: set<nat>)
    requires RollingBack(env, changes, staged, w, i, 0, restored)
    ensures i <= |staged| && Settled(env, changes, staged, w, i, RetainedCopies(staged, i, restored))
  {
    hide Apart, Honest, StillHolds;
  }

  lemma SettledFollows(
      env: Env, changes: seq<Change>, staged: seq<Staged>, w: World, v: World, i: nat, retained: map<nat, File>)
    requires Settled(env, changes, staged, w, i, retained) && Follows(w, v, Sidecars(staged))
    ensures Settled(env, changes, staged, v, i, retained)
  {
    hide StillHolds, Apart, Sidecars;
    forall k | 0 <= k < |staged|
      ensures forall text :: StillHolds(w, staged[k], text) ==> StillHolds(v, staged[k], text)
      ensures Holds(w, staged[k].backup, changes[k].before) ==> Holds(v, staged[k].backup, changes[k].before)
    {
      InSidecars(staged, k);
      FollowsKeeps(w, v, changes[k], staged[k], Sidecars(staged));
    }
  }

  lemma SettledRemoves(
      env: Env, changes: seq<Change>, staged: seq<Staged>, w: World, i: nat, retained: map<nat, File>, p: File)
    requires Settled(env, changes, staged, w, i, retained)
    requires forall k :: 0 <= k < |staged| ==> staged[k].target != p && (k in retained ==> staged[k].backup != p)
    ensures Settled(env, changes, staged, w.(files := w.files - {p}), i, retained)
  {
    hide Apart;
  }

  lemma SpareSidecars(
      env: Env, changes: seq<Change>, staged: seq<Staged>, w: World, i: nat, retained: map<nat, File>, n: nat)
    requires Settled(env, changes, staged, w, i, retained) && n < |staged|
    ensures
      forall k :: 0 <= k < |staged| ==>
        staged[k].target != staged[n].newPath && staged[k].backup != staged[n].newPath
    ensures
      n !in retained ==>
        forall k :: 0 <= k < |staged| ==>
          staged[k].target != staged[n].backup && (k in retained ==> staged[k].backup != staged[n].backup)
  {
    hide StillHolds, Honest;
  }

  /** Beside the sidecars, nothing changed but what outsiders changed. */
  ghost predicate Spares(env: Env, w: World, v: World, sidecars: set<File>) {
    Grows(env, w, v) && v.moved == w.moved && Keeps(w, v, sidecars)
  }

  lemma NothingSpared(env: Env, w: World, sidecars: set<File>)
    ensures Spares(env, w, w, sidecars)
  {
    hide Grows;
    GrowsNot(env, w);
  }

  lemma SparesOutside(env: Env, w: World, was: World, v: World, sidecars: set<File>)
    requires Spares(env, w, was, sidecars) && Follows(was, v, sidecars) && Grows(env, was, v)
    ensures Spares(env, w, v, sidecars)
  {
    GrowsOn(env, w, was, v);
    forall p | p !in v.outside && p !in sidecars ensures Same(w.files, v.files, p) {
      assert Same(w.files, was.files, p) && Same(was.files, v.files, p);
    }
  }

  lemma SparesRemoval(env: Env, w: World, was: World, sidecars: set<File>, p: File)
    requires Spares(env, w, was, sidecars) && p in sidecars
    ensures Spares(env, w, was.(files := was.files - {p}), sidecars)
  {
    var v := was.(files := was.files - {p});
    forall q | q !in v.outside && q !in sidecars ensures Same(w.files, v.files, q) {
      assert Same(w.files, was.files, q);
    }
  }

  /** One sidecar removed, or not. */
  method CleanOne(
      env: Env, changes: seq<Change>, staged: seq<Staged>, ghost start: World, w: World, i: nat,
      retained: map<nat, File>, c: Call, p: File)
    returns (v: World)
    requires Settled(env, changes, staged, w, i, retained) && Spares(env, start, w, Sidecars(staged))
    requires p in Sidecars(staged)
    requires forall k :: 0 <= k < |staged| ==> staged[k].target != p && (k in retained ==> staged[k].backup != p)
    ensures Settled(env, changes, staged, v, i, retained) && Spares(env, start, v, Sidecars(staged))
    ensures (env.works(c) ==> p !in v.files) && NoneBack(staged, w, v)
  {
    hide Settled, Sidecars, Spares, Follows, Meddled, Grows, NoneBack;
    ghost var u := Meddled(w, Sidecars(staged), env.edits(c));
    OutsideIs(w, Sidecars(staged), env.edits(c));
    GrowsBy(env, w, Sidecars(staged), c);
    SettledFollows(env, changes, staged, w, u, i, retained);
    SparesOutside(env, start, w, u, Sidecars(staged));
    SettledRemoves(env, changes, staged, u, i, retained, p);
    SparesRemoval(env, start, u, Sidecars(staged), p);
    v := Remove(env, w, Sidecars(staged), c, p);
    NoneComesBack(staged, w, u, v);
  }

  /** A sidecar that is gone stays gone. */
  ghost predicate NoneBack(staged: seq<Staged>, w: World, v: World) {
    forall p :: p in Sidecars(staged) && p !in w.files ==> p !in v.files
  }

  lemma NoneComesBack(staged: seq<Staged>, w: World, u: World, v: World)
    requires Follows(w, u, Sidecars(staged)) && v.files.Keys <= u.files.Keys
    ensures NoneBack(staged, w, v)
  {
    hide Sidecars;
    forall p | p in Sidecars(staged) && p !in w.files ensures p !in v.files {
      assert Same(w.files, u.files, p);
    }
  }

  /** Of the first `n` entries, a sidecar is left only as a retained copy, or where its removal failed. */
  ghost predicate Swept(env: Env, staged: seq<Staged>, w: World, retained: set<nat>, n: nat) {
    forall k :: 0 <= k < n && k < |staged| ==> SweptAt(env, staged[k], w, retained, k)
  }

  ghost predicate SweptAt(env: Env, s: Staged, w: World, retained: set<nat>, k: nat) {
    && (s.newPath in w.files ==> !env.works(DropNew(k)))
    && (s.backup in w.files ==> k in retained || !env.works(DropOld(k)))
  }

  lemma SweptOn(env: Env, staged: seq<Staged>, w: World, v: World, retained: set<nat>, n: nat)
    requires Swept(env, staged, w, retained, n) && NoneBack(staged, w, v)
    ensures Swept(env, staged, v, retained, n)
  {
    hide Sidecars;
    forall k | 0 <= k < n && k < |staged| ensures SweptAt(env, staged[k], v, retained, k) {
      assert SweptAt(env, staged[k], w, retained, k);
      InSidecars(staged, k);
    }
  }

  /** Remove every staged text and every copy that is not retained. */
  method CleanUp(env: Env, changes: seq<Change>, staged: seq<Staged>, w: World, i: nat, retained: map<nat, File>)
    returns (v: World)
    requires Settled(env, changes, staged, w, i, retained)
    ensures Settled(env, changes, staged, v, i, retained) && Spares(env, w, v, Sidecars(staged))
    ensures Swept(env, staged, v, retained.Keys, |staged|)
  {
    hide Settled, Sidecars, Spares, Swept, NoneBack;
    v := w;
    NothingSpared(env, w, Sidecars(staged));
    NoneSwept(env, staged, w, retained.Keys);
    for n := 0 to |staged|
      invariant Settled(env, changes, staged, v, i, retained) && Spares(env, w, v, Sidecars(staged))
      invariant Swept(env, staged, v, retained.Keys, n)
    {
      SpareSidecars(env, changes, staged, v, i, retained, n);
      InSidecars(staged, n);
      ghost var was := v;
      v := CleanOne(env, changes, staged, w, v, i, retained, DropNew(n), staged[n].newPath);
      SweptOn(env, staged, was, v, retained.Keys, n);
      if n !in retained {
        was := v;
        v := CleanOne(env, changes, staged, w, v, i, retained, DropOld(n), staged[n].backup);
        SweptOn(env, staged, was, v, retained.Keys, n);
        StaysGone(staged, was, v, staged[n].newPath);
      }
      SweptMore(env, staged, v, retained.Keys, n);
    }
  }

  lemma NoneSwept(env: Env, staged: seq<Staged>, w: World, retained: set<nat>)
    ensures Swept(env, staged, w, retained, 0)
  {
  }

  lemma StaysGone(staged: seq<Staged>, w: World, v: World, p: File)
    requires NoneBack(staged, w, v) && p in Sidecars(staged)
    ensures p !in w.files ==> p !in v.files
  {
  }

  lemma SweptMore(env: Env, staged: seq<Staged>, w: World, retained: set<nat>, n: nat)
    requires Swept(env, staged, w, retained, n) && n < |staged| && SweptAt(env, staged[n], w, retained, n)
    ensures Swept(env, staged, w, retained, n + 1)
  {
    hide SweptAt;
  }

  /** Every retained copy has its reason. */
  ghost predicate AllHindered(env: Env, staged: seq<Staged>, w: World, retained: map<nat, File>) {
    forall k :: k in retained ==> k < |staged| && Hindered(env, w, k, staged[k].target)
  }

  /** The failure path: roll back what was replaced, newest first, then clean up. */
  method RollBack(env: Env, changes: seq<Change>, staged: seq<Staged>, w: World, i: nat)
    returns (v: World, retained: map<nat, File>)
    requires Midway(env, changes, staged, w, i)
    ensures Settled(env, changes, staged, v, i, retained) && Grows(env, w, v)
    ensures AllHindered(env, staged, v, retained)
    ensures Keeps(w, v, Ours(staged)) && Swept(env, staged, v, retained.Keys, |staged|)
  {
    hide RollingBack, Midway, Settled, Spares, Sidecars, Keeps, Ours, Swept, Same;
    var restored: set<nat> := {};
    var j: nat := i;
    v := w;
    RollbackStarts(env, changes, staged, w, i);
    RollingSize(env, changes, staged, w, i, i, {});
    KeepsNot(w, Ours(staged));
    while j > 0
      invariant Keeps(w, v, Ours(staged))
      invariant j <= i <= |staged| && RollingBack(env, changes, staged, v, i, j, restored) && Grows(env, w, v)
      invariant forall k :: j <= k < i && k !in restored ==> Hindered(env, v, k, staged[k].target)
    {
      j := j - 1;
      ghost var was := v;
      var ok;
      v, ok := RollbackOne(env, changes, staged, v, i, j, restored);
      GrowsOn(env, w, was, v);
      KeepsOn(w, was, v, Ours(staged));
      if ok {
        restored := restored + {j};
      }
    }
    RollbackSettles(env, changes, staged, v, i, restored);
    retained := RetainedCopies(staged, i, restored);
    ghost var was := v;
    v := CleanUp(env, changes, staged, v, i, retained);
    SparesGrows(env, was, v, Sidecars(staged));
    GrowsOn(env, w, was, v);
    SidecarsOurs(staged);
    KeepsMore(was, v, Sidecars(staged), Ours(staged));
    KeepsOn(w, was, v, Ours(staged));
  }

  lemma SidecarsOurs(staged: seq<Staged>)
    ensures Sidecars(staged) <= Ours(staged)
  {
    hide Sidecars;
  }

  lemma KeepsNot(w: World, mine: set<File>)
    ensures Keeps(w, w, mine)
  {
  }

  lemma RollingSize(env: Env, changes: seq<Change>, staged: seq<Staged>, w: World, i: nat, j: nat, restored: set<nat>)
    requires RollingBack(env, changes, staged, w, i, j, restored)
    ensures i <= |staged|
  {
  }

  lemma SparesGrows(env: Env, w: World, v: World, sidecars: set<File>)
    requires Spares(env, w, v, sidecars)
    ensures Grows(env, w, v) && v.moved == w.moved && Keeps(w, v, sidecars) && w.outside <= v.outside
  {
    hide Keeps;
  }

  // ---- preflight and staging -------------------------------------------------------

  /** Unless outsiders changed it, each target holds its text from before. */
  ghost predicate Intact(changes: seq<Change>, targets: seq<File>, w: World) {
    && |targets| <= |changes|
    && forall k :: 0 <= k < |targets| && targets[k] !in w.outside ==> Holds(w, targets[k], changes[k].before)
  }

  lemma IntactSpares(env: Env, changes: seq<Change>, targets: seq<File>, w: World, v: World, sidecars: set<File>)
    requires Intact(changes, targets, w) && Spares(env, w, v, sidecars) && forall t :: t in targets ==> t !in sidecars
    ensures Intact(changes, targets, v)
  {
    forall k | 0 <= k < |targets| && targets[k] !in v.outside ensures Holds(v, targets[k], changes[k].before) {
      assert targets[k] in targets && Same(w.files, v.files, targets[k]);
    }
  }

  /** A change whose file cannot be resolved, is named before, or did not hold its old text at the start. */
  ghost predicate Misposed(changes: seq<Change>, resolve: File -> Option<File>, start: map<File, string>, k: nat)
    requires k < |changes|
  {
    || resolve(changes[k].path).None?
    || !Holds(Began(start), resolve(changes[k].path).value, changes[k].before)
    || exists j :: 0 <= j < k && resolve(changes[j].path) == resolve(changes[k].path)
  }

  /** Why the preflight stopped at change `k`. */
  ghost predicate Unready(
      env: Env, changes: seq<Change>, resolve: File -> Option<File>, start: map<File, string>, w: World, k: nat)
    requires k < |changes|
  {
    || Misposed(changes, resolve, start, k)
    || !env.works(Reread(k)) || !env.works(Open(k)) || resolve(changes[k].path).value in w.outside
  }

  /** Every target resolved, once each, unchanged on disk and open for writing. */
  method Preflight(env: Env, changes: seq<Change>, resolve: File -> Option<File>, start: map<File, string>)
    returns (v: World, targets: Option<seq<File>>)
    ensures Spares(env, Began(start), v, {})
    ensures targets.Some? ==> |targets.value| == |changes| && NoDup(targets.value) && Intact(changes, targets.value, v)
    ensures targets.Some? ==> forall k :: 0 <= k < |changes| ==> resolve(changes[k].path) == Some(targets.value[k])
    ensures targets.None? ==> exists k :: 0 <= k < |changes| && Unready(env, changes, resolve, start, v, k)
  {
    hide Spares, Same, Meddled, Follows, Grows;
    var w := Began(start);
    v := w;
    NothingSpared(env, w, {});
    var found: seq<File> := [];
    for i := 0 to |changes|
      invariant |found| == i && NoDup(found) && Spares(env, w, v, {}) && Intact(changes, found, v)
      invariant forall k :: 0 <= k < i ==> resolve(changes[k].path) == Some(found[k])
    {
      var target := resolve(changes[i].path);
      if target.None? || target.value in found {
        assert Unready(env, changes, resolve, start, v, i);
        return v, None;
      }
      ghost var was := v;
      var current;
      v, current := ReadFile(env, v, {}, Reread(i), target.value);
      StillReady(env, changes, found, start, was, v, Reread(i));
      SparesStart(env, changes, start, v, target.value);
      if current != Some(changes[i].before) {
        assert Unready(env, changes, resolve, start, v, i);
        return v, None;
      }
      was := v;
      v := Meddled(v, {}, env.edits(Open(i)));
      GrowsBy(env, was, {}, Open(i));
      StillReady(env, changes, found + [target.value], start, was, v, Open(i));
      if !env.works(Open(i)) {
        assert Unready(env, changes, resolve, start, v, i);
        return v, None;
      }
      found := found + [target.value];
    }
    targets := Some(found);
  }

  lemma StillReady(
      env: Env, changes: seq<Change>, found: seq<File>, start: map<File, string>, w: World, v: World, c: Call)
    requires v == Meddled(w, {}, env.edits(c)) && Grows(env, w, v)
    requires Spares(env, Began(start), w, {}) && Intact(changes, found, w)
    ensures Spares(env, Began(start), v, {}) && Intact(changes, found, v)
  {
    hide Spares, Meddled, Follows, Intact;
    OutsideIs(w, {}, env.edits(c));
    NothingSpared(env, w, {});
    SparesOutside(env, w, w, v, {});
    SparesOutside(env, Began(start), w, v, {});
    IntactSpares(env, changes, found, w, v, {});
  }

  lemma SparesStart(env: Env, changes: seq<Change>, start: map<File, string>, v: World, p: File)
    requires Spares(env, Began(start), v, {})
    ensures p !in v.outside ==> TextAt(v, p) == TextAt(Began(start), p)
  {
    if p !in v.outside {
      assert Same(start, v.files, p);
    }
  }

  /** Both sidecars of the first targets are written, apart from each other and from every target. */
  ghost predicate Staging(changes: seq<Change>, targets: seq<File>, staged: seq<Staged>, w: World) {
    && |staged| <= |targets| == |changes| && NoDup(targets) && Apart(staged)
    && (forall k :: 0 <= k < |staged| ==> staged[k].target == targets[k])
    && (forall k :: 0 <= k < |staged| ==> staged[k].newPath !in targets && staged[k].backup !in targets)
    && (forall k :: 0 <= k < |staged| ==>
          Holds(w, staged[k].newPath, changes[k].after) && Holds(w, staged[k].backup, changes[k].before))
  }

  lemma StagingFollows(
      changes: seq<Change>, targets: seq<File>, staged: seq<Staged>, w: World, v: World, sidecars: set<File>)
    requires Staging(changes, targets, staged, w) && Sidecars(staged) <= sidecars
    requires forall p :: p in sidecars ==> Same(w.files, v.files, p)
    ensures Staging(changes, targets, staged, v)
  {
    hide Apart, NoDup;
    forall k | 0 <= k < |staged|
      ensures Holds(v, staged[k].newPath, changes[k].after) && Holds(v, staged[k].backup, changes[k].before)
    {
      InSidecars(staged, k);
      assert Same(w.files, v.files, staged[k].newPath) && Same(w.files, v.files, staged[k].backup);
    }
  }

  lemma StagingMore(
      changes: seq<Change>, targets: seq<File>, staged: seq<Staged>, w: World, s: Staged)
    requires Staging(changes, targets, staged, w) && |staged| < |targets| && s.target == targets[|staged|]
    requires s.newPath != s.backup && s.newPath !in targets && s.backup !in targets
    requires s.newPath !in Sidecars(staged) && s.backup !in Sidecars(staged)
    requires Holds(w, s.newPath, changes[|staged|].after) && Holds(w, s.backup, changes[|staged|].before)
    ensures Staging(changes, targets, staged + [s], w)
  {
    ApartMore(targets, staged, s);
  }

  lemma ApartMore(targets: seq<File>, staged: seq<Staged>, s: Staged)
    requires Apart(staged) && NoDup(targets) && |staged| < |targets| && s.target == targets[|staged|]
    requires forall k :: 0 <= k < |staged| ==> staged[k].target == targets[k]
    requires forall k :: 0 <= k < |staged| ==> staged[k].newPath !in targets && staged[k].backup !in targets
    requires s.newPath != s.backup && s.newPath !in targets && s.backup !in targets
    requires s.newPath !in Sidecars(staged) && s.backup !in Sidecars(staged)
    ensures Apart(staged + [s])
  {
    hide NoDup;
    forall k | 0 <= k < |staged|
      ensures ApartPair(staged[k], s)
    {
      InSidecars(staged, k);
      TargetsDiffer(targets, k, |staged|);
    }
    ApartSnoc(staged, s);
  }

  /** Two entries share no file. */
  ghost predicate ApartPair(a: Staged, b: Staged) {
    {a.target, a.newPath, a.backup} !! {b.target, b.newPath, b.backup}
  }

  lemma TargetsDiffer(targets: seq<File>, j: nat, k: nat)
    requires NoDup(targets) && j < k < |targets|
    ensures targets[j] != targets[k] && targets[j] in targets && targets[k] in targets
  {
  }

  lemma ApartSnoc(staged: seq<Staged>, s: Staged)
    requires Apart(staged) && s.newPath != s.backup && s.target != s.newPath && s.target != s.backup
    requires forall k :: 0 <= k < |staged| ==> ApartPair(staged[k], s)
    ensures Apart(staged + [s])
  {
    var more := staged + [s];
    forall j, k | 0 <= j < |more| && 0 <= k < |more| && j != k ensures ApartPair(more[j], more[k]) {
      if j < |staged| && k < |staged| {
        OldPair(staged, j, k);
      }
    }
    forall k | 0 <= k < |more|
      ensures more[k].newPath != more[k].backup && more[k].target != more[k].newPath && more[k].target != more[k].backup
    {
    }
    PairsApart(more);
  }

  lemma OldPair(staged: seq<Staged>, j: nat, k: nat)
    requires Apart(staged) && j < |staged| && k < |staged| && j != k
    ensures ApartPair(staged[j], staged[k])
  {
  }

  lemma PairsApart(staged: seq<Staged>)
    requires forall j, k :: 0 <= j < |staged| && 0 <= k < |staged| && j != k ==> ApartPair(staged[j], staged[k])
    requires forall k :: 0 <= k < |staged| ==>
      && staged[k].newPath != staged[k].backup && staged[k].target != staged[k].newPath
      && staged[k].target != staged[k].backup
    ensures Apart(staged)
  {
    forall j, k | 0 <= j < |staged| && 0 <= k < |staged|
      ensures staged[j].newPath != staged[k].backup && staged[j].target != staged[k].newPath
      ensures staged[j].target != staged[k].backup
      ensures j != k ==> staged[j].target != staged[k].target && staged[j].newPath != staged[k].newPath
      ensures j != k ==> staged[j].backup != staged[k].backup
    {
      if j != k {
        assert ApartPair(staged[j], staged[k]);
      }
    }
  }

  /** A partial staging is settled: nothing was replaced. */
  lemma StagingSettles(env: Env, changes: seq<Change>, targets: seq<File>, staged: seq<Staged>, w: World)
    requires Prepared(changes, targets, staged, w)
    ensures Settled(env, changes[..|staged|], staged, w, 0, map[])
  {
    hide Apart, NoDup;
  }

  lemma SidecarsApart(changes: seq<Change>, targets: seq<File>, staged: seq<Staged>, w: World)
    requires Staging(changes, targets, staged, w)
    ensures forall t :: t in targets ==> t !in Sidecars(staged)
  {
  }

  /** Where staging stands: what is staged, every target intact, nothing replaced. */
  ghost predicate Prepared(changes: seq<Change>, targets: seq<File>, staged: seq<Staged>, w: World) {
    Staging(changes, targets, staged, w) && Intact(changes, targets, w) && w.moved == map[]
  }

  lemma OutsideStaging(
      changes: seq<Change>, targets: seq<File>, staged: seq<Staged>, w: World, v: World, sidecars: set<File>)
    requires Prepared(changes, targets, staged, w) && Sidecars(staged) <= sidecars && Follows(w, v, sidecars)
    ensures Prepared(changes, targets, staged, v)
  {
    hide Staging, Sidecars;
    StagingFollows(changes, targets, staged, w, v, sidecars);
    forall k | 0 <= k < |targets| && targets[k] !in v.outside ensures Holds(v, targets[k], changes[k].before) {
      assert Same(w.files, v.files, targets[k]);
    }
  }

  lemma RemovedStaging(changes: seq<Change>, targets: seq<File>, staged: seq<Staged>, w: World, p: File)
    requires Prepared(changes, targets, staged, w) && p !in targets && p !in Sidecars(staged)
    ensures Prepared(changes, targets, staged, w.(files := w.files - {p}))
  {
    hide Apart, NoDup, Sidecars;
    StagingFollows(changes, targets, staged, w, w.(files := w.files - {p}), Sidecars(staged));
    assert forall k :: 0 <= k < |targets| ==> targets[k] in targets;
  }

  /** A new file under a fresh name. */
  lemma FreshSidecar(
      changes: seq<Change>, targets: seq<File>, staged: seq<Staged>, w: World, v: World, p: File, text: string,
      others: set<File>)
    requires Prepared(changes, targets, staged, w)
    requires p !in w.files && p !in targets && p !in Sidecars(staged) + others && v == w.(files := w.files[p := text])
    ensures Prepared(changes, targets, staged, v) && Holds(v, p, text)
    ensures forall q :: q in others ==> Same(w.files, v.files, q)
  {
    hide Apart, NoDup;
    StagingFollows(changes, targets, staged, w, v, Sidecars(staged));
    assert forall k :: 0 <= k < |targets| ==> targets[k] in targets;
  }

  /** Why staging stopped at change `k`. */
  ghost predicate Unstaged(env: Env, w: World, k: nat, target: File) {
    !env.works(WriteNew(k)) || !env.works(WriteOld(k)) || !env.works(Recheck(k)) || target in w.outside
  }

  /** A sidecar whose other half could not be written, and which then could not be removed. */
  ghost predicate Stranded(env: Env, k: nat) {
    env.works(WriteNew(k)) && !env.works(WriteOld(k)) && !env.works(Unstage(k))
  }

  /** Files a run made: none of them was there, nor is a target, and beside them all is as it was. */
  ghost predicate Makes(targets: seq<File>, w: World, v: World, made: set<File>) {
    && Keeps(w, v, made) && w.outside <= v.outside
    && forall p :: p in made ==> p !in w.files && p !in w.outside && p !in targets
  }

  lemma MakesNot(targets: seq<File>, w: World)
    ensures Makes(targets, w, w, {})
  {
  }

  lemma MakesOutside(targets: seq<File>, w: World, was: World, v: World, made: set<File>, sidecars: set<File>)
    requires Makes(targets, w, was, made) && Follows(was, v, sidecars)
    ensures Makes(targets, w, v, made)
  {
    hide Keeps, Follows;
    KeepsOutside(was, v, sidecars, made);
    KeepsOn(w, was, v, made);
  }

  /** One more file made, under a name nothing has. */
  lemma MakesFile(targets: seq<File>, w: World, u: World, made: set<File>, p: File, text: string)
    requires Makes(targets, w, u, made) && p !in u.files && p !in u.outside && p !in targets && p !in made
    ensures Makes(targets, w, u.(files := u.files[p := text]), made + {p})
  {
    assert Same(w.files, u.files, p);
  }

  lemma MakesRemoval(targets: seq<File>, w: World, u: World, made: set<File>, p: File)
    requires Makes(targets, w, u, made) && p in made
    ensures Makes(targets, w, u.(files := u.files - {p}), made)
  {
  }

  lemma MakesOn(targets: seq<File>, w: World, was: World, v: World, made: set<File>, more: set<File>)
    requires Makes(targets, w, was, made) && Makes(targets, was, v, more)
    ensures Makes(targets, w, v, made + more)
  {
    hide Same;
    KeepsMore(w, was, made, made + more);
    KeepsMore(was, v, more, made + more);
    KeepsOn(w, was, v, made + more);
    forall p | p in more && p !in made ensures p !in w.files && p !in w.outside {
      MadeBefore(w, was, made, p);
    }
  }

  lemma MadeBefore(w: World, was: World, made: set<File>, p: File)
    requires Keeps(w, was, made) && w.outside <= was.outside && p !in made && p !in was.files && p !in was.outside
    ensures p !in w.files && p !in w.outside
  {
    assert Same(w.files, was.files, p);
  }

  lemma MakesKept(targets: seq<File>, w: World, was: World, v: World, made: set<File>, sidecars: set<File>)
    requires Makes(targets, w, was, made) && Keeps(was, v, sidecars) && was.outside <= v.outside && sidecars <= made
    ensures Makes(targets, w, v, made)
  {
    hide Same;
    KeepsMore(was, v, sidecars, made);
    KeepsOn(w, was, v, made);
  }

  /** Both sidecars of the next target, or none where a write failed. */
  method StageOne(env: Env, changes: seq<Change>, targets: seq<File>, staged: seq<Staged>, w: World)
    returns (v: World, s: Option<Staged>, ghost made: set<File>)
    requires Prepared(changes, targets, staged, w) && |staged| < |targets|
    ensures Grows(env, w, v)
    ensures s.None? ==> Prepared(changes, targets, staged, v)
    ensures s.None? ==> !env.works(WriteNew(|staged|)) || !env.works(WriteOld(|staged|))
    ensures s.Some? ==> Prepared(changes, targets, staged + [s.value], v)
    ensures Makes(targets, w, v, made) && made !! Sidecars(staged)
    ensures s.Some? ==> made == {s.value.newPath, s.value.backup}
    ensures s.None? ==> forall p :: p in made && p in v.files ==> Stranded(env, |staged|)
  {
    hide Staging, Intact, Sidecars, Same, Meddled, Follows, Prepared, Grows, Makes;
    made := {};
    MakesNot(targets, w);
    var n := |staged|;
    PreparedSizes(changes, targets, staged, w);
    var sidecars := Sidecars(staged);
    var taken := (set t | t in targets) + sidecars;
    ghost var u := Meddled(w, sidecars, env.edits(WriteNew(n)));
    OutsideIs(w, sidecars, env.edits(WriteNew(n)));
    OutsideStaging(changes, targets, staged, w, u, sidecars);
    var first, second;
    MakesOutside(targets, w, w, u, {}, sidecars);
    v, first := WriteSidecar(env, w, sidecars, taken, WriteNew(n), changes[n].after);
    if first.None? {
      return v, None, {};
    }
    MakesFile(targets, w, u, {}, first.value, changes[n].after);
    FreshSidecar(changes, targets, staged, u, v, first.value, changes[n].after, {});
    var more := sidecars + {first.value};
    ghost var was := v;
    u := Meddled(v, more, env.edits(WriteOld(n)));
    OutsideIs(v, more, env.edits(WriteOld(n)));
    OutsideStaging(changes, targets, staged, v, u, more);
    SameHolds(v, u, first.value, changes[n].after);
    made := {first.value};
    assert {} + made == made;
    MakesOutside(targets, w, v, u, made, more);
    v, second := WriteSidecar(env, v, more, taken + {first.value}, WriteOld(n), changes[n].before);
    GrowsOn(env, w, was, v);
    if second.None? {
      was := v;
      u := Meddled(v, more, env.edits(Unstage(n)));
      OutsideIs(v, more, env.edits(Unstage(n)));
      OutsideStaging(changes, targets, staged, v, u, more);
      RemovedStaging(changes, targets, staged, u, first.value);
      MakesOutside(targets, w, was, u, made, more);
      MakesRemoval(targets, w, u, made, first.value);
      v := Remove(env, v, more, Unstage(n), first.value);
      GrowsOn(env, w, was, v);
      return v, None, made;
    }
    MakesFile(targets, w, u, made, second.value, changes[n].before);
    made := made + {second.value};
    FreshSidecar(changes, targets, staged, u, v, second.value, changes[n].before, {first.value});
    SameHolds(u, v, first.value, changes[n].after);
    s := Some(Staged(targets[n], first.value, second.value));
    PreparedMore(changes, targets, staged, v, s.value);
  }

  lemma PreparedMore(changes: seq<Change>, targets: seq<File>, staged: seq<Staged>, w: World, s: Staged)
    requires Prepared(changes, targets, staged, w) && |staged| < |targets| && s.target == targets[|staged|]
    requires |staged| < |changes| && s.newPath != s.backup && s.newPath !in targets && s.backup !in targets
    requires s.newPath !in Sidecars(staged) && s.backup !in Sidecars(staged)
    requires Holds(w, s.newPath, changes[|staged|].after) && Holds(w, s.backup, changes[|staged|].before)
    ensures Prepared(changes, targets, staged + [s], w)
  {
    hide Staging, Intact, Sidecars;
    StagingMore(changes, targets, staged, w, s);
  }

  lemma SameHolds(w: World, v: World, p: File, text: string)
    requires Holds(w, p, text) && Same(w.files, v.files, p)
    ensures Holds(v, p, text)
  {
  }

  lemma PreparedSizes(changes: seq<Change>, targets: seq<File>, staged: seq<Staged>, w: World)
    requires Prepared(changes, targets, staged, w)
    ensures |targets| == |changes| && |staged| <= |targets|
  {
  }

  /** Give up before anything was replaced: only sidecars go. */
  method Abandon(env: Env, changes: seq<Change>, targets: seq<File>, staged: seq<Staged>, w: World) returns (v: World)
    requires Prepared(changes, targets, staged, w)
    ensures Intact(changes, targets, v) && v.moved == map[] && Grows(env, w, v)
    ensures Keeps(w, v, Sidecars(staged)) && w.outside <= v.outside && Swept(env, staged, v, {}, |staged|)
  {
    hide Staging, Intact, Sidecars, Settled, Spares, Swept, Keeps;
    var none: map<nat, File> := map[];
    assert none.Keys == {};
    PreparedSizes(changes, targets, staged, w);
    StagingSettles(env, changes, targets, staged, w);
    v := CleanUp(env, changes[..|staged|], staged, w, 0, map[]);
    SidecarsApart(changes, targets, staged, w);
    IntactSpares(env, changes, targets, w, v, Sidecars(staged));
    SparesGrows(env, w, v, Sidecars(staged));
  }

  /** Stage every target's new text and recovery copy, then recheck them all. */
  method StageAll(env: Env, changes: seq<Change>, targets: seq<File>, w: World)
    returns (v: World, staged: seq<Staged>, ok: bool, ghost made: set<File>)
    requires Intact(changes, targets, w) && NoDup(targets) && |targets| == |changes| && w.moved == map[]
    ensures Intact(changes, targets, v) && v.moved == map[] && Grows(env, w, v)
    ensures ok ==> |staged| == |changes| && Prepared(changes, targets, staged, v)
    ensures !ok ==> exists k :: 0 <= k < |targets| && Unstaged(env, v, k, targets[k])
    ensures Makes(targets, w, v, made) && Sidecars(staged) <= made && |staged| <= |targets|
    ensures forall k :: 0 <= k < |staged| ==> staged[k].target == targets[k]
    ensures ok ==> made == Sidecars(staged)
    ensures !ok ==> Swept(env, staged, v, {}, |staged|) && AllButStranded(env, staged, v, made)
  {
    hide Staging, Intact, Prepared, Grows, Makes, Sidecars, Keeps, Swept;
    v, staged, made := w, [], {};
    StagingStarts(changes, targets, w);
    GrowsNot(env, w);
    MakesNot(targets, w);
    NoSidecars();
    for i := 0 to |changes|
      invariant |staged| == i && Prepared(changes, targets, staged, v) && Grows(env, w, v)
      invariant Makes(targets, w, v, made) && made == Sidecars(staged)
    {
      var s;
      ghost var was, more := v, {};
      PreparedTargets(changes, targets, staged, v);
      v, s, more := StageOne(env, changes, targets, staged, v);
      GrowsOn(env, w, was, v);
      MakesOn(targets, w, was, v, made, more);
      if s.None? {
        was := v;
        v := Abandon(env, changes, targets, staged, v);
        GrowsOn(env, w, was, v);
        assert Unstaged(env, v, i, targets[i]);
        MakesKept(targets, w, was, v, made + more, made);
        StrandedStays(env, staged, was, v, made, more);
        return v, staged, false, made + more;
      }
      SidecarsSnoc(staged, s.value);
      staged, made := staged + [s.value], made + more;
    }
    ghost var was := v;
    PreparedTargets(changes, targets, staged, v);
    v, ok := RecheckAll(env, changes, targets, staged, v);
    GrowsOn(env, w, was, v);
    MakesKept(targets, w, was, v, made, made);
    if ok {
      PreparedIntact(changes, targets, staged, v);
    }
  }

  /** Beside the staged sidecars, what was made is gone, or is the first half of a pair no call could undo. */
  ghost predicate AllButStranded(env: Env, staged: seq<Staged>, w: World, made: set<File>) {
    forall p :: p in made && p !in Sidecars(staged) && p in w.files && p !in w.outside ==> Stranded(env, |staged|)
  }

  lemma StrandedStays(env: Env, staged: seq<Staged>, w: World, v: World, made: set<File>, more: set<File>)
    requires Keeps(w, v, made) && made == Sidecars(staged) && more !! made
    requires forall p :: p in more && p in w.files ==> Stranded(env, |staged|)
    ensures AllButStranded(env, staged, v, made + more)
  {
    hide Sidecars, Stranded;
    forall p | p in more && p in v.files && p !in v.outside ensures Stranded(env, |staged|) {
      assert Same(w.files, v.files, p);
    }
  }

  lemma NoSidecars()
    ensures Sidecars([]) == {}
  {
  }

  lemma SidecarsSnoc(staged: seq<Staged>, s: Staged)
    ensures Sidecars(staged + [s]) == Sidecars(staged) + {s.newPath, s.backup}
  {
    var more := staged + [s];
    assert more[|staged|] == s;
    forall p | p in Sidecars(staged) ensures p in Sidecars(more) {
      var k :| 0 <= k < |staged| && (staged[k].newPath == p || staged[k].backup == p);
      assert more[k] == staged[k];
    }
  }

  lemma PreparedTargets(changes: seq<Change>, targets: seq<File>, staged: seq<Staged>, w: World)
    requires Prepared(changes, targets, staged, w)
    ensures |staged| <= |targets| && forall k :: 0 <= k < |staged| ==> staged[k].target == targets[k]
  {
  }

  /** Refuse to overwrite a target that changed while the sidecars were written. */
  method RecheckAll(env: Env, changes: seq<Change>, targets: seq<File>, staged: seq<Staged>, w: World)
    returns (v: World, ok: bool)
    requires Prepared(changes, targets, staged, w) && |targets| == |changes|
    ensures Intact(changes, targets, v) && v.moved == map[] && Grows(env, w, v)
    ensures ok ==> Prepared(changes, targets, staged, v)
    ensures !ok ==> exists k :: 0 <= k < |targets| && Unstaged(env, v, k, targets[k])
    ensures Keeps(w, v, Sidecars(staged)) && w.outside <= v.outside
    ensures !ok ==> Swept(env, staged, v, {}, |staged|)
  {
    hide Staging, Intact, Sidecars, Meddled, Follows, Prepared, Grows, Keeps, Swept;
    v := w;
    GrowsNot(env, w);
    KeepsNot(w, Sidecars(staged));
    for i := 0 to |changes|
      invariant Prepared(changes, targets, staged, v) && Grows(env, w, v)
      invariant Keeps(w, v, Sidecars(staged)) && w.outside <= v.outside
    {
      ghost var was := v;
      var current;
      v, current := ReadFile(env, v, Sidecars(staged), Recheck(i), targets[i]);
      OutsideIs(was, Sidecars(staged), env.edits(Recheck(i)));
      OutsideStaging(changes, targets, staged, was, v, Sidecars(staged));
      GrowsOn(env, w, was, v);
      KeepsOutside(was, v, Sidecars(staged), Sidecars(staged));
      KeepsOn(w, was, v, Sidecars(staged));
      PreparedText(changes, targets, staged, v, i);
      if current != Some(changes[i].before) {
        was := v;
        assert Unstaged(env, v, i, targets[i]);
        v := Abandon(env, changes, targets, staged, v);
        GrowsOn(env, w, was, v);
        KeepsOn(w, was, v, Sidecars(staged));
        StillUnstaged(env, was, v, i, targets[i]);
        return v, false;
      }
    }
    PreparedIntact(changes, targets, staged, v);
    ok := true;
  }

  lemma PreparedText(changes: seq<Change>, targets: seq<File>, staged: seq<Staged>, w: World, i: nat)
    requires Prepared(changes, targets, staged, w) && i < |targets| == |changes|
    ensures targets[i] !in w.outside ==> TextAt(w, targets[i]) == Some(changes[i].before)
  {
    hide Staging;
  }

  lemma PreparedIntact(changes: seq<Change>, targets: seq<File>, staged: seq<Staged>, w: World)
    requires Prepared(changes, targets, staged, w)
    ensures Intact(changes, targets, w) && w.moved == map[]
  {
  }

  lemma StillUnstaged(env: Env, w: World, v: World, k: nat, target: File)
    requires Unstaged(env, w, k, target) && Grows(env, w, v)
    ensures Unstaged(env, v, k, target)
  {
  }

  lemma StagingStarts(changes: seq<Change>, targets: seq<File>, w: World)
    requires Intact(changes, targets, w) && NoDup(targets) && |targets| == |changes| && w.moved == map[]
    ensures Prepared(changes, targets, [], w)
  {
  }

  lemma ReplacingStarts(env: Env, changes: seq<Change>, targets: seq<File>, staged: seq<Staged>, w: World)
    requires Prepared(changes, targets, staged, w) && |staged| == |changes|
    ensures Midway(env, changes, staged, w, 0)
    ensures |targets| == |changes| && forall k :: 0 <= k < |staged| ==> staged[k].target == targets[k]
  {
    hide Apart, NoDup;
  }

  // ---- the whole operation ---------------------------------------------------------

  /** Success: each target had its new text put there for good and, unless an outsider changed it, holds it. */
  ghost predicate Persisted(changes: seq<Change>, resolve: File -> Option<File>, staged: seq<Staged>, w: World) {
    && |staged| == |changes|
    && forall k :: 0 <= k < |changes| ==>
         && resolve(changes[k].path) == Some(staged[k].target) && Restore(k) !in w.moved
         && Install(k) in w.moved && w.moved[Install(k)].put == changes[k].after
         && StillHolds(w, staged[k], changes[k].after)
  }

  /**
    Refusal: unless an outsider changed it, each target is as it was, or holds its new text
    with a recovery copy retained; every retained copy holds the text from before; and every
    target that was replaced and not restored has one.
   */
  ghost predicate Recoverable(
      changes: seq<Change>, resolve: File -> Option<File>, staged: seq<Staged>, start: map<File, string>, w: World,
      retained: map<nat, File>)
  {
    && (forall k :: 0 <= k < |changes| && resolve(changes[k].path).Some? ==>
          var t := resolve(changes[k].path).value;
          t in w.outside || Same(start, w.files, t) || (k in retained && Holds(w, t, changes[k].after)))
    && (forall k :: k in retained ==> k < |changes| && Holds(w, retained[k], changes[k].before))
    && Accounted(staged, w, retained)
  }

  /** Why a run was refused at change `k`: how it was posed, a call that failed, or an outside edit. */
  ghost predicate Blocked(
      env: Env, changes: seq<Change>, resolve: File -> Option<File>, start: map<File, string>, w: World, k: nat)
    requires k < |changes|
  {
    || Unready(env, changes, resolve, start, w, k)
    || Unstaged(env, w, k, resolve(changes[k].path).value)
    || Stopped(env, w, k, resolve(changes[k].path).value)
  }

  /** The targets are those the changes resolve to. */
  ghost predicate ResolvedTo(changes: seq<Change>, resolve: File -> Option<File>, targets: seq<File>) {
    |targets| == |changes| && forall k :: 0 <= k < |changes| ==> resolve(changes[k].path) == Some(targets[k])
  }

  ghost predicate StagedFor(staged: seq<Staged>, targets: seq<File>) {
    |staged| == |targets| && forall k :: 0 <= k < |staged| ==> staged[k].target == targets[k]
  }

  lemma RefusedIntact(
      changes: seq<Change>, resolve: File -> Option<File>, targets: seq<File>, staged: seq<Staged>,
      start: map<File, string>, w: World)
    requires Intact(changes, targets, w) && ResolvedTo(changes, resolve, targets) && w.moved == map[]
    requires Intact(changes, targets, World(start, w.outside, map[]))
    ensures Recoverable(changes, resolve, staged, start, w, map[])
  {
    forall k | 0 <= k < |changes| && targets[k] !in w.outside ensures Same(start, w.files, targets[k]) {
      assert Holds(w, targets[k], changes[k].before);
      assert Holds(World(start, w.outside, map[]), targets[k], changes[k].before);
    }
  }

  lemma RefusedSettled(
      env: Env, changes: seq<Change>, resolve: File -> Option<File>, targets: seq<File>, staged: seq<Staged>,
      start: map<File, string>, w: World, i: nat, retained: map<nat, File>)
    requires Settled(env, changes, staged, w, i, retained) && ResolvedTo(changes, resolve, targets)
    requires StagedFor(staged, targets) && Intact(changes, targets, World(start, w.outside, map[]))
    ensures Recoverable(changes, resolve, staged, start, w, retained) && Honest(env, changes, staged, w)
  {
    hide Apart, Honest, Accounted;
    forall k | 0 <= k < |changes| && targets[k] !in w.outside
      ensures Same(start, w.files, targets[k]) || (k in retained && Holds(w, targets[k], changes[k].after))
    {
      assert Holds(World(start, w.outside, map[]), targets[k], changes[k].before);
    }
  }

  lemma StartIntact(
      env: Env, changes: seq<Change>, targets: seq<File>, start: map<File, string>, w: World, v: World)
    requires Intact(changes, targets, w) && Spares(env, Began(start), w, {}) && Grows(env, w, v)
    ensures Intact(changes, targets, World(start, v.outside, map[])) && Grows(env, Began(start), v)
  {
    GrowsOn(env, Began(start), w, v);
    forall k | 0 <= k < |targets| && targets[k] !in v.outside
      ensures Holds(World(start, v.outside, map[]), targets[k], changes[k].before)
    {
      assert Same(start, w.files, targets[k]);
    }
  }

  lemma RefusedEarly(
      env: Env, changes: seq<Change>, resolve: File -> Option<File>, start: map<File, string>, w: World)
    requires Spares(env, Began(start), w, {})
    ensures Recoverable(changes, resolve, [], start, w, map[]) && Grows(env, Began(start), w)
  {
  }

  /** Replace every target in turn; on the first failure, roll back. */
  method ReplaceAll(env: Env, changes: seq<Change>, staged: seq<Staged>, w: World)
    returns (v: World, r: Outcome, ghost i: nat)
    requires Midway(env, changes, staged, w, 0)
    ensures r.Done? ==> Midway(env, changes, staged, v, |staged|)
    ensures r.Refused? ==> Settled(env, changes, staged, v, i, r.retained) && AllHindered(env, staged, v, r.retained)
    ensures r.Refused? ==> i < |staged| && Stopped(env, v, i, staged[i].target)
    ensures Grows(env, w, v) && Keeps(w, v, Ours(staged))
    ensures r.Refused? ==> Swept(env, staged, v, r.retained.Keys, |staged|)
  {
    hide Midway, Settled, Grows, AllHindered, Keeps, Ours, Swept;
    v := w;
    GrowsNot(env, w);
    KeepsNot(w, Ours(staged));
    for n := 0 to |staged|
      invariant Midway(env, changes, staged, v, n) && Grows(env, w, v) && Keeps(w, v, Ours(staged))
    {
      var ok;
      ghost var was := v;
      v, ok := ReplaceOne(env, changes, staged, v, n);
      GrowsOn(env, w, was, v);
      KeepsOn(w, was, v, Ours(staged));
      if !ok {
        var retained;
        was := v;
        v, retained := RollBack(env, changes, staged, v, n);
        GrowsOn(env, w, was, v);
        GrowsOutside(env, was, v);
        KeepsOn(w, was, v, Ours(staged));
        StillStopped(env, was, v, n, staged[n].target);
        return v, Refused(retained), n;
      }
    }
    r, i := Done, |staged|;
  }

  lemma GrowsOutside(env: Env, w: World, v: World)
    requires Grows(env, w, v)
    ensures w.outside <= v.outside
  {
  }

  lemma StillStopped(env: Env, w: World, v: World, k: nat, target: File)
    requires Stopped(env, w, k, target) && Grows(env, w, v)
    ensures Stopped(env, v, k, target)
  {
  }

  /** The recovery copies are no longer needed. */
  method DropCopies(env: Env, staged: seq<Staged>, w: World) returns (v: World)
    requires forall k :: 0 <= k < |staged| ==> staged[k].newPath !in w.files
    ensures Spares(env, w, v, Sidecars(staged)) && NoneBack(staged, w, v) && Swept(env, staged, v, {}, |staged|)
  {
    hide Spares, Sidecars, Meddled, Follows, Grows, Swept, NoneBack;
    v := w;
    NothingSpared(env, w, Sidecars(staged));
    NoneSwept(env, staged, w, {});
    NoneBackNow(staged, w);
    for n := 0 to |staged|
      invariant Spares(env, w, v, Sidecars(staged)) && NoneBack(staged, w, v) && Swept(env, staged, v, {}, n)
    {
      ghost var was := v;
      ghost var u := Meddled(v, Sidecars(staged), env.edits(DropOld(n)));
      OutsideIs(v, Sidecars(staged), env.edits(DropOld(n)));
      GrowsBy(env, v, Sidecars(staged), DropOld(n));
      SparesOutside(env, w, v, u, Sidecars(staged));
      InSidecars(staged, n);
      SparesRemoval(env, w, u, Sidecars(staged), staged[n].backup);
      v := Remove(env, v, Sidecars(staged), DropOld(n), staged[n].backup);
      NoneComesBack(staged, was, u, v);
      NoneBackOn(staged, w, was, v);
      SweptOn(env, staged, was, v, {}, n);
      StaysGone(staged, w, v, staged[n].newPath);
      SweptMore(env, staged, v, {}, n);
    }
  }

  lemma NoneBackNow(staged: seq<Staged>, w: World)
    ensures NoneBack(staged, w, w)
  {
  }

  lemma NoneBackOn(staged: seq<Staged>, w: World, was: World, v: World)
    requires NoneBack(staged, w, was) && NoneBack(staged, was, v)
    ensures NoneBack(staged, w, v)
  {
    hide Sidecars;
  }

  lemma DonePersists(
      env: Env, changes: seq<Change>, resolve: File -> Option<File>, targets: seq<File>, staged: seq<Staged>, w: World,
      v: World)
    requires Midway(env, changes, staged, w, |staged|) && Spares(env, w, v, Sidecars(staged))
    requires ResolvedTo(changes, resolve, targets) && StagedFor(staged, targets)
    ensures Persisted(changes, resolve, staged, v) && Honest(env, changes, staged, v)
  {
    forall k | 0 <= k < |staged| ensures StillHolds(v, staged[k], changes[k].after) {
      TargetSpared(staged, k);
      if staged[k].target !in v.outside {
        assert Same(w.files, v.files, staged[k].target);
      }
    }
  }

  lemma TargetSpared(staged: seq<Staged>, k: nat)
    requires Apart(staged) && k < |staged|
    ensures staged[k].target !in Sidecars(staged)
  {
  }

  ghost predicate IsTarget(changes: seq<Change>, resolve: File -> Option<File>, p: File) {
    exists k :: 0 <= k < |changes| && resolve(changes[k].path) == Some(p)
  }

  /** Why a sidecar is left behind: it is a retained copy, or the call that removes it failed. */
  ghost predicate Left(env: Env, staged: seq<Staged>, r: Outcome, p: File) {
    || (exists k :: 0 <= k < |staged| && LeftOf(env, staged[k], r, p, k))
    || (r.Refused? && Stranded(env, |staged|))
  }

  ghost predicate LeftOf(env: Env, s: Staged, r: Outcome, p: File, k: nat) {
    || (p == s.newPath && r.Refused? && !env.works(DropNew(k)))
    || (p == s.backup && ((r.Refused? && k in r.retained && r.retained[k] == p) || !env.works(DropOld(k))))
  }

  /** Any file beside the targets, unless outsiders changed it, is as it was, or is a sidecar left behind. */
  ghost predicate Tidy(
      env: Env, changes: seq<Change>, resolve: File -> Option<File>, start: map<File, string>, w: World, r: Outcome,
      staged: seq<Staged>)
  {
    forall p :: p !in w.outside && !IsTarget(changes, resolve, p) ==>
      Same(start, w.files, p) || (p in w.files && p !in start && Left(env, staged, r, p))
  }

  lemma TargetsAre(changes: seq<Change>, resolve: File -> Option<File>, targets: seq<File>, p: File)
    requires ResolvedTo(changes, resolve, targets)
    ensures p in targets <==> IsTarget(changes, resolve, p)
  {
    if p in targets {
      var k :| 0 <= k < |targets| && targets[k] == p;
      assert resolve(changes[k].path) == Some(p);
    }
  }

  /** Of what was made, a file still there is left for cause. */
  ghost predicate AllLeft(env: Env, staged: seq<Staged>, r: Outcome, w: World, made: set<File>) {
    forall p :: p in made && p in w.files && p !in w.outside ==> Left(env, staged, r, p)
  }

  lemma SweptLeft(env: Env, staged: seq<Staged>, w: World, r: Outcome, retained: set<nat>, made: set<File>)
    requires Swept(env, staged, w, retained, |staged|) && (r.Done? ==> retained == {})
    requires r.Done? ==> forall k :: 0 <= k < |staged| ==> staged[k].newPath !in w.files
    requires r.Refused? ==> retained == r.retained.Keys
    requires
      r.Refused? ==> forall k :: k in r.retained ==> k < |staged| && r.retained[k] == staged[k].backup
    requires made == Sidecars(staged) || (r.Refused? && AllButStranded(env, staged, w, made))
    ensures AllLeft(env, staged, r, w, made)
  {
    hide Stranded;
    forall p | p in made && p in w.files && p !in w.outside ensures Left(env, staged, r, p) {
      if p in Sidecars(staged) {
        var k :| 0 <= k < |staged| && (staged[k].newPath == p || staged[k].backup == p);
        assert SweptAt(env, staged[k], w, retained, k);
        assert LeftOf(env, staged[k], r, p, k);
      }
    }
  }

  /** From the preflight's end on: what was made, then what was kept. */
  lemma MadeTidy(
      env: Env, changes: seq<Change>, resolve: File -> Option<File>, targets: seq<File>, start: map<File, string>,
      checked: World, ready: World, w: World, r: Outcome, staged: seq<Staged>, made: set<File>, mine: set<File>)
    requires ResolvedTo(changes, resolve, targets) && Keeps(Began(start), checked, {})
    requires Makes(targets, checked, ready, made) && Keeps(ready, w, mine) && ready.outside <= w.outside
    requires forall p :: p in mine ==> p in made || p in targets
    requires AllLeft(env, staged, r, w, made)
    ensures Tidy(env, changes, resolve, start, w, r, staged)
  {
    hide Left, IsTarget, Same, Makes, Keeps;
    forall p | p !in w.outside && !IsTarget(changes, resolve, p)
      ensures Same(start, w.files, p) || (p in w.files && p !in start && Left(env, staged, r, p))
    {
      TargetsAre(changes, resolve, targets, p);
      if p in made {
        NotBefore(targets, start, checked, ready, made, p);
        NeitherSame(start, w.files, p);
      } else {
        UntouchedSame(start, targets, checked, ready, w, made, mine, p);
      }
    }
  }

  lemma NeitherSame(start: map<File, string>, files: map<File, string>, p: File)
    requires p !in start
    ensures p !in files ==> Same(start, files, p)
  {
  }

  lemma NotBefore(
      targets: seq<File>, start: map<File, string>, checked: World, ready: World, made: set<File>, p: File)
    requires Keeps(Began(start), checked, {}) && Makes(targets, checked, ready, made) && p in made
    ensures p !in start
  {
    assert Same(start, checked.files, p);
  }

  lemma UntouchedSame(
      start: map<File, string>, targets: seq<File>, checked: World, ready: World, w: World, made: set<File>,
      mine: set<File>, p: File)
    requires Keeps(Began(start), checked, {}) && Makes(targets, checked, ready, made) && Keeps(ready, w, mine)
    requires ready.outside <= w.outside && p !in w.outside && p !in made && p !in mine
    ensures Same(start, w.files, p)
  {
    assert Same(start, checked.files, p) && Same(checked.files, ready.files, p) && Same(ready.files, w.files, p);
  }

  lemma OursMade(staged: seq<Staged>, targets: seq<File>)
    requires StagedFor(staged, targets)
    ensures forall p :: p in Ours(staged) ==> p in Sidecars(staged) || p in targets
  {
    hide Sidecars;
    forall p | p in Ours(staged) && p !in Sidecars(staged) ensures p in targets {
      var k :| 0 <= k < |staged| && staged[k].target == p;
      assert targets[k] == p;
    }
  }

  lemma RetainedBackups(
      env: Env, changes: seq<Change>, staged: seq<Staged>, w: World, i: nat, retained: map<nat, File>)
    requires Settled(env, changes, staged, w, i, retained)
    ensures forall k :: k in retained ==> k < |staged| && retained[k] == staged[k].backup
  {
    hide Honest, StillHolds, Apart;
  }

  lemma InstalledGone(env: Env, changes: seq<Change>, staged: seq<Staged>, w: World)
    requires Midway(env, changes, staged, w, |staged|)
    ensures forall k :: 0 <= k < |staged| ==> staged[k].newPath !in w.files
  {
    hide Honest, Apart, MovesMade;
  }

  lemma StillGone(staged: seq<Staged>, w: World, v: World)
    requires NoneBack(staged, w, v) && forall k :: 0 <= k < |staged| ==> staged[k].newPath !in w.files
    ensures forall k :: 0 <= k < |staged| ==> staged[k].newPath !in v.files
  {
    hide Sidecars;
    forall k | 0 <= k < |staged| ensures staged[k].newPath !in v.files {
      InSidecars(staged, k);
    }
  }

  /** A run refused before it made anything. */
  lemma TidyEarly(
      env: Env, changes: seq<Change>, resolve: File -> Option<File>, start: map<File, string>, w: World, r: Outcome)
    requires Keeps(Began(start), w, {})
    ensures Tidy(env, changes, resolve, start, w, r, [])
  {
    hide Left, IsTarget, Same;
  }

  /** What a run ends with, whatever its surroundings. */
  ghost predicate Ends(
      env: Env, changes: seq<Change>, resolve: File -> Option<File>, start: map<File, string>, w: World, r: Outcome,
      staged: seq<Staged>)
  {
    && (r.Done? ==> Persisted(changes, resolve, staged, w))
    && (r.Refused? ==>
          && Recoverable(changes, resolve, staged, start, w, r.retained)
          && AllHindered(env, staged, w, r.retained)
          && exists k :: 0 <= k < |changes| && Blocked(env, changes, resolve, start, w, k))
    && (forall k :: 0 <= k < |staged| && k < |changes| ==> resolve(changes[k].path) == Some(staged[k].target))
    && Honest(env, changes, staged, w) && Grows(env, Began(start), w)
    && Tidy(env, changes, resolve, start, w, r, staged)
  }

  /**
    The whole operation, whatever outsiders do and whichever calls fail. Success installs
    every new text, whatever becomes of it after. A refusal has a cause and is recoverable,
    and each copy it retains has one: a rollback call that failed, or an outside edit of
    that target. Each replacement puts its own text and overwrites what its recheck saw, or
    what outsiders wrote after.
   */
  method Persist(env: Env, changes: seq<Change>, resolve: File -> Option<File>, start: map<File, string>)
    returns (w: World, r: Outcome, staged: seq<Staged>)
    ensures Ends(env, changes, resolve, start, w, r, staged)
  {
    hide Midway, Settled, Prepared, Intact, Spares, Persisted, Recoverable, Sidecars, NoDup, Unready, Unstaged, Stopped,
      Honest, AllHindered, Grows, Tidy, Makes, Keeps, Swept, AllLeft, AllButStranded, Ours, NoneBack;
    var targets;
    w, targets := Preflight(env, changes, resolve, start);
    staged := [];
    if targets.None? {
      RefusedEarly(env, changes, resolve, start, w);
      NoneRetained(env, changes, w);
      ghost var k :| 0 <= k < |changes| && Unready(env, changes, resolve, start, w, k);
      assert Blocked(env, changes, resolve, start, w, k);
      SparesGrows(env, Began(start), w, {});
      TidyEarly(env, changes, resolve, start, w, Refused(map[]));
      return w, Refused(map[]), [];
    }
    ghost var checked := w;
    SparesGrows(env, Began(start), w, {});
    var ok;
    ghost var made;
    w, staged, ok, made := StageAll(env, changes, targets.value, w);
    StartIntact(env, changes, targets.value, start, checked, w);
    if !ok {
      RefusedIntact(changes, resolve, targets.value, staged, start, w);
      NoneMoved(env, changes, staged, w);
      ghost var k :| 0 <= k < |changes| && Unstaged(env, w, k, targets.value[k]);
      assert Blocked(env, changes, resolve, start, w, k);
      SweptLeft(env, staged, w, Refused(map[]), {}, made);
      KeepsNot(w, {});
      MadeTidy(
        env, changes, resolve, targets.value, start, checked, w, w, Refused(map[]), staged, made, {});
      return w, Refused(map[]), staged;
    }
    ReplacingStarts(env, changes, targets.value, staged, w);
    ghost var ready := w;
    ghost var i;
    w, r, i := ReplaceAll(env, changes, staged, w);
    GrowsOn(env, checked, ready, w);
    GrowsOutside(env, ready, w);
    OursMade(staged, targets.value);
    if r.Done? {
      ghost var done := w;
      InstalledGone(env, changes, staged, w);
      w := DropCopies(env, staged, w);
      SparesGrows(env, done, w, Sidecars(staged));
      GrowsOn(env, checked, done, w);
      DonePersists(env, changes, resolve, targets.value, staged, done, w);
      StillGone(staged, done, w);
      SidecarsOurs(staged);
      KeepsMore(done, w, Sidecars(staged), Ours(staged));
      KeepsOn(ready, done, w, Ours(staged));
      SweptLeft(env, staged, w, r, {}, made);
    } else {
      RetainedBackups(env, changes, staged, w, i, r.retained);
      SweptLeft(env, staged, w, r, r.retained.Keys, made);
      StartIntact(env, changes, targets.value, start, checked, w);
      RefusedSettled(env, changes, resolve, targets.value, staged, start, w, i, r.retained);
      assert Blocked(env, changes, resolve, start, w, i);
    }
    StartIntact(env, changes, targets.value, start, checked, w);
    MadeTidy(env, changes, resolve, targets.value, start, checked, ready, w, r, staged, made, Ours(staged));
  }

  lemma NoneMoved(env: Env, changes: seq<Change>, staged: seq<Staged>, w: World)
    requires w.moved == map[]
    ensures AllHindered(env, staged, w, map[]) && Honest(env, changes, staged, w)
  {
  }

  lemma NoneRetained(env: Env, changes: seq<Change>, w: World)
    ensures AllHindered(env, [], w, map[]) && Honest(env, changes, [], w)
  {
  }

  // ---- what follows for a caller ---------------------------------------------------

  /** Every change resolves to a file of its own that held its old text. */
  ghost predicate WellPosed(changes: seq<Change>, resolve: File -> Option<File>, start: map<File, string>) {
    forall k :: 0 <= k < |changes| ==> !Misposed(changes, resolve, start, k)
  }

  /** No outsider ever touches a target. */
  ghost predicate Undisturbed(env: Env, changes: seq<Change>, resolve: File -> Option<File>) {
    forall k, c :: 0 <= k < |changes| && resolve(changes[k].path).Some? ==>
      resolve(changes[k].path).value !in env.edits(c)
  }

  lemma NotOutside(
      env: Env, changes: seq<Change>, resolve: File -> Option<File>, start: map<File, string>, w: World, k: nat)
    requires Undisturbed(env, changes, resolve) && Grows(env, Began(start), w)
    requires k < |changes| && resolve(changes[k].path).Some?
    ensures resolve(changes[k].path).value !in w.outside
  {
    assert forall c :: resolve(changes[k].path).value !in env.edits(c);
  }

  /** Well posed, undisturbed and with every call working, the operation succeeds. */
  lemma QuietSuccess(
      env: Env, changes: seq<Change>, resolve: File -> Option<File>, start: map<File, string>, w: World, r: Outcome,
      staged: seq<Staged>)
    requires Ends(env, changes, resolve, start, w, r, staged)
    requires WellPosed(changes, resolve, start) && Undisturbed(env, changes, resolve) && forall c :: env.works(c)
    ensures r.Done?
    ensures forall k :: 0 <= k < |changes| ==> Holds(w, resolve(changes[k].path).value, changes[k].after)
  {
    hide Recoverable, AllHindered, Honest, Grows;
    forall k | 0 <= k < |changes|
      ensures resolve(changes[k].path).Some? && resolve(changes[k].path).value !in w.outside
      ensures !Blocked(env, changes, resolve, start, w, k)
    {
      assert !Misposed(changes, resolve, start, k);
      NotOutside(env, changes, resolve, start, w, k);
    }
  }

  /** Undisturbed and with every rollback call working, a refusal leaves every target as it was, and no copy. */
  lemma QuietRefusal(
      env: Env, changes: seq<Change>, resolve: File -> Option<File>, start: map<File, string>, w: World, r: Outcome,
      staged: seq<Staged>)
    requires Ends(env, changes, resolve, start, w, r, staged) && r.Refused? && Undisturbed(env, changes, resolve)
    requires forall k :: env.works(CheckBack(k)) && env.works(Restore(k))
    ensures r.retained == map[]
    ensures forall k :: 0 <= k < |changes| && resolve(changes[k].path).Some? ==>
      Same(start, w.files, resolve(changes[k].path).value)
    ensures forall k :: 0 <= k < |staged| && Install(k) in w.moved ==> Restore(k) in w.moved
  {
    hide Honest, Grows, Blocked, Same, Holds;
    forall k | 0 <= k < |changes| && resolve(changes[k].path).Some?
      ensures resolve(changes[k].path).value !in w.outside
    {
      NotOutside(env, changes, resolve, start, w, k);
    }
    forall k | 0 <= k < |staged| && k < |changes| ensures !Hindered(env, w, k, staged[k].target) {
      assert env.works(CheckBack(k)) && env.works(Restore(k));
    }
    assert r.retained.Keys == {};
  }

  /** A retained copy has its cause: a rollback call of its own that failed, or an outside edit of its target. */
  lemma RetainedForCause(
      env: Env, changes: seq<Change>, resolve: File -> Option<File>, start: map<File, string>, w: World, r: Outcome,
      staged: seq<Staged>, k: nat)
    requires Ends(env, changes, resolve, start, w, r, staged) && r.Refused? && k in r.retained
    ensures k < |changes| && resolve(changes[k].path).Some? && Holds(w, r.retained[k], changes[k].before)
    ensures
      || !env.works(CheckBack(k)) || !env.works(Restore(k))
      || exists c :: resolve(changes[k].path).value in env.edits(c)
  {
    hide Honest, Blocked, Same;
    assert k < |staged| && Hindered(env, w, k, staged[k].target);
  }

  /** Every call that removes a sidecar works. */
  ghost predicate Removes(env: Env) {
    forall k :: env.works(Unstage(k)) && env.works(DropNew(k)) && env.works(DropOld(k))
  }

  /**
    With every removal call working no sidecar is left but the retained copies: any other file
    beside the targets is as it was, unless outsiders changed it.
   */
  lemma NothingLeft(
      env: Env, changes: seq<Change>, resolve: File -> Option<File>, start: map<File, string>, w: World, r: Outcome,
      staged: seq<Staged>, p: File)
    requires Ends(env, changes, resolve, start, w, r, staged) && Removes(env)
    requires p !in w.outside && !IsTarget(changes, resolve, p)
    requires r.Refused? ==> forall k :: k in r.retained ==> r.retained[k] != p
    ensures Same(start, w.files, p)
  {
    hide Honest, Blocked, Recoverable, Persisted, Grows, AllHindered, IsTarget, Same;
    assert Same(start, w.files, p) || Left(env, staged, r, p);
  }

  /** Undisturbed, with every rollback and removal call working, a refusal leaves every file as it was. */
  lemma RefusalLeavesAll(
      env: Env, changes: seq<Change>, resolve: File -> Option<File>, start: map<File, string>, w: World, r: Outcome,
      staged: seq<Staged>, p: File)
    requires Ends(env, changes, resolve, start, w, r, staged) && r.Refused? && Undisturbed(env, changes, resolve)
    requires Removes(env) && forall k :: env.works(CheckBack(k)) && env.works(Restore(k))
    requires p !in w.outside
    ensures Same(start, w.files, p)
  {
    hide Ends, Same, Removes, Undisturbed;
    QuietRefusal(env, changes, resolve, start, w, r, staged);
    if !IsTarget(changes, resolve, p) {
      NothingLeft(env, changes, resolve, start, w, r, staged, p);
    }
  }

  /**
    Each replacement put its own text. An outside edit of a target is overwritten only if it
    fell between a recheck and the replacement it guards.
   */
  lemma OverwrittenOnlyInRace(
      env: Env, changes: seq<Change>, resolve: File -> Option<File>, start: map<File, string>, w: World, r: Outcome,
      staged: seq<Staged>, k: nat)
    requires Ends(env, changes, resolve, start, w, r, staged) && k < |staged| && k < |changes|
    ensures resolve(changes[k].path) == Some(staged[k].target)
    ensures Install(k) in w.moved ==> w.moved[Install(k)].put == changes[k].after
    ensures Restore(k) in w.moved ==> w.moved[Restore(k)].put == changes[k].before
    ensures
      Install(k) in w.moved && staged[k].target !in env.edits(Install(k)) ==>
        w.moved[Install(k)].over == Some(changes[k].before)
    ensures
      Restore(k) in w.moved && staged[k].target !in env.edits(Restore(k)) ==>
        w.moved[Restore(k)].over == Some(changes[k].after)
  {
    hide Blocked, Same, Recoverable, Persisted, Grows;
    assert HonestAt(env, w, changes[k], staged[k].target, k);
  }
}
