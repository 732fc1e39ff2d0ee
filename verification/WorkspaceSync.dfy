/** The snapshot, synchronize and restore protocol. Every git command may fail. */
module WorkspaceSync {
  import opened Options
  import opened Repositories
  import opened SyncMoments

  // A merge base or, at most for commits of which the first is no ancestor of the second, none.
  ghost predicate IsMergeAnswer(objects: Objects, a: Id, b: Id, base: Option<Id>) {
    if base.Some? then IsMergeBase(objects, a, b, base.value) else !Ancestor(objects, a, b)
  }

  /** The questions about history that git answers, and the names it gives to commits. */
  datatype Git = Git(
    mergeBase: (Objects, Id, Id) -> Option<Id>,
    log: (Objects, Id) -> seq<Id>,
    name: (Objects, Commit) -> Id)
  {
    ghost predicate Sound() {
      && (forall o, a, b :: IsMergeAnswer(o, a, b, mergeBase(o, a, b)))
      && (forall o, a, id :: id in log(o, a) <==> Ancestor(o, id, a))
      && (forall o, commit :: MayBeNamed(o, commit, name(o, commit)))
    }
  }

  /** What is not decided by the repository, command by command: whether the command succeeds, what a fetch brings,
      the remote's answer, what a command that breaks off leaves behind, and whether a failed pull says that there is
      no upstream. */
  datatype World = World(
    answers: nat -> bool,
    objects: nat -> Objects,
    remotes: nat -> map<Ref, Id>,
    said: nat -> Id,
    index: nat -> Files,
    files: nat -> Files,
    gone: nat -> bool)

  datatype Capture = NothingLocal | CaptureFailed | Captured(id: Id)

  datatype Verdict = Accepted | RejectedAndAnchored | Rejected

  /** How a synchronization of main ends. */
  datatype MainSync = Skipped | UpToDate | Created | FastForwarded(to: Id) | SyncedCheckedOut(to: Id) | Failed

  /** How the synchronization of a reused worktree ends. */
  datatype Reuse =
    | NotSwitched | NoUpstream | NoOriginRef | UpstreamGone
    | PulledForward | ResetForward | AdoptedRewrite | Diverged | Interrupted

  // ---------- what a repository allows ----------

  ghost predicate OnBranch(r: Repo, branch: string) {
    r.head == On(branch) && Tip(r, branch).Some?
  }

  // HEAD is unborn, or its commit is missing.
  predicate NoHead(r: Repo) {
    HeadId(r).None? || HeadId(r).value !in r.objects
  }

  // A fast-forward to the target is accepted: there is nothing to do, or it is a descendant and the working tree
  // can move to it.
  ghost predicate Takes(r: Repo, branch: string, target: Option<Id>)
    requires Tip(r, branch).Some?
  {
    && target.Some?
    && (|| Ancestor(r.objects, target.value, Tip(r, branch).value)
        || (&& target.value in r.objects && Ancestor(r.objects, Tip(r, branch).value, target.value)
            && CanMove(r, TreeOf(r.objects, target))))
  }

  // Tracked state that differs from HEAD but equals the tree of one of its ancestors.
  ghost predicate Residue(r: Repo) {
    exists id :: IsResidue(r, id)
  }

  ghost predicate IsResidue(r: Repo, id: Id) {
    var tracked, tree := Restricted(r.files, r.index.Keys), TreeOf(r.objects, Some(id));
    && HeadId(r).Some? && id != HeadId(r).value && Ancestor(r.objects, id, HeadId(r).value)
    && ((r.index != HeadTree(r) && r.index == tree) || (tracked != HeadTree(r) && tracked == tree))
  }

  // The commit is not the head, and has the tree.
  ghost predicate HasTree(r: Repo, id: Id, head: Id, tree: Files) {
    id != head && TreeOf(r.objects, Some(id)) == tree
  }

  lemma ResidueStays(r: Repo, after: Repo)
    requires after == r.(refs := after.refs) && HeadId(after) == HeadId(r)
    ensures Residue(r) ==> Residue(after)
  {
    if Residue(r) {
      var id :| IsResidue(r, id);
      assert IsResidue(after, id);
    }
  }

  predicate Moves(outcome: MainSync) {
    outcome.FastForwarded? || outcome.SyncedCheckedOut?
  }

  // Main was moved and the checkout that has it was left where it was: what was clean is residue.
  ghost predicate LeftBehind(start: Repo, end: Repo) {
    && end.files == start.files && end.index == start.index
    && (!Dirty(start) ==> (Residue(end) <==> HeadTree(end) != HeadTree(start)))
  }

  lemma RefMovedAlone(start: Repo, middle: Repo, end: Repo, id: Id)
    requires HasHead(start) && StillAt(start, middle) && end == middle.(refs := middle.refs[Branch("main") := id])
    requires Tip(start, "main").Some? && Tip(start, "main") != Some(id)
    requires Ancestor(middle.objects, Tip(start, "main").value, id)
    ensures end.head == On("main") ==> LeftBehind(start, end)
  {
    if end.head == On("main") && !Dirty(start) {
      assert Restricted(start.files, start.index.Keys) == start.index;
      var tip := Tip(start, "main").value;
      assert HeadTree(start) == TreeOf(end.objects, Some(tip));
      if HeadTree(end) != HeadTree(start) {
        assert IsResidue(end, tip);
      }
    }
  }

  // A snapshot of the same work is anchored already.
  ghost predicate AlreadyAnchored(start: Repo, end: Repo) {
    exists id :: Snapshot(id) in start.refs && SnapshotWork(end.objects, id) == Some(WorkOf(start))
  }

  // Branch and HEAD are where the upstream is.
  ghost predicate AtUpstream(r: Repo, branch: string, upstream: Ref) {
    upstream in r.refs && Tip(r, branch) == Some(r.refs[upstream]) && HeadId(r) == Some(r.refs[upstream])
  }

  // The repository with the branch, which is created where the remote has it if it is not there.
  function WithBranch(r: Repo, branch: string): Repo {
    if Branch(branch) in r.refs || Remote(branch) !in r.refs then r
    else r.(refs := r.refs[Branch(branch) := r.refs[Remote(branch)]])
  }

  // The switch to a branch is accepted.
  predicate CanSwitch(r: Repo, branch: string) {
    var to := WithBranch(r, branch);
    Branch(branch) in to.refs && to.refs[Branch(branch)] in r.objects && CanMove(r, TreeOf(r.objects, Tip(to, branch)))
  }

  // The checkout on the branch, with the local changes it had.
  function Switched(r: Repo, branch: string): Repo {
    var to := WithBranch(r, branch);
    var from, tree := HeadTree(r), TreeOf(r.objects, Tip(to, branch));
    to.(head := On(branch), index := Moved(r.index, from, tree), files := Moved(r.files, from, tree))
  }

  // Where the branch is, or where it would be created.
  ghost function StartingPoint(r: Repo, branch: string): Ref {
    if Branch(branch) in r.refs then Branch(branch) else Remote(branch)
  }

  /** A switch is accepted exactly when the branch or its remote branch is there, its commit is too, and the local
      changes can move to it; a branch that was missing starts where the remote has it, and no other ref changes. */
  lemma SwitchMeans(r: Repo, branch: string)
    ensures var at := StartingPoint(r, branch);
            && (CanSwitch(r, branch) <==>
                  at in r.refs && r.refs[at] in r.objects && CanMove(r, r.objects[r.refs[at]].tree))
            && (CanSwitch(r, branch) ==> Switched(r, branch).refs == r.refs[Branch(branch) := r.refs[at]])
  {
    var at := StartingPoint(r, branch);
    if at in r.refs {
      assert Tip(WithBranch(r, branch), branch) == Some(r.refs[at]);
    }
  }

  // The repository decides how it ends for a branch at tip, and where a reset leads.
  ghost predicate DecidedIn(r: Repo, tip: Id, upstream: Ref, pre: Id, outcome: Reuse, end: Repo) {
    && outcome == EndingIn(r, tip, upstream, pre)
    && (WasReset(outcome) ==> upstream in r.refs && HeadId(end) == Some(r.refs[upstream]))
  }

  predicate WasReset(outcome: Reuse) {
    outcome in {ResetForward, AdoptedRewrite}
  }

  // How a reset to the upstream ends when no command fails, for a branch at tip.
  ghost function EndingIn(r: Repo, tip: Id, upstream: Ref, pre: Id): Reuse {
    if upstream !in r.refs then Interrupted
    else
      var at := r.refs[upstream];
      var behind := tip != at && Ancestor(r.objects, tip, at);
      if !behind && tip != pre then Diverged
      else if at !in r.objects then Interrupted
      else if behind then ResetForward
      else AdoptedRewrite
  }

  // The objects with one more commit.
  ghost function Written(git: Git, objects: Objects, commit: Commit): (after: Objects)
    requires git.Sound()
    ensures Grown(objects, after) && git.name(objects, commit) in after && after[git.name(objects, commit)] == commit
  {
    assert MayBeNamed(objects, commit, git.name(objects, commit));
    objects[git.name(objects, commit) := commit]
  }

  // The objects with the commit of the tracked files, and its name.
  ghost function WithTracked(git: Git, objects: Objects, r: Repo, parents: seq<Id>): (s: (Objects, Id))
    requires git.Sound()
    ensures Grown(objects, s.0)
  {
    var commit := Commit(Restricted(r.files, r.index.Keys), parents);
    (Written(git, objects, commit), git.name(objects, commit))
  }

  // The objects with the rest of a snapshot, and the name of the snapshot.
  ghost function WithWork(git: Git, objects: Objects, r: Repo, head: Id, index: Id): (s: (Objects, Id))
    requires git.Sound()
    ensures Grown(objects, s.0)
  {
    var untracked := r.files - r.index.Keys;
    if untracked == map[] then WithTracked(git, objects, r, [head, index])
    else
      var commit := Commit(untracked, []);
      WithTracked(git, Written(git, objects, commit), r, [head, index, git.name(objects, commit)])
  }

  // The objects with a snapshot of the local work, and its name.
  ghost function Snapped(git: Git, r: Repo): (s: (Objects, Id))
    requires git.Sound() && !NoHead(r)
    ensures Grown(r.objects, s.0)
  {
    var head := HeadId(r).value;
    var commit := Commit(r.index, [head]);
    WithWork(git, Written(git, r.objects, commit), r, head, git.name(r.objects, commit))
  }

  // The clean checkout that a capture leaves.
  ghost function Cleared(git: Git, r: Repo): (after: Repo)
    requires git.Sound() && !NoHead(r)
    ensures HeadId(after) == HeadId(r) && HeadTree(after) == HeadTree(r) && !NoHead(after) && !Dirty(after)
  {
    var (objects, id) := Snapped(git, r);
    r.(objects := objects, refs := r.refs[Snapshot(id) := id], index := HeadTree(r), files := HeadTree(r))
  }

  // The commands of a capture, one more with untracked files.
  function CaptureLength(r: Repo): nat {
    if r.files - r.index.Keys == map[] then 9 else 10
  }

  // The branch is not behind its upstream, and not where the upstream was either.
  ghost predicate HasDiverged(r: Repo, branch: string, upstream: Ref, pre: Id) {
    && upstream in r.refs && Tip(r, branch).Some? && Tip(r, branch) != Some(pre)
    && (Tip(r, branch) == Some(r.refs[upstream]) || !Ancestor(r.objects, Tip(r, branch).value, r.refs[upstream]))
  }

  // Without a snapshot: what a hard reset, from the given state if there was one, made of the local work.
  ghost predicate Bare(start: Repo, end: Repo, undone: Option<Repo>) {
    if undone.None? then SameEdits(start, end)
    else SameEdits(start, undone.value) && end.files == ResetFiles(undone.value, HeadTree(end))
  }

  lemma CarriedIsBare(start: Repo, r: Repo)
    ensures CarriedAlong(start, r) ==> Bare(start, r, None) && !NoHead(r) && (!Dirty(start) ==> !Dirty(r))
  {
  }

  // A hard reset of a clean checkout leaves it clean.
  lemma ResetStaysClean(r: Repo, end: Repo)
    requires !Dirty(r) && end.files == ResetFiles(r, HeadTree(end)) && end.index == HeadTree(end)
    ensures !Dirty(end)
  {
    assert r.files - r.index.Keys == map[];
  }

  lemma BareKeepsIff(start: Repo, end: Repo, undone: Option<Repo>)
    requires Bare(start, end, undone)
    ensures Present(end.files, WorkOf(start)) <==> undone.None? || UndoesNothing(start, HeadTree(end))
  {
    if undone.None? {
      WorkIsPresent(end);
      SamePresence(start, end, end.files);
    } else {
      SamePresence(start, undone.value, end.files);
      ResetKeepsIff(undone.value, HeadTree(end));
      SameUndone(start, undone.value, HeadTree(end));
    }
  }

  lemma StillUndone(start: Repo, r: Repo, tree: Files)
    requires HasHead(start) && StillAt(start, r)
    ensures UndoesNothing(start, tree) <==> UndoesNothing(r, tree)
  {
    SameWork(start, r);
    SameUndone(start, r, tree);
  }

  // The pull was not accepted, and the hard reset went through or had nothing to go to.
  lemma RefusedThenReset(start: Repo, fetched: Repo, from: Repo, end: Repo, ok: bool)
    requires StillAt(start, fetched) && StillAt(fetched, from)
    requires if ok then end.files == ResetFiles(from, HeadTree(end)) && end.index == HeadTree(end) else end == from
    ensures StillAt(start, from)
    ensures !NoHead(start) ==> Bare(start, end, if ok then Some(from) else None) && (!Dirty(start) ==> !Dirty(end))
  {
    if !NoHead(start) {
      SameWork(start, from);
    }
  }

  // Without a snapshot, only a hard reset can undo work.
  lemma BareDecides(start: Repo, end: Repo, undone: Option<Repo>, remote: Id)
    requires !NoHead(start) && Bare(start, end, undone)
    requires undone.Some? ==> HeadId(end) == Some(remote)
    ensures Present(end.files, WorkOf(start)) <==>
              undone.None? || UndoesNothing(start, TreeOf(end.objects, Some(remote)))
  {
    BareKeepsIff(start, end, undone);
  }

  /** A checkout, with everything it went through. */
  class Checkout {
    const git: Git
    const world: World
    var upstreams: map<string, Ref>
    var now: Repo
    var asked: nat
    ghost var past: seq<Repo>

    // The question for local changes failed, and there were some.
    ghost var misled: bool

    // The question for main failed, and it was there.
    ghost var unseen: bool

    // The question for the branch failed, and main was checked out.
    ghost var astray: bool

    // How many commands failed.
    ghost var failures: nat

    constructor (git: Git, world: World, upstreams: map<string, Ref>, found: Repo)
      ensures this.git == git && this.world == world && this.upstreams == upstreams
      ensures now == found && past == [found] && asked == 0 && failures == 0
      ensures !misled && !unseen && !astray
    {
      this.git, this.world, this.upstreams := git, world, upstreams;
      now, asked, past := found, 0, [found];
      misled, unseen, astray, failures := false, false, false, 0;
    }

    // No command failed since then.
    twostate predicate Smooth()
      reads this
    {
      failures == old(failures)
    }

    twostate predicate Later()
      reads this
    {
      old(asked) <= asked && old(failures) <= failures
    }

    // Every command since then was answered, and so none failed.
    twostate predicate Counted()
      reads this
    {
      (forall i: nat :: old(asked) <= i < asked ==> world.answers(i)) ==> Smooth()
    }

    // One command failed since then: the question for local changes, when there were some.
    twostate predicate OnlyStatusFailed()
      reads this
    {
      misled && !old(misled) && failures == old(failures) + 1
    }

    // One command was given.
    twostate predicate OneCommand()
      reads this
    {
      asked == old(asked) + 1 && failures == old(failures) + if world.answers(old(asked)) then 0 else 1
    }

    // ---------- git commands ----------

    method Become(next: Repo)
      modifies `now, `past
      ensures now == next && past == old(past) + [next]
    {
      now := next;
      past := past + [next];
    }

    // A command that only reads.
    method Read() returns (ok: bool)
      modifies `asked, `failures
      ensures ok == world.answers(old(asked)) && OneCommand()
    {
      ok := world.answers(asked);
      asked, failures := asked + 1, failures + if ok then 0 else 1;
    }

    // Whether there are local changes; no, when the command fails.
    method StatusShowsChanges() returns (changed: bool)
      modifies `misled, `asked, `failures
      ensures changed == (world.answers(old(asked)) && Dirty(now)) && OneCommand()
      ensures misled == (old(misled) || (Dirty(now) && !world.answers(old(asked))))
    {
      var ok := Read();
      changed := ok && Dirty(now);
      misled := misled || (Dirty(now) && !ok);
    }

    method ResolveHead() returns (id: Option<Id>)
      modifies `asked, `failures
      ensures id == if world.answers(old(asked)) && !NoHead(now) then HeadId(now) else None
      ensures OneCommand()
    {
      var ok := Read();
      id := if ok && !NoHead(now) then HeadId(now) else None;
    }

    method Resolve(ref: Ref) returns (id: Option<Id>)
      modifies `asked, `failures
      ensures id == if world.answers(old(asked)) && ref in now.refs then Some(now.refs[ref]) else None
      ensures OneCommand()
    {
      var ok := Read();
      id := if ok && ref in now.refs then Some(now.refs[ref]) else None;
    }

    // The branch that is checked out; none, when the command fails.
    method CurrentBranch() returns (branch: Option<string>)
      modifies `asked, `failures, `astray
      ensures branch == if world.answers(old(asked)) && now.head.On? then Some(now.head.branch) else None
      ensures astray == (old(astray) || (now.head == On("main") && !world.answers(old(asked)))) && OneCommand()
    {
      var ok := Read();
      branch := if ok && now.head.On? then Some(now.head.branch) else None;
      astray := astray || (now.head == On("main") && !ok);
    }

    // Writes a commit.
    method CommitTree(tree: Files, parents: seq<Id>) returns (id: Option<Id>)
      requires git.Sound()
      modifies `now, `past, `asked, `failures
      ensures Grown(old(now).objects, now.objects) && now == old(now).(objects := now.objects)
      ensures id.Some? ==> past == old(past) + [now]
      ensures id.Some? ==> id.value in now.objects && now.objects[id.value] == Commit(tree, parents)
      ensures id.Some? ==> id.value == git.name(old(now).objects, Commit(tree, parents))
      ensures id.Some? ==> now.objects == Written(git, old(now).objects, Commit(tree, parents))
      ensures id.None? ==> now == old(now) && past == old(past)
      ensures id.Some? == world.answers(old(asked)) && OneCommand()
    {
      var ok := Read();
      if !ok {
        return None;
      }
      var commit := Commit(tree, parents);
      var made := git.name(now.objects, commit);
      assert MayBeNamed(now.objects, commit, made);
      Become(now.(objects := now.objects[made := commit]));
      return Some(made);
    }

    // Sets a ref; a snapshot ref only if it is not there yet.
    method UpdateRef(ref: Ref, id: Id) returns (ok: bool)
      modifies `now, `past, `asked, `failures
      ensures ok <==> world.answers(old(asked)) && id in old(now).objects && (ref.Snapshot? ==> ref !in old(now).refs)
      ensures ok ==> now == old(now).(refs := old(now).refs[ref := id]) && past == old(past) + [now]
      ensures !ok ==> now == old(now) && past == old(past)
      ensures OneCommand()
    {
      ok := Read();
      ok := ok && id in now.objects && (ref.Snapshot? ==> ref !in now.refs);
      if ok {
        Become(now.(refs := now.refs[ref := id]));
      }
    }

    method DeleteSnapshotRef(id: Id) returns (ok: bool)
      modifies `now, `past, `asked, `failures
      ensures ok <==> world.answers(old(asked)) && Snapshot(id) in old(now).refs && old(now).refs[Snapshot(id)] == id
      ensures ok ==> now == old(now).(refs := old(now).refs - {Snapshot(id)}) && past == old(past) + [now]
      ensures !ok ==> now == old(now) && past == old(past)
      ensures OneCommand()
    {
      ok := Read();
      ok := ok && Snapshot(id) in now.refs && now.refs[Snapshot(id)] == id;
      if ok {
        Become(now.(refs := now.refs - {Snapshot(id)}));
      }
    }

    // What a command that breaks off leaves of the index and the working tree.
    method Disturb()
      modifies `now, `past
      ensures now == old(now).(index := world.index(asked), files := world.files(asked)) && past == old(past) + [now]
    {
      Become(now.(index := world.index(asked), files := world.files(asked)));
    }

    // Hard reset of the checked out branch to a commit. One that breaks off may leave the working tree half done;
    // one to a commit that is not there does nothing.
    method ResetHard(id: Id) returns (ok: bool)
      requires now.head.On?
      modifies `now, `past, `asked, `failures
      ensures ok <==> world.answers(old(asked)) && id in old(now).objects
      ensures ok ==> var tree := TreeOf(old(now).objects, Some(id));
                     && now == old(now).(refs := old(now).refs[Branch(old(now).head.branch) := id], index := tree,
                                         files := ResetFiles(old(now), tree))
                     && past == old(past) + [now]
      ensures !ok ==> now == old(now).(index := now.index, files := now.files)
      ensures !ok ==> past == old(past) + [now] || (past == old(past) && now == old(now))
      ensures !ok && Smooth() ==> past == old(past) && now == old(now) && id !in now.objects
      ensures OneCommand()
    {
      ok := Read();
      if !ok {
        Disturb();
      } else if id in now.objects {
        var tree := TreeOf(now.objects, Some(id));
        Become(now.(refs := now.refs[Branch(now.head.branch) := id], index := tree, files := ResetFiles(now, tree)));
      } else {
        ok := false;
      }
    }

    // Hard reset to HEAD, which moves nothing.
    method ResetHardToHead() returns (ok: bool)
      modifies `now, `past, `asked, `failures
      ensures past == old(past) + [now] && now == old(now).(index := now.index, files := now.files)
      ensures ok ==> now.index == HeadTree(old(now)) && now.files == ResetFiles(old(now), HeadTree(old(now)))
      ensures ok == world.answers(old(asked)) && OneCommand()
    {
      ok := Read();
      if ok {
        Become(now.(index := HeadTree(now), files := ResetFiles(now, HeadTree(now))));
      } else {
        Disturb();
      }
    }

    // Removes the untracked files.
    method CleanUntracked() returns (ok: bool)
      modifies `now, `past, `asked, `failures
      ensures past == old(past) + [now] && now == old(now).(index := now.index, files := now.files)
      ensures ok ==> now.index == old(now).index && now.files == Restricted(old(now).files, old(now).index.Keys)
      ensures ok == world.answers(old(asked)) && OneCommand()
    {
      ok := Read();
      if ok {
        Become(now.(files := Restricted(now.files, now.index.Keys)));
      } else {
        Disturb();
      }
    }

    // Applies a snapshot, with or without its index. A conflict leaves the working tree half done.
    method StashApply(id: Id) returns (ok: bool)
      modifies `now, `past, `asked, `failures
      ensures past == old(past) + [now] && now == old(now).(index := now.index, files := now.files)
      ensures var work := SnapshotWork(old(now).objects, id);
              && (ok <==> world.answers(old(asked)) && work.Some? && !Conflicts(work.value, old(now).files))
              && (ok ==> now.files == Applied(work.value, old(now).files))
      ensures OneCommand()
    {
      ok := Read();
      var work := SnapshotWork(now.objects, id);
      ok := ok && work.Some? && !Conflicts(work.value, now.files);
      if ok {
        Become(now.(index := world.index(asked), files := Applied(work.value, now.files)));
      } else {
        Disturb();
      }
    }

    // Brings new commits and new positions of the remote branches, perhaps even when it fails.
    method Fetch() returns (ok: bool)
      modifies `now, `past, `asked, `failures
      ensures past == old(past) + [now] && now == AfterFetch(old(now), old(asked))
      ensures ok == world.answers(old(asked)) && OneCommand()
    {
      var next := AfterFetch(now, asked);
      ok := Read();
      Become(next);
    }

    // The repository after the nth command, a fetch.
    function AfterFetch(r: Repo, n: nat): (after: Repo)
      ensures StillAt(r, after)
    {
      var there := map ref | ref in world.remotes(n) && ref.Remote? :: world.remotes(n)[ref];
      var here := map ref | ref in r.refs && !ref.Remote? :: r.refs[ref];
      r.(objects := world.objects(n) + r.objects, refs := there + here)
    }

    // The commit that the branch is set to follow.
    function Target(r: Repo, branch: string): Option<Id>
      reads `upstreams
    {
      if branch in upstreams && upstreams[branch] in r.refs then Some(r.refs[upstreams[branch]]) else None
    }

    // A merge that was accepted: the branch has the commit already, or it is there now.
    ghost predicate ArrivedAt(fetched: Repo, r: Repo, branch: string, target: Id)
      requires Tip(fetched, branch).Some?
    {
      && (forall ref :: ref != Branch(branch) ==> (ref in r.refs <==> ref in fetched.refs))
      && (forall ref :: ref != Branch(branch) && ref in r.refs ==> r.refs[ref] == fetched.refs[ref])
      && if Ancestor(fetched.objects, target, Tip(fetched, branch).value) then r == fetched
         else Tip(r, branch) == Some(target)
    }

    // Moves the checked out branch on to its upstream, and the working tree with it. A move that is not accepted does
    // nothing; one that breaks off may leave the working tree half done.
    method MergeFastForward(branch: string) returns (ok: bool)
      requires git.Sound() && OnBranch(now, branch)
      modifies `now, `past, `asked, `failures
      ensures ok <==> world.answers(old(asked)) && Takes(old(now), branch, Target(old(now), branch))
      ensures ok ==> past == old(past) + [now] && OnTo(old(now), now, branch)
      ensures ok ==> ArrivedAt(old(now), now, branch, Target(old(now), branch).value)
      ensures ok ==> Branch(branch) in now.refs && now.refs == old(now).refs[Branch(branch) := now.refs[Branch(branch)]]
      ensures ok && !NoHead(old(now)) ==>
                !NoHead(now) && CanMove(old(now), HeadTree(now)) && MovedTo(old(now), now, HeadTree(now))
      ensures !ok ==> now == old(now).(index := now.index, files := now.files)
      ensures !ok ==> past == old(past) + [now] || (past == old(past) && now == old(now))
      ensures Smooth() && !ok ==> now == old(now) && past == old(past)
      ensures now.objects == old(now).objects && OneCommand()
    {
      ok := Read();
      if !ok {
        Disturb();
        return;
      }
      var tip, target := Tip(now, branch).value, Target(now, branch);
      if target.Some? && target.value in git.log(now.objects, tip) {
        AncestorOfItself(now.objects, tip);
        MoveToItself(now);
        Become(now);
        return;
      }
      ok := && target.Some? && target.value in now.objects && tip in git.log(now.objects, target.value)
            && CanMove(now, TreeOf(now.objects, target));
      if ok {
        var from, to := HeadTree(now), TreeOf(now.objects, target);
        Become(now.(refs := now.refs[Branch(branch) := target.value], index := Moved(now.index, from, to),
                    files := Moved(now.files, from, to)));
      }
    }

    // ---------- snapshot and restore ----------

    method ClearLocalChanges(id: Id, ghost work: Work) returns (ok: bool)
      requires Anchored(now, work, id)
      modifies `now, `past, `asked, `failures
      ensures Kept(old(now), old(past), past, now, work) && Anchored(now, work, id)
      ensures ok ==> now.index == HeadTree(now) && now.files == HeadTree(now) && asked == old(asked) + 2
      ensures now == old(now).(index := now.index, files := now.files)
      ensures ok == Smooth() && now.objects == old(now).objects && Later()
    {
      ghost var start, before := now, past;
      ok := ResetHardToHead();
      assert Anchored(now, work, id);
      KeepOneMore(start, before, start, before, now, work);
      if ok {
        ghost var middle, between := now, past;
        ok := CleanUntracked();
        assert Anchored(now, work, id);
        KeepOneMore(start, before, middle, between, now, work);
      }
    }

    method WriteCommit(tree: Files, parents: seq<Id>, ghost start: Repo, ghost before: seq<Repo>)
        returns (id: Option<Id>)
      requires git.Sound() && Kept(start, before, past, now, WorkOf(start)) && now == start.(objects := now.objects)
      modifies `now, `past, `asked, `failures
      ensures Kept(start, before, past, now, WorkOf(start)) && now == start.(objects := now.objects)
      ensures Grown(old(now).objects, now.objects)
      ensures id.Some? ==> id.value in now.objects && now.objects[id.value] == Commit(tree, parents)
      ensures id.Some? ==> id.value == git.name(old(now).objects, Commit(tree, parents))
      ensures id.Some? ==> now.objects == Written(git, old(now).objects, Commit(tree, parents))
      ensures (id.None? ==> !Smooth()) && OneCommand()
    {
      ghost var middle, between := now, past;
      id := CommitTree(tree, parents);
      WorkIsPresent(start);
      if id.Some? {
        KeepOneMore(start, before, middle, between, now, WorkOf(start));
      }
    }

    // Writes the commits of a snapshot, which nothing refers to yet.
    method WriteSnapshot() returns (snapshot: Option<Id>)
      requires git.Sound()
      modifies `now, `past, `asked, `failures
      ensures Kept(old(now), old(past), past, now, WorkOf(old(now)))
      ensures now == old(now).(objects := now.objects)
      ensures snapshot.Some? ==> SnapshotWork(now.objects, snapshot.value) == Some(WorkOf(old(now)))
      ensures snapshot.None? ==> !Smooth() || NoHead(old(now))
      ensures snapshot.Some? ==> !NoHead(old(now)) && (now.objects, snapshot.value) == Snapped(git, old(now))
      ensures snapshot.Some? ==> asked == old(asked) + CaptureLength(old(now)) - 4
      ensures Later()
    {
      ghost var start, before := now, past;
      var head := ResolveHead();
      var ok := Read();
      if head.None? || !ok {
        return None;
      }
      var index := WriteCommit(now.index, [head.value], start, before);
      ok := Read();
      if index.None? || !ok {
        return None;
      }
      snapshot := WriteWork(head.value, index.value, start, before);
    }

    // The commits of the untracked and of the tracked files.
    method WriteWork(head: Id, index: Id, ghost start: Repo, ghost before: seq<Repo>) returns (snapshot: Option<Id>)
      requires git.Sound() && Kept(start, before, past, now, WorkOf(start)) && now == start.(objects := now.objects)
      requires HeadId(start) == Some(head) && head in start.objects && index in now.objects
      modifies `now, `past, `asked, `failures
      ensures Kept(start, before, past, now, WorkOf(start)) && now == start.(objects := now.objects)
      ensures snapshot.Some? ==> SnapshotWork(now.objects, snapshot.value) == Some(WorkOf(start))
      ensures snapshot.Some? ==> (now.objects, snapshot.value) == WithWork(git, old(now).objects, start, head, index)
      ensures snapshot.Some? ==> asked == old(asked) + CaptureLength(start) - 8
      ensures (snapshot.None? ==> !Smooth()) && Later()
    {
      var parents := [head, index];
      var untracked := now.files - now.index.Keys;
      if untracked != map[] {
        var others := WriteCommit(untracked, [], start, before);
        if others.None? {
          return None;
        }
        parents := parents + [others.value];
        assert parents == [head, index, others.value];
      }
      snapshot := WriteCommit(Restricted(now.files, now.index.Keys), parents, start, before);
    }

    /** Captures the local changes in a snapshot under its private ref, and only then clears them. Whatever fails,
        the work is in the working tree or recoverable at every moment. */
    method StashLocalChanges() returns (capture: Capture)
      requires git.Sound()
      modifies `now, `past, `asked, `failures, `misled
      ensures Kept(old(now), old(past), past, now, WorkOf(old(now)))
      ensures capture.NothingLocal? <==> !world.answers(old(asked)) || !Dirty(old(now))
      ensures capture.NothingLocal? ==> now == old(now) && past == old(past) && asked == old(asked) + 1
      ensures capture.NothingLocal? ==> failures == old(failures) + if world.answers(old(asked)) then 0 else 1
      ensures capture.Captured? ==> Anchored(now, WorkOf(old(now)), capture.id) && !Dirty(now)
      ensures capture.Captured? ==>
                && !NoHead(old(now)) && now == Cleared(git, old(now)) && capture.id == Snapped(git, old(now)).1
                && Snapshot(capture.id) !in old(now).refs && asked == old(asked) + CaptureLength(old(now))
      ensures capture.CaptureFailed? ==> !Smooth() || NoHead(old(now)) || AlreadyAnchored(old(now), now)
      ensures capture.CaptureFailed? && Smooth() && !NoHead(old(now)) ==>
                Snapshot(Snapped(git, old(now)).1) in old(now).refs
      ensures misled == (old(misled) || (Dirty(old(now)) && !world.answers(old(asked))))
      ensures Later()
    {
      hide Snapped, WorkOf, Restricted;
      ghost var start, before, work := now, past, WorkOf(now);
      var changed := StatusShowsChanges();
      if !changed {
        return NothingLocal;
      }
      var snapshot := WriteSnapshot();
      if snapshot.None? {
        return CaptureFailed;
      }
      ghost var middle, between := now, past;
      var ok := UpdateRef(Snapshot(snapshot.value), snapshot.value);
      if !ok {
        return CaptureFailed;
      }
      assert Anchored(now, work, snapshot.value);
      KeepOneMore(start, before, middle, between, now, work);
      middle, between := now, past;
      ok := ClearLocalChanges(snapshot.value, work);
      KeepOn(start, before, middle, between, now, past, work);
      return if ok then Captured(snapshot.value) else CaptureFailed;
    }

    /** Applies the snapshot and, only when that succeeded, lets go of its private ref. */
    method RestoreStashedChanges(snapshot: Option<Id>, ghost work: Work) returns (ok: bool)
      requires Backed(now, work, snapshot)
      modifies `now, `past, `asked, `failures
      ensures Kept(old(now), old(past), past, now, work)
      ensures snapshot.None? ==> ok && now == old(now) && past == old(past) && asked == old(asked) && Smooth()
      ensures ok && snapshot.Some? ==>
                && Present(now.files, work) && Snapshot(snapshot.value) !in now.refs
                && SnapshotWork(now.objects, snapshot.value) == Some(work)
      ensures !ok ==> Backed(now, work, snapshot)
      ensures !ok ==> !Smooth() || Conflicts(work, old(now).files)
      ensures now.objects == old(now).objects && SameOtherRefs(old(now), now) && Later()
    {
      ghost var start, before := now, past;
      if snapshot.None? {
        return true;
      }
      ok := Read();
      if !ok {
        return;
      }
      ok := ApplySnapshot(snapshot.value, work);
      if ok {
        ghost var middle, between := now, past;
        ok := DeleteSnapshotRef(snapshot.value);
        if ok {
          KeepOneMore(start, before, middle, between, now, work);
        }
      }
    }

    // Applies the snapshot with its index, else without, else leaves a clean tree.
    method ApplySnapshot(id: Id, ghost work: Work) returns (ok: bool)
      requires Anchored(now, work, id)
      modifies `now, `past, `asked, `failures
      ensures Kept(old(now), old(past), past, now, work) && Anchored(now, work, id)
      ensures ok ==> Present(now.files, work)
      ensures !ok ==> !Smooth() || Conflicts(work, old(now).files)
      ensures now.refs == old(now).refs && now.objects == old(now).objects && Later()
    {
      ghost var start, before := now, past;
      ApplyPresents(work, now.files);
      ok := StashApply(id);
      assert Anchored(now, work, id);
      KeepOneMore(start, before, start, before, now, work);
      if !ok {
        ghost var middle, between := now, past;
        ApplyPresents(work, now.files);
        ok := StashApply(id);
        assert Anchored(now, work, id);
        KeepOneMore(start, before, middle, between, now, work);
        if !ok {
          middle, between := now, past;
          var reset := ResetHardToHead();
          assert Anchored(now, work, id);
          KeepOneMore(start, before, middle, between, now, work);
          middle, between := now, past;
          var cleaned := CleanUntracked();
          assert Anchored(now, work, id);
          KeepOneMore(start, before, middle, between, now, work);
        }
      }
    }

    // ---------- the guard after a restore ----------

    // Whether some listed commit has the tree.
    method MatchesAncestor(tree: Files, head: Id, ancestors: seq<Id>) returns (found: bool)
      ensures found <==> exists i :: 0 <= i < |ancestors| && HasTree(now, ancestors[i], head, tree)
    {
      for i := 0 to |ancestors|
        invariant forall k :: 0 <= k < i ==> !HasTree(now, ancestors[k], head, tree)
      {
        if ancestors[i] != head && TreeOf(now.objects, Some(ancestors[i])) == tree {
          return true;
        }
      }
      return false;
    }

    /** Accepts no residue: tracked state that differs from HEAD but equals the tree of one of its ancestors. */
    method VerifyNoAncestorResidue() returns (ok: bool)
      requires git.Sound()
      modifies `asked, `failures
      ensures ok ==> !Residue(now) && !NoHead(now)
      ensures !ok ==> !Smooth() || Residue(now) || NoHead(now)
      ensures Later() && Counted()
    {
      var head := ResolveHead();
      ok := Read();
      if head.None? || !ok {
        return false;
      }
      var tracked := Restricted(now.files, now.index.Keys);
      if now.index == HeadTree(now) && tracked == HeadTree(now) {
        return true;
      }
      ok := Read();
      if !ok {
        return false;
      }
      var ancestors := git.log(now.objects, head.value);
      var staged := MatchesAncestor(now.index, head.value, ancestors);
      var worked := MatchesAncestor(tracked, head.value, ancestors);
      ok := !(now.index != HeadTree(now) && staged) && !(tracked != HeadTree(now) && worked);
      assert forall id :: IsResidue(now, id) ==> id in ancestors;
      if !ok {
        ghost var tree := if now.index != HeadTree(now) && staged then now.index else tracked;
        ghost var i :| 0 <= i < |ancestors| && HasTree(now, ancestors[i], head.value, tree);
        assert IsResidue(now, ancestors[i]);
      }
    }

    /** Rejected work stays where it is, and is anchored once more when there is a snapshot of it. */
    method VerifyRootAfterRestore(snapshot: Option<Id>, ghost work: Work) returns (verdict: Verdict)
      requires git.Sound() && Present(now.files, work)
      requires snapshot.Some? ==> SnapshotWork(now.objects, snapshot.value) == Some(work)
      modifies `now, `past, `asked, `failures
      ensures Kept(old(now), old(past), past, now, work) && now == old(now).(refs := now.refs)
      ensures verdict.Accepted? ==> now == old(now) && !Residue(now) && !NoHead(now)
      ensures !verdict.Accepted? ==> !Smooth() || Residue(now) || NoHead(now)
      ensures verdict.RejectedAndAnchored? ==> snapshot.Some? && Anchored(now, work, snapshot.value)
      ensures verdict.Rejected? ==> !Smooth() || snapshot.None? || Snapshot(snapshot.value) in old(now).refs
                                    || snapshot.value !in now.objects
      ensures snapshot.None? ==> now == old(now) && past == old(past)
      ensures SameOtherRefs(old(now), now) && Later() && Counted()
    {
      ghost var start, before := now, past;
      var ok := VerifyNoAncestorResidue();
      if ok {
        return Accepted;
      }
      if snapshot.None? {
        return Rejected;
      }
      ok := UpdateRef(Snapshot(snapshot.value), snapshot.value);
      if ok {
        ResidueStays(start, now);
        KeepOneMore(start, before, start, before, now, work);
      }
      return if ok then RejectedAndAnchored else Rejected;
    }

    // ---------- moving a branch ----------

    /** Whether the second commit is a strict fast-forward of the first: exact, unless the command fails. */
    method CanFastForward(local: Id, remote: Id) returns (yes: bool)
      requires git.Sound()
      modifies `asked, `failures
      ensures yes ==> local != remote && Ancestor(now.objects, local, remote)
      ensures !yes ==> !Smooth() || local == remote || !Ancestor(now.objects, local, remote)
      ensures Later() && Counted() && (local != remote ==> OneCommand())
    {
      if local == remote {
        return false;
      }
      var ok := Read();
      var base := git.mergeBase(now.objects, local, remote);
      assert IsMergeAnswer(now.objects, local, remote, base);
      if !ok || base.None? {
        return false;
      }
      MergeBaseDecidesFastForward(now.objects, local, remote, base.value);
      return base.value == local;
    }

    method FetchOnTo(branch: string, snapshot: Option<Id>, ghost work: Work, ghost excuse: Excuse, ghost start: Repo,
                     ghost before: seq<Repo>)
        returns (ok: bool)
      requires KeptForward(start, before, past, now, work, branch, excuse) && OnTo(start, now, branch)
      requires Backed(now, work, snapshot)
      modifies `now, `past, `asked, `failures
      ensures KeptForward(start, before, past, now, work, branch, excuse) && OnTo(start, now, branch)
      ensures Backed(now, work, snapshot)
      ensures past == old(past) + [now] && now == AfterFetch(old(now), old(asked))
      ensures ok == Smooth() && asked == old(asked) + 1 && Later() && Counted()
    {
      ghost var middle, between := now, past;
      ok := Fetch();
      BackedStays(middle, now, work, snapshot);
      QuietIsOnTo(middle, now, branch);
      OnToOneMore(start, before, middle, between, now, work, branch, excuse);
    }

    // Fetches, and moves the branch on to its upstream if that is accepted. The local work comes along.
    method PullFastForward(branch: string, snapshot: Option<Id>, ghost work: Work, ghost excuse: Excuse)
        returns (ok: bool, ghost fetched: Repo)
      requires git.Sound() && OnBranch(now, branch) && Backed(now, work, snapshot)
      modifies `now, `past, `asked, `failures
      ensures KeptForward(old(now), old(past), past, now, work, branch, excuse) && OnTo(old(now), now, branch)
      ensures Backed(now, work, snapshot)
      ensures fetched == AfterFetch(old(now), old(asked)) && OnBranch(fetched, branch) && now.objects == fetched.objects
      ensures OnBranch(now, branch)
      ensures Smooth() ==> (ok <==> Takes(fetched, branch, Target(fetched, branch)))
      ensures Smooth() && !ok ==> now == fetched
      ensures ok ==> Target(fetched, branch).Some? && ArrivedAt(fetched, now, branch, Target(fetched, branch).value)
      ensures Smooth() && !NoHead(old(now)) ==> CarriedAlong(old(now), now)
      ensures asked == old(asked) + 2 && Later() && Counted()
    {
      ghost var start, before := now, past;
      QuietIsOnTo(start, start, branch);
      var reached := FetchOnTo(branch, snapshot, work, excuse, start, before);
      fetched := now;
      ghost var between := past;
      ok := MergeFastForward(branch);
      if past != between {
        BackedStays(fetched, now, work, snapshot);
        MergedIsOnTo(fetched, now, branch, ok);
        OnToOneMore(start, before, fetched, between, now, work, branch, excuse);
      }
      if Smooth() && !NoHead(start) {
        FetchCarries(start, fetched);
        if ok {
          MoveCarries(fetched, now);
          CarriedFurther(start, fetched, now);
        }
      }
    }

    // ---------- main, when it is checked out ----------

    // Whether HEAD and main are at the commit.
    method ConfirmMain(remote: Id) returns (ok: bool)
      modifies `asked, `failures
      ensures ok ==> HeadId(now) == Some(remote) && Tip(now, "main") == Some(remote)
      ensures Smooth() ==> (ok <==> !NoHead(now) && HeadId(now) == Some(remote) && Tip(now, "main") == Some(remote))
      ensures Later() && Counted()
    {
      var head := ResolveHead();
      var tip := Resolve(Branch("main"));
      ok := head == Some(remote) && tip == Some(remote);
    }

    // What is done when the pull fails.
    method ResetToRemote(remote: Id, snapshot: Option<Id>, ghost work: Work, ghost start: Repo, ghost before: seq<Repo>)
        returns (ok: bool, ghost undone: Repo)
      requires KeptForward(start, before, past, now, work, "main", Exactly(remote)) && OnTo(start, now, "main")
      requires OnBranch(now, "main") && Backed(now, work, snapshot)
      modifies `now, `past, `asked, `failures
      ensures old(past) <= past
      ensures KeptForward(start, before, past, now, work, "main", Exactly(remote)) && Backed(now, work, snapshot)
      ensures OnBranch(now, "main") && (!ok ==> OnTo(start, now, "main"))
      ensures ok ==> Tip(now, "main") == Some(remote) && remote in now.objects
      ensures Smooth() ==> (ok <==> remote in AfterFetch(old(now), old(asked)).objects)
      ensures now.objects == AfterFetch(old(now), old(asked)).objects
      ensures Smooth() && !ok ==> StillAt(old(now), now)
      ensures Smooth() && ok ==>
                StillAt(old(now), undone) && now.files == ResetFiles(undone, HeadTree(now))
                    && now.index == HeadTree(now)
      ensures Later() && Counted()
    {
      hide KeptForward, Backed, AfterFetch, Safe;
      ok := FetchOnTo("main", snapshot, work, Exactly(remote), start, before);
      undone := now;
      if ok {
        ghost var between := past;
        ok := ResetHard(remote);
        BackedStays(undone, now, work, snapshot);
        if past != between {
          ResetIsForward(start, before, undone, between, now, work, "main", Exactly(remote), ok, remote, false);
        }
      }
    }

    // Whether main comes to the commit by commands of which the nth is the fetch of the pull and none fails: by the
    // pull, where it is accepted, and by the hard reset otherwise.
    ghost predicate Reaches(r: Repo, remote: Id, n: nat)
      requires Tip(r, "main").Some?
      reads `upstreams
    {
      var fetched, tip := AfterFetch(r, n), Tip(r, "main").value;
      var target := Target(fetched, "main");
      if Takes(fetched, "main", target) then
        (if Ancestor(fetched.objects, target.value, tip) then tip else target.value) == remote
      else remote in AfterFetch(fetched, n + 2).objects
    }

    lemma PullReaches(r: Repo, end: Repo, remote: Id, n: nat)
      requires Tip(r, "main").Some?
      requires var fetched := AfterFetch(r, n);
               && Takes(fetched, "main", Target(fetched, "main"))
               && ArrivedAt(fetched, end, "main", Target(fetched, "main").value)
      ensures Reaches(r, remote, n) <==> Tip(end, "main") == Some(remote)
    {
    }

    lemma ResetReaches(r: Repo, remote: Id, n: nat)
      requires Tip(r, "main").Some?
      requires var fetched := AfterFetch(r, n); !Takes(fetched, "main", Target(fetched, "main"))
      ensures Reaches(r, remote, n) <==> remote in AfterFetch(AfterFetch(r, n), n + 2).objects
    {
    }

    method MoveToRemote(remote: Id, snapshot: Option<Id>, ghost work: Work)
        returns (ok: bool, ghost fetched: Repo, ghost undone: Option<Repo>)
      requires git.Sound() && OnBranch(now, "main") && Backed(now, work, snapshot)
      modifies `now, `past, `asked, `failures
      ensures KeptForward(old(now), old(past), past, now, work, "main", Exactly(remote)) && Backed(now, work, snapshot)
      ensures fetched == AfterFetch(old(now), old(asked)) && OnBranch(fetched, "main")
      ensures ok ==> Tip(now, "main") == Some(remote)
      ensures Smooth() && !NoHead(old(now)) ==>
                && (ok <==> Reaches(old(now), remote, old(asked))) && (ok <==> Tip(now, "main") == Some(remote))
                && !NoHead(now)
      ensures Smooth() && undone.None? ==> Takes(fetched, "main", Target(fetched, "main")) || remote !in now.objects
      ensures Smooth() && undone.Some? ==> !Takes(fetched, "main", Target(fetched, "main")) && remote in now.objects
      ensures Smooth() && undone.Some? ==> StillAt(old(now), undone.value) && HeadId(now) == Some(remote)
      ensures Smooth() && !NoHead(old(now)) ==> Bare(old(now), now, undone) && (!Dirty(old(now)) ==> !Dirty(now))
      ensures Later() && Counted()
    {
      hide KeptForward, WorkOf, Present, Safe, Backed, Takes, AfterFetch, Bare, CarriedAlong, Reaches, ArrivedAt;
      hide Ancestor;
      hide Dirty, OnTo;
      ghost var start, before, first := now, past, asked;
      undone := None;
      ok, fetched := PullFastForward("main", snapshot, work, Exactly(remote));
      CarriedIsBare(start, now);
      if ok && Smooth() {
        PullReaches(start, now, remote, first);
      }
      if !ok {
        if Smooth() {
          ResetReaches(start, remote, first);
        }
        ghost var from;
        ok, from := ResetToRemote(remote, snapshot, work, start, before);
        if Smooth() {
          RefusedThenReset(start, fetched, if ok then from else now, now, ok);
        }
        if !ok {
          return;
        }
        undone := Some(from);
      }
      ok := ConfirmMain(remote);
    }

    // The work that the code takes responsibility for: none, when it was told that there is none.
    ghost function Owed(start: Repo): Work
      reads this
    {
      if misled then NoWork() else WorkOf(start)
    }

    // How the move of main, the restore and the guard end when no command fails.
    ghost predicate EndsMain(r: Repo, remote: Id, n: nat, snapshot: Option<Id>, work: Work, outcome: MainSync,
                             end: Repo)
      reads `upstreams
    {
      && Tip(r, "main").Some?
      && (Reaches(r, remote, n) <==> Tip(end, "main") == Some(remote))
      && (outcome.SyncedCheckedOut? ==>
            && Reaches(r, remote, n) && !Residue(end)
            && (snapshot.Some? ==> Present(end.files, work) && Snapshot(snapshot.value) !in end.refs))
      && (outcome.Failed? ==>
            !Reaches(r, remote, n) || Residue(end) || (snapshot.Some? && Conflicts(work, HeadTree(end))))
    }

    /** How a synchronization from the nth command on, the question for local changes, ends when no command fails. Main
        comes to the commit by the pull or the reset, with local changes as without; with them, the work is back and its
        ref is gone, unless a snapshot of the same name is anchored already, the work is in conflict with the commit,
        or the guard rejects what it finds. */
    ghost predicate ConcludedMain(r: Repo, remote: Id, n: nat, outcome: MainSync, end: Repo)
      requires git.Sound() && !NoHead(r)
      reads `upstreams
    {
      if !Dirty(r) then EndsMain(r, remote, n + 1, None, WorkOf(r), outcome, end)
      else if Snapshot(Snapped(git, r).1) in r.refs then outcome.Failed? && Tip(end, "main") == Tip(r, "main")
      else
        EndsMain(Cleared(git, r), remote, n + CaptureLength(r), Some(Snapped(git, r).1), WorkOf(r), outcome, end)
    }

    /** Snapshot, move, restore, check. At every moment main has gone forward or is at the given commit, and the
        local work is in the working tree or recoverable, unless the question for local changes failed. If only that
        failed, the work is kept exactly when the upstream that was fetched can be taken as it is, or the hard reset
        to the given commit undoes nothing of it. */
    method SyncCheckedOutMain(remote: Id) returns (outcome: MainSync)
      requires git.Sound() && OnBranch(now, "main")
      modifies `now, `past, `asked, `failures, `misled
      ensures KeptForward(old(now), old(past), past, now, Owed(old(now)), "main", Exactly(remote))
      ensures outcome == SyncedCheckedOut(remote) || outcome == Failed
      ensures outcome.SyncedCheckedOut? ==>
                Tip(now, "main") == Some(remote) && Present(now.files, Owed(old(now))) && !Residue(now)
      ensures Smooth() && !NoHead(old(now)) ==> ConcludedMain(old(now), remote, old(asked), outcome, now)
      ensures Grown(old(now).objects, now.objects)
      ensures misled == (old(misled) || (Dirty(old(now)) && !world.answers(old(asked))))
      ensures OnlyStatusFailed() && !NoHead(old(now)) ==>
                var fetched := AfterFetch(old(now), old(asked) + 1);
                (Present(now.files, WorkOf(old(now))) <==>
                 || remote !in now.objects || Takes(fetched, "main", Target(fetched, "main"))
                 || UndoesNothing(old(now), TreeOf(now.objects, Some(remote))))
      ensures misled && !old(misled) && AnsweredBut(old(asked)) ==> OnlyStatusFailed()
      ensures Later()
    {
      hide AfterFetch, UndoesNothing, Takes, Residue, Safe, Reaches, Conflicts, Cleared, Snapped, Present;
      ghost var start, before := now, past;
      var capture := StashLocalChanges();
      ghost var work := if capture.NothingLocal? then Owed(start) else WorkOf(start);
      KeptLess(start, before, past, now, WorkOf(start), work);
      if capture.CaptureFailed? {
        KeptIsForward(start, before, past, now, work, "main", Exactly(remote));
        KeptForwardLess(start, before, past, now, work, Owed(start), "main", Exactly(remote));
        return Failed;
      }
      if capture.NothingLocal? {
        BackedByNothing(now, work);
      }
      var snapshot := if capture.Captured? then Some(capture.id) else None;
      outcome := MoveAndRestore(remote, snapshot, work, start, before);
      KeptForwardLess(start, before, past, now, work, Owed(start), "main", Exactly(remote));
      NoWorkIsPresent(now.files);
    }

    // After the capture.
    method MoveAndRestore(remote: Id, snapshot: Option<Id>, ghost work: Work, ghost start: Repo,
                          ghost before: seq<Repo>)
        returns (outcome: MainSync)
      requires git.Sound() && OnBranch(start, "main") && Kept(start, before, past, now, work)
      requires Backed(now, work, snapshot)
      requires if snapshot.Some? then work == WorkOf(start) && !Dirty(now) else now == start
      modifies `now, `past, `asked, `failures
      ensures KeptForward(start, before, past, now, work, "main", Exactly(remote))
      ensures outcome == SyncedCheckedOut(remote) || outcome == Failed
      ensures outcome.SyncedCheckedOut? ==>
                Tip(now, "main") == Some(remote) && Present(now.files, work) && !Residue(now)
      ensures Smooth() && !NoHead(old(now)) ==> EndsMain(old(now), remote, old(asked), snapshot, work, outcome, now)
      ensures snapshot.None? && Smooth() && !NoHead(start) ==>
                var fetched := AfterFetch(start, old(asked));
                (Present(now.files, WorkOf(start)) <==>
                 || remote !in now.objects || Takes(fetched, "main", Target(fetched, "main"))
                 || UndoesNothing(start, TreeOf(now.objects, Some(remote))))
      ensures Later() && (snapshot.None? ==> Counted())
    {
      hide Backed, AfterFetch, Takes, UndoesNothing, Residue, Safe;
      ghost var middle, between := now, past;
      var moved;
      ghost var fetched, undone;
      moved, fetched, undone := MoveToRemote(remote, snapshot, work);
      QuietFirst(start, before, middle, between, now, past, work, "main", Exactly(remote));
      if snapshot.None? && Smooth() && !NoHead(start) {
        BareDecides(start, now, undone, remote);
      }
      outcome := RestoreAndCheck(remote, moved, snapshot, work, start, before);
    }

    // After the move.
    method RestoreAndCheck(remote: Id, moved: bool, snapshot: Option<Id>, ghost work: Work, ghost start: Repo,
                           ghost before: seq<Repo>)
        returns (outcome: MainSync)
      requires git.Sound() && KeptForward(start, before, past, now, work, "main", Exactly(remote))
      requires Backed(now, work, snapshot) && (moved ==> Tip(now, "main") == Some(remote))
      modifies `now, `past, `asked, `failures
      ensures KeptForward(start, before, past, now, work, "main", Exactly(remote))
      ensures outcome == SyncedCheckedOut(remote) || outcome == Failed
      ensures outcome.SyncedCheckedOut? ==>
                Tip(now, "main") == Some(remote) && Present(now.files, work) && !Residue(now)
      ensures outcome.Failed? ==> !Smooth() || !moved || Residue(now) || NoHead(now)
                                    || (snapshot.Some? && Conflicts(work, old(now).files))
      ensures outcome.SyncedCheckedOut? && snapshot.Some? ==> Snapshot(snapshot.value) !in now.refs
      ensures outcome.SyncedCheckedOut? ==> moved
      ensures now.objects == old(now).objects && Quiet(old(now), now) && HeadId(now) == HeadId(old(now))
      ensures snapshot.None? ==> now == old(now) && Counted()
      ensures Later()
    {
      ghost var middle, between := now, past;
      var restored := RestoreStashedChanges(snapshot, work);
      QuietLast(start, before, middle, between, now, past, work, "main", Exactly(remote));
      if !moved || !restored {
        return Failed;
      }
      middle, between := now, past;
      var verdict := VerifyRootAfterRestore(snapshot, work);
      QuietLast(start, before, middle, between, now, past, work, "main", Exactly(remote));
      return if verdict.Accepted? then SyncedCheckedOut(remote) else Failed;
    }

    // ---------- main ----------

    // Whether main is there; no, when the command fails.
    method MainExists() returns (yes: bool)
      modifies `asked, `failures, `unseen
      ensures yes == (world.answers(old(asked)) && Branch("main") in now.refs) && OneCommand()
      ensures unseen == (old(unseen) || (Branch("main") in now.refs && !world.answers(old(asked))))
    {
      var ok := Read();
      yes := ok && Branch("main") in now.refs;
      unseen := unseen || (Branch("main") in now.refs && !ok);
    }

    // The commit to go to: what the remote says now, or what it said last when it cannot be asked.
    method RemoteMain(fetched: bool) returns (id: Option<Id>)
      modifies `asked, `failures
      ensures fetched ==> id == if world.answers(old(asked)) then Some(world.said(old(asked))) else None
      ensures OneCommand()
    {
      if fetched {
        var said := world.said(asked);
        var ok := Read();
        return if ok then Some(said) else None;
      }
      id := Resolve(Remote("main"));
    }

    // What an overwritten main has lost: nothing if and only if it was set to a descendant.
    ghost predicate CreatedOver(start: Repo, remote: Option<Id>)
      reads this
      requires Tip(start, "main").Some?
    {
      && unseen && remote.Some? && Tip(now, "main") == remote && now.files == start.files
      && Grown(start.objects, now.objects)
      && (KeepsHistory(start, now, "main") <==> Ancestor(now.objects, Tip(start, "main").value, remote.value))
    }

    /** What main's synchronization comes to when no command fails: r is the repository when the nth command resolves
        main, and the remote says the commit. */
    ghost predicate Expected(start: Repo, r: Repo, n: nat, remote: Id, outcome: MainSync, end: Repo)
      reads `upstreams
    {
      var tip := Tip(start, "main");
      if tip.None? then
        if remote in r.objects then outcome.Created? && Tip(end, "main") == Some(remote) else outcome.Failed?
      else if tip == Some(remote) then
        outcome == if end.head == On("main") && (Residue(end) || NoHead(end)) then Failed else UpToDate
      else if !Ancestor(r.objects, tip.value, remote) then outcome.Skipped?
      else if start.head == On("main") then
        git.Sound() && !NoHead(r) && ConcludedMain(r, remote, n + 3, outcome, end)
      else outcome == FastForwarded(remote) && Tip(end, "main") == Some(remote)
    }

    /** Brings main up to date as far as that is a fast-forward. The local work is in the working tree or recoverable
        at every moment, unless the question for local changes failed. An existing main only ever moves on to
        descendants of where it was, unless the question for main failed: then it may be created once more, and keeps
        its history exactly when the remote has it. If no command fails, main does move. */
    method SyncMain() returns (outcome: MainSync, ghost remote: Option<Id>)
      requires git.Sound() && HasHead(now)
      modifies this
      ensures AlwaysSafe(old(past), past, Owed(old(now)))
      ensures Tip(old(now), "main").Some? && !outcome.Created? ==>
                KeptOnTo(old(now), old(past), past, now, Owed(old(now)), "main")
      ensures Tip(old(now), "main").Some? && outcome.Created? ==> CreatedOver(old(now), remote)
      ensures ReportsMain(old(now), outcome) && (Moves(outcome) ==> remote == Some(outcome.to))
      ensures Smooth() ==>
                && remote == Some(world.said(old(asked) + 2))
                && Expected(old(now), AfterFetch(old(now), old(asked) + 1), old(asked) + 4, remote.value, outcome, now)
      ensures var n := old(asked);
              Tip(old(now), "main").Some? && world.answers(n) && world.answers(n + 1) && world.answers(n + 2) ==>
                && remote == Some(world.said(n + 2))
                && (outcome.Created? <==> !world.answers(n + 3) && world.answers(n + 4) && remote.value in now.objects)
                && (world.answers(n + 3) ==>
                    LeavesBehind(old(now), AfterFetch(old(now), n + 1).objects, remote.value, n + 4, outcome))
      ensures var n, start := old(asked), old(now);
              && (!world.answers(n) ==> outcome == Resigned(start, n + 1))
              && (world.answers(n) && world.answers(n + 1) && !world.answers(n + 2) ==>
                    outcome == Resigned(start, n + 3))
              && (world.answers(n) && !world.answers(n + 1) ==> FetchFailed(AfterFetch(start, n + 1), n + 2, outcome))
      ensures Later()
    {
      hide AlwaysSafe, KeptOnTo, Expected, WorkOf, Residue, Present, Still, StillAt, AfterFetch;
      hide CreatedOver, LeavesBehind;
      ghost var start, before := now, past;
      remote := None;
      StillFirst(start, before);
      StaySafe(start, before, past, now, Owed(start));
      var origin := Read();
      if !origin {
        var known := MainExists();
        outcome := if known then Skipped else Failed;
        return;
      }
      var fetched := Fetch();
      StillFurther(start, before, start, before, now);
      StaySafe(start, before, past, now, Owed(start));
      outcome, remote := SyncFetchedMain(fetched, start, before);
    }

    // What a synchronization that cannot go on comes to, by the nth command, the question for main.
    function Resigned(r: Repo, n: nat): MainSync {
      if world.answers(n) && Tip(r, "main").Some? then Skipped else Failed
    }

    // What ends the synchronization when the fetch fails, if anything does.
    method Unfetched() returns (end: Option<MainSync>)
      modifies `asked, `failures, `unseen
      ensures end == if Resigned(now, old(asked)).Skipped? then Some(Skipped)
                     else if world.answers(old(asked) + 1) && Remote("main") in now.refs then None
                     else Some(Failed)
      ensures Later()
    {
      var main := MainExists();
      if main {
        return Some(Skipped);
      }
      var stale := Resolve(Remote("main"));
      return if stale.None? then Some(Failed) else None;
    }

    method SyncFetchedMain(fetched: bool, ghost start: Repo, ghost before: seq<Repo>)
        returns (outcome: MainSync, ghost said: Option<Id>)
      requires git.Sound() && Still(start, before, past, now)
      modifies this
      ensures AlwaysSafe(before, past, Owed(start))
      ensures Tip(start, "main").Some? && !outcome.Created? ==> KeptOnTo(start, before, past, now, Owed(start), "main")
      ensures Tip(start, "main").Some? && outcome.Created? ==> CreatedOver(start, said)
      ensures ReportsMain(start, outcome) && (Moves(outcome) ==> said == Some(outcome.to))
      ensures fetched && Smooth() ==>
                && said == Some(world.said(old(asked)))
                && Expected(start, old(now), old(asked) + 2, said.value, outcome, now)
      ensures var n := old(asked);
              fetched && Tip(start, "main").Some? && world.answers(n) ==>
                && said == Some(world.said(n))
                && (outcome.Created? <==> !world.answers(n + 1) && world.answers(n + 2) && said.value in now.objects)
                && (world.answers(n + 1) ==> LeavesBehind(start, old(now).objects, said.value, n + 2, outcome))
      ensures fetched && !world.answers(old(asked)) ==> outcome == Resigned(old(now), old(asked) + 1)
      ensures !fetched ==> FetchFailed(old(now), old(asked), outcome)
      ensures Later()
    {
      hide AlwaysSafe, KeptOnTo, Expected, WorkOf, Residue, Present, Still, KeepsHistory, CreatedOver, Ancestor;
      said := None;
      StaySafe(start, before, past, now, Owed(start));
      if !fetched {
        var end := Unfetched();
        if end.Some? {
          outcome := end.value;
          return;
        }
      }
      var remote := RemoteMain(fetched);
      said := remote;
      if remote.Some? {
        outcome := SyncKnownMain(remote.value, start, before);
      } else {
        var known := MainExists();
        outcome := if known then Skipped else Failed;
      }
    }

    // A failed fetch ends the synchronization unless main is not seen, and where the remote has it is known.
    ghost predicate FetchFailed(r: Repo, n: nat, outcome: MainSync) {
      if Resigned(r, n).Skipped? then outcome.Skipped?
      else (world.answers(n + 1) && Remote("main") in r.refs) || outcome.Failed?
    }

    // What the outcome says of main and the files.
    ghost predicate ReportsMain(start: Repo, outcome: MainSync)
      reads this
    {
      && (outcome.FastForwarded? && now.head == On("main") ==> astray && LeftBehind(start, now))
      && (outcome.UpToDate? && now.head == On("main") && Residue(now) ==> astray)
      && (outcome.Skipped? || outcome.UpToDate? ==> Tip(now, "main") == Tip(start, "main") && now.files == start.files)
      && (Moves(outcome) ==> Tip(now, "main") == Some(outcome.to) != Tip(start, "main"))
      && (outcome.SyncedCheckedOut? ==> Present(now.files, Owed(start)) && !Residue(now))
    }

    // When main is moved under the checkout that has it: it can be fast-forwarded, but the question for the branch
    // failed. The nth command resolves main, the next asks for the merge base.
    ghost predicate LeavesBehind(start: Repo, objects: Objects, remote: Id, n: nat, outcome: MainSync)
      requires Tip(start, "main").Some?
    {
      world.answers(n) && world.answers(n + 1) && start.head == On("main") ==>
        (outcome.FastForwarded? <==>
         && Tip(start, "main") != Some(remote) && Ancestor(objects, Tip(start, "main").value, remote)
         && remote in objects && !world.answers(n + 2) && world.answers(n + 3))
    }

    // The commit to go to is known.
    method SyncKnownMain(remote: Id, ghost start: Repo, ghost before: seq<Repo>) returns (outcome: MainSync)
      requires git.Sound() && Still(start, before, past, now)
      modifies this
      ensures AlwaysSafe(before, past, Owed(start))
      ensures Tip(start, "main").Some? && !outcome.Created? ==> KeptOnTo(start, before, past, now, Owed(start), "main")
      ensures Tip(start, "main").Some? && outcome.Created? ==> CreatedOver(start, Some(remote))
      ensures ReportsMain(start, outcome) && (Moves(outcome) ==> outcome.to == remote)
      ensures Smooth() ==> Expected(start, old(now), old(asked) + 1, remote, outcome, now)
      ensures var n := old(asked);
              Tip(start, "main").Some? ==>
                (outcome.Created? <==> !world.answers(n) && world.answers(n + 1) && remote in now.objects)
      ensures Tip(start, "main").Some? && world.answers(old(asked)) ==>
                LeavesBehind(start, old(now).objects, remote, old(asked) + 1, outcome)
      ensures Later()
    {
      var known := MainExists();
      if known {
        outcome := SyncExistingMain(remote, start, before);
        return;
      }
      outcome := CreateMain(remote, start, before);
      if outcome.Failed? {
        StaySafe(start, before, past, now, Owed(start));
      }
    }

    // Sets main, which was not seen.
    method CreateMain(remote: Id, ghost start: Repo, ghost before: seq<Repo>) returns (outcome: MainSync)
      requires Still(start, before, past, now) && (Tip(start, "main").Some? ==> unseen)
      modifies `now, `past, `asked, `failures
      ensures outcome.Created? <==> world.answers(old(asked)) && remote in now.objects
      ensures outcome.Created? || (outcome.Failed? && Still(start, before, past, now))
      ensures outcome.Created? ==> AlwaysSafe(before, past, Owed(start)) && Tip(now, "main") == Some(remote)
      ensures outcome.Created? && Tip(start, "main").Some? ==> CreatedOver(start, Some(remote))
      ensures now.objects == old(now).objects && OneCommand()
    {
      ghost var middle := now;
      var ok := UpdateRef(Branch("main"), remote);
      if !ok {
        return Failed;
      }
      CreatedIsSafe(start, before, middle, past, now, Owed(start));
      if Tip(start, "main").Some? {
        KeepsHistoryIff(start, now, "main");
      }
      return Created;
    }

    // Main is there, and the commit to go to is known.
    method SyncExistingMain(remote: Id, ghost start: Repo, ghost before: seq<Repo>) returns (outcome: MainSync)
      requires git.Sound() && Still(start, before, past, now) && Tip(start, "main").Some?
      modifies `now, `past, `asked, `failures, `misled, `astray
      ensures KeptOnTo(start, before, past, now, Owed(start), "main") && !outcome.Created?
      ensures ReportsMain(start, outcome) && (Moves(outcome) ==> outcome.to == remote)
      ensures LeavesBehind(start, old(now).objects, remote, old(asked), outcome)
      ensures Smooth() ==> Expected(start, old(now), old(asked), remote, outcome, now)
      ensures Later()
    {
      hide KeptOnTo, WorkOf, ConcludedMain, Present, LeftBehind;
      StayOnTo(start, before, past, now, Owed(start));
      var local := Resolve(Branch("main"));
      if local.None? {
        return Failed;
      }
      if local.value == remote {
        outcome := CheckMain();
        return;
      }
      var can := CanFastForward(local.value, remote);
      if !can {
        return Skipped;
      }
      ghost var middle := now;
      outcome := MoveMain(remote, start, before);
      AncestorStays(middle.objects, now.objects, local.value, remote);
    }

    // Main is where it should be: the guard is asked where main is checked out.
    method CheckMain() returns (outcome: MainSync)
      requires git.Sound()
      modifies `now, `past, `asked, `failures, `astray
      ensures now == old(now) && past == old(past)
      ensures outcome.UpToDate? || outcome.Failed?
      ensures outcome.UpToDate? && now.head == On("main") && Residue(now) ==> astray
      ensures Smooth() ==>
                outcome == if now.head == On("main") && (Residue(now) || NoHead(now)) then Failed else UpToDate
      ensures Later()
    {
      var branch := CurrentBranch();
      if branch != Some("main") {
        return UpToDate;
      }
      assert Present(now.files, NoWork());
      var verdict := VerifyRootAfterRestore(None, NoWork());
      return if verdict.Accepted? then UpToDate else Failed;
    }

    // Moves main to a descendant, through the working tree where it is checked out.
    method MoveMain(remote: Id, ghost start: Repo, ghost before: seq<Repo>) returns (outcome: MainSync)
      requires git.Sound() && Still(start, before, past, now) && Tip(start, "main").Some?
      requires Ancestor(now.objects, Tip(start, "main").value, remote) && Tip(start, "main") != Some(remote)
      modifies `now, `past, `asked, `failures, `misled, `astray
      ensures KeptOnTo(start, before, past, now, Owed(start), "main") && Grown(old(now).objects, now.objects)
      ensures outcome.FastForwarded? && now.head == On("main") ==> astray && LeftBehind(start, now)
      ensures start.head == On("main") ==>
                (outcome.FastForwarded? <==>
                 remote in old(now).objects && !world.answers(old(asked)) && world.answers(old(asked) + 1))
      ensures outcome in {FastForwarded(remote), SyncedCheckedOut(remote), Failed}
      ensures outcome.FastForwarded? || outcome.SyncedCheckedOut? ==> Tip(now, "main") == Some(remote)
      ensures outcome.SyncedCheckedOut? ==> Present(now.files, Owed(start)) && !Residue(now)
      ensures Smooth() && start.head != On("main") ==> outcome == FastForwarded(remote)
      ensures Smooth() && start.head == On("main") ==>
                !NoHead(old(now)) && ConcludedMain(old(now), remote, old(asked) + 1, outcome, now)
      ensures Later()
    {
      hide KeptOnTo, WorkOf, Present, Residue, ConcludedMain, AfterFetch, LeftBehind, KeptForward;
      ghost var middle, between := now, past;
      StayOnTo(start, before, past, now, Owed(start));
      var branch := CurrentBranch();
      if branch == Some("main") {
        outcome := SyncCheckedOutMain(remote);
        SameWork(start, middle);
        ForwardIsOnTo(middle, between, past, now, Owed(start), "main", remote);
        StillThenOnTo(start, before, middle, between, now, past, Owed(start));
        return;
      }
      var ok := UpdateRef(Branch("main"), remote);
      if ok {
        MoveRefOnTo(start, before, middle, between, now, Owed(start), remote);
        RefMovedAlone(start, middle, now, remote);
        return FastForwarded(remote);
      }
      return Failed;
    }

    // ---------- a reused worktree ----------

    // What the branch is set to follow; snapshot refs are nothing to follow.
    method Upstream(branch: string) returns (ref: Option<Ref>)
      modifies `asked, `failures
      ensures ref.Some? ==> branch in upstreams && upstreams[branch] == ref.value && !ref.value.Snapshot?
      ensures ref.None? ==> !Smooth() || branch !in upstreams || upstreams[branch].Snapshot?
      ensures OneCommand()
    {
      var ok := Read();
      ref := if ok && branch in upstreams && !upstreams[branch].Snapshot? then Some(upstreams[branch]) else None;
    }

    // Switches to a branch, which is created where the remote has it if it is not there. A switch that would lose
    // local changes is refused; one that breaks off may leave the working tree half done.
    method CheckoutBranch(branch: string) returns (ok: bool)
      modifies `now, `past, `asked, `failures, `upstreams
      ensures ok <==> world.answers(old(asked)) && CanSwitch(old(now), branch)
      ensures ok ==> past == old(past) + [now] && now == Switched(old(now), branch)
      ensures var at := StartingPoint(old(now), branch);
              ok ==> at in old(now).refs && now.refs == old(now).refs[Branch(branch) := old(now).refs[at]]
      ensures ok ==> OnBranch(now, branch) && !NoHead(now) && SameEdits(old(now), now)
      ensures ok ==> upstreams == if Branch(branch) in old(now).refs then old(upstreams)
                                  else old(upstreams)[branch := Remote(branch)]
      ensures !ok ==> now == old(now).(index := now.index, files := now.files) && upstreams == old(upstreams)
      ensures !ok && Smooth() ==> now == old(now) && past == old(past)
      ensures OneCommand()
    {
      ok := Read();
      if !ok {
        Disturb();
        return;
      }
      ok := CanSwitch(now, branch);
      if ok {
        ghost var before := now;
        SwitchMeans(now, branch);
        upstreams := if Branch(branch) in now.refs then upstreams else upstreams[branch := Remote(branch)];
        Become(Switched(now, branch));
        MoveKeepsWork(before, now, HeadTree(now));
      }
    }

    // Hard reset to the upstream, by its name.
    method ResetToUpstream(branch: string, upstream: Ref, snapshot: Option<Id>, ghost work: Work) returns (ok: bool)
      requires OnBranch(now, branch) && Backed(now, work, snapshot)
      modifies `now, `past, `asked, `failures
      ensures past == old(past) || past == old(past) + [now]
      ensures past == old(past) ==> now == old(now) && !ok
      ensures Backed(now, work, snapshot) && Safe(now, work)
      ensures now.objects == old(now).objects && now.head == old(now).head
      ensures ok ==> upstream in old(now).refs && old(now).refs[upstream] in now.objects
      ensures ok ==> now.refs == old(now).refs[Branch(branch) := old(now).refs[upstream]]
      ensures ok ==> now.files == ResetFiles(old(now), HeadTree(now)) && now.index == HeadTree(now)
      ensures !ok ==> now.refs == old(now).refs && (Smooth() ==> now == old(now))
      ensures Smooth() ==> (ok <==> upstream in old(now).refs && old(now).refs[upstream] in old(now).objects)
      ensures OneCommand()
    {
      ghost var before := now;
      if upstream in now.refs {
        ok := ResetHard(now.refs[upstream]);
      } else {
        ok := Read();
        ok := false;
      }
      BackedStays(before, now, work, snapshot);
    }

    // Whether branch and HEAD are where the upstream is.
    method ConfirmUpstream(branch: string, upstream: Ref) returns (ok: bool)
      modifies `asked, `failures
      ensures ok ==> AtUpstream(now, branch, upstream)
      ensures Smooth() && !NoHead(now) && AtUpstream(now, branch, upstream) ==> ok
      ensures Later() && Counted()
    {
      var at := Resolve(upstream);
      var head := ResolveHead();
      var tip := Resolve(Branch(branch));
      ok := at.Some? && head == at && tip == at;
    }

    // Whether the pull settles it: it brought the branch to its upstream, or it says that there is none.
    method Settled(branch: string, upstream: Ref, pulled: bool) returns (end: Option<Reuse>)
      modifies `asked, `failures
      ensures end in {None, Some(PulledForward), Some(Interrupted), Some(UpstreamGone)}
      ensures end == Some(PulledForward) ==> AtUpstream(now, branch, upstream)
      ensures !pulled ==> asked == old(asked) && end == if world.gone(asked) then Some(UpstreamGone) else None
      ensures pulled && end.Some? && Smooth() && AtUpstream(now, branch, upstream) && !NoHead(now) ==>
                end == Some(PulledForward)
      ensures pulled && Smooth() && Tip(now, branch).Some? && upstream in now.refs ==>
                (end.Some? <==> Tip(now, branch) == Some(now.refs[upstream]))
      ensures pulled && end.None? ==> asked == old(asked) + 2
      ensures Later() && Counted()
    {
      if !pulled {
        return if world.gone(asked) then Some(UpstreamGone) else None;
      }
      var local, at := BothTips(branch, upstream);
      if local != at {
        return None;
      }
      var ok := ConfirmUpstream(branch, upstream);
      return Some(if local.Some? && ok then PulledForward else Interrupted);
    }

    predicate Follows(branch: string, upstream: Ref)
      reads `upstreams
    {
      branch in upstreams && upstreams[branch] == upstream
    }

    // The branch has everything of the target, and more.
    ghost predicate Ahead(r: Repo, branch: string, target: Option<Id>)
      requires Tip(r, branch).Some?
    {
      target.Some? && target != Tip(r, branch) && Ancestor(r.objects, target.value, Tip(r, branch).value)
    }

    // How commands of which the nth is the fetch of the pull end with the branch when none fails. A pull that is
    // accepted leaves only a branch that is ahead to be decided by the next fetch; one that is not accepted any
    // branch, unless it says that there is no upstream.
    ghost predicate Decided(r: Repo, branch: string, upstream: Ref, pre: Id, n: nat, outcome: Reuse, end: Repo)
      requires Tip(r, branch).Some?
      reads `upstreams
    {
      var fetched, tip := AfterFetch(r, n), Tip(r, branch).value;
      var pulled := Takes(fetched, branch, Target(fetched, branch));
      if pulled && !Ahead(fetched, branch, Target(fetched, branch)) then outcome.PulledForward?
      else if !pulled && world.gone(n + 2) then outcome.UpstreamGone?
      else DecidedIn(AfterFetch(fetched, if pulled then n + 4 else n + 2), tip, upstream, pre, outcome, end)
    }

    lemma DecidedStays(r: Repo, branch: string, upstream: Ref, pre: Id, n: nat, outcome: Reuse, middle: Repo, end: Repo)
      requires Tip(r, branch).Some? && Decided(r, branch, upstream, pre, n, outcome, middle)
      requires HeadId(end) == HeadId(middle)
      ensures Decided(r, branch, upstream, pre, n, outcome, end)
    {
    }

    // After a pull that was accepted, the branch is at its upstream unless it was ahead.
    lemma PullDecides(fetched: Repo, r: Repo, branch: string, upstream: Ref)
      requires Tip(fetched, branch).Some? && Follows(branch, upstream) && Target(fetched, branch).Some?
      requires ArrivedAt(fetched, r, branch, Target(fetched, branch).value)
      ensures Tip(r, branch).Some? && upstream in r.refs
      ensures Tip(r, branch) == Some(r.refs[upstream]) <==> !Ahead(fetched, branch, Target(fetched, branch))
      ensures r.head == On(branch) && Tip(r, branch) == Some(r.refs[upstream]) ==> AtUpstream(r, branch, upstream)
      ensures Ahead(fetched, branch, Target(fetched, branch)) ==> r == fetched
    {
      AncestorOfItself(fetched.objects, Tip(fetched, branch).value);
    }

    // What follows a pull.
    method AfterPull(branch: string, upstream: Ref, pre: Id, snapshot: Option<Id>, ghost work: Work, ghost start: Repo,
                     ghost before: seq<Repo>, pulled: bool)
        returns (outcome: Reuse, ghost undone: Option<Repo>)
      requires git.Sound() && KeptForward(start, before, past, now, work, branch, Pushed(pre))
      requires OnTo(start, now, branch) && OnBranch(now, branch) && Backed(now, work, snapshot)
      modifies `now, `past, `asked, `failures
      ensures KeptForward(start, before, past, now, work, branch, Pushed(pre)) && Backed(now, work, snapshot)
      ensures outcome in {PulledForward, ResetForward, AdoptedRewrite} ==> AtUpstream(now, branch, upstream)
      ensures outcome in {PulledForward, ResetForward, Diverged, UpstreamGone} ==> OnTo(start, now, branch)
      ensures outcome in {PulledForward, ResetForward, AdoptedRewrite, Diverged, UpstreamGone, Interrupted}
      ensures outcome.Diverged? ==> !Smooth() || HasDiverged(now, branch, upstream, pre)
      ensures Smooth() && CarriedAlong(start, old(now)) ==> Bare(start, now, undone)
      ensures Smooth() && CarriedAlong(start, old(now)) && !Dirty(start) ==> !Dirty(now) && !NoHead(now)
      ensures Smooth() ==> (undone.Some? <==> WasReset(outcome))
      ensures Smooth() && !NoHead(old(now)) && (pulled ==> upstream in old(now).refs) ==>
                Followed(old(now), branch, upstream, pre, pulled, old(asked), outcome, now)
      ensures Later() && Counted()
    {
      hide KeptForward, Backed, Safe, AfterFetch, HasDiverged, DecidedIn, Ancestor, OnTo, CarriedAlong, Bare, Dirty;
      undone := None;
      CarriedIsBare(start, now);
      var end := Settled(branch, upstream, pulled);
      if end.Some? {
        outcome := end.value;
        return;
      }
      outcome, undone := Classify(branch, upstream, pre, snapshot, work, start, before);
    }

    // How the commands from the nth on, after a pull, end with the branch when none fails.
    ghost predicate Followed(r: Repo, branch: string, upstream: Ref, pre: Id, pulled: bool, n: nat, outcome: Reuse,
                             end: Repo)
    {
      && Tip(r, branch).Some? && (pulled ==> upstream in r.refs)
      && if pulled && r.refs[upstream] == Tip(r, branch).value then outcome.PulledForward?
         else if !pulled && world.gone(n) then outcome.UpstreamGone?
         else DecidedIn(AfterFetch(r, if pulled then n + 2 else n), Tip(r, branch).value, upstream, pre, outcome, end)
    }

    // What follows an accepted or a refused pull decides.
    lemma PullThenDecided(r: Repo, branch: string, upstream: Ref, pre: Id, n: nat, pulled: bool, middle: Repo,
                          outcome: Reuse, end: Repo)
      requires Tip(r, branch).Some? && Follows(branch, upstream) && OnBranch(middle, branch)
      requires var fetched := AfterFetch(r, n);
               && pulled == Takes(fetched, branch, Target(fetched, branch))
               && if pulled then ArrivedAt(fetched, middle, branch, Target(fetched, branch).value)
                  else middle == fetched
      requires pulled ==> upstream in middle.refs
      requires Followed(middle, branch, upstream, pre, pulled, n + 2, outcome, end)
      ensures Decided(r, branch, upstream, pre, n, outcome, end)
    {
      if pulled {
        PullDecides(AfterFetch(r, n), middle, branch, upstream);
      }
      hide DecidedIn, Takes, AfterFetch, ArrivedAt, Ahead;
    }

    /** Pulls and, where that does not bring the branch to its upstream, decides by what the branch has: it moves on
        to a descendant, or it adopts a rewritten upstream if it was at the upstream from before the fetch. */
    method MoveToUpstream(branch: string, upstream: Ref, pre: Id, snapshot: Option<Id>, ghost work: Work)
        returns (outcome: Reuse, ghost undone: Option<Repo>)
      requires git.Sound() && OnBranch(now, branch) && Backed(now, work, snapshot)
      modifies `now, `past, `asked, `failures
      ensures KeptForward(old(now), old(past), past, now, work, branch, Pushed(pre)) && Backed(now, work, snapshot)
      ensures outcome in {PulledForward, ResetForward, AdoptedRewrite} ==> AtUpstream(now, branch, upstream)
      ensures outcome in {PulledForward, ResetForward, Diverged, UpstreamGone} ==> OnTo(old(now), now, branch)
      ensures outcome in {PulledForward, ResetForward, AdoptedRewrite, Diverged, UpstreamGone, Interrupted}
      ensures outcome.Diverged? ==> !Smooth() || HasDiverged(now, branch, upstream, pre)
      ensures Smooth() && !NoHead(old(now)) ==> Bare(old(now), now, undone)
      ensures Smooth() && !NoHead(old(now)) && !Dirty(old(now)) ==> !Dirty(now) && !NoHead(now)
      ensures Smooth() ==> (undone.Some? <==> WasReset(outcome))
      ensures Smooth() && !NoHead(old(now)) && Follows(branch, upstream) ==>
                Decided(old(now), branch, upstream, pre, old(asked), outcome, now)
      ensures Later() && Counted()
    {
      hide KeptForward, Takes, Backed, Safe, AfterFetch, HasDiverged, Ancestor, WorkOf, OnTo, CarriedAlong, Followed;
      hide ArrivedAt, NoHead, AtUpstream, Bare, Decided, Ahead, Dirty;
      ghost var start, before, first := now, past, asked;
      var ok;
      ghost var fetched;
      ok, fetched := PullFastForward(branch, snapshot, work, Pushed(pre));
      CarriedIsBare(start, now);
      ghost var middle := now;
      if ok && Follows(branch, upstream) {
        PullDecides(fetched, middle, branch, upstream);
      }
      outcome, undone := AfterPull(branch, upstream, pre, snapshot, work, start, before, ok);
      if Smooth() && !NoHead(start) && Follows(branch, upstream) {
        PullThenDecided(start, branch, upstream, pre, first, ok, middle, outcome, now);
      }
    }

    // Where the branch and its upstream are.
    method BothTips(branch: string, upstream: Ref) returns (local: Option<Id>, at: Option<Id>)
      modifies `asked, `failures
      ensures local.Some? == at.Some?
      ensures local.Some? ==> local == Tip(now, branch) && upstream in now.refs && now.refs[upstream] == at.value
      ensures Smooth() && Tip(now, branch).Some? && upstream in now.refs ==> local.Some?
      ensures asked == old(asked) + 2 && Later() && Counted()
    {
      local := Resolve(Branch(branch));
      at := Resolve(upstream);
      if local.None? || at.None? {
        local, at := None, None;
      }
    }

    // The hard reset to the upstream and its confirmation.
    method ResetAndConfirm(branch: string, upstream: Ref, snapshot: Option<Id>, can: bool, ghost work: Work,
                           ghost start: Repo, ghost before: seq<Repo>, ghost pre: Id)
        returns (confirmed: bool, ghost undone: Option<Repo>)
      requires KeptForward(start, before, past, now, work, branch, Pushed(pre)) && OnTo(start, now, branch)
      requires OnBranch(now, branch) && Backed(now, work, snapshot) && upstream in now.refs
      requires if can then Ancestor(now.objects, Tip(now, branch).value, now.refs[upstream])
                 else Tip(now, branch) == Some(pre)
      modifies `now, `past, `asked, `failures
      ensures old(past) <= past
      ensures KeptForward(start, before, past, now, work, branch, Pushed(pre)) && Backed(now, work, snapshot)
      ensures confirmed ==> AtUpstream(now, branch, upstream)
      ensures can ==> OnTo(start, now, branch)
      ensures undone.Some? ==> undone.value == old(now) && now.files == ResetFiles(undone.value, HeadTree(now))
      ensures undone.Some? ==> now.index == HeadTree(now) && !NoHead(now)
      ensures undone.None? ==> !confirmed && (Smooth() ==> now == old(now))
      ensures undone.Some? ==> HeadId(now) == Some(old(now).refs[upstream])
      ensures Smooth() && undone.Some? ==> confirmed
      ensures Smooth() ==> (undone.Some? <==> old(now).refs[upstream] in old(now).objects)
      ensures Later() && Counted()
    {
      ghost var middle, between := now, past;
      var ok := ResetToUpstream(branch, upstream, snapshot, work);
      if past != between {
        ResetIsForward(start, before, middle, between, now, work, branch, Pushed(pre), ok, middle.refs[upstream], can);
      }
      undone := if ok then Some(middle) else None;
      if ok {
        confirmed := ConfirmUpstream(branch, upstream);
      } else {
        confirmed := false;
      }
    }

    // After a pull that did not bring the branch to its upstream.
    method Classify(branch: string, upstream: Ref, pre: Id, snapshot: Option<Id>, ghost work: Work, ghost start: Repo,
                    ghost before: seq<Repo>)
        returns (outcome: Reuse, ghost undone: Option<Repo>)
      requires git.Sound() && KeptForward(start, before, past, now, work, branch, Pushed(pre))
      requires OnTo(start, now, branch)
      requires OnBranch(now, branch) && Backed(now, work, snapshot)
      modifies `now, `past, `asked, `failures
      ensures KeptForward(start, before, past, now, work, branch, Pushed(pre)) && Backed(now, work, snapshot)
      ensures outcome in {ResetForward, AdoptedRewrite} ==> AtUpstream(now, branch, upstream)
      ensures outcome in {ResetForward, Diverged} ==> OnTo(start, now, branch)
      ensures outcome in {ResetForward, AdoptedRewrite, Diverged, Interrupted}
      ensures outcome.Diverged? ==> !Smooth() || HasDiverged(now, branch, upstream, pre)
      ensures Smooth() && CarriedAlong(start, old(now)) ==> Bare(start, now, undone)
      ensures Smooth() && CarriedAlong(start, old(now)) && !Dirty(start) ==> !Dirty(now) && !NoHead(now)
      ensures Smooth() ==> (undone.Some? <==> WasReset(outcome))
      ensures Smooth() ==>
                DecidedIn(AfterFetch(old(now), old(asked)), Tip(old(now), branch).value, upstream, pre, outcome, now)
      ensures Later() && Counted()
    {
      hide KeptForward, Backed, AfterFetch, Safe, Kept, Ancestor, CanMove, WorkOf, SameEdits, OnTo, AtUpstream;
      ghost var arrived := now;
      undone := None;
      var ok := FetchOnTo(branch, snapshot, work, Pushed(pre), start, before);
      FetchCarriesFurther(start, arrived, now);
      var local, at := BothTips(branch, upstream);
      if !ok || local.None? {
        return Interrupted, undone;
      }
      var can := CanFastForward(local.value, at.value);
      if !can && local.value != pre {
        return Diverged, undone;
      }
      var confirmed;
      confirmed, undone := ResetAndConfirm(branch, upstream, snapshot, can, work, start, before, pre);
      if undone.Some? && !Dirty(undone.value) {
        ResetStaysClean(undone.value, now);
      }
      return if !confirmed then Interrupted else if can then ResetForward else AdoptedRewrite, undone;
    }

    /** How a synchronization from the nth command on, the question for local changes, ends when no command fails. What
        the fetches bring decides, with local changes as without; with them, the work is back and its ref gone, unless
        a snapshot of the same name is anchored already, or the work is in conflict with the commit it came to. */
    ghost predicate Concluded(r: Repo, branch: string, upstream: Ref, pre: Id, n: nat, outcome: Reuse, end: Repo)
      requires git.Sound() && !NoHead(r) && Tip(r, branch).Some?
      reads `upstreams
    {
      if !Dirty(r) then Decided(r, branch, upstream, pre, n + 1, outcome, end) && !Dirty(end)
      else if Snapshot(Snapped(git, r).1) in r.refs then outcome.Interrupted?
      else
        Restored(Cleared(git, r), branch, upstream, pre, n + CaptureLength(r), Snapped(git, r).1, WorkOf(r), outcome,
                 end)
    }

    /** Snapshot, move, restore. If only the question for local changes failed, the work is kept exactly when no hard
        reset was made, or the one that was made undoes nothing of it. */
    method SyncOwnBranch(branch: string, upstream: Ref, pre: Id) returns (outcome: Reuse)
      requires git.Sound() && OnBranch(now, branch) && !upstream.Snapshot? && Follows(branch, upstream)
      modifies `now, `past, `asked, `failures, `misled
      ensures KeptForward(old(now), old(past), past, now, Owed(old(now)), branch, Pushed(pre))
      ensures outcome in {PulledForward, ResetForward, AdoptedRewrite} ==>
                AtUpstream(now, branch, upstream) && Present(now.files, Owed(old(now)))
      ensures outcome in {PulledForward, ResetForward, Diverged, UpstreamGone} ==> OnTo(old(now), now, branch)
      ensures outcome in {PulledForward, ResetForward, AdoptedRewrite, Diverged, UpstreamGone, Interrupted}
      ensures outcome.Diverged? ==> !Smooth() || HasDiverged(now, branch, upstream, pre)
      ensures misled == (old(misled) || (Dirty(old(now)) && !world.answers(old(asked))))
      ensures misled && !old(misled) ==> !Smooth()
      ensures OnlyStatusFailed() && !NoHead(old(now)) ==>
                Decided(old(now), branch, upstream, pre, old(asked) + 1, outcome, now)
      ensures OnlyStatusFailed() && !NoHead(old(now)) ==>
                (Present(now.files, WorkOf(old(now))) <==>
                 !WasReset(outcome) || UndoesNothing(old(now), HeadTree(now)))
      ensures misled && !old(misled) && AnsweredBut(old(asked)) ==> OnlyStatusFailed()
      ensures Smooth() && !NoHead(old(now)) ==>
                Concluded(old(now), branch, upstream, pre, old(asked), outcome, now)
      ensures Later()
    {
      hide Restored, Cleared, Snapped;
      hide KeptForward, Decided, AfterFetch, HasDiverged, UndoesNothing, OnTo, AtUpstream;
      ghost var start, before := now, past;
      var capture := StashLocalChanges();
      ghost var work := if capture.NothingLocal? then Owed(start) else WorkOf(start);
      KeptLess(start, before, past, now, WorkOf(start), work);
      if capture.CaptureFailed? {
        KeptIsForward(start, before, past, now, work, branch, Pushed(pre));
        KeptForwardLess(start, before, past, now, work, Owed(start), branch, Pushed(pre));
        return Interrupted;
      }
      if capture.NothingLocal? {
        BackedByNothing(now, work);
      }
      var snapshot := if capture.Captured? then Some(capture.id) else None;
      outcome := MoveAndRestoreBranch(branch, upstream, pre, snapshot, work, start, before);
      KeptForwardLess(start, before, past, now, work, Owed(start), branch, Pushed(pre));
    }

    // How the move of a clean checkout and the restore of the snapshot end when no command fails.
    ghost predicate Restored(r: Repo, branch: string, upstream: Ref, pre: Id, n: nat, snapshot: Id, work: Work,
                             outcome: Reuse, end: Repo)
      reads `upstreams
    {
      || (&& Tip(r, branch).Some? && Decided(r, branch, upstream, pre, n, outcome, end)
          && Present(end.files, work) && Snapshot(snapshot) !in end.refs)
      || (outcome.Interrupted? && Conflicts(work, HeadTree(end)))
    }

    // After the capture.
    method MoveAndRestoreBranch(branch: string, upstream: Ref, pre: Id, snapshot: Option<Id>, ghost work: Work,
                                ghost start: Repo, ghost before: seq<Repo>)
        returns (outcome: Reuse)
      requires git.Sound() && OnBranch(start, branch) && !upstream.Snapshot? && Follows(branch, upstream)
      requires Kept(start, before, past, now, work) && Backed(now, work, snapshot) && (snapshot.None? ==> now == start)
      modifies `now, `past, `asked, `failures
      ensures KeptForward(start, before, past, now, work, branch, Pushed(pre))
      ensures outcome in {PulledForward, ResetForward, AdoptedRewrite} ==>
                AtUpstream(now, branch, upstream) && Present(now.files, work)
      ensures outcome in {PulledForward, ResetForward, Diverged, UpstreamGone} ==> OnTo(start, now, branch)
      ensures outcome in {PulledForward, ResetForward, AdoptedRewrite, Diverged, UpstreamGone, Interrupted}
      ensures outcome.Diverged? ==> !Smooth() || HasDiverged(now, branch, upstream, pre)
      ensures snapshot.None? && Smooth() && !NoHead(start) ==>
                Decided(start, branch, upstream, pre, old(asked), outcome, now)
      ensures snapshot.None? && Smooth() && !NoHead(start) ==>
                (Present(now.files, WorkOf(start)) <==> !WasReset(outcome) || UndoesNothing(start, HeadTree(now)))
      ensures snapshot.None? && Smooth() && !NoHead(start) && !Dirty(start) ==> !Dirty(now)
      ensures snapshot.Some? && Smooth() && !NoHead(old(now)) && !Dirty(old(now)) ==>
                Restored(old(now), branch, upstream, pre, old(asked), snapshot.value, work, outcome, now)
      ensures Later() && (snapshot.None? ==> Counted())
    {
      hide AfterFetch, UndoesNothing, Safe, Decided, Bare, Takes;
      ghost var middle, between := now, past;
      ghost var undone;
      outcome, undone := MoveToUpstream(branch, upstream, pre, snapshot, work);
      QuietFirst(start, before, middle, between, now, past, work, branch, Pushed(pre));
      MoveIsOnTo(start, middle, now, branch);
      if snapshot.None? && Smooth() && !NoHead(start) {
        BareKeepsIff(start, now, undone);
      }
      ghost var from, first := old(now), old(asked);
      middle, between := now, past;
      var restored := RestoreStashedChanges(snapshot, work);
      QuietLast(start, before, middle, between, now, past, work, branch, Pushed(pre));
      RestIsOnTo(start, middle, now, branch);
      if !restored {
        outcome := Interrupted;
      } else if Smooth() && !NoHead(from) && OnBranch(from, branch) {
        DecidedStays(from, branch, upstream, pre, first, outcome, middle, now);
      }
    }

    // What the branch follows, and where that is.
    method FindUpstream(branch: string) returns (upstream: Option<Ref>, at: Option<Id>)
      modifies `asked, `failures
      ensures upstream.Some? ==> Follows(branch, upstream.value) && !upstream.value.Snapshot?
      ensures at.Some? ==> upstream.Some? && upstream.value in now.refs && now.refs[upstream.value] == at.value
      ensures at.Some? ==> asked == old(asked) + 3
      ensures FoundUpstream(now, branch, old(asked)) ==> at.Some?
      ensures Smooth() ==> (upstream.Some? <==> branch in upstreams && !upstreams[branch].Snapshot?)
      ensures Smooth() && upstream.Some? ==> (at.Some? <==> upstreams[branch] in now.refs)
      ensures Later() && Counted()
    {
      at := None;
      upstream := Upstream(branch);
      if upstream.Some? {
        var again := Upstream(branch);
        if again.Some? {
          at := Resolve(again.value);
        }
      }
    }

    // The branch follows something that is there, and the three questions for that are answered.
    predicate FoundUpstream(r: Repo, branch: string, n: nat)
      reads `upstreams
    {
      && Target(r, branch).Some? && !upstreams[branch].Snapshot?
      && world.answers(n) && world.answers(n + 1) && world.answers(n + 2)
    }

    // A fetch after which nothing has happened yet.
    method FetchQuietly(ghost begun: Repo, ghost before: seq<Repo>) returns (ok: bool)
      requires Kept(begun, before, past, now, WorkOf(begun)) && StillAt(begun, now)
      modifies `now, `past, `asked, `failures
      ensures Kept(begun, before, past, now, WorkOf(begun)) && StillAt(begun, now)
      ensures now == AfterFetch(old(now), old(asked)) && OneCommand()
    {
      ghost var middle, between := now, past;
      WorkIsPresent(begun);
      ok := Fetch();
      KeepOneMore(begun, before, middle, between, now, WorkOf(begun));
    }

    // What the outcome says of the branch and the files.
    ghost predicate Reports(begun: Repo, branch: string, outcome: Reuse)
      reads this
    {
      && (outcome in {PulledForward, ResetForward, AdoptedRewrite} ==>
            branch in upstreams && AtUpstream(now, branch, upstreams[branch]) && Present(now.files, Owed(begun)))
      && (outcome in {NoUpstream, NoOriginRef, PulledForward, ResetForward, Diverged, UpstreamGone} ==>
            OnTo(begun, now, branch))
    }

    // Finds what the branch follows, and synchronizes it.
    method SyncSwitchedBranch(branch: string, ghost begun: Repo, ghost before: seq<Repo>, ghost pre: Id)
        returns (outcome: Reuse)
      requires git.Sound() && now == begun && past == before + [begun] && OnBranch(now, branch) && !NoHead(now)
      requires pre == Known(begun, branch)
      modifies `now, `past, `asked, `failures, `misled
      ensures KeptForward(begun, before, past, now, Owed(begun), branch, Pushed(pre)) && !outcome.NotSwitched?
      ensures Reports(begun, branch, outcome)
      ensures outcome.Diverged? && Smooth() ==> branch in upstreams && HasDiverged(now, branch, upstreams[branch], pre)
      ensures OnlyStatusFailed() ==>
                && DecidedFrom(begun, branch, old(asked), outcome, now)
                && (Present(now.files, WorkOf(begun)) <==> !WasReset(outcome) || UndoesNothing(begun, HeadTree(now)))
      ensures misled && !old(misled) ==> !Smooth() && !world.answers(old(asked) + 5)
      ensures misled && !old(misled) && AnsweredBut(old(asked) + 5) ==> OnlyStatusFailed()
      ensures Smooth() ==> Settles(begun, branch, old(asked), outcome, now)
      ensures Asks(begun, branch, old(asked)) ==>
                misled == (old(misled) || (Dirty(begun) && !world.answers(old(asked) + 5)))
      ensures Later() && (old(misled) ==> misled)
    {
      hide Kept, KeptForward, Present, UndoesNothing, WorkOf, HasDiverged, Decided, AfterFetch, OnTo, AtUpstream;
      hide HeadTree, Dirty, Safe, Quiet, StillAt, Grown, NoHead, FetchSettles;
      StartsKept(begun, before);
      QuietSoFar(begun, before, past, now, Owed(begun), branch, Pushed(pre));
      var upstream, at := FindUpstream(branch);
      if at.None? {
        return if upstream.None? then NoUpstream else Interrupted;
      }
      outcome := SyncFollowedBranch(branch, upstream.value, at.value, begun, before);
    }

    // How the nth command, a fetch, and what follows end when no command fails.
    ghost predicate FetchSettles(begun: Repo, branch: string, upstream: Ref, pre: Id, n: nat, outcome: Reuse, end: Repo)
      reads `upstreams
    {
      var r := AfterFetch(begun, n);
      if Remote(branch) !in r.refs then outcome.NoOriginRef?
      else
        && git.Sound() && !NoHead(r) && Tip(r, branch).Some?
        && Concluded(r, branch, upstream, pre, n + 2, outcome, end)
    }

    /** How the commands from the nth on end when none fails. */
    ghost predicate Settles(begun: Repo, branch: string, n: nat, outcome: Reuse, end: Repo)
      reads `upstreams
    {
      if branch !in upstreams || upstreams[branch].Snapshot? then outcome.NoUpstream?
      else if upstreams[branch] !in begun.refs then outcome.Interrupted?
      else FetchSettles(begun, branch, upstreams[branch], begun.refs[upstreams[branch]], n + 3, outcome, end)
    }

    // Every command since then was answered but, maybe, the nth.
    twostate predicate AnsweredBut(n: nat)
      reads this
    {
      forall i: nat :: old(asked) <= i < asked && i != n ==> world.answers(i)
    }

    // Fetches and, where the branch is on the remote, synchronizes it.
    method SyncFollowedBranch(branch: string, upstream: Ref, pre: Id, ghost begun: Repo, ghost before: seq<Repo>)
        returns (outcome: Reuse)
      requires git.Sound() && now == begun && OnBranch(now, branch) && !NoHead(now)
      requires Follows(branch, upstream) && !upstream.Snapshot? && Kept(begun, before, past, now, WorkOf(begun))
      modifies `now, `past, `asked, `failures, `misled
      ensures KeptForward(begun, before, past, now, Owed(begun), branch, Pushed(pre)) && !outcome.NotSwitched?
      ensures Reports(begun, branch, outcome)
      ensures outcome.Diverged? && Smooth() ==> HasDiverged(now, branch, upstream, pre)
      ensures OnlyStatusFailed() ==>
                && Decided(AfterFetch(begun, old(asked)), branch, upstream, pre, old(asked) + 3, outcome, now)
                && (Present(now.files, WorkOf(begun)) <==> !WasReset(outcome) || UndoesNothing(begun, HeadTree(now)))
      ensures misled == (old(misled) || (&& world.answers(old(asked) + 1)
                                         && Remote(branch) in AfterFetch(begun, old(asked)).refs
                                         && Dirty(begun) && !world.answers(old(asked) + 2)))
      ensures misled && !old(misled) ==> !Smooth()
      ensures misled && !old(misled) && AnsweredBut(old(asked) + 2) ==> OnlyStatusFailed()
      ensures Smooth() ==> FetchSettles(begun, branch, upstream, pre, old(asked), outcome, now)
      ensures Later()
    {
      hide Kept, KeptForward, Present, UndoesNothing, WorkOf, HasDiverged, Decided, AfterFetch, OnTo, AtUpstream;
      hide HeadTree, Dirty, Reports, Concluded;
      var fetched := FetchQuietly(begun, before);
      outcome := SyncFetchedBranch(branch, upstream, pre, begun, before);
    }

    // The commit that the upstream is known to be at.
    function Known(r: Repo, branch: string): Id
      reads `upstreams
    {
      if Target(r, branch).Some? then Target(r, branch).value else 0
    }

    // The question for local changes comes to be asked: it is the sixth from then on.
    predicate Asks(begun: Repo, branch: string, n: nat)
      reads `upstreams
    {
      FoundUpstream(begun, branch, n) && world.answers(n + 4) && Remote(branch) in AfterFetch(begun, n + 3).refs
    }

    // After the fetch.
    method SyncFetchedBranch(branch: string, upstream: Ref, pre: Id, ghost begun: Repo, ghost before: seq<Repo>)
        returns (outcome: Reuse)
      requires git.Sound() && OnBranch(begun, branch) && !NoHead(begun)
      requires Follows(branch, upstream) && !upstream.Snapshot?
      requires Kept(begun, before, past, now, WorkOf(begun)) && StillAt(begun, now)
      modifies `now, `past, `asked, `failures, `misled
      ensures KeptForward(begun, before, past, now, Owed(begun), branch, Pushed(pre)) && !outcome.NotSwitched?
      ensures Reports(begun, branch, outcome)
      ensures outcome.Diverged? && Smooth() ==> HasDiverged(now, branch, upstream, pre)
      ensures OnlyStatusFailed() ==>
                && Decided(old(now), branch, upstream, pre, old(asked) + 2, outcome, now)
                && (Present(now.files, WorkOf(begun)) <==> !WasReset(outcome) || UndoesNothing(begun, HeadTree(now)))
      ensures misled == (old(misled) || (&& world.answers(old(asked)) && Remote(branch) in old(now).refs
                                         && Dirty(begun) && !world.answers(old(asked) + 1)))
      ensures misled && !old(misled) ==> !Smooth()
      ensures misled && !old(misled) && AnsweredBut(old(asked) + 1) ==> OnlyStatusFailed()
      ensures Smooth() ==>
                if Remote(branch) in old(now).refs then
                  !NoHead(old(now)) && Concluded(old(now), branch, upstream, pre, old(asked) + 1, outcome, now)
                else outcome.NoOriginRef?
      ensures Later()
    {
      hide Concluded, Ancestor;
      hide Kept, KeptForward, Present, UndoesNothing, WorkOf, HasDiverged, Decided, AfterFetch, Safe, OnTo, AtUpstream;
      SameWork(begun, now);
      assert !NoHead(now);
      var there := Resolve(Remote(branch));
      if there.None? {
        QuietSoFar(begun, before, past, now, Owed(begun), branch, Pushed(pre));
        return NoOriginRef;
      }
      ghost var middle, between := now, past;
      outcome := SyncOwnBranch(branch, upstream, pre);
      StillUndone(begun, middle, HeadTree(now));
      FetchedThenSynced(begun, before, middle, between, now, past, Owed(begun), branch, Pushed(pre));
    }

    /** Switches a reused worktree to its branch and synchronizes it. From the switch on, no commit of the branch is
        ever lost: each is in the history of the branch or of the upstream from before the fetch; and the local
        work is in the working tree or recoverable, unless the question for local changes failed. If only that failed,
        the work is kept exactly when the branch is not reset to its upstream, or the reset undoes nothing of it; and
        whether it is reset follows from what the fetches bring. */
    method SyncReusedWorktreeBranch(branch: string) returns (outcome: Reuse)
      requires git.Sound()
      modifies this
      ensures outcome.NotSwitched? <==> !world.answers(old(asked)) || !CanSwitch(old(now), branch)
      ensures outcome.NotSwitched? ==> now == old(now).(index := now.index, files := now.files)
      ensures outcome.NotSwitched? && Smooth() ==> now == old(now) && past == old(past)
      ensures !outcome.NotSwitched? && Smooth() ==>
                Settles(Switched(old(now), branch), branch, old(asked) + 1, outcome, now)
      ensures upstreams == if outcome.NotSwitched? || Branch(branch) in old(now).refs then old(upstreams)
                           else old(upstreams)[branch := Remote(branch)]
      ensures !outcome.NotSwitched? ==>
                var begun := Switched(old(now), branch);
                && OnBranch(begun, branch) && SameEdits(old(now), begun) && Reports(begun, branch, outcome)
                && KeptForward(begun, old(past), past, now, Owed(begun), branch, Pushed(Known(begun, branch)))
      ensures outcome.Diverged? && Smooth() ==>
                && branch in upstreams
                && HasDiverged(now, branch, upstreams[branch], Known(Switched(old(now), branch), branch))
      ensures OnlyStatusFailed() ==>
                && (Present(now.files, WorkOf(old(now))) <==>
                    !WasReset(outcome) || UndoesNothing(old(now), HeadTree(now)))
                && DecidedFrom(Switched(old(now), branch), branch, old(asked) + 1, outcome, now)
      ensures misled && !old(misled) ==> !world.answers(old(asked) + 6)
      ensures misled && !old(misled) && AnsweredBut(old(asked) + 6) ==> OnlyStatusFailed()
      ensures !outcome.NotSwitched? && Asks(Switched(old(now), branch), branch, old(asked) + 1) ==>
                misled == (old(misled) || (Dirty(Switched(old(now), branch)) && !world.answers(old(asked) + 6)))
    {
      hide KeptForward, Present, UndoesNothing, WorkOf, HasDiverged, Decided, Switched, CanSwitch, SameEdits, Reports;
      hide Settles;
      ghost var start, before := now, past;
      var ok := CheckoutBranch(branch);
      if !ok {
        return NotSwitched;
      }
      ghost var begun := now;
      outcome := SyncSwitchedBranch(branch, begun, before, Known(begun, branch));
      SamePresence(start, begun, now.files);
      SameUndone(start, begun, HeadTree(now));
    }

    // How the commands from the nth on end with the branch when none fails but the question for local changes.
    ghost predicate DecidedFrom(begun: Repo, branch: string, n: nat, outcome: Reuse, end: Repo)
      reads `upstreams
    {
      && branch in upstreams && Tip(begun, branch).Some?
      && Decided(AfterFetch(begun, n + 3), branch, upstreams[branch], Known(begun, branch), n + 6, outcome, end)
    }
  }

  // ---------- what the three questions can cost ----------

  // One file: committed as a, edited to b, and c on the remote.
  function EditedOnBothSides(branch: string): Repo {
    var was, mine, theirs := map["f" := Text("a")], map["f" := Text("b")], map["f" := Text("c")];
    Repo(map[0 := Commit(was, []), 1 := Commit(theirs, [0])], map[Branch(branch) := 0, Remote(branch) := 1],
         On(branch), was, mine)
  }

  lemma EditIsUndone(branch: string, objects: Objects)
    requires Grown(EditedOnBothSides(branch).objects, objects)
    ensures 1 in objects && Dirty(EditedOnBothSides(branch))
    ensures !UndoesNothing(EditedOnBothSides(branch), TreeOf(objects, Some(1)))
  {
    var start, tree := EditedOnBothSides(branch), TreeOf(objects, Some(1));
    assert Version(start.files, "f") == Some(Text("b")) && Version(start.index, "f") == Some(Text("a"));
    assert Version(tree, "f") == Some(Text("c"));
    assert Edited(WorkOf(start), "f") && !HasEdit(Version(tree, "f"), WorkOf(start), "f");
  }

  lemma EditInTheWay(branch: string, r: Repo)
    requires StillAt(EditedOnBothSides(branch), r)
    ensures !Takes(r, branch, Some(1))
  {
    var tree := TreeOf(r.objects, Some(1));
    assert Version(r.files, "f") == Some(Text("b")) && Version(HeadTree(r), "f") == Some(Text("a"));
    assert Version(tree, "f") == Some(Text("c"));
    assert "f" in HeadTree(r).Keys + tree.Keys && !CanMove(r, tree);
    if Ancestor(r.objects, 1, 0) {
      RootAlone(r.objects, 1, 0);
      assert false;
    }
  }

  // Only the nth command fails, and every fetch brings the remote branch to the commit.
  function AllButOne(n: nat, remotes: map<Ref, Id>, said: Id): World {
    World(i => i != n, i => map[], i => remotes, i => said, i => map[], i => map[], i => false)
  }

  // A checkout of the branch in that world.
  method EditedCheckout(git: Git, branch: string, n: nat) returns (c: Checkout)
    ensures fresh(c) && c.git == git && c.world == AllButOne(n, map[Remote(branch) := 1], 1)
    ensures c.upstreams == map[branch := Remote(branch)] && c.now == EditedOnBothSides(branch) && c.asked == 0
    ensures c.failures == 0 && !c.misled
  {
    c := new Checkout(git, AllButOne(n, map[Remote(branch) := 1], 1), map[branch := Remote(branch)],
                      EditedOnBothSides(branch));
  }

  // In this world only the question for local changes fails.
  method StatusFails(git: Git) returns (c: Checkout)
    requires git.Sound()
    ensures c.world == AllButOne(0, map[Remote("main") := 1], 1) && c.upstreams == map["main" := Remote("main")]
    ensures Grown(EditedOnBothSides("main").objects, c.now.objects) && 1 in c.now.objects
    ensures var start := EditedOnBothSides("main");
            var fetched := c.AfterFetch(start, 1);
            (Present(c.now.files, WorkOf(start)) <==>
             || Takes(fetched, "main", c.Target(fetched, "main"))
             || UndoesNothing(start, TreeOf(c.now.objects, Some(1))))
  {
    hide KeptForward, Residue, c.ConcludedMain, Present, UndoesNothing, Takes, WorkOf, Dirty;
    EditIsUndone("main", EditedOnBothSides("main").objects);
    c := EditedCheckout(git, "main", 0);
    var outcome := c.SyncCheckedOutMain(1);
  }

  /** A run that loses local work: the question for local changes is the only command that fails, the pull does not
      take the edited file, and the hard reset undoes the edit. */
  method StatusFailureLosesWork(git: Git) returns (c: Checkout)
    requires git.Sound()
    ensures forall i: nat :: c.world.answers(i) <==> i != 0
    ensures !Present(c.now.files, WorkOf(EditedOnBothSides("main")))
  {
    c := StatusFails(git);
    hide Present, UndoesNothing, Takes, WorkOf;
    EditIsUndone("main", c.now.objects);
    EditInTheWay("main", c.AfterFetch(EditedOnBothSides("main"), 1));
  }

  lemma SwitchToItself(r: Repo, branch: string)
    requires r.head == On(branch) && Tip(r, branch).Some? && Tip(r, branch).value in r.objects
    ensures CanSwitch(r, branch) && Switched(r, branch) == r
  {
    var tree := HeadTree(r);
    assert Moved(r.files, tree, tree) == r.files && Moved(r.index, tree, tree) == r.index;
  }

  lemma TopicIsAsked(c: Checkout)
    requires c.world == AllButOne(6, map[Remote("topic") := 1], 1) && c.upstreams == map["topic" := Remote("topic")]
    ensures c.Asks(EditedOnBothSides("topic"), "topic", 1)
  {
  }

  // A fetch in such a world.
  lemma RemoteAfterFetch(c: Checkout, branch: string, skipped: nat, r: Repo, n: nat)
    requires c.world == AllButOne(skipped, map[Remote(branch) := 1], 1)
    ensures var after := c.AfterFetch(r, n); Remote(branch) in after.refs && after.refs[Remote(branch)] == 1
  {
  }

  // The branch of the worktree is reset to its upstream.
  lemma TopicIsReset(c: Checkout, outcome: Reuse, end: Repo)
    requires c.world == AllButOne(6, map[Remote("topic") := 1], 1) && c.upstreams == map["topic" := Remote("topic")]
    requires c.DecidedFrom(EditedOnBothSides("topic"), "topic", 1, outcome, end)
    ensures WasReset(outcome) && HeadId(end) == Some(1)
  {
    hide Takes, Ancestor, c.AfterFetch, c.Ahead;
    var start := EditedOnBothSides("topic");
    var first := c.AfterFetch(start, 4);
    var second := c.AfterFetch(first, 7);
    var third := c.AfterFetch(second, 9);
    RemoteAfterFetch(c, "topic", 6, first, 7);
    RemoteAfterFetch(c, "topic", 6, second, 9);
    EditInTheWay("topic", second);
    assert Grown(start.objects, third.objects) && 1 in third.objects;
    ChildHasParent(third.objects, 1, 0);
  }

  // A synchronization of a worktree that is on the branch already, in which only the question for local changes fails.
  method SyncUnasked(c: Checkout, branch: string, ghost start: Repo) returns (outcome: Reuse)
    requires c.git.Sound() && c.now == start && c.asked == 0 && !c.misled && Dirty(start)
    requires CanSwitch(start, branch) && Switched(start, branch) == start && Branch(branch) in start.refs
    requires c.Asks(start, branch, 1) && forall i: nat :: c.world.answers(i) <==> i != 6
    modifies c
    ensures Grown(start.objects, c.now.objects) && c.upstreams == old(c.upstreams)
    ensures c.DecidedFrom(start, branch, 1, outcome, c.now)
    ensures Present(c.now.files, WorkOf(start)) <==> !WasReset(outcome) || UndoesNothing(start, HeadTree(c.now))
  {
    hide Present, UndoesNothing, WorkOf, Dirty, Switched, CanSwitch, c.DecidedFrom, c.Asks, SameEdits, HasDiverged;
    hide c.Reports, OnBranch, Safe;
    outcome := c.SyncReusedWorktreeBranch(branch);
  }

  /** A run that loses local work in a worktree: the question for local changes is the only command that fails. */
  method StatusFailureLosesWorktreeWork(git: Git) returns (c: Checkout, outcome: Reuse)
    requires git.Sound()
    ensures forall i: nat :: c.world.answers(i) <==> i != 6
    ensures !Present(c.now.files, WorkOf(EditedOnBothSides("topic")))
  {
    hide Present, UndoesNothing, WorkOf, Dirty, Switched, CanSwitch;
    ghost var start := EditedOnBothSides("topic");
    EditIsUndone("topic", start.objects);
    SwitchToItself(start, "topic");
    c := EditedCheckout(git, "topic", 6);
    TopicIsAsked(c);
    hide c.DecidedFrom, c.Asks;
    outcome := SyncUnasked(c, "topic", start);
    TopicIsReset(c, outcome, c.now);
    EditIsUndone("topic", c.now.objects);
  }

  // The local main has a commit that the remote main does not have.
  function AheadOfRemote(): Repo {
    var mine := map["f" := Text("a")];
    Repo(map[0 := Commit(map[], []), 1 := Commit(mine, [0])], map[Branch("main") := 1, Remote("main") := 0],
         On("main"), mine, mine)
  }

  /** A run that loses a commit: the question for main is the only command that fails, and main is created once more
      where the remote has it. */
  method MainFailureLosesCommit(git: Git) returns (c: Checkout, ghost start: Repo)
    requires git.Sound()
    ensures Tip(start, "main") == Some(1) && forall i: nat :: c.world.answers(i) <==> i != 3
    ensures Tip(c.now, "main") == Some(0) && !KeepsHistory(start, c.now, "main")
  {
    hide Safe, AlwaysSafe, c.Expected, Residue, Present, WorkOf, Ancestor;
    var found, remotes := AheadOfRemote(), map[Remote("main") := 0];
    start := found;
    c := new Checkout(git, AllButOne(3, remotes, 0), map["main" := Remote("main")], found);
    var outcome;
    ghost var remote;
    outcome, remote := c.SyncMain();
    if Ancestor(c.now.objects, 1, 0) {
      RootAlone(c.now.objects, 1, 0);
      assert false;
    }
  }

  // A clean checkout of main, behind the remote.
  function BehindRemote(): Repo {
    var was := map["f" := Text("a")];
    Repo(map[0 := Commit(was, []), 1 := Commit(map["f" := Text("b")], [0])],
         map[Branch("main") := 0, Remote("main") := 1], On("main"), was, was)
  }

  lemma LeftBehindIsResidue(end: Repo)
    requires LeftBehind(BehindRemote(), end) && OnTo(BehindRemote(), end, "main") && Tip(end, "main") == Some(1)
    ensures Residue(end)
  {
    assert HeadTree(BehindRemote())["f"] == Text("a");
    assert HeadTree(end) == BehindRemote().objects[1].tree;
    assert HeadTree(end)["f"] == Text("b");
  }

  // A synchronization of a checked out main that can be fast-forwarded, in which only the question for the branch
  // fails.
  method SyncAstray(c: Checkout, ghost start: Repo) returns (outcome: MainSync)
    requires c.git.Sound() && c.now == start && c.asked == 0 && HasHead(start) && OnBranch(start, "main")
    requires forall i: nat :: c.world.answers(i) <==> i != 6
    requires var said, objects := c.world.said(2), c.AfterFetch(start, 1).objects;
             said in objects && Tip(start, "main") != Some(said) && Ancestor(objects, Tip(start, "main").value, said)
    modifies c
    ensures outcome == FastForwarded(c.world.said(2)) && Tip(c.now, "main") == Some(c.world.said(2))
    ensures OnTo(start, c.now, "main") && LeftBehind(start, c.now)
  {
    hide AlwaysSafe, c.Expected, Residue, Present, WorkOf, Ancestor, LeftBehind, Safe, Dirty, c.AfterFetch;
    ghost var remote;
    outcome, remote := c.SyncMain();
  }

  /** A run that leaves a clean checkout with the residue that the guard is there to reject: the question for the
      branch is the only command that fails, and main is moved under the checkout that has it. */
  method BranchFailureLeavesResidue(git: Git) returns (c: Checkout, outcome: MainSync)
    requires git.Sound()
    ensures !Dirty(BehindRemote()) && forall i: nat :: c.world.answers(i) <==> i != 6
    ensures outcome == FastForwarded(1) && Residue(c.now)
  {
    var start := BehindRemote();
    c := new Checkout(git, AllButOne(6, map[Remote("main") := 1], 1), map["main" := Remote("main")], start);
    ghost var objects := c.AfterFetch(start, 1).objects;
    assert 1 in objects && 0 in objects[1].parents;
    ChildHasParent(objects, 1, 0);
    hide c.AfterFetch, Residue, OnTo, LeftBehind;
    outcome := SyncAstray(c, start);
    LeftBehindIsResidue(c.now);
  }

  lemma ChildHasParent(objects: Objects, child: Id, parent: Id)
    requires child in objects && parent in objects[child].parents
    ensures Ancestor(objects, parent, child)
  {
    assert IsPath(objects, [child, parent]);
  }
}
