/** Repositories as far as a synchronization changes them: commits, refs, the index and the working tree. */
module Repositories {
  import opened Options

  type Path = string

  /** A file's content: as written, or what a merge made of two versions with a common base. */
  datatype Blob = Text(s: string) | Merged(base: Option<Blob>, mine: Blob, theirs: Blob)

  type Files = map<Path, Blob>

  type Id = nat

  datatype Commit = Commit(tree: Files, parents: seq<Id>)

  // Commits never form a cycle: they can be numbered in an order in which parents come first.
  predicate ParentsFirst(objects: map<Id, Commit>) {
    forall id, i :: id in objects && 0 <= i < |objects[id].parents| ==> objects[id].parents[i] < id
  }

  type Objects = objects: map<Id, Commit> | ParentsFirst(objects)

  // The commit may have that name: it has it already, or nothing has, and its parents come first.
  predicate MayBeNamed(objects: Objects, commit: Commit, id: Id) {
    if id in objects then objects[id] == commit
    else forall i :: 0 <= i < |commit.parents| ==> commit.parents[i] < id
  }

  /** Snapshot(id) is the private recovery ref of a snapshot. */
  datatype Ref = Branch(name: string) | Remote(name: string) | Snapshot(id: Id)

  datatype Head = On(branch: string) | At(id: Id)

  /** A repository with one of its checkouts; ignored files are not part of it. */
  datatype Repo = Repo(objects: Objects, refs: map<Ref, Id>, head: Head, index: Files, files: Files)

  function Version(files: Files, p: Path): Option<Blob> {
    if p in files then Some(files[p]) else None
  }

  function Restricted(files: Files, paths: set<Path>): Files {
    map p | p in files && p in paths :: files[p]
  }

  function HeadId(r: Repo): Option<Id> {
    match r.head
    case At(id) => Some(id)
    case On(b) => Tip(r, b)
  }

  function Tip(r: Repo, branch: string): Option<Id> {
    if Branch(branch) in r.refs then Some(r.refs[Branch(branch)]) else None
  }

  function TreeOf(objects: Objects, id: Option<Id>): Files {
    if id.Some? && id.value in objects then objects[id.value].tree else map[]
  }

  function HeadTree(r: Repo): Files {
    TreeOf(r.objects, HeadId(r))
  }

  predicate Dirty(r: Repo) {
    r.index != HeadTree(r) || r.files != r.index
  }

  // ---------- ancestry ----------

  // From a commit to parents of parents.
  predicate IsPath(objects: Objects, path: seq<Id>) {
    path != [] && forall i :: 0 <= i < |path| - 1 ==> path[i] in objects && path[i + 1] in objects[path[i]].parents
  }

  ghost predicate Ancestor(objects: Objects, a: Id, b: Id) {
    exists path :: IsPath(objects, path) && path[0] == b && path[|path| - 1] == a
  }

  ghost predicate Grown(before: Objects, after: Objects) {
    forall id :: id in before ==> id in after && after[id] == before[id]
  }

  lemma AncestorOfItself(objects: Objects, a: Id)
    ensures Ancestor(objects, a, a)
  {
    assert IsPath(objects, [a]);
  }

  lemma AncestorTransitive(objects: Objects, a: Id, b: Id, c: Id)
    requires Ancestor(objects, a, b) && Ancestor(objects, b, c)
    ensures Ancestor(objects, a, c)
  {
    var up :| IsPath(objects, up) && up[0] == b && up[|up| - 1] == a;
    var down :| IsPath(objects, down) && down[0] == c && down[|down| - 1] == b;
    var path := down + up[1..];
    forall i | 0 <= i < |path| - 1 ensures path[i] in objects && path[i + 1] in objects[path[i]].parents {
      if i >= |down| - 1 {
        assert path[i] == up[i - (|down| - 1)] && path[i + 1] == up[i - (|down| - 1) + 1];
      }
    }
    assert IsPath(objects, path);
  }

  lemma AncestorStays(before: Objects, after: Objects, a: Id, b: Id)
    requires Grown(before, after) && Ancestor(before, a, b)
    ensures Ancestor(after, a, b)
  {
    var path :| IsPath(before, path) && path[0] == b && path[|path| - 1] == a;
    assert IsPath(after, path);
  }

  // A common ancestor that is not a proper ancestor of another one, as git defines a merge base.
  ghost predicate IsMergeBase(objects: Objects, a: Id, b: Id, base: Id) {
    && Ancestor(objects, base, a) && Ancestor(objects, base, b)
    && forall other :: Ancestor(objects, other, a) && Ancestor(objects, other, b) && Ancestor(objects, base, other) ==>
        other == base
  }

  lemma {:induction false} PathDescends(objects: Objects, path: seq<Id>)
    requires IsPath(objects, path)
    ensures path[|path| - 1] <= path[0]
    decreases |path|
  {
    if |path| == 1 {
    } else {
      assert path[1] in objects[path[0]].parents;
      assert path[1] < path[0];
      assert IsPath(objects, path[1..]);
      PathDescends(objects, path[1..]);
    }
  }

  // An ancestor comes first, so two commits are not ancestors of each other.
  lemma AncestorComesFirst(objects: Objects, a: Id, b: Id)
    requires Ancestor(objects, a, b)
    ensures a <= b
  {
    var path :| IsPath(objects, path) && path[0] == b && path[|path| - 1] == a;
    PathDescends(objects, path);
  }

  // An ancestor of a commit is a merge base of the two.
  lemma AncestorIsMergeBase(objects: Objects, a: Id, b: Id)
    requires Ancestor(objects, a, b)
    ensures IsMergeBase(objects, a, b, a)
  {
    AncestorOfItself(objects, a);
    forall other | Ancestor(objects, other, a) && Ancestor(objects, a, other) ensures other == a {
      AncestorComesFirst(objects, other, a);
      AncestorComesFirst(objects, a, other);
    }
  }

  /** The question "is the merge base the local commit?" is the question "is the local commit an ancestor?". */
  lemma MergeBaseDecidesFastForward(objects: Objects, local: Id, remote: Id, base: Id)
    requires IsMergeBase(objects, local, remote, base)
    ensures base == local <==> Ancestor(objects, local, remote)
  {
    AncestorOfItself(objects, local);
  }

  // ---------- local work ----------

  /** The local work in a checkout: its tracked files beside those of the commit they started from, and its
      untracked files. */
  datatype Work = Work(base: Files, tracked: Files, untracked: Files)

  function WorkOf(r: Repo): Work {
    Work(HeadTree(r), Restricted(r.files, r.index.Keys), r.files - r.index.Keys)
  }

  function NoWork(): Work {
    Work(map[], map[], map[])
  }

  predicate Edited(work: Work, p: Path) {
    Version(work.tracked, p) != Version(work.base, p)
  }

  // The version is the local one, or a merge that it went into.
  predicate HasEdit(v: Option<Blob>, work: Work, p: Path) {
    var mine := Version(work.tracked, p);
    || v == mine
    || (v.Some? && v.value.Merged? && mine.Some? && v.value.base == Version(work.base, p) && v.value.mine == mine.value)
  }

  ghost predicate HasPath(files: Files, work: Work, p: Path) {
    if p in work.untracked then Version(files, p) == Some(work.untracked[p])
    else Edited(work, p) ==> HasEdit(Version(files, p), work, p)
  }

  /** The files have the work: every edit of a tracked file, deletions included, and every untracked file. */
  ghost predicate Present(files: Files, work: Work) {
    forall p :: HasPath(files, work, p)
  }

  lemma WorkIsPresent(r: Repo)
    ensures Present(r.files, WorkOf(r))
  {
  }

  lemma NoWorkIsPresent(files: Files)
    ensures Present(files, NoWork())
  {
  }

  lemma NothingToLose(r: Repo, files: Files)
    requires !Dirty(r)
    ensures Present(files, WorkOf(r))
  {
  }

  // ---------- what commands do to the files ----------

  /** Hard reset: tracked files become those of the tree, untracked files stay unless one is in the way. */
  function ResetFiles(r: Repo, tree: Files): Files {
    (r.files - r.index.Keys) + tree
  }

  // No edit is undone, and no untracked file is overwritten.
  ghost predicate UndoesNothing(r: Repo, tree: Files) {
    var work := WorkOf(r);
    && (forall p :: p !in work.untracked && Edited(work, p) ==> HasEdit(Version(tree, p), work, p))
    && (forall p :: p in work.untracked && p in tree ==> tree[p] == r.files[p])
  }

  /** Without a snapshot, a hard reset keeps the local work exactly when it undoes nothing of it. */
  lemma ResetKeepsIff(r: Repo, tree: Files)
    ensures Present(ResetFiles(r, tree), WorkOf(r)) <==> UndoesNothing(r, tree)
  {
    var work, files := WorkOf(r), ResetFiles(r, tree);
    forall p ensures HasPath(files, work, p) <==>
                       if p in work.untracked then p in tree ==> tree[p] == r.files[p]
                       else Edited(work, p) ==> HasEdit(Version(tree, p), work, p)
    {
      assert p !in work.untracked ==> Version(files, p) == Version(tree, p);
    }
    if Present(files, work) {
      forall p | p !in work.untracked && Edited(work, p) ensures HasEdit(Version(tree, p), work, p) {
        assert HasPath(files, work, p);
      }
      forall p | p in work.untracked && p in tree ensures tree[p] == r.files[p] {
        assert HasPath(files, work, p);
      }
    }
  }

  // Moving the checkout to another tree keeps local changes, and is refused where both changed.
  predicate CanMove(r: Repo, to: Files) {
    var from := HeadTree(r);
    forall p :: p in from.Keys + to.Keys && Version(from, p) != Version(to, p) ==>
                  Version(r.files, p) == Version(from, p) == Version(r.index, p)
  }

  function MovedVersion(files: Files, from: Files, to: Files, p: Path): Option<Blob> {
    if Version(from, p) == Version(to, p) then Version(files, p) else Version(to, p)
  }

  function Moved(files: Files, from: Files, to: Files): Files {
    map p | p in files.Keys + to.Keys && MovedVersion(files, from, to, p).Some? ::
        MovedVersion(files, from, to, p).value
  }

  lemma MovedAt(files: Files, from: Files, to: Files, p: Path)
    ensures Version(Moved(files, from, to), p) == MovedVersion(files, from, to, p)
  {
  }

  // The two checkouts have the same local work.
  ghost predicate SameEdits(a: Repo, b: Repo) {
    forall p :: SameEdit(WorkOf(a), WorkOf(b), p)
  }

  // Nothing is done to the path: it is neither edited nor untracked.
  predicate Untouched(work: Work, p: Path) {
    p !in work.untracked && !Edited(work, p)
  }

  predicate SameEdit(a: Work, b: Work, p: Path) {
    || (Untouched(a, p) && Untouched(b, p))
    || (&& Version(a.untracked, p) == Version(b.untracked, p)
        && Version(a.tracked, p) == Version(b.tracked, p)
        && Version(a.base, p) == Version(b.base, p))
  }

  // What has the one work has the other.
  lemma SamePresence(a: Repo, b: Repo, files: Files)
    requires SameEdits(a, b)
    ensures Present(files, WorkOf(a)) <==> Present(files, WorkOf(b))
  {
    forall p ensures HasPath(files, WorkOf(a), p) <==> HasPath(files, WorkOf(b), p) {
      assert SameEdit(WorkOf(a), WorkOf(b), p);
      assert p in WorkOf(a).untracked <==> Version(WorkOf(a).untracked, p).Some?;
      assert p in WorkOf(b).untracked <==> Version(WorkOf(b).untracked, p).Some?;
    }
  }

  // What undoes nothing of the one undoes nothing of the other.
  lemma SameUndone(a: Repo, b: Repo, tree: Files)
    requires SameEdits(a, b)
    ensures UndoesNothing(a, tree) <==> UndoesNothing(b, tree)
  {
    forall p ensures SameEdit(WorkOf(b), WorkOf(a), p) {
      assert SameEdit(WorkOf(a), WorkOf(b), p);
    }
    if UndoesNothing(a, tree) {
      UndoneAlike(a, b, tree);
    }
    if UndoesNothing(b, tree) {
      UndoneAlike(b, a, tree);
    }
  }

  lemma UndoneAlike(a: Repo, b: Repo, tree: Files)
    requires SameEdits(a, b) && UndoesNothing(a, tree)
    ensures UndoesNothing(b, tree)
  {
    var mine, other := WorkOf(a), WorkOf(b);
    forall p | p !in other.untracked && Edited(other, p) ensures HasEdit(Version(tree, p), other, p) {
      assert SameEdit(mine, other, p);
      assert p in mine.untracked <==> Version(mine.untracked, p).Some?;
    }
    forall p | p in other.untracked && p in tree ensures tree[p] == b.files[p] {
      assert SameEdit(mine, other, p);
      assert Version(other.untracked, p) == Some(b.files[p]);
      assert Version(mine.untracked, p).Some? ==> Version(mine.untracked, p) == Some(a.files[p]);
    }
  }

  lemma SameEditsFurther(a: Repo, b: Repo, c: Repo)
    requires SameEdits(a, b) && SameEdits(b, c)
    ensures SameEdits(a, c)
  {
    forall p ensures SameEdit(WorkOf(a), WorkOf(c), p) {
      assert SameEdit(WorkOf(a), WorkOf(b), p) && SameEdit(WorkOf(b), WorkOf(c), p);
    }
  }

  // The checkout moved to a tree.
  predicate MovedTo(r: Repo, after: Repo, to: Files) {
    && HeadTree(after) == to
    && after.files == Moved(r.files, HeadTree(r), to) && after.index == Moved(r.index, HeadTree(r), to)
  }

  /** A move to another commit carries exactly the same work with it. */
  lemma MoveKeepsWork(r: Repo, after: Repo, to: Files)
    requires CanMove(r, to) && MovedTo(r, after, to)
    ensures SameEdits(r, after)
  {
    forall p ensures SameEdit(WorkOf(r), WorkOf(after), p) {
      MoveKeepsVersions(r, after, to, p);
    }
  }

  lemma MoveKeepsVersions(r: Repo, after: Repo, to: Files, p: Path)
    requires CanMove(r, to) && MovedTo(r, after, to)
    ensures SameEdit(WorkOf(r), WorkOf(after), p)
  {
    MovedAt(r.files, HeadTree(r), to, p);
    MovedAt(r.index, HeadTree(r), to, p);
    assert p in after.index <==> Version(after.index, p).Some?;
    assert p in r.index <==> Version(r.index, p).Some?;
  }

  lemma MoveToItself(r: Repo)
    ensures CanMove(r, HeadTree(r)) && MovedTo(r, r, HeadTree(r))
  {
  }

  // A clean checkout moves to exactly the tree.
  lemma MoveStaysClean(from: Files, to: Files)
    ensures Moved(from, from, to) == to
  {
    forall p ensures Version(Moved(from, from, to), p) == Version(to, p) {
      MovedAt(from, from, to, p);
    }
    SameVersions(Moved(from, from, to), to);
  }

  lemma SameVersions(a: Files, b: Files)
    requires forall p :: Version(a, p) == Version(b, p)
    ensures a == b
  {
    forall p ensures p in a <==> p in b {
      assert Version(a, p) == Version(b, p);
    }
    forall p | p in a ensures a[p] == b[p] {
      assert Version(a, p) == Version(b, p);
    }
  }

  // Applying a snapshot merges the work into the files that are there; some differences cannot be merged.
  predicate Conflicts(work: Work, files: Files) {
    || (exists p :: p in work.untracked && p in files && files[p] != work.untracked[p])
    || (exists p :: p in work.base.Keys + work.tracked.Keys && Edited(work, p)
                    && Version(files, p) != Version(work.base, p) && Version(files, p) != Version(work.tracked, p)
                    && (p !in work.tracked || p !in files))
  }

  // The change of one path merges into the files: there is no change, the files have the old or the new version of
  // the path, or both hold the path and its lines can be merged.
  ghost predicate Merges(work: Work, files: Files, p: Path) {
    var base, mine, theirs := Version(work.base, p), Version(work.tracked, p), Version(files, p);
    mine == base || theirs in {base, mine} || (mine.Some? && theirs.Some?)
  }

  /** A snapshot can be applied exactly when no untracked file would replace another one and every change merges. */
  lemma ConflictMeans(work: Work, files: Files)
    ensures !Conflicts(work, files) <==>
              && (forall p :: p in work.untracked ==> Version(files, p) in {None, Some(work.untracked[p])})
              && (forall p :: Merges(work, files, p))
  {
    if !Conflicts(work, files) {
      forall p ensures Merges(work, files, p) {
        assert p in work.base.Keys + work.tracked.Keys || Version(work.base, p) == Version(work.tracked, p);
      }
    } else if p :| p in work.untracked && p in files && files[p] != work.untracked[p] {
      assert Version(files, p) !in {None, Some(work.untracked[p])};
    } else {
      var p :| p in work.base.Keys + work.tracked.Keys && Edited(work, p)
               && Version(files, p) != Version(work.base, p) && Version(files, p) != Version(work.tracked, p)
               && (p !in work.tracked || p !in files);
      assert !Merges(work, files, p);
    }
  }

  function AppliedVersion(work: Work, files: Files, p: Path): Option<Blob> {
    var base, mine, theirs := Version(work.base, p), Version(work.tracked, p), Version(files, p);
    if p in work.untracked then Some(work.untracked[p])
    else if mine == base then theirs
    else if theirs == base || mine.None? || theirs.None? || theirs == mine then mine
    else Some(Merged(base, mine.value, theirs.value))
  }

  function Applied(work: Work, files: Files): Files {
    map p | p in work.untracked.Keys + work.tracked.Keys + files.Keys && AppliedVersion(work, files, p).Some?
      :: AppliedVersion(work, files, p).value
  }

  lemma AppliedAt(work: Work, files: Files, p: Path)
    ensures Version(Applied(work, files), p) == AppliedVersion(work, files, p)
  {
  }

  /** Applying a snapshot brings the whole work back, whatever the files became meanwhile. */
  lemma ApplyPresents(work: Work, files: Files)
    ensures Present(Applied(work, files), work)
  {
    forall p ensures HasPath(Applied(work, files), work, p) {
      AppliedAt(work, files, p);
    }
  }

  /** Applied to the commit it was taken from, a snapshot restores the working tree exactly. */
  lemma CaptureAndApply(r: Repo)
    ensures Applied(WorkOf(r), HeadTree(r)) == r.files
  {
    var files := Applied(WorkOf(r), HeadTree(r));
    forall p ensures Version(files, p) == Version(r.files, p) {
      AppliedAt(WorkOf(r), HeadTree(r), p);
    }
    forall p ensures p in files <==> p in r.files {
      assert Version(files, p) == Version(r.files, p);
    }
    forall p | p in files ensures files[p] == r.files[p] {
      assert Version(files, p) == Version(r.files, p);
    }
  }

  // ---------- snapshots ----------

  /** A snapshot commit holds the tracked files; its parents are the commit they started from, the index, and the
      untracked files if there are any. */
  function SnapshotWork(objects: Objects, id: Id): Option<Work> {
    if id !in objects || |objects[id].parents| !in {2, 3}
        || (exists p :: p in objects[id].parents && p !in objects) then None
    else
      var c := objects[id];
      Some(Work(TreeOf(objects, Some(c.parents[0])), c.tree,
                if |c.parents| == 3 then TreeOf(objects, Some(c.parents[2])) else map[]))
  }

  /** The work can be recovered from the private ref of the snapshot. */
  predicate Anchored(r: Repo, work: Work, id: Id) {
    Snapshot(id) in r.refs && r.refs[Snapshot(id)] == id && SnapshotWork(r.objects, id) == Some(work)
  }

  ghost predicate Safe(r: Repo, work: Work) {
    Present(r.files, work) || exists id :: Anchored(r, work, id)
  }

  // ---------- how a repository may change ----------

  // No branch moved, nor HEAD, and no object was lost.
  ghost predicate Quiet(start: Repo, r: Repo) {
    Grown(start.objects, r.objects) && r.head == start.head && forall b: string :: Tip(r, b) == Tip(start, b)
  }

  /** Why a branch may leave its history: for one commit, or because all it had was in another one already. */
  datatype Excuse = Exactly(id: Id) | Pushed(pre: Id)

  ghost predicate Excused(start: Repo, r: Repo, branch: string, excuse: Excuse)
    requires Tip(start, branch).Some? && Tip(r, branch).Some?
  {
    match excuse
    case Exactly(id) => Tip(r, branch) == Some(id)
    case Pushed(pre) => Ancestor(r.objects, Tip(start, branch).value, pre)
  }

  /** Only the branch moved, and it went forward or has its excuse. */
  ghost predicate Forward(start: Repo, r: Repo, branch: string, excuse: Excuse) {
    && Grown(start.objects, r.objects) && r.head == start.head
    && (forall b: string :: b != branch ==> Tip(r, b) == Tip(start, b))
    && Tip(start, branch).Some? && Tip(r, branch).Some?
    && (Ancestor(r.objects, Tip(start, branch).value, Tip(r, branch).value) || Excused(start, r, branch, excuse))
  }

  lemma QuietIsForward(start: Repo, r: Repo, branch: string, excuse: Excuse)
    requires Quiet(start, r) && Tip(start, branch).Some?
    ensures Forward(start, r, branch, excuse)
  {
    AncestorOfItself(r.objects, Tip(start, branch).value);
  }

  lemma ForwardThenQuiet(start: Repo, middle: Repo, r: Repo, branch: string, excuse: Excuse)
    requires Forward(start, middle, branch, excuse) && Quiet(middle, r)
    ensures Forward(start, r, branch, excuse)
  {
    var first := Tip(start, branch).value;
    if Ancestor(middle.objects, first, Tip(middle, branch).value) {
      AncestorStays(middle.objects, r.objects, first, Tip(middle, branch).value);
    } else if excuse.Pushed? {
      AncestorStays(middle.objects, r.objects, first, excuse.pre);
    }
  }

  lemma QuietThenForward(start: Repo, middle: Repo, r: Repo, branch: string, excuse: Excuse)
    requires Quiet(start, middle) && Forward(middle, r, branch, excuse)
    ensures Forward(start, r, branch, excuse)
  {
    assert forall b: string :: b != branch ==> Tip(middle, b) == Tip(start, b);
  }

  /** Only the branch moved, and every commit it had is still in its history. */
  ghost predicate OnTo(start: Repo, r: Repo, branch: string) {
    && Grown(start.objects, r.objects) && r.head == start.head
    && (forall b: string :: b != branch ==> Tip(r, b) == Tip(start, b))
    && Tip(start, branch).Some? && Tip(r, branch).Some?
    && Ancestor(r.objects, Tip(start, branch).value, Tip(r, branch).value)
  }

  lemma QuietIsOnTo(start: Repo, r: Repo, branch: string)
    requires Quiet(start, r) && Tip(start, branch).Some?
    ensures OnTo(start, r, branch)
  {
    AncestorOfItself(r.objects, Tip(start, branch).value);
  }

  lemma OnToTransitive(start: Repo, middle: Repo, r: Repo, branch: string)
    requires OnTo(start, middle, branch) && OnTo(middle, r, branch)
    ensures OnTo(start, r, branch)
  {
    AncestorStays(middle.objects, r.objects, Tip(start, branch).value, Tip(middle, branch).value);
    AncestorTransitive(r.objects, Tip(start, branch).value, Tip(middle, branch).value, Tip(r, branch).value);
  }

  /** A branch that goes forward, or leaves its history because all of it was pushed, loses no commit: each is in the
      history of the branch or of what was pushed. */
  lemma NoCommitIsLost(start: Repo, r: Repo, branch: string, pre: Id, commit: Id)
    requires Forward(start, r, branch, Pushed(pre)) && Ancestor(start.objects, commit, Tip(start, branch).value)
    ensures Ancestor(r.objects, commit, Tip(r, branch).value) || Ancestor(r.objects, commit, pre)
  {
    var tip := Tip(start, branch).value;
    AncestorStays(start.objects, r.objects, commit, tip);
    if Ancestor(r.objects, tip, Tip(r, branch).value) {
      AncestorTransitive(r.objects, commit, tip, Tip(r, branch).value);
    } else {
      AncestorTransitive(r.objects, commit, tip, pre);
    }
  }

  // Every commit of the branch is still in its history.
  ghost predicate KeepsHistory(start: Repo, r: Repo, branch: string)
    requires Tip(start, branch).Some? && Tip(r, branch).Some?
  {
    forall commit :: Ancestor(start.objects, commit, Tip(start, branch).value) ==>
        Ancestor(r.objects, commit, Tip(r, branch).value)
  }

  /** A branch that is set without looking keeps its history exactly when it is set to a descendant. */
  lemma KeepsHistoryIff(start: Repo, r: Repo, branch: string)
    requires Tip(start, branch).Some? && Tip(r, branch).Some? && Grown(start.objects, r.objects)
    ensures KeepsHistory(start, r, branch) <==> Ancestor(r.objects, Tip(start, branch).value, Tip(r, branch).value)
  {
    var tip := Tip(start, branch).value;
    AncestorOfItself(start.objects, tip);
    if Ancestor(r.objects, tip, Tip(r, branch).value) {
      forall commit | Ancestor(start.objects, commit, tip) ensures Ancestor(r.objects, commit, Tip(r, branch).value) {
        AncestorStays(start.objects, r.objects, commit, tip);
        AncestorTransitive(r.objects, commit, tip, Tip(r, branch).value);
      }
    }
  }

  // A commit without parents has no ancestor but itself.
  lemma RootAlone(objects: Objects, a: Id, root: Id)
    requires root in objects && objects[root].parents == [] && Ancestor(objects, a, root)
    ensures a == root
  {
    var path :| IsPath(objects, path) && path[0] == root && path[|path| - 1] == a;
    if |path| > 1 {
      HasParent(objects, path);
      assert false;
    }
  }

  lemma HasParent(objects: Objects, path: seq<Id>)
    requires IsPath(objects, path) && |path| > 1
    ensures path[0] in objects && objects[path[0]].parents != []
  {
    assert path[0 + 1] in objects[path[0]].parents;
  }
}
