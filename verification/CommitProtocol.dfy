/**
 The compare-and-swap commit of a configuration file, as interleaved steps of any number of
 processes. Every file-system call is one step and may fail; any process may crash between two
 steps. A second kind of process publishes a default file without taking the commit lock.
 */
module CommitProtocol {

  // ---------- files and revisions ----------

  datatype File = Missing | Regular(data: string) | Special(mode: string)

  // Digests are compared only for equality and are taken to be injective.
  datatype Digest = NoDigest | Sha256(data: string) | TypeMarker(mode: string)

  datatype Revision = Revision(present: bool, digest: Digest)

  function RevisionOf(file: File): (r: Revision)
  {
    match file
    case Missing => Revision(false, NoDigest)
    case Regular(data) => Revision(true, Sha256(data))
    case Special(mode) => Revision(true, TypeMarker(mode))
  }

  /** A revision tells files apart: missing, regular with its content, or special with its type. */
  lemma RevisionIdentifies(a: File, b: File)
    ensures RevisionOf(a) == RevisionOf(b) <==> a == b
    ensures RevisionOf(a).present <==> a != Missing
  {
  }

  // ---------- processes ----------

  datatype Outcome = Committed | Conflict | LockUnavailable | Failed

  datatype Phase =
    | Acquiring                       // polling for the lock file
    | Inspecting                      // lock held, about to stat the config path
    | Reading                         // a regular file was seen, about to read it
    | Checked                         // the revision matched, about to read the permissions
    | Staging                         // about to write the private temporary file
    | Renaming                        // the temporary file is complete
    | Cleaning(outcome: Outcome)      // about to remove the temporary file
    | Comparing(outcome: Outcome)     // about to compare the lock path with the held lock file
    | Unlocking(outcome: Outcome)     // about to remove the lock path
    | Done(outcome: Outcome)
    | Crashed

  datatype Process =
    | Committer(expected: Revision, data: string, phase: Phase, lockId: nat, checkedAt: nat)
    | Publisher(data: string, staged: bool, finished: bool)

  type Pid = nat

  datatype LockPath = Free | LockFile(id: nat)

  /** One publication. A commit carries what it replaced and how long the history was when its
      revision check read the file. */
  datatype Event =
    | CommitEvent(pid: Pid, expected: Revision, data: string, replaced: File, checkedAt: nat)
    | DefaultEvent(pid: Pid, data: string)

  /** The config file, the lock path (holding the identity of the lock file there, if any), and the
      processes. The history records the publications; no step reads it except to number itself. */
  datatype State = State(
    file: File,
    lock: LockPath,
    nextLockId: nat,
    processes: map<Pid, Process>,
    history: seq<Event>)
  {
    ghost predicate Commits(p: Pid) {
      p in processes && processes[p].Committer?
    }

    ghost predicate InPhase(p: Pid, phase: Phase) {
      Commits(p) && processes[p].phase == phase
    }

    // p is between creating the lock file and removing it.
    ghost predicate Holds(p: Pid) {
      && Commits(p)
      && !processes[p].phase.Acquiring?
      && !processes[p].phase.Done?
      && !processes[p].phase.Crashed?
    }

    function With(p: Pid, process: Process): State {
      this.(processes := processes[p := process])
    }

    function To(p: Pid, phase: Phase): State
      requires p in processes && processes[p].Committer?
    {
      With(p, processes[p].(phase := phase))
    }
  }

  // A state at rest. The lock path may hold a lock file left by an earlier crash.
  ghost predicate Initial(s: State) {
    && s.processes == map[]
    && s.history == []
    && (s.lock.LockFile? ==> s.lock.id < s.nextLockId)
  }

  // ---------- steps ----------

  datatype Step =
    | Start(p: Pid, expected: Revision, data: string)
    | TryLock(p: Pid)
    | GiveUp(p: Pid, outcome: Outcome)
    | Inspect(p: Pid, fails: bool)
    | Read(p: Pid, fails: bool)
    | ReadMode(p: Pid, fails: bool)
    | Stage(p: Pid, fails: bool)
    | Rename(p: Pid, fails: bool)
    | Clean(p: Pid, fails: bool)
    | CompareLock(p: Pid, fails: bool)
    | RemoveLock(p: Pid, fails: bool, closeFails: bool)
    | Crash(p: Pid)
    | ClearStaleLock
    | StartDefault(p: Pid, data: string)
    | StageDefault(p: Pid, fails: bool)
    | LinkDefault(p: Pid, fails: bool)

  // What the revision check decides once it knows the file.
  function Check(s: State, p: Pid): State
    requires p in s.processes && s.processes[p].Committer?
  {
    var c := s.processes[p];
    if c.expected != RevisionOf(s.file) then s.To(p, Comparing(Conflict))
    else s.With(p, c.(phase := if s.file.Missing? then Staging else Checked, checkedAt := |s.history|))
  }

  // A later failure replaces a success and nothing else.
  function Join(outcome: Outcome, fails: bool): Outcome {
    if fails && outcome == Committed then Failed else outcome
  }

  /** The effect of one step; a step that is not enabled changes nothing. */
  function Do(s: State, step: Step): State {
    match step
    case Start(p, expected, data) =>
      if p in s.processes then s else s.With(p, Committer(expected, data, Acquiring, 0, 0))
    case StartDefault(p, data) =>
      if p in s.processes then s else s.With(p, Publisher(data, false, false))
    case ClearStaleLock => ClearStale(s)
    case StageDefault(p, fails) =>
      if p !in s.processes || !s.processes[p].Publisher? || s.processes[p].staged || s.processes[p].finished then s
      else if fails then s.With(p, s.processes[p].(finished := true))
      else s.With(p, s.processes[p].(staged := true))
    case LinkDefault(p, fails) =>
      if p !in s.processes || !s.processes[p].Publisher? || !s.processes[p].staged || s.processes[p].finished then s
      else
        var ended := s.With(p, s.processes[p].(finished := true));
        if fails || s.file != Missing then ended
        else ended.(file := Regular(s.processes[p].data),
                    history := s.history + [DefaultEvent(p, s.processes[p].data)])
    case Crash(p) =>
      if p !in s.processes then s
      else if s.processes[p].Publisher? then s.With(p, s.processes[p].(finished := true))
      else if s.processes[p].phase.Done? then s
      else s.To(p, Crashed)
    case _ =>
      if step.p in s.processes && s.processes[step.p].Committer? then DoCommit(s, step) else s
  }

  // An operator may delete a lock file that no running commit holds.
  function ClearStale(s: State): State {
    if exists p :: p in s.processes && s.processes[p].Committer? && s.lock == LockFile(s.processes[p].lockId)
                   && !s.processes[p].phase.Acquiring? && !s.processes[p].phase.Done? && !s.processes[p].phase.Crashed?
    then s
    else s.(lock := Free)
  }

  function DoCommit(s: State, step: Step): State
    requires !step.Start? && !step.StartDefault? && !step.ClearStaleLock? && !step.StageDefault?
    requires !step.LinkDefault? && !step.Crash?
    requires step.p in s.processes && s.processes[step.p].Committer?
  {
    var c := s.processes[step.p];
    match step
    case TryLock(p) =>
      if !c.phase.Acquiring? || s.lock != Free then s
      else
        s.With(p, c.(phase := Inspecting, lockId := s.nextLockId))
         .(lock := LockFile(s.nextLockId), nextLockId := s.nextLockId + 1)
    case GiveUp(p, outcome) =>
      if c.phase.Acquiring? && (outcome.LockUnavailable? || outcome.Failed?) then s.To(p, Done(outcome)) else s
    case Inspect(p, fails) =>
      if !c.phase.Inspecting? then s
      else if fails then s.To(p, Comparing(Failed))
      else if s.file.Regular? then s.To(p, Reading)
      else Check(s, p)
    case Read(p, fails) =>
      if !c.phase.Reading? then s
      else if fails || !s.file.Regular? then s.To(p, Comparing(Failed))
      else Check(s, p)
    case ReadMode(p, fails) =>
      if !c.phase.Checked? then s
      else if fails || !s.file.Regular? then s.To(p, Comparing(Failed))
      else s.To(p, Staging)
    case Stage(p, fails) =>
      if !c.phase.Staging? then s else s.To(p, if fails then Comparing(Failed) else Renaming)
    case Rename(p, fails) =>
      if !c.phase.Renaming? then s
      else if fails || s.file.Special? then s.To(p, Cleaning(Failed))
      else s.To(p, Cleaning(Committed)).(
        file := Regular(c.data),
        history := s.history + [CommitEvent(p, c.expected, c.data, s.file, c.checkedAt)])
    case Clean(p, fails) =>
      if !c.phase.Cleaning? then s else s.To(p, Comparing(Join(c.phase.outcome, fails)))
    case CompareLock(p, fails) =>
      if !c.phase.Comparing? then s
      else s.To(p, if !fails && s.lock == LockFile(c.lockId) then Unlocking(c.phase.outcome) else Done(c.phase.outcome))
    case RemoveLock(p, fails, closeFails) =>
      if !c.phase.Unlocking? then s
      else s.To(p, Done(Join(c.phase.outcome, fails || closeFails))).(lock := if fails then s.lock else Free)
  }

  function Execute(s: State, steps: seq<Step>): State {
    if steps == [] then s else Do(Execute(s, steps[..|steps| - 1]), steps[|steps| - 1])
  }

  // ---------- what every step keeps ----------

  // The file after the first n publications.
  ghost function FileAt(init: File, history: seq<Event>, n: nat): File
    requires n <= |history|
  {
    if n == 0 then init else Regular(history[n - 1].data)
  }

  ghost predicate Unpublished(history: seq<Event>, p: Pid) {
    forall i :: 0 <= i < |history| && history[i].CommitEvent? ==> history[i].pid != p
  }

  // No commit was published from index n on.
  ghost predicate NoCommitSince(history: seq<Event>, n: nat) {
    forall i :: n <= i < |history| ==> history[i].DefaultEvent?
  }

  ghost predicate SoundEvent(init: File, history: seq<Event>, i: nat)
    requires i < |history|
  {
    match history[i]
    case DefaultEvent(_, _) => FileAt(init, history, i) == Missing
    case CommitEvent(_, expected, _, replaced, checkedAt) =>
      && replaced == FileAt(init, history, i)
      && checkedAt <= i
      && RevisionOf(FileAt(init, history, checkedAt)) == expected
      && forall k :: checkedAt <= k < i ==> history[k].DefaultEvent?
  }

  ghost predicate SoundHistory(init: File, history: seq<Event>) {
    forall i :: 0 <= i < |history| ==> SoundEvent(init, history, i)
  }

  // Whoever is in the critical section owns the lock path, and lock identities are never shared.
  ghost predicate Exclusive(s: State) {
    && (s.lock.LockFile? ==> s.lock.id < s.nextLockId)
    && (forall p :: s.Holds(p) ==> s.lock == LockFile(s.processes[p].lockId))
    && (forall p, q :: s.Holds(p) && s.Holds(q) ==> p == q)
  }

  // A revision check stays valid, up to a default published after it, until its rename.
  ghost predicate CheckValid(init: File, s: State, p: Pid) {
    s.Commits(p) ==>
      var c := s.processes[p];
      && (c.phase.Reading? ==> s.file.Regular?)
      && (c.phase.Checked? || c.phase.Staging? || c.phase.Renaming? ==>
            && c.checkedAt <= |s.history|
            && RevisionOf(FileAt(init, s.history, c.checkedAt)) == c.expected
            && NoCommitSince(s.history, c.checkedAt))
  }

  // A commit that reports success is in the history; one that has not renamed is not.
  ghost predicate Recorded(s: State, p: Pid) {
    s.Commits(p) ==>
      var c := s.processes[p];
      && (!c.phase.Cleaning? && !c.phase.Comparing? && !c.phase.Unlocking? && !c.phase.Done? && !c.phase.Crashed? ==>
            Unpublished(s.history, p))
      && ((c.phase.Cleaning? || c.phase.Comparing? || c.phase.Unlocking? || c.phase.Done?) ==>
            && (c.phase.outcome == Committed ==> Published(s.history, p, c))
            && (c.phase.outcome == Conflict || c.phase.outcome == LockUnavailable ==> Unpublished(s.history, p)))
  }

  ghost predicate Published(history: seq<Event>, p: Pid, c: Process)
    requires c.Committer?
  {
    exists i :: 0 <= i < |history| && history[i].CommitEvent? && history[i].pid == p
                && history[i].expected == c.expected && history[i].data == c.data
  }

  ghost predicate Invariant(init: File, s: State) {
    && s.file == FileAt(init, s.history, |s.history|)
    && SoundHistory(init, s.history)
    && Exclusive(s)
    && (forall p :: CheckValid(init, s, p))
    && (forall p :: Recorded(s, p))
    && (forall i :: 0 <= i < |s.history| ==> s.history[i].pid in s.processes)
  }

  // A step changes at most one process.
  lemma OneProcess(s: State, step: Step, p: Pid)
    requires step.ClearStaleLock? || step.p != p
    ensures p in Do(s, step).processes <==> p in s.processes
    ensures p in s.processes ==> Do(s, step).processes[p] == s.processes[p]
    ensures Do(s, step).Holds(p) <==> s.Holds(p)
  {
  }

  // Entering the critical section takes a free lock path; staying in it keeps the lock identity.
  lemma HoldsOwnsLock(s: State, step: Step, p: Pid)
    requires Exclusive(s) && Do(s, step).Holds(p)
    ensures Do(s, step).lock == LockFile(Do(s, step).processes[p].lockId)
    ensures s.Holds(p) || (step == TryLock(p) && s.lock == Free)
  {
    if !step.ClearStaleLock? && step.p != p {
      OneProcess(s, step, p);
      assert s.Holds(p) ==> !s.Holds(step.p);
    } else if step.ClearStaleLock? {
      OneProcess(s, step, p);
      assert s.lock == LockFile(s.processes[p].lockId);
    }
  }

  lemma KeepsExclusive(s: State, step: Step)
    requires Exclusive(s)
    ensures Exclusive(Do(s, step))
  {
    var t := Do(s, step);
    forall p | t.Holds(p) ensures t.lock == LockFile(t.processes[p].lockId) {
      HoldsOwnsLock(s, step, p);
    }
    forall p, q | t.Holds(p) && t.Holds(q) ensures p == q {
      HoldsOwnsLock(s, step, p);
      HoldsOwnsLock(s, step, q);
    }
  }

  // The history grows by at most one publication, made by a live holder or by a default publisher.
  lemma HistoryGrows(s: State, step: Step)
    ensures var t := Do(s, step);
            || (t.history == s.history && t.file == s.file)
            || (&& step.Rename? && s.InPhase(step.p, Renaming)
                && t.history == s.history + [CommitEvent(step.p, s.processes[step.p].expected, s.processes[step.p].data,
                                                         s.file, s.processes[step.p].checkedAt)]
                && t.file == Regular(s.processes[step.p].data))
            || (&& step.LinkDefault? && s.file == Missing && step.p in s.processes && s.processes[step.p].Publisher?
                && t.history == s.history + [DefaultEvent(step.p, s.processes[step.p].data)]
                && t.file == Regular(s.processes[step.p].data))
  {
  }

  lemma KeepsHistory(init: File, s: State, step: Step)
    requires Invariant(init, s)
    ensures var t := Do(s, step);
            && t.file == FileAt(init, t.history, |t.history|)
            && SoundHistory(init, t.history)
            && (forall i :: 0 <= i < |t.history| ==> t.history[i].pid in t.processes)
  {
    var t := Do(s, step);
    HistoryGrows(s, step);
    assert forall p :: p in s.processes ==> p in t.processes;
    if t.history != s.history {
      assert CheckValid(init, s, step.p);
      forall i | 0 <= i < |t.history| ensures SoundEvent(init, t.history, i) {
        assert forall n :: 0 <= n <= |s.history| ==> FileAt(init, t.history, n) == FileAt(init, s.history, n);
        if i < |s.history| {
          assert SoundEvent(init, s.history, i);
        }
      }
    }
  }

  lemma KeepsChecks(init: File, s: State, step: Step, p: Pid)
    requires Invariant(init, s)
    ensures CheckValid(init, Do(s, step), p)
  {
    var t := Do(s, step);
    HistoryGrows(s, step);
    assert CheckValid(init, s, p);
    if step.ClearStaleLock? || step.p != p {
      OneProcess(s, step, p);
      if t.history != s.history && step.Rename? {
        assert s.Holds(step.p) && !s.Holds(p);
      }
    }
  }

  lemma PublishedStays(history: seq<Event>, e: Event, p: Pid, c: Process)
    requires c.Committer? && Published(history, p, c)
    ensures Published(history + [e], p, c)
  {
    var i :| 0 <= i < |history| && history[i].CommitEvent? && history[i].pid == p
             && history[i].expected == c.expected && history[i].data == c.data;
    assert (history + [e])[i] == history[i];
  }

  lemma KeepsRecords(init: File, s: State, step: Step, p: Pid)
    requires Invariant(init, s)
    ensures Recorded(Do(s, step), p)
  {
    var t := Do(s, step);
    HistoryGrows(s, step);
    assert Recorded(s, p);
    if step.ClearStaleLock? || step.p != p {
      OneProcess(s, step, p);
    }
    if s.Commits(p) && t.history != s.history {
      var e := t.history[|s.history|];
      assert t.history == s.history + [e];
      if Published(s.history, p, s.processes[p]) {
        PublishedStays(s.history, e, p, s.processes[p]);
      }
    }
  }

  lemma {:induction false} InvariantHolds(s: State, steps: seq<Step>)
    requires Initial(s)
    ensures Invariant(s.file, Execute(s, steps))
  {
    if steps == [] {
      assert Execute(s, steps) == s;
    } else {
      var before := Execute(s, steps[..|steps| - 1]);
      var step := steps[|steps| - 1];
      InvariantHolds(s, steps[..|steps| - 1]);
      KeepsHistory(s.file, before, step);
      KeepsExclusive(before, step);
      forall p ensures CheckValid(s.file, Do(before, step), p) && Recorded(Do(before, step), p) {
        KeepsChecks(s.file, before, step, p);
        KeepsRecords(s.file, before, step, p);
      }
    }
  }

  // ---------- main results, over every interleaving ----------

  /** At most one process is between taking and giving back the lock. */
  lemma MutualExclusion(s: State, steps: seq<Step>, p: Pid, q: Pid)
    requires Initial(s) && Execute(s, steps).Holds(p) && Execute(s, steps).Holds(q)
    ensures p == q
  {
    InvariantHolds(s, steps);
  }

  /** Once something is published the file is never missing again, so a default is published only
      into an empty history, and only when there was no file to begin with. */
  lemma DefaultOnlyFirst(s: State, steps: seq<Step>, i: nat)
    requires Initial(s) && i < |Execute(s, steps).history| && Execute(s, steps).history[i].DefaultEvent?
    ensures i == 0 && s.file == Missing
  {
    InvariantHolds(s, steps);
    assert SoundEvent(s.file, Execute(s, steps).history, i);
  }

  /** No lost update: each published commit was prepared from exactly what the commit before it
      published. */
  lemma CommitsFormChain(s: State, steps: seq<Step>, i: nat, j: nat)
    requires Initial(s) && i < j < |Execute(s, steps).history|
    requires Execute(s, steps).history[i].CommitEvent? && Execute(s, steps).history[j].CommitEvent?
    requires forall k :: i < k < j ==> !Execute(s, steps).history[k].CommitEvent?
    ensures j == i + 1
    ensures Execute(s, steps).history[j].expected == RevisionOf(Regular(Execute(s, steps).history[i].data))
    ensures Execute(s, steps).history[j].replaced == Regular(Execute(s, steps).history[i].data)
  {
    InvariantHolds(s, steps);
    hide Execute, Exclusive;
    var h := Execute(s, steps).history;
    if i + 1 < j {
      DefaultOnlyFirst(s, steps, i + 1);
    }
    assert SoundEvent(s.file, h, j);
    assert h[j].checkedAt == j;
  }

  /** A commit replaces exactly the revision it was prepared from, unless a default was published
      between its revision check and its rename. */
  lemma ReplacesExpectedIff(s: State, steps: seq<Step>, i: nat)
    requires Initial(s) && i < |Execute(s, steps).history| && Execute(s, steps).history[i].CommitEvent?
    ensures var h := Execute(s, steps).history;
            && h[i].checkedAt <= i
            && (RevisionOf(h[i].replaced) == h[i].expected <==>
                forall k :: h[i].checkedAt <= k < i ==> !h[k].DefaultEvent?)
            && (RevisionOf(h[i].replaced) != h[i].expected ==>
                i == 1 && h[i].expected == RevisionOf(Missing) && h[i].replaced == Regular(h[0].data))
  {
    InvariantHolds(s, steps);
    var h := Execute(s, steps).history;
    assert SoundEvent(s.file, h, i);
    if h[i].checkedAt < i {
      DefaultOnlyFirst(s, steps, h[i].checkedAt);
      if i > 1 {
        DefaultOnlyFirst(s, steps, 1);
      }
    }
  }

  /** The file on disk is what the last publication wrote, and a commit that reports success is one
      of the publications, while one that reports a conflict or no lock published nothing. */
  lemma OutcomesAreTruthful(s: State, steps: seq<Step>, p: Pid)
    requires Initial(s) && Execute(s, steps).Commits(p) && Execute(s, steps).processes[p].phase.Done?
    ensures var t := Execute(s, steps);
            && t.file == FileAt(s.file, t.history, |t.history|)
            && (t.processes[p].phase.outcome == Committed ==> Published(t.history, p, t.processes[p]))
            && (t.processes[p].phase.outcome in {Conflict, LockUnavailable} ==> Unpublished(t.history, p))
  {
    InvariantHolds(s, steps);
    assert Recorded(Execute(s, steps), p);
  }

  lemma {:induction false} HistoryStays(s: State, steps: seq<Step>, more: seq<Step>)
    ensures Execute(s, steps).history <= Execute(s, steps + more).history
  {
    hide Do;
    if more == [] {
      assert steps + more == steps;
    } else {
      var n := |more| - 1;
      HistoryStays(s, steps, more[..n]);
      assert (steps + more)[..|steps| + n] == steps + more[..n];
      HistoryGrows(Execute(s, steps + more[..n]), more[n]);
    }
  }

  /** Whatever the interleaving, once there is a file, from the start or by a publication, the default
      publishers leave it alone: only commits publish from then on, and without one it stays the same. */
  lemma DefaultKeepsExistingFile(s: State, steps: seq<Step>, more: seq<Step>)
    requires Initial(s) && Execute(s, steps).file != Missing
    ensures var t, u := Execute(s, steps), Execute(s, steps + more);
            && t.history <= u.history
            && (forall k :: |t.history| <= k < |u.history| ==> u.history[k].CommitEvent?)
            && (u.history == t.history ==> u.file == t.file)
  {
    hide Execute, Exclusive;
    InvariantHolds(s, steps);
    InvariantHolds(s, steps + more);
    HistoryStays(s, steps, more);
    var t, u := Execute(s, steps), Execute(s, steps + more);
    forall k | |t.history| <= k < |u.history| ensures u.history[k].CommitEvent? {
      if u.history[k].DefaultEvent? {
        DefaultOnlyFirst(s, steps + more, k);
      }
    }
  }

  // p had the lock, and unless it still has it or crashed, the lock path does not hold its lock file.
  ghost predicate GivenBack(s: State, p: Pid) {
    && s.Commits(p) && s.processes[p].lockId < s.nextLockId && !s.processes[p].phase.Acquiring?
    && (s.Holds(p) || s.processes[p].phase.Crashed? || s.lock != LockFile(s.processes[p].lockId))
  }

  // Comparing or removing the lock file of p fails.
  predicate KeepsLock(step: Step, p: Pid) {
    (step.CompareLock? && step.p == p && step.fails) || (step.RemoveLock? && step.p == p && step.fails)
  }

  lemma StaysGivenBack(s: State, step: Step, p: Pid)
    requires Exclusive(s) && GivenBack(s, p) && !KeepsLock(step, p)
    ensures GivenBack(Do(s, step), p)
  {
    if s.Holds(p) {
      assert s.lock == LockFile(s.processes[p].lockId);
    }
    if step.ClearStaleLock? || step.p != p {
      OneProcess(s, step, p);
    }
  }

  lemma ExclusiveHolds(s: State, steps: seq<Step>)
    requires Initial(s)
    ensures Exclusive(Execute(s, steps))
  {
    InvariantHolds(s, steps);
  }

  lemma HolderIsGivenBack(s: State, p: Pid)
    requires Exclusive(s) && s.Holds(p)
    ensures GivenBack(s, p)
  {
    assert s.lock == LockFile(s.processes[p].lockId);
  }

  /** Whatever else fails on the way, a commit that took the lock gives it back: if its lock file is still on the lock
      path when it is done, then comparing or removing that file failed. */
  lemma {:induction false} LockReturns(s: State, steps: seq<Step>, more: seq<Step>, p: Pid)
    requires Initial(s) && Execute(s, steps).Holds(p)
    requires forall i :: 0 <= i < |more| ==> !KeepsLock(more[i], p)
    ensures GivenBack(Execute(s, steps + more), p)
    decreases |more|
  {
    hide Do, Exclusive, GivenBack;
    if more == [] {
      assert steps + more == steps;
      ExclusiveHolds(s, steps);
      HolderIsGivenBack(Execute(s, steps), p);
    } else {
      var n := |more| - 1;
      LockReturns(s, steps, more[..n], p);
      assert (steps + more)[..|steps| + n] == steps + more[..n];
      ExclusiveHolds(s, steps + more[..n]);
      StaysGivenBack(Execute(s, steps + more[..n]), more[n], p);
    }
  }

  // The attempt of p is known not to be a success.
  ghost predicate Unsuccessful(s: State, p: Pid) {
    && s.Commits(p)
    && var phase := s.processes[p].phase;
       phase.Crashed? || ((phase.Cleaning? || phase.Comparing? || phase.Unlocking? || phase.Done?)
                          && phase.outcome != Committed)
  }

  lemma StaysUnsuccessful(s: State, step: Step, p: Pid)
    requires Unsuccessful(s, p)
    ensures Unsuccessful(Do(s, step), p)
    ensures Unpublished(s.history, p) ==> Unpublished(Do(s, step).history, p)
  {
    if step.ClearStaleLock? || step.p != p {
      OneProcess(s, step, p);
    }
  }

  // A step of p up to the rename fails.
  ghost predicate FailsEarly(s: State, step: Step, p: Pid) {
    || (step == Inspect(p, true) && s.InPhase(p, Inspecting))
    || (step == Read(p, true) && s.InPhase(p, Reading))
    || (step == ReadMode(p, true) && s.InPhase(p, Checked))
    || (step == Stage(p, true) && s.InPhase(p, Staging))
    || (step == Rename(p, true) && s.InPhase(p, Renaming))
  }

  // Removing the temporary file or the lock file of p fails, or closing the lock file does.
  ghost predicate FailsLate(s: State, step: Step, p: Pid) {
    && s.Commits(p)
    && ((step == Clean(p, true) && s.processes[p].phase.Cleaning?)
        || (step.RemoveLock? && step.p == p && (step.fails || step.closeFails) && s.processes[p].phase.Unlocking?))
  }

  lemma FailureCounts(s: State, step: Step, p: Pid)
    requires FailsEarly(s, step, p) || FailsLate(s, step, p)
    ensures Unsuccessful(Do(s, step), p)
    ensures FailsEarly(s, step, p) ==> Do(s, step).history == s.history && Do(s, step).file == s.file
  {
  }

  /** A commit that reports success is whole: after a failing step, early or late, no attempt is one. */
  lemma {:induction false} SuccessIsWhole(s: State, steps: seq<Step>, more: seq<Step>, step: Step, p: Pid)
    requires FailsEarly(Execute(s, steps), step, p) || FailsLate(Execute(s, steps), step, p)
    ensures Unsuccessful(Execute(s, steps + [step] + more), p)
    decreases |more|
  {
    hide Do, Unsuccessful;
    if more == [] {
      assert steps + [step] + more == steps + [step];
      ExecuteSnoc(s, steps, step);
      FailureCounts(Execute(s, steps), step, p);
    } else {
      var n := |more| - 1;
      SuccessIsWhole(s, steps, more[..n], step, p);
      assert steps + [step] + more == (steps + [step] + more[..n]) + [more[n]];
      ExecuteSnoc(s, steps + [step] + more[..n], more[n]);
      StaysUnsuccessful(Execute(s, steps + [step] + more[..n]), more[n], p);
    }
  }

  lemma NothingPublishedYet(s: State, steps: seq<Step>, step: Step, p: Pid)
    requires Initial(s) && FailsEarly(Execute(s, steps), step, p)
    ensures Unpublished(Execute(s, steps).history, p)
  {
    InvariantHolds(s, steps);
    assert Recorded(Execute(s, steps), p);
  }

  /** A commit with a failing step up to its rename never publishes anything. */
  lemma {:induction false} EarlyFailurePublishesNothing(s: State, steps: seq<Step>, more: seq<Step>, step: Step, p: Pid)
    requires Initial(s) && FailsEarly(Execute(s, steps), step, p)
    ensures Unpublished(Execute(s, steps + [step] + more).history, p)
    decreases |more|
  {
    hide Do, Unsuccessful, FailsEarly, FailsLate, Unpublished, Initial;
    if more == [] {
      assert steps + [step] + more == steps + [step];
      ExecuteSnoc(s, steps, step);
      FailureCounts(Execute(s, steps), step, p);
      NothingPublishedYet(s, steps, step, p);
    } else {
      var n := |more| - 1;
      EarlyFailurePublishesNothing(s, steps, more[..n], step, p);
      SuccessIsWhole(s, steps, more[..n], step, p);
      assert steps + [step] + more == (steps + [step] + more[..n]) + [more[n]];
      ExecuteSnoc(s, steps + [step] + more[..n], more[n]);
      StaysUnsuccessful(Execute(s, steps + [step] + more[..n]), more[n], p);
    }
  }

  function LockAlone(s: State, p: Pid, expected: Revision, data: string): State {
    Do(Do(s, Start(p, expected, data)), TryLock(p))
  }

  function CheckAlone(s: State, p: Pid): State {
    Do(Do(Do(s, Inspect(p, false)), Read(p, false)), ReadMode(p, false))
  }

  function PublishAlone(s: State, p: Pid): State {
    Do(Do(Do(s, Stage(p, false)), Rename(p, false)), Clean(p, false))
  }

  function UnlockAlone(s: State, p: Pid): State {
    Do(Do(s, CompareLock(p, false)), RemoveLock(p, false, false))
  }

  // Every step of one commit, in order and with nothing failing or interleaved. Steps that do not
  // apply, such as reading a file that is missing, change nothing.
  function CommitAlone(s: State, p: Pid, expected: Revision, data: string): State {
    UnlockAlone(PublishAlone(CheckAlone(LockAlone(s, p, expected, data), p), p), p)
  }

  lemma LocksAlone(s: State, p: Pid, expected: Revision, data: string)
    requires p !in s.processes && s.lock == Free
    ensures LockAlone(s, p, expected, data) ==
            s.With(p, Committer(expected, data, Inspecting, s.nextLockId, 0))
             .(lock := LockFile(s.nextLockId), nextLockId := s.nextLockId + 1)
  {
    assert Do(s, Start(p, expected, data)) == s.With(p, Committer(expected, data, Acquiring, 0, 0));
  }

  lemma ChecksAlone(s: State, p: Pid)
    requires s.InPhase(p, Inspecting)
    ensures var c := s.processes[p];
            CheckAlone(s, p) ==
            if c.expected != RevisionOf(s.file) then s.To(p, Comparing(Conflict))
            else s.With(p, c.(phase := if s.file.Special? then Comparing(Failed) else Staging,
                              checkedAt := |s.history|))
  {
    var inspected := Do(s, Inspect(p, false));
    assert inspected == if s.file.Regular? then s.To(p, Reading) else Check(s, p);
    assert Do(inspected, Read(p, false)) == Check(s, p);
  }

  lemma PublishesAlone(s: State, p: Pid)
    requires s.Commits(p) && (s.processes[p].phase.Comparing? || (s.processes[p].phase.Staging? && !s.file.Special?))
    ensures PublishAlone(s, p) ==
            if s.processes[p].phase.Comparing? then s
            else s.To(p, Comparing(Committed)).(
                   file := Regular(s.processes[p].data),
                   history := s.history + [CommitEvent(p, s.processes[p].expected, s.processes[p].data, s.file,
                                                       s.processes[p].checkedAt)])
  {
    if s.processes[p].phase.Staging? {
      assert Do(s, Stage(p, false)) == s.To(p, Renaming);
    }
  }

  lemma UnlocksAlone(s: State, p: Pid)
    requires s.Commits(p) && s.processes[p].phase.Comparing? && s.lock == LockFile(s.processes[p].lockId)
    ensures UnlockAlone(s, p) == s.To(p, Done(s.processes[p].phase.outcome)).(lock := Free)
  {
  }

  /** Compare and swap: an undisturbed commit succeeds exactly when it was prepared from the file on
      disk, and that is not a special file; otherwise it leaves the file alone. It returns the lock. */
  lemma CompareAndSwap(s: State, p: Pid, expected: Revision, data: string)
    requires p !in s.processes && s.lock == Free
    ensures var t := CommitAlone(s, p, expected, data);
            && t.lock == Free && t.Commits(p) && t.processes[p].phase.Done?
            && (t.processes[p].phase.outcome == Committed <==> expected == RevisionOf(s.file) && !s.file.Special?)
            && (t.processes[p].phase.outcome == Conflict <==> expected != RevisionOf(s.file))
            && t.file == (if t.processes[p].phase.outcome == Committed then Regular(data) else s.file)
            && (forall q :: q in s.processes ==> q in t.processes && t.processes[q] == s.processes[q])
  {
    hide Do, LockAlone, CheckAlone, PublishAlone, UnlockAlone;
    var locked := LockAlone(s, p, expected, data);
    LocksAlone(s, p, expected, data);
    ChecksAlone(locked, p);
    var checked := CheckAlone(locked, p);
    PublishesAlone(checked, p);
    UnlocksAlone(PublishAlone(checked, p), p);
  }

  lemma ExecuteSnoc(s: State, steps: seq<Step>, step: Step)
    ensures Execute(s, steps + [step]) == Do(Execute(s, steps), step)
  {
    assert (steps + [step])[..|steps|] == steps;
  }

  /** The window is real: a commit prepared from a missing file overwrites a default. */
  lemma DefaultCanBeOverwritten() returns (s: State, steps: seq<Step>)
    ensures Initial(s)
    ensures var h := Execute(s, steps).history;
            && |h| == 2 && h[0] == DefaultEvent(1, "default")
            && h[1].CommitEvent? && h[1].expected == RevisionOf(Missing) && h[1].replaced == Regular("default")
  {
    s := State(Missing, Free, 0, map[], []);
    var script := [Start(0, RevisionOf(Missing), "mine"), TryLock(0), Inspect(0, false),
                   StartDefault(1, "default"), StageDefault(1, false), LinkDefault(1, false),
                   Stage(0, false), Rename(0, false)];
    steps := [];
    var t := s;
    var n := 0;
    while n < |script|
      invariant n <= |script| && t == Execute(s, steps)
      invariant n == 0 ==> t == s
      invariant 1 <= n <= 3 ==>
          && t.file == Missing && t.history == [] && t.processes.Keys == {0} && (n == 1 ==> t.lock == Free)
          && t.processes[0] == Committer(RevisionOf(Missing), "mine",
               if n == 1 then Acquiring else if n == 2 then Inspecting else Staging, 0, 0)
          && (n == 1 ==> t.nextLockId == 0)
      invariant 4 <= n <= 5 ==>
          && t.file == Missing && t.history == [] && t.processes.Keys == {0, 1}
          && t.processes[0] == Committer(RevisionOf(Missing), "mine", Staging, 0, 0)
          && t.processes[1] == Publisher("default", n == 5, false)
      invariant 6 <= n <= 7 ==>
          && t.file == Regular("default") && t.history == [DefaultEvent(1, "default")] && 0 in t.processes
          && t.processes[0] == Committer(RevisionOf(Missing), "mine", if n == 6 then Staging else Renaming, 0, 0)
      invariant n == 8 ==>
          t.history == [DefaultEvent(1, "default"), CommitEvent(0, RevisionOf(Missing), "mine", Regular("default"), 0)]
    {
      ExecuteSnoc(s, steps, script[n]);
      steps, t, n := steps + [script[n]], Do(t, script[n]), n + 1;
    }
  }
}
