/** Any number of processes, their calls interleaved step by step, with crashes and failing writes. */
module AdmissionRuns {
  import opened Options
  import opened AdmissionRecord
  import opened ProjectAdmission
  import opened AdmissionRights

  /** A call that took effect, its outcome, and the state file around it. */
  datatype Entry = Entry(op: Op, before: Option<Json>, outcome: Outcome, after: Option<Json>)

  // ---------- one call after another ----------

  predicate Took(e: Entry) {
    e.outcome == Transition(e.op, e.before) && e.after == After(e.before, e.outcome)
  }

  // Each entry starts from the file the one before it left.
  predicate Chained(start: Option<Json>, history: seq<Entry>, end: Option<Json>)
    decreases |history|
  {
    if history == [] then start == end
    else history[|history| - 1].after == end && Chained(start, history[..|history| - 1], history[|history| - 1].before)
  }

  /** The calls, one at a time, lead from the one file to the other. */
  predicate IsRun(start: Option<Json>, history: seq<Entry>, end: Option<Json>) {
    Chained(start, history, end) && forall i :: 0 <= i < |history| ==> Took(history[i])
  }

  lemma {:induction false} Adjacent(start: Option<Json>, history: seq<Entry>, end: Option<Json>, k: nat)
    requires Chained(start, history, end) && k + 1 < |history|
    ensures history[k].after == history[k + 1].before
    decreases |history|
  {
    var n := |history| - 1;
    if k + 1 == n {
    } else {
      Adjacent(start, history[..n], history[n].before, k);
    }
  }

  // ---------- the processes ----------

  type Pid = nat

  /** Where a process is in its call; from Locked on it holds the admission lock. */
  datatype Phase = Idle | Waiting(op: Op) | Locked(op: Op) | HasRead(op: Op, seen: Option<Json>) | Finished

  datatype World = World(file: Option<Json>, holder: Option<Pid>, phases: map<Pid, Phase>, history: seq<Entry>)

  function PhaseOf(w: World, p: Pid): Phase {
    if p in w.phases then w.phases[p] else Idle
  }

  function At(w: World, p: Pid, phase: Phase): World {
    w.(phases := w.phases[p := phase])
  }

  datatype Step =
    | Call(p: Pid, op: Op)
    | Acquire(p: Pid)
    | Read(p: Pid)
    | Commit(p: Pid)
    | FailToWrite(p: Pid)
    | Unlock(p: Pid)
    | Crash(p: Pid)

  predicate Enabled(w: World, step: Step) {
    match step
    case Call(p, op) => PhaseOf(w, p).Idle?
    case Acquire(p) => PhaseOf(w, p).Waiting? && w.holder.None?
    case Read(p) => PhaseOf(w, p).Locked?
    case Commit(p) => PhaseOf(w, p).HasRead?
    case FailToWrite(p) => PhaseOf(w, p).HasRead? && Transition(PhaseOf(w, p).op, PhaseOf(w, p).seen).Written?
    case Unlock(p) => PhaseOf(w, p).Finished?
    case Crash(p) => true
  }

  // The decision is taken on the file that was read; the file that is replaced is the one that is there.
  function Take(w: World, step: Step): World
    requires Enabled(w, step)
  {
    match step
    case Call(p, op) => At(w, p, if ArgumentError(InOrder(op)).Some? then Idle else Waiting(op))
    case Acquire(p) => At(w.(holder := Some(p)), p, Locked(PhaseOf(w, p).op))
    case Read(p) => At(w, p, HasRead(PhaseOf(w, p).op, w.file))
    case Commit(p) =>
      var op, seen := PhaseOf(w, p).op, PhaseOf(w, p).seen;
      var outcome := Transition(op, seen);
      var file := After(w.file, outcome);
      At(w.(file := file, history := w.history + [Entry(op, w.file, outcome, file)]), p, Finished)
    case FailToWrite(p) => At(w, p, Finished)
    case Unlock(p) => At(w.(holder := None), p, Idle)
    // The operating system takes the lock of a dead process back.
    case Crash(p) => At(if w.holder == Some(p) then w.(holder := None) else w, p, Idle)
  }

  function Start(file: Option<Json>): World {
    World(file, None, map[], [])
  }

  // A run of the processes, from some file on.
  ghost predicate Behaviour(worlds: seq<World>, steps: seq<Step>) {
    && |worlds| == |steps| + 1
    && worlds[0] == Start(worlds[0].file)
    && forall i :: 0 <= i < |steps| ==> Happens(worlds[i], steps[i], worlds[i + 1])
  }

  ghost predicate Happens(w: World, step: Step, next: World) {
    Enabled(w, step) && next == Take(w, step)
  }

  // ---------- the calls appear to run one at a time ----------

  predicate Inside(phase: Phase) {
    phase.Locked? || phase.HasRead? || phase.Finished?
  }

  ghost predicate Invariant(start: Option<Json>, w: World) {
    && (forall p: Pid :: Inside(PhaseOf(w, p)) <==> w.holder == Some(p))
    && (forall p: Pid :: PhaseOf(w, p).HasRead? ==> PhaseOf(w, p).seen == w.file)
    && IsRun(start, w.history, w.file)
  }

  lemma StepKeepsInvariant(start: Option<Json>, w: World, step: Step)
    requires Invariant(start, w) && Enabled(w, step)
    ensures Invariant(start, Take(w, step))
  {
    var next := Take(w, step);
    assert forall p: Pid :: p != step.p ==> PhaseOf(next, p) == PhaseOf(w, p);
    if step.Commit? {
      var last := next.history[|next.history| - 1];
      assert Took(last);
      assert next.history[..|next.history| - 1] == w.history;
    }
  }

  /** However the steps interleave, and whoever crashes or fails to write: at most one process is inside, and the
      file is what the calls that took effect make of it one after another, each on the file the one before it
      left. */
  lemma {:induction false} OneAtATime(worlds: seq<World>, steps: seq<Step>)
    requires Behaviour(worlds, steps)
    ensures var w := worlds[|steps|];
            && IsRun(worlds[0].file, w.history, w.file)
            && (forall p: Pid, q: Pid :: Inside(PhaseOf(w, p)) && Inside(PhaseOf(w, q)) ==> p == q)
  {
    ReachableKeeps(worlds, steps);
  }

  lemma {:induction false} ReachableKeeps(worlds: seq<World>, steps: seq<Step>)
    requires Behaviour(worlds, steps)
    ensures Invariant(worlds[0].file, worlds[|steps|])
    decreases |steps|
  {
    if steps == [] {
    } else {
      var n := |steps| - 1;
      assert forall i :: 0 <= i < n ==> Happens(worlds[i], steps[i], worlds[i + 1]);
      ReachableKeeps(worlds[..n + 1], steps[..n]);
      assert Happens(worlds[n], steps[n], worlds[n + 1]);
      StepKeepsInvariant(worlds[0].file, worlds[n], steps[n]);
    }
  }

  // ---------- who owns the admission ----------

  function Owner(file: Option<Json>): Option<(string, string)> {
    if Held(file).Some? then Some((Held(file).value.project, Held(file).value.contract)) else None
  }

  function Bound(file: Option<Json>): Option<string> {
    SessionOf(Held(file))
  }

  function SessionOf(current: Option<Record>): Option<string> {
    if current.Some? && current.value.session.Some? then Some(current.value.session.value.id) else None
  }

  predicate Free(file: Option<Json>) {
    file.None? || (Held(file).Some? && Held(file).value.status.Released?)
  }

  // A call that begins an admission.
  predicate Begins(e: Entry) {
    e.op.Admit? && Free(e.before) && !e.outcome.Failed?
  }

  // The session an argument names.
  function Named(argument: Json): string {
    if argument.Str? then argument.s else ""
  }

  // A session that took the place of another.
  predicate Recovers(e: Entry) {
    e.op.Recover? && e.outcome.Written?
  }

  lemma EntryCases(e: Entry)
    requires Took(e)
    ensures Held(e.after) == if e.outcome.Written? then Some(e.outcome.record) else Held(e.before)
  {
    WritesReadBack(e.op, e.before);
  }

  /** The owner changes only by an admission of a free or released record, and then to the project and contract
      of that admission; a released record becomes active in no other way. */
  lemma OwnerChangesByAdmission(e: Entry)
    requires Took(e)
    ensures Owner(e.before) != Owner(e.after) || (Free(e.before) && !Free(e.after)) ==>
              Begins(e) && Owner(e.after) == Some((e.op.project.s, e.op.contract.s)) && !Free(e.after)
  {
    EntryCases(e);
  }

  lemma {:induction false} OwnerStays(start: Option<Json>, history: seq<Entry>, end: Option<Json>)
    requires IsRun(start, history, end)
    requires forall i :: 0 <= i < |history| ==> !Begins(history[i])
    ensures Owner(start) == Owner(end)
    decreases |history|
  {
    if history == [] {
    } else {
      var n := |history| - 1;
      OwnerChangesByAdmission(history[n]);
      OwnerStays(start, history[..n], history[n].before);
    }
  }

  // A call that ends the admission of that project and contract, and may.
  ghost predicate Ends(e: Entry, owner: (string, string)) {
    && e.op.Release? && UnderWay(e.before) && Owner(e.before) == Some(owner)
    && exists evidence, contract ::
         && Meant(e.op.evidence, e.op.contract, evidence, contract)
         && MayRelease(Held(e.before).value, e.op.project, evidence, contract, e.op.session, e.op.endpoint)
  }

  lemma EndIsRelease(e: Entry)
    requires Took(e) && UnderWay(e.before) && (!UnderWay(e.after) || Owner(e.after) != Owner(e.before))
    ensures Ends(e, Owner(e.before).value)
  {
    OwnerChangesByAdmission(e);
    EntryCases(e);
    if e.op.Release? {
      var call := InOrder(e.op);
      assert Meant(e.op.evidence, e.op.contract, call.evidence, call.contract);
      ReleaseIff(e.before, e.op.project, e.op.evidence, e.op.contract, e.op.session, e.op.endpoint, call.evidence,
                 call.contract);
    } else {
      OnlyReleaseReleases(InOrder(e.op), Held(e.before));
    }
  }

  lemma OnlyReleaseReleases(op: Op, current: Option<Record>)
    requires ArgumentError(op).None? && !op.Release? && Open(current)
    ensures !OnRecord(op, current).Failed? ==> !OnRecord(op, current).record.status.Released?
  {
  }

  /** In every run, an admission that is over at the end was ended by a call that was entitled to: it named the project
      that owned the admission, its contract and session if it named any, and evidence of no other owner. */
  lemma {:induction false} AdmissionEndsByRelease(start: Option<Json>, history: seq<Entry>, end: Option<Json>)
    requires IsRun(start, history, end) && UnderWay(start)
    requires !UnderWay(end) || Owner(end) != Owner(start)
    ensures exists k :: 0 <= k < |history| && Ends(history[k], Owner(start).value)
    decreases |history|
  {
    if history == [] {
    } else {
      var n := |history| - 1;
      if UnderWay(history[n].before) && Owner(history[n].before) == Owner(start) {
        EndIsRelease(history[n]);
      } else {
        AdmissionEndsByRelease(start, history[..n], history[n].before);
        var k :| 0 <= k < n && Ends(history[..n][k], Owner(start).value);
        assert Ends(history[k], Owner(start).value);
      }
    }
  }

  // ---------- the sessions of an admission ----------

  // The recoveries of a run: the session replaced and its replacement.
  function Recoveries(history: seq<Entry>): seq<(string, string)> {
    if history == [] then []
    else
      var last := history[|history| - 1];
      Recoveries(history[..|history| - 1])
      + if Recovers(last) then [(Named(last.op.previous), Named(last.op.next))] else []
  }

  // Each link starts where the one before it ended.
  predicate Links(first: string, links: seq<(string, string)>, last: string)
    decreases |links|
  {
    if links == [] then first == last
    else
      var n := |links| - 1;
      links[n].1 == last && links[n].0 != links[n].1 && Links(first, links[..n], links[n].0)
  }

  lemma SessionCases(op: Op, current: Option<Record>)
    requires ArgumentError(op).None? && SessionOf(current).Some? && OnRecord(op, current).Written?
    requires op.Admit? ==> Open(current)
    ensures SessionOf(Some(OnRecord(op, current).record)) == if op.Recover? then Some(op.next.s) else SessionOf(current)
  {
  }

  lemma BoundCases(e: Entry)
    requires Took(e) && !Begins(e)
    ensures Bound(e.before).Some? && !Recovers(e) ==> Bound(e.after) == Bound(e.before)
  {
    EntryCases(e);
    if e.outcome.Written? && Bound(e.before).Some? {
      SessionCases(InOrder(e.op), Held(e.before));
    }
  }

  lemma RecoveryCases(e: Entry)
    requires Took(e) && Recovers(e)
    ensures !Begins(e)
    ensures Bound(e.before) == Some(Named(e.op.previous))
            && Bound(e.after) == Some(Named(e.op.next)) && Named(e.op.previous) != Named(e.op.next)
    ensures Held(e.after).value.session.value.recovery == Some(Recovery(Named(e.op.previous), e.op.recording))
  {
    EntryCases(e);
  }

  /** Within one admission the bound session changes only by recoveries, and they form a chain: each names as its
      predecessor exactly the session that the one before it bound. */
  lemma {:induction false} SessionsFormChain(start: Option<Json>, history: seq<Entry>, end: Option<Json>)
    requires IsRun(start, history, end) && Bound(start).Some?
    requires forall i :: 0 <= i < |history| ==> !Begins(history[i])
    ensures Bound(end).Some? && Links(Bound(start).value, Recoveries(history), Bound(end).value)
    decreases |history|
  {
    hide Transition, Canonical, After;
    if history == [] {
    } else {
      var n := |history| - 1;
      var last := history[n];
      SessionsFormChain(start, history[..n], last.before);
      BoundCases(last);
      if Recovers(last) {
        RecoveryCases(last);
        var links := Recoveries(history);
        assert links[..|links| - 1] == Recoveries(history[..n]);
      } else {
        assert Recoveries(history) == Recoveries(history[..n]);
      }
    }
  }

  // A call after which that session is bound again, or another admission has begun.
  predicate Returns(e: Entry, session: string) {
    Begins(e) || (Recovers(e) && Named(e.op.next) == session)
  }

  // If another session is bound before, then so it is after.
  predicate KeepsAway(e: Entry, session: string) {
    Bound(e.before).Some? && Bound(e.before) != Some(session) ==>
        Bound(e.after).Some? && Bound(e.after) != Some(session)
  }

  lemma StepsAway(e: Entry, session: string)
    requires Took(e) && !Returns(e, session)
    ensures KeepsAway(e, session)
  {
    BoundCases(e);
    if Recovers(e) {
      RecoveryCases(e);
    }
  }

  lemma {:induction false} StaysAway(start: Option<Json>, history: seq<Entry>, end: Option<Json>, i: nat, j: nat,
                                     session: string)
    requires Chained(start, history, end) && i < j < |history|
    requires Bound(history[i].after).Some? && Bound(history[i].after) != Some(session)
    requires forall k :: i < k < j ==> KeepsAway(history[k], session)
    ensures Bound(history[j].before).Some? && Bound(history[j].before) != Some(session)
    decreases j
  {
    Adjacent(start, history, end, j - 1);
    if i == j - 1 {
    } else {
      StaysAway(start, history, end, i, j - 1, session);
      assert KeepsAway(history[j - 1], session);
    }
  }

  /** Compare and swap: of two recoveries from one session both succeed only if, between them, a recovery bound
      that session again or a new admission began. */
  lemma {:induction false} RecoveriesCompareAndSwap(start: Option<Json>, history: seq<Entry>, end: Option<Json>,
                                                    i: nat, j: nat)
    requires IsRun(start, history, end) && i < j < |history|
    requires Recovers(history[i]) && Recovers(history[j]) && history[i].op.previous == history[j].op.previous
    ensures exists k :: i < k < j && Returns(history[k], Named(history[i].op.previous))
  {
    var session := Named(history[i].op.previous);
    RecoveryCases(history[i]);
    RecoveryCases(history[j]);
    if forall k :: i < k < j ==> !Returns(history[k], session) {
      forall k | i < k < j ensures KeepsAway(history[k], session) {
        StepsAway(history[k], session);
      }
      StaysAway(start, history, end, i, j, session);
    }
  }
}
