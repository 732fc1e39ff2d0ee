/** What holds at every moment of a synchronization, and how moments follow each other. */
module SyncMoments {
  import opened Options
  import opened Repositories

  /** Between the two records of the past: every moment is quiet, and the work safe. */
  ghost predicate Kept(start: Repo, before: seq<Repo>, after: seq<Repo>, end: Repo, work: Work) {
    before <= after && Quiet(start, end) && forall i :: |before| <= i < |after| ==>
        Quiet(start, after[i]) && Safe(after[i], work)
  }

  /** Likewise while the branch goes forward. */
  ghost predicate KeptForward(start: Repo, before: seq<Repo>, after: seq<Repo>, end: Repo, work: Work, branch: string,
                              excuse: Excuse) {
    && before <= after && Forward(start, end, branch, excuse)
    && forall i :: |before| <= i < |after| ==> Forward(start, after[i], branch, excuse) && Safe(after[i], work)
  }

  lemma KeepOn(start: Repo, before: seq<Repo>, middle: Repo, between: seq<Repo>, end: Repo, after: seq<Repo>,
               work: Work)
    requires Kept(start, before, between, middle, work) && Kept(middle, between, after, end, work)
    ensures Kept(start, before, after, end, work)
  {
    forall i | |before| <= i < |after| ensures Quiet(start, after[i]) && Safe(after[i], work) {
      if i < |between| {
        assert after[i] == between[i];
      }
    }
  }

  lemma KeepOneMore(start: Repo, before: seq<Repo>, middle: Repo, between: seq<Repo>, end: Repo, work: Work)
    requires Kept(start, before, between, middle, work) && Quiet(middle, end) && Safe(end, work)
    ensures Kept(start, before, between + [end], end, work)
  {
    KeepOn(start, before, middle, between, end, between + [end], work);
  }

  lemma QuietFirst(start: Repo, before: seq<Repo>, middle: Repo, between: seq<Repo>, end: Repo, after: seq<Repo>,
                   work: Work, branch: string, excuse: Excuse)
    requires Kept(start, before, between, middle, work)
    requires KeptForward(middle, between, after, end, work, branch, excuse)
    ensures KeptForward(start, before, after, end, work, branch, excuse)
  {
    forall i | |before| <= i < |after| ensures Forward(start, after[i], branch, excuse) && Safe(after[i], work) {
      if i < |between| {
        assert after[i] == between[i];
        QuietIsForward(start, after[i], branch, excuse);
      } else {
        QuietThenForward(start, middle, after[i], branch, excuse);
      }
    }
    QuietThenForward(start, middle, end, branch, excuse);
  }

  lemma QuietLast(start: Repo, before: seq<Repo>, middle: Repo, between: seq<Repo>, end: Repo, after: seq<Repo>,
                  work: Work, branch: string, excuse: Excuse)
    requires KeptForward(start, before, between, middle, work, branch, excuse)
    requires Kept(middle, between, after, end, work)
    ensures KeptForward(start, before, after, end, work, branch, excuse)
  {
    forall i | |before| <= i < |after| ensures Forward(start, after[i], branch, excuse) && Safe(after[i], work) {
      if i < |between| {
        assert after[i] == between[i];
      } else {
        ForwardThenQuiet(start, middle, after[i], branch, excuse);
      }
    }
    ForwardThenQuiet(start, middle, end, branch, excuse);
  }

  lemma OnToOneMore(start: Repo, before: seq<Repo>, middle: Repo, between: seq<Repo>, end: Repo, work: Work,
                    branch: string, excuse: Excuse)
    requires KeptForward(start, before, between, middle, work, branch, excuse) && OnTo(start, middle, branch)
    requires OnTo(middle, end, branch) && Safe(end, work)
    ensures KeptForward(start, before, between + [end], end, work, branch, excuse) && OnTo(start, end, branch)
  {
    OnToTransitive(start, middle, end, branch);
  }

  lemma KeptIsForward(start: Repo, before: seq<Repo>, after: seq<Repo>, end: Repo, work: Work, branch: string,
                      excuse: Excuse)
    requires Kept(start, before, after, end, work) && Tip(start, branch).Some?
    ensures KeptForward(start, before, after, end, work, branch, excuse)
  {
    QuietIsForward(start, end, branch, excuse);
    forall i | |before| <= i < |after| ensures Forward(start, after[i], branch, excuse) {
      QuietIsForward(start, after[i], branch, excuse);
    }
  }

  /** Likewise, with the branch only ever moving on to descendants. */
  ghost predicate KeptOnTo(start: Repo, before: seq<Repo>, after: seq<Repo>, end: Repo, work: Work, branch: string) {
    && before <= after && OnTo(start, end, branch)
    && forall i :: |before| <= i < |after| ==> OnTo(start, after[i], branch) && Safe(after[i], work)
  }

  // An excuse that is a descendant is no exception.
  lemma ExcuseOnTo(start: Repo, r: Repo, branch: string, id: Id)
    requires Forward(start, r, branch, Exactly(id)) && Ancestor(start.objects, Tip(start, branch).value, id)
    ensures OnTo(start, r, branch)
  {
    AncestorStays(start.objects, r.objects, Tip(start, branch).value, id);
  }

  lemma ForwardIsOnTo(start: Repo, before: seq<Repo>, after: seq<Repo>, end: Repo, work: Work, branch: string, id: Id)
    requires KeptForward(start, before, after, end, work, branch, Exactly(id))
    requires Ancestor(start.objects, Tip(start, branch).value, id)
    ensures KeptOnTo(start, before, after, end, work, branch)
  {
    ExcuseOnTo(start, end, branch, id);
    forall i | |before| <= i < |after| ensures OnTo(start, after[i], branch) {
      ExcuseOnTo(start, after[i], branch, id);
    }
  }

  /** What stands behind the files while they change: a snapshot of the work, or no work at all. */
  ghost predicate Backed(r: Repo, work: Work, snapshot: Option<Id>) {
    if snapshot.Some? then Anchored(r, work, snapshot.value) else forall files :: Present(files, work)
  }

  ghost predicate SameAnchors(before: Repo, after: Repo) {
    forall id :: Snapshot(id) in before.refs ==>
        Snapshot(id) in after.refs && after.refs[Snapshot(id)] == before.refs[Snapshot(id)]
  }

  lemma SnapshotStays(before: Objects, after: Objects, id: Id)
    requires Grown(before, after) && SnapshotWork(before, id).Some?
    ensures SnapshotWork(after, id) == SnapshotWork(before, id)
  {
    assert forall p :: p in before[id].parents ==> p in after;
  }

  lemma BackedStays(before: Repo, after: Repo, work: Work, snapshot: Option<Id>)
    requires Backed(before, work, snapshot) && Grown(before.objects, after.objects) && SameAnchors(before, after)
    ensures Backed(after, work, snapshot) && Safe(after, work)
  {
    if snapshot.Some? {
      SnapshotStays(before.objects, after.objects, snapshot.value);
      assert Anchored(after, work, snapshot.value);
    }
  }

  lemma StartsKept(start: Repo, before: seq<Repo>)
    ensures Kept(start, before, before + [start], start, WorkOf(start))
  {
    WorkIsPresent(start);
  }

  lemma QuietSoFar(start: Repo, before: seq<Repo>, after: seq<Repo>, end: Repo, work: Work, branch: string,
                   excuse: Excuse)
    requires Kept(start, before, after, end, WorkOf(start)) && (work == WorkOf(start) || work == NoWork())
               && Tip(start, branch).Some?
    ensures Kept(start, before, after, end, work) && KeptForward(start, before, after, end, work, branch, excuse)
    ensures OnTo(start, end, branch)
  {
    KeptLess(start, before, after, end, WorkOf(start), work);
    KeptIsForward(start, before, after, end, work, branch, excuse);
    QuietIsOnTo(start, end, branch);
  }

  lemma MoveIsOnTo(start: Repo, middle: Repo, end: Repo, branch: string)
    requires Quiet(start, middle) && Tip(start, branch).Some?
    ensures OnTo(middle, end, branch) ==> OnTo(start, end, branch)
  {
    if OnTo(middle, end, branch) {
      QuietIsOnTo(start, middle, branch);
      OnToTransitive(start, middle, end, branch);
    }
  }

  lemma RestIsOnTo(start: Repo, middle: Repo, end: Repo, branch: string)
    requires Quiet(middle, end)
    ensures OnTo(start, middle, branch) ==> OnTo(start, end, branch)
  {
    if OnTo(start, middle, branch) {
      QuietIsOnTo(middle, end, branch);
      OnToTransitive(start, middle, end, branch);
    }
  }

  // A hard reset that went through or broke off: it goes forward, or it has its excuse.
  lemma ResetIsForward(start: Repo, before: seq<Repo>, middle: Repo, between: seq<Repo>, end: Repo, work: Work,
                       branch: string, excuse: Excuse, ok: bool, at: Id, can: bool)
    requires KeptForward(start, before, between, middle, work, branch, excuse) && OnTo(start, middle, branch)
    requires Safe(end, work) && Grown(middle.objects, end.objects) && end.head == middle.head
    requires end.refs == if ok then middle.refs[Branch(branch) := at] else middle.refs
    requires can ==> Ancestor(middle.objects, Tip(middle, branch).value, at)
    requires !can ==> excuse == Exactly(at) || (excuse.Pushed? && Tip(middle, branch) == Some(excuse.pre))
    ensures KeptForward(start, before, between + [end], end, work, branch, excuse)
    ensures can || !ok ==> OnTo(start, end, branch)
  {
    assert forall b: string :: b != branch ==> Tip(end, b) == Tip(middle, b);
    if !ok {
      QuietIsOnTo(middle, end, branch);
      OnToOneMore(start, before, middle, between, end, work, branch, excuse);
    } else if can {
      AncestorStays(middle.objects, end.objects, Tip(middle, branch).value, at);
      OnToOneMore(start, before, middle, between, end, work, branch, excuse);
    } else if excuse.Pushed? {
      AncestorStays(middle.objects, end.objects, Tip(start, branch).value, excuse.pre);
    }
  }

  // The commit of HEAD is there.
  predicate HasHead(r: Repo) {
    HeadId(r).Some? ==> HeadId(r).value in r.objects
  }

  // Nothing happened but fetches.
  ghost predicate Still(start: Repo, before: seq<Repo>, after: seq<Repo>, end: Repo) {
    && HasHead(start) && before <= after && StillAt(start, end)
    && forall i :: |before| <= i < |after| ==> StillAt(start, after[i])
  }

  ghost predicate StillAt(start: Repo, r: Repo) {
    && Quiet(start, r) && r.files == start.files && r.index == start.index
    && SameAnchors(start, r) && SameAnchors(r, start)
  }

  lemma StillFirst(start: Repo, before: seq<Repo>)
    requires HasHead(start)
    ensures Still(start, before, before, start)
  {
  }

  lemma StillFurther(start: Repo, before: seq<Repo>, middle: Repo, between: seq<Repo>, r: Repo)
    requires Still(start, before, between, middle) && StillAt(middle, r)
    ensures Still(start, before, between + [r], r)
  {
  }

  lemma SameWork(start: Repo, r: Repo)
    requires HasHead(start) && StillAt(start, r)
    ensures WorkOf(r) == WorkOf(start)
  {
    assert HeadId(r) == HeadId(start);
  }

  lemma StayOnTo(start: Repo, before: seq<Repo>, after: seq<Repo>, end: Repo, work: Work)
    requires Still(start, before, after, end) && (work == WorkOf(start) || work == NoWork())
    ensures Tip(start, "main").Some? ==> KeptOnTo(start, before, after, end, work, "main")
  {
    WorkIsPresent(start);
    if Tip(start, "main").Some? {
      QuietIsOnTo(start, end, "main");
      forall i | |before| <= i < |after| ensures OnTo(start, after[i], "main") && Safe(after[i], work) {
        QuietIsOnTo(start, after[i], "main");
      }
    }
  }

  /** The work is safe at every moment between the two records of the past. */
  ghost predicate AlwaysSafe(before: seq<Repo>, after: seq<Repo>, work: Work) {
    before <= after && forall i :: |before| <= i < |after| ==> Safe(after[i], work)
  }

  lemma StaySafe(start: Repo, before: seq<Repo>, after: seq<Repo>, end: Repo, work: Work)
    requires Still(start, before, after, end) && (work == WorkOf(start) || work == NoWork())
    ensures AlwaysSafe(before, after, work)
    ensures Tip(start, "main").Some? ==> KeptOnTo(start, before, after, end, work, "main")
    ensures Tip(end, "main") == Tip(start, "main") && end.files == start.files
  {
    WorkIsPresent(start);
    StayOnTo(start, before, after, end, work);
  }

  // A ref set over an unchanged working tree.
  lemma CreatedIsSafe(start: Repo, before: seq<Repo>, middle: Repo, after: seq<Repo>, end: Repo, work: Work)
    requires |after| > 0 && |before| < |after| && Still(start, before, after[..|after| - 1], middle)
    requires after[|after| - 1] == end && end.files == start.files && (work == WorkOf(start) || work == NoWork())
    ensures AlwaysSafe(before, after, work)
  {
    WorkIsPresent(start);
    StaySafe(start, before, after[..|after| - 1], middle, work);
  }

  lemma StillThenOnTo(start: Repo, before: seq<Repo>, middle: Repo, between: seq<Repo>, end: Repo, after: seq<Repo>,
                      work: Work)
    requires Still(start, before, between, middle) && (work == WorkOf(start) || work == NoWork())
    requires KeptOnTo(middle, between, after, end, work, "main")
    ensures KeptOnTo(start, before, after, end, work, "main")
  {
    StayOnTo(start, before, between, middle, work);
    OnToTransitive(start, middle, end, "main");
    forall i | |before| <= i < |after| ensures OnTo(start, after[i], "main") && Safe(after[i], work) {
      if i < |between| {
        assert after[i] == between[i];
      } else {
        OnToTransitive(start, middle, after[i], "main");
      }
    }
  }

  lemma MoveRefOnTo(start: Repo, before: seq<Repo>, middle: Repo, between: seq<Repo>, end: Repo, work: Work, id: Id)
    requires Still(start, before, between, middle) && (work == WorkOf(start) || work == NoWork())
               && Tip(start, "main").Some?
    requires end == middle.(refs := middle.refs[Branch("main") := id])
    requires Ancestor(middle.objects, Tip(start, "main").value, id)
    ensures KeptOnTo(start, before, between + [end], end, work, "main")
  {
    WorkIsPresent(start);
    StayOnTo(start, before, between, middle, work);
  }

  ghost predicate SameOtherRefs(before: Repo, after: Repo) {
    forall ref: Ref :: !ref.Snapshot? ==>
        (ref in after.refs <==> ref in before.refs) && (ref in before.refs ==> after.refs[ref] == before.refs[ref])
  }

  lemma KeptLess(start: Repo, before: seq<Repo>, after: seq<Repo>, end: Repo, work: Work, less: Work)
    requires Kept(start, before, after, end, work) && (less == work || less == NoWork())
    ensures Kept(start, before, after, end, less)
  {
    assert forall files :: Present(files, NoWork());
  }

  lemma KeptForwardLess(start: Repo, before: seq<Repo>, after: seq<Repo>, end: Repo, work: Work, less: Work,
                        branch: string, excuse: Excuse)
    requires KeptForward(start, before, after, end, work, branch, excuse) && (less == work || less == NoWork())
    ensures KeptForward(start, before, after, end, less, branch, excuse)
  {
    assert forall files :: Present(files, NoWork());
  }

  lemma BackedByNothing(r: Repo, work: Work)
    requires work == NoWork() || (!Dirty(r) && work == WorkOf(r))
    ensures Backed(r, work, None)
  {
    if work != NoWork() {
      forall files ensures Present(files, work) {
        NothingToLose(r, files);
      }
    }
  }

  // ---------- carrying the work along ----------

  // The checkout came to another commit with the same local work, and clean if it was clean.
  ghost predicate CarriedAlong(start: Repo, r: Repo) {
    && HeadId(r).Some? && HeadId(r).value in r.objects
    && SameEdits(start, r) && (!Dirty(start) ==> !Dirty(r))
  }

  lemma FetchCarries(start: Repo, r: Repo)
    requires HeadId(start).Some? && HeadId(start).value in start.objects && StillAt(start, r)
    ensures CarriedAlong(start, r)
  {
    SameWork(start, r);
  }

  lemma MoveCarries(r: Repo, after: Repo)
    requires HeadId(after).Some? && HeadId(after).value in after.objects
    requires CanMove(r, HeadTree(after)) && MovedTo(r, after, HeadTree(after))
    ensures CarriedAlong(r, after)
  {
    MoveKeepsWork(r, after, HeadTree(after));
    MoveStaysClean(HeadTree(r), HeadTree(after));
  }

  lemma CarriedFurther(start: Repo, middle: Repo, r: Repo)
    requires CarriedAlong(start, middle) && CarriedAlong(middle, r)
    ensures CarriedAlong(start, r)
  {
    SameEditsFurther(start, middle, r);
  }

  // A merge moves the branch on, or it breaks off and moves nothing.
  lemma MergedIsOnTo(r: Repo, after: Repo, branch: string, ok: bool)
    requires Tip(r, branch).Some?
    requires if ok then OnTo(r, after, branch) else after == r.(index := after.index, files := after.files)
    ensures OnTo(r, after, branch)
  {
    if !ok {
      QuietIsOnTo(r, after, branch);
    }
  }

  lemma FetchCarriesFurther(start: Repo, middle: Repo, r: Repo)
    requires StillAt(middle, r)
    ensures CarriedAlong(start, middle) ==> CarriedAlong(start, r)
  {
    if CarriedAlong(start, middle) {
      FetchCarries(middle, r);
      CarriedFurther(start, middle, r);
    }
  }

  // Fetches first, and then a synchronization of the same work.
  lemma FetchedThenSynced(start: Repo, before: seq<Repo>, middle: Repo, between: seq<Repo>, end: Repo, after: seq<Repo>,
                          work: Work, branch: string, excuse: Excuse)
    requires Kept(start, before, between, middle, WorkOf(start)) && HasHead(start) && StillAt(start, middle)
    requires Tip(start, branch).Some? && (work == WorkOf(start) || work == NoWork())
    requires KeptForward(middle, between, after, end, work, branch, excuse)
    ensures KeptForward(start, before, after, end, work, branch, excuse)
    ensures OnTo(middle, end, branch) ==> OnTo(start, end, branch)
  {
    KeptLess(start, before, between, middle, WorkOf(start), work);
    QuietFirst(start, before, middle, between, end, after, work, branch, excuse);
    MoveIsOnTo(start, middle, end, branch);
  }
}
