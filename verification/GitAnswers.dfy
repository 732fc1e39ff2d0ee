/** The answers that a synchronization relies on can be given, whatever the history. */
module GitAnswers {
  import opened Options
  import opened Repositories
  import opened WorkspaceSync

  ghost function Base(objects: Objects, a: Id, b: Id): Option<Id> {
    if Ancestor(objects, a, b) then Some(a) else None
  }

  // The ancestors of a commit below a bound.
  ghost function Listed(objects: Objects, id: Id, bound: nat): seq<Id> {
    if bound == 0 then []
    else Listed(objects, id, bound - 1) + if Ancestor(objects, bound - 1, id) then [bound - 1] else []
  }

  lemma {:induction false} ListedMeans(objects: Objects, id: Id, bound: nat, a: Id)
    ensures a in Listed(objects, id, bound) <==> a < bound && Ancestor(objects, a, id)
  {
    if bound == 0 {
    } else {
      ListedMeans(objects, id, bound - 1, a);
    }
  }

  // A number above all given ones.
  ghost function Above(ids: set<Id>): (n: Id)
    ensures forall id :: id in ids ==> id < n
    decreases |ids|
  {
    if ids == {} then 0
    else
      var id :| id in ids;
      var others := Above(ids - {id});
      assert forall other :: other in ids ==> other == id || other in ids - {id};
      if id < others then others else id + 1
  }

  ghost function Name(objects: Objects, commit: Commit): (id: Id)
    ensures MayBeNamed(objects, commit, id)
  {
    var taken := objects.Keys + set p | p in commit.parents;
    assert forall i :: 0 <= i < |commit.parents| ==> commit.parents[i] in taken;
    Above(taken)
  }

  /** For every history there are a merge base, a log and a name as they are asked for: what is proved of
      synchronizations is not proved of nothing. */
  lemma SoundAnswersExist() returns (git: Git)
    ensures git.Sound()
  {
    git := Git((o, a, b) => Base(o, a, b), (o, id) => Listed(o, id, id + 1), (o, commit) => Name(o, commit));
    forall o, a, b ensures IsMergeAnswer(o, a, b, git.mergeBase(o, a, b)) {
      if Ancestor(o, a, b) {
        AncestorIsMergeBase(o, a, b);
      }
    }
    forall o, id: Id, a: Id ensures a in git.log(o, id) <==> Ancestor(o, a, id) {
      ListedMeans(o, id, id + 1, a);
      if Ancestor(o, a, id) {
        AncestorComesFirst(o, a, id);
      }
    }
  }
}
