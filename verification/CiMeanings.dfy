/** What the normal form of a check row and the status of a snapshot say of the rows and views that were read. */
module CiMeanings {
  import opened Options
  import opened PythonText
  import opened CheckRows
  import opened Observation
  import opened Waiting

  // ---------- rows ----------

  // The field has that text, once it is stripped.
  ghost predicate Has(f: Field, text: string) {
    f.Text? && text != "" && Strip(f.s) == text
  }

  ghost predicate Blank(f: Field) {
    forall text :: !Has(f, text)
  }

  lemma TextMeans(f: Field)
    ensures NonEmptyText(f) == None <==> Blank(f)
    ensures forall text :: NonEmptyText(f) == Some(text) <==> Has(f, text)
  {
    if NonEmptyText(f).Some? {
      assert Has(f, Strip(f.s));
    }
  }

  // The field says the word, in either case and with dashes or underscores.
  ghost predicate Reads(f: Field, word: string) {
    exists text :: Has(f, text) && Underscored(Upper(text)) == word
  }

  // The field that has the state of a row: its status only where there is no state.
  ghost function StateField(row: Raw): Field
    requires row.Row?
  {
    if row.state.Absent? then row.status else row.state
  }

  // The row says that it is over, or nothing, so that its conclusion counts.
  ghost predicate IsOver(row: Raw)
    requires row.Row?
  {
    || Blank(StateField(row))
    || Reads(StateField(row), "COMPLETED") || Reads(StateField(row), "COMPLETE") || Reads(StateField(row), "DONE")
  }

  ghost predicate Reports(row: Raw, word: string)
    requires row.Row?
  {
    if IsOver(row) then Reads(row.conclusion, word) else Reads(StateField(row), word)
  }

  /** The state of a row is its conclusion when it is over, and what it says otherwise; both spellings of cancelled
      are one. */
  lemma StateMeans(row: Raw, state: string)
    requires row.Row?
    ensures CheckState(row) == Some(state) <==>
            if state == "CANCELLED" then Reports(row, "CANCELLED") || Reports(row, "CANCELED")
            else state != "CANCELED" && Reports(row, state)
  {
    ReadsWord(StateField(row));
    ReadsWord(row.conclusion);
    hide Reads, Upper, Underscored, NonEmptyText, Has;
  }

  // What a field says, if anything.
  ghost function Said(f: Field): Option<string> {
    var text := NonEmptyText(f);
    if text.Some? then Some(Underscored(Upper(text.value))) else None
  }

  lemma ReadsWord(f: Field)
    ensures forall word :: Reads(f, word) <==> Said(f) == Some(word)
    ensures Blank(f) <==> Said(f).None?
  {
    TextMeans(f);
  }

  // The text of the first field that has one.
  ghost predicate FirstText(fields: seq<Field>, text: Option<string>) {
    if text.None? then forall i :: 0 <= i < |fields| ==> Blank(fields[i])
    else exists i :: 0 <= i < |fields| && Has(fields[i], text.value) && forall j :: 0 <= j < i ==> Blank(fields[j])
  }

  function FirstOf(fields: seq<Field>): Option<string> {
    if fields == [] then None else Or(NonEmptyText(fields[0]), FirstOf(fields[1..]))
  }

  lemma {:induction false} FirstTextMeans(fields: seq<Field>, text: Option<string>)
    ensures FirstText(fields, text) <==> FirstOf(fields) == text
  {
    if fields == [] {
    } else {
      TextMeans(fields[0]);
      FirstTextMeans(fields[1..], text);
      FirstTextCons(fields, text);
      hide FirstText, Has, Blank;
    }
  }

  lemma FirstTextCons(fields: seq<Field>, text: Option<string>)
    requires fields != []
    ensures FirstText(fields, text) <==>
            || (text.Some? && Has(fields[0], text.value))
            || (Blank(fields[0]) && FirstText(fields[1..], text))
  {
    if text.Some? {
      if Has(fields[0], text.value) {
        assert FirstText(fields, text);
      } else if i :| 0 <= i < |fields| && Has(fields[i], text.value) && forall j :: 0 <= j < i ==> Blank(fields[j]) {
        assert fields[1..][i - 1] == fields[i];
        assert forall j :: 0 <= j < i - 1 ==> fields[1..][j] == fields[j + 1];
      }
      if i :| 0 <= i < |fields[1..]| && Has(fields[1..][i], text.value)
              && forall j :: 0 <= j < i ==> Blank(fields[1..][j]) {
        assert Blank(fields[0]) ==> forall j :: 0 < j < i + 1 ==> fields[j] == fields[1..][j - 1];
        assert fields[i + 1] == fields[1..][i];
      }
    } else {
      assert (forall i :: 0 <= i < |fields[1..]| ==> Blank(fields[1..][i])) ==>
               forall i :: 0 < i < |fields| ==> Blank(fields[i]) by {
        assert forall i :: 0 < i < |fields| ==> fields[i] == fields[1..][i - 1];
      }
      assert (forall i :: 0 <= i < |fields| ==> Blank(fields[i])) ==>
               forall i :: 0 <= i < |fields[1..]| ==> Blank(fields[1..][i]);
    }
  }

  // The type that a row names: the first of three members that is not empty, or the last of them.
  ghost predicate NamesType(row: Raw, f: Field)
    requires row.Row?
  {
    if row.typename.Other? || (row.typename.Text? && row.typename.s != "") then f == row.typename
    else if row.type_.Other? || (row.type_.Text? && row.type_.s != "") then f == row.type_
    else f == row.kind
  }

  // What kind of check a row is: the one it names or, when it names none, by the member that has its name.
  ghost predicate IsKind(row: Raw, source: Source, kind: string)
    requires row.Row?
  {
    forall f :: NamesType(row, f) ==>
      if f != Absent then f == Text(kind) && kind in {"CheckRun", "StatusContext"}
      else if !Blank(row.context) then kind == "StatusContext"
      else kind == "CheckRun" && (source.Checks? || !Blank(row.name))
  }

  lemma KindMeans(row: Raw, source: Source, kind: string)
    requires row.Row?
    ensures IsKind(row, source, kind) <==> CheckKind(row, source) == Some(kind)
  {
    TextMeans(row.context);
    TextMeans(row.name);
    var f := if Truthy(row.typename) then row.typename else if Truthy(row.type_) then row.type_ else row.kind;
    assert NamesType(row, f) && forall g :: NamesType(row, g) ==> g == f;
    hide Blank, Has, NonEmptyText, NamesType;
  }

  // What tells a row from others of its name: its link, or else its workflow, or else, for a status, its context.
  ghost predicate IsRef(kind: string, c: Check, ref: string) {
    if c.link.Some? then ref == c.link.value
    else if c.workflow.Some? then ref == "workflow:" + c.workflow.value
    else kind == "StatusContext" && ref == "context:" + c.name
  }

  predicate IsPending(state: string) {
    state in {"PENDING", "QUEUED", "IN_PROGRESS", "WAITING", "REQUESTED", "EXPECTED"}
  }

  predicate IsFailure(state: string) {
    state in {"ACTION_REQUIRED", "CANCELLED", "ERROR", "FAILURE", "NEUTRAL", "SKIPPED", "STALE", "STARTUP_FAILURE",
              "TIMED_OUT"}
  }

  // The bucket that belongs to a state.
  ghost predicate BelongsTo(bucket: string, state: string) {
    match bucket
    case "pending" => IsPending(state)
    case "pass" => state == "SUCCESS"
    case "skipping" => state == "NEUTRAL" || state == "SKIPPED"
    case "fail" => IsFailure(state) && state != "NEUTRAL" && state != "SKIPPED"
    case _ => false
  }

  // A bucket that comes with the row must be the one of its state; a cancelled row may also say so.
  ghost predicate BucketAgrees(f: Field, c: Check) {
    || f.Absent?
    || exists text :: Has(f, text) && (Lower(text) == c.bucket || (c.state == "CANCELLED" && Lower(text) == "cancel"))
  }

  // The row is this check.
  ghost predicate IsCheck(row: Raw, source: Source, c: Check) {
    && row.Row?
    && (exists kind, ref :: IsKind(row, source, kind) && IsRef(kind, c, ref)
                            && c.identity == kind + "|" + c.name + "|" + ref)
    && FirstText([row.name, row.context], Some(c.name))
    && FirstText([row.link, row.detailsUrl, row.targetUrl, row.url, row.htmlUrl], c.link)
    && FirstText([row.workflow, row.workflowName], c.workflow)
    && (if c.state == "CANCELLED" then Reports(row, "CANCELLED") || Reports(row, "CANCELED") else Reports(row, c.state))
    && BelongsTo(c.bucket, c.state) && BucketAgrees(row.bucket, c)
  }

  lemma BucketMeans(state: string, bucket: string)
    ensures BelongsTo(bucket, state) <==>
            (state in NON_TERMINAL_STATES || state in TERMINAL_STATES) && bucket == CanonicalBucket(state)
  {
  }

  lemma AgreesMeans(f: Field, c: Check)
    requires c.bucket == CanonicalBucket(c.state)
    ensures BucketAgrees(f, c) <==> BucketProblem(f, c.state).None?
  {
    TextMeans(f);
    if NonEmptyText(f).Some? {
      assert Has(f, NonEmptyText(f).value);
    }
    hide Has;
  }

  lemma FirstOfFew(a: Field, b: Field, c: Field, d: Field, e: Field)
    ensures FirstOf([a, b]) == Or(NonEmptyText(a), NonEmptyText(b))
    ensures FirstOf([a, b, c, d, e]) ==
            Or(NonEmptyText(a), Or(NonEmptyText(b), Or(NonEmptyText(c), Or(NonEmptyText(d), NonEmptyText(e)))))
  {
    hide NonEmptyText;
    assert [a, b, c, d, e][1..] == [b, c, d, e] && [b, c, d, e][1..] == [c, d, e] && [c, d, e][1..] == [d, e];
    assert [d, e][1..] == [e] && [e][1..] == [] && [a, b][1..] == [b] && [b][1..] == [];
    assert FirstOf([e]) == NonEmptyText(e) && FirstOf([b]) == NonEmptyText(b);
    assert FirstOf([d, e]) == Or(NonEmptyText(d), NonEmptyText(e));
    assert FirstOf([c, d, e]) == Or(NonEmptyText(c), FirstOf([d, e]));
    assert FirstOf([b, c, d, e]) == Or(NonEmptyText(b), FirstOf([c, d, e]));
  }

  /** A row is accepted exactly as the check that it is. */
  lemma CheckMeans(row: Raw, source: Source, c: Check)
    ensures Normalize(row, source) == Ok(c) <==> IsCheck(row, source, c)
  {
    if row.Row? {
      FirstTextMeans([row.name, row.context], Some(c.name));
      FirstTextMeans([row.link, row.detailsUrl, row.targetUrl, row.url, row.htmlUrl], c.link);
      FirstTextMeans([row.workflow, row.workflowName], c.workflow);
      FirstOfFew(row.name, row.context, Absent, Absent, Absent);
      FirstOfFew(row.link, row.detailsUrl, row.targetUrl, row.url, row.htmlUrl);
      FirstOfFew(row.workflow, row.workflowName, Absent, Absent, Absent);
      forall kind ensures IsKind(row, source, kind) <==> CheckKind(row, source) == Some(kind) {
        KindMeans(row, source, kind);
      }
      StateMeans(row, c.state);
      BucketMeans(c.state, c.bucket);
      if c.bucket == CanonicalBucket(c.state) {
        AgreesMeans(row.bucket, c);
      }
      SameParts(row, source, c);
    }
  }

  lemma SameParts(row: Raw, source: Source, c: Check)
    requires row.Row?
    requires FirstText([row.name, row.context], Some(c.name)) <==> Name(row) == Some(c.name)
    requires FirstText([row.link, row.detailsUrl, row.targetUrl, row.url, row.htmlUrl], c.link) <==> Link(row) == c.link
    requires FirstText([row.workflow, row.workflowName], c.workflow) <==>
             Or(NonEmptyText(row.workflow), NonEmptyText(row.workflowName)) == c.workflow
    requires forall kind :: IsKind(row, source, kind) <==> CheckKind(row, source) == Some(kind)
    requires CheckState(row) == Some(c.state) <==>
             if c.state == "CANCELLED" then Reports(row, "CANCELLED") || Reports(row, "CANCELED")
             else c.state != "CANCELED" && Reports(row, c.state)
    requires BelongsTo(c.bucket, c.state) <==>
             (c.state in NON_TERMINAL_STATES || c.state in TERMINAL_STATES) && c.bucket == CanonicalBucket(c.state)
    requires c.bucket == CanonicalBucket(c.state) ==>
               (BucketAgrees(row.bucket, c) <==> BucketProblem(row.bucket, c.state).None?)
    ensures Normalize(row, source) == Ok(c) <==> IsCheck(row, source, c)
  {
    hide FirstText, Name, Link, NonEmptyText, IsKind, CheckKind, CheckState, Reports, BelongsTo, CanonicalBucket;
    hide BucketAgrees, BucketProblem;
    if IsCheck(row, source, c) {
      var kind, ref :| IsKind(row, source, kind) && IsRef(kind, c, ref)
          && c.identity == kind + "|" + c.name + "|" + ref;
      assert StableRef(kind, c.name, c.link, c.workflow) == Some(ref);
    }
    if Normalize(row, source) == Ok(c) {
      var kind := CheckKind(row, source).value;
      var ref := StableRef(kind, c.name, c.link, c.workflow).value;
      assert IsKind(row, source, kind) && IsRef(kind, c, ref);
    }
  }

  // ---------- the checks of a snapshot ----------

  // Every check has one of the known states, and the bucket of its state.
  ghost predicate WellSorted(checks: CheckMap) {
    forall id :: id in checks ==> BelongsTo(checks[id].bucket, checks[id].state)
  }

  lemma ListIsSorted(rows: seq<Raw>, source: Source)
    requires NormalizeList(rows, source).Ok?
    ensures WellSorted(NormalizeList(rows, source).value)
  {
    ListHolds(rows, source);
    var checks := NormalizeList(rows, source).value;
    forall id | id in checks ensures BelongsTo(checks[id].bucket, checks[id].state) {
      assert HasRow(rows, source, checks, id);
      var row :| row in rows && Normalize(row, source) == Ok(checks[id]);
      CheckMeans(row, source, checks[id]);
    }
  }

  lemma EnforcedIsSorted(b: CheckMap, a: CheckMap, c: CheckMap, required: CheckMap, names: seq<string>)
    requires WellSorted(b) && WellSorted(required)
    requires MergeMaps(b, a).Ok? && MergeMaps(MergeMaps(b, a).value, c).Ok?
    requires Enforced(MergeMaps(MergeMaps(b, a).value, c).value, required, names).Ok?
    ensures WellSorted(Enforced(MergeMaps(MergeMaps(b, a).value, c).value, required, names).value)
  {
    MergeStaysSorted(b, a);
    MergeStaysSorted(MergeMaps(b, a).value, c);
    hide BelongsTo, MergeMaps;
  }

  lemma MergeStaysSorted(left: CheckMap, right: CheckMap)
    requires WellSorted(left) && MergeMaps(left, right).Ok?
    ensures WellSorted(MergeMaps(left, right).value)
  {
    hide BelongsTo;
  }

  lemma SnapshotIsSorted(r: Reads, names: seq<string>)
    ensures WellSorted(Observe(r, names).checks)
  {
    if Observe(r, names).status.Valid? {
      ValidMeans(r, names);
      var before, after := ViewParts(r.before).value, ViewParts(r.after).value;
      ReconciledIsSorted(before.rollup, after.rollup, r.checks.rows, RequiredRows(r.required).value, names, r.required);
    } else {
      assert Observe(r, names).checks == map[];
    }
  }

  lemma ReconciledIsSorted(before: seq<Raw>, after: seq<Raw>, checks: seq<Raw>, required: CheckMap, names: seq<string>,
                           asked: Rows)
    requires Reconcile(before, after, checks, required, names).Ok? && RequiredRows(asked) == Ok(required)
    ensures WellSorted(Reconcile(before, after, checks, required, names).value)
  {
    ListIsSorted(before, Rollup);
    if asked.Rows? {
      ListIsSorted(asked.rows, Checks);
    }
    EnforcedIsSorted(NormalizeList(before, Rollup).value, NormalizeList(after, Rollup).value,
                     NormalizeList(checks, Checks).value, required, names);
    hide WellSorted, MergeMaps, Enforced;
  }

  /** Every check of a snapshot is in exactly one of three groups: it succeeded, it is pending, or it failed, which
      includes every other end. */
  lemma ThreeGroups(r: Reads, names: seq<string>, id: string)
    requires id in Observe(r, names).checks
    ensures var s := Observe(r, names);
            var state := s.checks[id].state;
            && (id in PendingChecks(s) <==> IsPending(state))
            && (id in FailedChecks(s) <==> IsFailure(state))
            && (id !in PendingChecks(s) && id !in FailedChecks(s) <==> state == "SUCCESS")
            && !(id in PendingChecks(s) && id in FailedChecks(s))
  {
    SnapshotIsSorted(r, names);
    hide Observe;
    GroupOf(Observe(r, names), id);
  }

  lemma GroupOf(s: Snapshot, id: string)
    requires id in s.checks && BelongsTo(s.checks[id].bucket, s.checks[id].state)
    ensures var state := s.checks[id].state;
            && (id in PendingChecks(s) <==> IsPending(state))
            && (id in FailedChecks(s) <==> IsFailure(state))
            && (id !in PendingChecks(s) && id !in FailedChecks(s) <==> state == "SUCCESS")
            && !(id in PendingChecks(s) && id in FailedChecks(s))
  {
  }

  lemma GroupsAreChecks(s: Snapshot)
    ensures PendingChecks(s).Keys <= s.checks.Keys && FailedChecks(s).Keys <= s.checks.Keys
    ensures forall id :: id in PendingChecks(s) ==> PendingChecks(s)[id] == s.checks[id]
    ensures forall id :: id in FailedChecks(s) ==> FailedChecks(s)[id] == s.checks[id]
  {
  }

  /** The wait ends with failed checks exactly when an enforced check ended in any other way than success, whatever is
      pending beside it. */
  lemma FailureMeans(w: World, observed: nat -> Reads, names: seq<string>, i: nat)
    requires w.at(i) == Observe(observed(i), names)
    ensures EndAt(w, i) == Some(ChecksFailed) <==>
            w.at(i).status.Valid? && exists id :: id in w.at(i).checks && IsFailure(w.at(i).checks[id].state)
  {
    var s := w.at(i);
    GroupsAreChecks(s);
    forall id | id in s.checks ensures id in FailedChecks(s) <==> IsFailure(s.checks[id].state) {
      ThreeGroups(observed(i), names, id);
    }
    hide FailedChecks, PendingChecks, Observe, IsFailure;
    if FailedChecks(s) != map[] {
      var id :| id in FailedChecks(s);
      assert id in s.checks;
    }
  }

  /** Two observations agree when they are of one head, which can be merged alike, and have the same checks in the same
      states, with the same links and workflows. */
  lemma FingerprintMeans(s: Snapshot, t: Snapshot)
    ensures FingerprintOf(s) == FingerprintOf(t) <==>
            && s.head == t.head && s.mergeable == t.mergeable && s.mergeState == t.mergeState
            && s.checks.Keys == t.checks.Keys
            && forall id :: id in s.checks ==>
                 && s.checks[id].state == t.checks[id].state && s.checks[id].bucket == t.checks[id].bucket
                 && s.checks[id].link == t.checks[id].link && s.checks[id].workflow == t.checks[id].workflow
  {
    var a, b := FingerprintOf(s).checks, FingerprintOf(t).checks;
    assert a.Keys == s.checks.Keys && b.Keys == t.checks.Keys;
    if a == b {
      forall id | id in s.checks
        ensures s.checks[id].state == t.checks[id].state && s.checks[id].bucket == t.checks[id].bucket
        ensures s.checks[id].link == t.checks[id].link && s.checks[id].workflow == t.checks[id].workflow
      {
        assert a[id] == b[id];
      }
    }
  }

  // ---------- what is accepted ----------

  ghost predicate IsSomeCheck(row: Raw, source: Source) {
    exists c :: IsCheck(row, source, c)
  }

  ghost predicate Differ(x: Raw, y: Raw, source: Source) {
    forall c, d :: IsCheck(x, source, c) && IsCheck(y, source, d) ==> c.identity != d.identity
  }

  // Every row is a check, and no two of them have the same identity.
  ghost predicate Readable(rows: seq<Raw>, source: Source) {
    && (forall i :: 0 <= i < |rows| ==> IsSomeCheck(rows[i], source))
    && (forall i, j :: 0 <= i < j < |rows| ==> Differ(rows[i], rows[j], source))
  }

  // The identity of a row that is a check.
  ghost function IdOf(row: Raw, source: Source): Option<string> {
    var check := Normalize(row, source);
    if check.Ok? then Some(check.value.identity) else None
  }

  ghost predicate HasId(rows: seq<Raw>, source: Source, id: string) {
    exists i :: 0 <= i < |rows| && IdOf(rows[i], source) == Some(id)
  }

  ghost predicate DistinctIds(rows: seq<Raw>, source: Source) {
    && (forall i :: 0 <= i < |rows| ==> IdOf(rows[i], source).Some?)
    && (forall i, j :: 0 <= i < j < |rows| ==> IdOf(rows[i], source) != IdOf(rows[j], source))
  }

  lemma OneMoreId(rows: seq<Raw>, source: Source)
    requires rows != []
    ensures var n := |rows| - 1;
            && (DistinctIds(rows, source) <==>
                && DistinctIds(rows[..n], source) && IdOf(rows[n], source).Some?
                && !HasId(rows[..n], source, IdOf(rows[n], source).value))
            && forall id :: HasId(rows, source, id) <==>
                 HasId(rows[..n], source, id) || IdOf(rows[n], source) == Some(id)
  {
    hide IdOf;
    var n := |rows| - 1;
    assert forall i :: 0 <= i < n ==> rows[..n][i] == rows[i];
    forall id ensures HasId(rows, source, id) <==> HasId(rows[..n], source, id) || IdOf(rows[n], source) == Some(id) {
      if i :| 0 <= i < n && IdOf(rows[..n][i], source) == Some(id) {
        assert IdOf(rows[i], source) == Some(id);
      }
      if i :| 0 <= i < |rows| && IdOf(rows[i], source) == Some(id) {
        assert i < n ==> IdOf(rows[..n][i], source) == Some(id);
      }
    }
  }

  lemma {:induction false} ListHasIds(rows: seq<Raw>, source: Source)
    ensures NormalizeList(rows, source).Ok? <==> DistinctIds(rows, source)
    ensures NormalizeList(rows, source).Ok? ==>
              forall id :: id in NormalizeList(rows, source).value <==> HasId(rows, source, id)
  {
    if rows == [] {
    } else {
      ListHasIds(rows[..|rows| - 1], source);
      OneMoreId(rows, source);
      hide HasId, DistinctIds, Normalize;
    }
  }

  lemma ListIsReadable(rows: seq<Raw>, source: Source)
    ensures NormalizeList(rows, source).Ok? <==> Readable(rows, source)
  {
    ListHasIds(rows, source);
    forall i | 0 <= i < |rows| ensures IdOf(rows[i], source).Some? <==> IsSomeCheck(rows[i], source) {
      IdMeans(rows[i], source);
    }
    forall i, j | 0 <= i < j < |rows| && IsSomeCheck(rows[i], source) && IsSomeCheck(rows[j], source)
      ensures IdOf(rows[i], source) != IdOf(rows[j], source) <==> Differ(rows[i], rows[j], source)
    {
      DifferMeans(rows[i], rows[j], source);
    }
    hide IsSomeCheck, Differ, IdOf, NormalizeList;
  }

  lemma IdMeans(row: Raw, source: Source)
    ensures IdOf(row, source).Some? <==> IsSomeCheck(row, source)
    ensures forall c :: IsCheck(row, source, c) ==> IdOf(row, source) == Some(c.identity)
  {
    forall c ensures Normalize(row, source) == Ok(c) <==> IsCheck(row, source, c) {
      CheckMeans(row, source, c);
    }
    hide IsCheck, Normalize;
    if IdOf(row, source).Some? {
      assert IsCheck(row, source, Normalize(row, source).value);
    }
  }

  lemma DifferMeans(x: Raw, y: Raw, source: Source)
    requires IsSomeCheck(x, source) && IsSomeCheck(y, source)
    ensures IdOf(x, source) != IdOf(y, source) <==> Differ(x, y, source)
  {
    IdMeans(x, source);
    IdMeans(y, source);
    hide IsCheck, IdOf;
    var c :| IsCheck(x, source, c);
    var d :| IsCheck(y, source, d);
  }

  // The two maps have the same identities, in the same states.
  ghost predicate SameStates(a: CheckMap, b: CheckMap) {
    a.Keys == b.Keys && forall id :: id in a ==> a[id].state == b[id].state && a[id].bucket == b[id].bucket
  }

  /** The reads are reconciled exactly when each list is readable, all have the same identities in the same states, the
      required rows are among them in the same states, and each policy name is the name of a row of the first view. */
  lemma ReconcileIff(before: seq<Raw>, after: seq<Raw>, checks: seq<Raw>, required: CheckMap, names: seq<string>)
    ensures Reconcile(before, after, checks, required, names).Ok? <==>
            && Readable(before, Rollup) && Readable(after, Rollup) && Readable(checks, Checks)
            && var b, a := NormalizeList(before, Rollup), NormalizeList(after, Rollup);
               var c := NormalizeList(checks, Checks);
               && b.Ok? && a.Ok? && c.Ok? && SameStates(b.value, a.value) && SameStates(b.value, c.value)
               && required.Keys <= b.value.Keys
               && (forall id :: id in required ==> SameState(b.value[id], required[id]))
               && (forall name :: name in names ==> HasName(b.value, name))
  {
    ListIsReadable(before, Rollup);
    ListIsReadable(after, Rollup);
    ListIsReadable(checks, Checks);
    var b, a, c := NormalizeList(before, Rollup), NormalizeList(after, Rollup), NormalizeList(checks, Checks);
    hide Readable, NormalizeList;
    if b.Ok? && a.Ok? && c.Ok? {
      MergeIff(b.value, a.value);
      if MergeMaps(b.value, a.value).Ok? {
        var rollup := MergeMaps(b.value, a.value).value;
        MergeIff(rollup, c.value);
        if MergeMaps(rollup, c.value).Ok? {
          EnforceIff(MergeMaps(rollup, c.value).value, b.value, required, names);
        }
        hide MergeMaps, Enforced;
      }
    }
  }

  ghost predicate HasName(checks: CheckMap, name: string) {
    exists id :: id in checks && checks[id].name == name
  }

  lemma MergeIff(left: CheckMap, right: CheckMap)
    ensures MergeMaps(left, right).Ok? <==> SameStates(left, right)
    ensures MergeMaps(left, right).Ok? ==> SameNames(MergeMaps(left, right).value, left)
  {
  }

  // The row of the first read, with what it does not say of its link and workflow taken from the second.
  ghost predicate CompletedBy(merged: Check, first: Check, second: Check) {
    && merged.identity == first.identity && merged.name == first.name
    && merged.state == first.state && merged.bucket == first.bucket
    && merged.link == (if first.link.None? then second.link else first.link)
    && merged.workflow == (if first.workflow.None? then second.workflow else first.workflow)
  }

  /** Merging loses nothing that either read says of a row. */
  lemma MergedRows(left: CheckMap, right: CheckMap, id: string)
    requires MergeMaps(left, right).Ok? && id in left
    ensures id in right && id in MergeMaps(left, right).value
    ensures CompletedBy(MergeMaps(left, right).value[id], left[id], right[id])
  {
  }

  lemma RequiredRowsMerged(rollup: CheckMap, required: CheckMap, id: string)
    requires MergeRequired(rollup, required).Ok? && id in required
    ensures id in rollup && id in MergeRequired(rollup, required).value
    ensures CompletedBy(MergeRequired(rollup, required).value[id], rollup[id], required[id])
  {
  }

  // The same identities, under the same names and in the same states.
  ghost predicate SameNames(a: CheckMap, b: CheckMap) {
    SameStates(a, b) && forall id :: id in a ==> a[id].name == b[id].name
  }

  lemma EnforceIff(all: CheckMap, b: CheckMap, required: CheckMap, names: seq<string>)
    requires SameNames(all, b)
    ensures Enforced(all, required, names).Ok? <==>
            && required.Keys <= b.Keys && (forall id :: id in required ==> SameState(b[id], required[id]))
            && (forall name :: name in names ==> HasName(b, name))
  {
    PolicyIff(all, b, names);
    if SelectPolicy(all, names).Ok? {
      var policy := SelectPolicy(all, names).value;
      assert MergeRequired(all, policy).Ok?;
      RequiredIff(all, b, required);
      if MergeRequired(all, required).Ok? {
        NoMismatch(all, policy, required);
      }
    }
    hide MergeRequired, SelectPolicy;
  }

  lemma PolicyIff(all: CheckMap, b: CheckMap, names: seq<string>)
    requires SameNames(all, b)
    ensures SelectPolicy(all, names).Ok? <==>
            forall name :: name in names ==> HasName(b, name)
    ensures SelectPolicy(all, names).Ok? ==>
              forall id :: id in SelectPolicy(all, names).value ==>
                id in all && SelectPolicy(all, names).value[id] == all[id]
  {
    forall name ensures Named(all, name) <==> HasName(b, name) {
      if Named(all, name) {
        var id :| id in all && all[id].name == name;
        assert id in b && b[id].name == name;
      }
      if HasName(b, name) {
        var id :| id in b && b[id].name == name;
        assert id in all && all[id].name == name;
      }
    }
    hide Named, HasName;
    assert SelectPolicy(all, names).Ok? <==> forall i :: 0 <= i < |names| ==> Named(all, names[i]);
    if forall i :: 0 <= i < |names| ==> Named(all, names[i]) {
      forall name | name in names ensures HasName(b, name) {
        var i :| 0 <= i < |names| && names[i] == name;
        assert Named(all, names[i]);
      }
    }
  }

  lemma RequiredIff(all: CheckMap, b: CheckMap, required: CheckMap)
    requires SameNames(all, b)
    ensures MergeRequired(all, required).Ok? <==>
            required.Keys <= b.Keys && forall id :: id in required ==> SameState(b[id], required[id])
  {
  }

  lemma NoMismatch(all: CheckMap, policy: CheckMap, required: CheckMap)
    requires MergeRequired(all, policy).Ok? && MergeRequired(all, required).Ok?
    requires forall id :: id in policy ==> id in all && policy[id] == all[id]
    ensures forall id :: id in MergeRequired(all, policy).value && id in MergeRequired(all, required).value ==>
              SameState(MergeRequired(all, policy).value[id], MergeRequired(all, required).value[id])
  {
  }

  // ---------- views ----------

  // A stripped field in capitals, and one of the known words.
  ghost predicate SaysOneOf(f: Field, words: set<string>, word: string) {
    word in words && exists text :: Has(f, text) && Upper(text) == word
  }

  /** The view is of the open pull request, and says where it is and whether it can be merged. */
  ghost predicate Tells(v: View, p: Parts) {
    && v.View? && v.numberMatches && Has(v.state, "OPEN") && Has(v.head, p.head) && v.rollup == Some(p.rollup)
    && SaysOneOf(v.mergeable, {"CONFLICTING", "MERGEABLE"}, p.mergeable)
    && (if v.hasMergeState then
          SaysOneOf(v.mergeState, {"BEHIND", "BLOCKED", "CLEAN", "DIRTY", "DRAFT", "HAS_HOOKS", "UNSTABLE"},
                    p.mergeState)
        else p.mergeState == "")
    && (p.mergeable == "CONFLICTING" ==> p.mergeState in {"", "DIRTY"})
  }

  lemma SaysMeans(f: Field, words: set<string>, word: string)
    ensures SaysOneOf(f, words, word) <==>
              NonEmptyText(f).Some? && Upper(NonEmptyText(f).value) == word && word in words
  {
    TextMeans(f);
  }

  lemma ViewMeans(v: View, p: Parts)
    ensures ViewParts(v) == Ok(p) <==> Tells(v, p)
  {
    if v.View? {
      TextMeans(v.state);
      TextMeans(v.head);
      SaysMeans(v.mergeable, {"CONFLICTING", "MERGEABLE"}, p.mergeable);
      SaysMeans(v.mergeState, {"BEHIND", "BLOCKED", "CLEAN", "DIRTY", "DRAFT", "HAS_HOOKS", "UNSTABLE"}, p.mergeState);
    }
    hide NonEmptyText, Has, SaysOneOf, Upper;
  }

  // The two views agree on the head and on whether it can be merged.
  ghost predicate Agree(before: Parts, after: Parts) {
    before.head == after.head && before.mergeable == after.mergeable && before.mergeState == after.mergeState
  }

  ghost predicate IsMergedView(v: View) {
    v.View? && v.numberMatches && Has(v.state, "MERGED")
  }

  lemma ReadsMean(r: Reads)
    ensures MergedView(r.after) <==> IsMergedView(r.after)
    ensures forall p :: ViewParts(r.before) == Ok(p) <==> Tells(r.before, p)
    ensures forall p :: ViewParts(r.after) == Ok(p) <==> Tells(r.after, p)
  {
    if r.after.View? {
      TextMeans(r.after.state);
    }
    forall p ensures ViewParts(r.before) == Ok(p) <==> Tells(r.before, p) {
      ViewMeans(r.before, p);
    }
    forall p ensures ViewParts(r.after) == Ok(p) <==> Tells(r.after, p) {
      ViewMeans(r.after, p);
    }
  }

  /** When the pull request counts as merged or as conflicting. */
  lemma StatusMeans(r: Reads, names: seq<string>)
    ensures Observe(r, names).status.Merged? <==> IsMergedView(r.after)
    ensures Observe(r, names).status.Conflicting? <==>
            && !IsMergedView(r.after)
            && exists before, after :: Tells(r.before, before) && Tells(r.after, after) && Agree(before, after)
                                       && before.mergeable == "CONFLICTING"
  {
    ReadsMean(r);
    hide IsMergedView, MergedView, Tells, ViewParts, Reconcile, RequiredRows;
    if Observe(r, names).status.Conflicting? {
      assert Tells(r.before, ViewParts(r.before).value) && Tells(r.after, ViewParts(r.after).value);
    }
  }

  lemma OpenIsMergeable(r: Reads)
    requires ViewParts(r.before).Ok?
    ensures ViewParts(r.before).value.mergeable in {"CONFLICTING", "MERGEABLE"}
  {
    ViewMeans(r.before, ViewParts(r.before).value);
  }

  lemma OpenHasNoChecks(r: Reads, names: seq<string>)
    requires ViewParts(r.before).Ok? && ViewParts(r.after).Ok?
    ensures var before, after := ViewParts(r.before).value, ViewParts(r.after).value;
            Observe(r, names).status.NoChecks? <==>
            && !MergedView(r.after) && Agree(before, after) && before.mergeable != "CONFLICTING"
            && RequiredRows(r.required).Ok? && (r.checks.Empty? || r.checks == Rows([]))
            && before.rollup == [] && after.rollup == []
  {
    hide ViewParts, MergedView, RequiredRows, Reconcile, HeadHint, Unread;
  }

  lemma UnreadHasChecks(r: Reads, names: seq<string>)
    requires ViewParts(r.before).Rejected? || ViewParts(r.after).Rejected?
    ensures !Observe(r, names).status.NoChecks?
  {
    hide ViewParts, MergedView, RequiredRows, Reconcile, HeadHint, Unread;
  }

  /** When it counts as having no checks: both views agree that it is open and mergeable, what is required could be
      read, and every list of checks is empty. */
  lemma NoChecksMeans(r: Reads, names: seq<string>)
    ensures Observe(r, names).status.NoChecks? <==>
            && !IsMergedView(r.after) && RequiredRows(r.required).Ok? && (r.checks.Empty? || r.checks == Rows([]))
            && exists before, after :: Tells(r.before, before) && Tells(r.after, after) && Agree(before, after)
                                       && before.mergeable == "MERGEABLE" && before.rollup == [] && after.rollup == []
  {
    ReadsMean(r);
    hide IsMergedView, MergedView, Tells, ViewParts, Reconcile, RequiredRows, Unread, HeadHint, Observe, ObserveChecks;
    if ViewParts(r.before).Ok? && ViewParts(r.after).Ok? {
      OpenHasNoChecks(r, names);
      OpenIsMergeable(r);
    } else {
      UnreadHasChecks(r, names);
    }
  }

  /** The rows that GitHub requires are read from a list, or it reports that there are none. */
  lemma RequiredMeans(r: Rows)
    ensures RequiredRows(r).Ok? <==> r.Empty? || (r.Rows? && Readable(r.rows, Checks))
    ensures RequiredRows(r).Ok? ==> RequiredRows(r) == if r.Empty? then Ok(map[]) else NormalizeList(r.rows, Checks)
  {
    if r.Rows? {
      ListIsReadable(r.rows, Checks);
    }
    hide Readable, NormalizeList;
  }

  lemma OpenIsValid(r: Reads, names: seq<string>)
    requires ViewParts(r.before).Ok? && ViewParts(r.after).Ok?
    ensures var before, after := ViewParts(r.before).value, ViewParts(r.after).value;
            Observe(r, names).status.Valid? <==>
            && !MergedView(r.after) && Agree(before, after) && before.mergeable != "CONFLICTING"
            && RequiredRows(r.required).Ok? && r.checks.Rows? && r.checks.rows != []
            && before.rollup != [] && after.rollup != []
            && Reconcile(before.rollup, after.rollup, r.checks.rows, RequiredRows(r.required).value, names).Ok?
  {
    hide ViewParts, MergedView, RequiredRows, Reconcile, HeadHint, Unread;
  }

  lemma UnreadIsNotValid(r: Reads, names: seq<string>)
    requires ViewParts(r.before).Rejected? || ViewParts(r.after).Rejected?
    ensures !Observe(r, names).status.Valid?
  {
    hide ViewParts, MergedView, RequiredRows, Reconcile, HeadHint, Unread;
  }

  /** When a snapshot is valid: both views agree that the pull request is open and mergeable on one head, every list has
      rows, and the reads are reconciled. */
  lemma ValidIff(r: Reads, names: seq<string>)
    ensures Observe(r, names).status.Valid? <==>
            && !IsMergedView(r.after) && RequiredRows(r.required).Ok? && r.checks.Rows? && r.checks.rows != []
            && exists before, after ::
                 && Tells(r.before, before) && Tells(r.after, after) && Agree(before, after)
                 && before.mergeable == "MERGEABLE" && before.rollup != [] && after.rollup != []
                 && Reconcile(before.rollup, after.rollup, r.checks.rows, RequiredRows(r.required).value, names).Ok?
  {
    ReadsMean(r);
    hide IsMergedView, MergedView, Tells, ViewParts, Reconcile, RequiredRows, Observe, ObserveChecks;
    if ViewParts(r.before).Ok? && ViewParts(r.after).Ok? {
      OpenIsValid(r, names);
      OpenIsMergeable(r);
    } else {
      UnreadIsNotValid(r, names);
    }
  }

  // The head that a view tells, if it does.
  ghost predicate TellsHead(v: View, head: string) {
    v.View? && Has(v.head, head)
  }

  /** A snapshot is of the head of the later view, and otherwise of the earlier one. */
  lemma HeadMeans(r: Reads, names: seq<string>, head: string)
    ensures TellsHead(r.after, head) ==> Observe(r, names).head == head
    ensures TellsHead(r.before, head) && (forall h :: !TellsHead(r.after, h)) && !IsMergedView(r.after) ==>
              Observe(r, names).head == head
  {
    ReadsMean(r);
    HintMeans(r.before, head);
    HintMeans(r.after, head);
    hide IsMergedView, MergedView, TellsHead, HeadHint, ViewParts, Reconcile, RequiredRows, Unread;
  }

  lemma HintMeans(v: View, head: string)
    ensures TellsHead(v, head) ==> HeadHint(v) == head != ""
    ensures (forall h :: !TellsHead(v, h)) ==> HeadHint(v) == ""
  {
    if v.View? {
      TextMeans(v.head);
      if NonEmptyText(v.head).Some? {
        assert TellsHead(v, NonEmptyText(v.head).value);
      }
    }
  }

  // ---------- the lookup ----------

  ghost predicate IsState(f: Field, state: PrState) {
    f == Text(match state case Open => "OPEN" case Merged => "MERGED" case Closed => "CLOSED")
  }

  // The entry has a number and a known state.
  ghost predicate IsPr(raw: RawPr, pr: Pr) {
    raw.number == Some(pr.number) && IsState(raw.state, pr.state)
  }

  ghost predicate IsSomePr(raw: RawPr) {
    exists pr :: IsPr(raw, pr)
  }

  lemma EntryMeans(raw: RawPr)
    ensures IsSomePr(raw) <==> raw.number.Some? && ParseState(raw.state).Some?
    ensures IsSomePr(raw) ==> IsPr(raw, Pr(raw.number.value, ParseState(raw.state).value))
  {
    if raw.number.Some? && ParseState(raw.state).Some? {
      assert IsPr(raw, Pr(raw.number.value, ParseState(raw.state).value));
    }
  }

  /** A list of pull requests is used when each entry has a number and a known state, entry by entry; an empty one is an
      answer, and anything else a failure. */
  lemma ListMeans(r: ListRead)
    ensures ListPrs(r).NotFound? <==> r == List([])
    ensures ListPrs(r).Found? <==> r.List? && r.prs != [] && forall i :: 0 <= i < |r.prs| ==> IsSomePr(r.prs[i])
    ensures ListPrs(r).Found? ==>
              |ListPrs(r).prs| == |r.prs| && forall i :: 0 <= i < |r.prs| ==> IsPr(r.prs[i], ListPrs(r).prs[i])
  {
    if r.List? {
      forall i | 0 <= i < |r.prs|
        ensures IsSomePr(r.prs[i]) <==> r.prs[i].number.Some? && ParseState(r.prs[i].state).Some?
        ensures IsSomePr(r.prs[i]) ==> IsPr(r.prs[i], Pr(r.prs[i].number.value, ParseState(r.prs[i].state).value))
      {
        EntryMeans(r.prs[i]);
      }
    }
    hide IsPr, IsSomePr, ParseState;
  }

  // Entry i is the first in that state.
  ghost predicate FirstWith(prs: seq<Pr>, state: PrState, i: nat) {
    i < |prs| && prs[i].state == state && forall j :: 0 <= j < i ==> prs[j].state != state
  }

  lemma {:induction false} FirstInIs(prs: seq<Pr>, state: PrState)
    ensures FirstIn(prs, state).Some? ==>
              exists i: nat :: FirstWith(prs, state, i) && prs[i] == FirstIn(prs, state).value
  {
    if prs == [] {
    } else if prs[0].state == state {
      assert FirstWith(prs, state, 0);
    } else {
      FirstInIs(prs[1..], state);
      if FirstIn(prs, state).Some? {
        var i: nat :| FirstWith(prs[1..], state, i) && prs[1..][i] == FirstIn(prs, state).value;
        forall j | 0 <= j < i + 1 ensures prs[j].state != state {
          assert j > 0 ==> prs[j] == prs[1..][j - 1];
        }
        assert FirstWith(prs, state, i + 1);
      }
    }
  }

  /** The pull request that is selected is the first of the most preferred state that occurs. */
  lemma PreferredMeans(prs: seq<Pr>)
    requires prs != []
    ensures exists i: nat :: FirstWith(prs, Preferred(prs).value.state, i) && prs[i] == Preferred(prs).value
    ensures Preferred(prs).value.state == Open <==> exists pr :: pr in prs && pr.state == Open
    ensures Preferred(prs).value.state == Closed <==> forall pr :: pr in prs ==> pr.state == Closed
  {
    AlwaysSelectable(prs);
    FirstInIs(prs, Open);
    FirstInIs(prs, PrState.Merged);
    FirstInIs(prs, Closed);
  }
}
