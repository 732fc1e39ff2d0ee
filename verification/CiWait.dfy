/** Check rows as they are reported, and their normal form. */
module CheckRows {
  import opened Options
  import opened PythonText

  datatype Result<+T> = Ok(value: T) | Rejected(reason: string)

  /** A JSON field: missing or null, a string, or any other value. */
  datatype Field = Absent | Text(s: string) | Other

  datatype Raw =
    | NotAnObject
    | Row(typename: Field, type_: Field, kind: Field, name: Field, context: Field, link: Field, detailsUrl: Field,
          targetUrl: Field, url: Field, htmlUrl: Field, workflow: Field, workflowName: Field, state: Field,
          status: Field, conclusion: Field, bucket: Field)

  /** A normalized row. */
  datatype Check = Check(identity: string, name: string, workflow: Option<string>, link: Option<string>,
                         state: string, bucket: string)

  datatype Source = Rollup | Checks

  const NON_TERMINAL_STATES := {"PENDING", "QUEUED", "IN_PROGRESS", "WAITING", "REQUESTED", "EXPECTED"}

  const TERMINAL_STATES := {"ACTION_REQUIRED", "CANCELLED", "ERROR", "FAILURE", "NEUTRAL", "SKIPPED", "STALE",
                            "STARTUP_FAILURE", "SUCCESS", "TIMED_OUT"}

  const KNOWN_BUCKETS := {"cancel", "fail", "pass", "pending", "skipping"}

  // ---------- strings ----------

  function Upper(s: string): string {
    seq(|s|, i requires 0 <= i < |s| => if 'a' <= s[i] <= 'z' then (s[i] as int - 32) as char else s[i])
  }

  function Lower(s: string): string {
    seq(|s|, i requires 0 <= i < |s| => if 'A' <= s[i] <= 'Z' then (s[i] as int + 32) as char else s[i])
  }

  function Underscored(s: string): string {
    seq(|s|, i requires 0 <= i < |s| => if s[i] == '-' then '_' else s[i])
  }

  function NonEmptyText(f: Field): Option<string> {
    if f.Text? && Strip(f.s) != "" then Some(Strip(f.s)) else None
  }

  function Or<T>(a: Option<T>, b: Option<T>): Option<T> {
    if a.Some? then a else b
  }

  // ---------- one row ----------

  predicate Truthy(f: Field) {
    f.Other? || (f.Text? && f.s != "")
  }

  function CheckKind(row: Raw, source: Source): Option<string>
    requires row.Row?
  {
    var explicit := if Truthy(row.typename) then row.typename else if Truthy(row.type_) then row.type_ else row.kind;
    if !explicit.Absent? then
      if explicit == Text("CheckRun") || explicit == Text("StatusContext") then Some(explicit.s) else None
    else if NonEmptyText(row.context).Some? then Some("StatusContext")
    else if source.Checks? || NonEmptyText(row.name).Some? then Some("CheckRun")
    else None
  }

  function CheckState(row: Raw): Option<string>
    requires row.Row?
  {
    var raw := NonEmptyText(if row.state.Absent? then row.status else row.state);
    var conclusion := NonEmptyText(row.conclusion);
    var said := if raw.Some? then Some(Underscored(Upper(raw.value))) else None;
    var concluded := if conclusion.Some? then Some(Underscored(Upper(conclusion.value))) else None;
    var state := if said.None? || said.value in {"COMPLETED", "COMPLETE", "DONE"} then concluded else said;
    if state == Some("CANCELED") then Some("CANCELLED") else state
  }

  function CanonicalBucket(state: string): string {
    if state in NON_TERMINAL_STATES then "pending"
    else if state == "SUCCESS" then "pass"
    else if state in {"NEUTRAL", "SKIPPED"} then "skipping"
    else "fail"
  }

  function BucketProblem(supplied: Field, state: string): Option<string> {
    if supplied.Absent? then None
    else
      var text := NonEmptyText(supplied);
      if text.None? || Lower(text.value) !in KNOWN_BUCKETS then Some("unknown-check-bucket")
      else if Lower(text.value) != CanonicalBucket(state) && !(state == "CANCELLED" && Lower(text.value) == "cancel")
      then Some("check-state-bucket-mismatch")
      else None
  }

  function Link(row: Raw): Option<string>
    requires row.Row?
  {
    Or(NonEmptyText(row.link), Or(NonEmptyText(row.detailsUrl), Or(NonEmptyText(row.targetUrl),
      Or(NonEmptyText(row.url), NonEmptyText(row.htmlUrl)))))
  }

  function Name(row: Raw): Option<string>
    requires row.Row?
  {
    Or(NonEmptyText(row.name), NonEmptyText(row.context))
  }

  function StableRef(kind: string, name: string, link: Option<string>, workflow: Option<string>): Option<string> {
    if link.Some? then link
    else if workflow.Some? then Some("workflow:" + workflow.value)
    else if kind == "StatusContext" then Some("context:" + name)
    else None
  }

  function Normalize(row: Raw, source: Source): Result<Check> {
    if row.NotAnObject? then Rejected("malformed-check-row")
    else
      var kind, name, link := CheckKind(row, source), Name(row), Link(row);
      var workflow := Or(NonEmptyText(row.workflow), NonEmptyText(row.workflowName));
      if kind.None? then Rejected("unknown-check-type")
      else if name.None? then Rejected("unknown-check-name")
      else
        var stable, state := StableRef(kind.value, name.value, link, workflow), CheckState(row);
        if stable.None? then Rejected("unknown-check-identity")
        else if state.None? || (state.value !in NON_TERMINAL_STATES && state.value !in TERMINAL_STATES)
        then Rejected("unknown-check-state")
        else
          var problem := BucketProblem(row.bucket, state.value);
          if problem.Some? then Rejected(problem.value)
          else Ok(Check(kind.value + "|" + name.value + "|" + stable.value, name.value, workflow, link, state.value,
                        CanonicalBucket(state.value)))
  }

  // ---------- many rows ----------

  type CheckMap = map<string, Check>

  // The rows by identity, or the first thing wrong with them.
  function NormalizeList(rows: seq<Raw>, source: Source): Result<CheckMap> {
    if rows == [] then Ok(map[])
    else
      var before := NormalizeList(rows[..|rows| - 1], source);
      if before.Rejected? then before
      else
        var check := Normalize(rows[|rows| - 1], source);
        if check.Rejected? then Rejected(check.reason)
        else if check.value.identity in before.value then Rejected("duplicate-check-identity")
        else Ok(before.value[check.value.identity := check.value])
  }

  // Every row has its entry, and every entry its row.
  ghost predicate Holds(rows: seq<Raw>, source: Source, checks: CheckMap) {
    && (forall row :: row in rows ==> HasEntry(row, source, checks))
    && (forall id :: id in checks ==> HasRow(rows, source, checks, id))
  }

  ghost predicate HasEntry(row: Raw, source: Source, checks: CheckMap) {
    var check := Normalize(row, source);
    check.Ok? && check.value.identity in checks && checks[check.value.identity] == check.value
  }

  ghost predicate HasRow(rows: seq<Raw>, source: Source, checks: CheckMap, id: string)
    requires id in checks
  {
    checks[id].identity == id && exists row :: row in rows && Normalize(row, source) == Ok(checks[id])
  }

  lemma {:induction false} ListHolds(rows: seq<Raw>, source: Source)
    requires NormalizeList(rows, source).Ok?
    ensures Holds(rows, source, NormalizeList(rows, source).value)
  {
    if rows == [] {
    } else {
      var before, last := rows[..|rows| - 1], rows[|rows| - 1];
      ListHolds(before, source);
      var was, checks := NormalizeList(before, source).value, NormalizeList(rows, source).value;
      forall row | row in rows ensures HasEntry(row, source, checks) {
        assert row in before || row == last;
        if row in before {
          assert HasEntry(row, source, was);
        }
      }
      forall id | id in checks ensures HasRow(rows, source, checks, id) {
        if id in was {
          assert HasRow(before, source, was, id);
          var row :| row in before && Normalize(row, source) == Ok(was[id]);
          assert row in rows;
        } else {
          assert last in rows;
        }
      }
    }
  }

  /** The loop over the rows that fills the map. */
  method NormalizeCheckList(rows: seq<Raw>, source: Source) returns (r: Result<CheckMap>)
    ensures r == NormalizeList(rows, source)
  {
    var normalized: CheckMap := map[];
    for i := 0 to |rows|
      invariant NormalizeList(rows[..i], source) == Ok(normalized)
    {
      assert rows[..i + 1][..i] == rows[..i];
      var check := Normalize(rows[i], source);
      if check.Rejected? || check.value.identity in normalized {
        RejectionStays(rows, i + 1, source);
        return if check.Rejected? then Rejected(check.reason) else Rejected("duplicate-check-identity");
      }
      normalized := normalized[check.value.identity := check.value];
    }
    assert rows[..|rows|] == rows;
    return Ok(normalized);
  }

  lemma {:induction false} RejectionStays(rows: seq<Raw>, n: nat, source: Source)
    requires n <= |rows| && NormalizeList(rows[..n], source).Rejected?
    ensures NormalizeList(rows, source) == NormalizeList(rows[..n], source)
    decreases |rows| - n
  {
    if n == |rows| {
      assert rows[..n] == rows;
    } else {
      assert rows[..n + 1][..n] == rows[..n];
      RejectionStays(rows, n + 1, source);
    }
  }
}

/** One reconciled observation of a pull request: two views of its head around two reads of its checks. */
module Observation {
  import opened Options
  import opened PythonText
  import opened CheckRows

  // ---------- the four reads ----------

  /** A view response. The rollup is None when it is not a list. */
  datatype View =
    | Unreadable(status: string)
    | NotAnObject
    | View(numberMatches: bool, state: Field, head: Field, rollup: Option<seq<Raw>>, mergeable: Field,
           hasMergeState: bool, mergeState: Field)

  /** A checks response. */
  datatype Rows = Unavailable | Malformed | Empty | NotAList | Rows(rows: seq<Raw>)

  datatype Reads = Reads(before: View, checks: Rows, required: Rows, after: View)

  // ---------- the snapshot ----------

  datatype Status = Valid | NoChecks | Uncertain | Merged | Conflicting

  /** A snapshot; its checks are kept by identity. */
  datatype Snapshot = Snapshot(status: Status, reason: string, head: string, checks: CheckMap, mergeable: string,
                               mergeState: string)

  const MERGEABLE_STATES := {"CONFLICTING", "MERGEABLE", "UNKNOWN"}

  const MERGE_STATE_STATUSES := {"BEHIND", "BLOCKED", "CLEAN", "DIRTY", "DRAFT", "HAS_HOOKS", "UNKNOWN", "UNSTABLE"}

  datatype Stable = Stable(state: string, bucket: string, link: Option<string>, workflow: Option<string>)

  datatype Fingerprint = Fingerprint(head: string, mergeable: string, mergeState: string, checks: map<string, Stable>)

  function FingerprintOf(s: Snapshot): Fingerprint {
    Fingerprint(s.head, s.mergeable, s.mergeState,
                map id | id in s.checks :: Stable(s.checks[id].state, s.checks[id].bucket, s.checks[id].link,
                                                  s.checks[id].workflow))
  }

  // ---------- reconciling ----------

  predicate SameState(a: Check, b: Check) {
    a.state == b.state && a.bucket == b.bucket
  }

  function Filled(a: Check, b: Check): Check {
    a.(link := Or(a.link, b.link), workflow := Or(a.workflow, b.workflow))
  }

  function MergeMaps(left: CheckMap, right: CheckMap): Result<CheckMap> {
    if left.Keys != right.Keys then Rejected("check-set-changed-during-observation")
    else if exists id :: id in left && !SameState(left[id], right[id]) then Rejected("check-state-mismatch")
    else Ok(map id | id in left :: Filled(left[id], right[id]))
  }

  function MergeRequired(rollup: CheckMap, required: CheckMap): Result<CheckMap> {
    if !(required.Keys <= rollup.Keys) then Rejected("required-check-not-in-current-head-rollup")
    else if exists id :: id in required && !SameState(rollup[id], required[id]) then Rejected("check-state-mismatch")
    else Ok(map id | id in required :: Filled(rollup[id], required[id]))
  }

  predicate Named(checks: CheckMap, name: string) {
    exists id :: id in checks && checks[id].name == name
  }

  function SelectPolicy(checks: CheckMap, names: seq<string>): Result<CheckMap> {
    if exists i :: 0 <= i < |names| && !Named(checks, names[i]) then Rejected("policy-missing-check")
    else Ok(map id | id in checks && checks[id].name in names :: checks[id])
  }

  /** The loop over the policy names. */
  method SelectPolicyChecks(checks: CheckMap, names: seq<string>) returns (r: Result<CheckMap>)
    ensures r == SelectPolicy(checks, names)
  {
    var selected: CheckMap, missing := map[], false;
    for i := 0 to |names|
      invariant missing <==> exists k :: 0 <= k < i && !Named(checks, names[k])
      invariant selected == map id | id in checks && checks[id].name in names[..i] :: checks[id]
    {
      var matches := map id | id in checks && checks[id].name == names[i] :: checks[id];
      assert names[..i + 1] == names[..i] + [names[i]];
      if matches == map[] {
        missing := true;
        assert forall id :: id in checks && checks[id].name == names[i] ==> id in matches;
      } else {
        var id :| id in matches;
        assert Named(checks, names[i]);
      }
      selected := selected + matches;
    }
    assert names[..|names|] == names;
    return if missing then Rejected("policy-missing-check") else Ok(selected);
  }

  function Enforced(all: CheckMap, githubRequired: CheckMap, names: seq<string>): Result<CheckMap> {
    var policy := SelectPolicy(all, names);
    if policy.Rejected? then policy
    else
      var enforced := MergeRequired(all, policy.value);
      if enforced.Rejected? then enforced
      else
        var github := MergeRequired(all, githubRequired);
        if github.Rejected? then github
        else if exists id ::
          id in github.value && id in enforced.value && !SameState(enforced.value[id], github.value[id])
        then Rejected("required-check-state-mismatch")
        else Ok(enforced.value + github.value)
  }

  // ---------- the views ----------

  datatype Parts = Parts(head: string, rollup: seq<Raw>, mergeable: string, mergeState: string)

  function Mergeability(v: View): Result<(string, string)>
    requires v.View?
  {
    var mergeable := NonEmptyText(v.mergeable);
    if mergeable.None? then Rejected("missing-mergeable")
    else
      var m := Upper(mergeable.value);
      if m !in MERGEABLE_STATES || m == "UNKNOWN" then Rejected("unknown-mergeable")
      else if !v.hasMergeState then Ok((m, ""))
      else
        var state := NonEmptyText(v.mergeState);
        if state.None? then Rejected("malformed-merge-state-status")
        else
          var s := Upper(state.value);
          if s !in MERGE_STATE_STATUSES || s == "UNKNOWN" then Rejected("unknown-merge-state-status")
          else if m == "CONFLICTING" && s != "DIRTY" then Rejected("inconsistent-mergeability")
          else Ok((m, s))
  }

  function ViewParts(v: View): Result<Parts> {
    if v.Unreadable? then Rejected("view-" + v.status)
    else if v.NotAnObject? then Rejected("malformed-pr-view")
    else if !v.numberMatches then Rejected("pr-number-mismatch")
    else if NonEmptyText(v.state) != Some("OPEN") then Rejected("pr-state-changed")
    else if NonEmptyText(v.head).None? then Rejected("unknown-head")
    else if v.rollup.None? then Rejected("malformed-status-check-rollup")
    else
      var m := Mergeability(v);
      if m.Rejected? then Rejected(m.reason)
      else Ok(Parts(NonEmptyText(v.head).value, v.rollup.value, m.value.0, m.value.1))
  }

  function HeadHint(v: View): string {
    if v.View? && NonEmptyText(v.head).Some? then NonEmptyText(v.head).value else ""
  }

  predicate MergedView(v: View) {
    v.View? && v.numberMatches && NonEmptyText(v.state) == Some("MERGED")
  }

  // ---------- the observation ----------

  function Unsure(reason: string, head: string): Snapshot {
    Snapshot(Uncertain, reason, head, map[], "", "")
  }

  function Observe(r: Reads, names: seq<string>): Snapshot {
    if MergedView(r.after) then Snapshot(Merged, "pr-merged", HeadHint(r.after), map[], "", "")
    else
      var before, after := ViewParts(r.before), ViewParts(r.after);
      var head := if HeadHint(r.after) != "" then HeadHint(r.after) else HeadHint(r.before);
      if before.Rejected? then Unsure("before-" + before.reason, head)
      else if after.Rejected? then Unsure("after-" + after.reason, head)
      else if before.value.head != after.value.head then Unsure("head-changed-during-observation", head)
      else if before.value.mergeable != after.value.mergeable || before.value.mergeState != after.value.mergeState
      then Unsure("mergeability-changed-during-observation", head)
      else if before.value.mergeable == "CONFLICTING"
      then Snapshot(Conflicting, "open-pr-head-conflicting", head, map[], before.value.mergeable,
                    before.value.mergeState)
      else ObserveChecks(r, before.value, after.value, head, names)
  }

  // GitHub's required rows; none when it reports that there are none.
  function RequiredRows(r: Rows): Result<CheckMap> {
    match r
    case Unavailable => Rejected("required-checks-unavailable")
    case Malformed => Rejected("required-checks-malformed")
    case NotAList => Rejected("required-checks-malformed-list")
    case Empty => Ok(map[])
    case Rows(rows) =>
      var normalized := NormalizeList(rows, Checks);
      if normalized.Rejected? then Rejected("required-" + normalized.reason) else normalized
  }

  function Unread(r: Rows): string {
    match r
    case Unavailable => "checks-unavailable"
    case Malformed => "checks-malformed"
    case Empty => "checks-empty"
    case NotAList => "checks-malformed-check-list"
    case Rows(_) => ""
  }

  function ObserveChecks(r: Reads, before: Parts, after: Parts, head: string, names: seq<string>): Snapshot {
    var required := RequiredRows(r.required);
    if required.Rejected? then Unsure(required.reason, head)
    else if before.rollup == [] && after.rollup == [] && (r.checks.Empty? || r.checks == Rows([]))
    then Snapshot(NoChecks, "empty-current-head-check-set", head, map[], "", "")
    else if !r.checks.Rows? then Unsure(Unread(r.checks), head)
    else if before.rollup == [] || after.rollup == [] || r.checks.rows == []
    then Unsure("incomplete-current-head-check-set", head)
    else
      var reconciled := Reconcile(before.rollup, after.rollup, r.checks.rows, required.value, names);
      if reconciled.Rejected? then Unsure(reconciled.reason, head)
      else Snapshot(Valid, "stable-current-head-observation", head, reconciled.value, before.mergeable,
                    before.mergeState)
  }

  function Reconcile(before: seq<Raw>, after: seq<Raw>, checks: seq<Raw>, required: CheckMap,
                     names: seq<string>): Result<CheckMap> {
    var b, a, c := NormalizeList(before, Rollup), NormalizeList(after, Rollup), NormalizeList(checks, Checks);
    if b.Rejected? then Rejected("before-" + b.reason)
    else if a.Rejected? then Rejected("after-" + a.reason)
    else if c.Rejected? then Rejected("checks-" + c.reason)
    else
      var rollup := MergeMaps(b.value, a.value);
      if rollup.Rejected? then rollup
      else
        var all := MergeMaps(rollup.value, c.value);
        if all.Rejected? then all else Enforced(all.value, required, names)
  }

  // ---------- what a snapshot says about the reads ----------

  ghost predicate IsNamed(row: Raw, source: Source, name: string) {
    Normalize(row, source).Ok? && Normalize(row, source).value.name == name
  }

  ghost predicate Succeeded(row: Raw, source: Source) {
    Normalize(row, source).Ok? && Normalize(row, source).value.state == "SUCCESS"
  }

  // There is a row of that identity, and it succeeded.
  ghost predicate IdentitySucceeded(rows: seq<Raw>, source: Source, id: string) {
    && (exists row :: row in rows && Identified(row, source, id))
    && (forall row :: row in rows && Identified(row, source, id) ==> Succeeded(row, source))
  }

  ghost predicate Identified(row: Raw, source: Source, id: string) {
    Normalize(row, source).Ok? && Normalize(row, source).value.identity == id
  }

  // The row of that identity succeeded in both views and among the checks.
  ghost predicate SucceededThroughout(before: seq<Raw>, after: seq<Raw>, checks: seq<Raw>, id: string) {
    && IdentitySucceeded(before, Rollup, id)
    && IdentitySucceeded(after, Rollup, id)
    && IdentitySucceeded(checks, Checks, id)
  }

  // Some row has the name, and every row that has it succeeded throughout.
  ghost predicate NameSucceeded(before: seq<Raw>, after: seq<Raw>, checks: seq<Raw>, name: string) {
    && (exists row :: row in before && IsNamed(row, Rollup, name))
    && (forall row :: row in before && IsNamed(row, Rollup, name) ==>
          SucceededThroughout(before, after, checks, Normalize(row, Rollup).value.identity))
  }

  /** A pull request is green in one observation: open, on one head in both views, and every row the policy
      names and every row GitHub requires succeeded in every one of the reads. */
  ghost predicate Green(r: Reads, names: seq<string>, head: string) {
    && r.before.View? && r.after.View? && r.before.rollup.Some? && r.after.rollup.Some? && r.checks.Rows?
    && NonEmptyText(r.before.head) == Some(head) && NonEmptyText(r.after.head) == Some(head)
    && NonEmptyText(r.before.state) == Some("OPEN") && NonEmptyText(r.after.state) == Some("OPEN")
    && (forall name :: name in names ==>
        NameSucceeded(r.before.rollup.value, r.after.rollup.value, r.checks.rows, name))
    && (r.required.Empty? || r.required.Rows?)
    && (r.required.Rows? ==> forall row :: row in r.required.rows ==>
          && Succeeded(row, Checks)
          && SucceededThroughout(r.before.rollup.value, r.after.rollup.value, r.checks.rows,
                                 Normalize(row, Checks).value.identity))
  }

  ghost predicate AllSucceeded(checks: CheckMap) {
    forall id :: id in checks ==> checks[id].state == "SUCCESS"
  }

  lemma EntryIsRow(rows: seq<Raw>, source: Source, checks: CheckMap, id: string)
    requires Holds(rows, source, checks) && id in checks && checks[id].state == "SUCCESS"
    ensures IdentitySucceeded(rows, source, id)
  {
    assert HasRow(rows, source, checks, id);
    forall row | row in rows && Identified(row, source, id) ensures Succeeded(row, source) {
      assert HasEntry(row, source, checks);
    }
  }

  // The states of the reconciled maps are those of each of their sources.
  lemma ReconciledStates(b: CheckMap, a: CheckMap, c: CheckMap, id: string)
    requires MergeMaps(b, a).Ok? && MergeMaps(MergeMaps(b, a).value, c).Ok?
    ensures var all := MergeMaps(MergeMaps(b, a).value, c).value;
            id in all <==> id in b
    ensures id in b ==>
              var all := MergeMaps(MergeMaps(b, a).value, c).value;
              && id in a && id in c
              && all[id].state == b[id].state == a[id].state == c[id].state
              && all[id].name == b[id].name
  {
  }

  // Every row that the policy names, and every row GitHub requires, is enforced with the state it has.
  lemma EnforcedCovers(all: CheckMap, required: CheckMap, names: seq<string>)
    requires Enforced(all, required, names).Ok?
    ensures var enforced := Enforced(all, required, names).value;
            && (forall id :: id in all && all[id].name in names ==>
                id in enforced && enforced[id].state == all[id].state)
            && (forall id :: id in required ==>
                  (id in all && id in enforced && enforced[id].state == all[id].state == required[id].state))
            && (forall id :: id in enforced ==> id in required || (id in all && all[id].name in names))
            && (forall name :: name in names ==> Named(all, name))
  {
    var policy := SelectPolicy(all, names).value;
    assert forall id :: id in policy <==> id in all && all[id].name in names;
    assert forall name :: name in names ==> Named(all, name) by {
      forall name | name in names ensures Named(all, name) {
        var i :| 0 <= i < |names| && names[i] == name;
      }
    }
  }

  lemma ReconciledIsGreen(before: seq<Raw>, after: seq<Raw>, checks: seq<Raw>, required: CheckMap, names: seq<string>)
    requires Reconcile(before, after, checks, required, names).Ok?
    requires AllSucceeded(Reconcile(before, after, checks, required, names).value)
    ensures forall name :: name in names ==> NameSucceeded(before, after, checks, name)
    ensures forall id :: id in required ==>
              required[id].state == "SUCCESS" && SucceededThroughout(before, after, checks, id)
  {
    var b, a, c := NormalizeList(before, Rollup).value, NormalizeList(after, Rollup).value,
        NormalizeList(checks, Checks).value;
    var all := MergeMaps(MergeMaps(b, a).value, c).value;
    ListHolds(before, Rollup);
    ListHolds(after, Rollup);
    ListHolds(checks, Checks);
    EnforcedCovers(all, required, names);
    forall id | id in all && (all[id].name in names || id in required)
      ensures SucceededThroughout(before, after, checks, id)
    {
      ReconciledStates(b, a, c, id);
      EntryIsRow(before, Rollup, b, id);
      EntryIsRow(after, Rollup, a, id);
      EntryIsRow(checks, Checks, c, id);
    }
    forall name | name in names ensures NameSucceeded(before, after, checks, name) {
      var id :| id in all && all[id].name == name;
      ReconciledStates(b, a, c, id);
      assert HasRow(before, Rollup, b, id);
      var row :| row in before && Normalize(row, Rollup) == Ok(b[id]);
      assert IsNamed(row, Rollup, name);
      forall other | other in before && IsNamed(other, Rollup, name)
        ensures SucceededThroughout(before, after, checks, Normalize(other, Rollup).value.identity)
      {
        assert HasEntry(other, Rollup, b);
        ReconciledStates(b, a, c, Normalize(other, Rollup).value.identity);
      }
    }
  }

  lemma RequiredSucceeded(required: Rows, before: seq<Raw>, after: seq<Raw>, checks: seq<Raw>)
    requires RequiredRows(required).Ok?
    requires forall id :: id in RequiredRows(required).value ==>
               RequiredRows(required).value[id].state == "SUCCESS" && SucceededThroughout(before, after, checks, id)
    ensures required.Empty? || required.Rows?
    ensures required.Rows? ==> forall row :: row in required.rows ==>
              Succeeded(row, Checks) && SucceededThroughout(before, after, checks,
                                                            Normalize(row, Checks).value.identity)
  {
    if required.Rows? {
      ListHolds(required.rows, Checks);
      forall row | row in required.rows
        ensures Succeeded(row, Checks)
                  && SucceededThroughout(before, after, checks, Normalize(row, Checks).value.identity)
      {
        assert HasEntry(row, Checks, RequiredRows(required).value);
      }
    }
  }

  lemma ViewMergeable(v: View)
    requires ViewParts(v).Ok?
    ensures ViewParts(v).value.mergeable == "MERGEABLE" || ViewParts(v).value.mergeable == "CONFLICTING"
  {
    assert ViewParts(v).value.mergeable in MERGEABLE_STATES;
  }

  lemma ValidMeans(r: Reads, names: seq<string>)
    requires Observe(r, names).status.Valid?
    ensures ViewParts(r.before).Ok? && ViewParts(r.after).Ok? && RequiredRows(r.required).Ok? && r.checks.Rows?
    ensures ViewParts(r.before).value.head == ViewParts(r.after).value.head == Observe(r, names).head
    ensures Observe(r, names).mergeable == ViewParts(r.before).value.mergeable == "MERGEABLE"
    ensures Reconcile(ViewParts(r.before).value.rollup, ViewParts(r.after).value.rollup, r.checks.rows,
                      RequiredRows(r.required).value, names) == Ok(Observe(r, names).checks)
  {
    assert ViewParts(r.before).Ok?;
    ViewMergeable(r.before);
  }

  /** A valid snapshot without pending or failed checks means a green pull request. */
  lemma PassingIsGreen(r: Reads, names: seq<string>)
    requires Observe(r, names).status.Valid? && AllSucceeded(Observe(r, names).checks)
    ensures Green(r, names, Observe(r, names).head)
    ensures Observe(r, names).mergeable == "MERGEABLE"
  {
    ValidMeans(r, names);
    var before, after := ViewParts(r.before).value, ViewParts(r.after).value;
    ReconciledIsGreen(before.rollup, after.rollup, r.checks.rows, RequiredRows(r.required).value, names);
    RequiredSucceeded(r.required, before.rollup, after.rollup, r.checks.rows);
  }

  // ---------- names and identities ----------

  lemma {:induction false} FirstBar(p: string, s: string, q: string, t: string)
    requires '|' !in p && '|' !in q && p + "|" + s == q + "|" + t
    ensures p == q && s == t
  {
    var whole := p + "|" + s;
    assert whole[|p|] == '|' && whole[|q|] == '|';
    assert forall i :: 0 <= i < |p| ==> whole[i] == p[i] && p[i] in p;
    assert forall i :: 0 <= i < |q| ==> whole[i] == q[i] && q[i] in q;
    assert |p| == |q|;
    assert p == whole[..|p|] && q == whole[..|q|];
    assert s == whole[|p| + 1..] && t == whole[|q| + 1..];
  }

  lemma Regrouped(kind: string, name: string, ref: string)
    ensures kind + "|" + name + "|" + ref == kind + "|" + (name + "|" + ref)
  {
    assert kind + "|" + name + "|" + ref == kind + "|" + (name + "|" + ref);
  }

  lemma PlainKind(row: Raw, source: Source) returns (kind: string)
    requires row.Row? && CheckKind(row, source).Some?
    ensures CheckKind(row, source) == Some(kind) && '|' !in kind
  {
    kind := CheckKind(row, source).value;
    assert kind == "CheckRun" || kind == "StatusContext";
  }

  // The name is part of the identity.
  lemma IdentityHasName(row: Raw, source: Source) returns (kind: string, ref: string)
    requires Normalize(row, source).Ok?
    ensures '|' !in kind
    ensures Normalize(row, source).value.identity == kind + "|" + (Normalize(row, source).value.name + "|" + ref)
  {
    kind := PlainKind(row, source);
    var name := Name(row).value;
    ref := StableRef(kind, name, Link(row), Or(NonEmptyText(row.workflow), NonEmptyText(row.workflowName))).value;
    Regrouped(kind, name, ref);
  }

  lemma SameIdentitySameName(x: Raw, y: Raw, from: Source, to: Source)
    requires Normalize(x, from).Ok? && Normalize(y, to).Ok?
    requires Normalize(x, from).value.identity == Normalize(y, to).value.identity
    requires '|' !in Normalize(x, from).value.name && '|' !in Normalize(y, to).value.name
    ensures Normalize(x, from).value.name == Normalize(y, to).value.name
  {
    var k, r := IdentityHasName(x, from);
    var l, u := IdentityHasName(y, to);
    FirstBar(k, Normalize(x, from).value.name + "|" + r, l, Normalize(y, to).value.name + "|" + u);
    FirstBar(Normalize(x, from).value.name, r, Normalize(y, to).value.name, u);
  }

  // No reported name contains the character that separates the parts of an identity.
  ghost predicate PlainNames(rows: seq<Raw>, source: Source) {
    forall row :: row in rows && Normalize(row, source).Ok? ==> '|' !in Normalize(row, source).value.name
  }

  // The row of the first view with the identity of the given row has its name.
  lemma NameInFirstView(before: seq<Raw>, b: CheckMap, row: Raw, source: Source, names: seq<string>)
    requires Holds(before, Rollup, b) && PlainNames(before, Rollup) && Normalize(row, source).Ok?
    requires Normalize(row, source).value.identity in b && '|' !in Normalize(row, source).value.name
    ensures exists other :: other in before && IsNamed(other, Rollup, Normalize(row, source).value.name)
                            && Normalize(other, Rollup).value.identity == Normalize(row, source).value.identity
  {
    var id := Normalize(row, source).value.identity;
    assert HasRow(before, Rollup, b, id);
    var other :| other in before && Normalize(other, Rollup) == Ok(b[id]);
    SameIdentitySameName(other, row, Rollup, source);
    assert IsNamed(other, Rollup, Normalize(row, source).value.name);
  }

  // A row of a read with the identities of the first view, under a policy name, succeeded.
  lemma NameReaches(before: seq<Raw>, after: seq<Raw>, checks: seq<Raw>, b: CheckMap, rows: seq<Raw>, source: Source,
                    row: Raw, names: seq<string>)
    requires Holds(before, Rollup, b) && PlainNames(before, Rollup) && PlainNames(rows, source)
    requires (rows == after && source.Rollup?) || (rows == checks && source.Checks?)
    requires forall name :: name in names ==> NameSucceeded(before, after, checks, name)
    requires row in rows && Normalize(row, source).Ok? && Normalize(row, source).value.name in names
    requires Normalize(row, source).value.identity in b
    ensures Succeeded(row, source)
  {
    var name, id := Normalize(row, source).value.name, Normalize(row, source).value.identity;
    NameInFirstView(before, b, row, source, names);
    var other :| other in before && IsNamed(other, Rollup, name) && Normalize(other, Rollup).value.identity == id;
    assert NameSucceeded(before, after, checks, name);
    assert SucceededThroughout(before, after, checks, id);
    assert Identified(row, source, id);
  }

  lemma ReconciledKeys(before: seq<Raw>, after: seq<Raw>, checks: seq<Raw>, required: CheckMap, names: seq<string>)
    requires Reconcile(before, after, checks, required, names).Ok?
    ensures NormalizeList(before, Rollup).Ok? && NormalizeList(after, Rollup).Ok? && NormalizeList(checks, Checks).Ok?
    ensures NormalizeList(after, Rollup).value.Keys == NormalizeList(before, Rollup).value.Keys
    ensures NormalizeList(checks, Checks).value.Keys == NormalizeList(before, Rollup).value.Keys
  {
    var b, a := NormalizeList(before, Rollup).value, NormalizeList(after, Rollup).value;
    assert MergeMaps(b, a).value.Keys == b.Keys;
  }

  /** What is enforced, exactly: the identities GitHub requires and those whose row in the first view has a policy
      name. So a row of any read counts, with the state it has, if and only if it is required or the row of the
      first view with its identity has such a name; what its own name is does not matter. */
  lemma RowCountsIff(before: seq<Raw>, after: seq<Raw>, checks: seq<Raw>, required: CheckMap, names: seq<string>,
                     rows: seq<Raw>, source: Source, row: Raw)
    requires Reconcile(before, after, checks, required, names).Ok?
    requires (rows in {before, after} && source.Rollup?) || (rows == checks && source.Checks?)
    requires row in rows
    ensures Normalize(row, source).Ok? && NormalizeList(before, Rollup).Ok?
    ensures var enforced := Reconcile(before, after, checks, required, names).value;
            var b, c := NormalizeList(before, Rollup).value, Normalize(row, source).value;
            && c.identity in b
            && (c.identity in enforced <==> c.identity in required || b[c.identity].name in names)
            && (c.identity in enforced ==> enforced[c.identity].state == c.state)
  {
    ReconciledKeys(before, after, checks, required, names);
    ListHolds(rows, source);
    var b, a, c := NormalizeList(before, Rollup).value, NormalizeList(after, Rollup).value,
        NormalizeList(checks, Checks).value;
    assert HasEntry(row, source, NormalizeList(rows, source).value);
    EnforcedIff(b, a, c, required, names, Normalize(row, source).value.identity);
  }

  lemma EnforcedIff(b: CheckMap, a: CheckMap, c: CheckMap, required: CheckMap, names: seq<string>, id: string)
    requires MergeMaps(b, a).Ok? && MergeMaps(MergeMaps(b, a).value, c).Ok?
    requires Enforced(MergeMaps(MergeMaps(b, a).value, c).value, required, names).Ok? && id in b
    ensures var enforced := Enforced(MergeMaps(MergeMaps(b, a).value, c).value, required, names).value;
            && (id in enforced <==> id in required || b[id].name in names)
            && (id in enforced ==>
                id in a && id in c && enforced[id].state == b[id].state == a[id].state == c[id].state)
  {
    hide MergeMaps, Enforced;
    ReconciledStates(b, a, c, id);
    EnforcedCovers(MergeMaps(MergeMaps(b, a).value, c).value, required, names);
  }

  /** With plain names, the policy reaches a row by its name in whichever read it stands: rows of the later
      view and of the checks that have a policy name succeeded too. */
  lemma PlainNamesReachEveryRead(before: seq<Raw>, after: seq<Raw>, checks: seq<Raw>, required: CheckMap,
                                 names: seq<string>, rows: seq<Raw>, source: Source, row: Raw)
    requires Reconcile(before, after, checks, required, names).Ok?
    requires AllSucceeded(Reconcile(before, after, checks, required, names).value)
    requires PlainNames(before, Rollup) && PlainNames(rows, source)
    requires (rows == after && source.Rollup?) || (rows == checks && source.Checks?)
    requires row in rows && Normalize(row, source).Ok? && Normalize(row, source).value.name in names
    ensures Succeeded(row, source)
  {
    ReconciledIsGreen(before, after, checks, required, names);
    ReconciledKeys(before, after, checks, required, names);
    ListHolds(before, Rollup);
    ListHolds(rows, source);
    var b, here := NormalizeList(before, Rollup).value, NormalizeList(rows, source).value;
    assert HasEntry(row, source, here);
    NameReaches(before, after, checks, b, rows, source, row, names);
  }

  // A check run with a name, a link and a state, and nothing else.
  function Simple(name: string, link: string, state: string): Raw {
    Row(Absent, Absent, Absent, Text(name), Absent, Text(link), Absent, Absent, Absent, Absent, Absent, Absent,
        Text(state), Absent, Absent, Absent)
  }

  predicate Trimmed(s: string) {
    s != "" && !IsSpace(s[0]) && !IsSpace(s[|s| - 1])
  }

  lemma SimpleNormalizes(name: string, link: string, state: string, source: Source)
    requires Trimmed(name) && Trimmed(link) && state in {"SUCCESS", "FAILURE"}
    ensures Normalize(Simple(name, link, state), source) ==
            Ok(Check("CheckRun|" + name + "|" + link, name, None, Some(link), state, CanonicalBucket(state)))
  {
    var row := Simple(name, link, state);
    TrimmedText(name);
    TrimmedText(link);
    TrimmedText(state);
    assert NonEmptyText(row.name) == Some(name) && NonEmptyText(row.link) == Some(link);
    assert NonEmptyText(row.state) == Some(state);
    assert CheckKind(row, source) == Some("CheckRun");
    assert StableRef("CheckRun", name, Some(link), None) == Some(link);
    assert NonEmptyText(row.workflow).None? && NonEmptyText(row.workflowName).None?;
    assert Name(row) == Some(name) && Link(row) == Some(link);
    UpperStates();
    assert CheckState(row) == Some(state);
    assert BucketProblem(row.bucket, state).None?;
    assert state in TERMINAL_STATES;
    var check := Normalize(row, source).value;
    assert check.identity == "CheckRun" + "|" + name + "|" + link;
    assert "CheckRun" + "|" == "CheckRun|";
  }

  lemma TrimmedText(s: string)
    requires Trimmed(s)
    ensures NonEmptyText(Text(s)) == Some(s)
  {
    assert Strip(s) == s;
  }

  lemma UpperStates()
    ensures Underscored(Upper("SUCCESS")) == "SUCCESS" && Underscored(Upper("FAILURE")) == "FAILURE"
  {
    assert Underscored(Upper("SUCCESS")) == "SUCCESS";
    assert Underscored(Upper("FAILURE")) == "FAILURE";
  }

  lemma TwoRows(x: Raw, y: Raw, source: Source, c: Check, d: Check)
    requires Normalize(x, source) == Ok(c) && Normalize(y, source) == Ok(d) && c.identity != d.identity
    ensures NormalizeList([x, y], source) == Ok(map[c.identity := c, d.identity := d])
  {
    assert NormalizeList([], source) == Ok(map[]);
    assert [x][..0] == [];
    assert NormalizeList([x], source) == Ok(map[c.identity := c]) by { assert [x][|[x]| - 1] == x; }
    assert [x, y][..1] == [x] && [x, y][1] == y;
  }

  /** Names with the separator can hide a row: two rows with different names share an identity, so the failed
      row of the later view, which does have the policy's name, goes unnoticed. */
  lemma SeparatorHidesRow(p: string, x: string, y: string, link: string)
      returns (before: seq<Raw>, after: seq<Raw>, row: Raw)
    requires Trimmed(p) && Trimmed(x) && Trimmed(y) && Trimmed(link) && link != x + "|" + y
    ensures Reconcile(before, after, before, map[], [p]).Ok?
    ensures AllSucceeded(Reconcile(before, after, before, map[], [p]).value)
    ensures row in after && IsNamed(row, Rollup, p) && !Succeeded(row, Rollup)
  {
    var good, bad := Simple(p, link, "SUCCESS"), Simple(p + "|" + x, y, "FAILURE");
    row := Simple(p, x + "|" + y, "FAILURE");
    before, after := [good, bad], [good, row];
    var c, d, e := HiddenChecks(p, x, y, link);
    HiddenRow(good, bad, row, c, d, e);
    assert [good, row][1] == row;
  }

  lemma HiddenChecks(p: string, x: string, y: string, link: string) returns (c: Check, d: Check, e: Check)
    requires Trimmed(p) && Trimmed(x) && Trimmed(y) && Trimmed(link) && link != x + "|" + y
    ensures forall source ::
              && Normalize(Simple(p, link, "SUCCESS"), source) == Ok(c)
              && Normalize(Simple(p + "|" + x, y, "FAILURE"), source) == Ok(d)
              && Normalize(Simple(p, x + "|" + y, "FAILURE"), source) == Ok(e)
    ensures c.identity != d.identity && d.identity == e.identity && SameState(d, e)
    ensures d.link.Some? && d.workflow == e.workflow && c.name == p == e.name && d.name != p
    ensures c.state == "SUCCESS" && e.state != "SUCCESS"
  {
    var long, far := p + "|" + x, x + "|" + y;
    c := Check("CheckRun|" + p + "|" + link, p, None, Some(link), "SUCCESS", "pass");
    d := Check("CheckRun|" + long + "|" + y, long, None, Some(y), "FAILURE", "fail");
    e := Check("CheckRun|" + p + "|" + far, p, None, Some(far), "FAILURE", "fail");
    SharedIdentity("CheckRun|", p, x, y, link);
    forall source ensures Normalize(Simple(p, link, "SUCCESS"), source) == Ok(c) {
      SimpleNormalizes(p, link, "SUCCESS", source);
    }
    forall source ensures Normalize(Simple(long, y, "FAILURE"), source) == Ok(d) {
      SimpleNormalizes(long, y, "FAILURE", source);
    }
    forall source ensures Normalize(Simple(p, far, "FAILURE"), source) == Ok(e) {
      SimpleNormalizes(p, far, "FAILURE", source);
    }
  }

  lemma SharedIdentity(kind: string, p: string, x: string, y: string, link: string)
    requires link != x + "|" + y
    ensures kind + (p + "|" + x) + "|" + y == kind + p + "|" + (x + "|" + y) != kind + p + "|" + link
    ensures p + "|" + x != p
  {
    var far := x + "|" + y;
    assert kind + (p + "|" + x) + "|" + y == kind + p + "|" + far;
    assert link == (kind + p + "|" + link)[|kind + p + "|"|..] && far == (kind + p + "|" + far)[|kind + p + "|"|..];
    assert |p + "|" + x| > |p|;
  }

  lemma HiddenRow(good: Raw, bad: Raw, row: Raw, c: Check, d: Check, e: Check)
    requires forall source :: Normalize(good, source) == Ok(c) && Normalize(bad, source) == Ok(d)
               && Normalize(row, source) == Ok(e)
    requires c.identity != d.identity && d.identity == e.identity && SameState(d, e)
    requires d.link.Some? && d.workflow == e.workflow && c.name != d.name
    ensures Reconcile([good, bad], [good, row], [good, bad], map[], [c.name]) == Ok(map[c.identity := c])
  {
    TwoRows(good, bad, Rollup, c, d);
    TwoRows(good, bad, Checks, c, d);
    TwoRows(good, row, Rollup, c, e);
    MergePair(c, d, e);
    MergePair(c, d, d);
    EnforcePair(c, d, c.name);
  }

  // Merging two rows of one identity and state keeps the first.
  lemma MergePair(c: Check, d: Check, e: Check)
    requires c.identity != d.identity && d.identity == e.identity && SameState(d, e)
    requires d.link.Some? && d.workflow == e.workflow
    ensures MergeMaps(map[c.identity := c, d.identity := d], map[c.identity := c, e.identity := e]) ==
            Ok(map[c.identity := c, d.identity := d])
  {
    var left, right := map[c.identity := c, d.identity := d], map[c.identity := c, e.identity := e];
    assert left.Keys == {c.identity, d.identity} == right.Keys;
    assert Filled(c, c) == c && Filled(d, e) == d;
    assert (map id | id in left :: Filled(left[id], right[id])) == left;
  }

  lemma EnforcePair(c: Check, d: Check, name: string)
    requires c.identity != d.identity && c.name == name && d.name != name
    ensures Enforced(map[c.identity := c, d.identity := d], map[], [name]) == Ok(map[c.identity := c])
  {
    var all := map[c.identity := c, d.identity := d];
    assert Named(all, name) by { assert all[c.identity].name == name; }
    assert SelectPolicy(all, [name]) == Ok(map[c.identity := c]) by {
      assert (map id | id in all && all[id].name in [name] :: all[id]) == map[c.identity := c];
    }
    var only := map[c.identity := c];
    assert Filled(all[c.identity], only[c.identity]) == c;
    assert (map id | id in only :: Filled(all[id], only[id])) == only;
    assert MergeRequired(all, only) == Ok(only);
    assert MergeRequired(all, map[]) == Ok(map[]);
    assert map[c.identity := c] + map[] == map[c.identity := c];
  }
}

/** Finding the pull request, and waiting for its checks. */
module Waiting {
  import opened Options
  import opened CheckRows
  import opened Observation

  const PR_LOOKUP_ATTEMPTS := 5
  const PR_LOOKUP_INFRASTRUCTURE_ATTEMPTS := 3
  const POLL_INTERVAL := 120
  const DEADLINE := 6000
  const NO_CHECKS_GRACE := 600
  const CONVERGENCE_OBSERVATIONS := 2

  // ---------- the lookup ----------

  /** An entry of the list of pull requests: its number, if it is one, and its state. */
  datatype RawPr = RawPr(number: Option<int>, state: Field)

  /** A response of the list command: nothing usable, something that is not a list, or a list. */
  datatype ListRead = Unusable | NotAList | List(prs: seq<RawPr>)

  datatype PrState = Open | Merged | Closed

  datatype Pr = Pr(number: int, state: PrState)

  datatype Lookup = Failure | NotFound | Found(prs: seq<Pr>)

  function ParseState(f: Field): Option<PrState> {
    if f == Text("OPEN") then Some(Open)
    else if f == Text("MERGED") then Some(PrState.Merged)
    else if f == Text("CLOSED") then Some(Closed)
    else None
  }

  // A list is accepted when every entry has a number and a known state.
  function ListPrs(r: ListRead): (l: Lookup)
    ensures l.Found? ==> l.prs != []
  {
    if !r.List? then Failure
    else if exists i :: 0 <= i < |r.prs| && (r.prs[i].number.None? || ParseState(r.prs[i].state).None?) then Failure
    else if r.prs == [] then NotFound
    else Found(seq(|r.prs|, i requires 0 <= i < |r.prs| => Pr(r.prs[i].number.value, ParseState(r.prs[i].state).value)))
  }

  // The first entry in that state.
  function FirstIn(prs: seq<Pr>, state: PrState): (first: Option<Pr>)
    ensures first.Some? ==> first.value in prs && first.value.state == state
    ensures first.None? ==> forall pr :: pr in prs ==> pr.state != state
  {
    if prs == [] then None else if prs[0].state == state then Some(prs[0]) else FirstIn(prs[1..], state)
  }

  // Open before merged before closed.
  function Preferred(prs: seq<Pr>): Option<Pr> {
    Or(FirstIn(prs, Open), Or(FirstIn(prs, PrState.Merged), FirstIn(prs, Closed)))
  }

  /** Some entry of a list that is not empty is always selectable, and a closed one is selected only when
      every entry is closed. */
  lemma AlwaysSelectable(prs: seq<Pr>)
    requires prs != []
    ensures Preferred(prs).Some? && Preferred(prs).value in prs
    ensures Preferred(prs).value.state == Open <==> exists pr :: pr in prs && pr.state == Open
    ensures Preferred(prs).value.state == Closed <==> forall pr :: pr in prs ==> pr.state == Closed
  {
    assert prs[0] in prs;
  }

  datatype Resolution = Resolved(pr: Pr) | OutOfReach | Missing

  // How many lookups from a on and before b are of the kind.
  function Count(lookups: nat -> Lookup, kind: Lookup, a: nat, b: nat): nat
    decreases b
  {
    if b <= a then 0 else Count(lookups, kind, a, b - 1) + if lookups(b - 1) == kind then 1 else 0
  }

  // The last n lookups before b failed.
  ghost predicate FailedInARow(lookups: nat -> Lookup, b: nat, n: nat) {
    n <= b && forall i :: b - n <= i < b ==> lookups(i).Failure?
  }

  /** Looks the pull request up within two budgets: one for empty answers, one for failures in a row, which
      every answer restores. At most (empty budget) x (failure budget) lookups are made; the first answer
      with pull requests decides, three failures in a row or five empty answers end the search. */
  method ResolvePr(responses: nat -> ListRead) returns (r: Resolution, n: nat)
    ensures 1 <= n <= 5 * 3
    ensures var lookups := (i: nat) => ListPrs(responses(i));
            && (forall i :: 0 <= i < n - 1 ==> !lookups(i).Found?)
            && (r.Resolved? <==> lookups(n - 1).Found?)
            && (r.Resolved? ==> Preferred(lookups(n - 1).prs) == Some(r.pr))
            && (r.Missing? <==> Count(lookups, NotFound, 0, n) == 5)
            && (r.OutOfReach? <==> FailedInARow(lookups, n, 3))
  {
    ghost var lookups := (i: nat) => ListPrs(responses(i));
    var empties, failures := 0, 0;
    n := 0;
    while empties < PR_LOOKUP_ATTEMPTS
      invariant empties <= PR_LOOKUP_ATTEMPTS && failures < PR_LOOKUP_INFRASTRUCTURE_ATTEMPTS
      invariant n <= empties * PR_LOOKUP_INFRASTRUCTURE_ATTEMPTS + failures
      invariant n == 0 ==> empties == 0
      invariant empties == PR_LOOKUP_ATTEMPTS ==> failures == 0
      invariant forall i :: 0 <= i < n ==> !lookups(i).Found?
      invariant empties == Count(lookups, NotFound, 0, n)
      invariant failures <= n && forall i :: n - failures <= i < n ==> lookups(i).Failure?
      invariant n > failures ==> !lookups(n - failures - 1).Failure?
      decreases PR_LOOKUP_ATTEMPTS - empties, PR_LOOKUP_INFRASTRUCTURE_ATTEMPTS - failures
    {
      var lookup := ListPrs(responses(n));
      assert lookup == lookups(n);
      n := n + 1;
      if lookup.Failure? {
        failures := failures + 1;
        if failures >= PR_LOOKUP_INFRASTRUCTURE_ATTEMPTS {
          return OutOfReach, n;
        }
      } else {
        failures := 0;
        if lookup.NotFound? {
          empties := empties + 1;
        } else {
          // There is always a selectable entry, so the search ends here.
          AlwaysSelectable(lookup.prs);
          return Resolved(Preferred(lookup.prs).value), n;
        }
      }
    }
    return Missing, n;
  }

  // ---------- the wait ----------

  datatype End = IsMerged | ChecksTerminal | IsConflicting | ChecksFailed | NeverReported | TimedOut

  function PendingChecks(s: Snapshot): CheckMap {
    map id | id in s.checks && (s.checks[id].bucket == "pending" || s.checks[id].state in NON_TERMINAL_STATES) ::
        s.checks[id]
  }

  function FailedChecks(s: Snapshot): CheckMap {
    map id | id in s.checks && s.checks[id].bucket != "pending" && s.checks[id].state !in NON_TERMINAL_STATES
             && (s.checks[id].state != "SUCCESS" || s.checks[id].bucket != "pass") :: s.checks[id]
  }

  // A valid snapshot with every check successful.
  ghost predicate Passing(s: Snapshot) {
    s.status.Valid? && forall id :: id in s.checks ==> s.checks[id].state == "SUCCESS" && s.checks[id].bucket == "pass"
  }

  lemma PassingMeans(s: Snapshot)
    requires s.status.Valid?
    ensures Passing(s) <==> FailedChecks(s) == map[] && PendingChecks(s) == map[]
  {
    if FailedChecks(s) == map[] && PendingChecks(s) == map[] {
      forall id | id in s.checks ensures s.checks[id].state == "SUCCESS" && s.checks[id].bucket == "pass" {
        assert id !in FailedChecks(s) && id !in PendingChecks(s);
      }
    }
  }

  /** What the wait sees: the snapshot of each observation, and the clock after it. */
  datatype World = World(at: nat -> Snapshot, clock: nat -> int, start: int) {
    // Each sleep advances the clock by at least the interval.
    ghost predicate Valid() {
      start <= clock(0) && forall i: nat :: clock(i) + POLL_INTERVAL <= clock(i + 1)
    }
  }

  // Two observations in a row pass and agree.
  ghost predicate Converged(w: World, i: nat) {
    i >= 1 && Passing(w.at(i - 1)) && Passing(w.at(i)) && FingerprintOf(w.at(i - 1)) == FingerprintOf(w.at(i))
  }

  // Why the wait would end with observation i, if at all.
  ghost function EndAt(w: World, i: nat): Option<End> {
    var s := w.at(i);
    if s.status.Merged? then Some(IsMerged)
    else if s.status.Conflicting? then Some(IsConflicting)
    else if s.status.Valid? && FailedChecks(s) != map[] then Some(ChecksFailed)
    else if Converged(w, i) then Some(ChecksTerminal)
    else if s.status.NoChecks? && w.clock(i) >= w.start + 600 then Some(NeverReported)
    else if w.clock(i) + 120 >= w.start + 6000 then Some(TimedOut)
    else None
  }

  lemma {:induction false} ClockAdvances(w: World, n: nat)
    requires w.Valid()
    ensures w.clock(n) >= w.start + POLL_INTERVAL * n
  {
    if n == 0 {
    } else {
      ClockAdvances(w, n - 1);
      assert w.clock(n - 1) + POLL_INTERVAL <= w.clock((n - 1) + 1);
    }
  }

  /** The polling loop: it ends with the first observation that has a reason to end it, for that reason, and
      makes a bounded number of observations. */
  method Wait(w: World) returns (end: End, n: nat)
    requires w.Valid()
    ensures EndAt(w, n) == Some(end)
    ensures forall i :: 0 <= i < n ==> EndAt(w, i).None?
    ensures n < 50
  {
    var candidate: Option<Fingerprint>, convergence := None, 0;
    n := 0;
    while true
      invariant forall i :: 0 <= i < n ==> EndAt(w, i).None?
      invariant convergence < CONVERGENCE_OBSERVATIONS
      invariant n * POLL_INTERVAL < DEADLINE
      invariant convergence == 0 <==> candidate.None?
      invariant candidate.Some? <==> n >= 1 && Passing(w.at(n - 1))
      invariant candidate.Some? ==> candidate.value == FingerprintOf(w.at(n - 1))
      decreases w.start + DEADLINE - w.clock(n)
    {
      var snapshot, now := w.at(n), w.clock(n);
      ClockAdvances(w, n);
      if snapshot.status.Merged? {
        return IsMerged, n;
      }
      if snapshot.status.Conflicting? {
        return IsConflicting, n;
      }
      if snapshot.status.Valid? {
        PassingMeans(snapshot);
        var pending, failures := PendingChecks(snapshot), FailedChecks(snapshot);
        if failures != map[] {
          return ChecksFailed, n;
        }
        if pending != map[] {
          candidate, convergence := None, 0;
        } else {
          var fingerprint := FingerprintOf(snapshot);
          if candidate == Some(fingerprint) {
            convergence := convergence + 1;
          } else {
            candidate, convergence := Some(fingerprint), 1;
          }
          if convergence >= CONVERGENCE_OBSERVATIONS {
            return ChecksTerminal, n;
          }
        }
      } else if snapshot.status.NoChecks? {
        candidate, convergence := None, 0;
        if now >= w.start + NO_CHECKS_GRACE {
          return NeverReported, n;
        }
      } else {
        candidate, convergence := None, 0;
      }
      if now + POLL_INTERVAL >= w.start + DEADLINE {
        return TimedOut, n;
      }
      assert w.clock(n) + POLL_INTERVAL <= w.clock(n + 1);
      n := n + 1;
    }
  }

  /** A success is real: if the wait ends with passing checks, the last two observations were taken one after
      the other, both found the pull request green on the same head, mergeable, and with equal fingerprints. */
  lemma SuccessIsGreen(w: World, observed: nat -> Reads, policy: seq<string>, n: nat)
    requires forall i :: w.at(i) == Observe(observed(i), policy)
    requires EndAt(w, n) == Some(ChecksTerminal)
    ensures n >= 1
    ensures w.at(n - 1).head == w.at(n).head && FingerprintOf(w.at(n - 1)) == FingerprintOf(w.at(n))
    ensures w.at(n - 1).mergeable == "MERGEABLE" && w.at(n).mergeable == "MERGEABLE"
    ensures Green(observed(n - 1), policy, w.at(n).head) && Green(observed(n), policy, w.at(n).head)
  {
    PassingIsGreen(observed(n - 1), policy);
    PassingIsGreen(observed(n), policy);
  }

  /** And it is not missed: two agreeing passing observations in a row end the wait with success. */
  lemma ConvergenceEndsTheWait(w: World, i: nat)
    requires Converged(w, i)
    ensures EndAt(w, i) == Some(ChecksTerminal)
  {
    PassingMeans(w.at(i));
  }
}
