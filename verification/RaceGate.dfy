/** The gate that runs the required race tests, with one retry for a recognized watchdog failure. */
module RaceGate {
  import opened Options
  import opened GoText

  /** A line of test output as it is read: blank, not an event, or an event. */
  datatype Line = Blank | Garbled | Event(test: string, action: string, output: string)

  /** One run of the test command: whether it succeeded, its output, and whether that could be read to the end. */
  datatype Attempt = Attempt(succeeded: bool, lines: seq<Line>, readable: bool)

  datatype TestResult = TestResult(seen: bool, output: string, passed: nat, skipped: bool, failed: bool)

  type Results = map<string, TestResult>

  const NO_RESULT := TestResult(false, "", 0, false, false)

  function ResultOf(results: Results, test: string): TestResult {
    if test in results then results[test] else NO_RESULT
  }

  // ---------- the required tests ----------

  ghost predicate Distinct(names: seq<string>) {
    forall i, j :: 0 <= i < j < |names| ==> names[i] != names[j]
  }

  predicate Listed(pieces: seq<string>, n: nat, name: string)
    requires n <= |pieces|
  {
    name != "" && exists i :: 0 <= i < n && TrimSpace(pieces[i]) == name
  }

  // Where a name is listed first.
  function FirstAt(pieces: seq<string>, name: string): nat {
    if pieces == [] then 0 else if TrimSpace(pieces[0]) == name then 0 else 1 + FirstAt(pieces[1..], name)
  }

  lemma {:induction false} FirstAtIsFirst(pieces: seq<string>, name: string, i: nat)
    requires i < |pieces| && TrimSpace(pieces[i]) == name
    requires forall k :: 0 <= k < i ==> TrimSpace(pieces[k]) != name
    ensures FirstAt(pieces, name) == i
  {
    if i == 0 {
      assert TrimSpace(pieces[0]) == name;
    } else {
      assert forall k :: 0 <= k < i - 1 ==> pieces[1..][k] == pieces[k + 1];
      FirstAtIsFirst(pieces[1..], name, i - 1);
    }
  }

  // The names are in the order in which they are listed first.
  ghost predicate InOrder(names: seq<string>, pieces: seq<string>) {
    forall i, j :: 0 <= i < j < |names| ==> FirstAt(pieces, names[i]) < FirstAt(pieces, names[j])
  }

  /** The names between the commas, each once, in the order in which they come. */
  method SplitRequired(value: string) returns (names: seq<string>)
    ensures Distinct(names) && InOrder(names, Split(value, ','))
    ensures forall name :: name in names <==> Listed(Split(value, ','), |Split(value, ',')|, name)
  {
    names := [];
    var pieces := Split(value, ',');
    for i := 0 to |pieces|
      invariant Distinct(names) && InOrder(names, pieces)
      invariant forall k :: 0 <= k < |names| ==> FirstAt(pieces, names[k]) < i
      invariant forall name :: name in names <==> Listed(pieces, i, name)
    {
      var name := TrimSpace(pieces[i]);
      if name != "" && name !in names {
        assert !Listed(pieces, i, name);
        FirstAtIsFirst(pieces, name, i);
        names := names + [name];
      }
    }
  }

  // ---------- what the output says ----------

  function Count(lines: seq<Line>, test: string, action: string): nat {
    if lines == [] then 0
    else
      var last := lines[|lines| - 1];
      Count(lines[..|lines| - 1], test, action)
      + if last.Event? && last.test == test && last.action == action then 1 else 0
  }

  function OutputOf(lines: seq<Line>, test: string): string {
    if lines == [] then ""
    else
      var last := lines[|lines| - 1];
      OutputOf(lines[..|lines| - 1], test) + if last.Event? && last.test == test then last.output else ""
  }

  predicate Mentions(lines: seq<Line>, test: string) {
    exists i :: 0 <= i < |lines| && lines[i].Event? && lines[i].test == test
  }

  predicate Complete(a: Attempt) {
    a.readable && Garbled !in a.lines
  }

  // One pass, and nothing else.
  predicate PassedOnce(lines: seq<Line>, test: string) {
    Count(lines, test, "pass") == 1 && Count(lines, test, "skip") == 0 && Count(lines, test, "fail") == 0
  }

  predicate Says(r: TestResult, lines: seq<Line>, test: string) {
    && r.seen == Mentions(lines, test) && r.output == OutputOf(lines, test) && r.passed == Count(lines, test, "pass")
    && r.skipped == (Count(lines, test, "skip") > 0) && r.failed == (Count(lines, test, "fail") > 0)
  }

  ghost predicate Tallied(required: seq<string>, lines: seq<Line>, results: Results) {
    forall test :: if test in required then Says(ResultOf(results, test), lines, test) else test !in results
  }

  lemma OneMore(lines: seq<Line>, last: Line, test: string)
    ensures forall action :: Count(lines + [last], test, action) ==
                             Count(lines, test, action)
                             + if last.Event? && last.test == test && last.action == action then 1 else 0
    ensures OutputOf(lines + [last], test) ==
            OutputOf(lines, test) + if last.Event? && last.test == test then last.output else ""
    ensures Mentions(lines + [last], test) <==> Mentions(lines, test) || (last.Event? && last.test == test)
  {
    var all := lines + [last];
    assert all[..|all| - 1] == lines && all[|all| - 1] == last;
    if Mentions(lines, test) {
      var i :| 0 <= i < |lines| && lines[i].Event? && lines[i].test == test;
      assert all[i] == lines[i];
    }
  }

  // Counts of two parts of the output add up.
  lemma {:induction false} CountsAddUp(lines: seq<Line>, more: seq<Line>, test: string, action: string)
    ensures Count(lines + more, test, action) == Count(lines, test, action) + Count(more, test, action)
  {
    if more == [] {
      assert lines + more == lines;
    } else {
      hide Count, OutputOf, Mentions;
      var n := |more| - 1;
      CountsAddUp(lines, more[..n], test, action);
      OneMore(lines + more[..n], more[n], test);
      OneMore(more[..n], more[n], test);
      assert lines + more == (lines + more[..n]) + [more[n]];
      assert more == more[..n] + [more[n]];
    }
  }

  // What a test says in two parts of the output is put together in order.
  lemma {:induction false} OutputAddsUp(lines: seq<Line>, more: seq<Line>, test: string)
    ensures OutputOf(lines + more, test) == OutputOf(lines, test) + OutputOf(more, test)
  {
    if more == [] {
      assert lines + more == lines;
    } else {
      hide *;
      var n := |more| - 1;
      OutputAddsUp(lines, more[..n], test);
      var said := if more[n].Event? && more[n].test == test then more[n].output else "";
      OneMore(lines + more[..n], more[n], test);
      OneMore(more[..n], more[n], test);
      MoreJoined(lines, more);
      OutputsJoined(OutputOf(lines, test), OutputOf(more[..n], test), said);
    }
  }

  lemma MoreJoined(lines: seq<Line>, more: seq<Line>)
    requires more != []
    ensures var n := |more| - 1;
            lines + more == (lines + more[..n]) + [more[n]] && more == more[..n] + [more[n]]
  {
  }

  lemma OutputsJoined(a: string, b: string, c: string)
    ensures (a + b) + c == a + (b + c)
  {
  }

  /** A line counts for its test and its action alone. */
  lemma OneLineSays(line: Line, test: string, action: string)
    ensures Count([line], test, action) == if line.Event? && line.test == test && line.action == action then 1 else 0
    ensures OutputOf([line], test) == if line.Event? && line.test == test then line.output else ""
  {
    OneMore([], line, test);
    assert [] + [line] == [line];
  }

  // ---------- reading the output ----------

  function Tally(r: TestResult, e: Line): TestResult
    requires e.Event?
  {
    r.(seen := true, output := r.output + e.output, passed := r.passed + if e.action == "pass" then 1 else 0,
       skipped := r.skipped || e.action == "skip", failed := r.failed || e.action == "fail")
  }

  /** Tallies the events of the required tests; nothing, when the output is not complete. */
  method ParseEvents(required: seq<string>, a: Attempt) returns (report: Option<Results>)
    ensures report.Some? <==> Complete(a)
    ensures report.Some? ==> Tallied(required, a.lines, report.value)
  {
    var results: Results := map[];
    for i := 0 to |a.lines|
      invariant Garbled !in a.lines[..i]
      invariant Tallied(required, a.lines[..i], results)
    {
      var line := a.lines[i];
      assert a.lines[..i + 1] == a.lines[..i] + [line];
      if line.Garbled? {
        return None;
      }
      ghost var before := results;
      if line.Event? && line.test in required {
        results := results[line.test := Tally(ResultOf(results, line.test), line)];
      }
      forall test
        ensures if test in required then Says(ResultOf(results, test), a.lines[..i + 1], test) else test !in results
      {
        OneMore(a.lines[..i], line, test);
        assert test in required ==> Says(ResultOf(before, test), a.lines[..i], test);
      }
    }
    assert a.lines[..|a.lines|] == a.lines;
    return if a.readable then Some(results) else None;
  }

  // ---------- classifying ----------

  datatype Class = Fine | Skipped | Failed | Missing | Duplicate

  datatype Failure = Failure(missing: seq<string>, skipped: seq<string>, failed: seq<string>, duplicate: seq<string>)

  function ClassOf(r: TestResult): Class {
    if r.skipped then Skipped else if r.failed then Failed else if r.passed == 0 then Missing
    else if r.passed != 1 then Duplicate else Fine
  }

  function InClass(required: seq<string>, results: Results, class_: Class): seq<string> {
    if required == [] then []
    else
      var last := required[|required| - 1];
      InClass(required[..|required| - 1], results, class_)
      + if ClassOf(ResultOf(results, last)) == class_ then [last] else []
  }

  method ClassifyResults(required: seq<string>, results: Results) returns (f: Failure)
    ensures f == Failure(InClass(required, results, Missing), InClass(required, results, Skipped),
                         InClass(required, results, Failed), InClass(required, results, Duplicate))
  {
    f := Failure([], [], [], []);
    for i := 0 to |required|
      invariant f == Failure(InClass(required[..i], results, Missing), InClass(required[..i], results, Skipped),
                             InClass(required[..i], results, Failed), InClass(required[..i], results, Duplicate))
    {
      var test := required[i];
      assert required[..i + 1][..i] == required[..i];
      match ClassOf(ResultOf(results, test)) {
        case Skipped => f := f.(skipped := f.skipped + [test]);
        case Failed => f := f.(failed := f.failed + [test]);
        case Missing => f := f.(missing := f.missing + [test]);
        case Duplicate => f := f.(duplicate := f.duplicate + [test]);
        case Fine =>
      }
    }
    assert required[..|required|] == required;
  }

  predicate Empty(f: Failure) {
    f.missing == [] && f.skipped == [] && f.failed == [] && f.duplicate == []
  }

  lemma {:induction false} InClassContents(required: seq<string>, results: Results, class_: Class, test: string)
    ensures test in InClass(required, results, class_) <==>
              test in required && ClassOf(ResultOf(results, test)) == class_
  {
    if required == [] {
    } else {
      var n := |required| - 1;
      InClassContents(required[..n], results, class_, test);
      assert test in required <==> test in required[..n] || test == required[n];
    }
  }

  // A class has one test exactly when no other test is in it.
  lemma {:induction false} OnlyInClass(required: seq<string>, results: Results, class_: Class, test: string)
    requires Distinct(required) && test in required && ClassOf(ResultOf(results, test)) == class_
    ensures InClass(required, results, class_) == [test] <==>
              forall other :: other in required && other != test ==> ClassOf(ResultOf(results, other)) != class_
  {
    var n := |required| - 1;
    var before := required[..n];
    assert forall other :: other in required <==> other in before || other == required[n];
    if required[n] == test {
      assert test !in before;
      forall other ensures other in InClass(before, results, class_) <==>
          other in before && ClassOf(ResultOf(results, other)) == class_ {
        InClassContents(before, results, class_, other);
      }
      if InClass(before, results, class_) != [] {
        var other := InClass(before, results, class_)[0];
        assert other in InClass(before, results, class_);
      }
    } else {
      OnlyInClass(before, results, class_, test);
      InClassContents(before, results, class_, test);
    }
  }

  // ---------- one attempt ----------

  // The report of an attempt; none, when its output was not complete.
  datatype Report = Report(attempt: Attempt, results: Option<Results>, failure: Failure, verified: bool)

  /** Reads and classifies the output of the first attempt. */
  method FirstReport(required: seq<string>, a: Attempt) returns (r: Report)
    ensures r.attempt == a
    ensures r.results.Some? <==> Complete(a)
    ensures r.results.Some? ==> Tallied(required, a.lines, r.results.value)
    ensures r.results.Some? ==>
              r.failure == Failure(InClass(required, r.results.value, Missing),
                                   InClass(required, r.results.value, Skipped),
                                   InClass(required, r.results.value, Failed),
                                   InClass(required, r.results.value, Duplicate))
    ensures r.results.Some? ==> Sorted(required, a.lines, r.failure)
    ensures r.verified <==> Complete(a) && forall test :: test in required ==> PassedOnce(a.lines, test)
  {
    var results := ParseEvents(required, a);
    if results.None? {
      return Report(a, None, Failure([], [], [], []), false);
    }
    var failure := ClassifyResults(required, results.value);
    EmptyIff(required, results.value, failure);
    ListsSort(required, a.lines, results.value, failure);
    FineIff(required, a.lines, results.value);
    return Report(a, results, failure, Empty(failure));
  }

  /** Which list has which tests, by what the output says of them: a skip counts before a failure, and that before
      passes that are missing or too many. */
  ghost predicate Sorted(required: seq<string>, lines: seq<Line>, f: Failure) {
    forall test :: SortedTest(required, lines, f, test)
  }

  ghost predicate SortedTest(required: seq<string>, lines: seq<Line>, f: Failure, test: string) {
    && (test in f.skipped <==> test in required && Count(lines, test, "skip") > 0)
    && (test in f.failed <==>
        test in required && Count(lines, test, "fail") > 0 && Count(lines, test, "skip") == 0)
    && (test in f.missing <==>
        && test in required && Count(lines, test, "pass") == 0
        && Count(lines, test, "fail") == 0 && Count(lines, test, "skip") == 0)
    && (test in f.duplicate <==>
        && test in required && Count(lines, test, "pass") > 1
        && Count(lines, test, "fail") == 0 && Count(lines, test, "skip") == 0)
  }

  lemma ListsSort(required: seq<string>, lines: seq<Line>, results: Results, f: Failure)
    requires Tallied(required, lines, results)
    requires f == Failure(InClass(required, results, Missing), InClass(required, results, Skipped),
                          InClass(required, results, Failed), InClass(required, results, Duplicate))
    ensures Sorted(required, lines, f)
  {
    forall test ensures SortedTest(required, lines, f, test) {
      InClassContents(required, results, Missing, test);
      InClassContents(required, results, Skipped, test);
      InClassContents(required, results, Failed, test);
      InClassContents(required, results, Duplicate, test);
      assert test in required ==> Says(ResultOf(results, test), lines, test);
      hide InClass, OutputOf, Mentions;
    }
  }

  lemma EmptyIff(required: seq<string>, results: Results, f: Failure)
    requires f == Failure(InClass(required, results, Missing), InClass(required, results, Skipped),
                          InClass(required, results, Failed), InClass(required, results, Duplicate))
    ensures Empty(f) <==> forall test :: test in required ==> ClassOf(ResultOf(results, test)) == Fine
  {
    forall class_: Class, test ensures test in InClass(required, results, class_) <==>
        test in required && ClassOf(ResultOf(results, test)) == class_ {
      InClassContents(required, results, class_, test);
    }
    if !Empty(f) {
      var class_ :| class_ != Fine && InClass(required, results, class_) != [];
      assert InClass(required, results, class_)[0] in InClass(required, results, class_);
    }
  }

  lemma FineIff(required: seq<string>, lines: seq<Line>, results: Results)
    requires Tallied(required, lines, results)
    ensures forall test :: test in required ==> (ClassOf(ResultOf(results, test)) == Fine <==> PassedOnce(lines, test))
  {
    forall test | test in required ensures ClassOf(ResultOf(results, test)) == Fine <==> PassedOnce(lines, test) {
      assert Says(ResultOf(results, test), lines, test);
    }
  }

  /** Verifies that the second attempt ran no other required test, and the retried one to a single pass. */
  method RetryVerified(required: seq<string>, retried: string, a: Attempt) returns (ok: bool)
    ensures ok <==> Complete(a) && retried in required && PassedOnce(a.lines, retried)
                    && forall test :: test in required && test != retried ==> !Mentions(a.lines, test)
  {
    var results := ParseEvents(required, a);
    if results.None? || retried !in required {
      return false;
    }
    FineIff(required, a.lines, results.value);
    for i := 0 to |required|
      invariant forall k :: 0 <= k < i && required[k] != retried ==> !Mentions(a.lines, required[k])
    {
      if required[i] != retried {
        assert Says(ResultOf(results.value, required[i]), a.lines, required[i]);
        if ResultOf(results.value, required[i]).seen {
          return false;
        }
      }
    }
    return ClassOf(ResultOf(results.value, retried)) == Fine;
  }

  // ---------- the retry ----------

  predicate Contains(s: string, part: string) {
    exists i :: 0 <= i <= |s| - |part| && IsAt(s, part, i)
  }

  predicate IsAt(s: string, part: string, i: nat)
    requires i <= |s| - |part|
  {
    s[i..i + |part|] == part
  }

  lemma ContainsMeans(s: string, part: string)
    ensures Contains(s, part) <==> exists before, after :: s == before + part + after
  {
    if Contains(s, part) {
      var i :| 0 <= i <= |s| - |part| && IsAt(s, part, i);
      assert s == s[..i] + part + s[i + |part|..];
    }
    if before, after :| s == before + part + after {
      assert IsAt(s, part, |before|);
    }
  }

  // The first attempt failed, and only for this test: it never passed, and said the recognized thing.
  ghost predicate Recognized(required: seq<string>, marker: string, first: Attempt, test: string) {
    && marker != "" && !first.succeeded && Complete(first) && test in required
    && Count(first.lines, test, "fail") > 0
    && Count(first.lines, test, "pass") == 0 && Count(first.lines, test, "skip") == 0
    && Contains(OutputOf(first.lines, test), marker)
    && forall other :: other in required && other != test ==> PassedOnce(first.lines, other)
  }

  // The test is the only one with a class other than fine, and has failed.
  ghost predicate OnlyFails(required: seq<string>, results: Results, test: string) {
    forall other :: other in required ==> ClassOf(ResultOf(results, other)) == if other == test then Failed else Fine
  }

  lemma ClassEmpty(required: seq<string>, results: Results, class_: Class)
    ensures InClass(required, results, class_) == [] <==>
            forall test :: test in required ==> ClassOf(ResultOf(results, test)) != class_
  {
    forall test ensures test in InClass(required, results, class_) <==>
        test in required && ClassOf(ResultOf(results, test)) == class_ {
      InClassContents(required, results, class_, test);
    }
    if InClass(required, results, class_) != [] {
      assert InClass(required, results, class_)[0] in InClass(required, results, class_);
    }
  }

  lemma OnlyFailure(required: seq<string>, results: Results, test: string)
    requires Distinct(required) && test in required
    ensures (InClass(required, results, Failed) == [test] && InClass(required, results, Missing) == []
             && InClass(required, results, Skipped) == [] && InClass(required, results, Duplicate) == []) <==>
            OnlyFails(required, results, test)
  {
    ClassEmpty(required, results, Missing);
    ClassEmpty(required, results, Skipped);
    ClassEmpty(required, results, Duplicate);
    if ClassOf(ResultOf(results, test)) == Failed {
      OnlyInClass(required, results, Failed, test);
    } else {
      InClassContents(required, results, Failed, test);
    }
  }

  lemma OneFailure(required: seq<string>, lines: seq<Line>, results: Results, test: string)
    requires Tallied(required, lines, results) && test in required
    ensures OnlyFails(required, results, test) <==>
            (Count(lines, test, "fail") > 0 && Count(lines, test, "skip") == 0
             && forall other :: other in required && other != test ==> PassedOnce(lines, other))
  {
    FineIff(required, lines, results);
    assert Says(ResultOf(results, test), lines, test);
    assert ClassOf(ResultOf(results, test)) == Failed <==>
             Count(lines, test, "fail") > 0 && Count(lines, test, "skip") == 0;
  }

  method EligibleRetryTest(required: seq<string>, marker: string, r: Report) returns (test: Option<string>)
    requires Distinct(required) && (r.results.Some? <==> Complete(r.attempt))
    requires r.results.Some? ==> Tallied(required, r.attempt.lines, r.results.value)
    requires r.results.Some? ==>
               r.failure == Failure(InClass(required, r.results.value, Missing),
                                    InClass(required, r.results.value, Skipped),
                                    InClass(required, r.results.value, Failed),
                                    InClass(required, r.results.value, Duplicate))
    ensures test.Some? ==> Recognized(required, marker, r.attempt, test.value)
    ensures test.None? ==> forall t :: !Recognized(required, marker, r.attempt, t)
  {
    if marker == "" || r.attempt.succeeded || r.results.None? {
      return None;
    }
    forall t | t in required ensures
      (r.failure == Failure([], [], [t], []) <==>
       Count(r.attempt.lines, t, "fail") > 0 && Count(r.attempt.lines, t, "skip") == 0
       && forall other :: other in required && other != t ==> PassedOnce(r.attempt.lines, other))
      && Says(ResultOf(r.results.value, t), r.attempt.lines, t)
    {
      OnlyFailure(required, r.results.value, t);
      OneFailure(required, r.attempt.lines, r.results.value, t);
    }
    if |r.failure.failed| != 1 || r.failure.missing != [] || r.failure.skipped != [] || r.failure.duplicate != [] {
      return None;
    }
    var t := r.failure.failed[0];
    InClassContents(required, r.results.value, Failed, t);
    assert r.failure == Failure([], [], [t], []);
    var result := ResultOf(r.results.value, t);
    return if result.passed != 0 || !result.failed || !Contains(result.output, marker) then None else Some(t);
  }

  // ---------- the gate ----------

  ghost predicate CleanFirst(required: seq<string>, first: Attempt) {
    first.succeeded && Complete(first) && forall test :: test in required ==> PassedOnce(first.lines, test)
  }

  ghost predicate CleanSecond(required: seq<string>, second: Attempt, test: string) {
    && second.succeeded && Complete(second) && PassedOnce(second.lines, test)
    && forall other :: other in required && other != test ==> !Mentions(second.lines, other)
  }

  /** Runs the gate. It passes exactly when the first attempt is clean, or fails for one test in the recognized way
      and the second is clean for that test. */
  method Execute(required: seq<string>, marker: string, first: Attempt, secondOf: string -> Attempt)
      returns (passes: bool, retried: Option<string>)
    requires Distinct(required)
    ensures retried.Some? ==> Recognized(required, marker, first, retried.value)
    ensures retried.None? ==> forall test :: !Recognized(required, marker, first, test)
    ensures passes <==> if retried.Some? then CleanSecond(required, secondOf(retried.value), retried.value)
                        else CleanFirst(required, first)
  {
    var report := FirstReport(required, first);
    retried := EligibleRetryTest(required, marker, report);
    if retried.Some? {
      var second := secondOf(retried.value);
      var verified := RetryVerified(required, retried.value, second);
      passes := second.succeeded && verified;
    } else {
      passes := first.succeeded && report.verified;
    }
  }

  /** Over the output of all attempts, a gate that passed saw each required test pass exactly once and never skip;
      none failed but the retried one, and that in the first attempt only. */
  lemma PassMeans(required: seq<string>, marker: string, first: Attempt, second: Attempt, retried: Option<string>,
                  test: string)
    requires test in required
    requires retried.Some? ==>
               Recognized(required, marker, first, retried.value) && CleanSecond(required, second, retried.value)
    requires retried.None? ==> CleanFirst(required, first) && second.lines == []
    ensures Count(first.lines, test, "pass") + Count(second.lines, test, "pass") == 1
    ensures Count(first.lines, test, "skip") + Count(second.lines, test, "skip") == 0
    ensures Count(second.lines, test, "fail") == 0
    ensures Count(first.lines, test, "fail") > 0 <==> retried == Some(test)
  {
    if retried.Some? && retried.value != test {
      NotMentioned(second.lines, test);
    }
  }

  lemma {:induction false} NotMentioned(lines: seq<Line>, test: string)
    requires !Mentions(lines, test)
    ensures forall action :: Count(lines, test, action) == 0
  {
    if lines == [] {
    } else {
      var n := |lines| - 1;
      assert !Mentions(lines[..n], test) by {
        assert forall i :: 0 <= i < n ==> lines[..n][i] == lines[i];
      }
      NotMentioned(lines[..n], test);
    }
  }
}
