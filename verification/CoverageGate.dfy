/** The scope of a changed-package run: which tests to run and whose floors to check. */
module AffectedScope {

  /** A workspace package. deps are the packages it links, testDeps those its test binary links. */
  datatype Package = Package(
    importPath: string,
    modulePath: string,
    relative: string,
    deps: set<string>,
    testDeps: set<string>,
    hasTests: bool,
    standalone: bool)

  // A test package, by its module and its argument there.
  datatype TestPackage = TestPackage(modulePath: string, relative: string)

  datatype Scope = Scope(changed: set<string>, tests: set<TestPackage>, check: set<string>)

  // "p [q.test]" names the package p.
  function StripVariant(dep: string): string {
    if dep == "" || dep[0] == ' ' then "" else [dep[0]] + StripVariant(dep[1..])
  }

  method StripTestVariants(deps: seq<string>) returns (stripped: set<string>)
    ensures forall p :: p in stripped <==> exists k :: 0 <= k < |deps| && p == StripVariant(deps[k])
  {
    stripped := {};
    for i := 0 to |deps|
      invariant forall p :: p in stripped <==> exists k :: 0 <= k < i && p == StripVariant(deps[k])
    {
      stripped := stripped + {StripVariant(deps[i])};
    }
  }

  lemma {:induction false} VariantsName(package: string, variant: string)
    requires ' ' !in package
    ensures StripVariant(package) == package && StripVariant(package + " " + variant) == package
  {
    if package == "" {
    } else {
      VariantsName(package[1..], variant);
      assert (package + " " + variant)[1..] == package[1..] + " " + variant;
    }
  }

  method Intersects(these: set<string>, changed: set<string>) returns (yes: bool)
    ensures yes <==> these * changed != {}
  {
    var rest := changed;
    while rest != {}
      invariant rest <= changed && these * (changed - rest) == {}
      decreases |rest|
    {
      var importPath :| importPath in rest;
      if importPath in these {
        assert importPath in these * changed;
        return true;
      }
      rest := rest - {importPath};
    }
    assert changed - rest == changed;
    return false;
  }

  // The test binary of the package links a changed package.
  ghost predicate Selects(p: Package, changed: set<string>) {
    p.hasTests && p.testDeps * changed != {}
  }

  // The package is changed or imports a changed package.
  ghost predicate Checks(p: Package, changed: set<string>) {
    !p.standalone && (p.importPath in changed || p.deps * changed != {})
  }

  ghost predicate IsScope(scope: Scope, changed: set<string>, packages: map<string, Package>, done: set<string>)
    requires done <= packages.Keys
  {
    && scope.changed == changed
    && (forall t :: t in scope.tests <==>
          exists k :: k in done && Selects(packages[k], changed)
              && t == TestPackage(packages[k].modulePath, packages[k].relative))
    && (forall p :: p in scope.check <==>
        exists k :: k in done && Checks(packages[k], changed) && p == packages[k].importPath)
  }

  /** Selects the tests whose binary links a changed package and checks the packages that are changed or
      import a changed one, over the packages in whatever order they come. */
  method CloseOverChanged(changed: set<string>, packages: map<string, Package>) returns (scope: Scope)
    ensures IsScope(scope, changed, packages, packages.Keys)
  {
    scope := Scope(changed, {}, {});
    var rest := packages.Keys;
    while rest != {}
      invariant rest <= packages.Keys && IsScope(scope, changed, packages, packages.Keys - rest)
      decreases |rest|
    {
      var k :| k in rest;
      var p := packages[k];
      ghost var before, done := scope, packages.Keys - rest;
      var links := Intersects(p.testDeps, changed);
      if p.hasTests && links {
        scope := scope.(tests := scope.tests + {TestPackage(p.modulePath, p.relative)});
      }
      var imports := Intersects(p.deps, changed);
      if !p.standalone && (p.importPath in changed || imports) {
        scope := scope.(check := scope.check + {p.importPath});
      }
      ScopeGrows(before, scope, changed, packages, done, k);
      assert packages.Keys - (rest - {k}) == done + {k};
      rest := rest - {k};
    }
    assert packages.Keys - rest == packages.Keys;
  }

  lemma ScopeGrows(before: Scope, after: Scope, changed: set<string>, packages: map<string, Package>,
                   done: set<string>, k: string)
    requires done <= packages.Keys && k in packages && IsScope(before, changed, packages, done)
    requires after.changed == before.changed
    requires after.tests == before.tests + if Selects(packages[k], changed)
                                           then {TestPackage(packages[k].modulePath, packages[k].relative)} else {}
    requires after.check == before.check + if Checks(packages[k], changed) then {packages[k].importPath} else {}
    ensures IsScope(after, changed, packages, done + {k})
  {
    var more := done + {k};
    forall t ensures t in after.tests <==>
        exists j :: j in more && Selects(packages[j], changed)
            && t == TestPackage(packages[j].modulePath, packages[j].relative)
    {
      if t in before.tests {
        var j :| j in done && Selects(packages[j], changed)
            && t == TestPackage(packages[j].modulePath, packages[j].relative);
        assert j in more;
      } else if t in after.tests {
        assert k in more;
      }
    }
    forall p ensures p in after.check <==>
        exists j :: j in more && Checks(packages[j], changed) && p == packages[j].importPath {
      if p in before.check {
        var j :| j in done && Checks(packages[j], changed) && p == packages[j].importPath;
        assert j in more;
      } else if p in after.check {
        assert k in more;
      }
    }
  }
}

/** The comparison of measurements with the floors of a manifest. */
module CoverageComparison {
  import opened Options
  import opened GoText
  import opened CoverageProfiles
  import opened CoverageFloors

  /** A registration: a minimum in hundredths of a percent, or an exception. */
  datatype Entry = Entry(importPath: string, minimumCents: int, hasMinimum: bool, hasException: bool)

  datatype ManifestError = EmptyPath | DuplicatePath | BothFields | NeitherField | Unsorted | OutOfRange | NoopMinimum

  datatype Finding =
    | Unregistered(importPath: string)
    | Unmeasured(importPath: string)
    | Violation(importPath: string, expectedCents: int, actualCents: int, deltaCents: int)
    | Stale(importPath: string, minimumCents: int, actualCents: int, allowedCents: int, suggestedCents: int)
    | MeasuredException(importPath: string, coverage: Coverage)

  datatype Comparison = Compared(findings: set<Finding>) | BadManifest(error: ManifestError)

  // ---------- the manifest ----------

  // Strings are ordered character by character.
  predicate Less(a: string, b: string) {
    b != "" && (a == "" || a[0] < b[0] || (a[0] == b[0] && Less(a[1..], b[1..])))
  }

  lemma {:induction false} LessTransitive(a: string, b: string, c: string)
    requires Less(a, b) && Less(b, c)
    ensures Less(a, c)
  {
    if a == "" || a[0] < b[0] || b[0] < c[0] {
    } else {
      LessTransitive(a[1..], b[1..], c[1..]);
    }
  }

  lemma {:induction false} LessIrreflexive(a: string)
    ensures !Less(a, a)
  {
    if a == "" {
    } else {
      LessIrreflexive(a[1..]);
    }
  }

  predicate ValidEntry(e: Entry) {
    && !IsBlank(e.importPath)
    && e.hasMinimum != e.hasException
    && (e.hasMinimum ==> COMPARISON_BAND < e.minimumCents <= 10000)
  }

  // Every entry is valid and the paths are in strictly ascending order throughout.
  ghost predicate ValidManifest(manifest: seq<Entry>) {
    && (forall i :: 0 <= i < |manifest| ==> ValidEntry(manifest[i]))
    && (forall i, j :: 0 <= i < j < |manifest| ==> Less(manifest[i].importPath, manifest[j].importPath))
  }

  function EntryError(e: Entry, previous: string, seen: set<string>): Option<ManifestError> {
    if IsBlank(e.importPath) then Some(EmptyPath)
    else if e.importPath in seen then Some(DuplicatePath)
    else if e.hasMinimum && e.hasException then Some(BothFields)
    else if !e.hasMinimum && !e.hasException then Some(NeitherField)
    else if previous != "" && !Less(previous, e.importPath) then Some(Unsorted)
    else if e.hasMinimum && (e.minimumCents < 0 || e.minimumCents > 10000) then Some(OutOfRange)
    else if e.hasMinimum && e.minimumCents <= COMPARISON_BAND then Some(NoopMinimum)
    else None
  }

  // What an error says about the entry it is about.
  ghost predicate Faulty(manifest: seq<Entry>, i: nat, error: ManifestError)
    requires i < |manifest|
  {
    var e := manifest[i];
    match error
    case EmptyPath => IsBlank(e.importPath)
    case DuplicatePath => exists k :: 0 <= k < i && manifest[k].importPath == e.importPath
    case BothFields => e.hasMinimum && e.hasException
    case NeitherField => !e.hasMinimum && !e.hasException
    case Unsorted => i > 0 && !Less(manifest[i - 1].importPath, e.importPath)
    case OutOfRange => e.hasMinimum && !(0 <= e.minimumCents <= 10000)
    case NoopMinimum => e.hasMinimum && 0 <= e.minimumCents <= 10
  }

  // The error is about the first entry that makes the manifest invalid.
  ghost predicate FirstFault(manifest: seq<Entry>, error: ManifestError) {
    exists i: nat :: i < |manifest| && ValidManifest(manifest[..i]) && Faulty(manifest, i, error)
  }

  /** Accepts exactly the valid manifests, though it compares each path with the one before it only; an error is
      true of the first entry that is wrong. */
  method ValidateManifest(manifest: seq<Entry>) returns (error: Option<ManifestError>)
    ensures error.None? <==> ValidManifest(manifest)
    ensures error.Some? ==> FirstFault(manifest, error.value)
  {
    var previous, seen := "", {};
    for index := 0 to |manifest|
      invariant ValidManifest(manifest[..index])
      invariant previous == if index == 0 then "" else manifest[index - 1].importPath
      invariant forall p :: p in seen <==> exists k :: 0 <= k < index && manifest[k].importPath == p
    {
      var entry := manifest[index];
      error := EntryError(entry, previous, seen);
      if error.Some? {
        RejectedRightly(manifest, index, seen);
        assert Faulty(manifest, index, error.value);
        return;
      }
      SortedSoFar(manifest, index);
      seen, previous := seen + {entry.importPath}, entry.importPath;
    }
    assert manifest[..|manifest|] == manifest;
    return None;
  }

  lemma RejectedRightly(manifest: seq<Entry>, index: nat, seen: set<string>)
    requires index < |manifest|
    requires EntryError(manifest[index], if index == 0 then "" else manifest[index - 1].importPath, seen).Some?
    requires forall p :: p in seen <==> exists k :: 0 <= k < index && manifest[k].importPath == p
    ensures !ValidManifest(manifest)
  {
    if manifest[index].importPath in seen {
      var k :| 0 <= k < index && manifest[k].importPath == manifest[index].importPath;
      LessIrreflexive(manifest[index].importPath);
    }
  }

  lemma SortedSoFar(manifest: seq<Entry>, index: nat)
    requires index < |manifest| && ValidManifest(manifest[..index]) && ValidEntry(manifest[index])
    requires index > 0 ==> Less(manifest[index - 1].importPath, manifest[index].importPath)
    ensures ValidManifest(manifest[..index + 1])
  {
    var before := manifest[..index];
    forall i | 0 <= i < index ensures Less(manifest[i].importPath, manifest[index].importPath) {
      if i < index - 1 {
        assert Less(before[i].importPath, before[index - 1].importPath);
        LessTransitive(manifest[i].importPath, manifest[index - 1].importPath, manifest[index].importPath);
      }
    }
  }

  // ---------- the verdict on one package ----------

  // Measurements that make sense: covered statements are not negative.
  predicate Sane(measurements: map<string, Coverage>) {
    forall p :: p in measurements ==> measurements[p].covered >= 0
  }

  function FloorFindings(e: Entry, c: Coverage): set<Finding>
    requires c.covered >= 0
  {
    var actual := ActualCents(c);
    if Violated(e.minimumCents, c) then {Violation(e.importPath, e.minimumCents, actual, actual - e.minimumCents)}
    else if actual - e.minimumCents > AllowedHeadroom(c.total) then
      {Stale(e.importPath, e.minimumCents, actual, AllowedHeadroom(c.total), SuggestedMinimum(c))}
    else {}
  }

  // What a registered package is found to be, given its measurement.
  function Verdict(e: Entry, measured: Option<Coverage>): set<Finding>
    requires measured.Some? ==> measured.value.covered >= 0
  {
    if e.hasException then
      if measured.Some? && measured.value.covered > 0 then {MeasuredException(e.importPath, measured.value)} else {}
    else if measured.None? || measured.value.total == 0 then {Unmeasured(e.importPath)}
    else FloorFindings(e, measured.value)
  }

  function Lookup(measurements: map<string, Coverage>, p: string): Option<Coverage> {
    if p in measurements then Some(measurements[p]) else None
  }

  ghost predicate Registers(manifest: seq<Entry>, p: string) {
    exists i :: 0 <= i < |manifest| && manifest[i].importPath == p
  }

  // The findings of a full comparison.
  ghost predicate FullFinding(manifest: seq<Entry>, measurements: map<string, Coverage>, f: Finding)
    requires Sane(measurements)
  {
    || (f.Unregistered? && f.importPath in measurements && measurements[f.importPath].total != 0
        && !Registers(manifest, f.importPath))
    || exists i :: 0 <= i < |manifest| && f in Verdict(manifest[i], Lookup(measurements, manifest[i].importPath))
  }

  // The findings of a comparison of selected packages.
  ghost predicate SelectedFinding(manifest: seq<Entry>, selected: set<string>, measurements: map<string, Coverage>,
                                  f: Finding)
    requires Sane(measurements)
  {
    || (f.Unregistered? && f.importPath in selected && !Registers(manifest, f.importPath))
    || exists i :: 0 <= i < |manifest| && manifest[i].importPath in selected
                   && f in Verdict(manifest[i], Lookup(measurements, manifest[i].importPath))
  }

  ghost predicate HasStatements(measurements: map<string, Coverage>, p: string) {
    p in measurements && measurements[p].total != 0
  }

  /** When there is which finding about a registered package, and with which numbers. */
  ghost predicate IsFound(e: Entry, measurements: map<string, Coverage>, f: Finding) {
    && f.importPath == e.importPath
    && match f
       case Unregistered(_) => false
       case Unmeasured(p) => !e.hasException && !HasStatements(measurements, p)
       case Violation(p, expected, actual, delta) =>
         && !e.hasException && HasStatements(measurements, p) && Rounded(measurements[p], actual)
         && expected == e.minimumCents && actual + 10 < expected && delta == actual - expected
       case Stale(p, minimum, actual, allowed, suggested) =>
         && !e.hasException && HasStatements(measurements, p) && Rounded(measurements[p], actual)
         && Headroom(measurements[p].total, allowed)
         && minimum == e.minimumCents && actual + 10 >= minimum && actual - minimum > allowed
         && suggested == (if actual - allowed / 2 < 20 then 20 else actual - allowed / 2)
       case MeasuredException(p, c) => e.hasException && p in measurements && measurements[p] == c && c.covered > 0
  }

  lemma VerdictIs(e: Entry, measurements: map<string, Coverage>, f: Finding)
    requires Sane(measurements)
    ensures f in Verdict(e, Lookup(measurements, e.importPath)) <==> IsFound(e, measurements, f)
  {
    if HasStatements(measurements, e.importPath) {
      var c := measurements[e.importPath];
      match f {
        case Violation(_, _, actual, _) => ActualIsRounded(c, actual);
        case Stale(_, _, actual, allowed, _) =>
          ActualIsRounded(c, actual);
          AllowedIsHeadroom(c.total, allowed);
        case _ =>
      }
    }
  }

  // A registered package is as it should be.
  ghost predicate Met(e: Entry, measurements: map<string, Coverage>) {
    if e.hasException then e.importPath in measurements ==> measurements[e.importPath].covered <= 0
    else
      && HasStatements(measurements, e.importPath)
      && forall a, h :: Rounded(measurements[e.importPath], a) && Headroom(measurements[e.importPath].total, h) ==>
                          e.minimumCents - 10 <= a <= e.minimumCents + h
  }

  // Every registered package is as it should be, and every package with statements is registered.
  ghost predicate AllMet(manifest: seq<Entry>, measurements: map<string, Coverage>) {
    && (forall i :: 0 <= i < |manifest| ==> Met(manifest[i], measurements))
    && (forall p :: HasStatements(measurements, p) ==> Registers(manifest, p))
  }

  // Every selected package is registered and as it should be.
  ghost predicate SelectedMet(manifest: seq<Entry>, selected: set<string>, measurements: map<string, Coverage>) {
    && (forall i :: 0 <= i < |manifest| && manifest[i].importPath in selected ==> Met(manifest[i], measurements))
    && (forall p :: p in selected ==> Registers(manifest, p))
  }

  lemma MetIsSilent(e: Entry, measurements: map<string, Coverage>)
    requires Sane(measurements)
    ensures Met(e, measurements) <==> Verdict(e, Lookup(measurements, e.importPath)) == {}
  {
    if !e.hasException && HasStatements(measurements, e.importPath) {
      var c := measurements[e.importPath];
      ActualIsRounded(c, ActualCents(c));
      AllowedIsHeadroom(c.total, AllowedHeadroom(c.total));
      forall a, h | Rounded(c, a) && Headroom(c.total, h) ensures a == ActualCents(c) && h == AllowedHeadroom(c.total) {
        ActualIsRounded(c, a);
        AllowedIsHeadroom(c.total, h);
      }
    }
  }

  /** The findings of a full comparison, each with its numbers, and when there are none. */
  lemma FullFindings(manifest: seq<Entry>, measurements: map<string, Coverage>)
    requires Sane(measurements)
    ensures forall f :: FullFinding(manifest, measurements, f) <==>
              || (f.Unregistered? && HasStatements(measurements, f.importPath) && !Registers(manifest, f.importPath))
              || exists i :: 0 <= i < |manifest| && IsFound(manifest[i], measurements, f)
    ensures (forall f :: !FullFinding(manifest, measurements, f)) <==> AllMet(manifest, measurements)
  {
    forall f, i | 0 <= i < |manifest|
      ensures f in Verdict(manifest[i], Lookup(measurements, manifest[i].importPath)) <==>
              IsFound(manifest[i], measurements, f)
    {
      VerdictIs(manifest[i], measurements, f);
    }
    NothingFound(manifest, measurements);
  }

  lemma NothingFound(manifest: seq<Entry>, measurements: map<string, Coverage>)
    requires Sane(measurements)
    ensures (forall f :: !FullFinding(manifest, measurements, f)) <==> AllMet(manifest, measurements)
  {
    hide Verdict, Met;
    forall i | 0 <= i < |manifest|
      ensures Met(manifest[i], measurements) <==>
                Verdict(manifest[i], Lookup(measurements, manifest[i].importPath)) == {}
    {
      MetIsSilent(manifest[i], measurements);
    }
    if forall f :: !FullFinding(manifest, measurements, f) {
      forall i | 0 <= i < |manifest| ensures Met(manifest[i], measurements) {
        var verdict := Verdict(manifest[i], Lookup(measurements, manifest[i].importPath));
        forall f ensures f !in verdict {
          assert !FullFinding(manifest, measurements, f);
        }
      }
      forall p | HasStatements(measurements, p) ensures Registers(manifest, p) {
        assert !FullFinding(manifest, measurements, Unregistered(p));
      }
    }
  }

  /** The findings about the selected packages, and when there are none. */
  lemma SelectedFindings(manifest: seq<Entry>, selected: set<string>, measurements: map<string, Coverage>)
    requires Sane(measurements)
    ensures forall f :: SelectedFinding(manifest, selected, measurements, f) <==>
              && f.importPath in selected
              && (|| (f.Unregistered? && !Registers(manifest, f.importPath))
                  || exists i :: 0 <= i < |manifest| && IsFound(manifest[i], measurements, f))
    ensures (forall f :: !SelectedFinding(manifest, selected, measurements, f)) <==>
              SelectedMet(manifest, selected, measurements)
  {
    forall f, i | 0 <= i < |manifest|
      ensures f in Verdict(manifest[i], Lookup(measurements, manifest[i].importPath)) <==>
              IsFound(manifest[i], measurements, f)
    {
      VerdictIs(manifest[i], measurements, f);
    }
    NothingSelected(manifest, selected, measurements);
  }

  lemma NothingSelected(manifest: seq<Entry>, selected: set<string>, measurements: map<string, Coverage>)
    requires Sane(measurements)
    ensures (forall f :: !SelectedFinding(manifest, selected, measurements, f)) <==>
              SelectedMet(manifest, selected, measurements)
  {
    hide Verdict, Met;
    forall i | 0 <= i < |manifest|
      ensures Met(manifest[i], measurements) <==>
                Verdict(manifest[i], Lookup(measurements, manifest[i].importPath)) == {}
    {
      MetIsSilent(manifest[i], measurements);
    }
    if forall f :: !SelectedFinding(manifest, selected, measurements, f) {
      forall i | 0 <= i < |manifest| && manifest[i].importPath in selected ensures Met(manifest[i], measurements) {
        var verdict := Verdict(manifest[i], Lookup(measurements, manifest[i].importPath));
        forall f ensures f !in verdict {
          assert !SelectedFinding(manifest, selected, measurements, f);
        }
      }
      forall p | p in selected ensures Registers(manifest, p) {
        assert !SelectedFinding(manifest, selected, measurements, Unregistered(p));
      }
    }
  }

  // The registrations by path: a map that the loops look entries up in.
  method Registered(manifest: seq<Entry>) returns (registered: map<string, Entry>)
    requires ValidManifest(manifest)
    ensures forall p :: p in registered <==> Registers(manifest, p)
    ensures forall i :: 0 <= i < |manifest| ==>
              manifest[i].importPath in registered && registered[manifest[i].importPath] == manifest[i]
  {
    registered := map[];
    for i := 0 to |manifest|
      invariant forall p :: p in registered <==> exists k :: 0 <= k < i && manifest[k].importPath == p
      invariant forall k :: 0 <= k < i ==>
                  manifest[k].importPath in registered && registered[manifest[k].importPath] == manifest[k]
    {
      forall k | 0 <= k < i ensures manifest[k].importPath != manifest[i].importPath {
        LessIrreflexive(manifest[i].importPath);
      }
      registered := registered[manifest[i].importPath := manifest[i]];
    }
  }

  // The measured packages without a registration.
  method UnregisteredMeasurements(registered: map<string, Entry>, measurements: map<string, Coverage>)
    returns (findings: set<Finding>)
    ensures forall f :: f in findings <==>
              f.Unregistered? && f.importPath in measurements && measurements[f.importPath].total != 0
                  && f.importPath !in registered
  {
    findings := {};
    var rest := measurements.Keys;
    while rest != {}
      invariant rest <= measurements.Keys
      invariant forall f :: f in findings <==>
                  (f.Unregistered? && f.importPath in measurements && f.importPath !in rest
                   && measurements[f.importPath].total != 0 && f.importPath !in registered)
      decreases |rest|
    {
      var p :| p in rest;
      if measurements[p].total != 0 && p !in registered {
        findings := findings + {Unregistered(p)};
      }
      rest := rest - {p};
    }
  }

  /** Compares every registered package with its measurement, and reports measured packages that are
      not registered. */
  method Compare(manifest: seq<Entry>, measurements: map<string, Coverage>) returns (r: Comparison)
    requires Sane(measurements)
    ensures r.Compared? <==> ValidManifest(manifest)
    ensures r.BadManifest? ==> FirstFault(manifest, r.error)
    ensures r.Compared? ==> forall f :: f in r.findings <==> FullFinding(manifest, measurements, f)
    ensures r.Compared? ==> (r.findings == {} <==> AllMet(manifest, measurements))
  {
    var error := ValidateManifest(manifest);
    if error.Some? {
      return BadManifest(error.value);
    }
    var registered := Registered(manifest);
    var findings := UnregisteredMeasurements(registered, measurements);
    ghost var unregistered := findings;
    for i := 0 to |manifest|
      invariant forall f :: f in findings <==>
                  || f in unregistered
                  || exists k :: 0 <= k < i && f in Verdict(manifest[k], Lookup(measurements, manifest[k].importPath))
    {
      findings := findings + Verdict(manifest[i], Lookup(measurements, manifest[i].importPath));
    }
    FullFindings(manifest, measurements);
    return Compared(findings);
  }

  function Elements(s: seq<string>): set<string> {
    set p | p in s
  }

  /** Compares only the selected packages; a selected package without a registration is reported whether
      it was measured or not. */
  method CompareSelected(manifest: seq<Entry>, selected: seq<string>, measurements: map<string, Coverage>)
      returns (r: Comparison)
    requires Sane(measurements)
    ensures r.Compared? <==> ValidManifest(manifest)
    ensures r.BadManifest? ==> FirstFault(manifest, r.error)
    ensures r.Compared? ==> forall f :: f in r.findings <==>
              SelectedFinding(manifest, Elements(selected), measurements, f)
    ensures r.Compared? ==> (r.findings == {} <==> SelectedMet(manifest, Elements(selected), measurements))
  {
    var error := ValidateManifest(manifest);
    if error.Some? {
      return BadManifest(error.value);
    }
    var registered := Registered(manifest);
    var findings: set<Finding>, seen: set<string> := {}, {};
    for i := 0 to |selected|
      invariant forall p :: p in seen <==> exists k :: 0 <= k < i && selected[k] == p
      invariant forall f :: f in findings <==> SelectedFinding(manifest, seen, measurements, f)
    {
      var p := selected[i];
      if p !in seen {
        SelectOne(manifest, registered, seen, measurements, p);
        findings := findings + if p !in registered then {Unregistered(p)}
            else Verdict(registered[p], Lookup(measurements, p));
        seen := seen + {p};
      }
    }
    assert seen == Elements(selected);
    SelectedFindings(manifest, seen, measurements);
    return Compared(findings);
  }

  lemma SelectOne(manifest: seq<Entry>, registered: map<string, Entry>, seen: set<string>,
                  measurements: map<string, Coverage>, p: string)
    requires Sane(measurements) && ValidManifest(manifest)
    requires forall q :: q in registered <==> Registers(manifest, q)
    requires forall i :: 0 <= i < |manifest| ==>
               manifest[i].importPath in registered && registered[manifest[i].importPath] == manifest[i]
    ensures forall f :: SelectedFinding(manifest, seen + {p}, measurements, f) <==>
              || SelectedFinding(manifest, seen, measurements, f)
              || f in if p !in registered then {Unregistered(p)} else Verdict(registered[p], Lookup(measurements, p))
  {
    if p in registered {
      var i :| 0 <= i < |manifest| && manifest[i].importPath == p;
      assert registered[p] == manifest[i];
    }
  }
}

/** A changed-package run gives the packages it checks the verdicts of the full run. */
module ScopedRun {
  import opened Options
  import opened AffectedScope
  import opened CoverageProfiles
  import opened CoverageFloors
  import opened CoverageComparison

  /** The test run of a workspace: what each test binary reports. */
  datatype Run = Run(packages: map<string, Package>, reports: map<string, seq<Line>>) {
    ghost predicate Valid() {
      // Packages are listed under their import path, and only test packages report.
      && (forall k :: k in packages ==> packages[k].importPath == k)
      && (forall t :: t in reports ==> t in packages && packages[t].hasTests)
      // Linking is transitive.
      && (forall t, q :: t in reports && q in packages && q in packages[t].testDeps ==>
          packages[q].deps <= packages[t].testDeps)
      // A binary reports blocks of packages it links.
      && (forall t, l :: t in reports && l in reports[t] && Counts(l) ==>
          PackageOf(l.fileRange).value in packages[t].testDeps)
    }

    // Exactly the lines that these test packages report, in any order and any number of times.
    ghost predicate Reported(lines: seq<Line>, tests: set<string>)
      requires tests <= reports.Keys
    {
      forall l :: l in lines <==> exists t :: t in tests && l in reports[t]
    }

    // The test packages that a scope selects.
    ghost function Selected(scope: Scope): set<string>
      requires Valid()
    {
      set t | t in reports && TestPackage(packages[t].modulePath, packages[t].relative) in scope.tests
    }
  }

  /** Every test that reports a block of a checked package is selected. */
  lemma ReportersAreSelected(run: Run, changed: set<string>, scope: Scope, t: string, l: Line)
    requires run.Valid() && IsScope(scope, changed, run.packages, run.packages.Keys)
    requires t in run.reports && l in run.reports[t] && Counts(l) && PackageOf(l.fileRange).value in scope.check
    ensures t in run.Selected(scope)
  {
    var p := PackageOf(l.fileRange).value;
    var k :| k in run.packages && Checks(run.packages[k], changed) && p == run.packages[k].importPath;
    assert k == p && p in run.packages[t].testDeps;
    if p in changed {
      assert p in run.packages[t].testDeps * changed;
    } else {
      var c :| c in run.packages[p].deps * changed;
      assert c in run.packages[t].testDeps * changed;
    }
    assert Selects(run.packages[t], changed);
  }

  // The blocks of one package.
  ghost function Of(blocks: Blocks, p: string): Blocks {
    map k | k in blocks && blocks[k].package == p :: blocks[k]
  }

  // A scoped merge sees the same counted lines at a location of a checked package.
  lemma SameLinesAt(run: Run, changed: set<string>, scope: Scope, full: seq<Line>, scoped: seq<Line>, l: Line)
    requires run.Valid() && IsScope(scope, changed, run.packages, run.packages.Keys)
    requires run.Reported(full, run.reports.Keys) && run.Reported(scoped, run.Selected(scope))
    requires Counts(l) && PackageOf(l.fileRange).value in scope.check
    ensures l in full <==> l in scoped
  {
    if l in full {
      var t :| t in run.reports && l in run.reports[t];
      ReportersAreSelected(run, changed, scope, t, l);
    }
  }

  lemma ScopedIsConsistent(run: Run, scope: Scope, full: seq<Line>, scoped: seq<Line>)
    requires run.Valid() && run.Reported(full, run.reports.Keys) && run.Reported(scoped, run.Selected(scope))
    requires Consistent(full)
    ensures Consistent(scoped)
  {
    assert forall l :: l in scoped ==> l in full;
  }

  // The two inputs have the same counted lines of package p.
  ghost predicate AgreeOn(a: seq<Line>, b: seq<Line>, p: string) {
    forall l :: Counts(l) && PackageOf(l.fileRange).value == p ==> (l in a <==> l in b)
  }

  lemma SameBlocksOf(a: seq<Line>, b: seq<Line>, x: Blocks, y: Blocks, p: string)
    requires AgreeOn(a, b, p) && Represents(x, a) && Represents(y, b)
    ensures forall k :: k in Of(x, p) ==> k in Of(y, p) && Of(y, p)[k] == Of(x, p)[k]
  {
    forall k | k in Of(x, p) ensures k in Of(y, p) && Of(y, p)[k] == Of(x, p)[k] {
      assert Represented(x, a, k);
      var l :| At(l, a, k);
      assert l in b && k in y;
      assert Represented(y, b, k);
      assert forall l :: At(l, a, k) <==> At(l, b, k);
    }
  }

  lemma SameOf(a: seq<Line>, b: seq<Line>, x: Blocks, y: Blocks, p: string)
    requires AgreeOn(a, b, p) && Represents(x, a) && Represents(y, b)
    ensures Of(x, p) == Of(y, p)
  {
    SameBlocksOf(a, b, x, y, p);
    SameBlocksOf(b, a, y, x, p);
  }

  // Only its own blocks measure a package.
  lemma {:induction false} StatementsOf(blocks: Blocks, keys: set<string>, p: string, coveredOnly: bool)
    requires keys <= blocks.Keys
    ensures Statements(blocks, keys, p, coveredOnly) ==
              Statements(Of(blocks, p), keys * Of(blocks, p).Keys, p, coveredOnly)
    decreases |keys|
  {
    var own := Of(blocks, p);
    if keys == {} {
    } else {
      var k :| k in keys;
      StatementsRemove(blocks, keys, p, coveredOnly, k);
      StatementsOf(blocks, keys - {k}, p, coveredOnly);
      if k in own {
        StatementsRemove(own, keys * own.Keys, p, coveredOnly, k);
        assert (keys - {k}) * own.Keys == keys * own.Keys - {k};
      } else {
        assert (keys - {k}) * own.Keys == keys * own.Keys;
      }
    }
  }

  lemma LookupOf(measurements: map<string, Coverage>, blocks: Blocks, p: string)
    requires Measures(measurements, blocks)
    ensures Lookup(measurements, p) == if Of(blocks, p) == map[] then None else Some(Measured(Of(blocks, p), p))
  {
    var own := Of(blocks, p);
    StatementsOf(blocks, blocks.Keys, p, true);
    StatementsOf(blocks, blocks.Keys, p, false);
    assert blocks.Keys * own.Keys == own.Keys;
    if p in measurements {
      var k :| k in blocks && blocks[k].package == p;
      assert k in own;
    } else {
      assert own.Keys == {};
    }
  }

  // What reading the profiles of all tests, and of the selected ones, amounts to.
  ghost predicate Read(lines: seq<Line>, measurements: map<string, Coverage>) {
    AddLines(lines).Some? && Measures(measurements, AddLines(lines).value)
  }

  lemma ReadIsSane(lines: seq<Line>, measurements: map<string, Coverage>)
    requires Read(lines, measurements)
    ensures Sane(measurements)
  {
    MergedBlocks(lines);
    var blocks := AddLines(lines).value;
    forall p | p in measurements ensures measurements[p].covered >= 0 {
      CoveredWithinTotal(lines, blocks, blocks.Keys, p);
    }
  }

  /** If the profiles of all tests can be merged, so can those of the selected ones, and they measure the
      same for every checked package. */
  lemma ScopedMeasuresTheSame(run: Run, changed: set<string>, scope: Scope, full: seq<Line>, scoped: seq<Line>,
                              fully: map<string, Coverage>, scopedly: map<string, Coverage>, p: string)
    requires run.Valid() && IsScope(scope, changed, run.packages, run.packages.Keys) && p in scope.check
    requires run.Reported(full, run.reports.Keys) && run.Reported(scoped, run.Selected(scope))
    requires Read(full, fully)
    ensures AddLines(scoped).Some?
    ensures Read(scoped, scopedly) ==> Lookup(fully, p) == Lookup(scopedly, p)
  {
    MergedBlocks(full);
    ScopedIsConsistent(run, scope, full, scoped);
    MergedBlocks(scoped);
    if Read(scoped, scopedly) {
      forall l | Counts(l) && PackageOf(l.fileRange).value == p ensures l in full <==> l in scoped {
        SameLinesAt(run, changed, scope, full, scoped, l);
      }
      SameLookup(full, scoped, fully, scopedly, p);
    }
  }

  lemma SameLookup(a: seq<Line>, b: seq<Line>, x: map<string, Coverage>, y: map<string, Coverage>, p: string)
    requires AgreeOn(a, b, p) && Read(a, x) && Read(b, y)
    ensures Lookup(x, p) == Lookup(y, p)
  {
    hide AddLines, Represents, Measures;
    var u, v := AddLines(a).value, AddLines(b).value;
    MergedBlocks(a);
    MergedBlocks(b);
    SameOf(a, b, u, v, p);
    LookupOf(x, u, p);
    LookupOf(y, v, p);
  }

  /** The scoped comparison finds about a checked, registered package exactly what the full comparison
      finds. About a checked package without a registration it reports that always, the full comparison
      only when the package has statements. */
  lemma ScopedFindsTheSame(run: Run, changed: set<string>, scope: Scope, full: seq<Line>, scoped: seq<Line>,
                           fully: map<string, Coverage>, scopedly: map<string, Coverage>,
                           manifest: seq<Entry>, f: Finding)
    requires run.Valid() && IsScope(scope, changed, run.packages, run.packages.Keys) && f.importPath in scope.check
    requires run.Reported(full, run.reports.Keys) && run.Reported(scoped, run.Selected(scope))
    requires Read(full, fully) && Read(scoped, scopedly)
    ensures Sane(fully) && Sane(scopedly)
    ensures Registers(manifest, f.importPath) ==>
              (FullFinding(manifest, fully, f) <==> SelectedFinding(manifest, scope.check, scopedly, f))
    ensures !Registers(manifest, f.importPath) ==>
              && (SelectedFinding(manifest, scope.check, scopedly, f) <==> f.Unregistered?)
              && (FullFinding(manifest, fully, f) <==>
                  f.Unregistered? && f.importPath in fully && fully[f.importPath].total != 0)
  {
    ReadIsSane(full, fully);
    ReadIsSane(scoped, scopedly);
    ScopedMeasuresTheSame(run, changed, scope, full, scoped, fully, scopedly, f.importPath);
    FindingsAgree(manifest, scope.check, fully, scopedly, f);
  }

  /** A changed package without statements or a registration, which the test of another package links: both runs
      read the one profile, and only the scoped run reports the package. */
  lemma OnlyScopedReports()
    ensures var a := Package("a", "m", "./a", {"a"}, {}, false, false);
            var b := Package("b", "m", "./b", {"b"}, {"a", "b"}, true, false);
            var run := Run(map["a" := a, "b" := b], map["b" := []]);
            var scope := Scope({"a"}, {TestPackage("m", "./b")}, {"a"});
            && run.Valid() && IsScope(scope, {"a"}, run.packages, run.packages.Keys)
            && run.Selected(scope) == run.reports.Keys && run.Reported([], run.reports.Keys)
            && Readable([Profile(Some("atomic"), [])]) && Read([], map[])
            && SelectedFinding([], scope.check, map[], Unregistered("a"))
            && !FullFinding([], map[], Unregistered("a"))
  {
    var a := Package("a", "m", "./a", {"a"}, {}, false, false);
    var b := Package("b", "m", "./b", {"b"}, {"a", "b"}, true, false);
    var run := Run(map["a" := a, "b" := b], map["b" := []]);
    var scope := Scope({"a"}, {TestPackage("m", "./b")}, {"a"});
    assert run.Valid();
    ScopeOfTwo(a, b, run.packages, scope);
    assert Measures(map[], map[]);
    assert AllLines([Profile(Some("atomic"), [])]) == [];
  }

  lemma ScopeOfTwo(a: Package, b: Package, packages: map<string, Package>, scope: Scope)
    requires a == Package("a", "m", "./a", {"a"}, {}, false, false)
    requires b == Package("b", "m", "./b", {"b"}, {"a", "b"}, true, false)
    requires packages == map["a" := a, "b" := b] && scope == Scope({"a"}, {TestPackage("m", "./b")}, {"a"})
    ensures IsScope(scope, {"a"}, packages, packages.Keys)
  {
    assert "a" in b.testDeps * {"a"};
    assert Checks(a, {"a"}) && !Checks(b, {"a"}) && Selects(b, {"a"}) && !Selects(a, {"a"});
    assert packages.Keys == {"a", "b"} && "a" in packages.Keys && "b" in packages.Keys;
  }

  lemma VerdictNamesEntry(e: Entry, measured: Option<Coverage>, f: Finding)
    requires measured.Some? ==> measured.value.covered >= 0
    requires f in Verdict(e, measured)
    ensures f.importPath == e.importPath && !f.Unregistered?
  {
  }

  // Equal measurements of a package give equal findings about it.
  lemma FindingsAgree(manifest: seq<Entry>, check: set<string>, fully: map<string, Coverage>,
                      scopedly: map<string, Coverage>, f: Finding)
    requires Sane(fully) && Sane(scopedly) && f.importPath in check
    requires Lookup(fully, f.importPath) == Lookup(scopedly, f.importPath)
    ensures Registers(manifest, f.importPath) ==>
              (FullFinding(manifest, fully, f) <==> SelectedFinding(manifest, check, scopedly, f))
    ensures !Registers(manifest, f.importPath) ==>
              && (SelectedFinding(manifest, check, scopedly, f) <==> f.Unregistered?)
              && (FullFinding(manifest, fully, f) <==>
                  f.Unregistered? && f.importPath in fully && fully[f.importPath].total != 0)
  {
    forall i | 0 <= i < |manifest|
      ensures f in Verdict(manifest[i], Lookup(fully, manifest[i].importPath)) <==>
              manifest[i].importPath in check && f in Verdict(manifest[i], Lookup(scopedly, manifest[i].importPath))
      ensures f in Verdict(manifest[i], Lookup(fully, manifest[i].importPath)) ==>
                manifest[i].importPath == f.importPath
    {
      if f in Verdict(manifest[i], Lookup(fully, manifest[i].importPath)) {
        VerdictNamesEntry(manifest[i], Lookup(fully, manifest[i].importPath), f);
      }
      if f in Verdict(manifest[i], Lookup(scopedly, manifest[i].importPath)) {
        VerdictNamesEntry(manifest[i], Lookup(scopedly, manifest[i].importPath), f);
      }
    }
  }
}
