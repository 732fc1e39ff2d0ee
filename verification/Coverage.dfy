/** Coverage profiles: merging the blocks of many test binaries and adding them up by package. */
module CoverageProfiles {
  import opened Options

  /** A block line with its three fields; a number is None when it does not parse. */
  datatype Line = Line(fileRange: string, statements: Option<int>, count: Option<int>)

  datatype Block = Block(package: string, statements: int, covered: bool)

  type Blocks = map<string, Block>

  datatype Coverage = Coverage(covered: int, total: int)

  // ---------- one line ----------

  function LastIndex(s: string, c: char): (i: int)
    ensures -1 <= i < |s|
    ensures i >= 0 ==> s[i] == c
  {
    if s == "" then -1 else if s[|s| - 1] == c then |s| - 1 else LastIndex(s[..|s| - 1], c)
  }

  // The package of a file range "path/file.go:range", when it is well formed.
  function PackageOf(fileRange: string): Option<string> {
    var colon := LastIndex(fileRange, ':');
    if colon <= 0 || ',' !in fileRange[colon + 1..] then None
    else
      var file := fileRange[..colon];
      var slash := LastIndex(file, '/');
      if slash <= 0 || slash == |file| - 1 then None else Some(file[..slash])
  }

  // The range names a file in the package, and behind the last colon a range of lines.
  ghost predicate InPackage(fileRange: string, package: string, name: string, lines: string) {
    && fileRange == package + "/" + name + ":" + lines
    && package != "" && name != "" && '/' !in name && ':' !in lines && ',' in lines
  }

  lemma {:induction false} LastIndexIs(s: string, c: char, i: nat)
    requires i < |s| && s[i] == c && c !in s[i + 1..]
    ensures LastIndex(s, c) == i
  {
    var n := |s| - 1;
    if i == n {
    } else {
      assert s[n] == s[i + 1..][n - i - 1];
      assert s[..n][i + 1..] == s[i + 1..][..n - i - 1];
      LastIndexIs(s[..n], c, i);
    }
  }

  lemma {:induction false} LastIndexIsLast(s: string, c: char)
    ensures c !in s[LastIndex(s, c) + 1..]
  {
    if s == "" || s[|s| - 1] == c {
    } else {
      var n := |s| - 1;
      LastIndexIsLast(s[..n], c);
      var i := LastIndex(s, c) + 1;
      assert s[i..] == s[..n][i..] + [s[n]];
    }
  }

  /** A well-formed file range is a package, a slash, a file name without one, and the lines behind the last
      colon; the package is what stands before the last slash, and any other range has none. */
  lemma PackageOfMeans(fileRange: string, package: string)
    ensures PackageOf(fileRange) == Some(package) <==>
            exists name, lines :: InPackage(fileRange, package, name, lines)
  {
    if PackageOf(fileRange) == Some(package) {
      var name, lines := PackageParts(fileRange, package);
      assert InPackage(fileRange, package, name, lines);
    }
    if name, lines :| InPackage(fileRange, package, name, lines) {
      PartsFound(fileRange, package, name, lines);
    }
  }

  lemma PackageParts(fileRange: string, package: string) returns (name: string, lines: string)
    requires PackageOf(fileRange) == Some(package)
    ensures InPackage(fileRange, package, name, lines)
  {
    var colon := LastIndex(fileRange, ':');
    var file := fileRange[..colon];
    var slash := LastIndex(file, '/');
    LastIndexIsLast(fileRange, ':');
    LastIndexIsLast(file, '/');
    hide LastIndex;
    name, lines := file[slash + 1..], fileRange[colon + 1..];
    assert file == package + "/" + name;
    assert fileRange == file + ":" + lines;
  }

  lemma PartsFound(fileRange: string, package: string, name: string, lines: string)
    requires InPackage(fileRange, package, name, lines)
    ensures PackageOf(fileRange) == Some(package)
  {
    var file := package + "/" + name;
    assert fileRange[|file|] == ':' && fileRange[|file| + 1..] == lines && fileRange[..|file|] == file;
    LastIndexIs(fileRange, ':', |file|);
    assert file[|package|] == '/' && file[|package| + 1..] == name && file[..|package|] == package;
    LastIndexIs(file, '/', |package|);
  }

  predicate WellFormed(l: Line) {
    && PackageOf(l.fileRange).Some?
    && l.statements.Some? && l.statements.value >= 0
    && l.count.Some? && l.count.value >= 0
  }

  // A line with statements, which takes part in the measurement.
  predicate Counts(l: Line) {
    WellFormed(l) && l.statements.value != 0
  }

  function BlockOf(l: Line): Block
    requires WellFormed(l)
  {
    Block(PackageOf(l.fileRange).value, l.statements.value, l.count.value > 0)
  }

  // ---------- merging ----------

  // Repeated blocks are one block, covered if any binary executed it; their sizes must agree.
  function Merge(blocks: Blocks, location: string, next: Block): Option<Blocks> {
    if location !in blocks then Some(blocks[location := next])
    else if blocks[location].statements != next.statements then None
    else Some(blocks[location := next.(covered := next.covered || blocks[location].covered)])
  }

  function AddLine(blocks: Blocks, l: Line): Option<Blocks> {
    if !WellFormed(l) then None
    else if l.statements.value == 0 then Some(blocks)
    else Merge(blocks, l.fileRange, BlockOf(l))
  }

  // The lines added one after the other.
  function AddLines(lines: seq<Line>): Option<Blocks> {
    if lines == [] then Some(map[])
    else
      var before := AddLines(lines[..|lines| - 1]);
      if before.None? then None else AddLine(before.value, lines[|lines| - 1])
  }

  // Nothing is wrong with the lines, each by itself and any two of them together.
  ghost predicate Consistent(lines: seq<Line>) {
    && (forall l :: l in lines ==> WellFormed(l))
    && (forall a, b :: a in lines && b in lines && Counts(a) && Counts(b) && a.fileRange == b.fileRange ==>
          a.statements == b.statements)
  }

  // The blocks hold each location of a counted line, and nothing else.
  ghost predicate Represents(blocks: Blocks, lines: seq<Line>) {
    && (forall l :: l in lines && Counts(l) ==> l.fileRange in blocks)
    && (forall k :: k in blocks ==> Represented(blocks, lines, k))
  }

  // l is a counted line at k.
  ghost predicate At(l: Line, lines: seq<Line>, k: string) {
    l in lines && Counts(l) && l.fileRange == k
  }

  ghost predicate Represented(blocks: Blocks, lines: seq<Line>, k: string)
    requires k in blocks
  {
    && (exists l :: At(l, lines, k))
    && PackageOf(k) == Some(blocks[k].package)
    && (forall l :: At(l, lines, k) ==> l.statements == Some(blocks[k].statements))
    && (blocks[k].covered <==> exists l :: At(l, lines, k) && l.count.value > 0)
  }

  /** Merging succeeds exactly on consistent lines, and then its result is determined by which lines
      there are: a location is covered when some line executes it. */
  lemma {:induction false} MergedBlocks(lines: seq<Line>)
    ensures AddLines(lines).Some? <==> Consistent(lines)
    ensures AddLines(lines).Some? ==> Represents(AddLines(lines).value, lines)
  {
    if lines == [] {
    } else {
      var before, last := lines[..|lines| - 1], lines[|lines| - 1];
      MergedBlocks(before);
      assert lines == before + [last];
      if AddLines(before).Some? {
        if AddLine(AddLines(before).value, last).Some? {
          MergedMore(AddLines(before).value, before, last);
        } else {
          ConflictIsInconsistent(AddLines(before).value, before, last);
        }
      } else {
        assert Consistent(lines) ==> Consistent(before);
      }
    }
  }

  lemma ConflictIsInconsistent(blocks: Blocks, before: seq<Line>, last: Line)
    requires Represents(blocks, before) && AddLine(blocks, last).None?
    ensures !Consistent(before + [last])
  {
    assert last in before + [last];
    if WellFormed(last) {
      assert Represented(blocks, before, last.fileRange);
      var l :| At(l, before, last.fileRange);
      assert l in before + [last];
    }
  }

  lemma RepresentedMore(blocks: Blocks, before: seq<Line>, last: Line, k: string)
    requires Counts(last) && Represents(blocks, before) && Merge(blocks, last.fileRange, BlockOf(last)).Some?
    requires k in blocks || k == last.fileRange
    ensures Represented(Merge(blocks, last.fileRange, BlockOf(last)).value, before + [last], k)
  {
    var lines := before + [last];
    assert forall l :: l in lines <==> l in before || l == last;
    if k in blocks {
      assert Represented(blocks, before, k);
      var l :| At(l, before, k);
      assert At(l, lines, k);
    }
    if k == last.fileRange {
      assert At(last, lines, k);
    }
    assert forall l :: At(l, before, k) ==> At(l, lines, k);
    assert forall l :: At(l, lines, k) ==> At(l, before, k) || l == last;
  }

  lemma ConsistentMore(blocks: Blocks, before: seq<Line>, last: Line)
    requires Consistent(before) && Represents(blocks, before) && AddLine(blocks, last).Some?
    ensures Consistent(before + [last])
  {
    assert forall l :: l in before + [last] <==> l in before || l == last;
    forall a | a in before && Counts(a) && Counts(last) && a.fileRange == last.fileRange
      ensures a.statements == last.statements
    {
      assert Represented(blocks, before, a.fileRange);
      assert At(a, before, a.fileRange);
    }
  }

  lemma MergedMore(blocks: Blocks, before: seq<Line>, last: Line)
    requires Consistent(before) && Represents(blocks, before) && AddLine(blocks, last).Some?
    ensures Consistent(before + [last]) && Represents(AddLine(blocks, last).value, before + [last])
  {
    ConsistentMore(blocks, before, last);
    var lines, after := before + [last], AddLine(blocks, last).value;
    assert forall l :: l in lines <==> l in before || l == last;
    forall k | k in after ensures Represented(after, lines, k) {
      if Counts(last) {
        RepresentedMore(blocks, before, last, k);
      } else {
        assert Represented(blocks, before, k);
        SameLines(blocks, before, lines, k);
      }
    }
  }

  // Only the counted lines there are make a difference.
  lemma SameLines(blocks: Blocks, a: seq<Line>, b: seq<Line>, k: string)
    requires k in blocks && Represented(blocks, a, k)
    requires forall l :: Counts(l) ==> (l in a <==> l in b)
    ensures Represented(blocks, b, k)
  {
    assert forall l :: At(l, a, k) <==> At(l, b, k);
  }

  lemma RepresentedOnce(x: Blocks, y: Blocks, lines: seq<Line>, k: string)
    requires k in x && k in y && Represented(x, lines, k) && Represented(y, lines, k)
    ensures x[k] == y[k]
  {
    var l :| At(l, lines, k);
  }

  /** The order of the lines, and how often each is repeated, make no difference. */
  lemma OrderAndRepetitionDoNotMatter(a: seq<Line>, b: seq<Line>)
    requires forall l :: l in a <==> l in b
    ensures AddLines(a) == AddLines(b)
  {
    MergedBlocks(a);
    MergedBlocks(b);
    assert Consistent(a) <==> Consistent(b);
    if AddLines(a).Some? {
      SameBlocks(AddLines(a).value, AddLines(b).value, a, b);
    }
  }

  lemma SameBlocks(x: Blocks, y: Blocks, a: seq<Line>, b: seq<Line>)
    requires Represents(x, a) && Represents(y, b) && forall l :: l in a <==> l in b
    ensures x == y
  {
    SameOn(x, y, a, b);
    SameOn(y, x, b, a);
  }

  // Wherever one of two results has a block, the other has the same.
  lemma SameOn(x: Blocks, y: Blocks, a: seq<Line>, b: seq<Line>)
    requires Represents(x, a) && Represents(y, b) && forall l :: l in a <==> l in b
    ensures forall k :: k in x ==> k in y && x[k] == y[k]
  {
    forall k | k in x ensures k in y && x[k] == y[k] {
      assert Represented(x, a, k);
      var l :| At(l, a, k);
      assert Represented(y, b, k);
      SameLines(x, a, b, k);
      RepresentedOnce(x, y, b, k);
    }
  }

  // ---------- adding up ----------

  // The statements of the given blocks that belong to a package, all of them or the covered ones.
  ghost function Statements(blocks: Blocks, keys: set<string>, package: string, coveredOnly: bool): int
    requires keys <= blocks.Keys
    decreases |keys|
  {
    if keys == {} then 0
    else
      var k :| k in keys;
      Share(blocks[k], package, coveredOnly) + Statements(blocks, keys - {k}, package, coveredOnly)
  }

  ghost function Share(b: Block, package: string, coveredOnly: bool): int {
    if b.package == package && (coveredOnly ==> b.covered) then b.statements else 0
  }

  lemma {:induction false} StatementsRemove(blocks: Blocks, keys: set<string>, package: string, coveredOnly: bool,
                                            k: string)
    requires keys <= blocks.Keys && k in keys
    ensures Statements(blocks, keys, package, coveredOnly) ==
            Share(blocks[k], package, coveredOnly) + Statements(blocks, keys - {k}, package, coveredOnly)
    decreases |keys|
  {
    var m :| m in keys && Statements(blocks, keys, package, coveredOnly) ==
                          Share(blocks[m], package, coveredOnly) + Statements(blocks, keys - {m}, package, coveredOnly);
    if m == k {
    } else {
      StatementsRemove(blocks, keys - {m}, package, coveredOnly, k);
      StatementsRemove(blocks, keys - {k}, package, coveredOnly, m);
      assert keys - {m} - {k} == keys - {k} - {m};
    }
  }

  // What the blocks measure for a package.
  ghost function Measured(blocks: Blocks, package: string): Coverage {
    Coverage(Statements(blocks, blocks.Keys, package, true), Statements(blocks, blocks.Keys, package, false))
  }

  ghost predicate Measures(measurements: map<string, Coverage>, blocks: Blocks) {
    && (forall p :: p in measurements <==> exists k :: k in blocks && blocks[k].package == p)
    && (forall p :: p in measurements ==> measurements[p] == Measured(blocks, p))
  }

  ghost predicate Tallied(measurements: map<string, Coverage>, blocks: Blocks, done: set<string>)
    requires done <= blocks.Keys
  {
    && (forall p :: p in measurements <==> exists k :: k in done && blocks[k].package == p)
    && (forall p :: p in measurements ==>
          measurements[p] == Coverage(Statements(blocks, done, p, true), Statements(blocks, done, p, false)))
  }

  lemma {:induction false} NoShare(blocks: Blocks, keys: set<string>, package: string, coveredOnly: bool)
    requires keys <= blocks.Keys && forall k :: k in keys ==> blocks[k].package != package
    ensures Statements(blocks, keys, package, coveredOnly) == 0
    decreases |keys|
  {
    if keys == {} {
    } else {
      var k :| k in keys;
      StatementsRemove(blocks, keys, package, coveredOnly, k);
      NoShare(blocks, keys - {k}, package, coveredOnly);
    }
  }

  /** The totals by package, over the blocks in whatever order they come. */
  method AddUp(blocks: Blocks) returns (measurements: map<string, Coverage>)
    ensures Measures(measurements, blocks)
  {
    measurements := map[];
    var rest := blocks.Keys;
    while rest != {}
      invariant rest <= blocks.Keys && Tallied(measurements, blocks, blocks.Keys - rest)
      decreases |rest|
    {
      var k :| k in rest;
      var block := blocks[k];
      var current := if block.package in measurements then measurements[block.package] else Coverage(0, 0);
      current := Coverage(current.covered + if block.covered then block.statements else 0,
                          current.total + block.statements);
      TallyOne(measurements, blocks, blocks.Keys - rest, k, current);
      assert blocks.Keys - (rest - {k}) == (blocks.Keys - rest) + {k};
      measurements := measurements[block.package := current];
      rest := rest - {k};
    }
    assert blocks.Keys - rest == blocks.Keys;
  }

  lemma TallyOne(measurements: map<string, Coverage>, blocks: Blocks, done: set<string>, k: string, current: Coverage)
    requires done <= blocks.Keys && Tallied(measurements, blocks, done) && k in blocks && k !in done
    requires var block := blocks[k];
             var was := if block.package in measurements then measurements[block.package] else Coverage(0, 0);
             current == Coverage(was.covered + if block.covered then block.statements else 0,
                                 was.total + block.statements)
    ensures Tallied(measurements[blocks[k].package := current], blocks, done + {k})
  {
    var after, more := measurements[blocks[k].package := current], done + {k};
    assert more - {k} == done;
    forall p ensures p in after <==> exists j :: j in more && blocks[j].package == p {
      if exists j :: j in done && blocks[j].package == p {
        var j :| j in done && blocks[j].package == p;
        assert j in more;
      }
      if p == blocks[k].package {
        assert k in more;
      }
    }
    forall p | p in after
      ensures after[p] == Coverage(Statements(blocks, more, p, true), Statements(blocks, more, p, false))
    {
      StatementsRemove(blocks, more, p, true, k);
      StatementsRemove(blocks, more, p, false, k);
      if p !in measurements {
        NoShare(blocks, done, p, true);
        NoShare(blocks, done, p, false);
      }
    }
  }

  // ---------- all profiles ----------

  /** A profile: its mode, None when it declares none, and its block lines. */
  datatype Profile = Profile(mode: Option<string>, lines: seq<Line>)

  datatype ReadResult = Measurements(byPackage: map<string, Coverage>) | Invalid

  function AllLines(profiles: seq<Profile>): seq<Line> {
    if profiles == [] then [] else AllLines(profiles[..|profiles| - 1]) + profiles[|profiles| - 1].lines
  }

  // There is a profile, every profile declares the same mode, and the lines fit together.
  ghost predicate Readable(profiles: seq<Profile>) {
    && profiles != []
    && (forall p :: p in profiles ==> p.mode.Some? && p.mode == profiles[0].mode)
    && Consistent(AllLines(profiles))
  }

  lemma {:induction false} AddLinesPrefix(a: seq<Line>, b: seq<Line>)
    requires AddLines(a).None?
    ensures AddLines(a + b).None?
  {
    if b == [] {
      assert a + b == a;
    } else {
      AddLinesPrefix(a, b[..|b| - 1]);
      assert (a + b)[..|a + b| - 1] == a + b[..|b| - 1];
    }
  }

  lemma OneMoreLine(before: seq<Line>, lines: seq<Line>, i: nat)
    requires i < |lines| && AddLines(before + lines[..i]).Some?
    ensures AddLines(before + lines[..i + 1]) == AddLine(AddLines(before + lines[..i]).value, lines[i])
    ensures AddLines(before + lines[..i + 1]).None? ==> AddLines(before + lines).None?
  {
    assert before + lines[..i + 1] == before + lines[..i] + [lines[i]];
    AddLinesSnoc(before + lines[..i], lines[i]);
    FailureStays(before, lines, i + 1);
  }

  lemma FailureStays(before: seq<Line>, lines: seq<Line>, n: nat)
    requires n <= |lines|
    ensures AddLines(before + lines[..n]).None? ==> AddLines(before + lines).None?
  {
    if AddLines(before + lines[..n]).None? {
      AddLinesPrefix(before + lines[..n], lines[n..]);
      assert before + lines[..n] + lines[n..] == before + lines;
    }
  }

  lemma AddLinesSnoc(lines: seq<Line>, last: Line)
    ensures AddLines(lines + [last]) == if AddLines(lines).None? then None else AddLine(AddLines(lines).value, last)
  {
    assert (lines + [last])[..|lines|] == lines;
  }

  /** The shared map of blocks that every profile is merged into. */
  class BlockMap {
    var blocks: Blocks

    constructor ()
      ensures blocks == map[]
    {
      blocks := map[];
    }

    method AddProfileLine(l: Line) returns (ok: bool)
      modifies this
      ensures ok == AddLine(old(blocks), l).Some?
      ensures ok ==> blocks == AddLine(old(blocks), l).value
    {
      if !WellFormed(l) {
        return false;
      }
      if l.statements.value == 0 {
        return true;
      }
      var next := BlockOf(l);
      if l.fileRange in blocks {
        var previous := blocks[l.fileRange];
        if previous.statements != next.statements {
          return false;
        }
        next := next.(covered := next.covered || previous.covered);
      }
      blocks := blocks[l.fileRange := next];
      return true;
    }

    method ParseProfile(profile: Profile, ghost before: seq<Line>) returns (ok: bool)
      requires AddLines(before) == Some(blocks)
      modifies this
      ensures ok <==> profile.mode.Some? && AddLines(before + profile.lines).Some?
      ensures ok ==> blocks == AddLines(before + profile.lines).value
    {
      if profile.mode.None? {
        return false;
      }
      assert before + profile.lines[..0] == before;
      for i := 0 to |profile.lines|
        invariant AddLines(before + profile.lines[..i]) == Some(blocks)
      {
        OneMoreLine(before, profile.lines, i);
        ok := AddProfileLine(profile.lines[i]);
        if !ok {
          return;
        }
      }
      assert profile.lines[..|profile.lines|] == profile.lines;
      return true;
    }
  }

  lemma AllLinesSnoc(profiles: seq<Profile>, i: nat)
    requires i < |profiles|
    ensures AllLines(profiles[..i + 1]) == AllLines(profiles[..i]) + profiles[i].lines
  {
    assert profiles[..i + 1][..i] == profiles[..i];
  }

  lemma {:induction false} AllLinesPrefix(profiles: seq<Profile>, i: nat)
    requires i <= |profiles| && AddLines(AllLines(profiles[..i])).None?
    ensures AddLines(AllLines(profiles)).None?
    decreases |profiles| - i
  {
    if i == |profiles| {
      assert profiles[..i] == profiles;
    } else {
      AllLinesSnoc(profiles, i);
      AddLinesPrefix(AllLines(profiles[..i]), profiles[i].lines);
      AllLinesPrefix(profiles, i + 1);
    }
  }

  // The first i profiles were read: they agree on the mode, and these are their blocks.
  ghost predicate ReadSoFar(profiles: seq<Profile>, i: nat, blocks: Blocks)
    requires i <= |profiles|
  {
    && AddLines(AllLines(profiles[..i])) == Some(blocks)
    && forall k :: 0 <= k < i ==> profiles[k].mode.Some? && profiles[k].mode == profiles[0].mode
  }

  lemma ReadOneMore(profiles: seq<Profile>, i: nat, was: Blocks, blocks: Blocks)
    requires i < |profiles| && ReadSoFar(profiles, i, was)
    requires profiles[i].mode.Some? && profiles[i].mode == profiles[0].mode
    requires AddLines(AllLines(profiles[..i]) + profiles[i].lines) == Some(blocks)
    ensures ReadSoFar(profiles, i + 1, blocks)
  {
    AllLinesSnoc(profiles, i);
  }

  lemma BadProfile(profiles: seq<Profile>, i: nat)
    requires i < |profiles|
    requires profiles[i].mode.None? || profiles[i].mode != profiles[0].mode
             || AddLines(AllLines(profiles[..i]) + profiles[i].lines).None?
    ensures !Readable(profiles)
  {
    if profiles[i].mode.Some? && profiles[i].mode == profiles[0].mode {
      AllLinesSnoc(profiles, i);
      AllLinesPrefix(profiles, i + 1);
      MergedBlocks(AllLines(profiles));
    } else {
      assert profiles[i] in profiles;
    }
  }

  lemma AllRead(profiles: seq<Profile>, blocks: Blocks)
    requires profiles != [] && ReadSoFar(profiles, |profiles|, blocks)
    ensures Readable(profiles) && AddLines(AllLines(profiles)) == Some(blocks)
  {
    assert profiles[..|profiles|] == profiles;
    MergedBlocks(AllLines(profiles));
  }

  /** Reading succeeds exactly when the profiles are readable, and then measures every package by the
      merged blocks of all of them. */
  method ReadProfiles(profiles: seq<Profile>) returns (r: ReadResult)
    ensures r.Measurements? <==> Readable(profiles)
    ensures r.Measurements? ==>
              var blocks := AddLines(AllLines(profiles));
              blocks.Some? && Measures(r.byPackage, blocks.value)
  {
    if profiles == [] {
      return Invalid;
    }
    var shared := new BlockMap();
    var mode: Option<string> := None;
    for i := 0 to |profiles|
      invariant ReadSoFar(profiles, i, shared.blocks)
      invariant i > 0 ==> mode == profiles[0].mode
    {
      ghost var was := shared.blocks;
      var ok := shared.ParseProfile(profiles[i], AllLines(profiles[..i]));
      if !ok || (i > 0 && mode != profiles[i].mode) {
        BadProfile(profiles, i);
        return Invalid;
      }
      if i == 0 {
        mode := profiles[i].mode;
      }
      ReadOneMore(profiles, i, was, shared.blocks);
    }
    AllRead(profiles, shared.blocks);
    var byPackage := AddUp(shared.blocks);
    return Measurements(byPackage);
  }

  /** Covered statements are statements: no package measures more covered than it has, or less than
      none. */
  lemma {:induction false} CoveredWithinTotal(lines: seq<Line>, blocks: Blocks, keys: set<string>, package: string)
    requires Represents(blocks, lines) && keys <= blocks.Keys
    ensures 0 <= Statements(blocks, keys, package, true) <= Statements(blocks, keys, package, false)
    decreases |keys|
  {
    if keys == {} {
    } else {
      var k :| k in keys;
      StatementsRemove(blocks, keys, package, true, k);
      StatementsRemove(blocks, keys, package, false, k);
      CoveredWithinTotal(lines, blocks, keys - {k}, package);
      assert Represented(blocks, lines, k);
      var l :| At(l, lines, k);
    }
  }
}

/** The arithmetic of coverage floors, in hundredths of a percent. */
module CoverageFloors {
  import opened CoverageProfiles

  const COMPARISON_BAND := 10
  const RATCHET_HEADROOM := 200
  const LOWEST_MEANINGFUL_MINIMUM := 2 * COMPARISON_BAND
  const PERMILLE := 1000

  // A measurement of at least one statement.
  ghost predicate Measurement(c: Coverage) {
    0 <= c.covered <= c.total && c.total > 0
  }

  // a / b rounded to the nearest integer, halves away from zero, for a that is not negative.
  function Round(a: int, b: int): int
    requires a >= 0 && b > 0
  {
    (2 * a + b) / (2 * b)
  }

  function ActualCents(c: Coverage): int
    requires c.covered >= 0
  {
    if c.total <= 0 then 0 else Round(PERMILLE * c.covered, c.total) * 10
  }

  // a is the covered percentage in hundredths, rounded to a tenth of a percent, halves up.
  ghost predicate Rounded(c: Coverage, a: int) {
    if c.total <= 0 then a == 0
    else a % 10 == 0 && 2 * c.total * a <= 20000 * c.covered + 10 * c.total < 2 * c.total * (a + 10)
  }

  lemma ActualIsRounded(c: Coverage, a: int)
    requires c.covered >= 0
    ensures Rounded(c, a) <==> a == ActualCents(c)
  {
    if c.total > 0 {
      var k, b := Round(PERMILLE * c.covered, c.total), 2 * c.total;
      RoundBounds(PERMILLE * c.covered, c.total);
      TenTimes(b, k);
      Distribute(b, k);
      if Rounded(c, a) {
        var j := a / 10;
        assert a == 10 * j;
        TenTimes(b, j);
        Distribute(b, j);
        Cancel(b, j, k + 1);
        Cancel(b, k, j + 1);
      }
    }
  }

  lemma TenTimes(b: int, k: int)
    ensures b * (10 * k) == 10 * (b * k) && b * (10 * k + 10) == 10 * (b * (k + 1))
  {
  }

  // One statement of so many is worth t tenths of a percent, rounded up.
  ghost predicate OneStatementIs(total: int, t: int) {
    (t - 1) * total < 1000 <= t * total
  }

  // h is the headroom in hundredths of a percent: two points, or, in a package in which one statement and the
  // comparison band are worth more than one, twice as much as they are.
  ghost predicate Headroom(total: int, h: int) {
    if total <= 0 || 9 * total >= 1000 then h == 200
    else exists t :: OneStatementIs(total, t) && h == 2 * (10 * t + 10)
  }

  lemma OneStatementOnly(total: int, t: int)
    requires total > 0
    ensures OneStatementIs(total, t) <==> t == OneStatementTenths(total)
  {
    var n := OneStatementTenths(total);
    var a := PERMILLE + total - 1;
    assert a == total * n + a % total;
    Distribute(total, n - 1);
    Distribute(total, t - 1);
    if OneStatementIs(total, t) {
      Cancel(total, t - 1, n);
      Cancel(total, n - 1, t);
    }
  }

  lemma Ordered(a: int, b: int, total: int)
    requires total > 0
    ensures a <= b <==> a * total <= b * total
  {
    assert b * total - a * total == (b - a) * total;
  }

  lemma AllowedIsHeadroom(total: int, h: int)
    ensures Headroom(total, h) <==> h == AllowedHeadroom(total)
  {
    if total > 0 {
      var n := OneStatementTenths(total);
      OneStatementOnly(total, n);
      Ordered(9, n - 1, total);
      Ordered(n, 9, total);
      if 9 * total < 1000 {
        forall t | OneStatementIs(total, t) ensures t == n {
          OneStatementOnly(total, t);
        }
      }
    }
  }

  function Max(a: int, b: int): int {
    if a >= b then a else b
  }

  // One statement in tenths of a percent, rounded up.
  function OneStatementTenths(total: int): int
    requires total > 0
  {
    (PERMILLE + total - 1) / total
  }

  function AllowedHeadroom(total: int): int {
    if total <= 0 then RATCHET_HEADROOM
    else Max(RATCHET_HEADROOM, 2 * (OneStatementTenths(total) * 10 + COMPARISON_BAND))
  }

  // The floor half the headroom below the measurement, before it is raised to a meaningful one.
  function Unclamped(c: Coverage): int
    requires c.covered >= 0
  {
    ActualCents(c) - AllowedHeadroom(c.total) / 2
  }

  function SuggestedMinimum(c: Coverage): int
    requires c.covered >= 0
  {
    Max(LOWEST_MEANINGFUL_MINIMUM, Unclamped(c))
  }

  predicate Violated(minimum: int, c: Coverage)
    requires c.covered >= 0
  {
    ActualCents(c) + COMPARISON_BAND < minimum
  }

  predicate IsStale(minimum: int, c: Coverage)
    requires c.covered >= 0
  {
    !Violated(minimum, c) && ActualCents(c) - minimum > AllowedHeadroom(c.total)
  }

  lemma RoundBounds(a: int, b: int)
    requires a >= 0 && b > 0
    ensures 2 * b * Round(a, b) <= 2 * a + b < 2 * b * Round(a, b) + 2 * b
  {
    var n, d := 2 * a + b, 2 * b;
    assert n == d * (n / d) + n % d;
  }

  lemma CeilBounds(total: int)
    requires total > 0
    ensures OneStatementTenths(total) * total >= PERMILLE
  {
    var n := PERMILLE + total - 1;
    assert n == total * (n / total) + n % total;
  }

  // Losing one covered statement costs at most one statement, rounded up to a tenth.
  lemma OneStatementCosts(c: Coverage)
    requires Measurement(c) && c.covered > 0
    ensures ActualCents(c.(covered := c.covered - 1)) >= ActualCents(c) - 10 * OneStatementTenths(c.total)
  {
    var b := c.total;
    var a := PERMILLE * c.covered;
    var x, y, n := Round(a, b), Round(a - PERMILLE, b), OneStatementTenths(b);
    assert PERMILLE * (c.covered - 1) == a - PERMILLE;
    RoundBounds(a, b);
    RoundBounds(a - PERMILLE, b);
    CeilBounds(b);
    assert 2 * b * (x - n) == 2 * b * x - 2 * (n * b);
    assert 2 * b * (x - n) < 2 * b * (y + 1);
    Cancel(2 * b, x - n, y + 1);
  }

  lemma Cancel(b: int, x: int, y: int)
    requires b > 0 && b * x < b * y
    ensures x < y
  {
    assert b * (x - y) == b * x - b * y;
  }

  /** A floor placed where it is suggested accepts the measurement it was computed from exactly when
      the measurement is at least 0.1%. */
  lemma SuggestionFits(c: Coverage)
    requires Measurement(c)
    ensures !IsStale(SuggestedMinimum(c), c)
    ensures !Violated(SuggestedMinimum(c), c) <==> ActualCents(c) >= 10
  {
    RoundBounds(PERMILLE * c.covered, c.total);
  }

  /** It survives the loss of one covered statement, except that a floor raised to the lowest
      meaningful one needs 0.1% to be left. */
  lemma SuggestionSurvivesOneStatement(c: Coverage)
    requires Measurement(c) && c.covered > 0
    ensures var less := c.(covered := c.covered - 1);
            && !IsStale(SuggestedMinimum(c), less)
            && (!Violated(SuggestedMinimum(c), less) <==>
                Unclamped(c) > LOWEST_MEANINGFUL_MINIMUM || ActualCents(less) >= 10)
  {
    OneStatementCosts(c);
    var less := c.(covered := c.covered - 1);
    ActualGrows(less, c);
  }

  lemma ActualGrows(a: Coverage, b: Coverage)
    requires Measurement(a) && Measurement(b) && a.total == b.total && a.covered <= b.covered
    ensures ActualCents(a) <= ActualCents(b)
  {
    RoundGrows(PERMILLE * a.covered, PERMILLE * b.covered, a.total);
  }

  lemma RoundGrows(a: int, c: int, b: int)
    requires 0 <= a <= c && b > 0
    ensures Round(a, b) <= Round(c, b)
  {
    RoundBounds(a, b);
    RoundBounds(c, b);
    var x, y := Round(a, b), Round(c, b);
    Distribute(2 * b, y);
    Cancel(2 * b, x, y + 1);
  }

  lemma Distribute(b: int, y: int)
    ensures b * (y + 1) == b * y + b
  {
  }

  /** It survives any move of up to half the headroom, either way, at the same size; again a floor
      raised to the lowest meaningful one needs 0.1% to be left. */
  lemma SuggestionToleratesJitter(c: Coverage, later: Coverage)
    requires Measurement(c) && Measurement(later) && later.total == c.total
    requires -AllowedHeadroom(c.total) / 2 <= ActualCents(later) - ActualCents(c) <= AllowedHeadroom(c.total) / 2
    ensures !IsStale(SuggestedMinimum(c), later)
    ensures !Violated(SuggestedMinimum(c), later) <==>
            Unclamped(c) > LOWEST_MEANINGFUL_MINIMUM || ActualCents(later) >= 10
  {
    RoundBounds(PERMILLE * later.covered, later.total);
  }

  /** A raised floor that tolerates neither: one of two statements is covered, the floor suggested for
      that is the lowest meaningful one, and losing the statement is within half the headroom. */
  lemma RaisedFloorFails()
    ensures var c, less := Coverage(1, 2), Coverage(0, 2);
            && Measurement(c) && SuggestedMinimum(c) == LOWEST_MEANINGFUL_MINIMUM
            && !Violated(SuggestedMinimum(c), c) && !IsStale(SuggestedMinimum(c), c)
            && ActualCents(c) - ActualCents(less) <= AllowedHeadroom(2) / 2
            && Violated(SuggestedMinimum(c), less)
  {
    assert ActualCents(Coverage(1, 2)) == 5000 && ActualCents(Coverage(0, 2)) == 0;
    assert OneStatementTenths(2) == 500;
  }

  /** No minimum that a manifest may hold passes with nothing covered. */
  lemma NoMinimumIsEmpty(minimum: int, total: int)
    requires minimum > COMPARISON_BAND && total > 0
    ensures Violated(minimum, Coverage(0, total))
  {
    assert Round(0, total) == 0 by {
      RoundBounds(0, total);
      var r := Round(0, total);
      Cancel(2 * total, r, 1);
      Cancel(2 * total, -1, r);
    }
  }
}
