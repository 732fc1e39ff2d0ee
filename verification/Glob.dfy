/** Regular expressions: the part of the syntax that glob patterns are compiled to, and its meaning. */
module Regexps {

  datatype Regex =
    | Empty
    | Char(c: char)
    | NotChar(c: char)
    | Dot
    | Cat(first: Regex, second: Regex)
    | Star(body: Regex)
    | Opt(body: Regex)

  ghost predicate Matches(r: Regex, s: string)
    decreases r, |s|
  {
    match r
    case Empty => s == ""
    case Char(c) => s == [c]
    case NotChar(c) => |s| == 1 && s[0] != c
    case Dot => |s| == 1 && s[0] != '\n'
    case Cat(a, b) => exists i :: 0 <= i <= |s| && Matches(a, s[..i]) && Matches(b, s[i..])
    case Star(a) => s == "" || exists i :: 0 < i <= |s| && Matches(a, s[..i]) && Matches(r, s[i..])
    case Opt(a) => s == "" || Matches(a, s)
  }

  datatype Parsed = Parsed(regex: Regex, rest: string) | Error

  // The characters that mean something other than themselves.
  predicate IsMeta(c: char) {
    c in "\\.+*?()|[]{}^$"
  }

  predicate IsQuantifier(c: char) {
    c in "*?+"
  }

  // A sequence of pieces, up to the end or a closing parenthesis.
  function ParseSequence(s: string): (p: Parsed)
    ensures p.Parsed? ==> |p.rest| <= |s|
    decreases |s|, 2
  {
    if s == "" || s[0] == ')' then Parsed(Empty, s)
    else
      var first := ParsePiece(s);
      if first.Error? then Error
      else
        var others := ParseSequence(first.rest);
        if others.Error? then Error else Parsed(Cat(first.regex, others.regex), others.rest)
  }

  // An atom and the quantifier behind it, if any. Stacked quantifiers are not part of the subset.
  function ParsePiece(s: string): (p: Parsed)
    requires s != ""
    ensures p.Parsed? ==> |p.rest| < |s|
    decreases |s|, 1
  {
    var atom := ParseAtom(s);
    if atom.Error? || atom.rest == "" || !IsQuantifier(atom.rest[0]) then atom
    else if atom.rest[0] == '+' || (|atom.rest| > 1 && IsQuantifier(atom.rest[1])) then Error
    else Parsed(if atom.rest[0] == '*' then Star(atom.regex) else Opt(atom.regex), atom.rest[1..])
  }

  function ParseAtom(s: string): (p: Parsed)
    requires s != ""
    ensures p.Parsed? ==> |p.rest| < |s|
    decreases |s|, 0
  {
    if s[0] == '\\' then
      if |s| > 1 && IsMeta(s[1]) then Parsed(Char(s[1]), s[2..]) else Error
    else if s[0] == '.' then Parsed(Dot, s[1..])
    else if s[0] == '[' then
      if |s| > 3 && s[1] == '^' && !IsMeta(s[2]) && s[3] == ']' then Parsed(NotChar(s[2]), s[4..]) else Error
    else if "(?:" <= s then
      var body := ParseSequence(s[3..]);
      if body.Error? || body.rest == "" then Error else Parsed(body.regex, body.rest[1..])
    else if IsMeta(s[0]) then Error
    else Parsed(Char(s[0]), s[1..])
  }

  // Matching a value against an expression that is anchored at both ends.
  ghost predicate MatchAnchored(expression: string, value: string) {
    var p := ParseSequence(expression);
    p.Parsed? && p.rest == "" && Matches(p.regex, value)
  }

  predicate Without(c: char, s: string) {
    forall i :: 0 <= i < |s| ==> s[i] != c
  }

  lemma {:induction false} StarNotChar(c: char, s: string)
    ensures Matches(Star(NotChar(c)), s) <==> Without(c, s)
  {
    if s == "" {
    } else {
      StarNotChar(c, s[1..]);
      if Without(c, s) {
        assert Matches(NotChar(c), s[..1]) && Matches(Star(NotChar(c)), s[1..]);
      }
      if Matches(Star(NotChar(c)), s) {
        var i :| 0 < i <= |s| && Matches(NotChar(c), s[..i]) && Matches(Star(NotChar(c)), s[i..]);
        assert i == 1 && s[..1][0] == s[0];
        assert forall j :: 1 <= j < |s| ==> s[j] == s[1..][j - 1];
      }
    }
  }

  lemma {:induction false} StarDot(s: string)
    ensures Matches(Star(Dot), s) <==> Without('\n', s)
  {
    if s == "" {
    } else {
      StarDot(s[1..]);
      if Without('\n', s) {
        assert Matches(Dot, s[..1]) && Matches(Star(Dot), s[1..]);
      }
      if Matches(Star(Dot), s) {
        var i :| 0 < i <= |s| && Matches(Dot, s[..i]) && Matches(Star(Dot), s[i..]);
        assert i == 1 && s[..1][0] == s[0];
        assert forall j :: 1 <= j < |s| ==> s[j] == s[1..][j - 1];
      }
    }
  }
}

/** The compiler from glob patterns to regular expressions, and what its output means. */
module Glob {
  import opened Regexps

  // ---------- the compiler ----------

  function QuoteMeta(c: char): string {
    if IsMeta(c) then ['\\', c] else [c]
  }

  // The expression for the pattern element at index, and how many further characters it covers.
  function GlobFragment(pattern: string, index: nat): (f: (string, nat))
    requires index < |pattern|
    ensures index + f.1 < |pattern|
  {
    if pattern[index] == '*' then StarFragment(pattern, index)
    else if pattern[index] == '?' then ("[^/]", 0)
    else (QuoteMeta(pattern[index]), 0)
  }

  function StarFragment(pattern: string, index: nat): (f: (string, nat))
    requires index < |pattern|
    ensures index + f.1 < |pattern|
  {
    if index + 1 >= |pattern| || pattern[index + 1] != '*' then ("[^/]*", 0)
    else if index + 2 < |pattern| && pattern[index + 2] == '/' then ("(?:.*/)?", 2)
    else (".*", 1)
  }

  function Expression(pattern: string, index: nat): string
    requires index <= |pattern|
    decreases |pattern| - index
  {
    if index == |pattern| then ""
    else
      var (fragment, advance) := GlobFragment(pattern, index);
      fragment + Expression(pattern, index + advance + 1)
  }

  lemma Regrouped(a: string, b: string, c: string)
    ensures a + (b + c) == (a + b) + c
  {
  }

  method RecursiveGlobExpression(pattern: string) returns (expression: string)
    ensures expression == Expression(pattern, 0)
  {
    expression := "";
    var index := 0;
    while index < |pattern|
      invariant index <= |pattern|
      invariant expression + Expression(pattern, index) == Expression(pattern, 0)
      decreases |pattern| - index
    {
      var (fragment, advance) := GlobFragment(pattern, index);
      Regrouped(expression, fragment, Expression(pattern, index + advance + 1));
      expression := expression + fragment;
      index := index + advance + 1;
    }
    assert expression + "" == expression;
  }

  predicate Contains(s: string, part: string) {
    exists i :: 0 <= i <= |s| && part <= s[i..]
  }

  predicate HasSuffix(s: string, suffix: string) {
    |suffix| <= |s| && s[|s| - |suffix|..] == suffix
  }

  /** Pattern matching. A pattern without a double star is left to the single-segment matcher of the
      path library, which is a parameter. */
  ghost predicate GlobMatch(segmentMatch: (string, string) -> bool, pattern: string, value: string) {
    || pattern == value
    || (HasSuffix(pattern, "/**") && pattern[..|pattern| - 3] == value)
    || (if !Contains(pattern, "**") then segmentMatch(pattern, value)
        else MatchAnchored(Expression(pattern, 0), value))
  }

  // ---------- what a pattern means ----------

  /** The meaning of a pattern by itself: a star stands for characters other than a slash, a double
      star for characters other than a newline, a double star with a slash for nothing or for such
      characters up to and with a slash, and a question mark for one character but a slash. */
  predicate Accepts(pattern: string, value: string)
    decreases |pattern|, |value|
  {
    if pattern == "" then value == ""
    else if "**/" <= pattern then
      || Accepts(pattern[3..], value)
      || exists i ::
           0 <= i < |value| && value[i] == '/' && Without('\n', value[..i]) && Accepts(pattern[3..], value[i + 1..])
    else if "**" <= pattern then
      || Accepts(pattern[2..], value)
      || (value != "" && value[0] != '\n' && Accepts(pattern, value[1..]))
    else if pattern[0] == '*' then
      || Accepts(pattern[1..], value)
      || (value != "" && value[0] != '/' && Accepts(pattern, value[1..]))
    else
      && value != ""
      && (if pattern[0] == '?' then value[0] != '/' else value[0] == pattern[0])
      && Accepts(pattern[1..], value[1..])
  }

  // ---------- the expression denotes the regular expression of the pattern ----------

  const DIRECTORIES := Opt(Cat(Star(Dot), Cat(Char('/'), Empty)))

  function ElementRegex(pattern: string, index: nat): Regex
    requires index < |pattern|
  {
    if pattern[index] == '*' then
      if index + 1 >= |pattern| || pattern[index + 1] != '*' then Star(NotChar('/'))
      else if index + 2 < |pattern| && pattern[index + 2] == '/' then DIRECTORIES
      else Star(Dot)
    else if pattern[index] == '?' then NotChar('/')
    else Char(pattern[index])
  }

  function PatternRegex(pattern: string, index: nat): Regex
    requires index <= |pattern|
    decreases |pattern| - index
  {
    if index == |pattern| then Empty
    else Cat(ElementRegex(pattern, index), PatternRegex(pattern, index + GlobFragment(pattern, index).1 + 1))
  }

  // What follows a fragment never changes how the fragment is read.
  predicate Separable(rest: string) {
    rest != "" ==> rest[0] != ')' && !IsQuantifier(rest[0])
  }

  lemma ExpressionSeparable(pattern: string, index: nat)
    requires index <= |pattern|
    ensures Separable(Expression(pattern, index))
  {
  }

  lemma PieceOfStar(rest: string)
    requires Separable(rest)
    ensures ParsePiece("[^/]*" + rest) == Parsed(Star(NotChar('/')), rest)
    ensures ParsePiece("[^/]" + rest) == Parsed(NotChar('/'), rest)
  {
    assert ("[^/]*" + rest)[4..] == "*" + rest;
    assert ("*" + rest)[1..] == rest;
    assert ("[^/]" + rest)[4..] == rest;
  }

  lemma PieceOfDoubleStar(rest: string)
    requires Separable(rest)
    ensures ParsePiece(".*" + rest) == Parsed(Star(Dot), rest)
  {
    assert (".*" + rest)[1..] == "*" + rest;
    assert ("*" + rest)[1..] == rest;
  }

  lemma PieceOfCharacter(c: char, rest: string)
    requires Separable(rest)
    ensures ParsePiece(QuoteMeta(c) + rest) == Parsed(Char(c), rest)
  {
    assert (QuoteMeta(c) + rest)[|QuoteMeta(c)|..] == rest;
  }

  lemma SlashParses(tail: string)
    requires tail != "" && tail[0] == ')'
    ensures ParseSequence("/" + tail) == Parsed(Cat(Char('/'), Empty), tail)
  {
    assert ("/" + tail)[1..] == tail;
    assert ParsePiece("/" + tail) == Parsed(Char('/'), tail);
    assert ParseSequence(tail) == Parsed(Empty, tail);
  }

  lemma GroupParses(tail: string)
    requires tail != "" && tail[0] == ')'
    ensures ParseSequence(".*/" + tail) == Parsed(Cat(Star(Dot), Cat(Char('/'), Empty)), tail)
  {
    assert ".*/" + tail == ".*" + ("/" + tail);
    PieceOfDoubleStar("/" + tail);
    SlashParses(tail);
  }

  lemma PieceOfDirectories(rest: string)
    requires Separable(rest)
    ensures ParsePiece("(?:.*/)?" + rest) == Parsed(DIRECTORIES, rest)
  {
    var tail := ")?" + rest;
    var s := "(?:.*/)?" + rest;
    assert s[3..] == ".*/" + tail;
    GroupParses(tail);
    assert tail[1..] == "?" + rest;
    assert ("?" + rest)[1..] == rest;
  }

  lemma PieceOfElement(pattern: string, index: nat, rest: string)
    requires index < |pattern| && Separable(rest)
    ensures ParsePiece(GlobFragment(pattern, index).0 + rest) == Parsed(ElementRegex(pattern, index), rest)
  {
    PieceOfStar(rest);
    PieceOfDoubleStar(rest);
    PieceOfDirectories(rest);
    PieceOfCharacter(pattern[index], rest);
  }

  /** The text the compiler writes parses, whatever the pattern, to the regular expression of the
      pattern: no character of the pattern is ever read as regular expression syntax. */
  lemma {:induction false} ExpressionParses(pattern: string, index: nat)
    requires index <= |pattern|
    ensures ParseSequence(Expression(pattern, index)) == Parsed(PatternRegex(pattern, index), "")
    decreases |pattern| - index
  {
    if index == |pattern| {
      assert Expression(pattern, index) == "";
    } else {
      var next := index + GlobFragment(pattern, index).1 + 1;
      ExpressionParses(pattern, next);
      ElementParses(pattern, index, next);
    }
  }

  lemma ElementParses(pattern: string, index: nat, next: nat)
    requires index < |pattern| && next == index + GlobFragment(pattern, index).1 + 1
    requires ParseSequence(Expression(pattern, next)) == Parsed(PatternRegex(pattern, next), "")
    ensures ParseSequence(Expression(pattern, index)) == Parsed(PatternRegex(pattern, index), "")
  {
    var fragment, rest := GlobFragment(pattern, index).0, Expression(pattern, next);
    ExpressionSeparable(pattern, next);
    assert ParsePiece(fragment + rest) == Parsed(ElementRegex(pattern, index), rest) by {
      PieceOfElement(pattern, index, rest);
    }
    hide ParsePiece, ElementRegex;
    PieceThenRest(fragment, rest, ElementRegex(pattern, index), PatternRegex(pattern, next));
  }

  lemma PieceThenRest(fragment: string, rest: string, first: Regex, others: Regex)
    requires fragment != "" && fragment[0] != ')'
    requires ParsePiece(fragment + rest) == Parsed(first, rest) && ParseSequence(rest) == Parsed(others, "")
    ensures ParseSequence(fragment + rest) == Parsed(Cat(first, others), "")
  {
    assert (fragment + rest)[0] == fragment[0];
  }

  // ---------- and that regular expression means what the pattern means ----------

  lemma CatAt(a: Regex, b: Regex, s: string, i: nat)
    requires i <= |s| && Matches(a, s[..i]) && Matches(b, s[i..])
    ensures Matches(Cat(a, b), s)
  {
  }

  lemma CatOne(a: Regex, b: Regex, s: string)
    requires a.Char? || a.NotChar?
    ensures Matches(Cat(a, b), s) <==> s != "" && Matches(a, s[..1]) && Matches(b, s[1..])
  {
  }

  lemma CatSplit(a: Regex, b: Regex, s: string) returns (i: nat)
    requires Matches(Cat(a, b), s)
    ensures i <= |s| && Matches(a, s[..i]) && Matches(b, s[i..])
  {
    i :| 0 <= i <= |s| && Matches(a, s[..i]) && Matches(b, s[i..]);
  }

  // a matches exactly the strings without c.
  ghost predicate IsRun(c: char, a: Regex) {
    a == Star(NotChar(c)) || (a == Star(Dot) && c == '\n')
  }

  lemma RunMatches(c: char, a: Regex, t: string)
    requires IsRun(c, a)
    ensures Matches(a, t) <==> Without(c, t)
  {
    if a == Star(Dot) { StarDot(t); } else { StarNotChar(c, t); }
  }

  lemma WithoutCons(c: char, head: char, tail: string)
    ensures Without(c, [head] + tail) <==> head != c && Without(c, tail)
  {
    assert ([head] + tail)[0] == head;
    if Without(c, [head] + tail) {
      forall j | 0 <= j < |tail| ensures tail[j] != c {
        assert ([head] + tail)[j + 1] == tail[j];
      }
    }
  }

  lemma TakeCons(s: string, i: nat)
    requires 0 < i <= |s|
    ensures s[..i] == [s[0]] + s[1..][..i - 1] && s[1..][i - 1..] == s[i..]
  {
  }

  lemma CatRunUnfold(c: char, a: Regex, b: Regex, s: string)
    requires IsRun(c, a) && Matches(Cat(a, b), s)
    ensures Matches(b, s) || (s != "" && s[0] != c && Matches(Cat(a, b), s[1..]))
  {
    var i := CatSplit(a, b, s);
    RunMatches(c, a, s[..i]);
    if i == 0 {
      assert s[0..] == s;
    } else {
      assert s[..i][0] == s[0];
      var run := s[1..][..i - 1];
      RunMatches(c, a, run);
      TakeCons(s, i);
      WithoutCons(c, s[0], run);
      CatAt(a, b, s[1..], i - 1);
    }
  }

  lemma RunGrows(c: char, a: Regex, head: char, run: string)
    requires IsRun(c, a) && head != c && Matches(a, run)
    ensures Matches(a, [head] + run)
  {
    RunMatches(c, a, run);
    WithoutCons(c, head, run);
    RunMatches(c, a, [head] + run);
  }

  lemma ConsSplit(head: char, t: string, i: nat)
    requires i <= |t|
    ensures ([head] + t)[..i + 1] == [head] + t[..i]
    ensures ([head] + t)[i + 1..] == t[i..]
  {
  }

  lemma CatRunCons(c: char, a: Regex, b: Regex, head: char, t: string)
    requires IsRun(c, a) && head != c && Matches(Cat(a, b), t)
    ensures Matches(Cat(a, b), [head] + t)
  {
    var i := CatSplit(a, b, t);
    RunGrows(c, a, head, t[..i]);
    ConsSplit(head, t, i);
    CatAt(a, b, [head] + t, i + 1);
  }

  lemma CatRunFold(c: char, a: Regex, b: Regex, s: string)
    requires IsRun(c, a)
    requires Matches(b, s) || (s != "" && s[0] != c && Matches(Cat(a, b), s[1..]))
    ensures Matches(Cat(a, b), s)
  {
    if Matches(b, s) {
      assert s[..0] == "" && s[0..] == s;
      CatAt(a, b, s, 0);
    } else {
      CatRunCons(c, a, b, s[0], s[1..]);
      assert [s[0]] + s[1..] == s;
    }
  }

  // Nothing, or characters other than a newline up to and with a final slash.
  predicate IsDirectories(s: string) {
    s == "" || (s[|s| - 1] == '/' && Without('\n', s[..|s| - 1]))
  }

  lemma SlashMatches(s: string)
    ensures Matches(Cat(Char('/'), Empty), s) <==> s == "/"
  {
    CatOne(Char('/'), Empty, s);
  }

  lemma DirectoriesMatch(s: string)
    ensures Matches(DIRECTORIES, s) <==> IsDirectories(s)
  {
    var slash := Cat(Char('/'), Empty);
    if s != "" {
      if IsDirectories(s) {
        StarDot(s[..|s| - 1]);
        SlashMatches(s[|s| - 1..]);
        CatAt(Star(Dot), slash, s, |s| - 1);
      }
      if Matches(Cat(Star(Dot), slash), s) {
        var i := CatSplit(Star(Dot), slash, s);
        StarDot(s[..i]);
        SlashMatches(s[i..]);
        assert i == |s| - 1 && s[i..][0] == s[i];
      }
    }
  }

  // The value past one of its slashes, with only characters other than a newline before it.
  ghost predicate PastSlash(b: Regex, s: string) {
    exists i :: 0 <= i < |s| && s[i] == '/' && Without('\n', s[..i]) && Matches(b, s[i + 1..])
  }

  lemma CatDirectoriesUnfold(b: Regex, s: string)
    requires Matches(Cat(DIRECTORIES, b), s)
    ensures Matches(b, s) || PastSlash(b, s)
  {
    var i := CatSplit(DIRECTORIES, b, s);
    DirectoriesMatch(s[..i]);
    if i == 0 {
      assert s[0..] == s;
    } else {
      assert s[..i][..i - 1] == s[..i - 1];
      var k := i - 1;
      assert s[k] == '/' && Without('\n', s[..k]) && Matches(b, s[k + 1..]);
    }
  }

  lemma CatDirectoriesFold(b: Regex, s: string)
    requires Matches(b, s) || PastSlash(b, s)
    ensures Matches(Cat(DIRECTORIES, b), s)
  {
    if Matches(b, s) {
      assert s[..0] == "" && s[0..] == s;
      CatAt(DIRECTORIES, b, s, 0);
    } else {
      var i :| 0 <= i < |s| && s[i] == '/' && Without('\n', s[..i]) && Matches(b, s[i + 1..]);
      assert s[..i + 1][..i] == s[..i];
      DirectoriesMatch(s[..i + 1]);
      CatAt(DIRECTORIES, b, s, i + 1);
    }
  }

  lemma CatDirectories(b: Regex, s: string)
    ensures Matches(Cat(DIRECTORIES, b), s) <==> Matches(b, s) || PastSlash(b, s)
  {
    if Matches(Cat(DIRECTORIES, b), s) { CatDirectoriesUnfold(b, s); }
    if Matches(b, s) || PastSlash(b, s) { CatDirectoriesFold(b, s); }
  }

  // A run of characters in front of b ends at once or takes one more character.
  lemma CatRun(c: char, a: Regex, b: Regex, s: string)
    requires IsRun(c, a)
    ensures Matches(Cat(a, b), s) <==> Matches(b, s) || (s != "" && s[0] != c && Matches(Cat(a, b), s[1..]))
  {
    if Matches(Cat(a, b), s) { CatRunUnfold(c, a, b, s); }
    if Matches(b, s) || (s != "" && s[0] != c && Matches(Cat(a, b), s[1..])) { CatRunFold(c, a, b, s); }
  }

  // others means what is left of the pattern p after its first n characters.
  ghost predicate MeansRest(others: Regex, p: string, n: nat)
    requires n <= |p|
  {
    forall v :: Matches(others, v) <==> Accepts(p[n..], v)
  }

  lemma DirectoriesMean(p: string, others: Regex, value: string)
    requires "**/" <= p && MeansRest(others, p, 3)
    ensures Matches(Cat(DIRECTORIES, others), value) <==> Accepts(p, value)
  {
    CatDirectories(others, value);
  }

  lemma RunMeans(p: string, c: char, element: Regex, n: nat, others: Regex, value: string)
    requires n <= |p| && MeansRest(others, p, n) && !("**/" <= p) && p != "" && p[0] == '*'
    requires if "**" <= p then n == 2 && element == Star(Dot) && c == '\n'
               else n == 1 && element == Star(NotChar('/')) && c == '/'
    requires value != "" ==> (Matches(Cat(element, others), value[1..]) <==> Accepts(p, value[1..]))
    ensures Matches(Cat(element, others), value) <==> Accepts(p, value)
  {
    CatRun(c, element, others, value);
  }

  lemma OneMeans(p: string, element: Regex, others: Regex, value: string)
    requires p != "" && p[0] != '*' && MeansRest(others, p, 1)
    requires element == if p[0] == '?' then NotChar('/') else Char(p[0])
    ensures Matches(Cat(element, others), value) <==> Accepts(p, value)
  {
    CatOne(element, others, value);
  }

  lemma {:induction false} RegexMeansPattern(pattern: string, index: nat, value: string)
    requires index <= |pattern|
    ensures Matches(PatternRegex(pattern, index), value) <==> Accepts(pattern[index..], value)
    decreases |pattern| - index, |value|
  {
    var p := pattern[index..];
    if index == |pattern| {
    } else {
      var element, n := ElementRegex(pattern, index), GlobFragment(pattern, index).1 + 1;
      var others := PatternRegex(pattern, index + n);
      assert p[n..] == pattern[index + n..];
      forall v ensures Matches(others, v) <==> Accepts(p[n..], v) {
        RegexMeansPattern(pattern, index + n, v);
      }
      if element == DIRECTORIES {
        DirectoriesMean(p, others, value);
      } else if element.Star? {
        if value != "" {
          RegexMeansPattern(pattern, index, value[1..]);
        }
        RunMeans(p, if element == Star(Dot) then '\n' else '/', element, n, others, value);
      } else {
        OneMeans(p, element, others, value);
      }
    }
  }

  // ---------- main results ----------

  /** For every pattern with a double star and every value, the compiled expression matches exactly
      when the pattern accepts the value. */
  lemma CompiledMatchesExactly(segmentMatch: (string, string) -> bool, pattern: string, value: string)
    requires Contains(pattern, "**")
    ensures MatchAnchored(Expression(pattern, 0), value) <==> Accepts(pattern, value)
    ensures GlobMatch(segmentMatch, pattern, value) <==>
            pattern == value || pattern == value + "/**" || Accepts(pattern, value)
  {
    ExpressionParses(pattern, 0);
    RegexMeansPattern(pattern, 0, value);
    assert pattern[0..] == pattern;
    if HasSuffix(pattern, "/**") {
      assert pattern == pattern[..|pattern| - 3] + "/**";
    }
    if pattern == value + "/**" {
      assert pattern[..|pattern| - 3] == value && pattern[|pattern| - 3..] == "/**";
    }
  }

  /** A pattern without two stars in a row is left to the matcher of single segments, unless it is the value. */
  lemma PlainPattern(segmentMatch: (string, string) -> bool, pattern: string, value: string)
    requires forall i :: 0 <= i < |pattern| - 1 ==> !(pattern[i] == '*' && pattern[i + 1] == '*')
    ensures GlobMatch(segmentMatch, pattern, value) <==> pattern == value || segmentMatch(pattern, value)
  {
    StarsInARow(pattern);
  }

  lemma StarsInARow(pattern: string)
    ensures Contains(pattern, "**") ==> exists i :: 0 <= i < |pattern| - 1 && pattern[i] == '*' && pattern[i + 1] == '*'
    ensures HasSuffix(pattern, "/**") ==> Contains(pattern, "**")
  {
    if i :| 0 <= i <= |pattern| && "**" <= pattern[i..] {
      assert pattern[i] == pattern[i..][0] && pattern[i + 1] == pattern[i..][1];
    }
    if HasSuffix(pattern, "/**") {
      var i := |pattern| - 2;
      assert pattern[i..] == pattern[|pattern| - 3..][1..] == "**";
    }
  }

  // No character of s is special in a pattern.
  predicate IsLiteral(s: string) {
    Without('*', s) && Without('?', s)
  }

  lemma {:induction false} LiteralPrefix(s: string, pattern: string, value: string)
    requires IsLiteral(s)
    ensures Accepts(s + pattern, value) <==> s <= value && Accepts(pattern, value[|s|..])
  {
    if s == "" {
      assert s + pattern == pattern && value[0..] == value;
    } else {
      assert (s + pattern)[1..] == s[1..] + pattern && (s + pattern)[0] == s[0];
      if value != "" && value[0] == s[0] {
        LiteralPrefix(s[1..], pattern, value[1..]);
        assert s <= value <==> s[1..] <= value[1..] by {
          assert s == [s[0]] + s[1..] && value == [value[0]] + value[1..];
        }
        if s <= value {
          assert value[1..][|s| - 1..] == value[|s|..];
        }
      }
    }
  }

  lemma {:induction false} DoubleStarAlone(value: string)
    ensures Accepts("**", value) <==> Without('\n', value)
  {
    assert "**"[2..] == "";
    if value == "" {
    } else {
      DoubleStarAlone(value[1..]);
      assert value == [value[0]] + value[1..];
      WithoutCons('\n', value[0], value[1..]);
    }
  }

  /** Directory ownership: a literal directory followed by a slash and a double star owns the
      directory itself and exactly the paths below it. */
  lemma OwnsDirectory(segmentMatch: (string, string) -> bool, directory: string, value: string)
    requires IsLiteral(directory) && Without('\n', value)
    ensures GlobMatch(segmentMatch, directory + "/**", value) <==> value == directory || directory + "/" <= value
  {
    var pattern, prefix := directory + "/**", directory + "/";
    assert pattern == prefix + "**" && "**" <= pattern[|prefix|..];
    CompiledMatchesExactly(segmentMatch, pattern, value);
    LiteralPrefix(prefix, "**", value);
    if prefix <= value {
      DoubleStarAlone(value[|prefix|..]);
    }
    if pattern == value + "/**" {
      assert value == pattern[..|pattern| - 3] == directory;
    }
  }
}
