/** Strings as Go's standard library trims, splits and joins them. */
module GoText {

  // Unicode white space.
  predicate IsSpace(c: char) {
    var n := c as int;
    || 0x09 <= n <= 0x0D || n == 0x20 || n == 0x85 || n == 0xA0 || n == 0x1680 || 0x2000 <= n <= 0x200A
    || n == 0x2028 || n == 0x2029 || n == 0x202F || n == 0x205F || n == 0x3000
  }

  predicate IsBlank(s: string) {
    forall c :: c in s ==> IsSpace(c)
  }

  function TrimSpace(s: string): string {
    if s == "" then ""
    else if IsSpace(s[0]) then TrimSpace(s[1..])
    else if IsSpace(s[|s| - 1]) then TrimSpace(s[..|s| - 1])
    else s
  }

  // Neither end of the string is white space.
  ghost predicate Tight(s: string) {
    s == "" || (!IsSpace(s[0]) && !IsSpace(s[|s| - 1]))
  }

  // The string is the middle with white space around it.
  ghost predicate Around(s: string, before: string, middle: string, after: string) {
    IsBlank(before) && IsBlank(after) && s == before + middle + after
  }

  lemma MoreAround(c: char, s: string, before: string, middle: string, after: string)
    requires Around(s, before, middle, after) && IsSpace(c)
    ensures Around([c] + s, [c] + before, middle, after) && Around(s + [c], before, middle, after + [c])
  {
    hide IsSpace;
    assert [c] + s == ([c] + before) + middle + after;
    assert s + [c] == before + middle + (after + [c]);
  }

  /** What is left has no white space at its ends, and only white space was taken away there. */
  lemma {:induction false} TrimMeans(s: string)
    ensures Tight(TrimSpace(s)) && exists before, after :: Around(s, before, TrimSpace(s), after)
  {
    hide IsSpace, Around;
    if s != "" && IsSpace(s[0]) {
      TrimMeans(s[1..]);
      var before, after :| Around(s[1..], before, TrimSpace(s), after);
      MoreAround(s[0], s[1..], before, TrimSpace(s), after);
      assert s == [s[0]] + s[1..];
    } else if s != "" && IsSpace(s[|s| - 1]) {
      var n := |s| - 1;
      TrimMeans(s[..n]);
      var before, after :| Around(s[..n], before, TrimSpace(s), after);
      MoreAround(s[n], s[..n], before, TrimSpace(s), after);
      assert s == s[..n] + [s[n]];
    } else {
      AroundItself(s);
    }
  }

  lemma AroundItself(s: string)
    ensures Around(s, "", s, "")
  {
    assert s == "" + s + "";
  }

  // The ASCII characters that are white space.
  lemma AsciiSpaces(c: char)
    requires c as int < 0x80
    ensures IsSpace(c) <==> c in "\t\n\U{0B}\U{0C}\r "
  {
  }

  // The pieces between the separators.
  function Split(s: string, separator: char): (pieces: seq<string>)
    ensures pieces != []
  {
    if s == "" then [""]
    else
      var others := Split(s[1..], separator);
      if s[0] == separator then [""] + others else [[s[0]] + others[0]] + others[1..]
  }

  function Joined(pieces: seq<string>, separator: char): string {
    if pieces == [] then ""
    else if |pieces| == 1 then pieces[0]
    else pieces[0] + [separator] + Joined(pieces[1..], separator)
  }

  lemma JoinedFirst(c: char, pieces: seq<string>, separator: char)
    requires pieces != []
    ensures Joined([[c] + pieces[0]] + pieces[1..], separator) == [c] + Joined(pieces, separator)
  {
    assert ([[c] + pieces[0]] + pieces[1..])[1..] == pieces[1..];
  }

  /** The pieces put together again are the string, and none has the separator in it. */
  lemma {:induction false} SplitJoins(s: string, separator: char)
    ensures Joined(Split(s, separator), separator) == s
    ensures forall i :: 0 <= i < |Split(s, separator)| ==> separator !in Split(s, separator)[i]
  {
    if s == "" {
      assert Split(s, separator) == [""];
    } else {
      SplitJoins(s[1..], separator);
      var others := Split(s[1..], separator);
      if s[0] == separator {
        assert ([""] + others)[1..] == others;
      } else {
        JoinedFirst(s[0], others, separator);
      }
    }
  }
}
