/** Strings as Python strips them. */
module PythonText {

  predicate IsSpace(c: char) {
    var n := c as int;
    || 0x09 <= n <= 0x0D || 0x1C <= n <= 0x20 || n == 0x85 || n == 0xA0 || n == 0x1680 || 0x2000 <= n <= 0x200A
    || n == 0x2028 || n == 0x2029 || n == 0x202F || n == 0x205F || n == 0x3000
  }

  predicate IsBlank(s: string) {
    forall c :: c in s ==> IsSpace(c)
  }

  function Strip(s: string): string {
    if s == "" then ""
    else if IsSpace(s[0]) then Strip(s[1..])
    else if IsSpace(s[|s| - 1]) then Strip(s[..|s| - 1])
    else s
  }

  // Neither end of the string is white space.
  ghost predicate Tight(s: string) {
    s == "" || (!IsSpace(s[0]) && !IsSpace(s[|s| - 1]))
  }

  // The string is the middle with white space around it.
  ghost predicate Around(s: string, before: string, middle: string, after: string) {
    IsBlank(before) && IsBlank(after) && s == before + middle + after
  }

  lemma MoreAround(c: char, s: string, before: string, middle: string, after: string)
    requires Around(s, before, middle, after) && IsSpace(c)
    ensures Around([c] + s, [c] + before, middle, after) && Around(s + [c], before, middle, after + [c])
  {
    hide IsSpace;
    assert [c] + s == ([c] + before) + middle + after;
    assert s + [c] == before + middle + (after + [c]);
  }

  /** What is left has no white space at its ends, and only white space was taken away there. */
  lemma {:induction false} StripMeans(s: string)
    ensures Tight(Strip(s)) && exists before, after :: Around(s, before, Strip(s), after)
  {
    hide IsSpace, Around;
    if s != "" && IsSpace(s[0]) {
      StripMeans(s[1..]);
      var before, after :| Around(s[1..], before, Strip(s), after);
      MoreAround(s[0], s[1..], before, Strip(s), after);
      assert s == [s[0]] + s[1..];
    } else if s != "" && IsSpace(s[|s| - 1]) {
      var n := |s| - 1;
      StripMeans(s[..n]);
      var before, after :| Around(s[..n], before, Strip(s), after);
      MoreAround(s[n], s[..n], before, Strip(s), after);
      assert s == s[..n] + [s[n]];
    } else {
      AroundItself(s);
    }
  }

  lemma AroundItself(s: string)
    ensures Around(s, "", s, "")
  {
    assert s == "" + s + "";
  }

  // The ASCII characters that are white space.
  lemma AsciiSpaces(c: char)
    requires c as int < 0x80
    ensures IsSpace(c) <==> c in "\t\n\U{0B}\U{0C}\r\U{1C}\U{1D}\U{1E}\U{1F} "
  {
  }
}
