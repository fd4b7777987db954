/**
 * Python's `str.strip()` with no argument, used by the speech guard
 * (`if text.strip():`). A character is stripped when `str.isspace` holds of it.
 */
module Text {

  /** The code points Python's `str.isspace` accepts. */
  predicate IsSpace(c: char) {
    || ('\t' <= c <= '\r')                 // tab, line feed, vertical tab, form feed, carriage return
    || ('\U{1C}' <= c <= '\U{1F}')         // file, group, record and unit separators
    || c == ' '
    || c == '\U{85}' || c == '\U{A0}' || c == '\U{1680}'
    || ('\U{2000}' <= c <= '\U{200A}')
    || c == '\U{2028}' || c == '\U{2029}' || c == '\U{202F}' || c == '\U{205F}' || c == '\U{3000}'
  }

  /** True when every character of `s` is whitespace (so also for the empty string). */
  predicate IsBlank(s: string) {
    forall i :: 0 <= i < |s| ==> IsSpace(s[i])
  }

  /** `s` without its leading whitespace. */
  function TrimStart(s: string): (r: string)
    ensures |r| <= |s| && r == s[|s| - |r|..]
    ensures forall i :: 0 <= i < |s| - |r| ==> IsSpace(s[i])
    ensures r != [] ==> !IsSpace(r[0])
  {
    if s != [] && IsSpace(s[0]) then TrimStart(s[1..]) else s
  }

  /** `s` without its trailing whitespace. */
  function TrimEnd(s: string): (r: string)
    ensures |r| <= |s| && r == s[..|r|]
    ensures forall i :: |r| <= i < |s| ==> IsSpace(s[i])
    ensures r != [] ==> !IsSpace(r[|r| - 1])
  {
    if s != [] && IsSpace(s[|s| - 1]) then TrimEnd(s[..|s| - 1]) else s
  }

  /** `s.strip()`: `s` without its leading and trailing whitespace. */
  function Strip(s: string): (r: string)
    ensures r != [] ==> !IsSpace(r[0]) && !IsSpace(r[|r| - 1])
    ensures r == [] <==> IsBlank(s)
  {
    var t := TrimStart(s);
    var r := TrimEnd(t);
    assert r != [] ==> s[|s| - |t|] == r[0];
    r
  }

  /** What `strip()` keeps is one contiguous slice of `s`, and everything before and after
      that slice is whitespace. */
  lemma StripIsSlice(s: string)
    ensures exists lo :: 0 <= lo <= |s| - |Strip(s)| && Strip(s) == s[lo..][..|Strip(s)|]
                         && (forall i :: 0 <= i < lo ==> IsSpace(s[i]))
                         && (forall i :: lo + |Strip(s)| <= i < |s| ==> IsSpace(s[i]))
  {
    var t := TrimStart(s);
    var lo := |s| - |t|;
    var r := TrimEnd(t);
    assert t == s[lo..];
    assert r == s[lo..][..|r|];
    forall i | lo + |r| <= i < |s| ensures IsSpace(s[i]) {
      assert s[i] == t[i - lo];
    }
  }
}
