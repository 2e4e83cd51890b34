/**
 * The string operations the services use: `str.isspace`, `str.strip()`,
 * `s.split(",")[0]`, lower-casing and substring search.
 */
module PyText {

  /** The characters for which Python's `str.isspace()` is true. */
  predicate IsSpace(c: char) {
    || c == ' ' || c == '\t' || c == '\n' || c == '\r'
    || c == '\U{000B}' || c == '\U{000C}'
    || ('\U{001C}' <= c <= '\U{001F}')
    || c == '\U{0085}' || c == '\U{00A0}' || c == '\U{1680}'
    || ('\U{2000}' <= c <= '\U{200A}')
    || c == '\U{2028}' || c == '\U{2029}' || c == '\U{202F}' || c == '\U{205F}'
    || c == '\U{3000}'
  }

  /** True when `s.strip() == ""`, which also covers the empty string. */
  predicate IsBlank(s: string) {
    forall i :: 0 <= i < |s| ==> IsSpace(s[i])
  }

  /** `s.lstrip()`: the suffix left once the leading whitespace is removed. */
  function StripLeft(s: string): (r: string)
    ensures |r| <= |s| && r == s[|s| - |r|..]
    ensures r == [] || !IsSpace(r[0])
    ensures forall i :: 0 <= i < |s| - |r| ==> IsSpace(s[i])
  {
    if s != [] && IsSpace(s[0]) then StripLeft(s[1..]) else s
  }

  /** `s.rstrip()`: the prefix left once the trailing whitespace is removed. */
  function StripRight(s: string): (r: string)
    ensures |r| <= |s| && r == s[..|r|]
    ensures r == [] || !IsSpace(r[|r| - 1])
    ensures forall i :: |r| <= i < |s| ==> IsSpace(s[i])
  {
    if s != [] && IsSpace(s[|s| - 1]) then StripRight(s[..|s| - 1]) else s
  }

  /** `s.strip()`: a slice of `s` that neither starts nor ends with whitespace. */
  function Strip(s: string): (r: string)
    ensures r == [] || (!IsSpace(r[0]) && !IsSpace(r[|r| - 1]))
    ensures forall c :: c in r ==> c in s
    ensures IsBlank(s) <==> r == []
  {
    StripRight(StripLeft(s))
  }

  /** `r` is `s[a..b]`, and `s` holds only whitespace before `a` and from `b` on. */
  predicate TrimmedSlice(s: string, r: string, a: int, b: int) {
    && 0 <= a <= b <= |s| && r == s[a..b]
    && (forall i :: 0 <= i < a ==> IsSpace(s[i]))
    && (forall i :: b <= i < |s| ==> IsSpace(s[i]))
  }

  /** What `strip()` leaves is the input with only surrounding whitespace cut off. */
  lemma StripIsTrimmedSlice(s: string)
    ensures exists a, b :: TrimmedSlice(s, Strip(s), a, b)
  {
    var left := StripLeft(s);
    var r := StripRight(left);
    assert r == Strip(s);
    var a := |s| - |left|;
    var b := a + |r|;
    assert r == left[..|r|] && left == s[a..];
    forall i | 0 <= i < |r| ensures r[i] == s[a + i] {
      assert r[i] == left[i];
    }
    assert r == s[a..b];
    forall i | b <= i < |s| ensures IsSpace(s[i]) {
      assert s[i] == left[i - a];
    }
    assert TrimmedSlice(s, r, a, b);
  }

  /** `s.split(sep)[0]`: the part of `s` before the first `sep`, all of `s` when there is none. */
  function BeforeFirst(s: string, sep: char): (r: string)
    ensures r <= s && sep !in r
    ensures |r| < |s| ==> s[|r|] == sep
  {
    if s == [] then []
    else if s[0] == sep then []
    else [s[0]] + BeforeFirst(s[1..], sep)
  }

  function LowerChar(c: char): char {
    if 'A' <= c <= 'Z' then (c as int + 32) as char else c
  }

  /**
   * Lower-casing, for the letters A to Z: no capital is left, only capitals
   * change, and each becomes its own small letter.
   */
  function Lower(s: string): (r: string)
    ensures |r| == |s|
    ensures forall i :: 0 <= i < |r| ==> !('A' <= r[i] <= 'Z')
    ensures forall i :: 0 <= i < |s| ==> (r[i] != s[i] <==> 'A' <= s[i] <= 'Z')
    ensures forall i :: 0 <= i < |s| && 'A' <= s[i] <= 'Z' ==> r[i] as int == s[i] as int + 32
  {
    seq(|s|, i requires 0 <= i < |s| => LowerChar(s[i]))
  }

  /** Lower-casing twice is lower-casing once. */
  lemma LowerIdempotent(s: string)
    ensures Lower(Lower(s)) == Lower(s)
  {
  }

  /**
   * Lower-casing ignores case: two strings that differ only in the case of
   * letters A to Z lower-case to the same string.
   */
  lemma LowerFoldsCase(s: string, t: string)
    requires |s| == |t|
    requires forall i :: 0 <= i < |s| ==> SameIgnoringCase(s[i], t[i])
    ensures Lower(s) == Lower(t)
  {
    forall i | 0 <= i < |s| ensures Lower(s)[i] == Lower(t)[i] {
      if s[i] != t[i] {
        assert 'a' <= s[i] <= 'z' || 'a' <= t[i] <= 'z';
      }
    }
  }

  /** The same letter in either case, or the same character. */
  predicate SameIgnoringCase(c: char, d: char) {
    || c == d
    || ('A' <= c <= 'Z' && d as int == c as int + 32)
    || ('A' <= d <= 'Z' && c as int == d as int + 32)
  }

  /** `needle in hay` for strings: `needle` starts at some position of `hay`. */
  predicate Contains(hay: string, needle: string) {
    needle <= hay || (hay != [] && Contains(hay[1..], needle))
  }
}
