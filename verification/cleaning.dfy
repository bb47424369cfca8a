/** `clean_text(text)`: `text.strip().upper()` (app.py:29-30). The function
    is defined next to the extraction but not called by it. Whitespace and
    case are the ASCII ones; Python's Unicode case mapping (which can also
    change a string's length) is not modelled. */
module Cleaning {
  import opened Chars

  /** `str.lstrip()`: the longest suffix that does not start with
      whitespace; everything dropped is whitespace. */
  function StripStart(s: string): (r: string)
    ensures |r| <= |s| && r == s[|s| - |r|..]
    ensures r == [] || !IsWhitespace(r[0])
    ensures forall k :: 0 <= k < |s| - |r| ==> IsWhitespace(s[k])
    decreases |s|
  {
    if s != [] && IsWhitespace(s[0]) then StripStart(s[1..]) else s
  }

  /** `str.rstrip()`: the longest prefix that does not end with
      whitespace; everything dropped is whitespace. */
  function StripEnd(s: string): (r: string)
    ensures |r| <= |s| && r == s[..|r|]
    ensures r == [] || !IsWhitespace(r[|r| - 1])
    ensures forall k :: |r| <= k < |s| ==> IsWhitespace(s[k])
    decreases |s|
  {
    if s != [] && IsWhitespace(s[|s| - 1]) then StripEnd(s[..|s| - 1]) else s
  }

  /** `str.strip()`: a contiguous piece of `s` with neither leading nor
      trailing whitespace, obtained by dropping whitespace only. */
  function Strip(s: string): (r: string)
    ensures |r| <= |s|
    ensures r == [] || (!IsWhitespace(r[0]) && !IsWhitespace(r[|r| - 1]))
    ensures exists a: nat, b: nat :: a <= b <= |s| && r == s[a..b]
                                     && (forall k :: 0 <= k < a ==> IsWhitespace(s[k]))
                                     && (forall k :: b <= k < |s| ==> IsWhitespace(s[k]))
  {
    var l := StripStart(s);
    var r := StripEnd(l);
    var a := |s| - |l|;
    assert r == s[a..a + |r|];
    assert forall k :: a + |r| <= k < |s| ==> s[k] == l[k - a];
    r
  }

  predicate IsLower(c: char) {
    'a' <= c <= 'z'
  }

  function UpperChar(c: char): (u: char)
    ensures !IsLower(u)
    ensures IsWhitespace(u) <==> IsWhitespace(c)
    ensures IsLower(c) ==> u as int == c as int - 32
    ensures !IsLower(c) ==> u == c
  {
    if IsLower(c) then (c as int - 32) as char else c
  }

  /** `str.upper()` on ASCII: each lower-case letter replaced by its
      capital, everything else kept. */
  function Upper(s: string): (r: string)
    ensures |r| == |s|
    ensures forall k :: 0 <= k < |s| ==> r[k] == UpperChar(s[k])
    decreases |s|
  {
    if s == [] then [] else [UpperChar(s[0])] + Upper(s[1..])
  }

  /** `clean_text`: the text with its surrounding whitespace dropped and
      its letters capitalised; no surrounding whitespace and no lower-case
      letter remain. */
  function CleanText(s: string): (r: string)
    ensures |r| <= |s|
    ensures r == [] || (!IsWhitespace(r[0]) && !IsWhitespace(r[|r| - 1]))
    ensures forall k :: 0 <= k < |r| ==> !IsLower(r[k])
    ensures exists a: nat, b: nat :: a <= b <= |s| && r == Upper(s[a..b])
                                     && (forall k :: 0 <= k < a ==> IsWhitespace(s[k]))
                                     && (forall k :: b <= k < |s| ==> IsWhitespace(s[k]))
  {
    var t := Strip(s);
    UpperKeepsEdges(t);
    Upper(t)
  }

  /** Upper-casing keeps whether the first and last characters are
      whitespace. */
  lemma UpperKeepsEdges(t: string)
    requires t == [] || (!IsWhitespace(t[0]) && !IsWhitespace(t[|t| - 1]))
    ensures var r := Upper(t); r == [] || (!IsWhitespace(r[0]) && !IsWhitespace(r[|r| - 1]))
  {
    var r := Upper(t);
    if r != [] {
      assert r[0] == UpperChar(t[0]) && r[|r| - 1] == UpperChar(t[|t| - 1]);
    }
  }

  /** A text without surrounding whitespace is left alone by `strip`. */
  lemma StripTrimmed(s: string)
    requires s == [] || (!IsWhitespace(s[0]) && !IsWhitespace(s[|s| - 1]))
    ensures Strip(s) == s
  {
  }

  /** Upper-casing twice is upper-casing once. */
  lemma UpperIdempotent(s: string)
    ensures Upper(Upper(s)) == Upper(s)
  {
  }

  /** Cleaning a cleaned text changes nothing. */
  lemma CleanTextIdempotent(s: string)
    ensures CleanText(CleanText(s)) == CleanText(s)
  {
    var c := CleanText(s);
    StripTrimmed(c);
    UpperIdempotent(c);
  }
}
