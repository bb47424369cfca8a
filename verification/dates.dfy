/** The emission-date scan, `re.search(r'\d{2}[-/]\d{2}[-/]\d{4}', text)`,
    run over the full joined text. No calendar check is made: any two
    digits, separator, two digits, separator, four digits qualify. */
module Dates {
  import opened Chars
  import opened Wrappers

  const DateLength := 10

  /** `[-/]`; the two separators of one date are chosen independently. */
  predicate IsDateSeparator(c: char) {
    c == '-' || c == '/'
  }

  /** The shape `dd?dd?dddd`, with `?` a separator. */
  predicate IsDateText(s: string) {
    |s| == DateLength
    && AllDigits(s[0..2]) && IsDateSeparator(s[2])
    && AllDigits(s[3..5]) && IsDateSeparator(s[5])
    && AllDigits(s[6..10])
  }

  /** The pattern matches at position `i` of `t`. */
  predicate DateAt(t: string, i: nat) {
    i + DateLength <= |t| && IsDateText(t[i..i + DateLength])
  }

  ghost predicate LeftmostDate(t: string, i: nat) {
    DateAt(t, i) && forall j :: 0 <= j < i ==> !DateAt(t, j)
  }

  /** Scans `t` from `from` for the first position the pattern matches at. */
  function FindDate(t: string, from: nat): (r: Option<nat>)
    ensures r.Some? ==> from <= r.value && DateAt(t, r.value)
    ensures r.Some? ==> forall j :: from <= j < r.value ==> !DateAt(t, j)
    ensures r.None? <==> forall j :: from <= j ==> !DateAt(t, j)
    decreases |t| - from
  {
    if from + DateLength > |t| then None
    else if DateAt(t, from) then Some(from)
    else FindDate(t, from + 1)
  }

  /** The `fecha_emision` field computed from the joined text (app.py:56-58). */
  function SearchDate(t: string): (r: Option<string>)
    ensures r.Some? ==> IsDateText(r.value)
    ensures r.None? <==> forall i: nat :: !DateAt(t, i)
    ensures r.Some? ==> exists i: nat :: LeftmostDate(t, i) && r.value == t[i..i + DateLength]
  {
    match FindDate(t, 0)
    case None => None
    case Some(i) =>
      assert LeftmostDate(t, i);
      Some(t[i..i + DateLength])
  }
}
