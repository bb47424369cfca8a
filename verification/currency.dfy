/** The currency test of app.py:81-82: `"USD" in text or "$" in text`,
    case-sensitive, on the joined text as recognized. */
module Currency {

  /** The two values of the `moneda` field; soles are the default. */
  datatype Currency = PEN | USD

  /** `pat` occurs in `s` starting at `i`. */
  predicate OccursAt(s: string, pat: string, i: nat) {
    i + |pat| <= |s| && s[i..i + |pat|] == pat
  }

  /** Python's `pat in s` for strings. */
  ghost predicate HasSubstring(s: string, pat: string) {
    exists i: nat :: OccursAt(s, pat, i)
  }

  /** Looks for `pat` in `s` at `from` and every later position. */
  function OccursFrom(s: string, pat: string, from: nat): (b: bool)
    ensures b <==> exists i: nat :: from <= i && OccursAt(s, pat, i)
    decreases |s| - from
  {
    if from + |pat| > |s| then false
    else if OccursAt(s, pat, from) then true
    else
      var b := OccursFrom(s, pat, from + 1);
      assert forall i: nat :: from <= i && OccursAt(s, pat, i) ==> i == from || from + 1 <= i;
      b
  }

  /** `pat in s`. */
  function Contains(s: string, pat: string): (b: bool)
    ensures b <==> HasSubstring(s, pat)
  {
    OccursFrom(s, pat, 0)
  }

  /** The `moneda` field computed from the joined text. */
  function DetectCurrency(t: string): (c: Currency)
    ensures c == USD <==> HasSubstring(t, "USD") || HasSubstring(t, "$")
  {
    if Contains(t, "USD") || Contains(t, "$") then USD else PEN
  }

  /** A `$` anywhere in the text is enough: a one-character substring is
      an element. */
  lemma DollarSignMeansUsd(t: string)
    ensures '$' in t ==> DetectCurrency(t) == USD
  {
    if '$' in t {
      var i :| 0 <= i < |t| && t[i] == '$';
      assert OccursAt(t, "$", i);
    }
  }

  /** A pattern whose first character the text lacks does not occur in it. */
  lemma AbsentFirstChar(s: string, pat: string)
    requires |pat| > 0 && pat[0] !in s
    ensures !HasSubstring(s, pat)
  {
  }

  /** The test is case-sensitive: a text without a capital `U` and
      without `$`, such as one whose only marker is a lower-case `usd`,
      leaves soles. */
  lemma LowerCaseUsdIsSoles(t: string)
    requires 'U' !in t && '$' !in t
    ensures DetectCurrency(t) == PEN
  {
    AbsentFirstChar(t, "USD");
    AbsentFirstChar(t, "$");
  }
}
