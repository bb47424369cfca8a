/** The taxpayer-number scan, `re.search(r'\b(10|20)\d{9}\b', text)`, run
    over the full text with its spaces removed. */
module Ruc {
  import opened Chars
  import opened Wrappers
  import opened Lines

  const RucLength := 11

  /** `\b` at position `i`: exactly one of the characters either side of `i`
      is a word character (the text's ends count as non-word). */
  predicate WordBoundary(t: string, i: nat)
    requires i <= |t|
  {
    (i > 0 && IsWordChar(t[i - 1])) != (i < |t| && IsWordChar(t[i]))
  }

  /** An 11-digit taxpayer number in the source's sense: prefix `10` or `20`. */
  predicate IsRucNumber(s: string) {
    |s| == RucLength && AllDigits(s) && (s[0] == '1' || s[0] == '2') && s[1] == '0'
  }

  /** The pattern matches at position `i` of `t`. */
  predicate RucAt(t: string, i: nat) {
    i + RucLength <= |t|
    && IsRucNumber(t[i..i + RucLength])
    && WordBoundary(t, i)
    && WordBoundary(t, i + RucLength)
  }

  /** `i` is where `re.search` reports its match: the leftmost one. */
  ghost predicate LeftmostRuc(t: string, i: nat) {
    RucAt(t, i) && forall j :: 0 <= j < i ==> !RucAt(t, j)
  }

  /** Scans `t` from `from` for the first position the pattern matches at. */
  function FindRuc(t: string, from: nat): (r: Option<nat>)
    ensures r.Some? ==> from <= r.value && RucAt(t, r.value)
    ensures r.Some? ==> forall j :: from <= j < r.value ==> !RucAt(t, j)
    ensures r.None? <==> forall j :: from <= j ==> !RucAt(t, j)
    decreases |t| - from
  {
    if from + RucLength > |t| then None
    else if RucAt(t, from) then Some(from)
    else FindRuc(t, from + 1)
  }

  /** The `ruc_emisor` field computed from the joined text (app.py:51-53). */
  function SearchRuc(fullText: string): (r: Option<string>)
    ensures r.Some? ==> IsRucNumber(r.value)
    ensures r.None? <==> forall i: nat :: !RucAt(RemoveSpaces(fullText), i)
    ensures r.Some? ==> exists i: nat :: LeftmostRuc(RemoveSpaces(fullText), i)
                                    && r.value == RemoveSpaces(fullText)[i..i + RucLength]
  {
    var t := RemoveSpaces(fullText);
    match FindRuc(t, 0)
    case None => None
    case Some(i) =>
      assert LeftmostRuc(t, i);
      Some(t[i..i + RucLength])
  }

  /** A number glued to a word character has no boundary before it. */
  lemma NoRucAfterWordChar(t: string, i: nat)
    requires 0 < i <= |t| && IsWordChar(t[i - 1])
    ensures !RucAt(t, i)
  {
  }

  /** A label such as `RUC` followed by a space and the number, as in
      "RUC 20100070970": space removal glues the two, so the number is not
      matched where it starts. */
  lemma LabelSpaceHidesRuc(tag: string, number: string)
    requires tag != [] && ' ' !in tag && IsWordChar(tag[|tag| - 1])
    ensures !RucAt(RemoveSpaces(tag + " " + number), |tag|)
  {
    var head := tag + " ";
    assert tag + " " + number == head + number;
    RemoveAppend(head, number, ' ');
    assert Remove(head, ' ') == tag by {
      RemoveAppend(tag, " ", ' ');
      RemoveAbsent(tag, ' ');
      assert Remove(" ", ' ') == "";
    }
    var t := RemoveSpaces(tag + " " + number);
    assert t == tag + Remove(number, ' ');
    assert t[|tag| - 1] == tag[|tag| - 1];
    NoRucAfterWordChar(t, |tag|);
  }

  /** The number found depends only on the non-space characters of the
      lines, taken in order; line breaks and spaces are invisible to it. */
  lemma SearchRucIgnoresSpaces(a: seq<string>, b: seq<string>)
    requires StrippedConcat(a) == StrippedConcat(b)
    ensures SearchRuc(Join(a)) == SearchRuc(Join(b))
  {
    RemoveSpacesJoin(a);
    RemoveSpacesJoin(b);
  }

  /** Inserting one space into any line leaves the number found unchanged. */
  lemma SearchRucSpaceInsertion(lines: seq<string>, k: nat, p: nat)
    requires k < |lines| && p <= |lines[k]|
    ensures SearchRuc(Join(lines[k := lines[k][..p] + " " + lines[k][p..]])) == SearchRuc(Join(lines))
  {
    var lines' := lines[k := lines[k][..p] + " " + lines[k][p..]];
    InsertSpace(lines[k], p);
    StrippedConcatPointwise(lines, lines');
    SearchRucIgnoresSpaces(lines, lines');
  }

  lemma {:induction false} StrippedConcatPointwise(a: seq<string>, b: seq<string>)
    requires |a| == |b|
    requires forall k :: 0 <= k < |a| ==> RemoveSpaces(a[k]) == RemoveSpaces(b[k])
    ensures StrippedConcat(a) == StrippedConcat(b)
    decreases |a|
  {
    if a != [] {
      StrippedConcatPointwise(a[1..], b[1..]);
    }
  }
}
