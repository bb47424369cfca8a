/** The recognizer's output and the one text the scans run over: the line
    texts joined with single spaces (`" ".join(...)`). */
module Lines {
  import opened Chars

  datatype Point = Point(x: real, y: real)

  /** One recognized line, `[[coords], [text, confidence]]`; only the text
      is used by the extraction. */
  datatype OcrLine = OcrLine(box: seq<Point>, text: string, confidence: real)

  /** The list comprehension `[line[1][0] for line in ocr_result]`. */
  function LineTexts(ocr: seq<OcrLine>): (texts: seq<string>)
    ensures |texts| == |ocr|
    ensures forall k :: 0 <= k < |ocr| ==> texts[k] == ocr[k].text
    decreases |ocr|
  {
    if ocr == [] then [] else [ocr[0].text] + LineTexts(ocr[1..])
  }

  /** `" ".join(lines)`. */
  function Join(lines: seq<string>): string
    decreases |lines|
  {
    if lines == [] then ""
    else if |lines| == 1 then lines[0]
    else lines[0] + " " + Join(lines[1..])
  }

  /** Joining two non-empty lists puts exactly one space between their joins. */
  lemma {:induction false} JoinAppend(a: seq<string>, b: seq<string>)
    requires a != [] && b != []
    ensures Join(a + b) == Join(a) + " " + Join(b)
    decreases |a|
  {
    if |a| == 1 {
      assert (a + b)[1..] == b;
    } else {
      assert (a + b)[1..] == a[1..] + b;
      JoinAppend(a[1..], b);
    }
  }

  /** Where line `k` starts in the joined text: every earlier line and its
      separating space come before it. */
  function Offset(lines: seq<string>, k: nat): nat
    requires k <= |lines|
  {
    if k == 0 then 0 else Offset(lines, k - 1) + |lines[k - 1]| + 1
  }

  lemma {:induction false} OffsetTail(lines: seq<string>, k: nat)
    requires 0 < k <= |lines|
    ensures Offset(lines, k) == |lines[0]| + 1 + Offset(lines[1..], k - 1)
    decreases k
  {
    if k > 1 {
      OffsetTail(lines, k - 1);
    }
  }

  /** The layout of the joined text: each line at its offset, in input
      order and unchanged, followed by one space unless it is the last. */
  lemma {:induction false} JoinLayout(lines: seq<string>, k: nat)
    requires k < |lines|
    ensures Offset(lines, k) + |lines[k]| <= |Join(lines)|
    ensures k + 1 < |lines| ==> Offset(lines, k) + |lines[k]| < |Join(lines)|
    ensures Join(lines)[Offset(lines, k)..Offset(lines, k) + |lines[k]|] == lines[k]
    ensures k + 1 < |lines| ==> Join(lines)[Offset(lines, k) + |lines[k]|] == ' '
    ensures k + 1 == |lines| ==> |Join(lines)| == Offset(lines, k) + |lines[k]|
    decreases k
  {
    var j := Join(lines);
    if k == 0 {
      if |lines| > 1 {
        assert j == lines[0] + " " + Join(lines[1..]);
        assert j[..|lines[0]|] == lines[0];
      }
    } else {
      var rest := lines[1..];
      JoinLayout(rest, k - 1);
      OffsetTail(lines, k);
      assert j == lines[0] + " " + Join(rest);
      var o := Offset(rest, k - 1);
      assert rest[k - 1] == lines[k];
      var shift := |lines[0]| + 1;
      assert j[shift + o..shift + o + |lines[k]|] == Join(rest)[o..o + |lines[k]|];
    }
  }

  /** Python's `text.replace(" ", "")`: only the ASCII space is removed. */
  function RemoveSpaces(s: string): (r: string)
    ensures ' ' !in r
    ensures multiset(r) == multiset(s)[' ' := 0]
  {
    RemoveCount(s, ' ');
    Remove(s, ' ')
  }

  /** Each line with its spaces removed, concatenated in order. */
  function StrippedConcat(lines: seq<string>): string
    decreases |lines|
  {
    if lines == [] then "" else RemoveSpaces(lines[0]) + StrippedConcat(lines[1..])
  }

  /** Removing the spaces of the joined text loses the separators too: what
      is left depends only on each line's non-space characters. */
  lemma {:induction false} RemoveSpacesJoin(lines: seq<string>)
    ensures RemoveSpaces(Join(lines)) == StrippedConcat(lines)
    decreases |lines|
  {
    if |lines| == 1 {
      assert StrippedConcat(lines[1..]) == "";
    } else if |lines| > 1 {
      var head, rest := lines[0], Join(lines[1..]);
      RemoveSpacesJoin(lines[1..]);
      assert Join(lines) == (head + " ") + rest;
      RemoveAppend(head + " ", rest, ' ');
      RemoveAppend(head, " ", ' ');
      assert Remove(" ", ' ') == "";
      assert Remove(head + " ", ' ') == Remove(head, ' ');
    }
  }

  /** Inserting one space anywhere in a text does not change its
      space-free form. */
  lemma InsertSpace(s: string, p: nat)
    requires p <= |s|
    ensures RemoveSpaces(s[..p] + " " + s[p..]) == RemoveSpaces(s)
  {
    var a, b := s[..p], s[p..];
    assert a + " " + b == (a + " ") + b;
    RemoveAppend(a + " ", b, ' ');
    assert Remove(a + " ", ' ') == Remove(a, ' ') by {
      RemoveAppend(a, " ", ' ');
      assert Remove(" ", ' ') == "";
    }
    assert a + b == s;
    RemoveAppend(a, b, ' ');
  }
}
