/** Character classes and small string operations shared by the scanners.

    Python's `\d`, `\w` and `str.isspace` are Unicode-aware; this model
    restricts all three to ASCII. */
module Chars {

  /** `\d`, restricted to the ASCII digits. */
  predicate IsDigit(c: char) {
    '0' <= c <= '9'
  }

  /** `\w`, restricted to ASCII letters, ASCII digits and the underscore. */
  predicate IsWordChar(c: char) {
    IsDigit(c) || 'a' <= c <= 'z' || 'A' <= c <= 'Z' || c == '_'
  }

  /** `str.isspace` on the ASCII range: tab, line feed, vertical tab, form
      feed, carriage return, the four separators 0x1C-0x1F and the space. */
  predicate IsWhitespace(c: char) {
    c == ' ' || 9 <= c as int <= 13 || 28 <= c as int <= 31
  }

  predicate AllDigits(s: string) {
    forall k :: 0 <= k < |s| ==> IsDigit(s[k])
  }

  function DigitValue(c: char): (d: nat)
    requires IsDigit(c)
    ensures d <= 9
  {
    c as int - '0' as int
  }

  /** The natural number a string of decimal digits denotes. */
  function NumberValue(s: string): nat
    requires AllDigits(s)
    decreases |s|
  {
    if s == [] then 0 else 10 * NumberValue(s[..|s| - 1]) + DigitValue(s[|s| - 1])
  }

  function Pow10(n: nat): (p: nat)
    ensures p >= 1
  {
    if n == 0 then 1 else 10 * Pow10(n - 1)
  }

  lemma AllDigitsAppend(a: string, b: string)
    requires AllDigits(a) && AllDigits(b)
    ensures AllDigits(a + b)
  {
    var ab := a + b;
    forall k | 0 <= k < |ab| ensures IsDigit(ab[k]) {
      if k < |a| { assert ab[k] == a[k]; } else { assert ab[k] == b[k - |a|]; }
    }
  }

  /** Reading `a + b` as a number shifts `a` left by `|b|` decimal places. */
  lemma {:induction false} NumberValueAppend(a: string, b: string)
    requires AllDigits(a) && AllDigits(b)
    ensures AllDigits(a + b)
    ensures NumberValue(a + b) == NumberValue(a) * Pow10(|b|) + NumberValue(b)
    decreases |b|
  {
    AllDigitsAppend(a, b);
    var ab := a + b;
    if b == [] {
      assert ab == a;
    } else {
      var b' := b[..|b| - 1];
      var d := DigitValue(b[|b| - 1]);
      assert ab[..|ab| - 1] == a + b';
      assert ab[|ab| - 1] == b[|b| - 1];
      NumberValueAppend(a, b');
      var x, y, p := NumberValue(a), NumberValue(b'), Pow10(|b'|);
      assert NumberValue(a + b') == x * p + y;
      assert AllDigits(ab[..|ab| - 1]);
      assert NumberValue(ab) == 10 * (x * p + y) + d;
      assert Pow10(|b|) == 10 * p;
      assert NumberValue(b) == 10 * y + d by {
        assert b[..|b| - 1] == b';
      }
      MulShift(x, p);
    }
  }

  lemma MulShift(x: nat, p: nat)
    ensures 10 * (x * p) == x * (10 * p)
  {
  }

  /** Python's `s.replace(c, "")`: every occurrence of `c` dropped, the rest
      kept in order. */
  function Remove(s: string, c: char): (r: string)
    ensures |r| <= |s|
    ensures forall k :: 0 <= k < |r| ==> r[k] != c
    ensures forall x :: x != c ==> (x in r <==> x in s)
    decreases |s|
  {
    if s == [] then []
    else
      var rest := Remove(s[1..], c);
      assert s == [s[0]] + s[1..];
      (if s[0] == c then [] else [s[0]]) + rest
  }

  /** Removal drops every `c` and keeps every other character as often as
      it occurs. */
  lemma {:induction false} RemoveCount(s: string, c: char)
    ensures multiset(Remove(s, c)) == multiset(s)[c := 0]
    decreases |s|
  {
    if s != [] {
      RemoveCount(s[1..], c);
      assert s == [s[0]] + s[1..];
    }
  }

  /** Removal shortens a text by exactly the number of removed characters. */
  lemma {:induction false} RemoveLength(s: string, c: char)
    ensures |Remove(s, c)| == |s| - multiset(s)[c]
    decreases |s|
  {
    if s != [] {
      RemoveLength(s[1..], c);
      assert s == [s[0]] + s[1..];
    }
  }

  /** Removal keeps the order: a kept character moves left by exactly the
      number of removed characters before it. */
  lemma {:induction false} RemovePositions(s: string, c: char, k: nat)
    requires k < |s| && s[k] != c
    ensures k - multiset(s[..k])[c] < |Remove(s, c)|
    ensures Remove(s, c)[k - multiset(s[..k])[c]] == s[k]
    decreases k
  {
    var tail := s[1..];
    var rest := Remove(tail, c);
    assert s == [s[0]] + tail;
    if k == 0 {
      assert s[..0] == [];
      assert Remove(s, c) == [s[0]] + rest;
    } else {
      RemovePositions(tail, c, k - 1);
      var m := multiset(tail[..k - 1])[c];
      var j := k - 1 - m;
      assert rest[j] == tail[k - 1] == s[k];
      assert s[..k] == [s[0]] + tail[..k - 1];
      CountCons(s[0], tail[..k - 1], c);
      if s[0] == c {
        assert Remove(s, c) == rest;
        assert k - multiset(s[..k])[c] == j;
      } else {
        assert Remove(s, c) == [s[0]] + rest;
        assert k - multiset(s[..k])[c] == j + 1;
      }
    }
  }

  lemma CountCons(x: char, t: string, c: char)
    ensures multiset([x] + t)[c] == (if x == c then 1 else 0) + multiset(t)[c]
  {
  }

  /** Removal distributes over concatenation. */
  lemma {:induction false} RemoveAppend(a: string, b: string, c: char)
    ensures Remove(a + b, c) == Remove(a, c) + Remove(b, c)
    decreases |a|
  {
    if a == [] {
      assert a + b == b;
    } else {
      assert (a + b)[0] == a[0];
      assert (a + b)[1..] == a[1..] + b;
      RemoveAppend(a[1..], b, c);
    }
  }

  /** A string without `c` is left unchanged. */
  lemma {:induction false} RemoveAbsent(s: string, c: char)
    requires c !in s
    ensures Remove(s, c) == s
    decreases |s|
  {
    if s != [] {
      assert s == [s[0]] + s[1..];
      RemoveAbsent(s[1..], c);
    }
  }

  /** Removing `c` twice is removing it once. */
  lemma RemoveIdempotent(s: string, c: char)
    ensures Remove(Remove(s, c), c) == Remove(s, c)
  {
    RemoveAbsent(Remove(s, c), c);
  }
}
