/** The amount scan, `re.findall(r'\d{1,3}(?:,\d{3})*\.\d{2}', text)`, the
    conversion of each token to a number, and the maximum taken as the
    total. Amounts are exact integer numbers of cents. */
module Money {
  import opened Chars
  import opened Wrappers

  // ---------------------------------------------------------------------
  // The pattern, declaratively

  /** `(?:,\d{3})*`: zero or more groups of a comma and three digits. */
  ghost predicate Groups(s: string)
    decreases |s|
  {
    s == [] || (|s| >= 4 && s[0] == ',' && AllDigits(s[1..4]) && Groups(s[4..]))
  }

  /** `\d{1,3}(?:,\d{3})*`: one to three digits, then comma groups. */
  ghost predicate IntegerPart(s: string) {
    exists h: nat :: 1 <= h <= 3 && h <= |s| && AllDigits(s[..h]) && Groups(s[h..])
  }

  /** The whole pattern matches exactly `s`: an integer part, a point and
      two digits. */
  ghost predicate MoneyShape(s: string) {
    |s| >= 3
    && IntegerPart(s[..|s| - 3])
    && s[|s| - 3] == '.' && IsDigit(s[|s| - 2]) && IsDigit(s[|s| - 1])
  }

  /** The pattern matches `t[i..e]`. */
  ghost predicate MoneyAt(t: string, i: nat, e: nat) {
    i < e <= |t| && MoneyShape(t[i..e])
  }

  /** No match of the pattern starts at `i`. */
  ghost predicate NoMoneyAt(t: string, i: nat) {
    forall e: nat :: !MoneyAt(t, i, e)
  }

  // ---------------------------------------------------------------------
  // The matcher at one position

  /** Length of the run of digits starting at `i`. */
  function DigitRun(t: string, i: nat): (k: nat)
    requires i <= |t|
    ensures i + k <= |t|
    ensures AllDigits(t[i..i + k])
    ensures i + k == |t| || !IsDigit(t[i + k])
    decreases |t| - i
  {
    if i < |t| && IsDigit(t[i]) then
      var k := DigitRun(t, i + 1);
      assert t[i..i + 1 + k] == [t[i]] + t[i + 1..i + 1 + k];
      1 + k
    else 0
  }

  /** A comma group `,ddd` starts at `j`. */
  predicate GroupAt(t: string, j: nat) {
    j + 4 <= |t| && t[j] == ',' && AllDigits(t[j + 1..j + 4])
  }

  /** The end of the longest run of comma groups starting at `j`. */
  function SkipGroups(t: string, j: nat): (r: nat)
    requires j <= |t|
    ensures j <= r <= |t|
    ensures Groups(t[j..r])
    ensures !GroupAt(t, r)
    decreases |t| - j
  {
    if GroupAt(t, j) then
      var r := SkipGroups(t, j + 4);
      var s := t[j..r];
      assert s[0] == ',' && s[1..4] == t[j + 1..j + 4] && s[4..] == t[j + 4..r];
      r
    else
      assert t[j..j] == [];
      j
  }

  /** The end of the match starting at `i`, if any. The regex engine tries
      three, two, then one leading digits and backtracks over the groups;
      a fourth leading digit, or a group not followed by `.dd`, leaves it
      nothing to fall back on, so the greedy reading decides. */
  function MatchMoney(t: string, i: nat): (r: Option<nat>)
    requires i <= |t|
    ensures r.Some? ==> MoneyAt(t, i, r.value)
  {
    var k := DigitRun(t, i);
    if k < 1 || k > 3 then None
    else
      var j := SkipGroups(t, i + k);
      if j + 3 <= |t| && t[j] == '.' && IsDigit(t[j + 1]) && IsDigit(t[j + 2]) then
        MoneyAtFromParts(t, i, k, j);
        Some(j + 3)
      else None
  }

  /** Putting a match together: `h` leading digits, comma groups up to
      `j`, then the point and two digits. */
  lemma MoneyAtFromParts(t: string, i: nat, h: nat, j: nat)
    requires 1 <= h <= 3 && i + h <= j && j + 3 <= |t|
    requires AllDigits(t[i..i + h]) && Groups(t[i + h..j])
    requires t[j] == '.' && IsDigit(t[j + 1]) && IsDigit(t[j + 2])
    ensures MoneyAt(t, i, j + 3)
  {
    var s := t[i..j + 3];
    var p := s[..|s| - 3];
    assert p == t[i..j];
    assert p[..h] == t[i..i + h];
    assert p[h..] == t[i + h..j];
    assert IntegerPart(p);
    assert s[|s| - 3] == t[j] && s[|s| - 2] == t[j + 1] && s[|s| - 1] == t[j + 2];
  }

  /** The greedy group scan stops exactly at the end of any run of groups
      that is not followed by another group. */
  lemma {:induction false} SkipGroupsExact(t: string, j: nat, b: nat)
    requires j <= b <= |t|
    requires Groups(t[j..b]) && !GroupAt(t, b)
    ensures SkipGroups(t, j) == b
    decreases b - j
  {
    if j < b {
      var s := t[j..b];
      assert |s| >= 4 && s[0] == ',' && AllDigits(s[1..4]) && Groups(s[4..]);
      var g := t[j + 1..j + 4];
      forall q | 0 <= q < |g| ensures IsDigit(g[q]) {
        assert g[q] == s[1..4][q];
      }
      assert s[4..] == t[j + 4..b];
      SkipGroupsExact(t, j + 4, b);
    }
  }

  /** The digit run is exactly as long as the digits before a non-digit. */
  lemma DigitRunExact(t: string, i: nat, h: nat)
    requires i + h < |t| && AllDigits(t[i..i + h]) && !IsDigit(t[i + h])
    ensures DigitRun(t, i) == h
  {
  }

  /** Taking a match apart: its integer part is `t[i..e - 3]`, led by `h`
      digits, then comma groups, then the point at `e - 3`. */
  lemma MoneyAtParts(t: string, i: nat, e: nat) returns (h: nat)
    requires MoneyAt(t, i, e)
    ensures 1 <= h <= 3 && i + h <= e - 3
    ensures AllDigits(t[i..i + h]) && Groups(t[i + h..e - 3])
    ensures t[e - 3] == '.' && IsDigit(t[e - 2]) && IsDigit(t[e - 1])
  {
    var s := t[i..e];
    var p := s[..|s| - 3];
    assert p == t[i..e - 3];
    h :| 1 <= h <= 3 && h <= |p| && AllDigits(p[..h]) && Groups(p[h..]);
    assert p[..h] == t[i..i + h] && p[h..] == t[i + h..e - 3];
    assert t[e - 3] == s[|s| - 3] && t[e - 2] == s[|s| - 2] && t[e - 1] == s[|s| - 1];
  }

  /** Every match of the pattern at `i` is the one the matcher finds. */
  lemma MatchMoneyComplete(t: string, i: nat, e: nat)
    requires MoneyAt(t, i, e)
    ensures MatchMoney(t, i) == Some(e)
  {
    var h := MoneyAtParts(t, i, e);
    // What follows the leading digits is a comma (a group) or the point.
    if i + h < e - 3 {
      var g := t[i + h..e - 3];
      assert |g| >= 4 && g[0] == ',';
      assert t[i + h] == g[0];
    }
    DigitRunExact(t, i, h);
    assert !GroupAt(t, e - 3);
    SkipGroupsExact(t, i + h, e - 3);
  }

  /** At most one match starts at any position. */
  lemma MoneyAtUnique(t: string, i: nat, e1: nat, e2: nat)
    requires MoneyAt(t, i, e1) && MoneyAt(t, i, e2)
    ensures e1 == e2
  {
    MatchMoneyComplete(t, i, e1);
    MatchMoneyComplete(t, i, e2);
  }

  /** When the matcher finds nothing at `i`, no match starts there. */
  lemma MatchMoneyNone(t: string, i: nat)
    requires i <= |t| && MatchMoney(t, i).None?
    ensures NoMoneyAt(t, i)
  {
    forall e: nat | MoneyAt(t, i, e) ensures false {
      MatchMoneyComplete(t, i, e);
    }
  }

  /** The digit run is at least as long as any run of digits at `i`. */
  lemma DigitRunCovers(t: string, i: nat, n: nat)
    requires i + n <= |t| && AllDigits(t[i..i + n])
    ensures DigitRun(t, i) >= n
  {
  }

  /** No match starts at four or more digits in a row: "1234.56" has no
      match at its first digit (the scan then moves on to "234.56"). */
  lemma FourDigitsNoMatch(t: string, i: nat)
    requires i + 4 <= |t| && AllDigits(t[i..i + 4])
    ensures NoMoneyAt(t, i)
  {
    DigitRunCovers(t, i, 4);
    MatchMoneyNone(t, i);
  }

  /** The pattern does not look past the second decimal: whatever follows
      a match ("12.345" matches as "12.34") does not affect it. */
  lemma MatchIgnoresWhatFollows(t: string, rest: string, i: nat, e: nat)
    requires MoneyAt(t, i, e)
    ensures MoneyAt(t + rest, i, e)
  {
    assert (t + rest)[i..e] == t[i..e];
  }

  // ---------------------------------------------------------------------
  // findall: left to right, without overlap

  /** A match, as the half-open range `start..end` of the text. */
  datatype Span = Span(start: nat, end: nat)

  /** No match starts anywhere in `lo..hi`. */
  ghost predicate NoMoneyIn(t: string, lo: nat, hi: nat) {
    forall i: nat, e: nat :: lo <= i < hi ==> !MoneyAt(t, i, e)
  }

  /** `spans` is what `findall` reports when scanning `t` from `from`: the
      leftmost match at or after `from`, then the leftmost one at or after
      its end, and so on until no match is left. */
  ghost predicate IsFindAll(t: string, from: nat, spans: seq<Span>)
    decreases |spans|
  {
    if spans == [] then NoMoneyIn(t, from, |t| + 1)
    else
      var s := spans[0];
      from <= s.start
      && NoMoneyIn(t, from, s.start)
      && MoneyAt(t, s.start, s.end)
      && IsFindAll(t, s.end, spans[1..])
  }

  /** The matches of the pattern in `t` from `from` on, as `findall` finds them. */
  function FindAllMoney(t: string, from: nat): (r: seq<Span>)
    requires from <= |t|
    ensures IsFindAll(t, from, r)
    decreases |t| - from
  {
    if from == |t| then []
    else
      match MatchMoney(t, from)
      case Some(e) =>
        var rest := FindAllMoney(t, e);
        assert ([Span(from, e)] + rest)[1..] == rest;
        [Span(from, e)] + rest
      case None =>
        MatchMoneyNone(t, from);
        var rest := FindAllMoney(t, from + 1);
        assert rest != [] ==> NoMoneyIn(t, from, rest[0].start);
        rest
  }

  /** The first reported match is the leftmost one at or after `from`. */
  lemma FindAllFirst(t: string, from: nat, spans: seq<Span>, i: nat, e: nat)
    requires IsFindAll(t, from, spans)
    requires from <= i && MoneyAt(t, i, e)
    ensures spans != [] && spans[0].start <= i
  {
  }

  /** The scan's result is determined: only one list of spans meets the
      `findall` description. */
  lemma {:induction false} FindAllUnique(t: string, from: nat, a: seq<Span>, b: seq<Span>)
    requires IsFindAll(t, from, a) && IsFindAll(t, from, b)
    ensures a == b
    decreases |a|
  {
    if a != [] {
      FindAllFirst(t, from, b, a[0].start, a[0].end);
      FindAllFirst(t, from, a, b[0].start, b[0].end);
      MoneyAtUnique(t, a[0].start, a[0].end, b[0].end);
      FindAllUnique(t, a[0].end, a[1..], b[1..]);
    }
  }

  /** The reported matches lie inside the scanned part of the text, are in
      left-to-right order and do not overlap. */
  lemma {:induction false} FindAllOrdered(t: string, from: nat, spans: seq<Span>)
    requires IsFindAll(t, from, spans)
    ensures forall k :: 0 <= k < |spans| ==> from <= spans[k].start && MoneyAt(t, spans[k].start, spans[k].end)
    ensures forall k :: 0 <= k < |spans| - 1 ==> spans[k].end <= spans[k + 1].start
    decreases |spans|
  {
    if spans != [] {
      FindAllOrdered(t, spans[0].end, spans[1..]);
      forall k | 0 <= k < |spans| ensures from <= spans[k].start && MoneyAt(t, spans[k].start, spans[k].end) {
        if k > 0 { assert spans[k] == spans[1..][k - 1]; }
      }
      forall k | 0 <= k < |spans| - 1 ensures spans[k].end <= spans[k + 1].start {
        if k > 0 { assert spans[k] == spans[1..][k - 1] && spans[k + 1] == spans[1..][k]; }
      }
    }
  }

  /** The matched substrings, in order. */
  function Tokens(t: string, spans: seq<Span>): (r: seq<string>)
    requires forall k :: 0 <= k < |spans| ==> spans[k].start <= spans[k].end <= |t|
    ensures |r| == |spans|
    ensures forall k :: 0 <= k < |spans| ==> r[k] == t[spans[k].start..spans[k].end]
    decreases |spans|
  {
    if spans == [] then [] else [t[spans[0].start..spans[0].end]] + Tokens(t, spans[1..])
  }

  /** `re.findall(pattern, t)`: the texts of the leftmost, non-overlapping
      matches, in order; each has the pattern's shape. */
  function MoneyTokens(t: string): (r: seq<string>)
    ensures forall k :: 0 <= k < |r| ==> MoneyShape(r[k])
    ensures exists spans: seq<Span> ::
              IsFindAll(t, 0, spans) && |r| == |spans|
              && (forall k :: 0 <= k < |spans| ==> spans[k].start <= spans[k].end <= |t|)
              && forall k :: 0 <= k < |spans| ==> r[k] == t[spans[k].start..spans[k].end]
  {
    var spans := FindAllMoney(t, 0);
    FindAllOrdered(t, 0, spans);
    Tokens(t, spans)
  }

  // ---------------------------------------------------------------------
  // From token to amount

  /** `float(u)` for the strings `amount.replace(',', '')` can produce:
      digits, a point and two digits, read exactly in cents. Any other
      string makes `float` fail in the source, which skips the token
      (`except: pass`); here that is `None`. */
  function ParseCents(u: string): (r: Option<nat>)
    ensures r.Some? <==> |u| >= 4 && AllDigits(u[..|u| - 3]) && u[|u| - 3] == '.' && AllDigits(u[|u| - 2..])
  {
    if |u| >= 4 && AllDigits(u[..|u| - 3]) && u[|u| - 3] == '.' && AllDigits(u[|u| - 2..]) then
      Some(100 * NumberValue(u[..|u| - 3]) + NumberValue(u[|u| - 2..]))
    else None
  }

  /** The value a token denotes: its integer part with the commas dropped,
      read in units, plus the two decimals, read in cents. */
  ghost function TokenCents(tok: string): nat
    requires MoneyShape(tok)
  {
    var ip := Remove(tok[..|tok| - 3], ',');
    assert AllDigits(ip) by { IntegerPartDigits(tok[..|tok| - 3]); }
    assert AllDigits(tok[|tok| - 2..]) by {
      var f := tok[|tok| - 2..];
      assert f[0] == tok[|tok| - 2] && f[1] == tok[|tok| - 1];
    }
    100 * NumberValue(ip) + NumberValue(tok[|tok| - 2..])
  }

  /** Comma groups hold only commas and digits. */
  lemma {:induction false} GroupsDigitsOrCommas(s: string)
    requires Groups(s)
    ensures forall k :: 0 <= k < |s| ==> IsDigit(s[k]) || s[k] == ','
    decreases |s|
  {
    if s != [] {
      GroupsDigitsOrCommas(s[4..]);
      forall k | 0 <= k < |s| ensures IsDigit(s[k]) || s[k] == ',' {
        if 1 <= k < 4 { assert s[k] == s[1..4][k - 1]; }
        if k >= 4 { assert s[k] == s[4..][k - 4]; }
      }
    }
  }

  /** Dropping the commas from a string of digits and commas leaves digits. */
  lemma {:induction false} RemoveCommasDigits(s: string)
    requires forall k :: 0 <= k < |s| ==> IsDigit(s[k]) || s[k] == ','
    ensures AllDigits(Remove(s, ','))
    decreases |s|
  {
    if s != [] {
      RemoveCommasDigits(s[1..]);
      var r := Remove(s, ',');
      var tail := Remove(s[1..], ',');
      if s[0] != ',' {
        assert r == [s[0]] + tail;
        forall k | 0 <= k < |r| ensures IsDigit(r[k]) {
          if k > 0 { assert r[k] == tail[k - 1]; }
        }
      }
    }
  }

  /** The integer part of a token without its commas is a non-empty digit
      string that starts with the token's first digit. */
  lemma IntegerPartDigits(p: string)
    requires IntegerPart(p)
    ensures AllDigits(Remove(p, ','))
    ensures |Remove(p, ',')| >= 1 && Remove(p, ',')[0] == p[0]
  {
    var h: nat :| 1 <= h <= 3 && h <= |p| && AllDigits(p[..h]) && Groups(p[h..]);
    GroupsDigitsOrCommas(p[h..]);
    forall k | 0 <= k < |p| ensures IsDigit(p[k]) || p[k] == ',' {
      if k < h { assert p[k] == p[..h][k]; } else { assert p[k] == p[h..][k - h]; }
    }
    RemoveCommasDigits(p);
    assert p[0] == p[..h][0];
    assert p == [p[0]] + p[1..];
  }

  /** The conversion never fails on a token: the `except` branch of the
      source is dead, and the amount is the token's value, exactly. */
  lemma ParseToken(tok: string)
    requires MoneyShape(tok)
    ensures ParseCents(Remove(tok, ',')) == Some(TokenCents(tok))
  {
    var p := tok[..|tok| - 3];
    var f := tok[|tok| - 3..];
    var ip := Remove(p, ',');
    IntegerPartDigits(p);
    TokenWithoutCommas(tok);
    assert f[1..] == tok[|tok| - 2..];
    ParseDecimal(ip, f);
  }

  /** Only the integer part of a token holds commas. */
  lemma TokenWithoutCommas(tok: string)
    requires MoneyShape(tok)
    ensures Remove(tok, ',') == Remove(tok[..|tok| - 3], ',') + tok[|tok| - 3..]
  {
    var p, f := tok[..|tok| - 3], tok[|tok| - 3..];
    assert tok == p + f;
    RemoveAppend(p, f, ',');
    assert ',' !in f by {
      assert f == [tok[|tok| - 3], tok[|tok| - 2], tok[|tok| - 1]];
    }
    RemoveAbsent(f, ',');
  }

  /** A token's amount in cents is the number its digits spell once the
      commas and the decimal point are dropped: `1,234.50` is 123450 cents. */
  lemma {:induction false} CentsAreDigits(tok: string)
    requires MoneyShape(tok)
    ensures AllDigits(Remove(Remove(tok, ','), '.'))
    ensures TokenCents(tok) == NumberValue(Remove(Remove(tok, ','), '.'))
  {
    var ip := Remove(tok[..|tok| - 3], ',');
    var f := tok[|tok| - 3..];
    var d := tok[|tok| - 2..];
    IntegerPartDigits(tok[..|tok| - 3]);
    TokenWithoutCommas(tok);
    assert f == ['.'] + d;
    assert AllDigits(d) by {
      assert d[0] == tok[|tok| - 2] && d[1] == tok[|tok| - 1];
    }
    assert '.' !in ip by {
      forall k | 0 <= k < |ip| ensures ip[k] != '.' { assert IsDigit(ip[k]); }
    }
    assert '.' !in d by {
      assert d == [d[0], d[1]] && IsDigit(d[0]) && IsDigit(d[1]);
    }
    assert Remove(ip + f, '.') == ip + d by {
      RemoveAppend(ip, f, '.');
      RemoveAppend(['.'], d, '.');
      RemoveAbsent(ip, '.');
      RemoveAbsent(d, '.');
    }
    NumberValueAppend(ip, d);
    assert Pow10(|d|) == 100;
  }

  /** Digits followed by a point and two digits parse as their value. */
  lemma ParseDecimal(ip: string, f: string)
    requires |ip| >= 1 && AllDigits(ip)
    requires |f| == 3 && f[0] == '.' && AllDigits(f[1..])
    ensures ParseCents(ip + f) == Some(100 * NumberValue(ip) + NumberValue(f[1..]))
  {
    var u := ip + f;
    assert u[..|u| - 3] == ip;
    assert u[|u| - 2..] == f[1..];
  }

  /** The loop of app.py:68-74: each token converted in order, failures
      skipped. */
  function ValidAmounts(tokens: seq<string>): (r: seq<nat>)
    ensures |r| <= |tokens|
    decreases |tokens|
  {
    if tokens == [] then []
    else
      match ParseCents(Remove(tokens[0], ','))
      case Some(v) => [v] + ValidAmounts(tokens[1..])
      case None => ValidAmounts(tokens[1..])
  }

  /** On tokens of the pattern nothing is skipped, and each amount is its
      token's value. */
  lemma {:induction false} ValidAmountsOfTokens(tokens: seq<string>)
    requires forall k :: 0 <= k < |tokens| ==> MoneyShape(tokens[k])
    ensures |ValidAmounts(tokens)| == |tokens|
    ensures forall k :: 0 <= k < |tokens| ==> ValidAmounts(tokens)[k] == TokenCents(tokens[k])
    decreases |tokens|
  {
    if tokens != [] {
      ParseToken(tokens[0]);
      ValidAmountsOfTokens(tokens[1..]);
      var r := ValidAmounts(tokens);
      forall k | 0 <= k < |tokens| ensures r[k] == TokenCents(tokens[k]) {
        if k > 0 { assert tokens[k] == tokens[1..][k - 1]; }
      }
    }
  }

  /** `max(amounts)` when there is at least one amount, else the default 0. */
  function MaxOrZero(xs: seq<nat>): (m: nat)
    ensures forall k :: 0 <= k < |xs| ==> xs[k] <= m
    ensures xs == [] ==> m == 0
    ensures xs != [] ==> m in xs
    decreases |xs|
  {
    if xs == [] then 0
    else
      var m := MaxOrZero(xs[1..]);
      assert forall k :: 1 <= k < |xs| ==> xs[k] == xs[1..][k - 1];
      if xs[0] >= m then xs[0] else m
  }

  /** The `total` field computed from the joined text (app.py:65-78). */
  function SearchTotal(t: string): (total: nat)
    ensures var tokens := MoneyTokens(t);
      && (forall k :: 0 <= k < |tokens| ==> TokenCents(tokens[k]) <= total)
      && (tokens == [] ==> total == 0)
      && (tokens != [] ==> exists k :: 0 <= k < |tokens| && total == TokenCents(tokens[k]))
  {
    var tokens := MoneyTokens(t);
    ValidAmountsOfTokens(tokens);
    MaxOrZero(ValidAmounts(tokens))
  }
}
