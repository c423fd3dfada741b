/**
 * The pieces of JavaScript string behaviour the modelled code relies on:
 * `trim`, the `\s` class, `toLowerCase` (ASCII letters only), `includes`,
 * decimal rendering of integers, `padStart(2, '0')` and `split('-')`.
 */
module Text {

  /** JavaScript white space and line terminators: the set `trim` removes and `\s` matches. */
  predicate IsSpace(c: char) {
    var n := c as int;
    || n == 0x20 || 0x09 <= n <= 0x0D || n == 0xA0 || n == 0x1680 || 0x2000 <= n <= 0x200A
    || n == 0x2028 || n == 0x2029 || n == 0x202F || n == 0x205F || n == 0x3000 || n == 0xFEFF
  }

  predicate IsDigit(c: char) { '0' <= c <= '9' }

  predicate AllDigits(s: string) { forall i :: 0 <= i < |s| ==> IsDigit(s[i]) }

  lemma DigitNotSpace(c: char)
    requires IsDigit(c)
    ensures !IsSpace(c)
  {
  }

  /** The first position at or after `i` that does not hold white space (or the end). */
  function SkipSpaces(s: string, i: nat): (k: nat)
    requires i <= |s|
    ensures i <= k <= |s|
    decreases |s| - i
  {
    if i < |s| && IsSpace(s[i]) then SkipSpaces(s, i + 1) else i
  }

  /** The position just after the last non-space character in `s[i..j]` (or `i`). */
  function BackSpaces(s: string, i: nat, j: nat): (k: nat)
    requires i <= j <= |s|
    ensures i <= k <= j
    decreases j
  {
    if i < j && IsSpace(s[j - 1]) then BackSpaces(s, i, j - 1) else j
  }

  /** `SkipSpaces` passes exactly the white space in front of it. */
  lemma {:induction false} SkipSpacesPasses(s: string, i: nat)
    requires i <= |s|
    ensures var k := SkipSpaces(s, i);
      && (k == |s| || !IsSpace(s[k]))
      && forall p :: i <= p < k ==> IsSpace(s[p])
    decreases |s| - i
  {
    if i < |s| && IsSpace(s[i]) {
      SkipSpacesPasses(s, i + 1);
    }
  }

  /** `BackSpaces` passes exactly the white space behind it. */
  lemma {:induction false} BackSpacesPasses(s: string, i: nat, j: nat)
    requires i <= j <= |s|
    ensures var k := BackSpaces(s, i, j);
      && (k == i || !IsSpace(s[k - 1]))
      && forall p :: k <= p < j ==> IsSpace(s[p])
    decreases j
  {
    if i < j && IsSpace(s[j - 1]) {
      BackSpacesPasses(s, i, j - 1);
    }
  }

  /** `s.trimStart()` */
  function TrimStart(s: string): string {
    s[SkipSpaces(s, 0)..]
  }

  /** `s.trim()` */
  function Trim(s: string): string {
    var i := SkipSpaces(s, 0);
    s[i..BackSpaces(s, i, |s|)]
  }

  /** `toLowerCase` on one character; only the ASCII letters are folded. */
  function LowerChar(c: char): (r: char)
    ensures !('A' <= r <= 'Z')
    ensures c == r || ('A' <= c <= 'Z' && r as int == c as int + 32)
  {
    if 'A' <= c <= 'Z' then (c as int + 32) as char else c
  }

  function Lower(s: string): (r: string)
    ensures |r| == |s|
    ensures forall i :: 0 <= i < |s| ==> r[i] == LowerChar(s[i])
  {
    seq(|s|, k requires 0 <= k < |s| => LowerChar(s[k]))
  }

  /** `s.replace(/\s/g, '')` */
  function RemoveSpaces(s: string): (r: string)
    ensures |r| <= |s|
    ensures forall i :: 0 <= i < |r| ==> !IsSpace(r[i])
  {
    if s == [] then [] else (if IsSpace(s[0]) then [] else [s[0]]) + RemoveSpaces(s[1..])
  }

  predicate StartsWith(s: string, prefix: string) {
    |prefix| <= |s| && s[..|prefix|] == prefix
  }

  /** `s.includes(sub)`; every string includes the empty string. */
  predicate Contains(s: string, sub: string)
    decreases |s|
  {
    StartsWith(s, sub) || (|s| > 0 && Contains(s[1..], sub))
  }

  lemma {:induction false} ContainsAt(s: string, sub: string, i: nat)
    requires i + |sub| <= |s| && s[i..i + |sub|] == sub
    ensures Contains(s, sub)
    decreases i
  {
    if i > 0 {
      assert s[1..][i - 1..i - 1 + |sub|] == sub;
      ContainsAt(s[1..], sub, i - 1);
    }
  }

  lemma {:induction false} ContainsWitness(s: string, sub: string) returns (i: nat)
    requires Contains(s, sub)
    ensures i + |sub| <= |s| && s[i..i + |sub|] == sub
    decreases |s|
  {
    if StartsWith(s, sub) {
      i := 0;
    } else {
      var j := ContainsWitness(s[1..], sub);
      i := j + 1;
      assert s[i..i + |sub|] == s[1..][j..j + |sub|];
    }
  }

  /** A string without `sub[k]` in it cannot include `sub`. */
  lemma {:induction false} NotContainsChar(s: string, sub: string, k: nat)
    requires k < |sub|
    requires forall i :: 0 <= i < |s| ==> s[i] != sub[k]
    ensures !Contains(s, sub)
    decreases |s|
  {
    if |sub| <= |s| {
      assert s[..|sub|][k] != sub[k];
    }
    if |s| > 0 {
      NotContainsChar(s[1..], sub, k);
    }
  }

  function DigitChar(d: nat): (c: char)
    requires d < 10
    ensures IsDigit(c)
  {
    ('0' as int + d) as char
  }

  function DigitValue(c: char): (d: nat)
    requires IsDigit(c)
    ensures d < 10 && DigitChar(d) == c
  {
    c as int - '0' as int
  }

  /** The value of a string of decimal digits (leading zeros allowed). */
  function DigitsValue(s: string): nat
    requires AllDigits(s)
  {
    if s == [] then 0 else DigitsValue(s[..|s| - 1]) * 10 + DigitValue(s[|s| - 1])
  }

  /** Shortest decimal rendering of a natural number, as JavaScript's `String(n)`. */
  function NatToDecimal(n: nat): (s: string)
    ensures |s| >= 1 && AllDigits(s)
    ensures n < 10 <==> |s| == 1
    ensures s[0] != '0' || n == 0
  {
    if n < 10 then [DigitChar(n)] else NatToDecimal(n / 10) + [DigitChar(n % 10)]
  }

  /** `String(n)` for an integer: a minus sign before negative numbers. */
  function IntToDecimal(n: int): (s: string)
    ensures |s| >= 1
  {
    if n < 0 then "-" + NatToDecimal(-n) else NatToDecimal(n)
  }

  lemma {:induction false} DecimalRoundTrip(n: nat)
    ensures DigitsValue(NatToDecimal(n)) == n
  {
    if n >= 10 {
      var s := NatToDecimal(n);
      assert s[..|s| - 1] == NatToDecimal(n / 10);
      DecimalRoundTrip(n / 10);
    }
  }

  lemma {:induction false} DecimalLength(n: nat, k: nat)
    requires Pow10(k) <= n < Pow10(k + 1)
    ensures |NatToDecimal(n)| == k + 1
  {
    if k > 0 {
      DecimalLength(n / 10, k - 1);
    }
  }

  function Pow10(k: nat): (r: nat)
    ensures r >= 1
  {
    if k == 0 then 1 else 10 * Pow10(k - 1)
  }

  /** `s.padStart(2, '0')` */
  function PadStart2(s: string): (r: string)
    ensures |s| >= 2 ==> r == s
    ensures |s| < 2 ==> |r| == 2 && r[2 - |s|..] == s && forall i :: 0 <= i < 2 - |s| ==> r[i] == '0'
  {
    if |s| == 0 then "00" else if |s| == 1 then "0" + s else s
  }

  /** `s.split(c)`: the pieces between occurrences of `c`, empty ones included. */
  function Split(s: string, c: char): (r: seq<string>)
    ensures |r| >= 1
    ensures forall k :: 0 <= k < |r| ==> c !in r[k]
    decreases |s|
  {
    if c in s then
      var i := FirstIndex(s, c);
      [s[..i]] + Split(s[i + 1..], c)
    else
      [s]
  }

  function FirstIndex(s: string, c: char): (i: nat)
    requires c in s
    ensures i < |s| && s[i] == c && c !in s[..i]
  {
    if s[0] == c then 0 else 1 + FirstIndex(s[1..], c)
  }

  lemma {:induction false} FirstIndexOf(a: string, c: char, rest: string)
    requires c !in a
    ensures FirstIndex(a + [c] + rest, c) == |a|
    decreases |a|
  {
    if a != [] {
      assert (a + [c] + rest)[1..] == a[1..] + [c] + rest;
      FirstIndexOf(a[1..], c, rest);
    }
  }

  lemma SplitCons(a: string, c: char, rest: string)
    requires c !in a
    ensures Split(a + [c] + rest, c) == [a] + Split(rest, c)
  {
    var s := a + [c] + rest;
    assert s[|a|] == c;
    FirstIndexOf(a, c, rest);
    assert s[..|a|] == a;
    assert s[|a| + 1..] == rest;
  }

  /** A separator in front adds an empty first piece. */
  lemma SplitLead(c: char, w: string)
    ensures Split([c] + w, c) == [[]] + Split(w, c)
  {
    assert [c] + w == [] + [c] + w;
    SplitCons([], c, w);
  }

  /** The longest prefix of decimal digits. */
  function LeadingDigits(s: string): (r: string)
    ensures |r| <= |s| && r == s[..|r|] && AllDigits(r)
    ensures |r| == |s| || !IsDigit(s[|r|])
  {
    if |s| > 0 && IsDigit(s[0]) then [s[0]] + LeadingDigits(s[1..]) else []
  }

  /** Leading zeros do not change the value of a digit string. */
  lemma {:induction false} LeadingZero(s: string)
    requires AllDigits(s)
    ensures DigitsValue("0" + s) == DigitsValue(s)
    decreases |s|
  {
    if s != [] {
      assert ("0" + s)[..|"0" + s| - 1] == "0" + s[..|s| - 1];
      LeadingZero(s[..|s| - 1]);
    }
  }

  lemma PaddedValue(s: string)
    requires AllDigits(s)
    ensures AllDigits(PadStart2(s)) && DigitsValue(PadStart2(s)) == DigitsValue(s)
  {
    if |s| == 1 {
      LeadingZero(s);
    } else if |s| == 0 {
      LeadingZero("0");
      LeadingZero("");
    }
  }

  /** A digit string is below the power of ten of its length. */
  lemma {:induction false} DigitsBound(s: string)
    requires AllDigits(s)
    ensures DigitsValue(s) < Pow10(|s|)
    decreases |s|
  {
    if s != [] {
      DigitsBound(s[..|s| - 1]);
    }
  }

  /** The leading digits of `ds + rest` are `ds` when `rest` does not start with a digit. */
  lemma {:induction false} LeadingDigitsOf(ds: string, rest: string)
    requires AllDigits(ds)
    requires rest == [] || !IsDigit(rest[0])
    ensures LeadingDigits(ds + rest) == ds
    decreases |ds|
  {
    if ds != [] {
      assert (ds + rest)[1..] == ds[1..] + rest;
      LeadingDigitsOf(ds[1..], rest);
    }
  }

  /** `trim` keeps a slice of its input and removes only white space around it. */
  lemma TrimSpan(s: string) returns (i: nat, j: nat)
    ensures i <= j <= |s| && Trim(s) == s[i..j]
    ensures forall k :: 0 <= k < i ==> IsSpace(s[k])
    ensures forall k :: j <= k < |s| ==> IsSpace(s[k])
    ensures i < j ==> !IsSpace(s[i]) && !IsSpace(s[j - 1])
  {
    i := SkipSpaces(s, 0);
    j := BackSpaces(s, i, |s|);
    SkipSpacesPasses(s, 0);
    BackSpacesPasses(s, i, |s|);
  }

  /** `trimStart` removes exactly the leading white space. */
  lemma TrimStartSpan(s: string) returns (i: nat)
    ensures i <= |s| && TrimStart(s) == s[i..]
    ensures forall k :: 0 <= k < i ==> IsSpace(s[k])
    ensures i < |s| ==> !IsSpace(s[i])
  {
    i := SkipSpaces(s, 0);
    SkipSpacesPasses(s, 0);
  }

  /** Text without white space at either end is its own `trim`. */
  lemma TrimKeeps(s: string)
    requires s == [] || (!IsSpace(s[0]) && !IsSpace(s[|s| - 1]))
    ensures Trim(s) == s
  {
  }

  /** Text without upper-case ASCII letters is its own `toLowerCase`. */
  lemma LowerKeeps(s: string)
    requires forall i :: 0 <= i < |s| ==> !('A' <= s[i] <= 'Z')
    ensures Lower(s) == s
  {
    assert forall i :: 0 <= i < |s| ==> Lower(s)[i] == s[i];
  }

  /** Lower-casing leaves white space alone. */
  lemma SpaceKept(c: char)
    requires IsSpace(c)
    ensures LowerChar(c) == c
  {
  }

  /** A window of `l` seen through the slice `l[i..j]` that contains it. */
  lemma WindowInSlice(l: string, i: nat, j: nat, w: string, p: nat)
    requires i <= p && p + |w| <= j <= |l| && l[p..p + |w|] == w
    ensures l[i..j][p - i..p - i + |w|] == w
  {
    assert forall k :: 0 <= k < |w| ==> w[k] == l[i..j][p - i + k];
  }

  /** A window found in a slice is a window of the whole string. */
  lemma WindowOfSlice(l: string, i: nat, j: nat, w: string, p: nat)
    requires i <= j <= |l| && p + |w| <= j - i && l[i..j][p..p + |w|] == w
    ensures l[i + p..i + p + |w|] == w
  {
    assert forall k :: 0 <= k < |w| ==> w[k] == l[i + p + k];
  }

  /** A word that neither starts nor ends with white space lies inside the non-space core. */
  lemma WindowInCore(l: string, i: nat, j: nat, w: string, p: nat)
    requires i <= j <= |l| && p + |w| <= |l| && l[p..p + |w|] == w
    requires |w| > 0 && !IsSpace(w[0]) && !IsSpace(w[|w| - 1])
    requires forall k :: 0 <= k < i ==> IsSpace(l[k])
    requires forall k :: j <= k < |l| ==> IsSpace(l[k])
    ensures i <= p && p + |w| <= j
  {
    assert l[p] == w[0];
    assert l[p + |w| - 1] == w[|w| - 1];
  }

  lemma ContainsInSlice(l: string, i: nat, j: nat, w: string)
    requires i <= j <= |l| && Contains(l[i..j], w)
    ensures Contains(l, w)
  {
    var p := ContainsWitness(l[i..j], w);
    WindowOfSlice(l, i, j, w, p);
    ContainsAt(l, w, i + p);
  }

  lemma ContainsInCore(l: string, i: nat, j: nat, w: string)
    requires i <= j <= |l| && Contains(l, w)
    requires |w| > 0 && !IsSpace(w[0]) && !IsSpace(w[|w| - 1])
    requires forall k :: 0 <= k < i ==> IsSpace(l[k])
    requires forall k :: j <= k < |l| ==> IsSpace(l[k])
    ensures Contains(l[i..j], w)
  {
    var p := ContainsWitness(l, w);
    WindowInCore(l, i, j, w, p);
    WindowInSlice(l, i, j, w, p);
    ContainsAt(l[i..j], w, p - i);
  }

  /** A string that is pointwise the lower case of another is its `toLowerCase`. */
  lemma LowerPointwise(x: string, y: string)
    requires |x| == |y|
    requires forall k :: 0 <= k < |x| ==> x[k] == LowerChar(y[k])
    ensures x == Lower(y)
  {
    var z := Lower(y);
    assert forall k :: 0 <= k < |x| ==> x[k] == z[k];
  }

  /** Lower-casing commutes with slicing. */
  lemma LowerSlice(s: string, i: nat, j: nat)
    requires i <= j <= |s|
    ensures Lower(s[i..j]) == Lower(s)[i..j]
  {
    var x, y := Lower(s)[i..j], s[i..j];
    forall k | 0 <= k < |x|
      ensures x[k] == LowerChar(y[k])
    {
      assert x[k] == Lower(s)[i + k];
    }
    LowerPointwise(x, y);
  }

  /** White space outside `[i, j)` stays white space after lower-casing. */
  lemma LowerSpaces(s: string, i: nat, j: nat)
    requires i <= j <= |s|
    requires forall k :: 0 <= k < i ==> IsSpace(s[k])
    requires forall k :: j <= k < |s| ==> IsSpace(s[k])
    ensures forall k :: 0 <= k < i ==> IsSpace(Lower(s)[k])
    ensures forall k :: j <= k < |s| ==> IsSpace(Lower(s)[k])
  {
    forall k | 0 <= k < i || j <= k < |s|
      ensures IsSpace(Lower(s)[k])
    {
      SpaceKept(s[k]);
    }
  }

  /**
   * Searching the trimmed, lower-cased text for a word that neither starts nor
   * ends with white space is the same as searching the whole lower-cased text.
   */
  lemma ContainsTrimmedLower(s: string, w: string)
    requires |w| > 0 && !IsSpace(w[0]) && !IsSpace(w[|w| - 1])
    ensures Contains(Lower(Trim(s)), w) <==> Contains(Lower(s), w)
  {
    var i, j := TrimSpan(s);
    LowerSlice(s, i, j);
    LowerSpaces(s, i, j);
    if Contains(Lower(s)[i..j], w) {
      ContainsInSlice(Lower(s), i, j, w);
    }
    if Contains(Lower(s), w) {
      ContainsInCore(Lower(s), i, j, w);
    }
  }
}
