/** The parts of Go's `strings`, `unicode` and `regexp` packages that the row
    extractor relies on. A string is a sequence of Unicode code points. */
module Strings {

  /** `\d` in Go's regular-expression syntax: the ASCII decimal digits only. */
  predicate IsDigit(c: char) {
    '0' <= c <= '9'
  }

  /** `unicode.IsSpace`: the characters with the Unicode White_Space property. */
  predicate IsSpace(c: char) {
    || c == '\t' || c == '\n' || c == '\U{000B}' || c == '\U{000C}' || c == '\r' || c == ' '
    || c == '\U{0085}' || c == '\U{00A0}' || c == '\U{1680}'
    || ('\U{2000}' <= c <= '\U{200A}')
    || c == '\U{2028}' || c == '\U{2029}' || c == '\U{202F}' || c == '\U{205F}' || c == '\U{3000}'
  }

  /** U+00A0, the no-break space the listing puts between a count and its noun. */
  const NoBreakSpace: char := '\U{00A0}'

  predicate AllDigits(s: string) {
    forall k :: 0 <= k < |s| ==> IsDigit(s[k])
  }

  predicate NoDigits(s: string) {
    forall k :: 0 <= k < |s| ==> !IsDigit(s[k])
  }

  predicate AllSpace(s: string) {
    forall k :: 0 <= k < |s| ==> IsSpace(s[k])
  }

  /** `sub` occurs in `s` starting at index `i`. */
  predicate OccursAt(s: string, sub: string, i: nat) {
    i + |sub| <= |s| && s[i..i + |sub|] == sub
  }

  /** Whether `sub` occurs in `s` at `from` or later. */
  function ContainsFrom(s: string, sub: string, from: nat): (r: bool)
    ensures r <==> exists i :: from <= i && OccursAt(s, sub, i)
    decreases |s| - from
  {
    if from + |sub| > |s| then false
    else OccursAt(s, sub, from) || ContainsFrom(s, sub, from + 1)
  }

  /** `strings.Contains(s, sub)`. */
  function Contains(s: string, sub: string): (r: bool)
    ensures r <==> exists i :: OccursAt(s, sub, i)
  {
    ContainsFrom(s, sub, 0)
  }

  /** `strings.Replace(s, string(c), "", -1)`: every occurrence of `c` deleted,
      the other characters kept in order. */
  function RemoveAll(s: string, c: char): (r: string)
    ensures c !in r
    ensures multiset(r) == multiset(s)[c := 0]
  {
    if s == [] then []
    else
      assert s == [s[0]] + s[1..];
      (if s[0] == c then [] else [s[0]]) + RemoveAll(s[1..], c)
  }

  /** Deleting a character commutes with concatenation, so RemoveAll keeps
      the order of what it does not delete. */
  lemma {:induction false} RemoveAllAppend(a: string, b: string, c: char)
    ensures RemoveAll(a + b, c) == RemoveAll(a, c) + RemoveAll(b, c)
  {
    if a == [] {
      assert a + b == b;
    } else {
      assert (a + b)[1..] == a[1..] + b;
      RemoveAllAppend(a[1..], b, c);
    }
  }

  /** A string without `c` is left as it is. */
  lemma {:induction false} RemoveAllAbsent(s: string, c: char)
    requires c !in s
    ensures RemoveAll(s, c) == s
  {
    if s != [] {
      RemoveAllAbsent(s[1..], c);
    }
  }

  /** The number of white-space characters at the start of `s`. */
  function LeadingSpaces(s: string): (n: nat)
    ensures n <= |s| && AllSpace(s[..n])
    ensures n < |s| ==> !IsSpace(s[n])
  {
    if s != [] && IsSpace(s[0]) then 1 + LeadingSpaces(s[1..]) else 0
  }

  /** The number of white-space characters at the end of `s`. */
  function TrailingSpaces(s: string): (n: nat)
    ensures n <= |s| && AllSpace(s[|s| - n..])
    ensures n < |s| ==> !IsSpace(s[|s| - n - 1])
  {
    if s != [] && IsSpace(s[|s| - 1]) then
      var init := s[..|s| - 1];
      var n := TrailingSpaces(init);
      assert AllSpace(s[|s| - 1 - n..]) by {
        assert s[|s| - 1 - n..] == init[|init| - n..] + [s[|s| - 1]];
      }
      1 + n
    else 0
  }

  /** `strings.TrimSpace`: the result is the slice of `s` left when only white
      space is cut from both ends, and it neither starts nor ends with white space. */
  function TrimSpace(s: string): (r: string)
    ensures r == [] || (!IsSpace(r[0]) && !IsSpace(r[|r| - 1]))
    ensures var i := LeadingSpaces(s);
      && i + |r| <= |s|
      && r == s[i..i + |r|]
      && AllSpace(s[..i]) && AllSpace(s[i + |r|..])
  {
    var i := LeadingSpaces(s);
    var rest := s[i..];
    var n := TrailingSpaces(rest);
    var r := rest[..|rest| - n];
    assert r == s[i..i + |r|];
    assert s[i + |r|..] == rest[|rest| - n..];
    r
  }

  /** The maximal run of digits at the start of `s`. */
  function LeadingDigits(s: string): (d: string)
    ensures |d| <= |s| && d == s[..|d|] && AllDigits(d)
    ensures |d| < |s| ==> !IsDigit(s[|d|])
  {
    if s != [] && IsDigit(s[0]) then [s[0]] + LeadingDigits(s[1..]) else []
  }

  /** `regexp.MustCompile(`\d+`).FindString(s)`: the leftmost match, which
      the greedy `+` makes the whole first run of digits; "" without a digit. */
  function FirstDigitRun(s: string): (d: string)
    ensures AllDigits(d)
    ensures d == [] <==> NoDigits(s)
  {
    if s == [] then []
    else if IsDigit(s[0]) then LeadingDigits(s)
    else
      var d := FirstDigitRun(s[1..]);
      assert NoDigits(s[1..]) ==> NoDigits(s);
      d
  }

  /** The run FirstDigitRun returns is a maximal run of digits in `s` with no
      digit before it: the leftmost match of `\d+`. */
  lemma {:induction false} FirstDigitRunPosition(s: string) returns (p: nat)
    requires !NoDigits(s)
    ensures var d := FirstDigitRun(s);
      && p + |d| <= |s|
      && s[p..p + |d|] == d
      && NoDigits(s[..p])
      && d != []
      && (p + |d| < |s| ==> !IsDigit(s[p + |d|]))
  {
    if IsDigit(s[0]) {
      p := 0;
    } else {
      assert !NoDigits(s[1..]) by {
        var k :| 0 <= k < |s| && IsDigit(s[k]);
        assert s[1..][k - 1] == s[k];
      }
      var q := FirstDigitRunPosition(s[1..]);
      p := q + 1;
      assert s[..p] == [s[0]] + s[1..][..q];
    }
  }

  /** Characters without a digit in front of the first run do not change it. */
  lemma {:induction false} FirstDigitRunSkipsPrefix(a: string, b: string)
    requires NoDigits(a)
    ensures FirstDigitRun(a + b) == FirstDigitRun(b)
  {
    if a == [] {
      assert a + b == b;
    } else {
      assert (a + b)[1..] == a[1..] + b;
      FirstDigitRunSkipsPrefix(a[1..], b);
    }
  }

  /** A tail that does not start with a digit does not extend a leading run. */
  lemma {:induction false} LeadingDigitsStopsAtTail(a: string, b: string)
    requires b == [] || !IsDigit(b[0])
    ensures LeadingDigits(a + b) == LeadingDigits(a)
  {
    if a == [] {
      assert a + b == b;
    } else if IsDigit(a[0]) {
      assert (a + b)[1..] == a[1..] + b;
      LeadingDigitsStopsAtTail(a[1..], b);
    }
  }

  /** A string of digits reads back as itself. */
  lemma {:induction false} LeadingDigitsOfDigits(d: string)
    requires AllDigits(d)
    ensures LeadingDigits(d) == d
  {
    if d != [] {
      LeadingDigitsOfDigits(d[1..]);
    }
  }

  /** A number written at the start of a string, followed by a non-digit, is
      the first run of digits there. */
  lemma FirstDigitRunOfNumber(d: string, t: string)
    requires d != [] && AllDigits(d)
    requires t == [] || !IsDigit(t[0])
    ensures FirstDigitRun(d + t) == d
  {
    LeadingDigitsStopsAtTail(d, t);
    LeadingDigitsOfDigits(d);
  }

  /** A digit-free tail changes neither where the first run is nor how long. */
  lemma {:induction false} FirstDigitRunIgnoresSuffix(a: string, b: string)
    requires NoDigits(b)
    ensures FirstDigitRun(a + b) == FirstDigitRun(a)
  {
    if a == [] {
      assert a + b == b;
    } else if IsDigit(a[0]) {
      LeadingDigitsStopsAtTail(a, b);
    } else {
      assert (a + b)[1..] == a[1..] + b;
      FirstDigitRunIgnoresSuffix(a[1..], b);
    }
  }

  /** White space is never a digit, so trimming it cannot change which run of
      digits `\d+` finds first. */
  lemma TrimSpaceKeepsFirstDigitRun(s: string)
    ensures FirstDigitRun(TrimSpace(s)) == FirstDigitRun(s)
  {
    var r := TrimSpace(s);
    var i := LeadingSpaces(s);
    var pre, post := s[..i], s[i + |r|..];
    assert s == pre + (r + post) by {
      assert s == s[..i] + s[i..];
      assert s[i..] == r + post;
    }
    SpacesAreNotDigits(pre);
    SpacesAreNotDigits(post);
    FirstDigitRunSkipsPrefix(pre, r + post);
    FirstDigitRunIgnoresSuffix(r, post);
  }

  /** White space holds no digit. */
  lemma SpacesAreNotDigits(s: string)
    requires AllSpace(s)
    ensures NoDigits(s)
  {
  }
}
