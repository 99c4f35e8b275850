/** The string operations the validator relies on: joining names, splitting a
    namespaced name at its last separator and printing numbers in decimal. */
module Text {
  import opened Outcomes

  // ---------------------------------------------------------------------------
  // Joining (Go's strings.Join)
  // ---------------------------------------------------------------------------

  /** The elements of `xs` in order, with `sep` between each pair of neighbours. */
  function Join(xs: seq<string>, sep: string): string
  {
    if |xs| == 0 then ""
    else if |xs| == 1 then xs[0]
    else xs[0] + sep + Join(xs[1..], sep)
  }

  /** Where the `i`-th element of `xs` starts inside `Join(xs, sep)`: every
      earlier element is followed by one separator. */
  function JoinOffset(xs: seq<string>, sep: string, i: nat): nat
    requires i <= |xs|
  {
    if i == 0 then 0 else |xs[0]| + |sep| + JoinOffset(xs[1..], sep, i - 1)
  }

  /** The next element starts one separator after the end of the previous one. */
  lemma {:induction false} JoinOffsetStep(xs: seq<string>, sep: string, i: nat)
    requires i < |xs|
    ensures JoinOffset(xs, sep, i + 1) == JoinOffset(xs, sep, i) + |xs[i]| + |sep|
  {
    if i > 0 {
      JoinOffsetStep(xs[1..], sep, i - 1);
    }
  }

  /** The joined string ends where the last element ends. */
  lemma {:induction false} JoinLength(xs: seq<string>, sep: string)
    requires |xs| > 0
    ensures |Join(xs, sep)| == JoinOffset(xs, sep, |xs| - 1) + |xs[|xs| - 1]|
  {
    if |xs| > 1 {
      JoinLength(xs[1..], sep);
      assert Join(xs, sep) == xs[0] + sep + Join(xs[1..], sep);
      assert JoinOffset(xs, sep, |xs| - 1) == |xs[0]| + |sep| + JoinOffset(xs[1..], sep, |xs| - 2);
      assert xs[|xs| - 1] == xs[1..][|xs| - 2];
    }
  }

  /** Every element occurs in the joined string at its offset, and the
      separator sits between it and the next element: `Join` loses nothing
      and keeps the order of `xs`. */
  lemma {:induction false} JoinContains(xs: seq<string>, sep: string, i: nat)
    requires i < |xs|
    ensures JoinOffset(xs, sep, i) + |xs[i]| <= |Join(xs, sep)|
    ensures Join(xs, sep)[JoinOffset(xs, sep, i)..JoinOffset(xs, sep, i) + |xs[i]|] == xs[i]
    ensures i + 1 < |xs| ==>
      JoinOffset(xs, sep, i) + |xs[i]| + |sep| <= |Join(xs, sep)| &&
      Join(xs, sep)[JoinOffset(xs, sep, i) + |xs[i]|..JoinOffset(xs, sep, i) + |xs[i]| + |sep|] == sep
  {
    var j := Join(xs, sep);
    if |xs| == 1 {
      assert j == xs[0];
    } else {
      var rest := Join(xs[1..], sep);
      assert j == xs[0] + sep + rest;
      if i == 0 {
        assert j[..|xs[0]|] == xs[0];
        assert j[|xs[0]|..|xs[0]| + |sep|] == sep;
      } else {
        JoinContains(xs[1..], sep, i - 1);
        var k := JoinOffset(xs[1..], sep, i - 1);
        var d := |xs[0]| + |sep|;
        assert JoinOffset(xs, sep, i) == d + k;
        assert j[d + k..d + k + |xs[i]|] == rest[k..k + |xs[i]|];
        if i + 1 < |xs| {
          assert j[d + k + |xs[i]|..d + k + |xs[i]| + |sep|]
              == rest[k + |xs[i]|..k + |xs[i]| + |sep|];
        }
      }
    }
  }

  /** A slice of the middle part of a concatenation. */
  lemma SliceInMiddle(p: string, m: string, q: string, lo: nat, hi: nat)
    requires lo <= hi <= |m|
    ensures (p + m + q)[|p| + lo..|p| + hi] == m[lo..hi]
  {
    assert (p + m + q)[|p| + lo..|p| + hi] == (p + m + q)[|p|..|p| + |m|][lo..hi];
    assert (p + m + q)[|p|..|p| + |m|] == m;
  }

  // ---------------------------------------------------------------------------
  // Splitting a namespaced name (wrangler's kv.RSplit with separator "/")
  // ---------------------------------------------------------------------------

  /** The index of the last occurrence of `c` in `s`, or `None` when `c` does
      not occur in `s`. */
  function LastIndexOf(s: string, c: char): (r: Option<nat>)
    ensures r.None? <==> c !in s
    ensures r.Some? ==> r.value < |s| && s[r.value] == c && c !in s[r.value + 1..]
  {
    if |s| == 0 then None
    else if s[|s| - 1] == c then Some(|s| - 1)
    else
      assert s == s[..|s| - 1] + [s[|s| - 1]];
      LastIndexOf(s[..|s| - 1], c)
  }

  /** Splits `s` at the last `sep` into the text before and the text after it;
      without a `sep`, the first part is empty and the second is all of `s`. */
  function RSplit(s: string, sep: char): (r: (string, string))
    ensures sep !in r.1
    ensures sep in s ==> s == r.0 + [sep] + r.1
    ensures sep !in s ==> r == ("", s)
  {
    match LastIndexOf(s, sep)
    case None => ("", s)
    case Some(i) =>
      assert s == s[..i] + [sep] + s[i + 1..];
      (s[..i], s[i + 1..])
  }

  /** Splitting undoes joining with a separator when the last part holds none. */
  lemma {:induction false} RSplitJoined(front: string, sep: char, back: string)
    requires sep !in back
    ensures RSplit(front + [sep] + back, sep) == (front, back)
  {
    var s := front + [sep] + back;
    var i := |front|;
    assert s[i] == sep;
    var r := LastIndexOf(s, sep);
    assert forall k :: i < k < |s| ==> s[k] == back[k - i - 1];
    assert r.value <= i;
    assert s[..i] == front;
    assert s[i + 1..] == back;
  }

  // ---------------------------------------------------------------------------
  // Decimal numbers (how Go prints each byte of an IPv4 address)
  // ---------------------------------------------------------------------------

  predicate IsDigit(c: char)
  {
    '0' <= c <= '9'
  }

  predicate AllDigits(s: string)
  {
    forall i :: 0 <= i < |s| ==> IsDigit(s[i])
  }

  function DigitChar(d: nat): (c: char)
    requires d < 10
    ensures IsDigit(c)
  {
    "0123456789"[d]
  }

  function DigitValue(c: char): nat
    requires IsDigit(c)
  {
    (c as int) - ('0' as int)
  }

  /** `n` in decimal, without leading zeros. */
  function DecimalString(n: nat): (s: string)
    ensures |s| > 0 && AllDigits(s)
    ensures s[0] == '0' ==> n == 0
  {
    if n < 10 then [DigitChar(n)]
    else DecimalString(n / 10) + [DigitChar(n % 10)]
  }

  /** The number a string of digits denotes. */
  function ParseDecimal(s: string): nat
    requires AllDigits(s)
  {
    if |s| == 0 then 0
    else ParseDecimal(s[..|s| - 1]) * 10 + DigitValue(s[|s| - 1])
  }

  /** Reading back a printed number gives the number: printing is injective. */
  lemma {:induction false} DecimalRoundTrip(n: nat)
    ensures ParseDecimal(DecimalString(n)) == n
  {
    var s := DecimalString(n);
    if n >= 10 {
      DecimalRoundTrip(n / 10);
      assert s[..|s| - 1] == DecimalString(n / 10);
    }
  }
}
