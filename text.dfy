/** The string operations the account code relies on: Python's `str.strip()`,
    `str.lower()`, `str.replace(' ', '')`, `str.isdigit()` and `str(n)`. */
module Text {

  /** Python's `str.isspace()` for one character (the code points Python treats as whitespace). */
  predicate IsSpace(c: char)
  {
    var n := c as int;
    (9 <= n <= 13) || (28 <= n <= 32) || n == 0x85 || n == 0xA0 || n == 0x1680
    || (0x2000 <= n <= 0x200A) || n == 0x2028 || n == 0x2029 || n == 0x202F
    || n == 0x205F || n == 0x3000
  }

  predicate AllSpace(s: string)
  {
    forall i :: 0 <= i < |s| ==> IsSpace(s[i])
  }

  predicate IsDigit(c: char)
  {
    '0' <= c <= '9'
  }

  /** Python's `s.isdigit()` restricted to ASCII digits; false on the empty string. */
  predicate AllDigits(s: string)
  {
    s != [] && forall i :: 0 <= i < |s| ==> IsDigit(s[i])
  }

  /** Number of leading whitespace characters. */
  function LeadingSpaces(s: string): (n: nat)
    ensures n <= |s|
    ensures AllSpace(s[..n])
    ensures n < |s| ==> !IsSpace(s[n])
  {
    if s == [] || !IsSpace(s[0]) then 0
    else
      var k := LeadingSpaces(s[1..]);
      assert s[1..][..k] == s[1..k + 1];
      1 + k
  }

  /** Index at which the trailing whitespace of `s` begins. */
  function TrailingStart(s: string): (n: nat)
    ensures n <= |s|
    ensures AllSpace(s[n..])
    ensures n > 0 ==> !IsSpace(s[n - 1])
  {
    if s == [] || !IsSpace(s[|s| - 1]) then |s|
    else
      var k := TrailingStart(s[..|s| - 1]);
      assert s[k..] == s[..|s| - 1][k..] + [s[|s| - 1]];
      k
  }

  /** Python's `s.strip()`: the slice of `s` between its leading and trailing whitespace. */
  function Strip(s: string): (r: string)
    ensures LeadingSpaces(s) + |r| <= |s|
    ensures r == s[LeadingSpaces(s)..LeadingSpaces(s) + |r|]
    ensures AllSpace(s[LeadingSpaces(s) + |r|..])
    ensures r == [] <==> AllSpace(s)
    ensures r != [] ==> !IsSpace(r[0]) && !IsSpace(r[|r| - 1])
  {
    var i := LeadingSpaces(s);
    var t := s[i..];
    var j := TrailingStart(t);
    StripSlice(s, i, j);
    t[..j]
  }

  lemma StripSlice(s: string, i: nat, j: nat)
    requires i == LeadingSpaces(s) && j == TrailingStart(s[i..])
    ensures s[i..][..j] == s[i..i + j]
    ensures AllSpace(s[i + j..])
    ensures j == 0 <==> AllSpace(s)
  {
    var t := s[i..];
    assert s[i + j..] == t[j..];
    if j == 0 {
      assert AllSpace(t[0..]);
      assert i == |s|;
      assert s == s[..i];
    }
    if AllSpace(s) {
      assert i == |s|;
    }
  }

  /** Stripping twice is stripping once. */
  lemma {:induction false} StripIdempotent(s: string)
    ensures Strip(Strip(s)) == Strip(s)
  {
    var r := Strip(s);
    if r != [] {
      assert LeadingSpaces(r) == 0;
      assert TrailingStart(r) == |r|;
    }
  }

  function LowerChar(c: char): char
  {
    if 'A' <= c <= 'Z' then (c as int + 32) as char else c
  }

  /** Python's `s.lower()` on ASCII letters. */
  function Lower(s: string): (r: string)
    ensures |r| == |s|
    ensures forall i :: 0 <= i < |r| ==> !('A' <= r[i] <= 'Z')
    ensures forall i :: 0 <= i < |s| ==> r[i] == LowerChar(s[i])
  {
    seq(|s|, i requires 0 <= i < |s| => LowerChar(s[i]))
  }

  /** Lower-casing is idempotent: a lower-cased string compares case-insensitively
      equal to what it came from. */
  lemma LowerIdempotent(s: string)
    ensures Lower(Lower(s)) == Lower(s)
  {
    var l := Lower(s);
    assert forall i :: 0 <= i < |l| ==> LowerChar(l[i]) == l[i];
  }

  /** Python's `s.replace(' ', '')`. */
  function RemoveSpaces(s: string): (r: string)
    ensures ' ' !in r
    ensures |r| <= |s|
    ensures forall i :: 0 <= i < |r| ==> r[i] in s
    ensures forall c :: c != ' ' ==> multiset(r)[c] == multiset(s)[c]
  {
    if s == [] then []
    else
      var rest := RemoveSpaces(s[1..]);
      assert s == [s[0]] + s[1..];
      if s[0] == ' ' then rest else [s[0]] + rest
  }

  /** Removing spaces keeps every other character in its place relative to the
      rest: it distributes over concatenation, drops a lone space and keeps any
      other lone character. Together these fix the result character by character. */
  lemma {:induction false} RemoveSpacesAppend(a: string, b: string)
    ensures RemoveSpaces(a + b) == RemoveSpaces(a) + RemoveSpaces(b)
    ensures forall c: char :: RemoveSpaces([c]) == (if c == ' ' then [] else [c])
    decreases |a|
  {
    if a == [] {
      assert a + b == b;
    } else {
      assert (a + b)[0] == a[0];
      assert (a + b)[1..] == a[1..] + b;
      RemoveSpacesAppend(a[1..], b);
    }
    forall c: char
      ensures RemoveSpaces([c]) == (if c == ' ' then [] else [c])
    {
      assert [c][1..] == [];
    }
  }

  /** A string without spaces is left as it is. */
  lemma {:induction false} RemoveSpacesNoSpace(s: string)
    requires ' ' !in s
    ensures RemoveSpaces(s) == s
  {
    if s != [] {
      assert s == [s[0]] + s[1..];
      RemoveSpacesNoSpace(s[1..]);
    }
  }

  function DigitChar(d: int): (c: char)
    requires 0 <= d <= 9
    ensures IsDigit(c)
  {
    (d + 48) as char
  }

  /** The number a string of decimal digits denotes (Python's `int(s)`). */
  function DigitsValue(s: string): nat
    requires forall i :: 0 <= i < |s| ==> IsDigit(s[i])
  {
    if s == [] then 0
    else
      assert IsDigit(s[|s| - 1]);
      DigitsValue(s[..|s| - 1]) * 10 + (s[|s| - 1] as int - '0' as int)
  }

  /** Python's `str(n)` for a natural number: the digits that read back as `n`,
      with no leading zero. */
  function NatToString(n: nat): (r: string)
    ensures AllDigits(r)
    ensures DigitsValue(r) == n
    ensures r[0] == '0' <==> n == 0
    ensures n < 10 <==> |r| == 1
    decreases n
  {
    if n < 10 then [DigitChar(n)]
    else
      var p := NatToString(n / 10);
      var r := p + [DigitChar(n % 10)];
      assert r[..|r| - 1] == p;
      r
  }

  /** Distinct numbers print differently. */
  lemma NatToStringInjective(a: nat, b: nat)
    requires NatToString(a) == NatToString(b)
    ensures a == b
  {
  }
}
