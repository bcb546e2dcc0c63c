/** The text operations pandas applies before comparing a cell with a list of
    tokens: `str.strip()`, `str.lower()`, and the decimal text of an integer. */
module Strings {

  /** Python's `str.isspace()` for one character (the characters `str.strip()`
      removes when called without arguments). */
  predicate IsSpace(c: char)
  {
    var n := c as int;
    (9 <= n <= 13) || (28 <= n <= 32) || n == 0x85 || n == 0xA0 || n == 0x1680 ||
    (0x2000 <= n <= 0x200A) || n == 0x2028 || n == 0x2029 || n == 0x202F ||
    n == 0x205F || n == 0x3000
  }

  predicate AllSpace(s: string)
  {
    forall i :: 0 <= i < |s| ==> IsSpace(s[i])
  }

  /** `str.lstrip()`: the longest suffix that does not start with white space. */
  function TrimLeft(s: string): (r: string)
    ensures |r| <= |s| && r == s[|s| - |r|..]
    ensures AllSpace(s[..|s| - |r|])
    ensures r == [] || !IsSpace(r[0])
    decreases |s|
  {
    if |s| > 0 && IsSpace(s[0]) then TrimLeft(s[1..]) else s
  }

  /** `str.rstrip()`: the longest prefix that does not end with white space. */
  function TrimRight(s: string): (r: string)
    ensures |r| <= |s| && r == s[..|r|]
    ensures AllSpace(s[|r|..])
    ensures r == [] || !IsSpace(r[|r| - 1])
    decreases |s|
  {
    if |s| > 0 && IsSpace(s[|s| - 1]) then TrimRight(s[..|s| - 1]) else s
  }

  /** `str.strip()`. */
  function Strip(s: string): string
  {
    TrimRight(TrimLeft(s))
  }

  /** `str.lower()` on one character, for the ASCII letters. */
  function LowerChar(c: char): char
  {
    if 'A' <= c <= 'Z' then (c as int + 32) as char else c
  }

  /** `str.lower()`, character by character. */
  function Lower(s: string): (r: string)
    ensures |r| == |s|
    ensures forall i :: 0 <= i < |s| ==> r[i] == LowerChar(s[i])
  {
    if s == [] then [] else [LowerChar(s[0])] + Lower(s[1..])
  }

  predicate IsDigit(c: char)
  {
    '0' <= c <= '9'
  }

  function DigitChar(d: nat): (c: char)
    requires d < 10
    ensures IsDigit(c)
  {
    "0123456789"[d]
  }

  /** `str(n)` for a non-negative integer: its decimal digits, most significant first. */
  function NatText(n: nat): (r: string)
    ensures |r| >= 1
    ensures n >= 10 ==> |r| >= 2
    ensures forall i :: 0 <= i < |r| ==> IsDigit(r[i])
  {
    if n < 10 then [DigitChar(n)] else NatText(n / 10) + [DigitChar(n % 10)]
  }

  /** `str(i)` for any integer: a minus sign before the digits of a negative one. */
  function IntText(i: int): (r: string)
    ensures |r| >= 1
    ensures forall k :: 0 <= k < |r| ==> IsDigit(r[k]) || r[k] == '-'
  {
    if i < 0 then "-" + NatText(-i) else NatText(i)
  }

  // ---------------------------------------------------------------------------
  // Lemmas
  // ---------------------------------------------------------------------------

  /** The text of an integer is "1" exactly for the integer 1. */
  lemma IntTextIsOne(i: int)
    ensures IntText(i) == "1" <==> i == 1
  {
    if i < 0 {
      assert IntText(i)[0] == '-';
    } else if i >= 10 {
      assert |IntText(i)| >= 2;
    } else {
      assert IntText(i) == [DigitChar(i)];
    }
  }

  /** Leading white space is removed entirely by `lstrip`. */
  lemma {:induction false} TrimLeftSpacePrefix(pre: string, s: string)
    requires AllSpace(pre)
    ensures TrimLeft(pre + s) == TrimLeft(s)
    decreases |pre|
  {
    if pre != [] {
      assert (pre + s)[0] == pre[0];
      assert (pre + s)[1..] == pre[1..] + s;
      TrimLeftSpacePrefix(pre[1..], s);
    } else {
      assert pre + s == s;
    }
  }

  /** Trailing white space is removed entirely by `rstrip`. */
  lemma {:induction false} TrimRightSpaceSuffix(s: string, post: string)
    requires AllSpace(post)
    ensures TrimRight(s + post) == TrimRight(s)
    decreases |post|
  {
    if post != [] {
      var n := |s + post|;
      assert (s + post)[n - 1] == post[|post| - 1];
      assert (s + post)[..n - 1] == s + post[..|post| - 1];
      TrimRightSpaceSuffix(s, post[..|post| - 1]);
    } else {
      assert s + post == s;
    }
  }

  /** Once a non-space character has been reached, `lstrip` leaves the rest alone. */
  lemma {:induction false} TrimLeftAppend(s: string, post: string)
    requires !AllSpace(s)
    ensures TrimLeft(s + post) == TrimLeft(s) + post
    decreases |s|
  {
    assert s != [];
    assert (s + post)[0] == s[0];
    if IsSpace(s[0]) {
      assert (s + post)[1..] == s[1..] + post;
      assert !AllSpace(s[1..]) by {
        var k :| 0 <= k < |s| && !IsSpace(s[k]);
        assert k > 0 && s[1..][k - 1] == s[k];
      }
      TrimLeftAppend(s[1..], post);
    }
  }

  /** `strip` ignores any white space added around its argument. */
  lemma StripPadding(pre: string, s: string, post: string)
    requires AllSpace(pre) && AllSpace(post)
    ensures Strip(pre + s + post) == Strip(s)
  {
    assert pre + s + post == pre + (s + post);
    TrimLeftSpacePrefix(pre, s + post);
    if AllSpace(s) {
      assert AllSpace(s + post) by {
        forall k | 0 <= k < |s + post| ensures IsSpace((s + post)[k]) {
          if k < |s| { assert (s + post)[k] == s[k]; } else { assert (s + post)[k] == post[k - |s|]; }
        }
      }
      assert TrimLeft(s + post) == [];
      assert TrimLeft(s) == [];
    } else {
      TrimLeftAppend(s, post);
      TrimRightSpaceSuffix(TrimLeft(s), post);
    }
  }

  lemma LowerKeepsSpace(c: char)
    ensures IsSpace(LowerChar(c)) == IsSpace(c)
  {
  }

  /** Lower-casing and `lstrip` commute. */
  lemma {:induction false} TrimLeftLower(s: string)
    ensures TrimLeft(Lower(s)) == Lower(TrimLeft(s))
    decreases |s|
  {
    if s != [] {
      LowerKeepsSpace(s[0]);
      if IsSpace(s[0]) {
        assert Lower(s)[1..] == Lower(s[1..]);
        TrimLeftLower(s[1..]);
      }
    }
  }

  /** Lower-casing and `rstrip` commute. */
  lemma {:induction false} TrimRightLower(s: string)
    ensures TrimRight(Lower(s)) == Lower(TrimRight(s))
    decreases |s|
  {
    if s != [] {
      var n := |s|;
      LowerKeepsSpace(s[n - 1]);
      var l := Lower(s);
      if IsSpace(s[n - 1]) {
        assert IsSpace(l[n - 1]);
        var init, lowered := s[..n - 1], l[..n - 1];
        assert lowered == Lower(init) by {
          forall k | 0 <= k < n - 1 ensures lowered[k] == Lower(init)[k] {
            assert init[k] == s[k];
          }
        }
        TrimRightLower(s[..n - 1]);
      } else {
        assert !IsSpace(l[n - 1]);
      }
    }
  }

  /** Lower-casing before or after `strip` gives the same text. */
  lemma StripLower(s: string)
    ensures Strip(Lower(s)) == Lower(Strip(s))
  {
    TrimLeftLower(s);
    TrimRightLower(TrimLeft(s));
  }

  /** The text of an integer has nothing for `strip` or `lower` to change. */
  lemma IntTextNormal(i: int)
    ensures Lower(Strip(IntText(i))) == IntText(i)
    ensures Lower(IntText(i)) == IntText(i)
  {
    var t := IntText(i);
    assert !IsSpace(t[0]);
    assert !IsSpace(t[|t| - 1]);
    assert TrimLeft(t) == t;
    assert TrimRight(t) == t;
    assert Lower(t) == t;
  }
}
