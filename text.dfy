/** String helpers shared by the modules: decimal rendering of ids (Python `str(n)`,
  * `'%d'`), Python slicing, `str.replace` and joining. */
module Text {

  predicate IsDigit(c: char) { '0' <= c <= '9' }

  function DigitChar(d: nat): (c: char)
    requires d < 10
    ensures IsDigit(c)
  {
    ['0', '1', '2', '3', '4', '5', '6', '7', '8', '9'][d]
  }

  /** Decimal rendering of a natural number, as Python's `str(n)` and `'%d' % n` give it. */
  function NatStr(n: nat): (s: string)
    ensures |s| >= 1
    ensures forall i :: 0 <= i < |s| ==> IsDigit(s[i])
    ensures n < 10 <==> |s| == 1
  {
    if n < 10 then [DigitChar(n)] else NatStr(n / 10) + [DigitChar(n % 10)]
  }

  lemma DigitCharInjective(a: nat, b: nat)
    requires a < 10 && b < 10 && DigitChar(a) == DigitChar(b)
    ensures a == b
  {
  }

  /** Different numbers render differently: the decimal rendering can be parsed back. */
  lemma {:induction false} NatStrInjective(a: nat, b: nat)
    requires NatStr(a) == NatStr(b)
    ensures a == b
  {
    if a < 10 || b < 10 {
      if a < 10 && b < 10 {
        DigitCharInjective(a, b);
      }
    } else {
      var sa, sb := NatStr(a), NatStr(b);
      assert sa[..|sa| - 1] == NatStr(a / 10);
      assert sb[..|sb| - 1] == NatStr(b / 10);
      NatStrInjective(a / 10, b / 10);
      assert sa[|sa| - 1] == DigitChar(a % 10);
      assert sb[|sb| - 1] == DigitChar(b % 10);
      DigitCharInjective(a % 10, b % 10);
    }
  }

  /** Python `s[:n]`: a negative n counts from the end. */
  function PyPrefix(s: string, n: int): (r: string)
    ensures r <= s
    ensures n >= 0 ==> |r| == if n < |s| then n else |s|
    ensures n < 0 ==> |r| == if |s| + n > 0 then |s| + n else 0
  {
    if n >= 0 then (if n < |s| then s[..n] else s)
    else if |s| + n > 0 then s[..|s| + n] else []
  }

  /** Python `s[-k:]` for k >= 1: the last k characters, or all of s when it is shorter. */
  function PyTail(s: string, k: nat): (r: string)
    ensures |r| == if |s| < k then |s| else k
    ensures r == s[|s| - |r|..]
  {
    if |s| < k then s else s[|s| - k..]
  }

  /** Python `s.replace(pat, rep)`: every non-overlapping occurrence, scanned left to right. */
  function ReplaceAll(s: string, pat: string, rep: string): (r: string)
    requires |pat| > 0
    ensures !Contains(s, pat) ==> r == s
    decreases |s|
  {
    if |s| < |pat| then s
    else if s[..|pat|] == pat then rep + ReplaceAll(s[|pat|..], pat, rep)
    else [s[0]] + ReplaceAll(s[1..], pat, rep)
  }

  /** s holds pat somewhere. */
  predicate Contains(s: string, pat: string)
    decreases |s|
  {
    |s| >= |pat| && (s[..|pat|] == pat || (|s| > 0 && Contains(s[1..], pat)))
  }

  /** Joins the pieces with a separator, as JavaScript's `a + sep + b` chains do. */
  function Join(pieces: seq<string>, sep: string): (r: string)
  {
    if |pieces| == 0 then []
    else if |pieces| == 1 then pieces[0]
    else pieces[0] + sep + Join(pieces[1..], sep)
  }

  /** In x + [c] + d with a c-free d, no position after |x| holds c. */
  lemma NoSeparatorAfter(x: string, c: char, d: string)
    requires c !in d
    ensures forall j :: |x| < j < |x| + 1 + |d| ==> (x + [c] + d)[j] != c
  {
    forall j | |x| < j < |x| + 1 + |d|
      ensures (x + [c] + d)[j] != c
    {
      assert (x + [c] + d)[j] == d[j - |x| - 1];
    }
  }

  /** If two strings end in `c` followed by a c-free tail, the tails and the heads agree:
    * the last occurrence of the separator fixes the split. */
  lemma SplitAtLastSeparator(x: string, y: string, d1: string, d2: string, c: char)
    requires x + [c] + d1 == y + [c] + d2
    requires c !in d1 && c !in d2
    ensures d1 == d2 && x == y
  {
    var s := x + [c] + d1;
    NoSeparatorAfter(x, c, d1);
    NoSeparatorAfter(y, c, d2);
    assert s[|x|] == c && s[|y|] == c;
    assert |x| == |y|;
    assert x == s[..|x|] == y;
    assert d1 == s[|x| + 1..] == d2;
  }
}
