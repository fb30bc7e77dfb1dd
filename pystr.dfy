/**
  The Python string operations that tabs.py uses to normalise titles and ids:
  `str.isspace`, `str.lower`, `str.strip`, `str.split()` (no separator),
  `str.join` and `"{}".format(n)` for a non-negative integer.
  Characters are restricted to what ASCII text needs: whitespace is the ASCII
  part of Python's `str.isspace` and lower-casing maps `A`..`Z` only.
*/
module PyStr {

  /** ASCII characters for which Python's `str.isspace` holds: TAB, LF, VT, FF,
      CR, the four information separators 0x1C..0x1F, and SPACE. */
  predicate IsSpace(c: char) {
    var n := c as int;
    n == 32 || 9 <= n <= 13 || 28 <= n <= 31
  }

  predicate IsUpper(c: char) {
    'A' <= c <= 'Z'
  }

  predicate NoSpace(s: string) {
    forall i :: 0 <= i < |s| ==> !IsSpace(s[i])
  }

  predicate AllSpace(s: string) {
    forall i :: 0 <= i < |s| ==> IsSpace(s[i])
  }

  predicate NoUpper(s: string) {
    forall i :: 0 <= i < |s| ==> !IsUpper(s[i])
  }

  /** A word of `str.split()`: a non-empty run of non-whitespace characters. */
  predicate IsWord(w: string) {
    |w| > 0 && NoSpace(w)
  }

  function LowerChar(c: char): (d: char)
    ensures !IsUpper(d)
    ensures IsSpace(d) <==> IsSpace(c)
  {
    if IsUpper(c) then (c as int + 32) as char else c
  }

  /** `s.lower()`: no upper-case letter is left, and whitespace stays where it was. */
  function Lower(s: string): (r: string)
    ensures |r| == |s| && NoUpper(r)
    ensures forall i :: 0 <= i < |s| ==> (IsSpace(r[i]) <==> IsSpace(s[i]))
  {
    seq(|s|, i requires 0 <= i < |s| => LowerChar(s[i]))
  }

  /** `s.lstrip()`: what is removed is a whitespace prefix and what remains does not start with whitespace. */
  function TrimStart(s: string): (r: string)
    ensures |r| <= |s| && r == s[|s| - |r|..] && AllSpace(s[..|s| - |r|])
    ensures r == [] || !IsSpace(r[0])
  {
    if s != [] && IsSpace(s[0]) then
      var r := TrimStart(s[1..]);
      SpacePrefixGrows(s, |r|);
      r
    else s
  }

  lemma SpacePrefixGrows(s: string, m: nat)
    requires m < |s| && IsSpace(s[0]) && AllSpace(s[1..][..|s| - 1 - m])
    ensures AllSpace(s[..|s| - m]) && s[1..][|s| - 1 - m..] == s[|s| - m..]
  {
    var k := |s| - m;
    forall i | 1 <= i < k ensures IsSpace(s[..k][i]) {
      assert s[..k][i] == s[1..][..k - 1][i - 1];
    }
  }

  /** `s.rstrip()`: what is removed is a whitespace suffix and what remains does not end with whitespace. */
  function TrimEnd(s: string): (r: string)
    ensures |r| <= |s| && r == s[..|r|] && AllSpace(s[|r|..])
    ensures r == [] || !IsSpace(r[|r| - 1])
  {
    if s != [] && IsSpace(s[|s| - 1]) then
      var r := TrimEnd(s[..|s| - 1]);
      SpaceSuffixGrows(s, |r|);
      r
    else s
  }

  lemma SpaceSuffixGrows(s: string, n: nat)
    requires n < |s| && IsSpace(s[|s| - 1]) && AllSpace(s[..|s| - 1][n..])
    ensures AllSpace(s[n..]) && s[..|s| - 1][..n] == s[..n]
  {
    assert forall i :: 0 <= i < |s| - 1 - n ==> s[n..][i] == s[..|s| - 1][n..][i];
  }

  /** `s.strip()`: the input with its whitespace prefix and suffix removed.
      What `TrimStart` keeps is a suffix of the input behind whitespace only;
      the result is a prefix of that suffix, and only whitespace follows it. */
  function Strip(s: string): (r: string)
    ensures r == [] || (!IsSpace(r[0]) && !IsSpace(r[|r| - 1]))
    ensures var t := TrimStart(s);
      && |r| <= |t| <= |s|
      && t == s[|s| - |t|..] && AllSpace(s[..|s| - |t|])
      && r == t[..|r|] && AllSpace(t[|r|..])
  {
    TrimEnd(TrimStart(s))
  }

  /** Length of the leading run of non-whitespace characters. */
  function WordLen(s: string): (n: nat)
    ensures n <= |s|
    ensures NoSpace(s[..n])
    ensures n < |s| ==> IsSpace(s[n])
  {
    if s == [] || IsSpace(s[0]) then 0 else 1 + WordLen(s[1..])
  }

  /** `s.split()`: the maximal runs of non-whitespace characters, left to right. */
  function Split(s: string): (words: seq<string>)
    ensures forall w :: w in words ==> IsWord(w)
    decreases |s|
  {
    if s == [] then []
    else if IsSpace(s[0]) then Split(s[1..])
    else
      var n := WordLen(s);
      [s[..n]] + Split(s[n..])
  }

  /** `sep.join(words)` */
  function Join(sep: string, words: seq<string>): string
    decreases |words|
  {
    if words == [] then []
    else if |words| == 1 then words[0]
    else words[0] + sep + Join(sep, words[1..])
  }

  function Digit(d: nat): char
    requires d < 10
  {
    ('0' as int + d) as char
  }

  /** `"{}".format(n)` for a non-negative integer: its decimal digits, most significant first. */
  function DecimalString(n: nat): (s: string)
    ensures |s| >= 1
    ensures forall i :: 0 <= i < |s| ==> '0' <= s[i] <= '9'
    ensures s[0] == '0' ==> n == 0
  {
    if n < 10 then [Digit(n)] else DecimalString(n / 10) + [Digit(n % 10)]
  }

  /** The value of a string of decimal digits (the inverse of DecimalString). */
  function DecimalValue(s: string): nat
    requires forall i :: 0 <= i < |s| ==> '0' <= s[i] <= '9'
  {
    if s == [] then 0
    else DecimalValue(s[..|s| - 1]) * 10 + (s[|s| - 1] as int - '0' as int)
  }

  // ---------------------------------------------------------------------------
  // Decimal formatting

  /** Formatting a serial number is undone by reading its digits back. */
  lemma {:induction false} DecimalRoundTrip(n: nat)
    ensures DecimalValue(DecimalString(n)) == n
  {
    var s := DecimalString(n);
    if n < 10 {
      assert s[..|s| - 1] == [];
    } else {
      assert s[..|s| - 1] == DecimalString(n / 10);
      assert s[|s| - 1] == Digit(n % 10);
      DecimalRoundTrip(n / 10);
      assert (n / 10) * 10 + n % 10 == n;
    }
  }

  /** Distinct serial numbers are formatted as distinct strings. */
  lemma DecimalInjective(a: nat, b: nat)
    ensures DecimalString(a) == DecimalString(b) ==> a == b
  {
    DecimalRoundTrip(a);
    DecimalRoundTrip(b);
  }

  // ---------------------------------------------------------------------------
  // Splitting

  /** Leading whitespace does not change the words. */
  lemma {:induction false} SplitSkipsSpace(w: string, b: string)
    requires AllSpace(w)
    ensures Split(w + b) == Split(b)
    decreases |w|
  {
    if w == [] {
      assert w + b == b;
    } else {
      assert (w + b)[0] == w[0];
      assert (w + b)[1..] == w[1..] + b;
      SplitSkipsSpace(w[1..], b);
    }
  }

  lemma {:induction false} WordLenStopsAtSpace(a: string, b: string)
    requires b != [] && IsSpace(b[0])
    ensures WordLen(a + b) == WordLen(a)
    decreases |a|
  {
    if a == [] {
      assert a + b == b;
    } else if !IsSpace(a[0]) {
      assert (a + b)[1..] == a[1..] + b;
      WordLenStopsAtSpace(a[1..], b);
    }
  }

  /** A string cut just before whitespace splits into the words of each side. */
  lemma {:induction false} SplitAtSpace(a: string, b: string)
    requires b != [] && IsSpace(b[0])
    ensures Split(a + b) == Split(a) + Split(b)
    decreases |a|
  {
    if a == [] {
      assert a + b == b;
    } else if IsSpace(a[0]) {
      assert (a + b)[1..] == a[1..] + b;
      SplitAtSpace(a[1..], b);
    } else {
      var n := WordLen(a);
      WordLenStopsAtSpace(a, b);
      assert (a + b)[..n] == a[..n];
      assert (a + b)[n..] == a[n..] + b;
      SplitAtSpace(a[n..], b);
    }
  }

  /** Trailing whitespace does not change the words. */
  lemma SplitDropsTrailingSpace(a: string, w: string)
    requires AllSpace(w)
    ensures Split(a + w) == Split(a)
  {
    if w != [] {
      SplitAtSpace(a, w);
      SplitSkipsSpace(w, []);
      assert w + [] == w;
    } else {
      assert a + w == a;
    }
  }

  /** A string has no words exactly when it is all whitespace. */
  lemma {:induction false} SplitEmptyIffAllSpace(s: string)
    ensures Split(s) == [] <==> AllSpace(s)
    decreases |s|
  {
    if s != [] && IsSpace(s[0]) {
      SplitEmptyIffAllSpace(s[1..]);
      assert AllSpace(s) <==> AllSpace(s[1..]) by {
        assert forall i :: 1 <= i < |s| ==> s[i] == s[1..][i - 1];
      }
    }
  }

  /** A single word splits into itself. */
  lemma SplitWord(w: string)
    requires IsWord(w)
    ensures Split(w) == [w]
  {
    assert WordLen(w) == |w|;
    assert w[..|w|] == w;
    assert w[|w|..] == [];
  }

  /** Stripping does not change the words. */
  lemma SplitStrip(s: string)
    ensures Split(Strip(s)) == Split(s)
  {
    SplitTrimStart(s);
    SplitTrimEnd(TrimStart(s));
  }

  lemma SplitTrimStart(s: string)
    ensures Split(TrimStart(s)) == Split(s)
  {
  }

  lemma SplitTrimEnd(t: string)
    ensures Split(TrimEnd(t)) == Split(t)
  {
    var u := TrimEnd(t);
    var w := t[|u|..];
    assert t == u + w;
    SplitDropsTrailingSpace(u, w);
  }

  /** A stripped string with exactly one word is that word. */
  lemma StrippedSingleWord(s: string)
    requires |Split(s)| == 1
    ensures Strip(s) == Split(s)[0]
  {
    SplitStrip(s);
    SingleWordUnpadded(Strip(s));
  }

  /** A string without outer whitespace that has exactly one word is that word. */
  lemma SingleWordUnpadded(t: string)
    requires |Split(t)| == 1
    requires t == [] || (!IsSpace(t[0]) && !IsSpace(t[|t| - 1]))
    ensures t == Split(t)[0]
  {
    var n := WordLen(t);
    assert Split(t) == [t[..n]] + Split(t[n..]);
    SplitEmptyIffAllSpace(t[n..]);
    SpaceSuffix(t, n);
    assert t[..n] == t;
  }

  lemma SpaceSuffix(t: string, n: nat)
    requires n <= |t| && AllSpace(t[n..])
    ensures forall k :: n <= k < |t| ==> IsSpace(t[k])
  {
  }

  // ---------------------------------------------------------------------------
  // Joining

  /** Every character of a join comes from the separator or from one of the words. */
  lemma {:induction false} JoinChars(sep: string, words: seq<string>, k: nat)
    requires k < |Join(sep, words)|
    ensures Join(sep, words)[k] in sep || exists w :: w in words && Join(sep, words)[k] in w
    decreases |words|
  {
    if |words| > 1 {
      var rest := Join(sep, words[1..]);
      var j := Join(sep, words);
      assert j == words[0] + sep + rest;
      if k < |words[0]| {
        assert j[k] == words[0][k];
        assert words[0] in words;
      } else if k < |words[0]| + |sep| {
        assert j[k] == sep[k - |words[0]|];
      } else {
        assert j[k] == rest[k - |words[0]| - |sep|];
        JoinChars(sep, words[1..], k - |words[0]| - |sep|);
        if rest[k - |words[0]| - |sep|] !in sep {
          var w :| w in words[1..] && rest[k - |words[0]| - |sep|] in w;
          assert w in words;
        }
      }
    } else {
      assert words[0] in words;
    }
  }

  /** Joining words and a separator free of whitespace gives a string free of whitespace. */
  lemma JoinNoSpace(sep: string, words: seq<string>)
    requires NoSpace(sep)
    requires forall w :: w in words ==> NoSpace(w)
    ensures NoSpace(Join(sep, words))
  {
    var j := Join(sep, words);
    forall k | 0 <= k < |j| ensures !IsSpace(j[k]) {
      JoinChars(sep, words, k);
    }
  }

  /** Joining lower-case words with a lower-case separator gives a lower-case string. */
  lemma JoinNoUpper(sep: string, words: seq<string>)
    requires NoUpper(sep)
    requires forall w :: w in words ==> NoUpper(w)
    ensures NoUpper(Join(sep, words))
  {
    var j := Join(sep, words);
    forall k | 0 <= k < |j| ensures !IsUpper(j[k]) {
      JoinChars(sep, words, k);
    }
  }

  /** Joining words with a whitespace separator and splitting again gives the words back. */
  lemma {:induction false} SplitJoin(sep: string, words: seq<string>)
    requires sep != [] && AllSpace(sep)
    requires forall w :: w in words ==> IsWord(w)
    ensures Split(Join(sep, words)) == words
    decreases |words|
  {
    if words == [] {
    } else if |words| == 1 {
      assert words[0] in words;
      SplitWord(words[0]);
    } else {
      var rest := Join(sep, words[1..]);
      assert words[0] in words;
      assert Join(sep, words) == words[0] + (sep + rest);
      SplitAtSpace(words[0], sep + rest);
      SplitSkipsSpace(sep, rest);
      SplitWord(words[0]);
      SplitJoin(sep, words[1..]);
      assert words == [words[0]] + words[1..];
    }
  }
}
