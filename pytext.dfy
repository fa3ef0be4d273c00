/**
 * The few Python `str` operations the scripts rely on: `split` with a
 * one-character separator, `replace` (non-overlapping, left to right),
 * prefix/suffix tests and `str()` of a non-negative integer.
 */
module PyText {

  predicate StartsWith(s: string, p: string)
  {
    |p| <= |s| && s[..|p|] == p
  }

  predicate EndsWith(s: string, p: string)
  {
    |p| <= |s| && s[|s| - |p|..] == p
  }

  /** The inverse of `Split`: `sep.join(parts)`. */
  function Join(parts: seq<string>, sep: char): string
    requires |parts| >= 1
  {
    if |parts| == 1 then parts[0] else parts[0] + [sep] + Join(parts[1..], sep)
  }

  /** `s.split(sep)`: never empty, and no part contains `sep`. */
  function Split(s: string, sep: char): (parts: seq<string>)
    ensures |parts| >= 1
    ensures forall i :: 0 <= i < |parts| ==> sep !in parts[i]
  {
    if |s| == 0 then [""]
    else if s[0] == sep then [""] + Split(s[1..], sep)
    else
      var rest := Split(s[1..], sep);
      [[s[0]] + rest[0]] + rest[1..]
  }

  /** Joining the parts of a split gives the text back. */
  lemma {:induction false} JoinSplit(s: string, sep: char)
    ensures Join(Split(s, sep), sep) == s
  {
    if |s| > 0 {
      JoinSplit(s[1..], sep);
      var rest := Split(s[1..], sep);
      if s[0] != sep && |rest| > 1 {
        assert Join(rest, sep) == rest[0] + [sep] + Join(rest[1..], sep);
        assert ([[s[0]] + rest[0]] + rest[1..])[1..] == rest[1..];
      }
      assert s == [s[0]] + s[1..];
    }
  }

  lemma {:induction false} SplitNoSep(s: string, sep: char)
    requires sep !in s
    ensures Split(s, sep) == [s]
  {
    if |s| > 0 {
      SplitNoSep(s[1..], sep);
      assert [s[0]] + s[1..] == s;
    }
  }

  lemma {:induction false} SplitAtFirstSep(x: string, sep: char, y: string)
    requires sep !in x
    ensures Split(x + [sep] + y, sep) == [x] + Split(y, sep)
  {
    if |x| == 0 {
      assert x + [sep] + y == [sep] + y;
      assert ([sep] + y)[1..] == y;
    } else {
      assert (x + [sep] + y)[1..] == x[1..] + [sep] + y;
      SplitAtFirstSep(x[1..], sep, y);
      assert [x[0]] + x[1..] == x;
    }
  }

  /** Splitting at one separator splits each side apart: `(x + sep + y).split(sep) == x.split(sep) + y.split(sep)`. */
  lemma {:induction false} SplitConcat(x: string, sep: char, y: string)
    ensures Split(x + [sep] + y, sep) == Split(x, sep) + Split(y, sep)
  {
    if |x| == 0 {
      assert x + [sep] + y == [sep] + y;
      assert ([sep] + y)[1..] == y;
    } else {
      assert (x + [sep] + y)[1..] == x[1..] + [sep] + y;
      SplitConcat(x[1..], sep, y);
      if x[0] != sep {
        var rest := Split(x[1..], sep);
        assert Split(x[1..] + [sep] + y, sep) == rest + Split(y, sep);
      }
    }
  }

  /** Splitting a join of separator-free parts gives the parts back. */
  lemma {:induction false} SplitJoin(parts: seq<string>, sep: char)
    requires |parts| >= 1
    requires forall i :: 0 <= i < |parts| ==> sep !in parts[i]
    ensures Split(Join(parts, sep), sep) == parts
  {
    if |parts| == 1 {
      SplitNoSep(parts[0], sep);
    } else {
      SplitJoin(parts[1..], sep);
      SplitAtFirstSep(parts[0], sep, Join(parts[1..], sep));
      assert [parts[0]] + parts[1..] == parts;
    }
  }

  /** `s.split(sep)` has a second part exactly when `sep` occurs in `s`. */
  lemma {:induction false} SplitHasSecondPart(s: string, sep: char)
    ensures |Split(s, sep)| >= 2 <==> sep in s
  {
    if |s| > 0 {
      SplitHasSecondPart(s[1..], sep);
      assert s == [s[0]] + s[1..];
    }
  }

  /** A character absent from `s` is absent from every part of its split. */
  lemma {:induction false} SplitKeepsAbsent(s: string, sep: char, c: char)
    requires c !in s
    ensures forall i :: 0 <= i < |Split(s, sep)| ==> c !in Split(s, sep)[i]
  {
    if |s| > 0 {
      assert s == [s[0]] + s[1..];
      SplitKeepsAbsent(s[1..], sep, c);
    }
  }

  /** `s.replace(pat, rep)`: scan left to right, replace each match, never re-scan output. */
  function Replace(s: string, pat: string, rep: string): string
    requires |pat| > 0
    decreases |s|
  {
    if StartsWith(s, pat) then rep + Replace(s[|pat|..], pat, rep)
    else if |s| == 0 then ""
    else [s[0]] + Replace(s[1..], pat, rep)
  }

  /** Replacing a pattern by itself, or in text too short to hold it, changes nothing. */
  lemma {:induction false} ReplaceUnchanged(s: string, pat: string, rep: string)
    requires |pat| > 0
    ensures rep == pat ==> Replace(s, pat, rep) == s
    ensures |s| < |pat| ==> Replace(s, pat, rep) == s
    decreases |s|
  {
    if StartsWith(s, pat) {
      ReplaceUnchanged(s[|pat|..], pat, rep);
      assert s == s[..|pat|] + s[|pat|..];
    } else if |s| > 0 {
      ReplaceUnchanged(s[1..], pat, rep);
      assert s == [s[0]] + s[1..];
    }
  }

  /** A replacement never longer than its pattern never makes the text longer. */
  lemma {:induction false} ReplaceNotLonger(s: string, pat: string, rep: string)
    requires |pat| > 0 && |rep| <= |pat|
    ensures |Replace(s, pat, rep)| <= |s|
    decreases |s|
  {
    if StartsWith(s, pat) {
      ReplaceNotLonger(s[|pat|..], pat, rep);
    } else if |s| > 0 {
      ReplaceNotLonger(s[1..], pat, rep);
    }
  }

  /** A character that pattern and replacement hold equally often keeps its count. */
  lemma {:induction false} ReplaceKeepsCount(s: string, pat: string, rep: string, c: char)
    requires |pat| > 0 && multiset(pat)[c] == multiset(rep)[c]
    ensures multiset(Replace(s, pat, rep))[c] == multiset(s)[c]
    decreases |s|
  {
    if StartsWith(s, pat) {
      ReplaceKeepsCount(s[|pat|..], pat, rep, c);
      assert s == s[..|pat|] + s[|pat|..];
    } else if |s| > 0 {
      ReplaceKeepsCount(s[1..], pat, rep, c);
      assert s == [s[0]] + s[1..];
    }
  }

  /** A character in neither the text nor the replacement is not in the result. */
  lemma {:induction false} ReplaceKeepsAbsent(s: string, pat: string, rep: string, c: char)
    requires |pat| > 0 && c !in s && c !in rep
    ensures c !in Replace(s, pat, rep)
    decreases |s|
  {
    if StartsWith(s, pat) {
      ReplaceKeepsAbsent(s[|pat|..], pat, rep, c);
    } else if |s| > 0 {
      ReplaceKeepsAbsent(s[1..], pat, rep, c);
    }
  }

  /** Replacing a single character by text without it removes every occurrence. */
  lemma {:induction false} ReplaceRemovesChar(s: string, c: char, rep: string)
    requires c !in rep
    ensures c !in Replace(s, [c], rep)
    decreases |s|
  {
    if StartsWith(s, [c]) {
      ReplaceRemovesChar(s[1..], c, rep);
    } else if |s| > 0 {
      ReplaceRemovesChar(s[1..], c, rep);
    }
  }

  /** No match of `pat` begins in `x` and ends in `z`. */
  predicate NoStraddle(x: string, z: string, pat: string)
  {
    forall k :: 0 < k < |pat| ==> !(EndsWith(x, pat[..k]) && StartsWith(z, pat[k..]))
  }

  /** With no match across the seam, replacing in `x + z` works on each side apart. */
  lemma {:induction false} ReplaceConcat(x: string, z: string, pat: string, rep: string)
    requires |pat| > 0 && NoStraddle(x, z, pat)
    ensures Replace(x + z, pat, rep) == Replace(x, pat, rep) + Replace(z, pat, rep)
    decreases |x|
  {
    if |x| == 0 {
      assert x + z == z;
    } else if StartsWith(x, pat) {
      assert (x + z)[..|pat|] == x[..|pat|];
      assert (x + z)[|pat|..] == x[|pat|..] + z;
      NoStraddleSuffix(x, x[|pat|..], z, pat);
      ReplaceConcat(x[|pat|..], z, pat, rep);
    } else {
      NoMatchAtSeam(x, z, pat);
      assert (x + z)[1..] == x[1..] + z;
      NoStraddleSuffix(x, x[1..], z, pat);
      ReplaceConcat(x[1..], z, pat, rep);
    }
  }

  /** Text without the pattern's first character has no match and is left alone. */
  lemma {:induction false} ReplaceWithoutMatch(s: string, pat: string, rep: string)
    requires |pat| > 0 && pat[0] !in s
    ensures Replace(s, pat, rep) == s
    decreases |s|
  {
    if |s| > 0 {
      assert s[0] != pat[0];
      ReplaceWithoutMatch(s[1..], pat, rep);
      assert s == [s[0]] + s[1..];
    }
  }

  /** A match cannot begin in text that lacks the pattern's first character. */
  lemma NoStraddleWhenFirstAbsent(x: string, z: string, pat: string)
    requires |pat| > 0 && pat[0] !in x
    ensures NoStraddle(x, z, pat)
  {
    forall k | 0 < k < |pat|
      ensures !EndsWith(x, pat[..k])
    {
      if k <= |x| {
        assert x[|x| - k] in x;
        assert x[|x| - k..][0] == x[|x| - k];
        assert pat[..k][0] == pat[0];
      }
    }
  }

  lemma NoMatchAtSeam(x: string, z: string, pat: string)
    requires |x| > 0 && |pat| > 0 && !StartsWith(x, pat) && NoStraddle(x, z, pat)
    ensures !StartsWith(x + z, pat)
  {
    if |x| < |pat| <= |x| + |z| {
      var k := |x|;
      assert (x + z)[..k] == x;
      assert (x + z)[k..|pat|] == z[..|pat| - k];
      assert EndsWith(x, pat[..k]) ==> !StartsWith(z, pat[k..]);
    } else if |pat| <= |x| {
      assert (x + z)[..|pat|] == x[..|pat|];
    }
  }

  lemma NoStraddleSuffix(x: string, x': string, z: string, pat: string)
    requires NoStraddle(x, z, pat) && EndsWith(x, x')
    ensures NoStraddle(x', z, pat)
  {
    forall k | 0 < k < |pat| && EndsWith(x', pat[..k])
      ensures !StartsWith(z, pat[k..])
    {
      assert x[|x| - k..] == x'[|x'| - k..];
    }
  }

  // ---------------------------------------------------------------------------
  // Decimal digits

  predicate IsDigit(c: char)
  {
    '0' <= c <= '9'
  }

  predicate AllDigits(s: string)
  {
    forall i :: 0 <= i < |s| ==> IsDigit(s[i])
  }

  function DigitValue(c: char): nat
    requires IsDigit(c)
  {
    (c as int - '0' as int) as nat
  }

  /** The number a string of decimal digits denotes (an empty string denotes 0). */
  function DigitsValue(s: string): nat
    requires AllDigits(s)
  {
    if |s| == 0 then 0 else DigitsValue(s[..|s| - 1]) * 10 + DigitValue(s[|s| - 1])
  }

  function DigitChar(d: nat): (c: char)
    requires d < 10
    ensures IsDigit(c) && DigitValue(c) == d
  {
    ('0' as int + d) as char
  }

  /** `str(n)` for a non-negative integer: decimal digits, no leading zero. */
  function NatToString(n: nat): (s: string)
    ensures |s| >= 1 && AllDigits(s)
    ensures DigitsValue(s) == n
    ensures |s| > 1 ==> s[0] != '0'
  {
    if n < 10 then [DigitChar(n)]
    else
      var s := NatToString(n / 10) + [DigitChar(n % 10)];
      assert s[..|s| - 1] == NatToString(n / 10);
      s
  }
}
