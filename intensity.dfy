/**
 * `clean_element`: the intensity column of a line table holds text such as
 * "1000", "250bl" or "12.5?" (or a float NaN for a blank cell); the value is
 * the number at the front of the text, found with the pattern `^-?[\d.]+`
 * and converted with `float()`. Conversion is partial: a matched prefix such
 * as "." or "1.2.3" makes `float()` raise `ValueError`.
 */
module Intensity {
  import opened Wrappers
  import opened PyText

  /** A numpy float: finite, NaN or an infinity. */
  datatype Float = Num(v: real) | NaN | PosInf | NegInf

  /** A table cell: a float NaN (a blank cell), or any other value as `str()` gives it. */
  datatype Cell = Missing | Text(s: string)

  /** What `clean_element` does: return a value, or raise `ValueError` from `float()`. */
  datatype Conversion = Converted(x: Float) | ValueError

  predicate IsNumChar(c: char)
  {
    IsDigit(c) || c == '.'
  }

  predicate AllNumChars(s: string)
  {
    forall i :: 0 <= i < |s| ==> IsNumChar(s[i])
  }

  /** `p` is in the language of the regular expression `-?[\d.]+`. */
  predicate Matches(p: string)
  {
    if |p| > 0 && p[0] == '-' then |p| > 1 && AllNumChars(p[1..])
    else |p| > 0 && AllNumChars(p)
  }

  /** Length of the leading run of digits and dots. */
  function RunLength(s: string): (n: nat)
    ensures n <= |s| && AllNumChars(s[..n])
    ensures n < |s| ==> !IsNumChar(s[n])
  {
    if |s| == 0 || !IsNumChar(s[0]) then 0
    else
      var n := 1 + RunLength(s[1..]);
      assert s[..n] == [s[0]] + s[1..][..n - 1];
      n
  }

  lemma {:induction false} RunLengthIsLongest(s: string, k: nat)
    requires k <= |s| && AllNumChars(s[..k])
    ensures k <= RunLength(s)
  {
    if k > 0 {
      assert s[..k][0] == s[0];
      assert s[1..][..k - 1] == s[..k][1..];
      RunLengthIsLongest(s[1..], k - 1);
    }
  }

  /**
   * `re.match(r'^-?[\d.]+', s)`: the longest prefix of `s` in the pattern's
   * language, or `None` when no prefix of `s` is in it.
   */
  function MatchPrefix(s: string): (r: Option<string>)
    ensures r.Some? ==> Matches(r.value) && StartsWith(s, r.value)
    ensures forall k :: 0 <= k <= |s| && Matches(s[..k]) ==> r.Some? && k <= |r.value|
  {
    if |s| > 0 && s[0] == '-' then
      var n := RunLength(s[1..]);
      forall k | 1 < k <= |s| && AllNumChars(s[..k][1..]) ensures k <= n + 1 {
        assert s[..k][1..] == s[1..][..k - 1];
        RunLengthIsLongest(s[1..], k - 1);
      }
      if n == 0 then None
      else
        assert s[..n + 1][1..] == s[1..][..n];
        Some(s[..n + 1])
    else
      var n := RunLength(s);
      forall k | 0 < k <= |s| && AllNumChars(s[..k]) ensures k <= n {
        RunLengthIsLongest(s, k);
      }
      if n == 0 then None else Some(s[..n])
  }

  /** Digits and dots, at least one digit, at most one dot: what `float()` accepts here. */
  predicate IsDecimal(q: string)
  {
    AllNumChars(q) && multiset(q)['.'] <= 1 && exists i :: 0 <= i < |q| && IsDigit(q[i])
  }

  function DotIndex(q: string): (k: nat)
    requires '.' in q
    ensures k < |q| && q[k] == '.' && '.' !in q[..k]
  {
    if q[0] == '.' then 0
    else
      var k := 1 + DotIndex(q[1..]);
      assert q[..k] == [q[0]] + q[1..][..k - 1];
      k
  }

  function Pow10(n: nat): (p: nat)
    ensures p >= 1
  {
    if n == 0 then 1 else 10 * Pow10(n - 1)
  }

  /** With a single dot, the text on each side of it is all digits. */
  lemma DigitsAroundDot(q: string)
    requires AllNumChars(q) && '.' in q && multiset(q)['.'] <= 1
    ensures AllDigits(q[..DotIndex(q)]) && AllDigits(q[DotIndex(q) + 1..])
  {
    var k := DotIndex(q);
    assert q == q[..k] + [q[k]] + q[k + 1..];
    assert multiset(q)['.'] == multiset(q[..k])['.'] + 1 + multiset(q[k + 1..])['.'];
    var whole, frac := q[..k], q[k + 1..];
    assert multiset(frac)['.'] == 0;
    forall i | 0 <= i < |whole| ensures IsDigit(whole[i]) { assert whole[i] == q[i]; }
    forall i | 0 <= i < |frac| ensures IsDigit(frac[i]) {
      assert frac[i] == q[k + 1 + i];
      assert frac[i] in multiset(frac);
    }
  }

  /** `float(q)` for an unsigned `q` of digits and dots: its exact decimal value. */
  function ParseUnsigned(q: string): (r: Option<real>)
    requires AllNumChars(q)
    ensures r.Some? <==> IsDecimal(q)
    ensures r.Some? ==> r.value >= 0.0
  {
    if !IsDecimal(q) then None
    else if '.' !in q then
      assert AllDigits(q);
      Some(DigitsValue(q) as real)
    else
      var k := DotIndex(q);
      var whole, frac := q[..k], q[k + 1..];
      DigitsAroundDot(q);
      Some(DigitsValue(whole) as real + DigitsValue(frac) as real / Pow10(|frac|) as real)
  }

  /**
   * `float(p)` for a matched prefix `p`: `None` where Python raises
   * `ValueError`, otherwise the exact decimal value of `p`.
   */
  function ParseFloat(p: string): (r: Option<real>)
    requires Matches(p)
    ensures p[0] == '-' ==> (r.Some? <==> IsDecimal(p[1..]))
    ensures p[0] != '-' ==> (r.Some? <==> IsDecimal(p))
    ensures r.Some? && p[0] != '-' ==> r.value >= 0.0
    ensures r.Some? && p[0] == '-' ==> r.value <= 0.0
  {
    if p[0] == '-' then
      match ParseUnsigned(p[1..])
      case None => None
      case Some(v) => Some(-v)
    else ParseUnsigned(p)
  }

  /** `clean_element(s)`. */
  function CleanElement(c: Cell): (r: Conversion)
    ensures r.Converted? ==> !r.x.PosInf? && !r.x.NegInf?
    ensures r.ValueError? <==> c.Text? && MatchPrefix(c.s).Some? && ParseFloat(MatchPrefix(c.s).value).None?
    ensures r == Converted(NaN) <==> c.Missing? || MatchPrefix(c.s).None?
    ensures c.Text? && MatchPrefix(c.s).Some? && ParseFloat(MatchPrefix(c.s).value).Some? ==>
              r == Converted(Num(ParseFloat(MatchPrefix(c.s).value).value))
  {
    match c
    case Missing => Converted(NaN)
    case Text(s) =>
      match MatchPrefix(s)
      case None => Converted(NaN)
      case Some(p) =>
        match ParseFloat(p)
        case None => ValueError
        case Some(v) => Converted(Num(v))
  }

  /** `[clean_element(i) for i in column]`: `None` when any entry raises. */
  function CleanColumn(cells: seq<Cell>): (r: Option<seq<Float>>)
    ensures r.Some? <==> forall i :: 0 <= i < |cells| ==> CleanElement(cells[i]).Converted?
    ensures r.Some? ==> |r.value| == |cells| &&
                        forall i :: 0 <= i < |cells| ==> r.value[i] == CleanElement(cells[i]).x
  {
    if |cells| == 0 then Some([])
    else
      match CleanElement(cells[0])
      case ValueError => None
      case Converted(x) =>
        match CleanColumn(cells[1..])
        case None => None
        case Some(rest) => Some([x] + rest)
  }

  // ---------------------------------------------------------------------------
  // Properties

  /** Text after the numeric prefix that starts with any other character is ignored. */
  lemma MatchPrefixIgnoresSuffix(s: string, t: string)
    requires t == [] || (!IsNumChar(t[0]) && (s != [] || t[0] != '-'))
    ensures MatchPrefix(s + t) == MatchPrefix(s)
  {
    if s == [] {
      assert s + t == t;
    } else if s[0] == '-' {
      assert (s + t)[1..] == s[1..] + t;
      RunLengthIgnoresSuffix(s[1..], t);
      assert (s + t)[..RunLength(s[1..]) + 1] == s[..RunLength(s[1..]) + 1];
    } else {
      RunLengthIgnoresSuffix(s, t);
      assert (s + t)[..RunLength(s)] == s[..RunLength(s)];
    }
  }

  lemma {:induction false} RunLengthIgnoresSuffix(s: string, t: string)
    requires t == [] || !IsNumChar(t[0])
    ensures RunLength(s + t) == RunLength(s)
  {
    if s == [] {
      assert s + t == t;
    } else {
      assert (s + t)[1..] == s[1..] + t;
      RunLengthIgnoresSuffix(s[1..], t);
    }
  }

  /** `float(str(n))` is `n`: the digits of a number parse back to it. */
  lemma {:induction false} ParseFloatOfDigits(n: nat)
    ensures Matches(NatToString(n))
    ensures ParseFloat(NatToString(n)) == Some(n as real)
  {
    var s := NatToString(n);
    assert IsDigit(s[0]);
  }

  /** A cell whose text is the digits of `n` followed by an annotation cleans to `n`. */
  lemma {:induction false} CleanAnnotatedNumber(n: nat, note: string)
    requires note == [] || !IsNumChar(note[0])
    ensures CleanElement(Text(NatToString(n) + note)) == Converted(Num(n as real))
  {
    var s := NatToString(n);
    MatchPrefixIgnoresSuffix(s, note);
    ParseFloatOfDigits(n);
    assert s[..|s|] == s;
    assert Matches(s);
  }

  /** A leading minus sign negates the value. */
  /** A leading minus sign negates a value that `float()` reads from `q`. */
  lemma {:induction false} ParseFloatNegativeValue(q: string, v: real)
    requires |q| > 0 && AllNumChars(q) && Matches(q) && ParseFloat(q) == Some(v)
    ensures Matches("-" + q) && ParseFloat("-" + q) == Some(-v)
  {
    ParseFloatNegative(q);
  }

  lemma ParseFloatNegative(q: string)
    requires |q| > 0 && AllNumChars(q)
    ensures Matches("-" + q) && Matches(q)
    ensures ParseFloat("-" + q) == match ParseFloat(q) case None => None case Some(v) => Some(-v)
  {
    assert ("-" + q)[1..] == q;
    assert q[0] != '-';
  }

  lemma {:induction false} DotIndexAfterDigits(whole: string, frac: string)
    requires AllDigits(whole)
    ensures DotIndex(whole + ['.'] + frac) == |whole|
  {
    if |whole| > 0 {
      assert (whole + ['.'] + frac)[1..] == whole[1..] + ['.'] + frac;
      DotIndexAfterDigits(whole[1..], frac);
    }
  }

  lemma NoDotInDigits(s: string)
    requires AllDigits(s)
    ensures '.' !in s && multiset(s)['.'] == 0 && AllNumChars(s)
  {
  }

  lemma FractionBelowOne(d: nat, p: nat)
    requires d < p
    ensures 0.0 <= d as real / p as real < 1.0
  {
    var f := d as real / p as real;
    assert f * p as real == d as real;
  }

  lemma AllNumCharsAround(whole: string, frac: string)
    requires AllDigits(whole) && AllDigits(frac)
    ensures AllNumChars(whole + ['.'] + frac)
  {
    var q := whole + ['.'] + frac;
    forall i | 0 <= i < |q| ensures IsNumChar(q[i]) {
      if i < |whole| { assert q[i] == whole[i]; }
      else if i > |whole| { assert q[i] == frac[i - |whole| - 1]; }
    }
  }

  /** The fraction digits add less than one to the whole part. */
  lemma {:induction false} ParseUnsignedBounds(whole: string, frac: string)
    requires AllDigits(whole) && AllDigits(frac) && |whole| + |frac| > 0
    ensures AllNumChars(whole + "." + frac)
    ensures ParseUnsigned(whole + "." + frac).Some?
    ensures DigitsValue(whole) as real <= ParseUnsigned(whole + "." + frac).value
    ensures ParseUnsigned(whole + "." + frac).value < DigitsValue(whole) as real + 1.0
  {
    ParseUnsignedSplit(whole, frac);
    DigitsBelowPow10(frac);
    FractionBelowOne(DigitsValue(frac), Pow10(|frac|));
  }

  /** `float(whole + "." + frac)` is `whole` plus `frac` over `10^|frac|`. */
  lemma {:induction false} ParseUnsignedSplit(whole: string, frac: string)
    requires AllDigits(whole) && AllDigits(frac) && |whole| + |frac| > 0
    ensures AllNumChars(whole + "." + frac)
    ensures ParseUnsigned(whole + "." + frac)
            == Some(DigitsValue(whole) as real + DigitsValue(frac) as real / Pow10(|frac|) as real)
  {
    var q := whole + "." + frac;
    DecimalShape(whole, frac);
    ParseUnsignedDot(q);
    assert q[..|whole|] == whole && q[|whole| + 1..] == frac;
  }

  lemma {:induction false} ParseUnsignedDot(q: string)
    requires IsDecimal(q) && '.' in q
    ensures AllDigits(q[..DotIndex(q)]) && AllDigits(q[DotIndex(q) + 1..])
    ensures ParseUnsigned(q) == Some(DigitsValue(q[..DotIndex(q)]) as real +
                                     DigitsValue(q[DotIndex(q) + 1..]) as real / Pow10(|q[DotIndex(q) + 1..]|) as real)
  {
    DigitsAroundDot(q);
  }

  /** `whole.frac` is a decimal whose only dot sits right after `whole`. */
  lemma {:induction false} DecimalShape(whole: string, frac: string)
    requires AllDigits(whole) && AllDigits(frac) && |whole| + |frac| > 0
    ensures IsDecimal(whole + "." + frac) && DotIndex(whole + "." + frac) == |whole|
  {
    var q := whole + ['.'] + frac;
    assert q == whole + "." + frac;
    NoDotInDigits(whole);
    NoDotInDigits(frac);
    AllNumCharsAround(whole, frac);
    assert multiset(q)['.'] == 1;
    if |whole| > 0 { assert IsDigit(q[0]); } else { assert IsDigit(q[1]); }
    DotIndexAfterDigits(whole, frac);
  }

  lemma {:induction false} DigitsBelowPow10(s: string)
    requires AllDigits(s)
    ensures DigitsValue(s) < Pow10(|s|)
  {
    if |s| > 0 {
      DigitsBelowPow10(s[..|s| - 1]);
    }
  }

  /** Appending digits `b` shifts the value of `a` left by `|b|` places. */
  lemma {:induction false} DigitsValueConcat(a: string, b: string)
    requires AllDigits(a) && AllDigits(b)
    ensures AllDigits(a + b)
    ensures DigitsValue(a + b) == DigitsValue(a) * Pow10(|b|) + DigitsValue(b)
  {
    AllDigitsConcat(a, b);
    if |b| == 0 {
      assert a + b == a;
    } else {
      var b' := b[..|b| - 1];
      var d := DigitValue(b[|b| - 1]);
      AllDigitsConcat(a, b');
      assert DigitsValue(a + b) == DigitsValue(a + b') * 10 + d by {
        assert (a + b)[..|a + b| - 1] == a + b';
        assert (a + b)[|a + b| - 1] == b[|b| - 1];
      }
      DigitsValueConcat(a, b');
      ShiftDigit(DigitsValue(a), DigitsValue(b'), Pow10(|b'|), d);
    }
  }

  lemma AllDigitsConcat(a: string, b: string)
    requires AllDigits(a) && AllDigits(b)
    ensures AllDigits(a + b)
  {
    forall i | 0 <= i < |a + b| ensures IsDigit((a + b)[i]) {
      if i < |a| { assert (a + b)[i] == a[i]; } else { assert (a + b)[i] == b[i - |a|]; }
    }
  }

  lemma ShiftDigit(x: nat, y: nat, p: nat, d: nat)
    ensures (x * p + y) * 10 + d == x * (p * 10) + (y * 10 + d)
  {
  }

  /** The value of the decimal `whole.frac`: all its digits read as one integer, over `10^|frac|`. */
  function DecimalValue(whole: string, frac: string): real
    requires AllDigits(whole) && AllDigits(frac)
  {
    DigitsValueConcat(whole, frac);
    DigitsValue(whole + frac) as real / Pow10(|frac|) as real
  }

  /** `float()` of digits without a dot is the integer they denote. */
  lemma {:induction false} ParseUnsignedInteger(q: string)
    requires AllDigits(q) && |q| > 0
    ensures AllNumChars(q) && ParseUnsigned(q) == Some(DigitsValue(q) as real)
  {
    NoDotInDigits(q);
    assert IsDigit(q[0]);
  }

  /**
   * `float(whole + "." + frac)` is exact: the digits on both sides of the dot,
   * read as one integer, over `10^|frac|`.
   */
  lemma {:induction false} ParseUnsignedValue(whole: string, frac: string)
    requires AllDigits(whole) && AllDigits(frac) && |whole| + |frac| > 0
    ensures AllNumChars(whole + "." + frac) && AllDigits(whole + frac)
    ensures ParseUnsigned(whole + "." + frac) == Some(DecimalValue(whole, frac))
  {
    ParseUnsignedSplit(whole, frac);
    DigitsValueConcat(whole, frac);
    ShiftedQuotient(DigitsValue(whole + frac), DigitsValue(whole), DigitsValue(frac), Pow10(|frac|));
  }

  lemma ShiftedQuotient(n: nat, w: nat, f: nat, p: nat)
    requires p > 0 && n == w * p + f
    ensures n as real / p as real == w as real + f as real / p as real
  {
    var x := f as real / p as real;
    assert x * p as real == f as real;
    assert (w as real + x) * p as real == (w * p + f) as real;
  }

  /** Text after a matched number that starts with any other character does not change the result. */
  lemma {:induction false} CleanAnnotated(p: string, note: string)
    requires Matches(p) && (note == [] || !IsNumChar(note[0]))
    ensures ParseFloat(p).None? ==> CleanElement(Text(p + note)) == ValueError
    ensures ParseFloat(p).Some? ==> CleanElement(Text(p + note)) == Converted(Num(ParseFloat(p).value))
  {
    MatchPrefixIgnoresSuffix(p, note);
    MatchPrefixWhole(p);
  }

  /** A matched number that `float()` reads as `v`, followed by an annotation, cleans to `v`. */
  lemma {:induction false} CleanAnnotatedValue(p: string, note: string, v: real)
    requires Matches(p) && (note == [] || !IsNumChar(note[0])) && ParseFloat(p) == Some(v)
    ensures CleanElement(Text(p + note)) == Converted(Num(v))
  {
    CleanAnnotated(p, note);
  }

  /** `whole.frac` matches the pattern and parses to its exact decimal value. */
  lemma {:induction false} ParseFloatOfDecimal(whole: string, frac: string)
    requires AllDigits(whole) && AllDigits(frac) && |whole| + |frac| > 0
    ensures AllDigits(whole + frac) && AllNumChars(whole + "." + frac) && Matches(whole + "." + frac)
    ensures ParseFloat(whole + "." + frac) == Some(DecimalValue(whole, frac))
  {
    var q := whole + "." + frac;
    ParseUnsignedValue(whole, frac);
    if |whole| > 0 { assert q[0] == whole[0]; } else { assert q[0] == '.'; }
  }

  /**
   * A cell holding `whole.frac` followed by an annotation such as `?` or `bl`
   * cleans to the exact decimal value of `whole.frac`.
   */
  lemma {:induction false} CleanAnnotatedDecimal(whole: string, frac: string, note: string)
    requires AllDigits(whole) && AllDigits(frac) && |whole| + |frac| > 0
    requires note == [] || !IsNumChar(note[0])
    ensures CleanElement(Text(whole + "." + frac + note))
            == Converted(Num(DecimalValue(whole, frac)))
  {
    ParseFloatOfDecimal(whole, frac);
    CleanAnnotatedValue(whole + "." + frac, note, DecimalValue(whole, frac));
  }

  /** A cell holding `-q` followed by an annotation, where `float(q)` is `v`, cleans to `-v`. */
  lemma {:induction false} CleanAnnotatedNegated(q: string, note: string, v: real)
    requires |q| > 0 && AllNumChars(q) && Matches(q) && ParseFloat(q) == Some(v)
    requires note == [] || !IsNumChar(note[0])
    ensures CleanElement(Text("-" + q + note)) == Converted(Num(-v))
  {
    ParseFloatNegativeValue(q, v);
    CleanAnnotatedValue("-" + q, note, -v);
  }

  /** A text wholly in the pattern's language is its own match. */
  lemma {:induction false} MatchPrefixWhole(p: string)
    requires Matches(p)
    ensures MatchPrefix(p) == Some(p)
  {
    assert p[..|p|] == p;
  }

  /** Prefixes that match the pattern but that `float()` rejects. */
  lemma RejectedPrefixes()
    ensures Matches(".") && ParseFloat(".") == None
    ensures Matches("-.") && ParseFloat("-.") == None
    ensures Matches("1.2.3") && ParseFloat("1.2.3") == None
    ensures CleanElement(Text("1.2.3e")) == ValueError
  {
    assert "-."[1..] == ".";
    assert multiset("1.2.3")['.'] == 2;
    assert MatchPrefix("1.2.3e") == Some("1.2.3") by {
      MatchPrefixIgnoresSuffix("1.2.3", "e");
      assert "1.2.3" + "e" == "1.2.3e";
      assert RunLength("1.2.3") == 5;
    }
  }
}
