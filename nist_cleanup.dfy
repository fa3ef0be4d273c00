/**
 * The scraper's repair of the line list page before it is read as
 * tab-separated text: remove every `=`, turn each run of six double quotes
 * followed by a comma (an empty quoted field) into `NaN,`, remove every
 * remaining double quote, and drop a `+` in front of a tab. Each step is a
 * Python `str.replace`: matches are found left to right and do not overlap.
 */
module NistCleanup {
  import opened PyText

  /** Six double quotes and a comma. */
  const EmptyField: string := "\"\"\"\"\"\","

  /** Line 48: every `=` goes, and every other character keeps its count. */
  function StripEquals(text: string): (r: string)
    ensures '=' !in r && |r| <= |text|
    ensures forall c :: c != '=' ==> multiset(r)[c] == multiset(text)[c]
  {
    ReplaceRemovesChar(text, '=', "");
    ReplaceNotLonger(text, "=", "");
    forall c | c != '='
      ensures multiset(Replace(text, "=", ""))[c] == multiset(text)[c]
    {
      ReplaceKeepsCount(text, "=", "", c);
    }
    Replace(text, "=", "")
  }

  /**
   * Line 49: the text does not grow, and a character in neither the pattern
   * nor `NaN,` keeps its count.
   */
  function MarkEmptyFields(text: string): (r: string)
    ensures |r| <= |text|
    ensures forall c :: c !in EmptyField && c !in "NaN," ==> multiset(r)[c] == multiset(text)[c]
  {
    ReplaceNotLonger(text, EmptyField, "NaN,");
    forall c | c !in EmptyField && c !in "NaN,"
      ensures multiset(Replace(text, EmptyField, "NaN,"))[c] == multiset(text)[c]
    {
      AbsentCountsZero(EmptyField, c);
      AbsentCountsZero("NaN,", c);
      ReplaceKeepsCount(text, EmptyField, "NaN,", c);
    }
    Replace(text, EmptyField, "NaN,")
  }

  /**
   * Lines 50-51: every `"` goes, the text does not grow, and every character
   * other than `"` and `+` keeps its count.
   */
  function StripQuotesAndPlus(text: string): (r: string)
    ensures '"' !in r && |r| <= |text|
    ensures forall c :: c != '"' && c != '+' ==> multiset(r)[c] == multiset(text)[c]
  {
    var s := Replace(text, "\"", "");
    ReplaceRemovesChar(text, '"', "");
    ReplaceKeepsAbsent(s, "+\t", "\t", '"');
    ReplaceNotLonger(text, "\"", "");
    ReplaceNotLonger(s, "+\t", "\t");
    forall c | c != '"' && c != '+'
      ensures multiset(Replace(s, "+\t", "\t"))[c] == multiset(text)[c]
    {
      ReplaceKeepsCount(text, "\"", "", c);
      assert multiset("+\t") == multiset(['+']) + multiset("\t") by {
        assert "+\t" == ['+'] + "\t";
      }
      ReplaceKeepsCount(s, "+\t", "\t", c);
    }
    Replace(s, "+\t", "\t")
  }

  /** Lines 48-51, in order. */
  function Cleanup(text: string): string
  {
    StripQuotesAndPlus(MarkEmptyFields(StripEquals(text)))
  }

  // ---------------------------------------------------------------------------
  // Properties

  /** A text with no `=`, `"` or `+` is left as it is. */
  lemma PlainTextUnchanged(text: string)
    requires '=' !in text && '"' !in text && '+' !in text
    ensures Cleanup(text) == text
  {
    ReplaceWithoutMatch(text, "=", "");
    ReplaceWithoutMatch(text, EmptyField, "NaN,");
    ReplaceWithoutMatch(text, "\"", "");
    ReplaceWithoutMatch(text, "+\t", "\t");
  }

  /** The cleaned text holds no `=` and no `"`. */
  lemma NoEqualsOrQuotes(text: string)
    ensures '=' !in Cleanup(text) && '"' !in Cleanup(text)
  {
    var s1 := StripEquals(text);
    ReplaceRemovesChar(text, '=', "");
    var s2 := MarkEmptyFields(s1);
    ReplaceKeepsAbsent(s1, EmptyField, "NaN,", '=');
    var s3 := Replace(s2, "\"", "");
    ReplaceKeepsAbsent(s2, "\"", "", '=');
    ReplaceRemovesChar(s2, '"', "");
    ReplaceKeepsAbsent(s3, "+\t", "\t", '=');
    ReplaceKeepsAbsent(s3, "+\t", "\t", '"');
  }

  /** Tabs and newlines are neither added nor removed, so rows and columns keep their shape. */
  lemma KeepsTabsAndNewlines(text: string, c: char)
    requires c == '\t' || c == '\n'
    ensures multiset(Cleanup(text))[c] == multiset(text)[c]
  {
    PatternsBalance(c);
    var s1 := StripEquals(text);
    ReplaceKeepsCount(text, "=", "", c);
    var s2 := MarkEmptyFields(s1);
    ReplaceKeepsCount(s1, EmptyField, "NaN,", c);
    var s3 := Replace(s2, "\"", "");
    ReplaceKeepsCount(s2, "\"", "", c);
    ReplaceKeepsCount(s3, "+\t", "\t", c);
    assert Cleanup(text) == Replace(s3, "+\t", "\t");
  }

  /** Each pattern holds a tab or a newline exactly as often as its replacement. */
  lemma PatternsBalance(c: char)
    requires c == '\t' || c == '\n'
    ensures multiset("=")[c] == multiset("")[c]
    ensures multiset(EmptyField)[c] == multiset("NaN,")[c]
    ensures multiset("\"")[c] == multiset("")[c]
    ensures multiset("+\t")[c] == multiset("\t")[c]
  {
    assert multiset("=")[c] == multiset("")[c] by {
      AbsentCountsZero("=", c);
      AbsentCountsZero("", c);
    }
    assert multiset(EmptyField)[c] == multiset("NaN,")[c] by {
      AbsentCountsZero(EmptyField, c);
      AbsentCountsZero("NaN,", c);
    }
    assert multiset("\"")[c] == multiset("")[c] by {
      AbsentCountsZero("\"", c);
      AbsentCountsZero("", c);
    }
    assert multiset("+\t")[c] == multiset("\t")[c] by {
      assert "+\t" == ['+'] + "\t";
      assert multiset(['+'] + "\t") == multiset(['+']) + multiset("\t");
    }
  }

  lemma AbsentCountsZero(s: string, c: char)
    requires c !in s
    ensures multiset(s)[c] == 0
  {
  }

  /** Cleanup never makes the text longer. */
  lemma NeverLonger(text: string)
    ensures |Cleanup(text)| <= |text|
  {
    var s1 := StripEquals(text);
    ReplaceNotLonger(text, "=", "");
    var s2 := MarkEmptyFields(s1);
    ReplaceNotLonger(s1, EmptyField, "NaN,");
    var s3 := Replace(s2, "\"", "");
    ReplaceNotLonger(s2, "\"", "");
    ReplaceNotLonger(s3, "+\t", "\t");
  }

  /**
   * Every empty quoted field of the `=`-stripped text becomes `NaN,` and
   * survives the later steps, because it is marked before quotes are
   * removed. The texts on either side are cleaned apart.
   */
  lemma EmptyFieldBecomesNaN(text: string, x: string, y: string)
    requires StripEquals(text) == x + EmptyField + y
    ensures Cleanup(text) == StripQuotesAndPlus(MarkEmptyFields(x)) + "NaN," + StripQuotesAndPlus(MarkEmptyFields(y))
  {
    var z := EmptyField + y;
    assert x + EmptyField + y == x + z;
    EmptyFieldNeverStraddles(x, y);
    ReplaceConcat(x, z, EmptyField, "NaN,");
    assert StartsWith(z, EmptyField) && z[|EmptyField|..] == y;
    KeepsNaNMark(MarkEmptyFields(x), MarkEmptyFields(y));
  }

  /**
   * No match of the pattern starts in `x` and runs into an empty field that
   * follows it: such a match would need a quote where the field has its comma.
   */
  lemma EmptyFieldNeverStraddles(x: string, y: string)
    ensures NoStraddle(x, EmptyField + y, EmptyField)
  {
    var z := EmptyField + y;
    forall k | 0 < k < |EmptyField|
      ensures !StartsWith(z, EmptyField[k..])
    {
      var j := |EmptyField| - 1 - k;
      assert z[j] == '"';
      assert EmptyField[k..][j] == ',';
    }
  }

  /** `StripQuotesAndPlus` works on each side of a `NaN,` apart and leaves it in place. */
  lemma KeepsNaNMark(x: string, r: string)
    ensures StripQuotesAndPlus(x + ("NaN," + r)) == StripQuotesAndPlus(x) + "NaN," + StripQuotesAndPlus(r)
  {
    var nan := "NaN,";
    ReplaceConcat(x, nan + r, "\"", "");
    ReplaceConcat(nan, r, "\"", "");
    ReplaceWithoutMatch(nan, "\"", "");
    var x', r' := Replace(x, "\"", ""), Replace(r, "\"", "");
    assert Replace(x + (nan + r), "\"", "") == x' + (nan + r');
    assert !StartsWith(nan + r', "\t");
    ReplaceConcat(x', nan + r', "+\t", "\t");
    assert !EndsWith(nan, "+");
    ReplaceConcat(nan, r', "+\t", "\t");
    ReplaceWithoutMatch(nan, "+\t", "\t");
  }
}
