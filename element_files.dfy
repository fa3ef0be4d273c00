/**
 * How the element viewer names its data: each saved line list is
 * `NIST/<number>-<symbol>-lines.npy`; the list of elements shown is the
 * `<number>-<symbol>` key cut out of each such path, and the file of the
 * selected element is found again by putting the key back into the pattern.
 */
module ElementFiles {
  import opened Wrappers
  import opened PyText

  /** `f.split('/')[1].split('.')[0]`, defined when `f` has a `/`. */
  function Stem(path: string): (stem: string)
    requires '/' in path
    ensures '/' !in stem && '.' !in stem
  {
    SplitHasSecondPart(path, '/');
    var name := Split(path, '/')[1];
    SplitKeepsAbsent(name, '.', '/');
    Split(name, '.')[0]
  }

  /**
   * Line 175, per file: the first two `-`-separated fields of the stem,
   * joined by `-`. `None` where an index is out of range (the comprehension
   * raises `IndexError`).
   */
  function ElementKey(path: string): (key: Option<string>)
    ensures key.None? <==> '/' !in path || '-' !in Stem(path)
    ensures key.Some? ==> '/' !in key.value && '.' !in key.value && multiset(key.value)['-'] == 1
  {
    SplitHasSecondPart(path, '/');
    if '/' !in path then None
    else
      var stem := Stem(path);
      var fields := Split(stem, '-');
      SplitHasSecondPart(stem, '-');
      if |fields| < 2 then None
      else
        SplitKeepsAbsent(stem, '-', '/');
        SplitKeepsAbsent(stem, '-', '.');
        Some(fields[0] + "-" + fields[1])
  }

  /** Line 195: `'NIST/' + element + '-lines.npy'`. */
  function ElementPath(key: string): (path: string)
    ensures StartsWith(path, "NIST/") && EndsWith(path, "-lines.npy")
    ensures |path| == |key| + 15
  {
    "NIST/" + key + "-lines.npy"
  }

  /** Line 175 over the whole glob: `None` when any file raises. */
  function ElementKeys(files: seq<string>): (keys: Option<seq<string>>)
    ensures keys.Some? <==> forall i :: 0 <= i < |files| ==> ElementKey(files[i]).Some?
    ensures keys.Some? ==>
      |keys.value| == |files| &&
      forall i :: 0 <= i < |files| ==> keys.value[i] == ElementKey(files[i]).value
  {
    if files == [] then Some([])
    else
      match (ElementKey(files[0]), ElementKeys(files[1..]))
      case (Some(k), Some(ks)) => Some([k] + ks)
      case _ => None
  }

  /** A name part as the program writes it: no `-`, `.` or `/`. */
  predicate PlainField(s: string)
  {
    '-' !in s && '.' !in s && '/' !in s
  }

  // ---------------------------------------------------------------------------
  // Properties

  /** The stem of `NIST/<a>-<e>-lines.npy` is `<a>-<e>-lines`. */
  lemma StemOfSavedFile(a: string, e: string)
    requires PlainField(a) && PlainField(e)
    ensures var path := "NIST/" + a + "-" + e + "-lines.npy";
      '/' in path && Stem(path) == a + "-" + e + "-lines"
  {
    var path := "NIST/" + a + "-" + e + "-lines.npy";
    var name := a + "-" + e + "-lines.npy";
    var stem := a + "-" + e + "-lines";
    assert path == "NIST" + ['/'] + name;
    assert '/' !in "NIST";
    SplitAtFirstSep("NIST", '/', name);
    SplitNoSep(name, '/');
    assert name == stem + ['.'] + "npy";
    SplitAtFirstSep(stem, '.', "npy");
  }

  /** The key cut out of `NIST/<a>-<e>-lines.npy` is `<a>-<e>`. */
  lemma KeyOfSavedFile(a: string, e: string)
    requires PlainField(a) && PlainField(e)
    ensures ElementKey("NIST/" + a + "-" + e + "-lines.npy") == Some(a + "-" + e)
  {
    StemOfSavedFile(a, e);
    var stem := a + "-" + e + "-lines";
    assert stem == a + ['-'] + (e + ['-'] + "lines");
    SplitAtFirstSep(a, '-', e + ['-'] + "lines");
    SplitAtFirstSep(e, '-', "lines");
  }

  /** Rebuilding the path from the key of a saved file gives the file back. */
  lemma PathRoundTrip(a: string, e: string)
    requires PlainField(a) && PlainField(e)
    ensures var path := "NIST/" + a + "-" + e + "-lines.npy";
      ElementKey(path).Some? && ElementPath(ElementKey(path).value) == path
  {
    KeyOfSavedFile(a, e);
  }

  /** Every key of the form `<a>-<e>` names a file whose key is itself. */
  lemma KeyRoundTrip(a: string, e: string)
    requires PlainField(a) && PlainField(e)
    ensures ElementKey(ElementPath(a + "-" + e)) == Some(a + "-" + e)
  {
    var key := a + "-" + e;
    assert "NIST/" + key + "-lines.npy" == "NIST/" + a + "-" + e + "-lines.npy";
    KeyOfSavedFile(a, e);
  }

  /** A file name without a `-` after the first `/` makes line 175 raise. */
  lemma NoDashRaises(dir: string, name: string)
    requires '/' !in dir && '-' !in name
    ensures ElementKey(dir + ['/'] + name).None?
  {
    SplitAtFirstSep(dir, '/', name);
    SplitKeepsAbsent(name, '/', '-');
    SplitKeepsAbsent(Split(name, '/')[0], '.', '-');
  }
}
