/**
 * The NIST scraper: for element `i` (atomic number `i + 1`, symbol
 * `Elements[i]`) it skips the element when `./NIST/<number>-<symbol>-lines.npy`
 * exists, and otherwise downloads the element's line list, cleans the text,
 * reads it as a tab-separated table and saves the table under that name when
 * the table has at least three columns and at least one finite intensity.
 * Every failure for one element is caught and the loop goes on with the next.
 *
 * The network request is the parameter `fetch` (from URL to page text, `None`
 * when the request raises), reading the table (`pd.read_csv`) is the
 * parameter `parse`, and the directory is the map `DataDir.files` from path
 * to saved table.
 */
module NistScraper {
  import opened Wrappers
  import opened PyText
  import opened Intensity
  import opened NistCleanup
  import ElementFiles

  /** Lines 11-24. */
  const Elements: seq<string> := [
    "H", "He", "Li", "Be", "B", "C", "N", "O", "F", "Ne",
    "Na", "Mg", "Al", "Si", "P", "S", "Cl", "Ar", "K", "Ca",
    "Sc", "Ti", "V", "Cr", "Mn", "Fe", "Co", "Ni", "Cu", "Zn",
    "Ga", "Ge", "As", "Se", "Br", "Kr", "Rb", "Sr", "Y", "Zr",
    "Nb", "Mo", "Tc", "Ru", "Rh", "Pd", "Ag", "Cd", "In", "Sn",
    "Sb", "Te", "I", "Xe", "Cs", "Ba", "La", "Ce", "Pr", "Nd",
    "Pm", "Sm", "Eu", "Gd", "Tb", "Dy", "Ho", "Er", "Tm", "Yb",
    "Lu", "Hf", "Ta", "W", "Re", "Os", "Ir", "Pt", "Au", "Hg",
    "Tl", "Pb", "Bi", "Po", "At", "Rn", "Fr", "Ra", "Ac", "Th",
    "Pa", "U", "Np", "Pu", "Am", "Cm", "Bk", "Cf", "Es", "Fm",
    "Md", "No", "Lr", "Rf", "Db", "Sg", "Bh", "Hs", "Mt", "Ds",
    "Rg", "Cn", "Nh", "Fl", "Mc", "Lv", "Ts", "Og"
  ]

  const DataPath: string := "./NIST/"

  /** Line 26: `list(np.arange(1, 119).astype(str))`. */
  function AtomicNumbers(): (nums: seq<string>)
    ensures |nums| == 118
    ensures forall i :: 0 <= i < 118 ==> AllDigits(nums[i]) && DigitsValue(nums[i]) == i + 1
  {
    seq(118, i requires 0 <= i < 118 => NatToString(i + 1))
  }

  /** Python's `zip`: pairs up to the end of the shorter list. */
  function Zip<A, B>(xs: seq<A>, ys: seq<B>): (ps: seq<(A, B)>)
    ensures |ps| == if |xs| <= |ys| then |xs| else |ys|
    ensures forall i :: 0 <= i < |ps| ==> ps[i] == (xs[i], ys[i])
  {
    if xs == [] || ys == [] then [] else [(xs[0], ys[0])] + Zip(xs[1..], ys[1..])
  }

  /** Line 34: every symbol with its atomic number, none left over. */
  function Pairs(): (ps: seq<(string, string)>)
    ensures |Elements| == 118 && |ps| == 118 && Numbered(ps)
    ensures forall i :: 0 <= i < |ps| ==> ps[i].1 == Elements[i]
  {
    ZipNumbered(AtomicNumbers(), Elements);
    Zip(AtomicNumbers(), Elements)
  }

  lemma ZipNumbered(nums: seq<string>, syms: seq<string>)
    requires |nums| <= |syms|
    requires forall i :: 0 <= i < |nums| ==> AllDigits(nums[i]) && DigitsValue(nums[i]) == i + 1
    ensures |Zip(nums, syms)| == |nums| && Numbered(Zip(nums, syms))
    ensures forall i :: 0 <= i < |nums| ==> Zip(nums, syms)[i].1 == syms[i]
  {
  }

  /**
   * Line 37: the file whose existence makes the scraper skip an element;
   * it is the name saved on line 62 with `.npy` appended.
   */
  function ExistsPath(a: string, e: string): (path: string)
    ensures path == SaveName(a, e) + ".npy"
    ensures StartsWith(path, DataPath) && EndsWith(path, "-lines.npy")
  {
    DataPath + a + "-" + e + "-lines.npy"
  }

  /** Line 62: the name handed to `np.save`; it does not end in `.npy`. */
  function SaveName(a: string, e: string): (name: string)
    ensures StartsWith(name, DataPath) && !EndsWith(name, ".npy")
  {
    assert (DataPath + a + "-" + e + "-lines")[|DataPath + a + "-" + e + "-lines"| - 1] == 's';
    DataPath + a + "-" + e + "-lines"
  }

  /** The file `np.save` writes: `.npy` is appended unless the name already ends with it. */
  function NpSaveTarget(name: string): (path: string)
    ensures EndsWith(path, ".npy")
    ensures StartsWith(path, name)
  {
    if EndsWith(name, ".npy") then name else name + ".npy"
  }

  /** Lines 40-45: the query URL for one element. */
  function Url(e: string): string
  {
    UrlHead + e + UrlTail
  }

  const UrlHead: string := "https://physics.nist.gov/cgi-bin/ASD/lines1.pl?spectra="

  const UrlTail: string :=
    "&output_type=0&low_w=&upp_w=&unit=1&submit=Retrieve+Data&de=0&plot_out=0&"
    + "I_scale_type=1&format=3&line_out=0&remove_js=on&no_spaces=on&en_unit=0&output=0&page_size=15"
    + "&show_obs_wl=1&show_calc_wl=1&unc_out=1&order_out=0&max_low_enrg=&show_av=3&max_upp_enrg=&tsb_value=0&"
    + "min_str=&A_out=0&intens_out=on&max_str=&allowed_out=1&forbid_out=1&min_accur=&min_intens=&"
    + "conf_out=on&term_out=on&enrg_out=on&J_out=on"

  /** What `pd.read_csv` yields that the scraper looks at: the number of columns and the `intens` column, if any. */
  datatype Frame = Frame(columnCount: nat, intens: Option<seq<Cell>>)

  /** Why one element failed; each is an exception caught at line 64. */
  datatype Reason =
    | RequestFailed        // `requests.get` raised
    | ParseFailed          // `pd.read_csv` raised
    | NotInDatabase        // fewer than three columns (line 55-56)
    | NoIntensColumn       // `df['intens']` raised `KeyError` (line 58)
    | BadIntensity         // `clean_element` raised `ValueError` (line 58)
    | NoIntensity          // no finite intensity (line 59-60)

  datatype Outcome = Skipped | Saved(frame: Frame) | Failed(reason: Reason)

  /** `len(clean_int[np.isfinite(clean_int)])`. */
  function CountFinite(xs: seq<Float>): (k: nat)
    ensures k <= |xs|
    ensures k > 0 <==> exists i :: 0 <= i < |xs| && xs[i].Num?
  {
    if xs == [] then 0
    else CountFinite(xs[..|xs| - 1]) + (if xs[|xs| - 1].Num? then 1 else 0)
  }

  /** The intensity of a cell is a finite number. */
  predicate FiniteCell(c: Cell)
  {
    CleanElement(c).Converted? && CleanElement(c).x.Num?
  }

  /** Lines 46-63 for one element that was not skipped. */
  function Judge(page: Option<string>, parse: string -> Option<Frame>): (o: Outcome)
    ensures o != Skipped
  {
    match page
    case None => Failed(RequestFailed)
    case Some(text) =>
      match parse(Cleanup(text))
      case None => Failed(ParseFailed)
      case Some(f) =>
        if f.columnCount < 3 then Failed(NotInDatabase)
        else
          match f.intens
          case None => Failed(NoIntensColumn)
          case Some(cells) =>
            match CleanColumn(cells)
            case None => Failed(BadIntensity)
            case Some(xs) => if CountFinite(xs) < 1 then Failed(NoIntensity) else Saved(f)
  }

  /**
   * Which failure each page meets, in the order the script checks, and that
   * a table is saved exactly when it has three columns, an `intens` column
   * that converts in full, and a finite intensity in it.
   */
  lemma JudgeCases(page: Option<string>, parse: string -> Option<Frame>)
    ensures Judge(page, parse) == Failed(RequestFailed) <==> page.None?
    ensures Judge(page, parse) == Failed(ParseFailed) <==> page.Some? && parse(Cleanup(page.value)).None?
    ensures Judge(page, parse) == Failed(NotInDatabase) <==>
      page.Some? && parse(Cleanup(page.value)).Some? && parse(Cleanup(page.value)).value.columnCount < 3
    ensures Judge(page, parse) == Failed(NoIntensColumn) <==>
      page.Some? && parse(Cleanup(page.value)).Some? && parse(Cleanup(page.value)).value.columnCount >= 3 &&
      parse(Cleanup(page.value)).value.intens.None?
    ensures Judge(page, parse).Saved? <==>
      page.Some? && parse(Cleanup(page.value)).Some? &&
      var f := parse(Cleanup(page.value)).value;
      f.columnCount >= 3 && f.intens.Some? &&
      (forall i :: 0 <= i < |f.intens.value| ==> CleanElement(f.intens.value[i]).Converted?) &&
      (exists i :: 0 <= i < |f.intens.value| && FiniteCell(f.intens.value[i]))
    ensures Judge(page, parse).Saved? ==> parse(Cleanup(page.value)) == Some(Judge(page, parse).frame)
  {
    if page.Some? && parse(Cleanup(page.value)).Some? {
      var f := parse(Cleanup(page.value)).value;
      if f.columnCount >= 3 && f.intens.Some? && CleanColumn(f.intens.value).Some? {
        var cells, xs := f.intens.value, CleanColumn(f.intens.value).value;
        assert forall i :: 0 <= i < |cells| ==> (FiniteCell(cells[i]) <==> xs[i].Num?);
      }
    }
  }

  /**
   * What the loop depends on besides the directory: the (number, symbol)
   * pairs walked, and `attempt`, the outcome of requesting and judging the
   * page of a symbol (lines 40-63).
   */
  datatype Env = Env(pairs: seq<(string, string)>, attempt: string -> Outcome)

  /** The script's attempt: fetch the symbol's URL and judge the page; it never reports a skip. */
  function Attempt(fetch: string -> Option<string>, parse: string -> Option<Frame>): (attempt: string -> Outcome)
    ensures forall e :: attempt(e) == Judge(fetch(Url(e)), parse) && attempt(e) != Skipped
  {
    e => Judge(fetch(Url(e)), parse)
  }

  /** A page that is fetched is never reported as skipped. */
  ghost predicate NeverSkips(env: Env)
  {
    forall e :: env.attempt(e) != Skipped
  }

  /** The number of pair `i` is the decimal text of `i + 1`, as `Pairs()` gives. */
  ghost predicate Numbered(pairs: seq<(string, string)>)
  {
    forall i :: 0 <= i < |pairs| ==> AllDigits(pairs[i].0) && DigitsValue(pairs[i].0) == i + 1
  }

  /** The path checked and written for pair `i`. */
  function PathOf(env: Env, i: nat): string
    requires i < |env.pairs|
  {
    ExistsPath(env.pairs[i].0, env.pairs[i].1)
  }

  /** The scraper's state after the first `n` elements; `requested` lists the symbols whose page was fetched. */
  datatype Progress = Progress(files: map<string, Frame>, outcomes: seq<Outcome>, requested: seq<string>)

  /**
   * The outcome for pair `i` with the directory holding `files`: lines
   * 37-39, else lines 40-63. With an attempt that never skips, the element
   * is skipped exactly when its file exists.
   */
  function Decide(env: Env, files: map<string, Frame>, i: nat): (o: Outcome)
    requires i < |env.pairs|
    ensures PathOf(env, i) in files ==> o == Skipped
    ensures NeverSkips(env) ==> (o == Skipped <==> PathOf(env, i) in files)
  {
    if PathOf(env, i) in files then Skipped else env.attempt(env.pairs[i].1)
  }

  /**
   * One pass of the loop body, lines 35-66. A saved table goes to the path
   * checked on line 37, which is where `np.save` writes it
   * (`SaveTargetIsCheckedPath`). An existing file stops both the request
   * and the write; the outcome is appended.
   */
  function Step(env: Env, p: Progress, i: nat): (q: Progress)
    requires i < |env.pairs|
    ensures q.outcomes == p.outcomes + [Decide(env, p.files, i)]
    ensures PathOf(env, i) in p.files ==> q.files == p.files && q.requested == p.requested
  {
    var o := Decide(env, p.files, i);
    var files := if o.Saved? then p.files[PathOf(env, i) := o.frame] else p.files;
    Progress(files, p.outcomes + [o], if PathOf(env, i) in p.files then p.requested else p.requested + [env.pairs[i].1])
  }

  /** The state after the first `n` elements, starting from the directory `initial`. */
  function Run(env: Env, initial: map<string, Frame>, n: nat): (p: Progress)
    requires n <= |env.pairs|
    ensures |p.outcomes| == n && |p.requested| <= n
  {
    if n == 0 then Progress(initial, [], [])
    else Step(env, Run(env, initial, n - 1), n - 1)
  }

  /** The `NIST/` directory: saved tables by path. */
  class DataDir {
    var files: map<string, Frame>

    constructor(files0: map<string, Frame>)
      ensures files == files0
    {
      files := files0;
    }
  }

  /** Lines 34-66 over the given pairs: the outcome of every element and the URLs requested. */
  method ScrapeAll(dir: DataDir, pairs: seq<(string, string)>, fetch: string -> Option<string>, parse: string -> Option<Frame>)
    returns (outcomes: seq<Outcome>, urls: seq<string>)
    modifies dir
    ensures var run := Run(Env(pairs, Attempt(fetch, parse)), old(dir.files), |pairs|);
      dir.files == run.files && outcomes == run.outcomes &&
      |urls| == |run.requested| && forall k :: 0 <= k < |urls| ==> urls[k] == Url(run.requested[k])
  {
    ghost var env := Env(pairs, Attempt(fetch, parse));
    ghost var symbols := [];
    outcomes, urls := [], [];
    for i := 0 to |pairs|
      invariant Progress(dir.files, outcomes, symbols) == Run(env, old(dir.files), i)
      invariant |urls| == |symbols| && forall k :: 0 <= k < |urls| ==> urls[k] == Url(symbols[k])
    {
      ghost var before := Progress(dir.files, outcomes, symbols);
      var (a, e) := pairs[i];
      if ExistsPath(a, e) in dir.files {
        outcomes := outcomes + [Skipped];
        assert Progress(dir.files, outcomes, symbols) == Step(env, before, i);
        continue;
      }
      var url := Url(e);
      var page := fetch(url);
      urls, symbols := urls + [url], symbols + [e];
      var o := Judge(page, parse);
      assert o == env.attempt(e) == Decide(env, before.files, i);
      if o.Saved? {
        SaveTargetIsCheckedPath(a, e);
        dir.files := dir.files[NpSaveTarget(SaveName(a, e)) := o.frame];
      }
      outcomes := outcomes + [o];
      assert Progress(dir.files, outcomes, symbols) == Step(env, before, i);
    }
  }

  /** The script itself: every element in periodic table order, numbered from 1. */
  method ScrapeNist(dir: DataDir, fetch: string -> Option<string>, parse: string -> Option<Frame>)
    returns (outcomes: seq<Outcome>, urls: seq<string>)
    modifies dir
    ensures |outcomes| == 118
    ensures var run := Run(Env(Pairs(), Attempt(fetch, parse)), old(dir.files), 118);
      dir.files == run.files && outcomes == run.outcomes &&
      |urls| == |run.requested| && forall k :: 0 <= k < |urls| ==> urls[k] == Url(run.requested[k])
  {
    outcomes, urls := ScrapeAll(dir, Pairs(), fetch, parse);
  }

  // ---------------------------------------------------------------------------
  // Properties

  /** `np.save` writes exactly the file whose existence is checked on line 37. */
  lemma SaveTargetIsCheckedPath(a: string, e: string)
    ensures NpSaveTarget(SaveName(a, e)) == ExistsPath(a, e)
  {
    var name := SaveName(a, e);
    assert name[|name| - 1] == 's' && ".npy"[3] == 'y';
    assert |name| >= 4 ==> name[|name| - 4..][3] == name[|name| - 1];
  }

  /** The scraper saves where the element viewer looks: `./` before the viewer's path of `<a>-<e>`. */
  lemma SavedWhereViewerLooks(a: string, e: string)
    requires ElementFiles.PlainField(a) && ElementFiles.PlainField(e)
    ensures ExistsPath(a, e) == "./" + ElementFiles.ElementPath(a + "-" + e)
    ensures ElementFiles.ElementKey(ExistsPath(a, e)[2..]) == Some(a + "-" + e)
  {
    var path := "NIST/" + a + "-" + e + "-lines.npy";
    ViewerPathPrefixed(a, e);
    assert ("./" + path)[2..] == path;
    ElementFiles.KeyOfSavedFile(a, e);
  }

  lemma ViewerPathPrefixed(a: string, e: string)
    ensures ExistsPath(a, e) == "./" + ("NIST/" + a + "-" + e + "-lines.npy")
    ensures ExistsPath(a, e) == "./" + ElementFiles.ElementPath(a + "-" + e)
  {
  }

  /** No two elements share a path: the atomic number before the first `-` tells them apart. */
  lemma PathsDistinct(env: Env, i: nat, j: nat)
    requires Numbered(env.pairs) && i < |env.pairs| && j < |env.pairs| && i != j
    ensures PathOf(env, i) != PathOf(env, j)
  {
    var a, b := env.pairs[i].0, env.pairs[j].0;
    var u, v := a + ['-'] + (env.pairs[i].1 + "-lines.npy"), b + ['-'] + (env.pairs[j].1 + "-lines.npy");
    assert PathOf(env, i) == DataPath + u && PathOf(env, j) == DataPath + v;
    NoDashInDigits(a);
    NoDashInDigits(b);
    SplitAtFirstSep(a, '-', env.pairs[i].1 + "-lines.npy");
    SplitAtFirstSep(b, '-', env.pairs[j].1 + "-lines.npy");
    assert a != b;
    assert Split(u, '-')[0] == a && Split(v, '-')[0] == b;
    assert u != v;
    assert (DataPath + u)[|DataPath|..] == u && (DataPath + v)[|DataPath|..] == v;
  }

  lemma NoDashInDigits(s: string)
    requires AllDigits(s)
    ensures '-' !in s
  {
    forall k | 0 <= k < |s|
      ensures s[k] != '-'
    {
      assert IsDigit(s[k]);
    }
  }

  /** The outcomes of the first `m` elements are fixed once they are decided. */
  lemma {:induction false} OutcomesStay(env: Env, initial: map<string, Frame>, m: nat, n: nat)
    requires m <= n <= |env.pairs|
    ensures Run(env, initial, n).outcomes[..m] == Run(env, initial, m).outcomes
  {
    if m < n {
      OutcomesStay(env, initial, m, n - 1);
      var before := Run(env, initial, n - 1).outcomes;
      assert Run(env, initial, n).outcomes[..n - 1] == before;
      assert Run(env, initial, n).outcomes[..m] == before[..m];
    }
  }

  /** Before element `k` is reached, its file is there exactly when it was there at the start. */
  lemma {:induction false} NotYetWritten(env: Env, initial: map<string, Frame>, n: nat, k: nat)
    requires Numbered(env.pairs) && n <= k < |env.pairs|
    ensures PathOf(env, k) in Run(env, initial, n).files <==> PathOf(env, k) in initial
  {
    if n > 0 {
      NotYetWritten(env, initial, n - 1, k);
      PathsDistinct(env, n - 1, k);
      StepFiles(env, Run(env, initial, n - 1), n - 1);
    }
  }

  /** An existing file is never overwritten or removed. */
  lemma {:induction false} NeverOverwrites(env: Env, initial: map<string, Frame>, n: nat, path: string)
    requires n <= |env.pairs| && path in initial
    ensures path in Run(env, initial, n).files
    ensures Run(env, initial, n).files[path] == initial[path]
  {
    if n > 0 {
      NeverOverwrites(env, initial, n - 1, path);
      var p := Run(env, initial, n - 1);
      StepFiles(env, p, n - 1);
      if path != PathOf(env, n - 1) {
        StepKeeps(env, p, n - 1, path);
      }
    }
  }

  /**
   * An element is skipped exactly when its file existed at the start;
   * otherwise its outcome is the judgement of the page fetched for it.
   */
  lemma SkippedIffPresent(env: Env, initial: map<string, Frame>, n: nat, i: nat)
    requires Numbered(env.pairs) && NeverSkips(env) && i < n <= |env.pairs|
    ensures Run(env, initial, n).outcomes[i] == Skipped <==> PathOf(env, i) in initial
    ensures PathOf(env, i) !in initial ==> Run(env, initial, n).outcomes[i] == env.attempt(env.pairs[i].1)
  {
    NotYetWritten(env, initial, i, i);
    OutcomesStay(env, initial, i + 1, n);
    assert Run(env, initial, n).outcomes[i] == Run(env, initial, n).outcomes[..i + 1][i];
  }

  /** The paths of the first `n` elements that were saved. */
  function SavedPaths(env: Env, outcomes: seq<Outcome>, n: nat): set<string>
    requires n <= |outcomes| && n <= |env.pairs|
  {
    if n == 0 then {}
    else SavedPaths(env, outcomes, n - 1) + (if outcomes[n - 1].Saved? then {PathOf(env, n - 1)} else {})
  }

  /** A path is among the saved ones exactly when some saved element has it. */
  lemma {:induction false} SavedPathsMembers(env: Env, outcomes: seq<Outcome>, n: nat, path: string)
    requires n <= |outcomes| && n <= |env.pairs|
    ensures path in SavedPaths(env, outcomes, n) <==>
      exists i :: 0 <= i < n && outcomes[i].Saved? && path == PathOf(env, i)
  {
    if n > 0 {
      SavedPathsMembers(env, outcomes, n - 1, path);
      if outcomes[n - 1].Saved? && path == PathOf(env, n - 1) {
        assert 0 <= n - 1 < n && outcomes[n - 1].Saved? && path == PathOf(env, n - 1);
      }
    }
  }

  lemma {:induction false} SavedPathsPrefix(env: Env, outcomes: seq<Outcome>, front: seq<Outcome>, n: nat)
    requires n <= |front| && n <= |outcomes| && n <= |env.pairs|
    requires outcomes[..n] == front[..n]
    ensures SavedPaths(env, outcomes, n) == SavedPaths(env, front, n)
  {
    if n > 0 {
      assert outcomes[..n - 1] == front[..n - 1];
      assert outcomes[n - 1] == outcomes[..n][n - 1] == front[..n][n - 1] == front[n - 1];
      SavedPathsPrefix(env, outcomes, front, n - 1);
    }
  }

  /** The files at the end: those at the start, plus the file of every saved element. */
  lemma {:induction false} FinalFiles(env: Env, initial: map<string, Frame>, n: nat)
    requires n <= |env.pairs|
    ensures Run(env, initial, n).files.Keys == initial.Keys + SavedPaths(env, Run(env, initial, n).outcomes, n)
  {
    if n > 0 {
      var p, q := Run(env, initial, n - 1), Run(env, initial, n);
      assert q == Step(env, p, n - 1);
      StepFiles(env, p, n - 1);
      FinalFiles(env, initial, n - 1);
      assert q.outcomes[..n - 1] == p.outcomes[..n - 1];
      SavedPathsPrefix(env, q.outcomes, p.outcomes, n - 1);
    }
  }

  /** One step adds the element's file when, and only when, it saves it. */
  lemma StepFiles(env: Env, p: Progress, i: nat)
    requires i < |env.pairs|
    ensures Step(env, p, i).outcomes == p.outcomes + [Decide(env, p.files, i)]
    ensures Step(env, p, i).files.Keys ==
      p.files.Keys + (if Decide(env, p.files, i).Saved? then {PathOf(env, i)} else {})
    ensures Decide(env, p.files, i).Saved? ==> Step(env, p, i).files[PathOf(env, i)] == Decide(env, p.files, i).frame
    ensures Step(env, p, i).requested == p.requested + (if PathOf(env, i) in p.files then [] else [env.pairs[i].1])
  {
  }

  /** One step leaves every other file as it was. */
  lemma StepKeeps(env: Env, p: Progress, i: nat, path: string)
    requires i < |env.pairs| && path in p.files && path != PathOf(env, i)
    ensures path in Step(env, p, i).files && Step(env, p, i).files[path] == p.files[path]
  {
  }

  /** A saved element's file holds the table read for it, and later elements leave it alone. */
  lemma {:induction false} SavedTableKept(env: Env, initial: map<string, Frame>, n: nat, i: nat)
    requires Numbered(env.pairs) && i < n <= |env.pairs|
    requires Run(env, initial, n).outcomes[i].Saved?
    ensures PathOf(env, i) in Run(env, initial, n).files
    ensures Run(env, initial, n).files[PathOf(env, i)] == Run(env, initial, n).outcomes[i].frame
  {
    var p, q := Run(env, initial, n - 1), Run(env, initial, n);
    assert q == Step(env, p, n - 1);
    if i < n - 1 {
      assert q.outcomes[i] == p.outcomes[i] by {
        StepFiles(env, p, n - 1);
      }
      SavedTableKept(env, initial, n - 1, i);
      assert PathOf(env, i) != PathOf(env, n - 1) by {
        PathsDistinct(env, i, n - 1);
      }
      StepKeeps(env, p, n - 1, PathOf(env, i));
    } else {
      StepFiles(env, p, n - 1);
      var d := Decide(env, p.files, n - 1);
      assert q.outcomes == p.outcomes + [d];
      assert q.outcomes[i] == d;
    }
  }

  /** The symbols of the first `n` elements whose file was missing at the start, in order. */
  function Missing(env: Env, initial: map<string, Frame>, n: nat): seq<string>
    requires n <= |env.pairs|
  {
    if n == 0 then []
    else Missing(env, initial, n - 1) + (if PathOf(env, n - 1) in initial then [] else [env.pairs[n - 1].1])
  }

  /** A page is requested for every element whose file was missing at the start, in element order, and for no other. */
  lemma {:induction false} RequestsInOrder(env: Env, initial: map<string, Frame>, n: nat)
    requires Numbered(env.pairs) && n <= |env.pairs|
    ensures Run(env, initial, n).requested == Missing(env, initial, n)
  {
    if n > 0 {
      var p := Run(env, initial, n - 1);
      var extra := if PathOf(env, n - 1) in initial then [] else [env.pairs[n - 1].1];
      assert Run(env, initial, n).requested == p.requested + extra by {
        assert Run(env, initial, n) == Step(env, p, n - 1);
        StepFiles(env, p, n - 1);
        NotYetWritten(env, initial, n - 1, n - 1);
      }
      assert Missing(env, initial, n) == Missing(env, initial, n - 1) + extra;
      RequestsInOrder(env, initial, n - 1);
    }
  }

  /** The script's attempts are never reported as skips. */
  lemma AttemptNeverSkips(pairs: seq<(string, string)>, fetch: string -> Option<string>, parse: string -> Option<Frame>)
    ensures NeverSkips(Env(pairs, Attempt(fetch, parse)))
  {
    forall e
      ensures Attempt(fetch, parse)(e) != Skipped
    {
      assert Attempt(fetch, parse)(e) == Judge(fetch(Url(e)), parse);
    }
  }

  /** A page whose `intens` column holds a cell `float()` rejects makes the element fail. */
  lemma RejectedCellFails(page: string, parse: string -> Option<Frame>, cells: seq<Cell>, k: nat)
    requires parse(Cleanup(page)).Some? && parse(Cleanup(page)).value.columnCount >= 3
    requires parse(Cleanup(page)).value.intens == Some(cells)
    requires k < |cells| && CleanElement(cells[k]).ValueError?
    ensures Judge(Some(page), parse) == Failed(BadIntensity)
  {
    assert !CleanElement(cells[k]).Converted?;
  }

  /** A text the number pattern matches whole is its own match. */
  lemma WholeMatch(s: string)
    requires Matches(s)
    ensures MatchPrefix(s) == Some(s)
  {
    assert s[..|s|] == s;
  }

  /** `1.2.3` matches the number pattern but is not a float, so `clean_element` raises. */
  lemma TwoPointsRaise()
    ensures CleanElement(Text("1.2.3")) == ValueError
  {
    RejectedPrefixes();
    WholeMatch("1.2.3");
  }
}
