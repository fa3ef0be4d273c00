/**
 * `FILTER_DATA` of the filter viewer: every filter file found is loaded
 * and stored under its name, the part of the file's base name before the
 * first `.`. Python dictionaries remember insertion order, and a second
 * file with the same name replaces the table but keeps the first position.
 *
 * Loading a file (`np.genfromtxt`) is the parameter `load`.
 */
module FilterData {
  import opened PyText

  /** One row of a filter file: wavelength in nm and throughput. */
  datatype Row = Row(wavelength: real, throughput: real)

  /**
   * The rows of a filter file. A file of one row is the one-row table here;
   * `np.genfromtxt` reads it as a flat pair, which the viewer cannot draw.
   */
  type Table = seq<Row>

  /** An insertion-ordered dictionary from filter names to tables. */
  datatype Dict = Dict(keys: seq<string>, values: map<string, Table>)

  /** The keys are listed once each, in some order, and are exactly the stored names. */
  ghost predicate DictValid(d: Dict)
  {
    (forall i, j :: 0 <= i < j < |d.keys| ==> d.keys[i] != d.keys[j]) &&
    (forall k :: k in d.values <==> k in d.keys)
  }

  /** `d[k] = v` on a Python dictionary. */
  function Insert(d: Dict, k: string, v: Table): Dict
  {
    Dict(if k in d.values then d.keys else d.keys + [k], d.values[k := v])
  }

  /**
   * `d[k] = v` maps `k` to `v` and leaves every other key's value alone; the
   * keys keep their order, and `k` is added at the end only when it is new.
   */
  lemma InsertAssigns(d: Dict, k: string, v: Table)
    ensures Insert(d, k, v).values.Keys == d.values.Keys + {k} && Insert(d, k, v).values[k] == v
    ensures forall j :: j in d.values && j != k ==> Insert(d, k, v).values[j] == d.values[j]
    ensures k in d.values ==> Insert(d, k, v).keys == d.keys
    ensures k !in d.values ==> Insert(d, k, v).keys == d.keys + [k]
  {
  }

  /** Inserting keeps the keys listed once each and in step with the stored names. */
  lemma InsertKeepsValid(d: Dict, k: string, v: Table)
    requires DictValid(d)
    ensures DictValid(Insert(d, k, v))
    ensures k in Insert(d, k, v).keys && |Insert(d, k, v).keys| <= |d.keys| + 1
  {
  }

  /** `f.split('/')[-1]`. */
  function BaseName(path: string): (base: string)
    ensures '/' !in base
  {
    var parts := Split(path, '/');
    parts[|parts| - 1]
  }

  /** `f.split('/')[-1].split('.')[0]`. */
  function FilterName(path: string): (name: string)
    ensures '/' !in name && '.' !in name
  {
    var base := BaseName(path);
    SplitKeepsAbsent(base, '.', '/');
    Split(base, '.')[0]
  }

  /** The dictionary after inserting the first `n` (name, table) pairs, in order. */
  function DictOf(names: seq<string>, tables: seq<Table>, n: nat): Dict
    requires n <= |names| && n <= |tables|
  {
    if n == 0 then Dict([], map[])
    else Insert(DictOf(names, tables, n - 1), names[n - 1], tables[n - 1])
  }

  /** The filter name of every file, in glob order. */
  function Names(files: seq<string>): (names: seq<string>)
    ensures |names| == |files| && forall i :: 0 <= i < |files| ==> names[i] == FilterName(files[i])
  {
    seq(|files|, i requires 0 <= i < |files| => FilterName(files[i]))
  }

  /** The table loaded from every file, in glob order. */
  function Tables(files: seq<string>, load: string -> Table): (tables: seq<Table>)
    ensures |tables| == |files| && forall i :: 0 <= i < |files| ==> tables[i] == load(files[i])
  {
    seq(|files|, i requires 0 <= i < |files| => load(files[i]))
  }

  /** Lines 17-21. */
  method BuildFilterData(files: seq<string>, load: string -> Table) returns (data: Dict)
    ensures data == DictOf(Names(files), Tables(files, load), |files|)
    ensures DictValid(data)
  {
    ghost var names, tables := Names(files), Tables(files, load);
    data := Dict([], map[]);
    var i := 0;
    while i < |files|
      invariant 0 <= i <= |files|
      invariant data == DictOf(names, tables, i)
      invariant DictValid(data)
    {
      var f := files[i];
      var tmp := load(f);
      var name := FilterName(f);
      assert name == names[i] && tmp == tables[i];
      DictOfStep(names, tables, i);
      data := Insert(data, name, tmp);
      i := i + 1;
    }
  }

  /** One more insertion extends the dictionary and keeps it valid. */
  lemma DictOfStep(names: seq<string>, tables: seq<Table>, i: nat)
    requires i < |names| && i < |tables| && DictValid(DictOf(names, tables, i))
    ensures DictOf(names, tables, i + 1) == Insert(DictOf(names, tables, i), names[i], tables[i])
    ensures DictValid(DictOf(names, tables, i + 1))
  {
    InsertKeepsValid(DictOf(names, tables, i), names[i], tables[i]);
  }

  // ---------------------------------------------------------------------------
  // Properties

  /** The filter name of `<dir>/<name>.<ext>` is `<name>`, whatever the directories. */
  lemma FilterNameOfPath(dir: string, name: string, ext: string)
    requires '/' !in name && '.' !in name && '/' !in ext
    ensures FilterName(dir + ['/'] + name + ['.'] + ext) == name
  {
    var rest := name + ['.'] + ext;
    assert dir + ['/'] + name + ['.'] + ext == dir + ['/'] + rest;
    SplitConcat(dir, '/', rest);
    SplitNoSep(rest, '/');
    SplitAtFirstSep(name, '.', ext);
  }

  /** The names stored are exactly the names inserted. */
  lemma {:induction false} KeysAreFileNames(names: seq<string>, tables: seq<Table>, n: nat, k: string)
    requires n <= |names| && n <= |tables|
    ensures k in DictOf(names, tables, n).values <==> exists i :: 0 <= i < n && names[i] == k
  {
    if n > 0 {
      KeysAreFileNames(names, tables, n - 1, k);
      if names[n - 1] == k {
        assert 0 <= n - 1 < n && names[n - 1] == k;
      } else {
        assert (exists i :: 0 <= i < n && names[i] == k) == (exists i :: 0 <= i < n - 1 && names[i] == k);
      }
    }
  }

  /** The table stored under a name is the one inserted last under it. */
  lemma {:induction false} LastFileWins(names: seq<string>, tables: seq<Table>, n: nat, i: nat)
    requires i < n <= |names| && n <= |tables|
    requires forall j :: i < j < n ==> names[j] != names[i]
    ensures names[i] in DictOf(names, tables, n).values
    ensures DictOf(names, tables, n).values[names[i]] == tables[i]
  {
    if n - 1 > i {
      LastFileWins(names, tables, n - 1, i);
    }
  }

  /** There are never more filters than files. */
  lemma {:induction false} NoMoreKeysThanFiles(names: seq<string>, tables: seq<Table>, n: nat)
    requires n <= |names| && n <= |tables|
    ensures |DictOf(names, tables, n).keys| <= n
  {
    if n > 0 {
      NoMoreKeysThanFiles(names, tables, n - 1);
    }
  }

  /** A name keeps the position it was first inserted at. */
  lemma {:induction false} FirstPositionKept(names: seq<string>, tables: seq<Table>, m: nat, n: nat, p: nat)
    requires m <= n <= |names| && n <= |tables|
    requires p < |DictOf(names, tables, m).keys|
    ensures p < |DictOf(names, tables, n).keys|
    ensures DictOf(names, tables, n).keys[p] == DictOf(names, tables, m).keys[p]
  {
    if n > m {
      FirstPositionKept(names, tables, m, n - 1, p);
    }
  }

  /** Every file's filter is shown with the table of the last file of that name. */
  lemma FilterOfEveryFile(files: seq<string>, load: string -> Table, i: nat)
    requires i < |files|
    requires forall j :: i < j < |files| ==> FilterName(files[j]) != FilterName(files[i])
    ensures var data := DictOf(Names(files), Tables(files, load), |files|);
      FilterName(files[i]) in data.values && data.values[FilterName(files[i])] == load(files[i])
  {
    LastFileWins(Names(files), Tables(files, load), |files|, i);
  }
}
