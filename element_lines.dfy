/**
 * Line selection in the element viewer's `update_plot`: keep the rows whose
 * wavelength and cleaned intensity are finite and whose wavelength lies
 * strictly between 380 and 750 nm; divide the kept intensities by their
 * maximum; keep only the rows whose normalised intensity exceeds 0.01.
 */
module ElementLines {
  import opened Wrappers
  import opened Intensity

  /** `np.isfinite(w) & np.isfinite(a) & (w > 380) & (w < 750)`. */
  predicate Keep(w: Float, a: Float)
  {
    w.Num? && a.Num? && 380.0 < w.v < 750.0
  }

  /** The rows below `n` that pass `Keep`, in table order. */
  function KeptRows(wavs: seq<Float>, amps: seq<Float>, n: nat): (rows: seq<nat>)
    requires |wavs| == |amps| && n <= |wavs|
    ensures forall k :: 0 <= k < |rows| ==> rows[k] < n
    ensures forall k, l :: 0 <= k < l < |rows| ==> rows[k] < rows[l]
    ensures forall i :: 0 <= i < n ==> (i in rows <==> Keep(wavs[i], amps[i]))
  {
    if n == 0 then []
    else KeptRows(wavs, amps, n - 1) + (if Keep(wavs[n - 1], amps[n - 1]) then [n - 1] else [])
  }

  /** `np.max` of a non-empty array of finite values. */
  function Max(xs: seq<real>): (m: real)
    requires |xs| > 0
    ensures m in xs
    ensures forall i :: 0 <= i < |xs| ==> xs[i] <= m
  {
    if |xs| == 1 then xs[0]
    else
      var m := Max(xs[1..]);
      assert xs == [xs[0]] + xs[1..];
      if xs[0] > m then xs[0] else m
  }

  /**
   * IEEE division of finite numbers: a finite quotient exactly when the
   * divisor is non-zero; by zero, NaN for a zero dividend and otherwise an
   * infinity of the dividend's sign.
   */
  function Divide(a: real, m: real): (q: Float)
    ensures q.Num? <==> m != 0.0
    ensures q.Num? ==> q.v * m == a
    ensures q == NaN <==> m == 0.0 && a == 0.0
    ensures q == PosInf <==> m == 0.0 && a > 0.0
    ensures q == NegInf <==> m == 0.0 && a < 0.0
  {
    if m != 0.0 then Num(a / m)
    else if a == 0.0 then NaN
    else if a > 0.0 then PosInf
    else NegInf
  }

  /** `x > 0.01` on a numpy float: false for NaN, true for +inf. */
  predicate Exceeds(x: Float, bound: real)
  {
    match x
    case Num(v) => v > bound
    case NaN => false
    case PosInf => true
    case NegInf => false
  }

  /** The finite intensity of row `i` (only asked of kept rows). */
  function AmpAt(amps: seq<Float>, i: nat): real
    requires i < |amps| && amps[i].Num?
  {
    amps[i].v
  }

  ghost predicate AllKept(wavs: seq<Float>, amps: seq<Float>, rows: seq<nat>)
  {
    forall k :: 0 <= k < |rows| ==> rows[k] < |wavs| && rows[k] < |amps| && Keep(wavs[rows[k]], amps[rows[k]])
  }

  /** The intensities of the given kept rows, in order: `_amps2[keep]`. */
  function Gather(wavs: seq<Float>, amps: seq<Float>, rows: seq<nat>): (xs: seq<real>)
    requires AllKept(wavs, amps, rows)
    ensures |xs| == |rows|
    ensures forall k :: 0 <= k < |rows| ==> xs[k] == amps[rows[k]].v
  {
    if rows == [] then [] else [AmpAt(amps, rows[0])] + Gather(wavs, amps, rows[1..])
  }

  /** The kept rows (from the first `n`) whose normalised intensity exceeds 0.01. */
  function StrongRows(wavs: seq<Float>, amps: seq<Float>, kept: seq<nat>, m: real, n: nat): (rows: seq<nat>)
    requires AllKept(wavs, amps, kept) && n <= |kept|
    ensures forall k :: 0 <= k < |rows| ==> rows[k] in kept[..n]
    ensures forall k :: 0 <= k < |rows| ==> Exceeds(Divide(AmpAt(amps, rows[k]), m), 0.01)
    ensures forall j :: 0 <= j < n && Exceeds(Divide(AmpAt(amps, kept[j]), m), 0.01) ==> kept[j] in rows
    ensures (forall k, l :: 0 <= k < l < |kept| ==> kept[k] < kept[l]) ==>
              forall k, l :: 0 <= k < l < |rows| ==> rows[k] < rows[l]
  {
    if n == 0 then []
    else
      var rest := StrongRows(wavs, amps, kept, m, n - 1);
      assert kept[..n] == kept[..n - 1] + [kept[n - 1]];
      if Exceeds(Divide(AmpAt(amps, kept[n - 1]), m), 0.01) then rest + [kept[n - 1]] else rest
  }

  /** The selected lines: table rows, wavelengths and normalised intensities, in parallel. */
  datatype Selection = Selection(rows: seq<nat>, wavs: seq<real>, amps: seq<real>)

  /**
   * Lines 200-207 of the element viewer: `None` where `np.max` of the empty
   * kept array raises.
   */
  function SelectLines(wavs: seq<Float>, amps: seq<Float>): (r: Option<Selection>)
    requires |wavs| == |amps|
    ensures r.None? <==> forall i :: 0 <= i < |wavs| ==> !Keep(wavs[i], amps[i])
    ensures r.Some? <==> KeptRows(wavs, amps, |wavs|) != []
    ensures r.Some? ==> |r.value.wavs| == |r.value.rows| && |r.value.amps| == |r.value.rows|
  {
    var kept := KeptRows(wavs, amps, |wavs|);
    if kept == [] then None
    else
      var m := Max(Gather(wavs, amps, kept));
      var rows := StrongRows(wavs, amps, kept, m, |kept|);
      MaxNonZeroWhenSomethingExceeds(wavs, amps, kept);
      Some(Selection(rows, Wavelengths(wavs, amps, rows), Normalised(wavs, amps, rows, m)))
  }

  function Wavelengths(wavs: seq<Float>, amps: seq<Float>, rows: seq<nat>): (ws: seq<real>)
    requires AllKept(wavs, amps, rows)
    ensures |ws| == |rows| && forall k :: 0 <= k < |rows| ==> ws[k] == wavs[rows[k]].v
  {
    if rows == [] then [] else [wavs[rows[0]].v] + Wavelengths(wavs, amps, rows[1..])
  }

  function Normalised(wavs: seq<Float>, amps: seq<Float>, rows: seq<nat>, m: real): (ys: seq<real>)
    requires AllKept(wavs, amps, rows) && (rows != [] ==> m != 0.0)
    ensures |ys| == |rows| && forall k :: 0 <= k < |rows| ==> ys[k] == amps[rows[k]].v / m
  {
    if rows == [] then [] else [amps[rows[0]].v / m] + Normalised(wavs, amps, rows[1..], m)
  }

  /** A kept intensity over a zero maximum never exceeds the threshold. */
  lemma MaxNonZeroWhenSomethingExceeds(wavs: seq<Float>, amps: seq<Float>, kept: seq<nat>)
    requires |wavs| == |amps| && AllKept(wavs, amps, kept) && |kept| > 0
    ensures var m := Max(Gather(wavs, amps, kept));
      var rows := StrongRows(wavs, amps, kept, m, |kept|);
      (rows != [] ==> m != 0.0) && AllKept(wavs, amps, rows)
  {
    var m := Max(Gather(wavs, amps, kept));
    var rows := StrongRows(wavs, amps, kept, m, |kept|);
    assert kept[..|kept|] == kept;
    if rows != [] {
      var xs := Gather(wavs, amps, kept);
      var j :| 0 <= j < |kept| && kept[j] == rows[0];
      assert xs[j] <= m;
    }
  }

  // ---------------------------------------------------------------------------
  // Properties

  /** The maximum of the kept intensities (defined when something is kept). */
  function KeptMax(wavs: seq<Float>, amps: seq<Float>): real
    requires |wavs| == |amps| && KeptRows(wavs, amps, |wavs|) != []
  {
    Max(Gather(wavs, amps, KeptRows(wavs, amps, |wavs|)))
  }

  /** What `SelectLines` returns when something is kept, spelled out. */
  lemma SelectLinesParts(wavs: seq<Float>, amps: seq<Float>) returns (kept: seq<nat>, m: real, rows: seq<nat>)
    requires |wavs| == |amps| && SelectLines(wavs, amps).Some?
    ensures kept == KeptRows(wavs, amps, |wavs|) && kept != [] && AllKept(wavs, amps, kept)
    ensures m == KeptMax(wavs, amps) && rows == StrongRows(wavs, amps, kept, m, |kept|)
    ensures AllKept(wavs, amps, rows) && (rows != [] ==> m != 0.0)
    ensures SelectLines(wavs, amps).value
      == Selection(rows, Wavelengths(wavs, amps, rows), Normalised(wavs, amps, rows, m))
  {
    kept := KeptRows(wavs, amps, |wavs|);
    m := KeptMax(wavs, amps);
    rows := StrongRows(wavs, amps, kept, m, |kept|);
    assert AllKept(wavs, amps, rows) && (rows != [] ==> m != 0.0) by {
      MaxNonZeroWhenSomethingExceeds(wavs, amps, kept);
    }
    assert SelectLines(wavs, amps) == Some(Selection(rows, Wavelengths(wavs, amps, rows), Normalised(wavs, amps, rows, m)));
  }

  /** The selected rows appear in table order. */
  lemma SelectionPreservesOrder(wavs: seq<Float>, amps: seq<Float>)
    requires |wavs| == |amps| && SelectLines(wavs, amps).Some?
    ensures var rows := SelectLines(wavs, amps).value.rows;
      forall k, l :: 0 <= k < l < |rows| ==> rows[k] < rows[l]
  {
    var kept, m, rows := SelectLinesParts(wavs, amps);
  }

  /** A row is selected exactly when it is kept and its normalised intensity exceeds 0.01. */
  lemma SelectionIsExactlyTheStrongLines(wavs: seq<Float>, amps: seq<Float>, i: nat)
    requires |wavs| == |amps| && SelectLines(wavs, amps).Some? && i < |wavs|
    ensures i in SelectLines(wavs, amps).value.rows
      <==> Keep(wavs[i], amps[i]) && Exceeds(Divide(amps[i].v, KeptMax(wavs, amps)), 0.01)
  {
    var kept, m, rows := SelectLinesParts(wavs, amps);
    assert SelectLines(wavs, amps).value.rows == rows;
    if Keep(wavs[i], amps[i]) && Exceeds(Divide(amps[i].v, m), 0.01) {
      var j := KeptIndex(wavs, amps, kept, i);
      StrongKeptRowIsSelected(wavs, amps, kept, m, rows, j);
    }
    if i in rows {
      var k :| 0 <= k < |rows| && rows[k] == i;
      assert AmpAt(amps, rows[k]) == amps[i].v;
    }
  }

  /**
   * With a positive maximum, a row is selected exactly when its wavelength
   * and intensity are finite, the wavelength lies strictly inside
   * (380, 750) and the intensity over the maximum exceeds 0.01.
   */
  lemma SelectedIffVisibleAndStrong(wavs: seq<Float>, amps: seq<Float>, i: nat)
    requires |wavs| == |amps| && KeptRows(wavs, amps, |wavs|) != [] && i < |wavs|
    requires KeptMax(wavs, amps) > 0.0
    ensures i in SelectLines(wavs, amps).value.rows <==>
      wavs[i].Num? && amps[i].Num? && 380.0 < wavs[i].v < 750.0 && amps[i].v / KeptMax(wavs, amps) > 0.01
  {
    SelectionIsExactlyTheStrongLines(wavs, amps, i);
    if amps[i].Num? {
      var q := Divide(amps[i].v, KeptMax(wavs, amps));
      assert q.Num? && q.v == amps[i].v / KeptMax(wavs, amps);
    }
  }

  /** A row that passes `Keep` has a position in the kept rows. */
  lemma KeptIndex(wavs: seq<Float>, amps: seq<Float>, kept: seq<nat>, i: nat) returns (j: nat)
    requires |wavs| == |amps| && i < |wavs| && kept == KeptRows(wavs, amps, |wavs|) && Keep(wavs[i], amps[i])
    ensures j < |kept| && kept[j] == i
  {
    j :| 0 <= j < |kept| && kept[j] == i;
  }

  /** Each selected row passes `Keep`, and its wavelength is carried over unchanged. */
  lemma SelectedWavelengths(wavs: seq<Float>, amps: seq<Float>)
    requires |wavs| == |amps| && SelectLines(wavs, amps).Some?
    ensures var s := SelectLines(wavs, amps).value;
      forall k :: 0 <= k < |s.rows| ==>
        s.rows[k] < |wavs| && Keep(wavs[s.rows[k]], amps[s.rows[k]]) && s.wavs[k] == wavs[s.rows[k]].v
  {
    var kept, m, rows := SelectLinesParts(wavs, amps);
  }

  /** Each selected intensity is that row's intensity over the kept maximum. */
  lemma SelectedIntensities(wavs: seq<Float>, amps: seq<Float>)
    requires |wavs| == |amps| && SelectLines(wavs, amps).Some?
    ensures var s, m := SelectLines(wavs, amps).value, KeptMax(wavs, amps);
      forall k :: 0 <= k < |s.rows| ==>
        s.rows[k] < |amps| && amps[s.rows[k]].Num? && Num(s.amps[k]) == Divide(amps[s.rows[k]].v, m)
  {
    var kept, m, rows := SelectLinesParts(wavs, amps);
    var ys := Normalised(wavs, amps, rows, m);
    assert SelectLines(wavs, amps).value.amps == ys;
  }

  /** Every kept wavelength is inside (380, 750) and every kept intensity exceeds 0.01. */
  lemma SelectionBounds(wavs: seq<Float>, amps: seq<Float>)
    requires |wavs| == |amps| && SelectLines(wavs, amps).Some?
    ensures var s := SelectLines(wavs, amps).value;
      (forall k :: 0 <= k < |s.wavs| ==> 380.0 < s.wavs[k] < 750.0) &&
      (forall k :: 0 <= k < |s.amps| ==> s.amps[k] > 0.01)
  {
    var kept, m, rows := SelectLinesParts(wavs, amps);
    WavelengthsInBand(wavs, amps, rows);
    NormalisedExceed(wavs, amps, rows, m);
  }

  lemma WavelengthsInBand(wavs: seq<Float>, amps: seq<Float>, rows: seq<nat>)
    requires AllKept(wavs, amps, rows)
    ensures forall k :: 0 <= k < |rows| ==> 380.0 < Wavelengths(wavs, amps, rows)[k] < 750.0
  {
    var ws := Wavelengths(wavs, amps, rows);
    forall k | 0 <= k < |rows| ensures 380.0 < ws[k] < 750.0 {
      assert Keep(wavs[rows[k]], amps[rows[k]]);
    }
  }

  lemma NormalisedExceed(wavs: seq<Float>, amps: seq<Float>, rows: seq<nat>, m: real)
    requires AllKept(wavs, amps, rows) && (rows != [] ==> m != 0.0)
    requires forall k :: 0 <= k < |rows| ==> Exceeds(Divide(AmpAt(amps, rows[k]), m), 0.01)
    ensures forall k :: 0 <= k < |rows| ==> Normalised(wavs, amps, rows, m)[k] > 0.01
  {
    var ys := Normalised(wavs, amps, rows, m);
    forall k | 0 <= k < |rows| ensures ys[k] > 0.01 {
      assert Exceeds(Divide(AmpAt(amps, rows[k]), m), 0.01);
    }
  }

  /** With a positive maximum, every kept value is at most 1 and the strongest is exactly 1. */
  lemma PositiveMaxNormalisesToOne(wavs: seq<Float>, amps: seq<Float>)
    requires |wavs| == |amps| && KeptRows(wavs, amps, |wavs|) != []
    requires KeptMax(wavs, amps) > 0.0
    ensures var s := SelectLines(wavs, amps).value;
      (forall k :: 0 <= k < |s.amps| ==> s.amps[k] <= 1.0) &&
      (exists k :: 0 <= k < |s.amps| && s.amps[k] == 1.0)
  {
    var k := StrongestIsSelected(wavs, amps);
    NormalisedAtMostOne(wavs, amps);
  }

  /** The row holding the maximum survives the threshold, normalised to 1. */
  lemma StrongestIsSelected(wavs: seq<Float>, amps: seq<Float>) returns (k: nat)
    requires |wavs| == |amps| && KeptRows(wavs, amps, |wavs|) != []
    requires KeptMax(wavs, amps) > 0.0
    ensures k < |SelectLines(wavs, amps).value.amps| && SelectLines(wavs, amps).value.amps[k] == 1.0
  {
    var kept, m, rows := SelectLinesParts(wavs, amps);
    var j := MaxIndex(wavs, amps, kept, m);
    SelfExceeds(AmpAt(amps, kept[j]), m);
    StrongKeptRowIsSelected(wavs, amps, kept, m, rows, j);
    k :| 0 <= k < |rows| && rows[k] == kept[j];
    var ys := Normalised(wavs, amps, rows, m);
    assert ys[k] == AmpAt(amps, kept[j]) / m;
  }

  /** Dividing by a positive maximum gives at most 1. */
  lemma NormalisedAtMostOne(wavs: seq<Float>, amps: seq<Float>)
    requires |wavs| == |amps| && KeptRows(wavs, amps, |wavs|) != []
    requires KeptMax(wavs, amps) > 0.0
    ensures forall k :: 0 <= k < |SelectLines(wavs, amps).value.amps| ==> SelectLines(wavs, amps).value.amps[k] <= 1.0
  {
    var kept, m, rows := SelectLinesParts(wavs, amps);
    var ys := Normalised(wavs, amps, rows, m);
    forall k | 0 <= k < |ys| ensures ys[k] <= 1.0 {
      assert kept[..|kept|] == kept;
      KeptAtMostMax(wavs, amps, kept, rows[k]);
      DivideAtMostOne(amps[rows[k]].v, m);
    }
  }

  /** A kept row whose normalised intensity exceeds the threshold is selected. */
  lemma StrongKeptRowIsSelected(wavs: seq<Float>, amps: seq<Float>, kept: seq<nat>, m: real, rows: seq<nat>, j: nat)
    requires AllKept(wavs, amps, kept) && j < |kept| && rows == StrongRows(wavs, amps, kept, m, |kept|)
    requires Exceeds(Divide(AmpAt(amps, kept[j]), m), 0.01)
    ensures kept[j] in rows
  {
    assert kept[..|kept|] == kept;
  }

  /** A kept row's intensity is at most the kept maximum. */
  lemma KeptAtMostMax(wavs: seq<Float>, amps: seq<Float>, kept: seq<nat>, r: nat)
    requires AllKept(wavs, amps, kept) && r in kept
    ensures r < |amps| && amps[r].Num? && amps[r].v <= Max(Gather(wavs, amps, kept))
  {
    var xs := Gather(wavs, amps, kept);
    var j :| 0 <= j < |kept| && kept[j] == r;
    assert xs[j] <= Max(xs);
  }

  /** Some kept row holds the maximum. */
  lemma MaxIndex(wavs: seq<Float>, amps: seq<Float>, kept: seq<nat>, m: real) returns (j: nat)
    requires AllKept(wavs, amps, kept) && kept != [] && m == Max(Gather(wavs, amps, kept))
    ensures j < |kept| && AmpAt(amps, kept[j]) == m
  {
    var xs := Gather(wavs, amps, kept);
    j :| 0 <= j < |xs| && xs[j] == m;
  }

  lemma SelfExceeds(a: real, m: real)
    requires a == m && m > 0.0
    ensures Exceeds(Divide(a, m), 0.01) && Divide(a, m) == Num(1.0)
  {
    assert a / m == 1.0;
  }

  lemma DivideAtMostOne(a: real, m: real)
    requires a <= m && m > 0.0
    ensures a / m <= 1.0
  {
  }

  /** With a zero maximum nothing survives: 0/0 is NaN and a negative over 0 is -inf. */
  lemma ZeroMaxKeepsNothing(wavs: seq<Float>, amps: seq<Float>)
    requires |wavs| == |amps| && KeptRows(wavs, amps, |wavs|) != []
    requires KeptMax(wavs, amps) == 0.0
    ensures SelectLines(wavs, amps).value == Selection([], [], [])
  {
    var kept, m, rows := SelectLinesParts(wavs, amps);
  }
}
