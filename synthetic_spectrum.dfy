/**
 * The mock spectrum of the element viewer's `update_plot`: every selected
 * line adds its normalised intensity times a line profile (a Gaussian in
 * the program) centred on its wavelength to a 1-D spectrum sampled on a
 * wavelength grid, and the 1-D spectrum is then spread down the rows of a
 * 2-D image by a vertical kernel.
 *
 * The profile is the parameter `profile`, applied to the distance from the
 * line centre; the grid and the kernel are given (they are built with
 * `linspace` and `exp` in the program).
 */
module SyntheticSpectrum {

  /** The contribution of the first `n` lines at wavelength `x`. */
  function LineSum(x: real, wavs: seq<real>, amps: seq<real>, profile: real -> real, n: nat): real
    requires n <= |wavs| && n <= |amps|
  {
    if n == 0 then 0.0
    else LineSum(x, wavs, amps, profile, n - 1) + amps[n - 1] * profile(x - wavs[n - 1])
  }

  /** Lines 241-244: `spec_1d += ampsY[i] * profile(wavelengths - wavsX[i])` for every line. */
  method Accumulate(grid: seq<real>, wavs: seq<real>, amps: seq<real>, profile: real -> real)
    returns (spec: array<real>)
    requires |wavs| == |amps|
    ensures fresh(spec) && spec.Length == |grid|
    ensures forall j :: 0 <= j < |grid| ==> spec[j] == LineSum(grid[j], wavs, amps, profile, |wavs|)
    ensures |wavs| == 0 ==> forall j :: 0 <= j < |grid| ==> spec[j] == 0.0
  {
    spec := new real[|grid|](j => 0.0);
    var i := 0;
    while i < |wavs|
      invariant 0 <= i <= |wavs|
      invariant forall j :: 0 <= j < |grid| ==> spec[j] == LineSum(grid[j], wavs, amps, profile, i)
    {
      AddLine(spec, grid, wavs[i], amps[i], profile);
      i := i + 1;
    }
  }

  /** One `spec_1d += spectrum_tmp`: add one line's profile at every grid point. */
  method AddLine(spec: array<real>, grid: seq<real>, w: real, a: real, profile: real -> real)
    requires spec.Length == |grid|
    modifies spec
    ensures forall j :: 0 <= j < |grid| ==> spec[j] == old(spec[j]) + a * profile(grid[j] - w)
  {
    var j := 0;
    while j < |grid|
      invariant 0 <= j <= |grid|
      invariant forall k :: 0 <= k < j ==> spec[k] == old(spec[k]) + a * profile(grid[k] - w)
      invariant forall k :: j <= k < |grid| ==> spec[k] == old(spec[k])
    {
      spec[j] := spec[j] + a * profile(grid[j] - w);
      j := j + 1;
    }
  }

  function Sum(xs: seq<real>): real
  {
    if xs == [] then 0.0 else Sum(xs[..|xs| - 1]) + xs[|xs| - 1]
  }

  function Scale(c: real, xs: seq<real>): (ys: seq<real>)
    ensures |ys| == |xs| && forall k :: 0 <= k < |xs| ==> ys[k] == c * xs[k]
  {
    seq(|xs|, k requires 0 <= k < |xs| => c * xs[k])
  }

  /** Column `i` of an image, top to bottom. */
  ghost function Column(img: array2<real>, i: nat): (col: seq<real>)
    requires i < img.Length1
    reads img
    ensures |col| == img.Length0 && forall r :: 0 <= r < img.Length0 ==> col[r] == img[r, i]
  {
    seq(img.Length0, r requires 0 <= r < img.Length0 reads img => img[r, i])
  }

  /** Lines 246-248: start from zeros and add `spec_1d[i] * spatial_psf` to column `i`, for every column. */
  method Spread(spec: array<real>, psf: array<real>) returns (img: array2<real>)
    ensures fresh(img) && img.Length0 == psf.Length && img.Length1 == spec.Length
    ensures forall r, i :: 0 <= r < psf.Length && 0 <= i < spec.Length ==> img[r, i] == spec[i] * psf[r]
  {
    img := new real[psf.Length, spec.Length]((r, i) => 0.0);
    var i := 0;
    while i < spec.Length
      invariant 0 <= i <= spec.Length
      invariant forall r, c :: 0 <= r < psf.Length && 0 <= c < i ==> img[r, c] == spec[c] * psf[r]
      invariant forall r, c :: 0 <= r < psf.Length && i <= c < spec.Length ==> img[r, c] == 0.0
    {
      AddToColumn(img, i, spec[i], psf);
      i := i + 1;
    }
  }

  /** After `Spread`, column `i` is the kernel scaled by `spec[i]` and sums to `spec[i]` times the kernel sum. */
  lemma AllColumnsAreScaledKernels(img: array2<real>, spec: array<real>, psf: array<real>)
    requires img.Length0 == psf.Length && img.Length1 == spec.Length
    requires forall r, i {:trigger img[r, i]} :: 0 <= r < psf.Length && 0 <= i < spec.Length ==> img[r, i] == spec[i] * psf[r]
    ensures forall i :: 0 <= i < spec.Length ==> Column(img, i) == Scale(spec[i], psf[..])
    ensures forall i :: 0 <= i < spec.Length ==> Sum(Column(img, i)) == spec[i] * Sum(psf[..])
  {
    forall i | 0 <= i < spec.Length
      ensures Column(img, i) == Scale(spec[i], psf[..])
      ensures Sum(Column(img, i)) == spec[i] * Sum(psf[..])
    {
      SpreadColumn(img, spec, psf, i);
    }
  }

  /** Column `i` of the spread image, one column at a time. */
  lemma SpreadColumn(img: array2<real>, spec: array<real>, psf: array<real>, i: nat)
    requires img.Length0 == psf.Length && img.Length1 == spec.Length && i < spec.Length
    requires forall r, c {:trigger img[r, c]} :: 0 <= r < psf.Length && 0 <= c < spec.Length ==> img[r, c] == spec[c] * psf[r]
    ensures Column(img, i) == Scale(spec[i], psf[..])
    ensures Sum(Column(img, i)) == spec[i] * Sum(psf[..])
  {
    ColumnIsScaledKernel(img, i, spec[i], psf);
  }

  /** One `spectrum_2d[:, i] += flux * spatial_psf`; the other columns are untouched. */
  method AddToColumn(img: array2<real>, i: nat, flux: real, psf: array<real>)
    requires i < img.Length1 && img.Length0 == psf.Length
    modifies img
    ensures forall r :: 0 <= r < img.Length0 ==> img[r, i] == old(img[r, i]) + flux * psf[r]
    ensures forall r, c :: 0 <= r < img.Length0 && 0 <= c < img.Length1 && c != i ==> img[r, c] == old(img[r, c])
  {
    var r := 0;
    while r < psf.Length
      invariant 0 <= r <= psf.Length
      invariant forall r' :: 0 <= r' < r ==> img[r', i] == old(img[r', i]) + flux * psf[r']
      invariant forall r', c :: 0 <= r' < img.Length0 && 0 <= c < img.Length1 && (c != i || r' >= r) ==> img[r', c] == old(img[r', c])
    {
      img[r, i] := img[r, i] + flux * psf[r];
      r := r + 1;
    }
  }

  /** A column holding `flux * psf` is the scaled kernel, and sums to `flux` times the kernel sum. */
  lemma ColumnIsScaledKernel(img: array2<real>, i: nat, flux: real, psf: array<real>)
    requires i < img.Length1 && img.Length0 == psf.Length
    requires forall r :: 0 <= r < img.Length0 ==> img[r, i] == flux * psf[r]
    ensures Column(img, i) == Scale(flux, psf[..])
    ensures Sum(Column(img, i)) == flux * Sum(psf[..])
  {
    var col, scaled := Column(img, i), Scale(flux, psf[..]);
    assert forall r :: 0 <= r < |col| ==> col[r] == scaled[r];
    assert col == scaled;
    SumScale(flux, psf[..]);
  }

  // ---------------------------------------------------------------------------
  // Properties

  /** Scaling every line's intensity by `c` scales the spectrum by `c`. */
  lemma {:induction false} LineSumScales(x: real, wavs: seq<real>, amps: seq<real>, profile: real -> real, n: nat, c: real)
    requires n <= |wavs| && n <= |amps|
    ensures LineSum(x, wavs, Scale(c, amps), profile, n) == c * LineSum(x, wavs, amps, profile, n)
  {
    if n > 0 {
      LineSumScales(x, wavs, amps, profile, n - 1, c);
    }
  }

  /**
   * Lines of zero amplitude give nothing, and lines of non-negative
   * amplitude under a non-negative profile never give a negative spectrum.
   */
  lemma {:induction false} LineSumSigns(x: real, wavs: seq<real>, amps: seq<real>, profile: real -> real, n: nat)
    requires n <= |wavs| && n <= |amps|
    ensures (forall k :: 0 <= k < n ==> amps[k] == 0.0) ==> LineSum(x, wavs, amps, profile, n) == 0.0
    ensures (forall k :: 0 <= k < n ==> amps[k] >= 0.0 && profile(x - wavs[k]) >= 0.0) ==>
      LineSum(x, wavs, amps, profile, n) >= 0.0
  {
    if n > 0 {
      LineSumSigns(x, wavs, amps, profile, n - 1);
      var a, f := amps[n - 1], profile(x - wavs[n - 1]);
      if a >= 0.0 && f >= 0.0 {
        assert a * f >= 0.0;
      }
    }
  }

  /** The first `n` lines contribute the same whatever follows them. */
  lemma {:induction false} LineSumPrefix(x: real, wavs: seq<real>, amps: seq<real>, wavs': seq<real>, amps': seq<real>, profile: real -> real, n: nat)
    requires n <= |wavs| && n <= |amps| && n <= |wavs'| && n <= |amps'|
    requires wavs[..n] == wavs'[..n] && amps[..n] == amps'[..n]
    ensures LineSum(x, wavs, amps, profile, n) == LineSum(x, wavs', amps', profile, n)
  {
    if n > 0 {
      assert wavs[..n - 1] == wavs'[..n - 1] && amps[..n - 1] == amps'[..n - 1];
      assert wavs[n - 1] == wavs[..n][n - 1] && wavs'[n - 1] == wavs'[..n][n - 1];
      assert amps[n - 1] == amps[..n][n - 1] && amps'[n - 1] == amps'[..n][n - 1];
      LineSumPrefix(x, wavs, amps, wavs', amps', profile, n - 1);
    }
  }

  /** Superposition: the spectrum of two line lists together is the sum of their spectra. */
  lemma {:induction false} LineSumSplits(x: real, w1: seq<real>, a1: seq<real>, w2: seq<real>, a2: seq<real>, profile: real -> real, n: nat)
    requires |w1| == |a1| && n <= |w2| && n <= |a2|
    ensures LineSum(x, w1 + w2, a1 + a2, profile, |w1| + n)
         == LineSum(x, w1, a1, profile, |w1|) + LineSum(x, w2, a2, profile, n)
  {
    if n == 0 {
      assert (w1 + w2)[..|w1|] == w1[..|w1|] && (a1 + a2)[..|a1|] == a1[..|a1|];
      LineSumPrefix(x, w1 + w2, a1 + a2, w1, a1, profile, |w1|);
    } else {
      LineSumSplits(x, w1, a1, w2, a2, profile, n - 1);
      assert (w1 + w2)[|w1| + n - 1] == w2[n - 1] && (a1 + a2)[|a1| + n - 1] == a2[n - 1];
    }
  }

  /** A column scaled by `c` sums to `c` times the kernel's sum. */
  lemma {:induction false} SumScale(c: real, xs: seq<real>)
    ensures Sum(Scale(c, xs)) == c * Sum(xs)
  {
    if xs != [] {
      var ys, front := Scale(c, xs), xs[..|xs| - 1];
      assert forall k :: 0 <= k < |front| ==> ys[..|xs| - 1][k] == Scale(c, front)[k];
      assert ys[..|xs| - 1] == Scale(c, front);
      SumScale(c, xs[..|xs| - 1]);
    }
  }
}
