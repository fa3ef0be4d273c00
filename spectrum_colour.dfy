/**
 * `wavelength_to_rgb` of the element viewer: an approximate display colour
 * for a wavelength in nanometres, each channel in [0, 1]. Wavelengths outside
 * [380, 750] are drawn in the colour of the nearer end of that range with alpha
 * 0.5. Inside it, six bands meet at 440, 490, 510, 580 and 645 nm; the first
 * band (in order) whose closed interval holds the wavelength gives the colour.
 *
 * `x ** gamma` is the parameter `pow`; `PowLaws` says what is assumed of it.
 */
module SpectrumColour {

  datatype Rgba = Rgba(r: real, g: real, b: real, a: real)

  /** What `x ** g` does on [0, 1] for a positive exponent. */
  ghost predicate PowLaws(pow: (real, real) -> real)
  {
    (forall x: real, g: real :: 0.0 <= x <= 1.0 && g > 0.0 ==> 0.0 <= pow(x, g) <= 1.0) &&
    (forall g: real :: g > 0.0 ==> pow(0.0, g) == 0.0 && pow(1.0, g) == 1.0)
  }

  /** The band edges, from 380 nm to 750 nm. */
  const Breaks: seq<real> := [380.0, 440.0, 490.0, 510.0, 580.0, 645.0, 750.0]

  /** The wavelength actually coloured: clamped to [380, 750]. */
  function Clamp(wavelength: real): (w: real)
    ensures 380.0 <= w <= 750.0
    ensures 380.0 <= wavelength <= 750.0 ==> w == wavelength
    ensures wavelength < 380.0 ==> w == 380.0
    ensures wavelength > 750.0 ==> w == 750.0
  {
    var w := if wavelength < 380.0 then 380.0 else wavelength;
    if w > 750.0 then 750.0 else w
  }

  /** Fade of the violet end: 0.3 at 380 nm rising to 1 at 440 nm. */
  function VioletAttenuation(w: real): real
  {
    0.3 + 0.7 * (w - 380.0) / (440.0 - 380.0)
  }

  /** Fade of the red end: 1 at 645 nm falling to 0.3 at 750 nm. */
  function RedAttenuation(w: real): real
  {
    0.3 + 0.7 * (750.0 - w) / (750.0 - 645.0)
  }

  /** 0 at `lo`, 1 at `hi`. */
  function Rising(w: real, lo: real, hi: real): real
    requires lo < hi
  {
    (w - lo) / (hi - lo)
  }

  /** 1 at `lo`, 0 at `hi`. */
  function Falling(w: real, lo: real, hi: real): real
    requires lo < hi
  {
    -(w - hi) / (hi - lo)
  }

  /** The red channel's base in the violet band: its falling ramp times the fade. */
  function VioletRedBase(w: real): (x: real)
    ensures x == Falling(w, 380.0, 440.0) * VioletAttenuation(w)
  {
    (-(w - 440.0) / (440.0 - 380.0)) * (0.3 + 0.7 * (w - 380.0) / (440.0 - 380.0))
  }

  /**
   * The channel formulas of band `k` (0 = violet ... 5 = red). On its own
   * band, with a positive gamma, every channel lies in [0, 1].
   */
  function BandColour(k: nat, w: real, gamma: real, pow: (real, real) -> real): (c: (real, real, real))
    requires k < 6
    ensures PowLaws(pow) && gamma > 0.0 && Breaks[k] <= w <= Breaks[k + 1] ==>
      0.0 <= c.0 <= 1.0 && 0.0 <= c.1 <= 1.0 && 0.0 <= c.2 <= 1.0
  {
    if Breaks[k] <= w <= Breaks[k + 1] then
      BasesInUnitInterval(k, w);
      BandFormulas(k, w, gamma, pow)
    else
      BandFormulas(k, w, gamma, pow)
  }

  function BandFormulas(k: nat, w: real, gamma: real, pow: (real, real) -> real): (real, real, real)
    requires k < 6
  {
    if k == 0 then
      (pow(VioletRedBase(w), gamma), 0.0, pow(1.0 * VioletAttenuation(w), gamma))
    else if k == 1 then (0.0, pow(Rising(w, 440.0, 490.0), gamma), 1.0)
    else if k == 2 then (0.0, 1.0, pow(Falling(w, 490.0, 510.0), gamma))
    else if k == 3 then (pow(Rising(w, 510.0, 580.0), gamma), 1.0, 0.0)
    else if k == 4 then (1.0, pow(Falling(w, 580.0, 645.0), gamma), 0.0)
    else
      var att := RedAttenuation(w);
      (pow(1.0 * att, gamma), 0.0, 0.0)
  }

  function WithAlpha(c: (real, real, real), a: real): Rgba
  {
    Rgba(c.0, c.1, c.2, a)
  }

  /** `wavelength_to_rgb(wavelength, gamma)`. */
  function WavelengthToRgb(wavelength: real, gamma: real, pow: (real, real) -> real): (c: Rgba)
    ensures c.a == 1.0 <==> 380.0 <= wavelength <= 750.0
    ensures c.a == 0.5 <==> !(380.0 <= wavelength <= 750.0)
  {
    var a := if wavelength >= 380.0 && wavelength <= 750.0 then 1.0 else 0.5;
    var w := Clamp(wavelength);
    if 380.0 <= w <= 440.0 then WithAlpha(BandColour(0, w, gamma, pow), a)
    else if 440.0 <= w <= 490.0 then WithAlpha(BandColour(1, w, gamma, pow), a)
    else if 490.0 <= w <= 510.0 then WithAlpha(BandColour(2, w, gamma, pow), a)
    else if 510.0 <= w <= 580.0 then WithAlpha(BandColour(3, w, gamma, pow), a)
    else if 580.0 <= w <= 645.0 then WithAlpha(BandColour(4, w, gamma, pow), a)
    else if 645.0 <= w <= 750.0 then WithAlpha(BandColour(5, w, gamma, pow), a)
    else Rgba(0.0, 0.0, 0.0, a)
  }

  predicate SameRgb(c: Rgba, d: Rgba)
  {
    c.r == d.r && c.g == d.g && c.b == d.b
  }

  // ---------------------------------------------------------------------------
  // Properties

  /** Out of range, the colour is that of the nearer end of the visible range. */
  lemma OutOfRangeUsesNearestEnd(wavelength: real, gamma: real, pow: (real, real) -> real)
    ensures wavelength < 380.0 ==> SameRgb(WavelengthToRgb(wavelength, gamma, pow), WavelengthToRgb(380.0, gamma, pow))
    ensures wavelength > 750.0 ==> SameRgb(WavelengthToRgb(wavelength, gamma, pow), WavelengthToRgb(750.0, gamma, pow))
  {
  }

  /**
   * Every band that holds the clamped wavelength gives the colour: the
   * black fallback is never reached, and at a breakpoint the choice of
   * band does not matter.
   */
  lemma AnyContainingBandGivesColour(wavelength: real, k: nat, gamma: real, pow: (real, real) -> real)
    requires PowLaws(pow) && gamma > 0.0
    requires k < 6 && Breaks[k] <= Clamp(wavelength) <= Breaks[k + 1]
    ensures WavelengthToRgb(wavelength, gamma, pow) == WithAlpha(BandColour(k, Clamp(wavelength), gamma, pow), WavelengthToRgb(wavelength, gamma, pow).a)
  {
    var w := Clamp(wavelength);
    var first := if w <= 440.0 then 0 else if w <= 490.0 then 1 else if w <= 510.0 then 2
                 else if w <= 580.0 then 3 else if w <= 645.0 then 4 else 5;
    var j := first;
    while j < k
      invariant first <= j <= k
      invariant BandColour(j, w, gamma, pow) == BandColour(first, w, gamma, pow)
    {
      BreakpointsAgree(j, gamma, pow);
      j := j + 1;
    }
  }

  /** At each inner breakpoint the two adjoining bands give the same channels. */
  lemma BreakpointsAgree(k: nat, gamma: real, pow: (real, real) -> real)
    requires PowLaws(pow) && gamma > 0.0
    requires k < 5
    ensures BandColour(k, Breaks[k + 1], gamma, pow) == BandColour(k + 1, Breaks[k + 1], gamma, pow)
  {
    assert pow(0.0, gamma) == 0.0 && pow(1.0, gamma) == 1.0;
  }

  /** A real wavelength, once clamped, lies in some band: the fallback is unreachable except for NaN, which is not a real. */
  lemma FallbackUnreachable(wavelength: real)
    ensures exists k :: 0 <= k < 6 && Breaks[k] <= Clamp(wavelength) <= Breaks[k + 1]
  {
    var w := Clamp(wavelength);
    var k := if w <= 440.0 then 0 else if w <= 490.0 then 1 else if w <= 510.0 then 2
             else if w <= 580.0 then 3 else if w <= 645.0 then 4 else 5;
    assert Breaks[k] <= w <= Breaks[k + 1];
  }

  /** Both attenuations stay within [0.3, 1] on their bands. */
  lemma AttenuationBounds(w: real)
    ensures 380.0 <= w <= 440.0 ==> 0.3 <= VioletAttenuation(w) <= 1.0
    ensures 645.0 <= w <= 750.0 ==> 0.3 <= RedAttenuation(w) <= 1.0
  {
  }

  /** Every base raised to `gamma` lies in [0, 1] on its band. */
  lemma BasesInUnitInterval(k: nat, w: real)
    requires k < 6 && Breaks[k] <= w <= Breaks[k + 1]
    ensures k == 0 ==> 0.0 <= VioletRedBase(w) <= 1.0 && 0.0 <= 1.0 * VioletAttenuation(w) <= 1.0
    ensures k == 1 ==> 0.0 <= Rising(w, 440.0, 490.0) <= 1.0
    ensures k == 2 ==> 0.0 <= Falling(w, 490.0, 510.0) <= 1.0
    ensures k == 3 ==> 0.0 <= Rising(w, 510.0, 580.0) <= 1.0
    ensures k == 4 ==> 0.0 <= Falling(w, 580.0, 645.0) <= 1.0
    ensures k == 5 ==> 0.0 <= 1.0 * RedAttenuation(w) <= 1.0
  {
    if k == 0 {
      var f, att := Falling(w, 380.0, 440.0), VioletAttenuation(w);
      assert 0.0 <= f <= 1.0 && 0.3 <= att <= 1.0;
      assert 0.0 <= f * att <= att;
    }
  }

  /** For a positive gamma every channel lies in [0, 1]. */
  lemma ChannelsInUnitInterval(wavelength: real, gamma: real, pow: (real, real) -> real)
    requires PowLaws(pow) && gamma > 0.0
    ensures var c := WavelengthToRgb(wavelength, gamma, pow);
      0.0 <= c.r <= 1.0 && 0.0 <= c.g <= 1.0 && 0.0 <= c.b <= 1.0
  {
    var w := Clamp(wavelength);
    if w <= 440.0 { BasesInUnitInterval(0, w); }
    else if w <= 490.0 { BasesInUnitInterval(1, w); }
    else if w <= 510.0 { BasesInUnitInterval(2, w); }
    else if w <= 580.0 { BasesInUnitInterval(3, w); }
    else if w <= 645.0 { BasesInUnitInterval(4, w); }
    else { BasesInUnitInterval(5, w); }
  }
}
