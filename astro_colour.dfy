/**
 * `wavelength_to_color` of the filter viewer: the same band rule as the
 * element viewer's colour map, written out again in the script, with each
 * channel scaled to [0, 255] and alpha 0.7 * 255 outside [380, 750].
 */
module AstroColour {
  import opened SpectrumColour

  /** `wavelength_to_color(wavelength, gamma)`. */
  function WavelengthToColor(wavelength: real, gamma: real, pow: (real, real) -> real): (c: Rgba)
    ensures c.a == 255.0 <==> 380.0 <= wavelength <= 750.0
    ensures c.a == 0.7 * 255.0 <==> !(380.0 <= wavelength <= 750.0)
  {
    var a := if wavelength >= 380.0 && wavelength <= 750.0 then 1.0 else 0.7;
    var w := Clamp(wavelength);
    var rgb :=
      if 380.0 <= w <= 440.0 then
        var attenuation := 0.3 + 0.7 * (w - 380.0) / (440.0 - 380.0);
        (pow((-(w - 440.0) / (440.0 - 380.0)) * attenuation, gamma), 0.0, pow(1.0 * attenuation, gamma))
      else if 440.0 <= w <= 490.0 then (0.0, pow((w - 440.0) / (490.0 - 440.0), gamma), 1.0)
      else if 490.0 <= w <= 510.0 then (0.0, 1.0, pow(-(w - 510.0) / (510.0 - 490.0), gamma))
      else if 510.0 <= w <= 580.0 then (pow((w - 510.0) / (580.0 - 510.0), gamma), 1.0, 0.0)
      else if 580.0 <= w <= 645.0 then (1.0, pow(-(w - 645.0) / (645.0 - 580.0), gamma), 0.0)
      else if 645.0 <= w <= 750.0 then
        var attenuation := 0.3 + 0.7 * (750.0 - w) / (750.0 - 645.0);
        (pow(1.0 * attenuation, gamma), 0.0, 0.0)
      else (0.0, 0.0, 0.0);
    Rgba(rgb.0 * 255.0, rgb.1 * 255.0, rgb.2 * 255.0, a * 255.0)
  }

  /** The channels are 255 times the element viewer's; only alpha differs. */
  lemma ChannelsAreScaledElementColours(wavelength: real, gamma: real, pow: (real, real) -> real)
    ensures var c, d := WavelengthToColor(wavelength, gamma, pow), WavelengthToRgb(wavelength, gamma, pow);
      c.r == 255.0 * d.r && c.g == 255.0 * d.g && c.b == 255.0 * d.b
  {
    var w := Clamp(wavelength);
    if w <= 440.0 {
      assert 380.0 <= w <= 440.0;
    } else if w <= 490.0 {
      assert 440.0 <= w <= 490.0;
    } else if w <= 510.0 {
      assert 490.0 <= w <= 510.0;
    } else if w <= 580.0 {
      assert 510.0 <= w <= 580.0;
    } else if w <= 645.0 {
      assert 580.0 <= w <= 645.0;
    } else {
      assert 645.0 <= w <= 750.0;
    }
  }

  /** For a positive gamma every channel lies in [0, 255]. */
  lemma ChannelsInByteRange(wavelength: real, gamma: real, pow: (real, real) -> real)
    requires PowLaws(pow) && gamma > 0.0
    ensures var c := WavelengthToColor(wavelength, gamma, pow);
      0.0 <= c.r <= 255.0 && 0.0 <= c.g <= 255.0 && 0.0 <= c.b <= 255.0
  {
    ChannelsAreScaledElementColours(wavelength, gamma, pow);
    ChannelsInUnitInterval(wavelength, gamma, pow);
  }

  /** Out of range, the colour is that of the nearer end of the visible range. */
  lemma OutOfRangeUsesNearestEnd(wavelength: real, gamma: real, pow: (real, real) -> real)
    ensures wavelength < 380.0 ==> SameRgb(WavelengthToColor(wavelength, gamma, pow), WavelengthToColor(380.0, gamma, pow))
    ensures wavelength > 750.0 ==> SameRgb(WavelengthToColor(wavelength, gamma, pow), WavelengthToColor(750.0, gamma, pow))
  {
  }
}
