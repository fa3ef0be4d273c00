/**
 * The filter viewer window (`FilterViewer`): a list of the filters of
 * `FILTER_DATA`, of which the first starts selected, and a plot that
 * `update_plot` rebuilds from scratch. Each selected filter gets a curve
 * drawn in the colour of its peak wavelength, a label with its name at the
 * peak, and, when "Fill under curve?" is checked, a fill in the same colour
 * with alpha 80. Curves and labels are remembered by filter name.
 *
 * Widgets, signals and drawing are not modelled: the plot is the list of
 * items added to it, and `x ** gamma` is the parameter `pow`.
 */
module FilterViewer {
  import opened Wrappers
  import opened SpectrumColour
  import opened AstroColour
  import opened FilterData

  /** `wavelength_to_color` is called with its default gamma. */
  const Gamma: real := 0.8

  /** The alpha of a fill brush. */
  const FillAlpha: real := 80.0

  /**
   * `np.argmax(xs)`: the first index holding the largest value; `None`
   * where numpy raises on an empty array.
   */
  function ArgMax(xs: seq<real>): (i: Option<nat>)
    ensures i.None? <==> xs == []
    ensures i.Some? ==> i.value < |xs|
    ensures i.Some? ==> forall j :: 0 <= j < |xs| ==> xs[j] <= xs[i.value]
    ensures i.Some? ==> forall j :: 0 <= j < i.value ==> xs[j] < xs[i.value]
  {
    if xs == [] then None
    else
      var front := xs[..|xs| - 1];
      var best := ArgMax(front);
      if best.None? then Some(0)
      else if xs[|xs| - 1] > front[best.value] then Some(|xs| - 1)
      else Some(best.value)
  }

  /** The wavelength column of a filter table. */
  function Wavelengths(t: Table): (ws: seq<real>)
    ensures |ws| == |t| && forall i :: 0 <= i < |t| ==> ws[i] == t[i].wavelength
  {
    seq(|t|, i requires 0 <= i < |t| => t[i].wavelength)
  }

  /** The throughput column of a filter table. */
  function Throughputs(t: Table): (ys: seq<real>)
    ensures |ys| == |t| && forall i :: 0 <= i < |t| ==> ys[i] == t[i].throughput
  {
    seq(|t|, i requires 0 <= i < |t| => t[i].throughput)
  }

  /** The row of a table's peak throughput. */
  function Peak(t: Table): (p: nat)
    requires t != []
    ensures p < |t|
    ensures forall j :: 0 <= j < |t| ==> t[j].throughput <= t[p].throughput
    ensures forall j :: 0 <= j < p ==> t[j].throughput < t[p].throughput
  {
    ArgMax(Throughputs(t)).value
  }

  datatype Curve = Curve(name: string, xs: seq<real>, ys: seq<real>, pen: Rgba)
  datatype Label = Label(text: string, x: real, y: real, colour: Rgba)
  datatype Fill = Fill(curve: string, brush: Rgba)

  /** Line 132: `color[:-1] + (80,)`. */
  function FillBrush(c: Rgba): (b: Rgba)
    ensures SameRgb(b, c) && b.a == FillAlpha
  {
    Rgba(c.r, c.g, c.b, FillAlpha)
  }

  /** Lines 124-125: the colour of the wavelength of the first row of largest throughput. */
  function PeakColour(t: Table, pow: (real, real) -> real): (c: Rgba)
    requires t != []
    ensures exists p :: (0 <= p < |t| && c == WavelengthToColor(t[p].wavelength, Gamma, pow) &&
                         (forall j :: 0 <= j < |t| ==> t[j].throughput <= t[p].throughput) &&
                         (forall j :: 0 <= j < p ==> t[j].throughput < t[p].throughput))
  {
    WavelengthToColor(t[Peak(t)].wavelength, Gamma, pow)
  }

  /** What the plot holds: the two dictionaries and the fills added. */
  datatype Plot = Plot(curves: map<string, Curve>, labels: map<string, Label>, fills: seq<Fill>)

  /**
   * Lines 122-143 for one selected filter: its curve and label are stored
   * under its name in the peak colour, a fill is appended when asked, and
   * every other name keeps what it had.
   */
  function PlotFilter(p: Plot, name: string, t: Table, fill: bool, pow: (real, real) -> real): (q: Plot)
    requires t != []
    ensures name in q.curves && name in q.labels
    ensures q.curves[name].pen == PeakColour(t, pow) && q.labels[name].colour == q.curves[name].pen
    ensures forall n :: n != name ==> (n in q.curves <==> n in p.curves) && (n in q.labels <==> n in p.labels)
    ensures forall n :: n != name && n in p.curves ==> q.curves[n] == p.curves[n]
    ensures forall n :: n != name && n in p.labels ==> q.labels[n] == p.labels[n]
    ensures |q.fills| == |p.fills| + (if fill then 1 else 0) && q.fills[..|p.fills|] == p.fills
  {
    var colour := PeakColour(t, pow);
    var curve := Curve(name, Wavelengths(t), Throughputs(t), colour);
    var peak := Peak(t);
    var text := Label(name, t[peak].wavelength, t[peak].throughput, colour);
    Plot(p.curves[name := curve], p.labels[name := text],
         if fill then p.fills + [Fill(name, FillBrush(colour))] else p.fills)
  }

  /**
   * Every selected filter among the first `n` has a table of at least two
   * rows. An empty file makes the unpacking of line 122 raise; a file of one
   * row is read by `np.genfromtxt` as a flat pair, which line 122 unpacks
   * into two numbers, and indexing a number on line 124 raises.
   */
  ghost predicate Drawable(names: seq<string>, selected: seq<bool>, data: map<string, Table>, n: nat)
  {
    n <= |names| && n <= |selected| &&
    forall i :: 0 <= i < n && selected[i] ==> names[i] in data && |data[names[i]]| >= 2
  }

  /**
   * The plot after the loop of `update_plot` has seen the first `n` list
   * items: the curves and labels belong to the same names, there are no
   * more fills than items, and none unless "fill" is checked.
   */
  function Plotted(names: seq<string>, selected: seq<bool>, data: map<string, Table>, fill: bool,
                   pow: (real, real) -> real, n: nat): (p: Plot)
    requires Drawable(names, selected, data, n)
    ensures p.curves.Keys == p.labels.Keys
    ensures |p.fills| <= n && (!fill ==> p.fills == [])
  {
    if n == 0 then Plot(map[], map[], [])
    else
      var p := Plotted(names, selected, data, fill, pow, n - 1);
      if selected[n - 1] then PlotFilter(p, names[n - 1], data[names[n - 1]], fill, pow) else p
  }

  /** The initial selection of lines 87-93: the first filter only. */
  function InitialSelection(n: nat): (sel: seq<bool>)
    ensures |sel| == n && forall i :: 0 <= i < n ==> (sel[i] <==> i == 0)
  {
    seq(n, i => i == 0)
  }

  class FilterViewer {
    const filterData: Dict
    const pow: (real, real) -> real
    /** The selection state of each list item, in `FILTER_DATA` order. */
    var selected: seq<bool>
    var fillChecked: bool
    var filterCurves: map<string, Curve>
    var labelItems: map<string, Label>
    /** The fills on the plot, in the order added. */
    var fills: seq<Fill>

    ghost predicate Valid()
      reads this
    {
      DictValid(filterData) && |selected| == |filterData.keys|
    }

    /** Lines 65-104: nothing is plotted until the first selection change. */
    constructor(data: Dict, pow: (real, real) -> real)
      requires DictValid(data)
      ensures Valid() && filterData == data && this.pow == pow
      ensures selected == InitialSelection(|data.keys|) && !fillChecked
      ensures filterCurves == map[] && labelItems == map[] && fills == []
    {
      filterData := data;
      this.pow := pow;
      selected := InitialSelection(|data.keys|);
      fillChecked := false;
      filterCurves := map[];
      labelItems := map[];
      fills := [];
    }

    /**
     * Lines 110-143. A selected filter whose table has fewer than two rows
     * raises (line 122 for an empty file, line 124 for a one-row file):
     * `failed` is then the index of the item being drawn, and what was drawn
     * before stays.
     */
    method UpdatePlot() returns (failed: Option<nat>)
      requires Valid()
      modifies this
      ensures Valid() && selected == old(selected) && fillChecked == old(fillChecked)
      ensures failed.None? ==>
        Drawable(filterData.keys, selected, filterData.values, |selected|) &&
        Plot(filterCurves, labelItems, fills)
          == Plotted(filterData.keys, selected, filterData.values, fillChecked, pow, |selected|)
      ensures failed.Some? ==>
        var k := failed.value;
        k < |selected| && selected[k] && |filterData.values[filterData.keys[k]]| <= 1 &&
        Drawable(filterData.keys, selected, filterData.values, k) &&
        Plot(filterCurves, labelItems, fills)
          == Plotted(filterData.keys, selected, filterData.values, fillChecked, pow, k)
    {
      var names, data := filterData.keys, filterData.values;
      fills := [];
      filterCurves := map[];
      labelItems := map[];
      var i := 0;
      while i < |selected|
        invariant 0 <= i <= |selected| && Valid()
        invariant selected == old(selected) && fillChecked == old(fillChecked)
        invariant Drawable(names, selected, data, i)
        invariant Plot(filterCurves, labelItems, fills) == Plotted(names, selected, data, fillChecked, pow, i)
      {
        var drawn := DrawItem(i);
        if !drawn {
          return Some(i);
        }
        i := i + 1;
      }
      return None;
    }

    /** Lines 112-143 for list item `i`: `false` when it is selected and its table has fewer than two rows. */
    method DrawItem(i: nat) returns (drawn: bool)
      requires Valid() && i < |selected| && Drawable(filterData.keys, selected, filterData.values, i)
      requires Plot(filterCurves, labelItems, fills) == Plotted(filterData.keys, selected, filterData.values, fillChecked, pow, i)
      modifies this
      ensures Valid() && selected == old(selected) && fillChecked == old(fillChecked)
      ensures drawn ==>
        Drawable(filterData.keys, selected, filterData.values, i + 1) &&
        Plot(filterCurves, labelItems, fills)
          == Plotted(filterData.keys, selected, filterData.values, fillChecked, pow, i + 1)
      ensures !drawn ==>
        selected[i] && |filterData.values[filterData.keys[i]]| <= 1 &&
        Plot(filterCurves, labelItems, fills) == old(Plot(filterCurves, labelItems, fills))
    {
      var name := filterData.keys[i];
      if !selected[i] {
        return true;
      }
      var t := filterData.values[name];
      if |t| <= 1 {
        return false;
      }
      DrawFilter(name, t);
      return true;
    }

    /** Lines 122-143: draw one selected filter's curve, label and, when asked, fill. */
    method DrawFilter(name: string, t: Table)
      requires t != []
      modifies this
      ensures selected == old(selected) && fillChecked == old(fillChecked)
      ensures Plot(filterCurves, labelItems, fills) == PlotFilter(old(Plot(filterCurves, labelItems, fills)), name, t, fillChecked, pow)
    {
      var colour := PeakColour(t, pow);
      var curve := Curve(name, Wavelengths(t), Throughputs(t), colour);
      if fillChecked {
        fills := fills + [Fill(name, FillBrush(colour))];
      }
      var peak := Peak(t);
      var text := Label(name, t[peak].wavelength, t[peak].throughput, colour);
      filterCurves := filterCurves[name := curve];
      labelItems := labelItems[name := text];
    }

    /** Lines 106-108: deselect everything and redraw, which leaves the plot empty. */
    method ClearSelection()
      requires Valid()
      modifies this
      ensures Valid() && fillChecked == old(fillChecked)
      ensures forall i :: 0 <= i < |selected| ==> !selected[i]
      ensures filterCurves == map[] && labelItems == map[] && fills == []
    {
      selected := seq(|selected|, i => false);
      var failed := UpdatePlot();
      NothingSelectedPlotsNothing(filterData.keys, selected, filterData.values, fillChecked, pow, |selected|);
    }
  }

  // ---------------------------------------------------------------------------
  // Properties

  /** The first maximal index is the only one: any index that is maximal and first is `ArgMax`. */
  lemma ArgMaxIsFirstMaximum(xs: seq<real>, k: nat)
    requires k < |xs|
    requires forall j :: 0 <= j < |xs| ==> xs[j] <= xs[k]
    requires forall j :: 0 <= j < k ==> xs[j] < xs[k]
    ensures ArgMax(xs) == Some(k)
  {
    var i := ArgMax(xs).value;
    assert !(i < k) && !(k < i);
  }

  /** With nothing selected, nothing is drawn. */
  lemma {:induction false} NothingSelectedPlotsNothing(names: seq<string>, selected: seq<bool>, data: map<string, Table>,
                                                      fill: bool, pow: (real, real) -> real, n: nat)
    requires n <= |names| && n <= |selected| && forall i :: 0 <= i < n ==> !selected[i]
    ensures Drawable(names, selected, data, n)
    ensures Plotted(names, selected, data, fill, pow, n) == Plot(map[], map[], [])
  {
    if n > 0 {
      NothingSelectedPlotsNothing(names, selected, data, fill, pow, n - 1);
    }
  }

  /** Exactly the selected filters have a curve and a label. */
  lemma {:induction false} PlottedNames(names: seq<string>, selected: seq<bool>, data: map<string, Table>,
                                        fill: bool, pow: (real, real) -> real, n: nat, name: string)
    requires Drawable(names, selected, data, n)
    ensures var p := Plotted(names, selected, data, fill, pow, n);
      (name in p.curves <==> exists i :: 0 <= i < n && selected[i] && names[i] == name) &&
      (name in p.labels <==> name in p.curves)
  {
    if n > 0 {
      PlottedNames(names, selected, data, fill, pow, n - 1, name);
      if selected[n - 1] && names[n - 1] == name {
        assert 0 <= n - 1 < n && selected[n - 1] && names[n - 1] == name;
      }
    }
  }

  /**
   * A selected filter (listed once) is drawn from its own table in the colour
   * of its peak wavelength, and labelled with its name at its peak.
   */
  lemma {:induction false} DrawnAtPeak(names: seq<string>, selected: seq<bool>, data: map<string, Table>,
                                       fill: bool, pow: (real, real) -> real, n: nat, i: nat)
    requires Drawable(names, selected, data, n) && i < n && selected[i]
    requires forall j :: 0 <= j < n && j != i ==> names[j] != names[i]
    ensures var p, t := Plotted(names, selected, data, fill, pow, n), data[names[i]];
      names[i] in p.curves && names[i] in p.labels &&
      p.curves[names[i]] == Curve(names[i], Wavelengths(t), Throughputs(t), WavelengthToColor(t[Peak(t)].wavelength, Gamma, pow)) &&
      p.labels[names[i]] == Label(names[i], t[Peak(t)].wavelength, t[Peak(t)].throughput, p.curves[names[i]].pen)
  {
    if n - 1 > i {
      DrawnAtPeak(names, selected, data, fill, pow, n - 1, i);
    }
  }

  /** Number of selected items among the first `n`. */
  function CountSelected(selected: seq<bool>, n: nat): nat
    requires n <= |selected|
  {
    if n == 0 then 0 else CountSelected(selected, n - 1) + (if selected[n - 1] then 1 else 0)
  }

  /** Every curve drawn is in the peak colour of the table stored under its name. */
  lemma {:induction false} CurvesInPeakColour(names: seq<string>, selected: seq<bool>, data: map<string, Table>,
                                              fill: bool, pow: (real, real) -> real, n: nat)
    requires Drawable(names, selected, data, n)
    ensures var p := Plotted(names, selected, data, fill, pow, n);
      forall name :: name in p.curves ==>
        name in data && data[name] != [] && p.curves[name].pen == PeakColour(data[name], pow)
  {
    if n > 0 {
      CurvesInPeakColour(names, selected, data, fill, pow, n - 1);
    }
  }

  /** With "fill" checked there is one fill per selected filter; unchecked there are none. */
  lemma {:induction false} OneFillPerSelectedFilter(names: seq<string>, selected: seq<bool>, data: map<string, Table>,
                                                    fill: bool, pow: (real, real) -> real, n: nat)
    requires Drawable(names, selected, data, n)
    ensures |Plotted(names, selected, data, fill, pow, n).fills| == (if fill then CountSelected(selected, n) else 0)
  {
    if n > 0 {
      OneFillPerSelectedFilter(names, selected, data, fill, pow, n - 1);
    }
  }

  /** Each fill belongs to a drawn curve and has that curve's colour with alpha 80. */
  lemma {:induction false} FillsFollowCurves(names: seq<string>, selected: seq<bool>, data: map<string, Table>,
                                             fill: bool, pow: (real, real) -> real, n: nat)
    requires Drawable(names, selected, data, n)
    ensures var p := Plotted(names, selected, data, fill, pow, n);
      forall k :: 0 <= k < |p.fills| ==>
        p.fills[k].curve in p.curves && p.fills[k].brush.a == FillAlpha &&
        SameRgb(p.fills[k].brush, p.curves[p.fills[k].curve].pen)
  {
    if n > 0 && selected[n - 1] {
      FillsFollowCurves(names, selected, data, fill, pow, n - 1);
      CurvesInPeakColour(names, selected, data, fill, pow, n - 1);
      var p := Plotted(names, selected, data, fill, pow, n - 1);
      var name := names[n - 1];
      var colour := PeakColour(data[name], pow);
      var q := PlotFilter(p, name, data[name], fill, pow);
      assert q.curves[name].pen == colour;
      forall k | 0 <= k < |q.fills|
        ensures q.fills[k].curve in q.curves && q.fills[k].brush.a == FillAlpha
        ensures SameRgb(q.fills[k].brush, q.curves[q.fills[k].curve].pen)
      {
        if k < |p.fills| {
          assert q.fills[k] == p.fills[k];
          var c := p.fills[k].curve;
          if c != name {
            assert q.curves[c] == p.curves[c];
          }
        } else {
          assert q.fills[k] == Fill(name, FillBrush(colour));
        }
      }
    } else if n > 0 {
      FillsFollowCurves(names, selected, data, fill, pow, n - 1);
      assert Plotted(names, selected, data, fill, pow, n) == Plotted(names, selected, data, fill, pow, n - 1);
    }
  }

  /** A pen is opaque exactly when the filter peaks inside [380, 750] nm, and every channel is in [0, 255]. */
  lemma PenOpacity(t: Table, pow: (real, real) -> real)
    requires t != [] && PowLaws(pow)
    ensures PeakColour(t, pow).a == 255.0 <==> 380.0 <= t[Peak(t)].wavelength <= 750.0
    ensures var c := PeakColour(t, pow); 0.0 <= c.r <= 255.0 && 0.0 <= c.g <= 255.0 && 0.0 <= c.b <= 255.0
  {
    ChannelsInByteRange(t[Peak(t)].wavelength, Gamma, pow);
  }
}
