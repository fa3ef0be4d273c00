# pyqtgraph-visualisations: a Dafny model of its logic

The repository holds three scripts around spectra: an element spectrum viewer
(`elementspectra/elementviewer.py`), the scraper that downloads the NIST line
lists that viewer shows (`elementspectra/scrape_nist.py`), and a viewer of
astronomical filter bands (`astrobands/astrobands.py`). Most of the code is
GUI and download glue. This project models the logic in between and proves
what it does:

- `Intensity`: `clean_element`, in both copies. It takes the longest prefix
  matching `^-?[\d.]+` of a table cell and converts that prefix with `float()`,
  which can raise. A NaN cell stays NaN.
- `SpectrumColour` and `AstroColour`: the two wavelength-to-colour maps.
  - The element viewer's is in [0, 1], with alpha 0.5 outside [380, 750] nm.
  - The filter viewer's is in [0, 255], with alpha 0.7 * 255 outside that range.
  - `x ** gamma` is the parameter `pow`. `PowLaws` states what is assumed of it.
- `ElementLines`: the element viewer's line selection.
  - Finite rows strictly inside (380, 750) nm are kept.
  - Kept intensities are divided by their maximum, and only values over 0.01 remain.
  - NaN and the infinities are the `Float` datatype, so a zero maximum behaves as numpy does.
- `SyntheticSpectrum`: the mock spectrum, as two array loops.
  - Summing the line profiles into `spec_1d`.
  - Spreading `spec_1d` column by column into `spectrum_2d`.
- `ElementFiles`: the element key cut out of `NIST/<number>-<symbol>-lines.npy`,
  and the path rebuilt from that key.
- `FilterData`: `FILTER_DATA`, an insertion-ordered dictionary keyed by the
  base name before its first `.`. A later file with the same name replaces the table.
- `FilterViewer`: the `FilterViewer` window as a class.
  - The initial selection and "Clear All".
  - `update_plot`, which rebuilds the `filter_curves` and `label_items`
    dictionaries and the fills.
  - Each filter is drawn in the colour of its first-argmax peak.
- `NistCleanup`: the scraper's four `str.replace` calls. `PyText` models
  Python's non-overlapping, left-to-right `str.replace`. It also models
  `str.split` and `str()` of a natural number.
- `NistScraper`: the scraper as a whole.
  - The 118 (atomic number, symbol) pairs.
  - The existence check and the save path.
  - Judging one downloaded page.
  - The main loop over a `DataDir`, a class holding the files on disk as a map.

A malformed intensity such as `1.2.3` is not treated as missing.
`clean_element` passes the matched prefix to `float()`, which raises
`ValueError`. In the viewer that stops `update_plot`; in the scraper the
element fails. See `Intensity.RejectedPrefixes` and
`NistScraper.RejectedCellFails`.

## Model

| member | source | states |
|---|---|---|
| Intensity.RunLength | elementspectra/elementviewer.py:40 | the leading run of digits and dots has only such characters and is followed by some other character or the end |
| Intensity.RunLengthIsLongest | elementspectra/elementviewer.py:40 | every prefix made only of digits and dots is at most that run, so the run is the longest |
| Intensity.MatchPrefix | elementspectra/elementviewer.py:40 | `re.match(r'^-?[\d.]+', s)`: the prefix found matches the pattern, and every matching prefix is found and is no longer than it |
| Intensity.RunLengthIgnoresSuffix | elementspectra/elementviewer.py:40 | text after a character other than a digit or a dot does not change the run |
| Intensity.MatchPrefixIgnoresSuffix | elementspectra/elementviewer.py:40 | appending text that starts with any other character does not change the match |
| Intensity.DotIndex | elementspectra/elementviewer.py:41 | the first `.` of a text |
| Intensity.DigitsAroundDot | elementspectra/elementviewer.py:41 | with one dot, both sides of it are digits only |
| Intensity.ParseUnsigned | elementspectra/elementviewer.py:41 | `float()` of digits and dots succeeds exactly for at most one dot and at least one digit, and is then non-negative |
| Intensity.ParseUnsignedInteger | elementspectra/elementviewer.py:41 | `float()` of digits without a dot is the integer they denote |
| Intensity.DigitsValueConcat | elementspectra/elementviewer.py:41 | appending digits `b` to `a` gives `a * 10^|b| + b` |
| Intensity.ParseUnsignedSplit | elementspectra/elementviewer.py:41 | `float("whole.frac")` is the value of `whole` plus the value of `frac` over `10^|frac|` |
| Intensity.ParseUnsignedValue | elementspectra/elementviewer.py:41 | `float("whole.frac")` is exact: the digits of `whole` and `frac` read as one integer, over `10^|frac|` |
| Intensity.ParseFloatOfDecimal | elementspectra/elementviewer.py:40-41 | `whole.frac` matches the pattern and parses to that exact value |
| Intensity.ParseUnsignedBounds | elementspectra/elementviewer.py:41 | `whole.frac` parses to a value between `whole` and `whole + 1` |
| Intensity.DigitsBelowPow10 | elementspectra/elementviewer.py:41 | an `n`-digit number is below `10^n` |
| Intensity.ParseFloat | elementspectra/elementviewer.py:41 | `float()` of a matched prefix succeeds exactly when the text after an optional `-` is a decimal, and the sign decides the sign of the value |
| Intensity.ParseFloatNegative | elementspectra/elementviewer.py:40-41 | a leading `-` negates the parsed value and fails exactly when the unsigned text fails |
| Intensity.ParseFloatOfDigits | elementspectra/elementviewer.py:41 | the decimal digits of `n` match the pattern and parse back to `n` |
| Intensity.CleanElement | elementspectra/elementviewer.py:36-41 | NaN exactly for a NaN cell or a cell with no matching prefix; `ValueError` exactly when the matched prefix is not a float; otherwise the value `float()` gives the matched prefix; never an infinity |
| Intensity.MatchPrefixWhole | elementspectra/elementviewer.py:40 | a text wholly in the pattern's language is its own match |
| Intensity.CleanAnnotated | elementspectra/elementviewer.py:38-41 | a matched number followed by text starting with any other character cleans as the number alone does |
| Intensity.CleanAnnotatedNumber | elementspectra/elementviewer.py:38-41 | a cell `n` followed by an annotation such as `bl` or `?` cleans to `n` |
| Intensity.CleanAnnotatedDecimal | elementspectra/elementviewer.py:38-41 | a cell `whole.frac` followed by an annotation cleans to the exact decimal value of `whole.frac` |
| Intensity.CleanAnnotatedNegated | elementspectra/elementviewer.py:38-41 | a cell `-q` followed by an annotation, where `q` parses to `v`, cleans to `-v` (so `-whole.frac?` cleans to minus the exact decimal) |
| Intensity.RejectedPrefixes | elementspectra/elementviewer.py:40-41 | `.`, `-.` and `1.2.3` match the pattern but `float()` rejects them, so `1.2.3e` raises |
| Intensity.CleanColumn | elementspectra/elementviewer.py:198 | the list comprehension succeeds exactly when every cell converts, and then holds each cell's value in order |
| SpectrumColour.Clamp | elementspectra/elementviewer.py:59-62 | the wavelength coloured lies in [380, 750], equals the input inside and the nearer end outside |
| SpectrumColour.BandColour | elementspectra/elementviewer.py:63-88 | the six band formulas; on its own band, with a positive gamma, every channel lies in [0, 1] |
| SpectrumColour.WavelengthToRgb | elementspectra/elementviewer.py:54-93 | alpha is 1 exactly when 380 <= w <= 750 and 0.5 exactly otherwise |
| SpectrumColour.OutOfRangeUsesNearestEnd | elementspectra/elementviewer.py:55-62 | below 380 nm the RGB is that of 380 nm, above 750 nm that of 750 nm |
| SpectrumColour.AnyContainingBandGivesColour | elementspectra/elementviewer.py:63-88 | whichever band holds the clamped wavelength gives the channels, so first-match choice does not matter |
| SpectrumColour.BreakpointsAgree | elementspectra/elementviewer.py:63-88 | at 440, 490, 510, 580 and 645 nm the two adjoining bands give the same R, G, B |
| SpectrumColour.FallbackUnreachable | elementspectra/elementviewer.py:89-92 | the clamped wavelength lies in one of the six bands, so for a real (non-NaN) wavelength the black branch is never taken |
| SpectrumColour.AttenuationBounds | elementspectra/elementviewer.py:64-85 | both attenuations lie in [0.3, 1] on their bands |
| SpectrumColour.BasesInUnitInterval | elementspectra/elementviewer.py:63-88 | every channel base before `** gamma` lies in [0, 1] on its band |
| SpectrumColour.ChannelsInUnitInterval | elementspectra/elementviewer.py:63-93 | for a positive gamma every channel lies in [0, 1] |
| AstroColour.WavelengthToColor | astrobands/astrobands.py:23-62 | alpha is 255 exactly when 380 <= w <= 750 and 0.7 * 255 exactly otherwise |
| AstroColour.ChannelsAreScaledElementColours | astrobands/astrobands.py:28-62 | R, G, B are 255 times those of the element viewer's `wavelength_to_rgb`; only alpha differs |
| AstroColour.ChannelsInByteRange | astrobands/astrobands.py:32-62 | for a positive gamma every channel lies in [0, 255] |
| AstroColour.OutOfRangeUsesNearestEnd | astrobands/astrobands.py:28-31 | an out-of-range wavelength gets the RGB of 380 or 750 nm, whichever is nearer |
| ElementLines.KeptRows | elementspectra/elementviewer.py:200 | the kept rows are increasing and hold exactly the rows passing the finite-and-in-range mask |
| ElementLines.Max | elementspectra/elementviewer.py:203 | `np.max` is an element of the array and no element exceeds it |
| ElementLines.Divide | elementspectra/elementviewer.py:203 | numpy division: finite exactly for a non-zero divisor, and then the quotient times the divisor is the dividend; by zero, NaN exactly for a zero dividend, otherwise the infinity of its sign |
| ElementLines.Gather | elementspectra/elementviewer.py:203 | `_amps2[keep]`: the kept intensities in order |
| ElementLines.Wavelengths | elementspectra/elementviewer.py:202 | `_wavs[keep]`: the kept wavelengths in order |
| ElementLines.Normalised | elementspectra/elementviewer.py:203 | each kept intensity divided by the maximum |
| ElementLines.StrongRows | elementspectra/elementviewer.py:205-207 | the rows whose normalised intensity exceeds 0.01: all of them, only them, in kept order |
| ElementLines.SelectLines | elementspectra/elementviewer.py:200-207 | `None` (where `np.max` raises) exactly when no row is kept; the outputs are parallel |
| ElementLines.MaxNonZeroWhenSomethingExceeds | elementspectra/elementviewer.py:203-205 | if some row survives the threshold, the maximum was non-zero |
| ElementLines.SelectLinesParts | elementspectra/elementviewer.py:200-207 | the selection is the strong rows of the kept rows, with their wavelengths and normalised intensities |
| ElementLines.SelectionPreservesOrder | elementspectra/elementviewer.py:202-207 | the selected rows are strictly increasing, so the outputs are order-preserving subsequences |
| ElementLines.SelectionIsExactlyTheStrongLines | elementspectra/elementviewer.py:200-207 | a row is selected exactly when it is kept and its normalised intensity exceeds 0.01 |
| ElementLines.SelectedIffVisibleAndStrong | elementspectra/elementviewer.py:200-206 | with a positive maximum, a row is selected exactly when wavelength and intensity are finite, the wavelength is strictly inside (380, 750) and the normalised intensity exceeds 0.01 |
| ElementLines.KeptIndex | elementspectra/elementviewer.py:200-202 | every row passing the mask has a position among the kept rows |
| ElementLines.SelectedWavelengths | elementspectra/elementviewer.py:202-207 | each selected wavelength is the input wavelength of its row, and that row passes the mask |
| ElementLines.SelectedIntensities | elementspectra/elementviewer.py:203-206 | each selected intensity is its row's cleaned intensity divided by the kept maximum |
| ElementLines.SelectionBounds | elementspectra/elementviewer.py:200-207 | every selected wavelength lies strictly in (380, 750) and every selected intensity exceeds 0.01 |
| ElementLines.PositiveMaxNormalisesToOne | elementspectra/elementviewer.py:203-206 | with a positive maximum every selected value is at most 1 and some value is exactly 1 |
| ElementLines.StrongestIsSelected | elementspectra/elementviewer.py:203-206 | with a positive maximum, some selected intensity is exactly 1 |
| ElementLines.NormalisedAtMostOne | elementspectra/elementviewer.py:203 | with a positive maximum no selected intensity exceeds 1 |
| ElementLines.StrongKeptRowIsSelected | elementspectra/elementviewer.py:205-206 | a kept row over the threshold is among the selected rows |
| ElementLines.KeptAtMostMax | elementspectra/elementviewer.py:203 | every kept intensity is finite and at most `np.max` of the kept intensities |
| ElementLines.MaxIndex | elementspectra/elementviewer.py:203 | some kept row holds the maximum |
| ElementLines.ZeroMaxKeepsNothing | elementspectra/elementviewer.py:203-207 | with a zero maximum (0/0 is NaN, a negative over 0 is -inf) nothing is selected |
| SyntheticSpectrum.Accumulate | elementspectra/elementviewer.py:240-244 | `spec_1d[j]` is the sum over the lines of amplitude times profile at the distance from the line; all zeros with no lines |
| SyntheticSpectrum.AddLine | elementspectra/elementviewer.py:243-244 | one `spec_1d += spectrum_tmp` adds one line's profile at every grid point |
| SyntheticSpectrum.Spread | elementspectra/elementviewer.py:246-248 | every cell `spectrum_2d[r, i]` is `spec_1d[i] * spatial_psf[r]`, for every column |
| SyntheticSpectrum.AddToColumn | elementspectra/elementviewer.py:248 | one column gets `flux * psf` added; every other column is unchanged |
| SyntheticSpectrum.AllColumnsAreScaledKernels | elementspectra/elementviewer.py:246-248 | after the spread, each column is the kernel scaled by `spec_1d[i]` and sums to `spec_1d[i]` times the kernel sum |
| SyntheticSpectrum.ColumnIsScaledKernel | elementspectra/elementviewer.py:248 | a column holding `flux * psf` is the scaled kernel and sums to `flux` times the kernel sum |
| SyntheticSpectrum.SumScale | elementspectra/elementviewer.py:248 | the sum of a scaled column is the scale times the sum |
| SyntheticSpectrum.LineSumScales | elementspectra/elementviewer.py:242-244 | scaling every amplitude by `c` scales the spectrum by `c` |
| SyntheticSpectrum.LineSumPrefix | elementspectra/elementviewer.py:242-244 | the first `n` lines contribute the same whatever follows them |
| SyntheticSpectrum.LineSumSplits | elementspectra/elementviewer.py:242-244 | the spectrum of two line lists together is the sum of their spectra |
| SyntheticSpectrum.LineSumSigns | elementspectra/elementviewer.py:242-244 | lines of zero amplitude give a zero spectrum; non-negative amplitudes and profile give a non-negative spectrum |
| ElementFiles.Stem | elementspectra/elementviewer.py:175 | `f.split('/')[1].split('.')[0]` holds no `/` and no `.` |
| ElementFiles.ElementKey | elementspectra/elementviewer.py:175 | the key exists exactly when the path has a `/` and its stem a `-`; it then holds exactly one `-` and no `/` or `.` |
| ElementFiles.ElementKeys | elementspectra/elementviewer.py:174-175 | the comprehension succeeds exactly when every file has a key, and holds each file's key in order |
| ElementFiles.ElementPath | elementspectra/elementviewer.py:195 | the path starts with `NIST/`, ends with `-lines.npy` and is 15 characters longer than the key |
| ElementFiles.StemOfSavedFile | elementspectra/elementviewer.py:175 | the stem of `NIST/<a>-<e>-lines.npy` is `<a>-<e>-lines` |
| ElementFiles.KeyOfSavedFile | elementspectra/elementviewer.py:175 | the key of `NIST/<a>-<e>-lines.npy` is `<a>-<e>` when `a` and `e` hold no `-`, `.` or `/` |
| ElementFiles.PathRoundTrip | elementspectra/elementviewer.py:195 | rebuilding the path from the key of line 175 gives the saved file back |
| ElementFiles.KeyRoundTrip | elementspectra/elementviewer.py:195 | the key of the path built from `<a>-<e>` is `<a>-<e>` |
| ElementFiles.NoDashRaises | elementspectra/elementviewer.py:175 | a file name with no `-` makes the comprehension raise |
| FilterData.BaseName | astrobands/astrobands.py:20 | `f.split('/')[-1]` holds no `/` |
| FilterData.FilterName | astrobands/astrobands.py:20 | the name holds no `/` and no `.` |
| FilterData.FilterNameOfPath | astrobands/astrobands.py:20 | the name of `<dir>/<name>.<ext>` is `<name>`, whatever the directories |
| FilterData.InsertKeepsValid | astrobands/astrobands.py:21 | `FILTER_DATA[name] = tmp` keeps every key listed once and in step with the stored values |
| FilterData.InsertAssigns | astrobands/astrobands.py:21 | `FILTER_DATA[name] = tmp` maps the name to the table and keeps every other entry; the keys keep their order, the name added at the end only when new |
| FilterData.BuildFilterData | astrobands/astrobands.py:17-21 | the loop builds the dictionary of inserting each file's table under its name, in order, and keeps it valid |
| FilterData.KeysAreFileNames | astrobands/astrobands.py:17-21 | the keys are exactly the names of the files |
| FilterData.LastFileWins | astrobands/astrobands.py:18-21 | when two files share a name, the later one's table is stored |
| FilterData.NoMoreKeysThanFiles | astrobands/astrobands.py:17-21 | there are never more keys than files |
| FilterData.FirstPositionKept | astrobands/astrobands.py:21 | a name keeps the position of its first insertion |
| FilterData.FilterOfEveryFile | astrobands/astrobands.py:17-21 | each file's table is stored under its name unless a later file has the same name |
| FilterViewer.ArgMax | astrobands/astrobands.py:124 | `np.argmax`: raises exactly on an empty array; otherwise an index holding the maximum, above every earlier value |
| FilterViewer.ArgMaxIsFirstMaximum | astrobands/astrobands.py:124 | any first maximal index is the one `np.argmax` returns |
| FilterViewer.Peak | astrobands/astrobands.py:135 | the peak row has the largest throughput and is the first row that has it |
| FilterViewer.PeakColour | astrobands/astrobands.py:124-125 | the pen colour is that of the wavelength of the first row of largest throughput |
| FilterViewer.PlotFilter | astrobands/astrobands.py:122-143 | one selected filter: curve and label stored under its name in the peak colour, one fill appended when checked, every other name unchanged |
| FilterViewer.Plotted | astrobands/astrobands.py:113-143 | after any number of items, curves and labels belong to the same names; at most one fill per item and none when unchecked |
| FilterViewer.FilterViewer.constructor | astrobands/astrobands.py:65-104 | the first item selected, fill unchecked, empty dictionaries and plot |
| FilterViewer.FilterViewer.UpdatePlot | astrobands/astrobands.py:110-143 | the plot, both dictionaries and the fills are those of drawing every selected filter in list order; when a selected table has fewer than two rows, the index where lines 122-124 raised and what was drawn before it |
| FilterViewer.FilterViewer.DrawItem | astrobands/astrobands.py:116-143 | one pass of the loop: an unselected item changes nothing; a selected one is drawn, or fails and changes nothing when its table has fewer than two rows (line 122 raises for an empty file, line 124 for a one-row file) |
| FilterViewer.FilterViewer.DrawFilter | astrobands/astrobands.py:122-143 | curve, label and (when checked) fill of one filter are added as one `PlotFilter` step |
| FilterViewer.FilterViewer.ClearSelection | astrobands/astrobands.py:106-108 | nothing stays selected, and the dictionaries and fills are empty |
| FilterViewer.NothingSelectedPlotsNothing | astrobands/astrobands.py:116-120 | with nothing selected, nothing is drawn |
| FilterViewer.PlottedNames | astrobands/astrobands.py:116-143 | a name has a curve exactly when a selected item has it, and a label exactly when it has a curve |
| FilterViewer.DrawnAtPeak | astrobands/astrobands.py:124-139 | a selected filter's curve is its own table in the colour of the peak wavelength, and its label sits at the peak |
| FilterViewer.CurvesInPeakColour | astrobands/astrobands.py:124-128 | every curve is drawn in the peak colour of the table stored under its name |
| FilterViewer.OneFillPerSelectedFilter | astrobands/astrobands.py:130-133 | with fill checked there is one fill per selected filter; unchecked there are none |
| FilterViewer.FillsFollowCurves | astrobands/astrobands.py:130-133 | each fill belongs to a drawn curve, has that curve's RGB and alpha 80 |
| FilterViewer.PenOpacity | astrobands/astrobands.py:124-126 | the pen is opaque exactly when the peak lies in [380, 750] nm, and every channel is in [0, 255] |
| PyText.Split | astrobands/astrobands.py:20 | `str.split`: never empty, and no part holds the separator |
| PyText.JoinSplit | astrobands/astrobands.py:20 | joining the parts of a split gives the text back |
| PyText.SplitJoin | astrobands/astrobands.py:20 | splitting a join of separator-free parts gives the parts back |
| PyText.SplitNoSep | astrobands/astrobands.py:20 | a text without the separator splits into itself |
| PyText.SplitConcat | astrobands/astrobands.py:20 | splitting at one separator splits each side apart |
| PyText.SplitAtFirstSep | elementspectra/elementviewer.py:175 | the first part ends at the first separator |
| PyText.SplitHasSecondPart | elementspectra/elementviewer.py:175 | there is a second part exactly when the separator occurs |
| PyText.SplitKeepsAbsent | elementspectra/elementviewer.py:175 | a character absent from the text is absent from every part |
| PyText.ReplaceNotLonger | elementspectra/scrape_nist.py:48-51 | a replacement no longer than its pattern never lengthens the text |
| PyText.ReplaceKeepsCount | elementspectra/scrape_nist.py:48-51 | a character pattern and replacement hold equally often keeps its count |
| PyText.ReplaceKeepsAbsent | elementspectra/scrape_nist.py:48-51 | a character in neither the text nor the replacement stays absent |
| PyText.ReplaceRemovesChar | elementspectra/scrape_nist.py:48 | replacing a character by text without it removes every occurrence |
| PyText.ReplaceConcat | elementspectra/scrape_nist.py:49-51 | with no match across the seam, replacing works on each side apart |
| PyText.ReplaceWithoutMatch | elementspectra/scrape_nist.py:48-51 | text without the pattern's first character is left alone |
| PyText.ReplaceUnchanged | elementspectra/scrape_nist.py:48-51 | replacing a pattern by itself, or in text shorter than the pattern, changes nothing |
| PyText.NoStraddleWhenFirstAbsent | elementspectra/scrape_nist.py:49 | no match can begin in text lacking the pattern's first character |
| PyText.NoMatchAtSeam | elementspectra/scrape_nist.py:49-51 | no match starts at the seam when none straddles it and the left side does not start one |
| PyText.NoStraddleSuffix | elementspectra/scrape_nist.py:49-51 | no match straddles the seam after a suffix of a side that has none |
| PyText.NatToString | elementspectra/scrape_nist.py:26 | `str(n)`: decimal digits denoting `n`, with no leading zero |
| NistCleanup.NoEqualsOrQuotes | elementspectra/scrape_nist.py:48-51 | the cleaned text holds no `=` and no `"` |
| NistCleanup.StripEquals | elementspectra/scrape_nist.py:48 | every `=` is removed; the text does not grow and every other character keeps its count |
| NistCleanup.MarkEmptyFields | elementspectra/scrape_nist.py:49 | the text does not grow; a character in neither the pattern nor `NaN,` keeps its count |
| NistCleanup.StripQuotesAndPlus | elementspectra/scrape_nist.py:50-51 | every `"` is removed; the text does not grow and every character other than `"` and `+` keeps its count |
| NistCleanup.PlainTextUnchanged | elementspectra/scrape_nist.py:48-51 | a text holding no `=`, `"` or `+` comes out of the four replacements unchanged |
| NistCleanup.KeepsTabsAndNewlines | elementspectra/scrape_nist.py:48-51 | the number of tabs and of newlines is unchanged |
| NistCleanup.NeverLonger | elementspectra/scrape_nist.py:48-51 | cleanup never makes the text longer |
| NistCleanup.EmptyFieldBecomesNaN | elementspectra/scrape_nist.py:49-50 | every empty quoted field of the `=`-stripped text becomes `NaN,` and survives quote removal; the text on each side is cleaned apart |
| NistCleanup.EmptyFieldNeverStraddles | elementspectra/scrape_nist.py:49 | no match of the empty-field pattern starts before an empty field and runs into it, so the left-to-right scan finds every one |
| NistCleanup.KeepsNaNMark | elementspectra/scrape_nist.py:50-51 | the last two steps work on each side of a `NaN,` apart and leave it in place |
| NistScraper.AtomicNumbers | elementspectra/scrape_nist.py:26 | 118 strings of digits, the `i`-th denoting `i + 1` |
| NistScraper.Zip | elementspectra/scrape_nist.py:34 | `zip` pairs up to the shorter list, position by position |
| NistScraper.ZipNumbered | elementspectra/scrape_nist.py:34 | zipped with the numbers, each symbol gets the decimal text of its position plus one |
| NistScraper.Pairs | elementspectra/scrape_nist.py:34 | both lists have 118 entries, so `zip` drops no symbol; the symbol at index `i` is paired with the text of `i + 1` |
| NistScraper.NpSaveTarget | elementspectra/scrape_nist.py:62 | `np.save` writes the name given, ending in `.npy` |
| NistScraper.ExistsPath | elementspectra/scrape_nist.py:37 | the checked path is the save name of line 62 with `.npy` appended, under `./NIST/`, ending in `-lines.npy` |
| NistScraper.SaveName | elementspectra/scrape_nist.py:62 | the name given to `np.save` is under `./NIST/` and does not end in `.npy` |
| NistScraper.SaveTargetIsCheckedPath | elementspectra/scrape_nist.py:62 | the file `np.save` writes is exactly the one checked on line 37 |
| NistScraper.ViewerPathPrefixed | elementspectra/scrape_nist.py:37 | the checked path is `./` followed by the element viewer's path of `<a>-<e>` |
| NistScraper.SavedWhereViewerLooks | elementspectra/scrape_nist.py:37 | the saved file is the one the element viewer opens for the key `<a>-<e>`, and its key is `<a>-<e>` |
| NistScraper.PathsDistinct | elementspectra/scrape_nist.py:37 | no two elements share a path |
| NistScraper.CountFinite | elementspectra/scrape_nist.py:59 | the count of finite values is positive exactly when one is finite |
| NistScraper.Judge | elementspectra/scrape_nist.py:46-63 | judging a downloaded page never yields a skip |
| NistScraper.JudgeCases | elementspectra/scrape_nist.py:46-63 | in check order: request failure, parse failure, fewer than 3 columns, no `intens` column; saved exactly when every cell converts and one is finite, and then the table parsed is saved |
| NistScraper.RejectedCellFails | elementspectra/scrape_nist.py:58 | a cell `float()` rejects makes the element fail instead of stopping the run |
| NistScraper.WholeMatch | elementspectra/scrape_nist.py:31 | a text the pattern matches whole is its own match |
| NistScraper.TwoPointsRaise | elementspectra/scrape_nist.py:31-32 | `1.2.3` makes `clean_element` raise |
| NistScraper.AttemptNeverSkips | elementspectra/scrape_nist.py:40-63 | fetching and judging a page never reports a skip |
| NistScraper.Attempt | elementspectra/scrape_nist.py:40-63 | a symbol's outcome is the judgement of the page fetched from its URL, never a skip |
| NistScraper.Decide | elementspectra/scrape_nist.py:37-63 | an element whose file exists is skipped; with an attempt that never skips, skipped exactly when its file exists |
| NistScraper.Step | elementspectra/scrape_nist.py:35-66 | one pass appends the element's outcome; when its file exists, neither a request nor a write happens |
| NistScraper.Run | elementspectra/scrape_nist.py:34-66 | after `n` elements there are `n` outcomes and at most `n` requests |
| NistScraper.ScrapeAll | elementspectra/scrape_nist.py:34-66 | the files, outcomes and URLs requested are those of running the loop body over every pair from the directory at the start |
| NistScraper.ScrapeNist | elementspectra/scrape_nist.py:34-66 | the script: 118 outcomes, one per element in periodic-table order |
| NistScraper.StepFiles | elementspectra/scrape_nist.py:35-66 | one pass appends the element's outcome, adds its file exactly when it is saved, and requests a page exactly when the file is missing |
| NistScraper.StepKeeps | elementspectra/scrape_nist.py:62 | one pass leaves every other file as it was |
| NistScraper.OutcomesStay | elementspectra/scrape_nist.py:34-66 | an element's outcome is fixed once decided; a failure does not stop the loop |
| NistScraper.NotYetWritten | elementspectra/scrape_nist.py:37-39 | before element `k` is reached, its file is there exactly when it was there at the start |
| NistScraper.NeverOverwrites | elementspectra/scrape_nist.py:37-39 | a file present at the start is never overwritten or removed |
| NistScraper.SkippedIffPresent | elementspectra/scrape_nist.py:37-39 | an element is skipped exactly when its file existed, and otherwise gets the judgement of its page |
| NistScraper.SavedPathsMembers | elementspectra/scrape_nist.py:62 | a path counts as saved exactly when some saved element has it |
| NistScraper.SavedPathsPrefix | elementspectra/scrape_nist.py:62 | the saved paths depend only on the outcomes so far |
| NistScraper.FinalFiles | elementspectra/scrape_nist.py:34-66 | the files at the end are those at the start plus the file of every saved element |
| NistScraper.SavedTableKept | elementspectra/scrape_nist.py:62 | a saved element's file holds the table read for it, and later elements leave it alone |
| NistScraper.RequestsInOrder | elementspectra/scrape_nist.py:37-46 | a page is requested for every element whose file was missing, in element order, and for no other |

## Left out

- Widgets, layouts, signals, legends, drawing and styling are left out. Only the items put on the filter plot are modelled.
- Network and parsing are parameters, because they are I/O and foreign libraries:
  - `requests.get` is `fetch`, which gives `None` when the request raises.
  - `pd.read_csv` is `parse`, which yields the column count and the `intens` column.
- No file I/O is modelled:
  - `np.load`, `np.genfromtxt` (the parameter `load`) and `glob` read files.
  - `np.save` is an insertion into `DataDir.files`; its own failures are not modelled.
- `natsorted` (elementviewer.py:176) only reorders the element list offered in the widget; `ElementFiles.ElementKeys` gives the keys in the `sorted(glob)` order of lines 174-175, and the natural-sort order is not modelled.
- `tqdm` and the `print` calls only report progress and do not affect what is computed.
- The Gaussian kernels (`np.exp`, `np.linspace`) and the line profile are given inputs (`psf`, `profile`), because they are floating-point library code.
- `scipy.ndimage.convolve`, the RGBA image, the `spectralmap` colour map and the colours of the viewer's spectral lines are library calls and display.
- Arithmetic is exact, on reals:
  - IEEE rounding, overflow to infinity and the sign of zero are not modelled.
  - `float()` gives the exact decimal value.
  - `\d` means ASCII digits only.
- Intensity.CleanElement: a cell is a NaN or a text. `str()` of other cell types (a float, for instance) is not modelled.
- FilterViewer.ArgMax: throughputs are reals, so numpy's NaN ordering in `np.argmax` and `np.max` is not modelled.
- SpectrumColour.FallbackUnreachable: wavelengths are reals, never NaN. A NaN wavelength (in the filter viewer, a row of a filter file with a missing wavelength) fails every comparison and takes the black fallback in both colour maps; the lemma holds for non-NaN input only.
- SpectrumColour.PowLaws: `x ** gamma` is only assumed to satisfy these laws on [0, 1] for a positive gamma. The channel bounds are proved under that assumption; a negative gamma is not covered.
- SyntheticSpectrum.Spread: it takes any 1-D spectrum and kernel. The program fixes the sizes at 1000 grid points and 100 rows.
- NistScraper.ScrapeAll: the loop's log of pages requested holds symbols. The method returns the URLs of those symbols.
- NistScraper.Url: no contract; it is the literal URL text of lines 40-45.
- FilterViewer.FilterViewer.UpdatePlot: the legend (line 112) and the curves' zero baseline for the fill (line 131) are not modelled.
