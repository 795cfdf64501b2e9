# covid_plot decision logic in Dafny

This project models the parts of covid_plot that make decisions rather than
draw pictures:

- the word for "day" (день / дня / дней) that the web page's script writes
  after the two forecast-period inputs, together with the country select-box
  size and the text of the collapse button;
- the index arithmetic of the neural forecaster's `WindowGenerator`: its
  input and label ranges, `split_window` and the cached `example`;
- the curve-fit forecast up to the optimiser's check of its input: which
  curve is chosen, which days the forecast covers, which rows the fit uses,
  and whether there are enough of them;
- `preprocess`, which turns the two Johns Hopkins tables into one row per
  (Place, Date);
- region selection and the figure description in `process`;
- the web handler: the "World"-first country list and the GET/POST branches
  of `show_plot`, including a `process` that stops the request.

Timestamps are integer seconds (`Cases.Stamp`). A day number is the floor of
a timestamp divided by 86400. Seconds are needed because current-day rows are
moved back one day but keep their time of day. They therefore do not merge
with the midnight rows of the time series. Counts are naturals. A dataframe is
a sequence of records. Python's `str` order is lexicographic by code point
(`Strings.Less`). JavaScript's `%` is the truncating remainder `Script.JsRem`.
The way a run of the scripts ends is an `Outcomes.Result`. A value is `Ok`;
`Halted(Exit(code))` stands for `sys.exit(code)`; `Halted(Raise(e))` stands
for a Python exception that escapes.

Files and modules:

| file | module | what it holds |
|---|---|---|
| outcomes.dfy | Outcomes | `Result`, `Option`, a loop that stops at the first failure, Python truthiness of a string field |
| strings.dfy | Strings | string order, `sorted`, `sorted(set(...))`, `int()` / `str()` |
| script.dfy | Script | the page script's decision functions |
| slices.dfy | Slices | `np.arange`, Python slices, boolean masks, `enumerate` dicts |
| windows.dfy | Windows | `WindowGenerator` and `fit_model`'s window |
| cases.dfy | Cases | rows, keys, group-by-sum sorted by (Place, Date) |
| arguments.dfy | Arguments | the `args` namespace |
| preprocess.dfy | Preprocess | `preprocess` |
| forecast.dfy | Forecasts | `forecast` |
| process.dfy | Figures | `process` |
| web.dfy | Web | module load and `show_plot` of covid_web.py |

## Model

| member | source | states |
|---|---|---|
| Script.NomMatchesGrammar | data/js/script.js:58-77 | For every n >= 0, `modifyLabelNom` gives дней when n % 100 is in 11..19. Otherwise it gives день when n % 10 == 1, дня when n % 10 is 2, 3 or 4, and дней for any other last digit. This is the Russian agreement rule written on decimal digits. |
| Script.GenMatchesGrammar | data/js/script.js:79-85 | For every n >= 0, `modifyLabelGen` gives дня exactly when n % 10 == 1 and n % 100 != 11, and дней otherwise. |
| Script.ModifyLabelGen | data/js/script.js:79-85 | `modifyLabelGen` never yields день. |
| Script.NegativeIsPlural | data/js/script.js:58-85 | Under the truncating remainder, every negative value gets дней from both label functions. |
| Script.LabelsPeriodic | data/js/script.js:58-85 | n and n + 100 get the same word from both functions, for every n >= 0. |
| Script.PeriodicityFailsAcrossZero | data/js/script.js:58-77 | The period does not extend below zero: -99 gets дней while 1 gets день. |
| Script.JsRem | data/js/script.js:59-62 | JavaScript's `%` for a positive divisor: a remainder of the dividend's sign, smaller in size than the divisor. |
| Script.WordInjective | data/js/script.js:52-56 | The three entries of the `cases` table are distinct words. |
| Script.ChangeSelectSize | data/js/script.js:24-34 | The select size is "15" exactly when `innerWidth >= 768`, and "5" exactly otherwise. |
| Script.ToggleButtonText | data/js/script.js:9-16 | The button shows `textClosed` exactly when `aria-expanded` is the string "true", and `textOpened` for any other value, including a missing attribute. |
| Slices.Arange | cnn_forecast_methods.py:21 | `np.arange(n)` is 0..n-1, with length max(n, 0). |
| Slices.SliceBound | cnn_forecast_methods.py:20-23 | A slice bound lands in [0, len]. An in-range bound is kept. A negative bound counts from the end. A bound above len gives len, and one below -len gives 0. A missing bound takes the default. |
| Slices.Slice | cnn_forecast_methods.py:21-24 | `s[start:stop]` has length max(hi - lo, 0) and holds s[lo + i] at position i. |
| Slices.IndexMap | cnn_forecast_methods.py:14-15 | The dict built by `enumerate` has exactly the listed names as keys. Each key maps to a position holding that name. For a repeated name, that is its last position. |
| Slices.IndexMapDistinct | cnn_forecast_methods.py:14-15 | With distinct names, `column_indices[names[i]] == i`. |
| Windows.NewWindow | cnn_forecast_methods.py:7-24 | `total_window_size == input_width + shift`. With shift >= 0, `input_indices` is [0, input_width). With 0 <= label_width <= total, `label_indices` is the last label_width steps. `column_indices` has exactly the frame's columns as keys, and `label_columns_indices` exactly the label columns. Each key maps to a position holding it. `input_slice` is `slice(0, input_width)`, `label_start` is `total_window_size - label_width` and `labels_slice` is `slice(label_start, None)`. No example is cached. |
| Windows.RangesDisjointIff | cnn_forecast_methods.py:19-24 | The input and label steps share no position exactly when label_width <= shift or input_width == 0. |
| Windows.FitModelWindowAdjacent | cnn_forecast_methods.py:122-125 | In the window `fit_model` builds, labels start at IN_STEPS. Input indices followed by label indices are exactly 0..IN_STEPS+OUT_STEPS-1. |
| Windows.SplitWindow | cnn_forecast_methods.py:26-33 | On a batch of static shape [windows, steps, width], inputs are each window's `input_slice` and labels its `labels_slice`. With `label_columns`, label step t holds the named features in `label_columns` order. The errors come in the source's order. While the names are looked up, an unknown name raises KeyError and a position past the width IndexError. Stacking an empty name list raises IndexError. Then `set_shape` raises ValueError unless the inputs keep `input_width` steps and the labels `label_width` steps. The split succeeds exactly when none of these fails, and then every input window has `input_width` steps and every label window `label_width` steps. |
| Windows.ColumnsError | cnn_forecast_methods.py:30 | The lookup of the label columns succeeds exactly when every name is a known column within the feature axis. Otherwise it raises KeyError or IndexError. |
| Windows.SliceWindows | cnn_forecast_methods.py:27-28 | `features[:, lo:hi, :]` slices every window the same way. |
| Windows.SlicedShape | cnn_forecast_methods.py:27-30 | Slicing steps keeps the whole feature axis, so every column position below the width is valid, and every window keeps the same number of steps. |
| Windows.PickColumns | cnn_forecast_methods.py:30 | Stacking the picked columns gives step t, column c = `window[t][column_indices[label_columns[c]]]`. |
| Windows.SplitWindowShapes | cnn_forecast_methods.py:7-33 | On full-length windows with `label_width <= total_window_size`, the split succeeds; inputs are the first input_width steps and labels the last label_width steps. |
| Windows.LabelWiderThanWindowFails | cnn_forecast_methods.py:16-33 | A `label_width` above `total_window_size` cannot be filled by `labels_slice`, so `set_shape` raises ValueError on every batch of full-length windows. |
| Windows.Example | cnn_forecast_methods.py:80-87 | A read of `example` returns the cached value when there is one. Otherwise it returns the batch the training set offers. Either way, the returned value is then cached. |
| Windows.ExampleReadsStable | cnn_forecast_methods.py:80-87 | Over any number of reads, and whatever the dataset yields, every read returns the first value. |
| Strings.ParseInt | process_procedures.py:35-36 | `int(s)` succeeds exactly on an optional sign followed by decimal digits. Its value is the sign times the positional value of the digits, so leading zeros and "+" are accepted. Anything else raises ValueError, and `None` raises TypeError. |
| Strings.DigitsPositional | process_procedures.py:35-36 | Accumulating the digits left to right, times ten at each step, gives the positional sum of digit times power of ten. |
| Strings.ParseIntForms | process_procedures.py:35-36 | "+5" reads as 5, "007" as 7 and "-0" as 0. "5 5" raises ValueError. |
| Strings.ParseShowInt | process_procedures.py:35-36 | `int(str(n)) == n` for every integer n. |
| Forecasts.SelectFunction | process_procedures.py:24-33 | 'linear', 'poly' and 'covid' select their curve, each exactly. Any other name, `None` included, exits with -1. |
| Forecasts.ArgInt | process_procedures.py:35-36 | A missing list entry raises IndexError. A present one is parsed by `int()`. |
| Forecasts.Forecast | process_procedures.py:21-61 | The steps fail in the source's order. An empty list raises IndexError. A bad name exits with -1. Then both periods are parsed in order, and the first unparsable one decides the error. Then an empty table raises IndexError at `date[-1]`. Then `curve_fit` checks its input: an empty fitting window raises ValueError, and one with fewer points than the curve has parameters raises TypeError. The forecast reaches the optimiser exactly when all of these pass, and then yields the plan for the parsed values. |
| Web.PreprocessedBackwardRaises | process_procedures.py:35-61 | On any region of the `preprocess` table, a forecast with `on_period <= 0` raises ValueError: the region's dates increase, so no row is later than `date_backward`. |
| Forecasts.NonPositiveBackwardRaises | process_procedures.py:35-61 | With `on_period <= 0` and dates that never decrease, no row is later than `date_backward`, so the forecast raises ValueError. |
| Forecasts.NoRowAfterLast | process_procedures.py:43-55 | With dates that never decrease, no row of the pool is later than the last date moved back by a non-positive number of days. |
| Forecasts.Plan | process_procedures.py:35-55 | `xmax` is `date_forward`. The forecast days are the day numbers from current - backward onward, max(forward + backward, 0) of them. The fitted dates and values are the date and value columns of the same rows. Those rows are the ones dated after `date_backward`. |
| Forecasts.ShiftDays | process_procedures.py:44-47 | Moving a timestamp by n days moves its day number by n. So `np.arange` over the two day numbers covers [current - backward, current + forward). |
| Forecasts.FittingMaskFilters | process_procedures.py:51-54 | `cases[backward_condition]` equals the rows strictly after `date_backward`. These come from the whole table when `forec_current_day` is set, and from all rows but the last otherwise. |
| Forecasts.FittingColumns | process_procedures.py:51-55 | Masking the date and value columns with `backward_condition` gives the columns of those same rows, so the two stay aligned. |
| Forecasts.SelectColumns | process_procedures.py:54-55 | Masking a column equals taking the column of the masked table, for dates and for values. |
| Forecasts.SelectByDate | process_procedures.py:51 | A mask that compares each row's date with a cut-off selects exactly the rows after the cut-off, in order. |
| Forecasts.RowsAfter | process_procedures.py:51 | The rows dated strictly after t are exactly the table's rows with a date above t. |
| Forecasts.DateColumn | process_procedures.py:39 | `cases.Date.to_numpy()` has one date per row, in row order. |
| Forecasts.ValueColumn | process_procedures.py:40 | `cases[field_name].to_numpy()` has one value per row, in row order. |
| Slices.Select | process_procedures.py:54-55 | `a[mask]` has as many elements as the mask has true entries. It holds every element whose mask entry is true, and only such elements. |
| Slices.SelectConcat | process_procedures.py:54-55 | Masking a concatenation masks each part, so `a[mask]` keeps the selected elements in their original order. |
| Cases.Normalize | process_procedures.py:91 | `.dt.normalize()` gives the midnight of the same day, at or before the timestamp. |
| Cases.InsertRow | process_procedures.py:108-109 | Adding a row to a table sorted by (Place, Date) keeps it strictly sorted. |
| Cases.GroupSum | process_procedures.py:108-109 | The group-by-sum is strictly sorted by (Place, Date). It has the same keys as its input, and for every key the same total. |
| Cases.GroupSumRow | process_procedures.py:108 | Each output row carries the sum of all input counts with its key. |
| Cases.GroupSumUnique | process_procedures.py:108-109 | Any strictly sorted table with the same per-key totals is the group-by-sum. |
| Cases.DateTotals | process_procedures.py:94-96 | `groupby(['Date']).sum()` relabelled as one place has one row per input date. Each row holds that date's total over all places. |
| Preprocess.KeepRows | process_procedures.py:88 | The UID filter keeps exactly the rows whose UID is not 840. |
| Preprocess.KeepRowsCounts | process_procedures.py:88 | Every row whose UID is not 840 is kept as often as it occurs, duplicates included. No other row is kept. |
| Preprocess.KeepRowsConcat | process_procedures.py:88 | The filter keeps table order: filtering two consecutive pieces of the table is filtering each. |
| Slices.FilterCounts | process_procedures.py:88 | A filter keeps every occurrence of an element that passes, and no other element. |
| Slices.FilterPairwise | process_procedures.py:144 | A filter keeps the relative order of what it keeps: a relation holding between every earlier and later element of the input holds between every earlier and later element kept. |
| Slices.FilterConcat | process_procedures.py:88 | Filtering a concatenation filters each part, so a filter keeps the original order. |
| Slices.FilterLast | process_procedures.py:144 | The last element a filter keeps is the last element of the input that passes. |
| Preprocess.TimeSeriesRows | process_procedures.py:83-91 | Time-series rows are renamed to Place/Date and moved to midnight, one per kept row, in order. |
| Preprocess.CurrentDayRows | process_procedures.py:100-105 | Current-day rows are renamed and dated one day before `Last_Update`, without moving to midnight. |
| Preprocess.Preprocess | process_procedures.py:82-111 | The output is sorted by (Place, Date), one row per key. A key is present exactly when it comes from the time series, from a requested "World" date, or from a read current-day table. Its counts are the sum of those three contributions. |
| Preprocess.ExcludedRowsIgnored | process_procedures.py:86-106 | Rows with UID 840 have no effect on the result. |
| Preprocess.CurrentDayUnreadWithoutFlags | process_procedures.py:99-106 | Without `current_day` and `forec_current_day`, the current-day table cannot change the result. |
| Preprocess.CurrentDayRowShifted | process_procedures.py:105 | A kept current-day row lands on (its place, `Last_Update` minus one day). |
| Preprocess.WorldTotals | process_procedures.py:93-97 | Suppose "World" is requested and no input place is named "World". Then each time-series date gets a "World" row holding that date's totals over all places. Current-day rows do not contribute. |
| Preprocess.TotalsPreserved | process_procedures.py:93-108 | The grand total is the time-series total, plus that total again for the "World" rows, plus the current-day total when that table is read. |
| Figures.RegionsAll | process_procedures.py:115 | `regions_all` is strictly sorted and holds exactly the table's places. |
| Figures.SelectRegions | process_procedures.py:116 | The selected regions are strictly sorted and are exactly the names both available and requested. |
| Figures.SelectRegionsUnique | process_procedures.py:116 | No other strictly sorted list has those names. |
| Figures.DefaultCountriesData | process_procedures.py:128-129 | The default `countries_data` maps each selected region r, and nothing else, to {'country_ru': r}. |
| Figures.EffectiveData | process_procedures.py:128-129 | `None` and the empty dict both fall back to the default. Any other dict is used as given. |
| Figures.Label | process_procedures.py:148 | The legend label is `countries_data[region]['country_ru']`. A missing key raises KeyError. |
| Figures.PlaceRows | process_procedures.py:144 | `cases[cases['Place'] == region]` holds exactly the region's rows. |
| Figures.PlaceRowsCounts | process_procedures.py:144 | Every row of the region is kept as often as it occurs in the table, and no other row is. |
| Figures.PlaceRowsDatesAscending | process_procedures.py:108-109 | In a table sorted by place then date with no key twice, as `preprocess` returns it, each region's rows have strictly increasing dates. |
| Figures.PlaceRowsLast | process_procedures.py:144 | The last row of the region's table, which `forecast` reads as `date[-1]`, is the table's last row for that region. |
| Figures.MaybeForecast | process_procedures.py:157-166 | A forecast runs only for a non-empty argument list. Its failure is the region's failure. |
| Figures.PlotRegion | process_procedures.py:139-166 | One loop pass looks up the label first, then runs the confirmed forecast, then the deaths forecast. It succeeds exactly when all three do. A missing label raises KeyError. Otherwise a failing confirmed forecast decides the halt, and the deaths forecast decides it only when the confirmed one succeeded. |
| Figures.PlotRegions | process_procedures.py:139-166 | The loop succeeds exactly when every region's pass does. Its results are those passes, in region order. When it halts, it halts with the first failing pass, all earlier passes having succeeded. |
| Outcomes.Collect | process_procedures.py:139-166 | A loop of steps halts with the first step that halts, in order. Otherwise it yields every step's value. |
| Figures.Draw | process_procedures.py:134-179 | Deaths are drawn iff `deaths` or `forec_deaths`, and the title matches. The log scale is on iff not `nonlog`. `from_date` is applied iff it is truthy. |
| Figures.Process | process_procedures.py:114-129 | An empty selection exits with -1, whatever `--list` says. Otherwise `--list` exits with 0. Otherwise the figure is drawn for the selected regions. |
| Figures.SelectedRegionsHaveRows | process_procedures.py:115-116 | Every selected region has at least one row, so its forecast never indexes an empty table. |
| Figures.DefaultLabels | process_procedures.py:128-148 | With the default `countries_data`, every label lookup succeeds and gives the region's own name. |
| Figures.PlainPlotSucceeds | process_procedures.py:114-166 | Take a known region requested, no forecasts and no `--list`. Then `process` succeeds. Each region is drawn with its own rows, under its own name, without forecasts. |
| Figures.DrawnRegions | process_procedures.py:139-148 | A drawn figure has one entry per selected region, in sorted order, each with exactly that region's rows. |
| Figures.ForecastFailureHalts | process_procedures.py:157-160 | If any selected region's confirmed forecast fails, `process` fails. |
| Strings.Sort | covid_web.py:27 | `sorted(list)` is in order and is a permutation of its input. |
| Strings.SortIsSorted | covid_web.py:27 | Any sorted permutation of the input is `Sort`'s result. |
| Strings.SortedSet | process_procedures.py:115-116 | `sorted(set(xs))` is strictly increasing and holds exactly the elements of xs. |
| Strings.StrictlySortedUnique | process_procedures.py:115-116 | Two strictly sorted lists with the same elements are equal. |
| Web.FirstIndex | covid_web.py:28 | `list.index` gives the first position holding the name. |
| Web.SortedRemove | covid_web.py:29 | Popping one entry from a sorted list leaves it sorted, with that entry's multiplicity reduced by one. |
| Web.LoadCountries | covid_web.py:27-29 | The list is a permutation of the loaded names with "World" first and the rest sorted. A list without "World" raises ValueError. |
| Web.LoadCountriesRest | covid_web.py:27-29 | The names after "World" are exactly the sorted loaded names with one "World" removed. |
| Web.ForecastList | covid_web.py:47-51 | The forecast list is empty exactly when `confirmed_function` is the empty string. Otherwise it is exactly [function, for_period, on_period], a missing field giving `None`. |
| Web.PostArgs | covid_web.py:53-63 | `nonlog` is true exactly when `log` is falsy. The regions are the chosen countries, `list` is false, there are no deaths forecasts, and `forec_current_day` is falsy. |
| Web.ShowPlot | covid_web.py:33-86 | A GET renders the defaults: no countries, log True, deaths True, current_day False, from_date "2020-03-01", no forecast. A POST renders the error page exactly when some chosen country is not listed. A validated POST whose image file does not exist yet runs `process` on the `preprocess` table. When `process` exits or raises, the request stops with that halt and no page is rendered. Otherwise the page shows the plot for `PostArgs` and echoes the form. |
| Web.PlottedRegionsListed | covid_web.py:57-63 | Every region a plotted POST hands on is a listed country. An unknown country never reaches `preprocess`. |
| Web.FreshPlotWasDrawn | covid_web.py:75-78 | A plot page rendered after calling `process` means `process` drew the figure. |
| Web.ForecastPeriodsRoundTrip | covid_web.py:47-51 | Periods typed as integers reach `forecast` unchanged. |
| Web.MissingFunctionExits | covid_web.py:47-51 | A POST without `confirmed_function` still asks for a forecast, whose dispatch on `None` exits with -1. |
| Web.EmptyChoiceExits | covid_web.py:57-78 | A POST choosing no country passes validation. `process` then exits with -1, so no page is rendered unless the image file already exists. |

## Left out

- Plotting in general is not modelled: matplotlib calls, axis limits, line styles, colours, legends, saving and showing. These are rendering side effects. The model records only what would be drawn.
- `curve_fit`, `func_linear`, `func_poly` and `func_covid` are not modelled. They are a foreign floating-point optimiser and its target curves. The forecast stops at the arguments the optimiser would be given. Only its input-size check is modelled.
- Forecasts.Forecast: a fit that does not converge within `maxfev` evaluations raises RuntimeError in `curve_fit`. This numerical failure is not modelled, so `Ok` means the optimiser accepted its input. The input check assumes a recent SciPy, whose `curve_fit` raises ValueError for empty `ydata`; older releases raise TypeError there instead.
- TensorFlow model construction, training, `make_dataset`, shuffling and batching are left out. Dataset batches reach `Windows.Example` as parameters.
- Reading CSV and JSON files is left out. So are the md5 file name of the image and `render_template`. The tables, the loaded country list and whether the image file already exists are parameters.
- Web.ShowPlot: a halt of `process` is recorded as the response `Stopped`. What Flask then sends for a `SystemExit` or an exception is not modelled. The names `process` and `preprocess` are taken to be those of process_procedures.py: covid_web.py:10 imports them from covid_plot.py, which does not define them, so as written the import fails before any request.
- ldm_forecast.py, wikidata.py, run_covid.py, check_countries.py and covid_plot.py are not part of this model.
- The DOM is left out. Each script function takes the value it reads and returns what it writes.
- `input.value` is modelled as an integer. A fractional or non-numeric value, where JavaScript's coercion gives a fraction or NaN, is not modelled.
- Strings.ParseInt: covers an optional sign followed by ASCII digits. The surrounding whitespace, underscores and non-ASCII digits that `int()` also accepts are not modelled.
- Dates are integer seconds. Nanoseconds, time zones and daylight saving are not modelled. `datetime64[D]` of a timestamp is taken as the floor of its day.
- Missing counts (NaN) in the CSV tables are not modelled. Counts are natural numbers.
- Forecasts.Forecast: `datetime64` overflow for very large periods is not modelled. `int()` gives an unbounded integer here.
- Script.LabelsPeriodic: stated for n >= 0 only. Across zero the truncating remainder breaks the period, as `Script.PeriodicityFailsAcrossZero` shows.
- Windows.SplitWindow: TensorFlow's exception types are assumed, not derived: an out-of-range column position and `tf.stack` of an empty list are modelled as IndexError, and a `set_shape` mismatch as ValueError.
