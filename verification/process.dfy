/**
 `process` (process_procedures.py): chooses the regions to draw, stops
 when none is known or when only the list of regions was asked for, and
 otherwise describes the figure: one curve (or two) per region, each with
 the forecasts the arguments ask for. Drawing, saving and showing the
 figure are left out; the result records what would be drawn.
 */
module Figures {
  import opened Outcomes
  import opened Strings
  import opened Slices
  import opened Cases
  import opened Arguments
  import opened Forecasts

  /** `countries_data`: region name to its display fields. */
  type CountriesData = map<string, map<string, string>>

  /** The display field holding a region's Russian name. */
  const NameField: string := "country_ru"

  const TitleConfirmed: string := "Подтвержденные случаи"
  const TitleDeathsSuffix: string := " (—) и смерти (---)"

  /** What is drawn for one region. */
  datatype RegionPlot = RegionPlot(
    region: string,
    legend: string,                         // legend entry of the confirmed curve
    rows: seq<Row>,                         // `cases[cases['Place'] == region]`
    confirmedForecast: Option<ForecastPlan>,
    deathsForecast: Option<ForecastPlan>)

  /** What the figure shows. */
  datatype Figure = Figure(
    title: string,
    plotDeaths: bool,          // a dashed deaths curve per region
    plots: seq<RegionPlot>,
    fromDate: Option<string>,  // left limit of the date axis, when set
    logScale: bool)

  /** The places of the table, row by row. */
  function Places(cases: seq<Row>): (ps: seq<string>)
    ensures |ps| == |cases|
    ensures forall i :: 0 <= i < |cases| ==> ps[i] == cases[i].place
  {
    seq(|cases|, i requires 0 <= i < |cases| => cases[i].place)
  }

  /** `sorted(set(cases['Place'].values.tolist()))`. */
  function RegionsAll(cases: seq<Row>): (r: seq<string>)
    ensures StrictlySorted(r)
    ensures forall p :: p in r <==> exists i :: 0 <= i < |cases| && cases[i].place == p
  {
    var ps := Places(cases);
    assert forall p :: p in ps <==> exists i :: 0 <= i < |cases| && cases[i].place == p by {
      forall p | p in ps ensures exists i :: 0 <= i < |cases| && cases[i].place == p {
        var i :| 0 <= i < |ps| && ps[i] == p;
      }
    }
    SortedSet(ps)
  }

  /** `sorted(list(set(regions_all) & set(requested)))`. */
  function SelectRegions(regionsAll: seq<string>, requested: seq<string>): (r: seq<string>)
    ensures StrictlySorted(r)
    ensures forall p :: p in r <==> p in regionsAll && p in requested
  {
    SortedSet(Filter(p => p in requested, regionsAll))
  }

  /** The selection is the only strictly sorted list of the common names. */
  lemma SelectRegionsUnique(regionsAll: seq<string>, requested: seq<string>, t: seq<string>)
    requires StrictlySorted(t)
    requires forall p :: p in t <==> p in regionsAll && p in requested
    ensures t == SelectRegions(regionsAll, requested)
  {
    StrictlySortedUnique(t, SelectRegions(regionsAll, requested));
  }

  /** `{r: {'country_ru': r} for r in regions}`. */
  function DefaultCountriesData(regions: seq<string>): (d: CountriesData)
    ensures forall r :: r in d <==> r in regions
    ensures forall r :: r in d ==> NameField in d[r] && d[r][NameField] == r
  {
    map r | r in regions :: map[NameField := r]
  }

  /** `countries_data[region]['country_ru']`. */
  function Label(data: CountriesData, region: string): (r: Result<string>)
    ensures r.Ok? <==> region in data && NameField in data[region]
    ensures r.Ok? ==> r.value == data[region][NameField]
    ensures r.Halted? ==> r.halt == Raise(KeyError)
  {
    if region in data && NameField in data[region] then Ok(data[region][NameField])
    else Halted(Raise(KeyError))
  }

  /** `cases['Place'] == region` as a row test. */
  function AtPlace(region: string): Row -> bool {
    (r: Row) => r.place == region
  }

  /** `cases[cases['Place'] == region]`, in table order. How often each row
      is kept is stated by `PlaceRowsCounts`, which row comes last by
      `PlaceRowsLast`. */
  function PlaceRows(cases: seq<Row>, region: string): (out: seq<Row>)
    ensures forall r :: r in out <==> r in cases && r.place == region
  {
    Filter(AtPlace(region), cases)
  }

  /** Every row of the region is kept as often as it occurs in the table,
      and no other row is. */
  lemma PlaceRowsCounts(cases: seq<Row>, region: string)
    ensures forall r ::
      multiset(PlaceRows(cases, region))[r] == if r.place == region then multiset(cases)[r] else 0
  {
    FilterCounts(AtPlace(region), cases);
  }

  /** The last row of a region's table, which `forecast` reads as
      `date[-1]`, is the table's last row for that region. */
  lemma PlaceRowsLast(cases: seq<Row>, region: string, j: nat)
    requires j < |cases| && cases[j].place == region
    requires forall k :: j < k < |cases| ==> cases[k].place != region
    ensures |PlaceRows(cases, region)| > 0
    ensures PlaceRows(cases, region)[|PlaceRows(cases, region)| - 1] == cases[j]
  {
    FilterLast(AtPlace(region), cases, j);
  }

  /** In a table sorted by place then date with no key twice, as
      `preprocess` returns it, a region's rows have strictly increasing
      dates. */
  lemma PlaceRowsDatesAscending(cases: seq<Row>, region: string)
    requires SortedByKey(cases)
    ensures forall i, j :: 0 <= i < j < |PlaceRows(cases, region)| ==>
      PlaceRows(cases, region)[i].date < PlaceRows(cases, region)[j].date
  {
    var rows := PlaceRows(cases, region);
    FilterPairwise(AtPlace(region), (a: Row, b: Row) => KeyLess(KeyOf(a), KeyOf(b)), cases);
    forall i, j | 0 <= i < j < |rows| ensures rows[i].date < rows[j].date {
      assert rows[i] in rows && rows[j] in rows;
      LessIrreflexive(region);
    }
  }

  /** The forecast for one field, when its argument list is non-empty. */
  function MaybeForecast(forecArgs: seq<Option<string>>, rows: seq<Row>, field: Field, forecCurrentDay: bool)
    : (r: Result<Option<ForecastPlan>>)
    ensures |forecArgs| == 0 ==> r == Ok(None)
    ensures |forecArgs| > 0 && Forecast(forecArgs, rows, field, forecCurrentDay).Ok? ==>
      r == Ok(Some(Forecast(forecArgs, rows, field, forecCurrentDay).value))
    ensures |forecArgs| > 0 && Forecast(forecArgs, rows, field, forecCurrentDay).Halted? ==>
      r == Halted(Forecast(forecArgs, rows, field, forecCurrentDay).halt)
  {
    if |forecArgs| == 0 then Ok(None)
    else
      var plan :- Forecast(forecArgs, rows, field, forecCurrentDay);
      Ok(Some(plan))
  }

  /** One pass of the region loop: the legend label is looked up first,
      then the confirmed forecast, then the deaths forecast. */
  function PlotRegion(args: Args, cases: seq<Row>, data: CountriesData, region: string): (r: Result<RegionPlot>)
    ensures r.Ok? <==>
      && Label(data, region).Ok?
      && MaybeForecast(args.forecConfirmed, PlaceRows(cases, region), Confirmed, args.forecCurrentDay).Ok?
      && MaybeForecast(args.forecDeaths, PlaceRows(cases, region), Deaths, args.forecCurrentDay).Ok?
    ensures r.Ok? ==>
      && r.value.region == region
      && r.value.legend == Label(data, region).value
      && r.value.rows == PlaceRows(cases, region)
      && r.value.confirmedForecast == MaybeForecast(args.forecConfirmed, r.value.rows, Confirmed, args.forecCurrentDay).value
      && r.value.deathsForecast == MaybeForecast(args.forecDeaths, r.value.rows, Deaths, args.forecCurrentDay).value
    ensures Label(data, region).Halted? ==> r == Halted(Raise(KeyError))
    // a failing confirmed forecast stops the pass before the deaths forecast runs
    ensures Label(data, region).Ok? &&
            MaybeForecast(args.forecConfirmed, PlaceRows(cases, region), Confirmed, args.forecCurrentDay).Halted? ==>
      r == Halted(MaybeForecast(args.forecConfirmed, PlaceRows(cases, region), Confirmed, args.forecCurrentDay).halt)
    ensures Label(data, region).Ok? &&
            MaybeForecast(args.forecConfirmed, PlaceRows(cases, region), Confirmed, args.forecCurrentDay).Ok? &&
            MaybeForecast(args.forecDeaths, PlaceRows(cases, region), Deaths, args.forecCurrentDay).Halted? ==>
      r == Halted(MaybeForecast(args.forecDeaths, PlaceRows(cases, region), Deaths, args.forecCurrentDay).halt)
  {
    var legend :- Label(data, region);
    var rows := PlaceRows(cases, region);
    var confirmed :- MaybeForecast(args.forecConfirmed, rows, Confirmed, args.forecCurrentDay);
    var deaths :- MaybeForecast(args.forecDeaths, rows, Deaths, args.forecCurrentDay);
    Ok(RegionPlot(region, legend, rows, confirmed, deaths))
  }

  /** The passes of the region loop, one per selected region. */
  function RegionPasses(args: Args, cases: seq<Row>, data: CountriesData, regions: seq<string>)
    : (passes: seq<Result<RegionPlot>>)
    ensures |passes| == |regions|
    ensures forall i :: 0 <= i < |regions| ==> passes[i] == PlotRegion(args, cases, data, regions[i])
  {
    seq(|regions|, i requires 0 <= i < |regions| => PlotRegion(args, cases, data, regions[i]))
  }

  /** The loop over the selected regions, stopping at the first failure. */
  function PlotRegions(args: Args, cases: seq<Row>, data: CountriesData, regions: seq<string>)
    : (r: Result<seq<RegionPlot>>)
    ensures r.Ok? <==> forall i :: 0 <= i < |regions| ==> PlotRegion(args, cases, data, regions[i]).Ok?
    ensures r.Ok? ==> |r.value| == |regions|
    ensures r.Ok? ==> forall i :: 0 <= i < |regions| ==> r.value[i] == PlotRegion(args, cases, data, regions[i]).value
    ensures r.Halted? ==>
      exists j ::
        && 0 <= j < |regions|
        && PlotRegion(args, cases, data, regions[j]) == Halted(r.halt)
        && forall i :: 0 <= i < j ==> PlotRegion(args, cases, data, regions[i]).Ok?
  {
    Collect(RegionPasses(args, cases, data, regions))
  }

  /** Deaths are drawn when asked for or when they are forecast. */
  predicate PlotsDeaths(args: Args) {
    args.deaths || |args.forecDeaths| > 0
  }

  /** The figure for the selected regions, once `countries_data` is known. */
  function Draw(args: Args, cases: seq<Row>, data: CountriesData, regions: seq<string>): (r: Result<Figure>)
    ensures r.Ok? <==> PlotRegions(args, cases, data, regions).Ok?
    ensures r.Ok? ==>
      && r.value.plots == PlotRegions(args, cases, data, regions).value
      && r.value.plotDeaths == PlotsDeaths(args)
      && r.value.logScale == !args.nonlog
      && (r.value.fromDate.Some? <==> Truthy(args.fromDate))
      && (r.value.fromDate.Some? ==> r.value.fromDate == args.fromDate)
      && (r.value.title == if PlotsDeaths(args) then TitleConfirmed + TitleDeathsSuffix else TitleConfirmed)
  {
    var plots :- PlotRegions(args, cases, data, regions);
    var title := if PlotsDeaths(args) then TitleConfirmed + TitleDeathsSuffix else TitleConfirmed;
    Ok(Figure(title, PlotsDeaths(args), plots, if Truthy(args.fromDate) then args.fromDate else None, !args.nonlog))
  }

  /** `not countries_data`: `None` and the empty dict both take the default. */
  function EffectiveData(countriesData: Option<CountriesData>, regions: seq<string>): (d: CountriesData)
    ensures countriesData.None? || |countriesData.value| == 0 ==> d == DefaultCountriesData(regions)
    ensures countriesData.Some? && |countriesData.value| > 0 ==> d == countriesData.value
  {
    if countriesData.None? || |countriesData.value| == 0 then DefaultCountriesData(regions)
    else countriesData.value
  }

  /** `process`, up to the drawing calls. `countriesData` is `None` when the
      caller passes none. */
  function Process(args: Args, cases: seq<Row>, countriesData: Option<CountriesData>): (r: Result<Figure>)
    ensures |SelectRegions(RegionsAll(cases), args.regions)| == 0 ==> r == Halted(Exit(-1))
    ensures |SelectRegions(RegionsAll(cases), args.regions)| > 0 && args.list ==> r == Halted(Exit(0))
    ensures |SelectRegions(RegionsAll(cases), args.regions)| > 0 && !args.list ==>
      r == Draw(args, cases, EffectiveData(countriesData, SelectRegions(RegionsAll(cases), args.regions)),
                SelectRegions(RegionsAll(cases), args.regions))
  {
    var regions := SelectRegions(RegionsAll(cases), args.regions);
    if |regions| == 0 then Halted(Exit(-1))
    else if args.list then Halted(Exit(0))
    else Draw(args, cases, EffectiveData(countriesData, regions), regions)
  }

  // ---------------------------------------------------------------------
  // Properties

  /** Every selected region has rows, so the forecast's `date[-1]` never
      fails inside `process`. */
  lemma SelectedRegionsHaveRows(cases: seq<Row>, requested: seq<string>, region: string)
    requires region in SelectRegions(RegionsAll(cases), requested)
    ensures |PlaceRows(cases, region)| > 0
  {
    var i :| 0 <= i < |cases| && cases[i].place == region;
    assert cases[i] in PlaceRows(cases, region);
  }

  /** With the default names, each legend label is the region's own name. */
  lemma DefaultLabels(regions: seq<string>, region: string)
    requires region in regions
    ensures Label(DefaultCountriesData(regions), region) == Ok(region)
  {
  }

  /** Without forecasts and with the default names, `process` never fails
      once a known region is requested and the list is not asked for; each
      region is drawn with its own rows under its own name. */
  lemma PlainPlotSucceeds(args: Args, cases: seq<Row>)
    requires |args.forecConfirmed| == 0 && |args.forecDeaths| == 0 && !args.list
    requires |SelectRegions(RegionsAll(cases), args.regions)| > 0
    ensures Process(args, cases, None).Ok?
    ensures var fig := Process(args, cases, None).value;
      forall i :: 0 <= i < |fig.plots| ==>
        && fig.plots[i].legend == fig.plots[i].region
        && fig.plots[i].rows == PlaceRows(cases, fig.plots[i].region)
        && fig.plots[i].confirmedForecast.None?
        && fig.plots[i].deathsForecast.None?
  {
    var regions := SelectRegions(RegionsAll(cases), args.regions);
    var data := DefaultCountriesData(regions);
    forall i | 0 <= i < |regions|
      ensures PlotRegion(args, cases, data, regions[i]).Ok?
      ensures PlotRegion(args, cases, data, regions[i]).value.legend == regions[i]
    {
      DefaultLabels(regions, regions[i]);
    }
  }

  /** A drawn figure has one entry per selected region, in sorted order,
      each holding exactly that region's rows. */
  lemma DrawnRegions(args: Args, cases: seq<Row>, countriesData: Option<CountriesData>)
    ensures Process(args, cases, countriesData).Ok? ==>
      var regions := SelectRegions(RegionsAll(cases), args.regions);
      var fig := Process(args, cases, countriesData).value;
      && |fig.plots| == |regions|
      && forall i :: 0 <= i < |regions| ==>
           fig.plots[i].region == regions[i] && fig.plots[i].rows == PlaceRows(cases, regions[i])
  {
    var regions := SelectRegions(RegionsAll(cases), args.regions);
    var data := EffectiveData(countriesData, regions);
    var plots := PlotRegions(args, cases, data, regions);
    forall i | 0 <= i < |regions| && plots.Ok?
      ensures plots.value[i].region == regions[i] && plots.value[i].rows == PlaceRows(cases, regions[i])
    {
      assert PlotRegion(args, cases, data, regions[i]).Ok?;
    }
  }

  /** When some region's confirmed forecast halts, `process` halts too
      (with the first failure in region order, which may be another). */
  lemma ForecastFailureHalts(args: Args, cases: seq<Row>, countriesData: Option<CountriesData>, region: string)
    requires region in SelectRegions(RegionsAll(cases), args.regions)
    requires |args.forecConfirmed| > 0
    requires Forecast(args.forecConfirmed, PlaceRows(cases, region), Confirmed, args.forecCurrentDay).Halted?
    ensures Process(args, cases, countriesData).Halted?
  {
    var regions := SelectRegions(RegionsAll(cases), args.regions);
    var i :| 0 <= i < |regions| && regions[i] == region;
  }
}
