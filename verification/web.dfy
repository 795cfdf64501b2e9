/**
 The web handler (covid_web.py): the country list prepared when the module
 is loaded, and the decisions `show_plot` takes on a GET or a POST. Reading
 the country file and the two case tables, the md5 file name and template
 rendering are left out: the tables and whether the image file already
 exists are parameters, and a request maps to the page that would be
 rendered, or to the halt of `process` when it stops the request first.
 */
module Web {
  import opened Outcomes
  import opened Strings
  import opened Arguments
  import opened Forecasts
  import opened Cases
  import opened Figures
  import opened Preprocess

  const World: string := "World"

  /** Position of the first occurrence of x in s (`list.index`). */
  function FirstIndex(s: seq<string>, x: string): (i: nat)
    requires x in s
    ensures i < |s| && s[i] == x
    ensures forall j :: 0 <= j < i ==> s[j] != x
  {
    if s[0] == x then 0 else 1 + FirstIndex(s[1..], x)
  }

  /** Removing one element keeps a sorted list sorted. */
  lemma SortedRemove(s: seq<string>, w: nat)
    requires Sorted(s) && w < |s|
    ensures Sorted(s[..w] + s[w + 1..])
    ensures multiset(s[..w] + s[w + 1..]) == multiset(s) - multiset{s[w]}
  {
    var t := s[..w] + s[w + 1..];
    forall i, j | 0 <= i < j < |t| ensures LessEq(t[i], t[j]) {
      var i' := if i < w then i else i + 1;
      var j' := if j < w then j else j + 1;
      assert t[i] == s[i'] && t[j] == s[j'];
    }
    assert s == s[..w] + [s[w]] + s[w + 1..];
  }

  /** The country list as the module prepares it: the loaded names sorted,
      then "World" moved to the front. `list.index` raises ValueError when
      "World" is missing. */
  function LoadCountries(loaded: seq<string>): (r: Result<seq<string>>)
    ensures r.Ok? <==> World in loaded
    ensures r.Halted? ==> r.halt == Raise(ValueError)
    ensures r.Ok? ==>
      && |r.value| == |loaded|
      && r.value[0] == World
      && multiset(r.value) == multiset(loaded)
      && Sorted(r.value[1..])
      && multiset(r.value[1..]) == multiset(loaded) - multiset{World}
  {
    var sorted := Sort(loaded);
    assert World in multiset(loaded) <==> World in multiset(sorted);
    if World !in sorted then Halted(Raise(ValueError))
    else
      var w := FirstIndex(sorted, World);
      var rest := sorted[..w] + sorted[w + 1..];
      SortedRemove(sorted, w);
      assert ([World] + rest)[1..] == rest;
      Ok([World] + rest)
  }

  /** The names after "World" are exactly `sorted(loaded)` with one "World"
      taken out: any sorted arrangement of those names is that list. */
  lemma LoadCountriesRest(loaded: seq<string>, t: seq<string>)
    requires LoadCountries(loaded).Ok?
    requires Sorted(t) && multiset(t) == multiset(loaded) - multiset{World}
    ensures LoadCountries(loaded).value[1..] == t
  {
    SortedUnique(LoadCountries(loaded).value[1..], t);
  }

  // ---------------------------------------------------------------------
  // show_plot

  /** The submitted form; `None` is a field missing from the request. */
  datatype Form = Form(
    country: seq<string>,           // `getlist('country')`
    log: Option<string>,
    deaths: Option<string>,
    currentDay: Option<string>,
    fromDate: Option<string>,
    confirmedFunction: Option<string>,
    forPeriodConfirmed: Option<string>,
    onPeriodConfirmed: Option<string>)

  datatype Request = Get | Post(form: Form)

  /** A value passed to the template: the GET defaults are Python booleans
      and strings, a POST passes the form fields through. */
  datatype PyValue = PyNone | PyBool(b: bool) | PyStr(s: string)

  function FromField(v: Option<string>): PyValue {
    match v
    case None => PyNone
    case Some(s) => PyStr(s)
  }

  /** The values the page is rendered with. */
  datatype View = View(
    chosenCountries: seq<string>,
    log: PyValue,
    deaths: PyValue,
    currentDay: PyValue,
    fromDate: PyValue,
    forecConfirmed: seq<Option<string>>)

  datatype Response =
    | FormPage(countries: seq<string>, view: View)             // the page without a plot
    | ErrorPage(error: string, countries: seq<string>)         // the page with an error message
    | PlotPage(countries: seq<string>, args: Args, view: View) // the page with the plot for `args`
    | Stopped(halt: Halt)                                      // `process` exited or raised: no page

  const DefaultFromDate: string := "2020-03-01"
  const UnknownCountryError: string := "Выберите страны из списка!"

  /** What a GET renders: no country chosen, a logarithmic scale with
      deaths, no current day, the default start date and no forecast. */
  const DefaultView: View := View([], PyBool(true), PyBool(true), PyBool(false), PyStr(DefaultFromDate), [])

  /** An empty function name means "no forecast"; anything else, a missing
      field included, yields the three form values. */
  function ForecastList(form: Form): (l: seq<Option<string>>)
    ensures |l| == 0 <==> form.confirmedFunction == Some("")
    ensures |l| != 0 ==> l == [form.confirmedFunction, form.forPeriodConfirmed, form.onPeriodConfirmed]
  {
    if form.confirmedFunction != Some("") then
      [form.confirmedFunction, form.forPeriodConfirmed, form.onPeriodConfirmed]
    else []
  }

  /** Some chosen name is not in the list. */
  predicate HasUnknownCountry(countries: seq<string>, chosen: seq<string>) {
    exists c :: c in chosen && c !in countries
  }

  /** The arguments for `preprocess` and `process`. The flags
      keep the form strings in the source and are read only for their
      truthiness, which is what is stored; `forec_current_day=[]` is falsy. */
  function PostArgs(form: Form): (args: Args)
    ensures args.regions == form.country
    ensures args.nonlog <==> !Truthy(form.log)
    ensures args.deaths <==> Truthy(form.deaths)
    ensures args.currentDay <==> Truthy(form.currentDay)
    ensures args.fromDate == form.fromDate
    ensures !args.list && !args.forecCurrentDay
    ensures args.forecConfirmed == ForecastList(form) && args.forecDeaths == []
  {
    Args(
      deaths := Truthy(form.deaths),
      list := false,
      currentDay := Truthy(form.currentDay),
      fromDate := form.fromDate,
      nonlog := !Truthy(form.log),
      regions := form.country,
      forecConfirmed := ForecastList(form),
      forecDeaths := [],
      forecCurrentDay := false)
  }

  /** What `process` makes of a validated POST: the table `preprocess`
      builds from the two raw tables, drawn with the default region names. */
  function Plotted(form: Form, casesRaw: seq<RawRow>, todayRaw: seq<RawRow>): Result<Figure> {
    Process(PostArgs(form), Preprocess.Preprocess(PostArgs(form), casesRaw, todayRaw), None)
  }

  /** The page a validated POST renders. */
  function PlotResponse(countries: seq<string>, form: Form): Response {
    var view := View(form.country, FromField(form.log), FromField(form.deaths),
                     FromField(form.currentDay), FromField(form.fromDate), ForecastList(form));
    PlotPage(countries, PostArgs(form), view)
  }

  /** `show_plot` for the prepared country list. `imageExists` says whether
      the image file for these arguments is already there, in which case
      `process` is not called; otherwise a `process` that exits or raises
      ends the request before any page is rendered. */
  function ShowPlot(countries: seq<string>, req: Request, casesRaw: seq<RawRow>, todayRaw: seq<RawRow>,
                    imageExists: bool): (resp: Response)
    ensures req.Get? ==> resp == FormPage(countries, DefaultView)
    ensures req.Post? ==> (resp.ErrorPage? <==> HasUnknownCountry(countries, req.form.country))
    ensures resp.ErrorPage? ==> resp.error == UnknownCountryError && resp.countries == countries
    ensures resp.Stopped? <==>
      && req.Post? && !HasUnknownCountry(countries, req.form.country) && !imageExists
      && Plotted(req.form, casesRaw, todayRaw).Halted?
    ensures resp.Stopped? ==> resp.halt == Plotted(req.form, casesRaw, todayRaw).halt
    ensures req.Post? && !HasUnknownCountry(countries, req.form.country) && !resp.Stopped? ==>
      && resp.PlotPage?
      && resp.countries == countries
      && resp.args == PostArgs(req.form)
      && resp.view.chosenCountries == req.form.country
      && resp.view.log == FromField(req.form.log)
      && resp.view.deaths == FromField(req.form.deaths)
      && resp.view.currentDay == FromField(req.form.currentDay)
      && resp.view.fromDate == FromField(req.form.fromDate)
      && resp.view.forecConfirmed == ForecastList(req.form)
  {
    match req
    case Get => FormPage(countries, DefaultView)
    case Post(form) =>
      if HasUnknownCountry(countries, form.country) then ErrorPage(UnknownCountryError, countries)
      else if !imageExists && Plotted(form, casesRaw, todayRaw).Halted? then
        Stopped(Plotted(form, casesRaw, todayRaw).halt)
      else PlotResponse(countries, form)
  }

  // ---------------------------------------------------------------------
  // Properties

  /** Every region a plotted POST asks for is one of the listed countries. */
  lemma PlottedRegionsListed(countries: seq<string>, form: Form, casesRaw: seq<RawRow>, todayRaw: seq<RawRow>,
                             imageExists: bool)
    ensures ShowPlot(countries, Post(form), casesRaw, todayRaw, imageExists).PlotPage? ==>
      forall c :: c in ShowPlot(countries, Post(form), casesRaw, todayRaw, imageExists).args.regions ==> c in countries
  {
  }

  /** A plot page rendered after calling `process` means `process` drew the
      figure. */
  lemma FreshPlotWasDrawn(countries: seq<string>, form: Form, casesRaw: seq<RawRow>, todayRaw: seq<RawRow>)
    ensures ShowPlot(countries, Post(form), casesRaw, todayRaw, false).PlotPage? ==> Plotted(form, casesRaw, todayRaw).Ok?
  {
  }

  /** Periods typed as integers reach `forecast` unchanged: `int()` reads
      back the number the form carried. */
  lemma ForecastPeriodsRoundTrip(form: Form, forward: int, backward: int)
    requires form.confirmedFunction != Some("")
    requires form.forPeriodConfirmed == Some(ShowInt(forward))
    requires form.onPeriodConfirmed == Some(ShowInt(backward))
    ensures var args := PostArgs(form);
      && ParseInt(args.forecConfirmed[1]) == Ok(forward)
      && ParseInt(args.forecConfirmed[2]) == Ok(backward)
  {
    ParseShowInt(forward);
    ParseShowInt(backward);
  }

  /** On a region of the preprocessed table, a forecast whose `on_period`
      is zero or negative leaves no day to fit, so `curve_fit` raises
      ValueError. */
  lemma PreprocessedBackwardRaises(args: Args, casesRaw: seq<RawRow>, todayRaw: seq<RawRow>, region: string,
                                   forecArgs: seq<Option<string>>, field: Field)
    ensures var rows := PlaceRows(Preprocess.Preprocess(args, casesRaw, todayRaw), region);
      ArgsAccepted(forecArgs, rows) && ParseInt(forecArgs[2]).value <= 0 ==>
        Forecast(forecArgs, rows, field, args.forecCurrentDay) == Halted(Raise(ValueError))
  {
    var rows := PlaceRows(Preprocess.Preprocess(args, casesRaw, todayRaw), region);
    if ArgsAccepted(forecArgs, rows) && ParseInt(forecArgs[2]).value <= 0 {
      PlaceRowsDatesAscending(Preprocess.Preprocess(args, casesRaw, todayRaw), region);
      NonPositiveBackwardRaises(forecArgs, rows, field, args.forecCurrentDay);
    }
  }

  /** A POST without the function field still asks for a forecast, whose
      dispatch on `None` then exits with status -1. */
  lemma MissingFunctionExits(form: Form, rows: seq<Row>)
    requires form.confirmedFunction.None?
    ensures var args := PostArgs(form);
      && |args.forecConfirmed| == 3
      && Forecast(args.forecConfirmed, rows, Confirmed, args.forecCurrentDay) == Halted(Exit(-1))
  {
  }

  /** A POST choosing no country passes validation, but `process` then
      finds no region and exits with status -1, so no page is rendered
      unless the image file already exists. */
  lemma EmptyChoiceExits(countries: seq<string>, form: Form, casesRaw: seq<RawRow>, todayRaw: seq<RawRow>)
    requires form.country == []
    ensures ShowPlot(countries, Post(form), casesRaw, todayRaw, false) == Stopped(Exit(-1))
    ensures ShowPlot(countries, Post(form), casesRaw, todayRaw, true).PlotPage?
  {
    var args := PostArgs(form);
    var cases := Preprocess.Preprocess(args, casesRaw, todayRaw);
    var sel := SelectRegions(RegionsAll(cases), args.regions);
    assert forall p :: p !in sel;
  }
}
