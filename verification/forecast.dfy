/**
 The decision part of `forecast` (process_procedures.py): which curve is
 fitted, which days the extrapolation covers, and which rows of a region's
 table the fit uses. The curve fitting itself (a foreign optimiser over
 floating point) and the plotting are left out; the result records what
 would be handed to them.
 */
module Forecasts {
  import opened Outcomes
  import opened Strings
  import opened Slices
  import opened Cases

  /** The curves `forecast` can fit. */
  datatype FitFunction = Linear | Poly | Covid

  /** The column being forecast. */
  datatype Field = Confirmed | Deaths

  function FieldValue(r: Row, field: Field): nat {
    match field
    case Confirmed => r.counts.confirmed
    case Deaths => r.counts.deaths
  }

  /** Dispatch on `forec_args[0]`; any other name prints a message and
      exits with status -1. */
  function SelectFunction(name: Option<string>): (r: Result<FitFunction>)
    ensures r == Ok(Linear) <==> name == Some("linear")
    ensures r == Ok(Poly) <==> name == Some("poly")
    ensures r == Ok(Covid) <==> name == Some("covid")
    ensures r.Halted? <==> name !in {Some("linear"), Some("poly"), Some("covid")}
    ensures r.Halted? ==> r.halt == Exit(-1)
  {
    if name == Some("linear") then Ok(Linear)
    else if name == Some("poly") then Ok(Poly)
    else if name == Some("covid") then Ok(Covid)
    else Halted(Exit(-1))
  }

  /** `int(forec_args[i])`. */
  function ArgInt(forecArgs: seq<Option<string>>, i: nat): (r: Result<int>)
    ensures i >= |forecArgs| ==> r == Halted(Raise(IndexError))
    ensures i < |forecArgs| ==> r == ParseInt(forecArgs[i])
  {
    if i < |forecArgs| then ParseInt(forecArgs[i]) else Halted(Raise(IndexError))
  }

  /** What the fit and the plot would be given. */
  datatype ForecastPlan = ForecastPlan(
    func: FitFunction,
    forecastDays: seq<int>,  // day numbers the fitted curve is drawn over
    fitDates: seq<Stamp>,    // `date_range_fitting`
    fitValues: seq<nat>,     // the values fitted at those dates
    xmax: Stamp)             // right limit of the date axis

  /** `backward_condition`: rows strictly after `date_backward`, the last
      row excluded unless the current day is to be fitted too. */
  function FittingMask(dates: seq<Stamp>, dateBackward: Stamp, forecCurrentDay: bool): (m: seq<bool>)
    ensures |m| == |dates|
  {
    seq(|dates|, i requires 0 <= i < |dates| => dates[i] > dateBackward && (forecCurrentDay || i != |dates| - 1))
  }

  /** `cases.Date.to_numpy()`. */
  function DateColumn(rows: seq<Row>): (ds: seq<Stamp>)
    ensures |ds| == |rows|
    ensures forall i :: 0 <= i < |rows| ==> ds[i] == rows[i].date
  {
    if |rows| == 0 then [] else [rows[0].date] + DateColumn(rows[1..])
  }

  /** `cases[field_name].to_numpy()`. */
  function ValueColumn(rows: seq<Row>, field: Field): (vs: seq<nat>)
    ensures |vs| == |rows|
    ensures forall i :: 0 <= i < |rows| ==> vs[i] == FieldValue(rows[i], field)
  {
    if |rows| == 0 then [] else [FieldValue(rows[0], field)] + ValueColumn(rows[1..], field)
  }

  /** The rows dated strictly after `t`, in order. */
  function RowsAfter(rows: seq<Row>, t: Stamp): (out: seq<Row>)
    ensures forall r :: r in out <==> r in rows && r.date > t
  {
    if |rows| == 0 then []
    else
      assert rows == [rows[0]] + rows[1..];
      (if rows[0].date > t then [rows[0]] else []) + RowsAfter(rows[1..], t)
  }

  /** No row is kept when none is later than t. */
  lemma {:induction false} RowsAfterNone(rows: seq<Row>, t: Stamp)
    requires forall r :: r in rows ==> r.date <= t
    ensures RowsAfter(rows, t) == []
  {
    if |rows| > 0 {
      assert rows[0] in rows;
      assert forall r :: r in rows[1..] ==> r in rows;
      RowsAfterNone(rows[1..], t);
    }
  }

  /** Masking the date column and masking the table, then reading its
      dates, agree; likewise for the value column. */
  lemma {:induction false} SelectColumns(rows: seq<Row>, mask: seq<bool>, field: Field)
    requires |mask| == |rows|
    ensures Select(DateColumn(rows), mask) == DateColumn(Select(rows, mask))
    ensures Select(ValueColumn(rows, field), mask) == ValueColumn(Select(rows, mask), field)
  {
    if |rows| > 0 {
      SelectColumns(rows[1..], mask[1..], field);
      assert DateColumn(rows)[1..] == DateColumn(rows[1..]);
      assert ValueColumn(rows, field)[1..] == ValueColumn(rows[1..], field);
      if mask[0] {
        var sel := Select(rows, mask);
        assert sel == [rows[0]] + Select(rows[1..], mask[1..]);
        assert sel[1..] == Select(rows[1..], mask[1..]);
      }
    }
  }

  /** The date of the table's last row, `cases.Date.iloc[-1]`. */
  function LastDate(cases: seq<Row>): Stamp
    requires |cases| > 0
  {
    cases[|cases| - 1].date
  }

  /** A timestamp moved by `n` whole days (`timedelta(days=n)`). */
  function ShiftBy(t: Stamp, n: int): Stamp {
    t + n * SecondsPerDay
  }

  /** The plan once the function and both periods are known: the days the
      curve is drawn over run from `date_backward` to `date_forward`, and
      the fit uses the rows dated after `date_backward`. */
  function Plan(func: FitFunction, forward: int, backward: int, cases: seq<Row>, field: Field, forecCurrentDay: bool)
    : (plan: ForecastPlan)
    requires |cases| > 0
    ensures plan.func == func
    ensures plan.xmax == ShiftBy(LastDate(cases), forward)
    ensures |plan.forecastDays| == Max(forward + backward, 0)
    ensures forall i :: 0 <= i < |plan.forecastDays| ==>
      plan.forecastDays[i] == DayOf(LastDate(cases)) - backward + i
    ensures plan.fitDates == DateColumn(RowsAfter(Pool(cases, forecCurrentDay), ShiftBy(LastDate(cases), -backward)))
    ensures plan.fitValues == ValueColumn(RowsAfter(Pool(cases, forecCurrentDay), ShiftBy(LastDate(cases), -backward)), field)
  {
    ShiftDays(LastDate(cases), forward);
    ShiftDays(LastDate(cases), -backward);
    FittingColumns(cases, ShiftBy(LastDate(cases), -backward), forecCurrentDay, field);
    ForecastPlan(
      func,
      ArangeFrom(DayOf(ShiftBy(LastDate(cases), -backward)), DayOf(ShiftBy(LastDate(cases), forward))),
      Select(DateColumn(cases), FittingMask(DateColumn(cases), ShiftBy(LastDate(cases), -backward), forecCurrentDay)),
      Select(ValueColumn(cases, field), FittingMask(DateColumn(cases), ShiftBy(LastDate(cases), -backward), forecCurrentDay)),
      ShiftBy(LastDate(cases), forward))
  }

  /** The masked columns are the columns of the rows after the cut-off. */
  lemma FittingColumns(cases: seq<Row>, dateBackward: Stamp, forecCurrentDay: bool, field: Field)
    requires |cases| > 0
    ensures var mask := FittingMask(DateColumn(cases), dateBackward, forecCurrentDay);
      var fit := RowsAfter(Pool(cases, forecCurrentDay), dateBackward);
      && Select(DateColumn(cases), mask) == DateColumn(fit)
      && Select(ValueColumn(cases, field), mask) == ValueColumn(fit, field)
  {
    var mask := FittingMask(DateColumn(cases), dateBackward, forecCurrentDay);
    SelectColumns(cases, mask, field);
    FittingMaskFilters(cases, dateBackward, forecCurrentDay);
  }

  /** The number of fitted parameters of each curve: `func_linear` takes
      a and b, `func_poly` and `func_covid` take a, b, c and d. */
  function ParamCount(func: FitFunction): nat {
    match func
    case Linear => 2
    case Poly => 4
    case Covid => 4
  }

  /** The argument checks that precede the fit all pass: a known function
      name, two integer periods, and a table with a last row. */
  predicate ArgsAccepted(forecArgs: seq<Option<string>>, cases: seq<Row>) {
    && |forecArgs| >= 3 && |cases| > 0
    && SelectFunction(forecArgs[0]).Ok?
    && ParseInt(forecArgs[1]).Ok? && ParseInt(forecArgs[2]).Ok?
  }

  /** The plan for accepted arguments. */
  function PlanFor(forecArgs: seq<Option<string>>, cases: seq<Row>, field: Field, forecCurrentDay: bool): ForecastPlan
    requires ArgsAccepted(forecArgs, cases)
  {
    Plan(SelectFunction(forecArgs[0]).value, ParseInt(forecArgs[1]).value, ParseInt(forecArgs[2]).value,
         cases, field, forecCurrentDay)
  }

  /** `forecast` up to the optimiser's result. The checks happen in the
      source's order: the function name, the two periods, the last date of
      the (non-empty) table, and then `curve_fit`'s check of its input: an
      empty fitting window raises ValueError, and one with fewer points than
      the curve has parameters raises TypeError. */
  function Forecast(forecArgs: seq<Option<string>>, cases: seq<Row>, field: Field, forecCurrentDay: bool)
    : (r: Result<ForecastPlan>)
    ensures |forecArgs| == 0 ==> r == Halted(Raise(IndexError))
    ensures |forecArgs| > 0 ==>
      (r == Halted(Exit(-1)) <==> forecArgs[0] !in {Some("linear"), Some("poly"), Some("covid")})
    ensures r.Ok? <==>
      && ArgsAccepted(forecArgs, cases)
      && |PlanFor(forecArgs, cases, field, forecCurrentDay).fitDates| >=
         ParamCount(PlanFor(forecArgs, cases, field, forecCurrentDay).func)
    ensures ArgsAccepted(forecArgs, cases) && |PlanFor(forecArgs, cases, field, forecCurrentDay).fitDates| == 0 ==>
      r == Halted(Raise(ValueError))
    ensures ArgsAccepted(forecArgs, cases) ==>
      var plan := PlanFor(forecArgs, cases, field, forecCurrentDay);
      0 < |plan.fitDates| < ParamCount(plan.func) ==> r == Halted(Raise(TypeError))
    ensures r.Ok? ==> r.value == PlanFor(forecArgs, cases, field, forecCurrentDay)
    // the periods are read in order, and the first unreadable one decides the error
    ensures |forecArgs| > 0 && SelectFunction(forecArgs[0]).Ok? && ArgInt(forecArgs, 1).Halted? ==>
      r == Halted(ArgInt(forecArgs, 1).halt)
    ensures |forecArgs| > 0 && SelectFunction(forecArgs[0]).Ok? && ArgInt(forecArgs, 1).Ok? &&
            ArgInt(forecArgs, 2).Halted? ==>
      r == Halted(ArgInt(forecArgs, 2).halt)
    // well-formed arguments over an empty table fail at `date[-1]`
    ensures |forecArgs| >= 3 && SelectFunction(forecArgs[0]).Ok? && ParseInt(forecArgs[1]).Ok? &&
            ParseInt(forecArgs[2]).Ok? && |cases| == 0 ==>
      r == Halted(Raise(IndexError))
  {
    if |forecArgs| == 0 then Halted(Raise(IndexError))
    else
      var func :- SelectFunction(forecArgs[0]);
      var forward :- ArgInt(forecArgs, 1);
      var backward :- ArgInt(forecArgs, 2);
      if |cases| == 0 then Halted(Raise(IndexError))
      else
        var plan := Plan(func, forward, backward, cases, field, forecCurrentDay);
        if |plan.fitDates| == 0 then Halted(Raise(ValueError))
        else if |plan.fitDates| < ParamCount(func) then Halted(Raise(TypeError))
        else Ok(plan)
  }

  /** When the dates never decrease, no row is later than the last date
      moved back by a non-positive number of days. */
  lemma NoRowAfterLast(cases: seq<Row>, backward: int, forecCurrentDay: bool)
    requires |cases| > 0 && backward <= 0
    requires forall i, j :: 0 <= i < j < |cases| ==> cases[i].date <= cases[j].date
    ensures RowsAfter(Pool(cases, forecCurrentDay), ShiftBy(LastDate(cases), -backward)) == []
  {
    var pool := Pool(cases, forecCurrentDay);
    var cut := ShiftBy(LastDate(cases), -backward);
    assert LastDate(cases) <= cut by {
      assert (-backward) * SecondsPerDay >= 0;
    }
    forall r | r in pool ensures r.date <= cut {
      var i :| 0 <= i < |pool| && pool[i] == r;
      assert pool[i] == cases[i];
    }
    RowsAfterNone(pool, cut);
  }

  /** A period `on_period <= 0` leaves nothing to fit when the table's dates
      never decrease (as in a region's rows after `preprocess`): no row is
      later than the last one, so `curve_fit` rejects the empty window. */
  lemma NonPositiveBackwardRaises(forecArgs: seq<Option<string>>, cases: seq<Row>, field: Field, forecCurrentDay: bool)
    requires ArgsAccepted(forecArgs, cases)
    requires ParseInt(forecArgs[2]).value <= 0
    requires forall i, j :: 0 <= i < j < |cases| ==> cases[i].date <= cases[j].date
    ensures Forecast(forecArgs, cases, field, forecCurrentDay) == Halted(Raise(ValueError))
  {
    NoRowAfterLast(cases, ParseInt(forecArgs[2]).value, forecCurrentDay);
    assert |PlanFor(forecArgs, cases, field, forecCurrentDay).fitDates| == 0;
  }

  /** Moving a timestamp by whole days moves its day number by as many. */
  lemma ShiftDays(t: Stamp, n: int)
    ensures DayOf(ShiftBy(t, n)) == DayOf(t) + n
  {
    var q, r := t / SecondsPerDay, t % SecondsPerDay;
    assert t + n * SecondsPerDay == (q + n) * SecondsPerDay + r;
  }

  // ---------------------------------------------------------------------
  // The fitting window as a filter

  /** The rows the cut-off applies to: the whole table when the current day
      is fitted, all but its last row otherwise. */
  function Pool(cases: seq<Row>, forecCurrentDay: bool): (pool: seq<Row>)
    requires |cases| > 0
    ensures forecCurrentDay ==> pool == cases
    ensures !forecCurrentDay ==> pool == cases[..|cases| - 1]
  {
    if forecCurrentDay then cases else cases[..|cases| - 1]
  }

  /** A mask that tests each row's date selects the rows after that date. */
  lemma {:induction false} SelectByDate(rows: seq<Row>, m: seq<bool>, t: Stamp)
    requires |m| == |rows|
    requires forall i :: 0 <= i < |rows| ==> m[i] == (rows[i].date > t)
    ensures Select(rows, m) == RowsAfter(rows, t)
  {
    if |rows| > 0 {
      SelectByDate(rows[1..], m[1..], t);
    }
  }

  /** The rows the fit uses are exactly the rows dated strictly after
      `date_backward`, taken from the whole table when the current day is
      fitted and from all but its last row otherwise. */
  lemma FittingMaskFilters(cases: seq<Row>, dateBackward: Stamp, forecCurrentDay: bool)
    requires |cases| > 0
    ensures Select(cases, FittingMask(DateColumn(cases), dateBackward, forecCurrentDay)) ==
      RowsAfter(Pool(cases, forecCurrentDay), dateBackward)
  {
    var n := |cases| - 1;
    var mask := FittingMask(DateColumn(cases), dateBackward, forecCurrentDay);
    if forecCurrentDay {
      SelectByDate(cases, mask, dateBackward);
    } else {
      assert cases == cases[..n] + [cases[n]];
      assert mask == mask[..n] + [false];
      SelectConcat(cases[..n], [cases[n]], mask[..n], [false]);
      SelectByDate(cases[..n], mask[..n], dateBackward);
      assert Select([cases[n]], [false]) == [];
    }
  }
}
