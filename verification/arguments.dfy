/**
 The argument namespace the plotting procedures read (`args` in
 process_procedures.py), as the web handler fills it in. Flags are stored
 by their Python truthiness; the forecast lists keep their raw entries,
 since the web handler may put `None` into them.
 */
module Arguments {
  import opened Outcomes

  datatype Args = Args(
    deaths: bool,                        // plot deaths as well
    list: bool,                          // `--list`: print the known regions and stop
    currentDay: bool,                    // append the current-day table
    fromDate: Option<string>,            // left limit of the date axis
    nonlog: bool,                        // linear instead of logarithmic scale
    regions: seq<string>,                // requested places
    forecConfirmed: seq<Option<string>>, // [function, forward days, backward days] or []
    forecDeaths: seq<Option<string>>,
    forecCurrentDay: bool)               // fit on the last (possibly partial) day too
}
