/**
 `preprocess` (process_procedures.py): turns the time-series table and,
 when asked for, the current-day table into the case table, one row per
 (Place, Date), sorted by place and then date. Reading and parsing the CSV
 files is left out: the tables arrive as rows whose `Last_Update` is
 already a timestamp.
 */
module Preprocess {
  import opened Slices
  import opened Cases
  import opened Arguments

  /** UID of the United States' per-state rows, which are dropped. */
  const ExcludedUid: int := 840

  const World: string := "World"

  /** A row of either input file, restricted to the columns that matter. */
  datatype RawRow = RawRow(uid: int, countryRegion: string, lastUpdate: Stamp, confirmed: nat, deaths: nat)

  predicate Kept(r: RawRow) {
    r.uid != ExcludedUid
  }

  /** `raw[raw['UID'] != 840]`, in table order. How often each row is kept
      is stated by `KeepRowsCounts`, the order by `KeepRowsConcat`. */
  function KeepRows(raw: seq<RawRow>): (out: seq<RawRow>)
    ensures forall r :: r in out <==> r in raw && Kept(r)
  {
    Filter(Kept, raw)
  }

  /** Duplicate raw rows are all kept: every row with another UID than 840
      is kept as often as it occurs, and no other row is. */
  lemma KeepRowsCounts(raw: seq<RawRow>)
    ensures forall r :: multiset(KeepRows(raw))[r] == if Kept(r) then multiset(raw)[r] else 0
  {
    FilterCounts(Kept, raw);
  }

  /** The UID filter keeps the table order: filtering two consecutive
      pieces of the table is filtering each. */
  lemma KeepRowsConcat(raw: seq<RawRow>, more: seq<RawRow>)
    ensures KeepRows(raw + more) == KeepRows(raw) + KeepRows(more)
  {
    FilterConcat(Kept, raw, more);
  }

  /** The time-series rows: renamed to Place/Date, dated at midnight. */
  function TimeSeriesRows(raw: seq<RawRow>): (out: seq<Row>)
    ensures |out| == |KeepRows(raw)|
    ensures forall i :: 0 <= i < |out| ==>
      var r := KeepRows(raw)[i];
      out[i] == Row(r.countryRegion, Normalize(r.lastUpdate), Counts(r.confirmed, r.deaths))
  {
    MapSeq((r: RawRow) => Row(r.countryRegion, Normalize(r.lastUpdate), Counts(r.confirmed, r.deaths)),
           KeepRows(raw))
  }

  /** The current-day rows: dated one day before their `Last_Update`, and,
      unlike the time-series rows, not moved to midnight. */
  function CurrentDayRows(raw: seq<RawRow>): (out: seq<Row>)
    ensures |out| == |KeepRows(raw)|
    ensures forall i :: 0 <= i < |out| ==>
      var r := KeepRows(raw)[i];
      out[i] == Row(r.countryRegion, r.lastUpdate - SecondsPerDay, Counts(r.confirmed, r.deaths))
  {
    MapSeq((r: RawRow) => Row(r.countryRegion, r.lastUpdate - SecondsPerDay, Counts(r.confirmed, r.deaths)),
           KeepRows(raw))
  }

  predicate WantsWorld(args: Args) {
    World in args.regions
  }

  /** The current-day file is read when either flag asks for it. */
  predicate ReadsCurrentDay(args: Args) {
    args.currentDay || args.forecCurrentDay
  }

  /** The "World" contribution to key k. */
  function WorldPart(args: Args, cases: seq<Row>, k: Key): Counts {
    if WantsWorld(args) && k.place == World then TotalOnDate(cases, k.date) else Zero
  }

  /** The current-day contribution to key k. */
  function TodayPart(args: Args, todayRaw: seq<RawRow>, k: Key): Counts {
    if ReadsCurrentDay(args) then TotalAt(CurrentDayRows(todayRaw), k) else Zero
  }

  /** `preprocess`: one row per (Place, Date), sorted by place then date;
      the counts for a key are the time-series counts for it, plus, for a
      "World" key when "World" was requested, the totals over all places
      of the time-series rows of that date, plus, when the current-day
      table is read, its counts for the key. */
  function Preprocess(args: Args, casesRaw: seq<RawRow>, todayRaw: seq<RawRow>): (out: seq<Row>)
    ensures SortedByKey(out)
    ensures forall k :: k in Keys(out) <==>
      || k in Keys(TimeSeriesRows(casesRaw))
      || (WantsWorld(args) && k.place == World && k.date in Dates(TimeSeriesRows(casesRaw)))
      || (ReadsCurrentDay(args) && k in Keys(CurrentDayRows(todayRaw)))
    ensures forall k :: (TotalAt(out, k) ==
      Add(Add(TotalAt(TimeSeriesRows(casesRaw), k), WorldPart(args, TimeSeriesRows(casesRaw), k)),
          TodayPart(args, todayRaw, k)))
  {
    var cases := TimeSeriesRows(casesRaw);
    var world := DateTotals(World, cases);
    var today := CurrentDayRows(todayRaw);
    var withWorld := if WantsWorld(args) then cases + world else cases;
    var all := if ReadsCurrentDay(args) then withWorld + today else withWorld;
    KeysConcat(cases, world);
    KeysConcat(withWorld, today);
    forall k ensures TotalAt(all, k) ==
      Add(Add(TotalAt(cases, k), WorldPart(args, cases, k)), TodayPart(args, todayRaw, k))
    {
      TotalAtConcat(cases, world, k);
      TotalAtConcat(withWorld, today, k);
      AddZero(TotalAt(cases, k));
      AddZero(TotalAt(withWorld, k));
      if WantsWorld(args) && k.place != World && k !in Keys(world) {
        TotalAtAbsent(world, k);
      }
    }
    GroupSum(all)
  }

  // ---------------------------------------------------------------------
  // Properties

  lemma {:induction false} FilterIdempotent<T(!new)>(p: T -> bool, xs: seq<T>)
    ensures Filter(p, Filter(p, xs)) == Filter(p, xs)
  {
    if |xs| > 0 {
      FilterIdempotent(p, xs[1..]);
      var rest := Filter(p, xs[1..]);
      if p(xs[0]) {
        var f := [xs[0]] + rest;
        assert Filter(p, xs) == f;
        assert f[0] == xs[0] && f[1..] == rest;
      } else {
        assert Filter(p, xs) == rest;
      }
    }
  }

  /** Rows with UID 840 have no influence on the result: dropping them
      beforehand changes nothing. */
  lemma ExcludedRowsIgnored(args: Args, casesRaw: seq<RawRow>, todayRaw: seq<RawRow>)
    ensures Preprocess(args, KeepRows(casesRaw), KeepRows(todayRaw)) == Preprocess(args, casesRaw, todayRaw)
  {
    FilterIdempotent(Kept, casesRaw);
    FilterIdempotent(Kept, todayRaw);
  }

  /** When neither current-day flag is set, the current-day table is not
      read, so it cannot influence the result. */
  lemma CurrentDayUnreadWithoutFlags(args: Args, casesRaw: seq<RawRow>, today1: seq<RawRow>, today2: seq<RawRow>)
    requires !args.currentDay && !args.forecCurrentDay
    ensures Preprocess(args, casesRaw, today1) == Preprocess(args, casesRaw, today2)
  {
  }

  /** A kept current-day row lands on the key (its place, one day before its
      `Last_Update`), time of day included. */
  lemma CurrentDayRowShifted(args: Args, casesRaw: seq<RawRow>, todayRaw: seq<RawRow>, x: RawRow)
    requires ReadsCurrentDay(args)
    requires x in todayRaw && Kept(x)
    ensures Key(x.countryRegion, x.lastUpdate - SecondsPerDay) in Keys(Preprocess(args, casesRaw, todayRaw))
  {
    var kept := KeepRows(todayRaw);
    assert x in kept;
    var i :| 0 <= i < |kept| && kept[i] == x;
    var today := CurrentDayRows(todayRaw);
    KeysMember(today, KeyOf(today[i]));
  }

  /** Each date of the time-series table gets one "World" row whose counts
      are that date's totals over all places, provided "World" was
      requested and no input row is itself named "World". Current-day rows
      are added after the totals are taken and do not enter them. */
  lemma WorldTotals(args: Args, casesRaw: seq<RawRow>, todayRaw: seq<RawRow>, d: Stamp)
    requires WantsWorld(args)
    requires forall r :: r in casesRaw ==> r.countryRegion != World
    requires forall r :: r in todayRaw ==> r.countryRegion != World
    requires d in Dates(TimeSeriesRows(casesRaw))
    ensures Key(World, d) in Keys(Preprocess(args, casesRaw, todayRaw))
    ensures TotalAt(Preprocess(args, casesRaw, todayRaw), Key(World, d)) == TotalOnDate(TimeSeriesRows(casesRaw), d)
  {
    var k := Key(World, d);
    var cases := TimeSeriesRows(casesRaw);
    var today := CurrentDayRows(todayRaw);
    NoWorldKey(cases, casesRaw, k, false);
    NoWorldKey(today, todayRaw, k, true);
    TotalAtAbsent(cases, k);
    TotalAtAbsent(today, k);
    AddZero(TotalOnDate(cases, d));
  }

  /** Neither derived table has a "World" key when no raw row is named
      "World". */
  lemma NoWorldKey(rows: seq<Row>, raw: seq<RawRow>, k: Key, current: bool)
    requires rows == if current then CurrentDayRows(raw) else TimeSeriesRows(raw)
    requires forall r :: r in raw ==> r.countryRegion != World
    requires k.place == World
    ensures k !in Keys(rows)
  {
    forall i | 0 <= i < |rows| ensures KeyOf(rows[i]) != k {
      assert KeepRows(raw)[i] in raw;
    }
    KeysMember(rows, k);
  }

  lemma {:induction false} RelabelTotal(place: string, rows: seq<Row>)
    ensures Total(Relabel(place, rows)) == Total(rows)
  {
    if |rows| > 0 {
      var n := |rows| - 1;
      assert Relabel(place, rows)[..n] == Relabel(place, rows[..n]);
      RelabelTotal(place, rows[..n]);
    }
  }

  /** Nothing is lost in the group-by: the grand total of the result is the
      time-series total, counted a second time through the "World" rows
      when they are requested, plus the current-day total when read. */
  lemma TotalsPreserved(args: Args, casesRaw: seq<RawRow>, todayRaw: seq<RawRow>)
    ensures var cases := TimeSeriesRows(casesRaw);
      Total(Preprocess(args, casesRaw, todayRaw)) ==
        Add(Add(Total(cases), if WantsWorld(args) then Total(cases) else Zero),
            if ReadsCurrentDay(args) then Total(CurrentDayRows(todayRaw)) else Zero)
  {
    var cases := TimeSeriesRows(casesRaw);
    var world := DateTotals(World, cases);
    var today := CurrentDayRows(todayRaw);
    var withWorld := if WantsWorld(args) then cases + world else cases;
    RelabelTotal(World, cases);
    TotalConcat(cases, world);
    TotalConcat(withWorld, today);
    AddZero(Total(cases));
    AddZero(Total(withWorld));
  }
}
