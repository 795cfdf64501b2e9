/**
 The case table the preprocessing produces and its group-by-sum: rows of
 (Place, Date, Confirmed, Deaths), and `groupby(['Date', 'Place']).sum()`
 followed by `sort_values(by=['Place', 'Date'])`, which leaves one row per
 (Place, Date) key, in key order, carrying the sum of that key's counts.

 Dates are timestamps in whole seconds since the epoch; a day number is a
 timestamp divided by the seconds in a day (rounding down).
 */
module Cases {
  import opened Strings
  import opened Slices

  const SecondsPerDay: int := 86400

  type Stamp = int

  /** The day a timestamp falls on (`astype('datetime64[D]')`). */
  function DayOf(t: Stamp): int {
    t / SecondsPerDay
  }

  /** `dt.normalize()`: midnight of the same day. */
  function Normalize(t: Stamp): (r: Stamp)
    ensures r % SecondsPerDay == 0
    ensures r <= t < r + SecondsPerDay
    ensures DayOf(r) == DayOf(t)
  {
    DayOf(t) * SecondsPerDay
  }

  datatype Counts = Counts(confirmed: nat, deaths: nat)

  const Zero: Counts := Counts(0, 0)

  function Add(a: Counts, b: Counts): Counts {
    Counts(a.confirmed + b.confirmed, a.deaths + b.deaths)
  }

  lemma AddAssociative(a: Counts, b: Counts, c: Counts)
    ensures Add(Add(a, b), c) == Add(a, Add(b, c))
  {
  }

  lemma AddCommutative(a: Counts, b: Counts)
    ensures Add(a, b) == Add(b, a)
  {
  }

  lemma AddZero(a: Counts)
    ensures Add(a, Zero) == a && Add(Zero, a) == a
  {
  }

  datatype Row = Row(place: string, date: Stamp, counts: Counts)

  /** The group-by key. */
  datatype Key = Key(place: string, date: Stamp)

  function KeyOf(r: Row): Key {
    Key(r.place, r.date)
  }

  /** `sort_values(by=['Place', 'Date'])`: by place, then by date. */
  predicate KeyLess(a: Key, b: Key) {
    Less(a.place, b.place) || (a.place == b.place && a.date < b.date)
  }

  lemma KeyLessIrreflexive(a: Key)
    ensures !KeyLess(a, a)
  {
    LessIrreflexive(a.place);
  }

  lemma KeyLessTransitive(a: Key, b: Key, c: Key)
    requires KeyLess(a, b) && KeyLess(b, c)
    ensures KeyLess(a, c)
  {
    if Less(a.place, b.place) && Less(b.place, c.place) {
      LessTransitive(a.place, b.place, c.place);
    }
  }

  lemma KeyLessTotal(a: Key, b: Key)
    ensures a == b || KeyLess(a, b) || KeyLess(b, a)
  {
    LessTotal(a.place, b.place);
  }

  lemma KeyLessAsymmetric(a: Key, b: Key)
    requires KeyLess(a, b)
    ensures !KeyLess(b, a)
  {
    if Less(a.place, b.place) {
      LessAsymmetric(a.place, b.place);
    } else {
      LessIrreflexive(a.place);
    }
  }

  /** Strictly ascending keys: sorted, and no key twice. */
  ghost predicate SortedByKey(rows: seq<Row>) {
    forall i, j :: 0 <= i < j < |rows| ==> KeyLess(KeyOf(rows[i]), KeyOf(rows[j]))
  }

  /** Every row's key lies strictly above `k`. */
  ghost predicate AllAbove(k: Key, rows: seq<Row>) {
    forall i :: 0 <= i < |rows| ==> KeyLess(k, KeyOf(rows[i]))
  }

  /** The keys that occur in a table. */
  function Keys(rows: seq<Row>): set<Key> {
    if |rows| == 0 then {}
    else Keys(rows[..|rows| - 1]) + {KeyOf(rows[|rows| - 1])}
  }

  /** The counts of all rows with key `k`, added up. */
  function TotalAt(rows: seq<Row>, k: Key): Counts {
    if |rows| == 0 then Zero
    else
      var last := rows[|rows| - 1];
      Add(TotalAt(rows[..|rows| - 1], k), if KeyOf(last) == k then last.counts else Zero)
  }

  /** The counts of the whole table, added up. */
  function Total(rows: seq<Row>): Counts {
    if |rows| == 0 then Zero
    else Add(Total(rows[..|rows| - 1]), rows[|rows| - 1].counts)
  }

  lemma {:induction false} KeysMember(rows: seq<Row>, k: Key)
    ensures k in Keys(rows) <==> exists i :: 0 <= i < |rows| && KeyOf(rows[i]) == k
  {
    if |rows| > 0 {
      var prefix := rows[..|rows| - 1];
      KeysMember(prefix, k);
      if exists i :: 0 <= i < |rows| && KeyOf(rows[i]) == k {
        var i :| 0 <= i < |rows| && KeyOf(rows[i]) == k;
        if i < |rows| - 1 {
          assert KeyOf(prefix[i]) == k;
        }
      }
    }
  }

  lemma {:induction false} TotalAtConcat(xs: seq<Row>, ys: seq<Row>, k: Key)
    ensures TotalAt(xs + ys, k) == Add(TotalAt(xs, k), TotalAt(ys, k))
    decreases |ys|
  {
    if |ys| > 0 {
      var ys' := ys[..|ys| - 1];
      var last := ys[|ys| - 1];
      var c := if KeyOf(last) == k then last.counts else Zero;
      assert (xs + ys)[..|xs + ys| - 1] == xs + ys';
      assert (xs + ys)[|xs + ys| - 1] == last;
      assert TotalAt(xs + ys, k) == Add(TotalAt(xs + ys', k), c);
      TotalAtConcat(xs, ys', k);
      assert TotalAt(ys, k) == Add(TotalAt(ys', k), c);
      AddAssociative(TotalAt(xs, k), TotalAt(ys', k), c);
    } else {
      assert xs + ys == xs;
      AddZero(TotalAt(xs, k));
    }
  }

  lemma {:induction false} TotalConcat(xs: seq<Row>, ys: seq<Row>)
    ensures Total(xs + ys) == Add(Total(xs), Total(ys))
    decreases |ys|
  {
    if |ys| > 0 {
      var ys' := ys[..|ys| - 1];
      var last := ys[|ys| - 1];
      assert (xs + ys)[..|xs + ys| - 1] == xs + ys';
      assert (xs + ys)[|xs + ys| - 1] == last;
      TotalConcat(xs, ys');
      AddAssociative(Total(xs), Total(ys'), last.counts);
    } else {
      assert xs + ys == xs;
      AddZero(Total(xs));
    }
  }

  lemma {:induction false} KeysConcat(xs: seq<Row>, ys: seq<Row>)
    ensures Keys(xs + ys) == Keys(xs) + Keys(ys)
    decreases |ys|
  {
    if |ys| > 0 {
      var ys' := ys[..|ys| - 1];
      assert (xs + ys)[..|xs + ys| - 1] == xs + ys';
      KeysConcat(xs, ys');
    } else {
      assert xs + ys == xs;
    }
  }

  /** Splitting off the first row, for the insertion below. */
  lemma ConsFacts(x: Row, rest: seq<Row>)
    ensures Keys([x] + rest) == {KeyOf(x)} + Keys(rest)
    ensures Total([x] + rest) == Add(x.counts, Total(rest))
  {
    KeysConcat([x], rest);
    TotalConcat([x], rest);
    assert [x][..0] == [];
  }

  lemma ConsTotalAt(x: Row, rest: seq<Row>, k: Key)
    ensures TotalAt([x] + rest, k) == Add(if KeyOf(x) == k then x.counts else Zero, TotalAt(rest, k))
  {
    TotalAtConcat([x], rest, k);
    assert [x][..0] == [];
    AddZero(if KeyOf(x) == k then x.counts else Zero);
  }

  /** Adds one row to a grouped table: merged into the row with the same
      key if there is one, otherwise inserted at its sorted position. */
  function InsertRow(acc: seq<Row>, x: Row): (out: seq<Row>)
    requires SortedByKey(acc)
    ensures SortedByKey(out)
    ensures forall k :: AllAbove(k, acc) && KeyLess(k, KeyOf(x)) ==> AllAbove(k, out)
  {
    if |acc| == 0 then [x]
    else
      var head, tail := acc[0], acc[1..];
      if KeyOf(head) == KeyOf(x) then
        [Row(x.place, x.date, Add(head.counts, x.counts))] + tail
      else if KeyLess(KeyOf(x), KeyOf(head)) then
        assert forall j :: 0 < j < |acc| ==> KeyLess(KeyOf(x), KeyOf(acc[j])) by {
          forall j | 0 < j < |acc| ensures KeyLess(KeyOf(x), KeyOf(acc[j])) {
            KeyLessTransitive(KeyOf(x), KeyOf(head), KeyOf(acc[j]));
          }
        }
        [x] + acc
      else
        KeyLessTotal(KeyOf(x), KeyOf(head));
        assert AllAbove(KeyOf(head), tail);
        var rest := InsertRow(tail, x);
        [head] + rest
  }

  /** Inserting adds the row's key and nothing else. */
  lemma {:induction false} InsertRowKeys(acc: seq<Row>, x: Row)
    requires SortedByKey(acc)
    ensures Keys(InsertRow(acc, x)) == Keys(acc) + {KeyOf(x)}
  {
    if |acc| == 0 {
      ConsFacts(x, []);
      assert [x] + [] == [x];
    } else {
      var head, tail := acc[0], acc[1..];
      assert acc == [head] + tail;
      ConsFacts(head, tail);
      if KeyOf(head) == KeyOf(x) {
        ConsFacts(Row(x.place, x.date, Add(head.counts, x.counts)), tail);
      } else if KeyLess(KeyOf(x), KeyOf(head)) {
        ConsFacts(x, acc);
      } else {
        InsertRowKeys(tail, x);
        ConsFacts(head, InsertRow(tail, x));
      }
    }
  }

  /** Inserting adds the row's counts to its key's total and leaves every
      other key's total alone. */
  lemma {:induction false} InsertRowTotalAt(acc: seq<Row>, x: Row, k: Key)
    requires SortedByKey(acc)
    ensures TotalAt(InsertRow(acc, x), k) == Add(TotalAt(acc, k), if KeyOf(x) == k then x.counts else Zero)
  {
    var cx := if KeyOf(x) == k then x.counts else Zero;
    if |acc| == 0 {
      ConsTotalAt(x, [], k);
      assert [x] + [] == [x];
      AddZero(cx);
    } else {
      var head, tail := acc[0], acc[1..];
      var ch := if KeyOf(head) == k then head.counts else Zero;
      assert acc == [head] + tail;
      ConsTotalAt(head, tail, k);
      if KeyOf(head) == KeyOf(x) {
        var merged := Row(x.place, x.date, Add(head.counts, x.counts));
        ConsTotalAt(merged, tail, k);
        if KeyOf(x) == k {
          AddAssociative(head.counts, x.counts, TotalAt(tail, k));
          AddAssociative(head.counts, TotalAt(tail, k), x.counts);
          AddCommutative(x.counts, TotalAt(tail, k));
        } else {
          AddZero(TotalAt(acc, k));
        }
      } else if KeyLess(KeyOf(x), KeyOf(head)) {
        ConsTotalAt(x, acc, k);
        AddCommutative(cx, TotalAt(acc, k));
      } else {
        var rest := InsertRow(tail, x);
        InsertRowTotalAt(tail, x, k);
        ConsTotalAt(head, rest, k);
        AddAssociative(ch, TotalAt(tail, k), cx);
      }
    }
  }

  /** Inserting adds the row's counts to the grand total. */
  lemma {:induction false} InsertRowTotal(acc: seq<Row>, x: Row)
    requires SortedByKey(acc)
    ensures Total(InsertRow(acc, x)) == Add(Total(acc), x.counts)
  {
    if |acc| == 0 {
      ConsFacts(x, []);
      assert [x] + [] == [x];
      AddZero(x.counts);
    } else {
      var head, tail := acc[0], acc[1..];
      assert acc == [head] + tail;
      ConsFacts(head, tail);
      if KeyOf(head) == KeyOf(x) {
        ConsFacts(Row(x.place, x.date, Add(head.counts, x.counts)), tail);
        AddAssociative(head.counts, x.counts, Total(tail));
        AddAssociative(head.counts, Total(tail), x.counts);
      } else if KeyLess(KeyOf(x), KeyOf(head)) {
        ConsFacts(x, acc);
      } else {
        var rest := InsertRow(tail, x);
        InsertRowTotal(tail, x);
        ConsFacts(head, rest);
        AddAssociative(head.counts, Total(tail), x.counts);
      }
    }
  }

  /** `groupby(['Date', 'Place']).sum().reset_index()` followed by
      `sort_values(by=['Place', 'Date'])`: one row per key, in key order,
      each key's counts added up, nothing lost or invented. */
  function GroupSum(rows: seq<Row>): (out: seq<Row>)
    ensures SortedByKey(out)
    ensures Keys(out) == Keys(rows)
    ensures Total(out) == Total(rows)
    ensures forall k :: TotalAt(out, k) == TotalAt(rows, k)
  {
    if |rows| == 0 then []
    else
      var prefix, last := rows[..|rows| - 1], rows[|rows| - 1];
      var acc := GroupSum(prefix);
      InsertRowKeys(acc, last);
      InsertRowTotal(acc, last);
      forall k ensures TotalAt(InsertRow(acc, last), k) == TotalAt(rows, k) {
        InsertRowTotalAt(acc, last, k);
      }
      InsertRow(acc, last)
  }

  lemma {:induction false} TotalAtAbsent(rows: seq<Row>, k: Key)
    requires k !in Keys(rows)
    ensures TotalAt(rows, k) == Zero
  {
    if |rows| > 0 {
      assert Keys(rows) == Keys(rows[..|rows| - 1]) + {KeyOf(rows[|rows| - 1])};
      TotalAtAbsent(rows[..|rows| - 1], k);
    }
  }

  /** In a table with strictly ascending keys, a row's counts are the total
      for its key: no other row shares it. */
  lemma {:induction false} SortedRowIsTotal(rows: seq<Row>, i: nat)
    requires SortedByKey(rows)
    requires i < |rows|
    ensures TotalAt(rows, KeyOf(rows[i])) == rows[i].counts
  {
    var n := |rows| - 1;
    var prefix := rows[..n];
    var k := KeyOf(rows[i]);
    if i == n {
      if k in Keys(prefix) {
        KeysMember(prefix, k);
        var j :| 0 <= j < n && KeyOf(prefix[j]) == k;
        assert KeyLess(KeyOf(rows[j]), KeyOf(rows[n]));
        KeyLessIrreflexive(k);
      }
      TotalAtAbsent(prefix, k);
    } else {
      SortedRowIsTotal(prefix, i);
      assert prefix[i] == rows[i];
      assert KeyLess(KeyOf(rows[i]), KeyOf(rows[n]));
      KeyLessIrreflexive(k);
    }
  }

  /** Each output row of the group-by carries exactly the sum of the input
      rows with its (Place, Date). */
  lemma GroupSumRow(rows: seq<Row>, i: nat)
    requires i < |GroupSum(rows)|
    ensures GroupSum(rows)[i].counts == TotalAt(rows, KeyOf(GroupSum(rows)[i]))
  {
    SortedRowIsTotal(GroupSum(rows), i);
  }

  /** Keys and per-key totals determine a key-sorted table: anything sorted
      by (Place, Date) with one row per input key and the same per-key sums
      is the group-by output. */
  lemma {:induction false} GroupSumUnique(rows: seq<Row>, s: seq<Row>)
    requires SortedByKey(s)
    requires Keys(s) == Keys(rows)
    requires forall k :: TotalAt(s, k) == TotalAt(rows, k)
    ensures s == GroupSum(rows)
  {
    SortedUniqueByKey(s, GroupSum(rows));
  }

  lemma {:induction false} SortedUniqueByKey(s: seq<Row>, t: seq<Row>)
    requires SortedByKey(s) && SortedByKey(t)
    requires Keys(s) == Keys(t)
    requires forall k :: TotalAt(s, k) == TotalAt(t, k)
    ensures s == t
    decreases |s| + |t|
  {
    if |s| > 0 {
      KeysMember(s, KeyOf(s[|s| - 1]));
    }
    if |t| > 0 {
      KeysMember(t, KeyOf(t[|t| - 1]));
    }
    if |s| > 0 && |t| > 0 {
      var a, b := s[|s| - 1], t[|t| - 1];
      var s', t' := s[..|s| - 1], t[..|t| - 1];
      LastKeysAgree(s, t);
      SortedRowIsTotal(s, |s| - 1);
      SortedRowIsTotal(t, |t| - 1);
      assert a == b;
      LastKeyNotInPrefix(s);
      LastKeyNotInPrefix(t);
      assert Keys(s') == Keys(t');
      forall k ensures TotalAt(s', k) == TotalAt(t', k) {
        assert TotalAt(s, k) == TotalAt(t, k);
      }
      SortedUniqueByKey(s', t');
      assert s == s' + [a] && t == t' + [b];
    }
  }

  /** Two key-sorted tables with the same keys end with the same key. */
  lemma LastKeysAgree(s: seq<Row>, t: seq<Row>)
    requires SortedByKey(s) && SortedByKey(t)
    requires Keys(s) == Keys(t)
    requires |s| > 0 && |t| > 0
    ensures KeyOf(s[|s| - 1]) == KeyOf(t[|t| - 1])
  {
    var a, b := KeyOf(s[|s| - 1]), KeyOf(t[|t| - 1]);
    KeysMember(s, a);
    KeysMember(t, a);
    KeysMember(s, b);
    KeysMember(t, b);
    var i :| 0 <= i < |t| && KeyOf(t[i]) == a;
    var j :| 0 <= j < |s| && KeyOf(s[j]) == b;
    if a != b {
      assert i < |t| - 1 && KeyLess(a, b);
      assert j < |s| - 1 && KeyLess(b, a);
      KeyLessAsymmetric(a, b);
    }
  }

  /** In a key-sorted table the last key occurs nowhere before. */
  lemma LastKeyNotInPrefix(s: seq<Row>)
    requires SortedByKey(s) && |s| > 0
    ensures KeyOf(s[|s| - 1]) !in Keys(s[..|s| - 1])
  {
    var a, s' := KeyOf(s[|s| - 1]), s[..|s| - 1];
    KeysMember(s', a);
    if a in Keys(s') {
      var m :| 0 <= m < |s'| && KeyOf(s'[m]) == a;
      assert KeyLess(KeyOf(s[m]), a);
      KeyLessIrreflexive(a);
    }
  }

  // ---------------------------------------------------------------------
  // Per-date totals over all places

  /** The counts of all rows dated `d`, whatever their place. */
  function TotalOnDate(rows: seq<Row>, d: Stamp): Counts {
    if |rows| == 0 then Zero
    else
      var last := rows[|rows| - 1];
      Add(TotalOnDate(rows[..|rows| - 1], d), if last.date == d then last.counts else Zero)
  }

  /** The dates that occur in a table. */
  function Dates(rows: seq<Row>): set<Stamp> {
    if |rows| == 0 then {}
    else Dates(rows[..|rows| - 1]) + {rows[|rows| - 1].date}
  }

  function Relabel(place: string, rows: seq<Row>): (out: seq<Row>)
    ensures |out| == |rows|
  {
    MapSeq((r: Row) => Row(place, r.date, r.counts), rows)
  }

  lemma {:induction false} RelabelTotals(place: string, rows: seq<Row>, k: Key)
    ensures TotalAt(Relabel(place, rows), k) == if k.place == place then TotalOnDate(rows, k.date) else Zero
  {
    if |rows| > 0 {
      var n := |rows| - 1;
      var prefix, last := rows[..n], rows[n];
      var r := Relabel(place, rows);
      assert r[..n] == Relabel(place, prefix);
      assert r[n] == Row(place, last.date, last.counts);
      RelabelTotals(place, prefix, k);
      assert TotalAt(r, k) == Add(TotalAt(r[..n], k), if KeyOf(r[n]) == k then last.counts else Zero);
      if k.place != place {
        AddZero(Zero);
      }
    }
  }

  lemma {:induction false} RelabelKeys(place: string, rows: seq<Row>, k: Key)
    ensures k in Keys(Relabel(place, rows)) <==> k.place == place && k.date in Dates(rows)
  {
    if |rows| > 0 {
      var n := |rows| - 1;
      var r := Relabel(place, rows);
      assert r[..n] == Relabel(place, rows[..n]);
      RelabelKeys(place, rows[..n], k);
    }
  }

  /** `cases.groupby(['Date']).sum()` with the Place column then set to
      `place`: one row per date, carrying that date's totals. */
  function DateTotals(place: string, rows: seq<Row>): (out: seq<Row>)
    ensures SortedByKey(out)
    ensures forall k :: k in Keys(out) <==> k.place == place && k.date in Dates(rows)
    ensures forall d :: TotalAt(out, Key(place, d)) == TotalOnDate(rows, d)
  {
    var out := GroupSum(Relabel(place, rows));
    forall k ensures k in Keys(out) <==> k.place == place && k.date in Dates(rows) {
      RelabelKeys(place, rows, k);
    }
    forall d ensures TotalAt(out, Key(place, d)) == TotalOnDate(rows, d) {
      RelabelTotals(place, rows, Key(place, d));
    }
    out
  }
}
