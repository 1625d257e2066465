/** The per-date aggregates: `_get_stat_date_counts` (a sum of one metric per
    date, behind the six `stats_users_*` / `stats_local_*` fields), and the
    date grouping under the active-users ratio and the users-per-node
    average. */
module DateAggregates {
  import opened Records
  import opened Seqs
  import opened StatScope

  datatype DateCount = DateCount(date: int, count: int)

  /** Numerator and denominator of the active-users ratio of one date. */
  datatype RatioParts = RatioParts(date: int, monthly: int, total: int)

  /** Sum and row count behind the users-per-node average of one date. */
  datatype AverageParts = AverageParts(date: int, sum: int, rows: nat)

  predicate StrictlyAscending(ds: seq<int>) {
    forall i, j :: 0 <= i < j < |ds| ==> ds[i] < ds[j]
  }

  function DatesOf(rows: seq<Stat>): set<int> {
    set s | s in rows :: s.date
  }

  /** `Sum(metric)` over the rows dated `d`. */
  function SumOnDate(rows: seq<Stat>, m: Metric, d: int): int {
    if rows == [] then 0
    else (if rows[0].date == d then MetricOf(rows[0], m) else 0) + SumOnDate(rows[1..], m, d)
  }

  /** `Count` of the rows dated `d`. */
  function CountOnDate(rows: seq<Stat>, d: int): (n: nat)
    ensures n > 0 <==> d in DatesOf(rows)
  {
    if rows == [] then 0
    else
      assert rows == [rows[0]] + rows[1..];
      assert DatesOf(rows) == {rows[0].date} + DatesOf(rows[1..]);
      (if rows[0].date == d then 1 else 0) + CountOnDate(rows[1..], d)
  }

  function SumMetric(rows: seq<Stat>, m: Metric): int {
    if rows == [] then 0 else MetricOf(rows[0], m) + SumMetric(rows[1..], m)
  }

  function InsertDate(ds: seq<int>, d: int): (r: seq<int>)
    requires StrictlyAscending(ds)
    ensures StrictlyAscending(r)
    ensures forall e :: e in r <==> e in ds || e == d
  {
    if ds == [] then [d]
    else if d < ds[0] then [d] + ds
    else if d == ds[0] then ds
    else
      var rest := InsertDate(ds[1..], d);
      assert forall k :: 0 <= k < |rest| ==> ds[0] < rest[k] by {
        forall k | 0 <= k < |rest| ensures ds[0] < rest[k] {
          assert rest[k] in rest;
          if rest[k] != d {
            var j :| 0 <= j < |ds[1..]| && ds[1..][j] == rest[k];
            assert ds[j + 1] == rest[k];
          }
        }
      }
      [ds[0]] + rest
  }

  /** The groups of `qs.values('date') ... order_by('date')`: the distinct
      dates of `rows`, ascending. */
  function DistinctDates(rows: seq<Stat>): (r: seq<int>)
    ensures StrictlyAscending(r)
    ensures forall d :: d in r <==> d in DatesOf(rows)
  {
    if rows == [] then []
    else
      assert rows == [rows[0]] + rows[1..];
      assert DatesOf(rows) == {rows[0].date} + DatesOf(rows[1..]);
      InsertDate(DistinctDates(rows[1..]), rows[0].date)
  }

  /** The selected rows: the scope filter of `DateScope` applied to all stats. */
  function SelectedRows(stats: seq<Stat>, value: Option<string>, itemType: Option<string>): (r: Result<seq<Stat>, Error>)
    ensures r.Failure? <==> Truthy(value) && Truthy(itemType) && !IsItemType(itemType.value)
    ensures r.Success? ==> (forall s :: multiset(r.value)[s] ==
                                          if Selects(DateScope(value, itemType).value, s) then multiset(stats)[s] else 0)
  {
    match DateScope(value, itemType)
    case Failure(e) => Failure(e)
    case Success(sel) => Success(Filter(stats, SelectorFilter(sel)))
  }

  /** Per date of `rows`, ascending, the sum of metric `m` over the rows of that date. */
  function SumPerDate(rows: seq<Stat>, m: Metric): (r: seq<DateCount>)
    ensures forall i, j :: 0 <= i < j < |r| ==> r[i].date < r[j].date
    ensures forall d :: d in DatesOf(rows) <==> exists i :: 0 <= i < |r| && r[i].date == d
    ensures forall i :: 0 <= i < |r| ==> r[i].count == SumOnDate(rows, m, r[i].date)
  {
    var ds := DistinctDates(rows);
    var r := seq(|ds|, i requires 0 <= i < |ds| => DateCount(ds[i], SumOnDate(rows, m, ds[i])));
    assert forall d :: d in DatesOf(rows) ==> exists i :: 0 <= i < |r| && r[i].date == d by {
      forall d | d in DatesOf(rows) ensures exists i :: 0 <= i < |r| && r[i].date == d {
        var i :| 0 <= i < |ds| && ds[i] == d;
        assert r[i].date == d;
      }
    }
    r
  }

  /** `_get_stat_date_counts(stat, value, item_type)`: per date of the
      selected rows, the sum of metric `m` over them, ascending by date;
      `ValueError` for a non-empty unknown `itemType` with a non-empty value. */
  function ResolveDateCounts(stats: seq<Stat>, m: Metric, value: Option<string>, itemType: Option<string>)
    : (r: Result<seq<DateCount>, Error>)
    ensures r.Failure? <==> Truthy(value) && Truthy(itemType) && !IsItemType(itemType.value)
    ensures r.Success? ==> r.value == SumPerDate(SelectedRows(stats, value, itemType).value, m)
  {
    match SelectedRows(stats, value, itemType)
    case Failure(e) => Failure(e)
    case Success(rows) => Success(SumPerDate(rows, m))
  }

  /** `resolve_stats_users_active_ratio` without its float division: the
      per-date sums of `users_monthly` (numerator) and of `users_total`
      (denominator) over the rows its scope selects, paired by date. */
  function ResolveUsersActiveRatio(stats: seq<Stat>, value: Option<string>, itemType: Option<string>)
    : (r: Result<seq<RatioParts>, Error>)
    ensures r.Failure? <==> Truthy(value) && Truthy(itemType) && !IsItemType(itemType.value)
    ensures r.Success? ==>
      var rows := SelectedRows(stats, value, itemType).value;
      var monthly, total := SumPerDate(rows, UsersMonthly), SumPerDate(rows, UsersTotal);
      && |r.value| == |monthly| == |total|
      && (forall i :: 0 <= i < |r.value| ==>
            && r.value[i].date == monthly[i].date == total[i].date
            && r.value[i].monthly == monthly[i].count
            && r.value[i].total == total[i].count)
  {
    match SelectedRows(stats, value, itemType)
    case Failure(e) => Failure(e)
    case Success(rows) =>
      var monthly, total := SumPerDate(rows, UsersMonthly), SumPerDate(rows, UsersTotal);
      Success(seq(|monthly|, i requires 0 <= i < |monthly| =>
        RatioParts(monthly[i].date, monthly[i].count, total[i].count)))
  }

  /** `resolve_stats_users_per_node` without its float average: the
      per-date sums of `users_total` over the rows its scope selects, each
      with the number of rows averaged on that date, which is never zero. */
  function ResolveUsersPerNode(stats: seq<Stat>, value: Option<string>, itemType: Option<string>)
    : (r: Result<seq<AverageParts>, Error>)
    ensures r.Failure? <==> Truthy(value) && Truthy(itemType) && !IsItemType(itemType.value)
    ensures r.Success? ==>
      var rows := SelectedRows(stats, value, itemType).value;
      var total := SumPerDate(rows, UsersTotal);
      && |r.value| == |total|
      && (forall i :: 0 <= i < |r.value| ==>
            && r.value[i].date == total[i].date
            && r.value[i].sum == total[i].count
            && r.value[i].rows == CountOnDate(rows, total[i].date) > 0)
  {
    match SelectedRows(stats, value, itemType)
    case Failure(e) => Failure(e)
    case Success(rows) =>
      var total := SumPerDate(rows, UsersTotal);
      assert forall i :: 0 <= i < |total| ==> total[i].date in DatesOf(rows);
      Success(seq(|total|, i requires 0 <= i < |total| =>
        AverageParts(total[i].date, total[i].count, CountOnDate(rows, total[i].date))))
  }

  function SumCounts(cs: seq<DateCount>): int {
    if cs == [] then 0 else cs[0].count + SumCounts(cs[1..])
  }

  /** The per-date sums over the dates `ds` added up. */
  function SumOverDates(ds: seq<int>, rows: seq<Stat>, m: Metric): int {
    if ds == [] then 0 else SumOnDate(rows, m, ds[0]) + SumOverDates(ds[1..], rows, m)
  }

  lemma {:induction false} SumOverDatesCons(ds: seq<int>, s: Stat, rest: seq<Stat>, m: Metric)
    requires StrictlyAscending(ds)
    ensures SumOverDates(ds, [s] + rest, m) ==
      (if s.date in ds then MetricOf(s, m) else 0) + SumOverDates(ds, rest, m)
  {
    if ds != [] {
      var rows := [s] + rest;
      assert rows[0] == s && rows[1..] == rest;
      SumOverDatesCons(ds[1..], s, rest, m);
      assert s.date == ds[0] ==> s.date !in ds[1..];
      assert s.date != ds[0] ==> (s.date in ds <==> s.date in ds[1..]);
    }
  }

  lemma {:induction false} SumOverDatesIsTotal(ds: seq<int>, rows: seq<Stat>, m: Metric)
    requires StrictlyAscending(ds)
    requires forall s :: s in rows ==> s.date in ds
    ensures SumOverDates(ds, rows, m) == SumMetric(rows, m)
  {
    if rows == [] {
      SumOverDatesOfNoRows(ds, m);
    } else {
      assert rows == [rows[0]] + rows[1..];
      SumOverDatesCons(ds, rows[0], rows[1..], m);
      SumOverDatesIsTotal(ds, rows[1..], m);
    }
  }

  lemma {:induction false} SumOverDatesOfNoRows(ds: seq<int>, m: Metric)
    ensures SumOverDates(ds, [], m) == 0
  {
    if ds != [] {
      SumOverDatesOfNoRows(ds[1..], m);
    }
  }

  /** Grouping by date loses and duplicates nothing: the per-date sums add
      up to the metric summed over all the rows. */
  lemma {:induction false} SumPerDateKeepsTotal(rows: seq<Stat>, m: Metric)
    ensures SumCounts(SumPerDate(rows, m)) == SumMetric(rows, m)
  {
    var ds := DistinctDates(rows);
    var cs := SumPerDate(rows, m);
    assert forall s :: s in rows ==> s.date in ds by {
      forall s | s in rows ensures s.date in ds {
        assert s.date in DatesOf(rows);
      }
    }
    SumCountsOverDates(cs, ds, rows, m);
    SumOverDatesIsTotal(ds, rows, m);
  }

  lemma {:induction false} SumCountsOverDates(cs: seq<DateCount>, ds: seq<int>, rows: seq<Stat>, m: Metric)
    requires |cs| == |ds|
    requires forall i :: 0 <= i < |ds| ==> cs[i] == DateCount(ds[i], SumOnDate(rows, m, ds[i]))
    ensures SumCounts(cs) == SumOverDates(ds, rows, m)
  {
    if ds != [] {
      SumCountsOverDates(cs[1..], ds[1..], rows, m);
    }
  }
}
