/**
 * The Reports page: the current month's summary, a six-month spending trend
 * fetched month by month, and the comparison of the first two users.
 * Server responses are parameters: `Option` holds a response, `None` a
 * request that failed.
 */
module ReportsPage {
  import opened Wrappers
  import opened Dates
  import opened Records

  /** One point of the trend: the month's abbreviated name and its total. */
  datatype MonthlyData = MonthlyData(month: string, amount: real)

  /** The answers to `getMonthly(year, month)`, one per month; `None` is a failed request. */
  type MonthlyResponses = (int, int) -> Option<real>

  const LoadError: string := "Failed to load report data"

  /** The trend point `offset` months before `now`; a failed request counts as 0. */
  function TrendEntry(now: Date, offset: nat, monthly: MonthlyResponses): (r: MonthlyData)
    requires Wellformed(now)
    ensures var d := SubMonthsClamped(now, offset);
            r.month == MonthAbbrev(d.month)
            && (monthly(d.year, d.month).None? ==> r.amount == 0.0)
            && (monthly(d.year, d.month).Some? ==> r.amount == monthly(d.year, d.month).value)
  {
    var d := SubMonthsClamped(now, offset);
    MonthlyData(MonthAbbrev(d.month), monthly(d.year, d.month).GetOr(0.0))
  }

  /** The trend points for the offsets `from` down to 0, oldest first. */
  function Trends(now: Date, monthly: MonthlyResponses, from: int): seq<MonthlyData>
    requires Wellformed(now)
    decreases from + 1
  {
    if from < 0 then [] else [TrendEntry(now, from, monthly)] + Trends(now, monthly, from - 1)
  }

  /**
   * The trend has one point per month, oldest first: point `k` is the month
   * `from - k` months back, whether or not its request succeeded.
   */
  lemma {:induction false} TrendsSpec(now: Date, monthly: MonthlyResponses, from: int)
    requires Wellformed(now)
    ensures var t := Trends(now, monthly, from);
            |t| == if from < 0 then 0 else from + 1
    ensures forall k :: 0 <= k < |Trends(now, monthly, from)| ==>
              Trends(now, monthly, from)[k] == TrendEntry(now, from - k, monthly)
    decreases from + 1
  {
    if from >= 0 {
      TrendsSpec(now, monthly, from - 1);
    }
  }

  /** The trend ends with the current month, whatever the number of months before it. */
  lemma TrendEndsNow(now: Date, monthly: MonthlyResponses, from: nat)
    requires Wellformed(now)
    ensures |Trends(now, monthly, from)| == from + 1
    ensures Trends(now, monthly, from)[from] == MonthlyData(MonthAbbrev(now.month), monthly(now.year, now.month).GetOr(0.0))
  {
    TrendsSpec(now, monthly, from);
    SubMonthsZero(now);
  }

  /** No months back is the same day. */
  lemma SubMonthsZero(d: Date)
    requires Wellformed(d)
    ensures SubMonthsClamped(d, 0) == d
  {
    assert 0 <= d.month - 1 < 12;
    assert (d.month - 1) / 12 == 0 && (d.month - 1) % 12 == d.month - 1;
  }

  /** Appending the oldest remaining point leaves the rest of the trend to come. */
  lemma TrendsStep(now: Date, monthly: MonthlyResponses, done: seq<MonthlyData>, i: nat)
    requires Wellformed(now)
    ensures (done + [TrendEntry(now, i, monthly)]) + Trends(now, monthly, i - 1) == done + Trends(now, monthly, i)
  {
  }

  /** One pass of the loop: the month's request, with its failure caught and counted as 0. */
  method FetchTrendPoint(now: Date, offset: nat, monthly: MonthlyResponses) returns (p: MonthlyData)
    requires Wellformed(now)
    ensures p == TrendEntry(now, offset, monthly)
  {
    var d := SubMonthsClamped(now, offset);
    match monthly(d.year, d.month)
    case Some(total) =>
      p := MonthlyData(MonthAbbrev(d.month), total);
    case None =>
      p := MonthlyData(MonthAbbrev(d.month), 0.0);
  }

  /** The loop of `fetchReportData`: offsets `oldest` down to 0, each month fetched on its own. */
  method CollectTrends(now: Date, monthly: MonthlyResponses, oldest: nat) returns (trends: seq<MonthlyData>)
    requires Wellformed(now)
    ensures trends == Trends(now, monthly, oldest)
  {
    trends := [];
    var i: int := oldest;
    while i >= 0
      invariant -1 <= i <= oldest
      invariant trends + Trends(now, monthly, i) == Trends(now, monthly, oldest)
      decreases i + 1
    {
      var p := FetchTrendPoint(now, i, monthly);
      TrendsStep(now, monthly, trends, i);
      trends := trends + [p];
      i := i - 1;
    }
    assert trends + [] == trends;
  }

  /** The first two users of the summary side by side. */
  datatype Comparison = Comparison(user1: GroupSummary, user2: GroupSummary, difference: real, higherSpender: GroupSummary)

  /**
   * `getUserComparison`: nothing without a summary or with fewer than two
   * users; otherwise the first two users, the absolute difference of their
   * totals and the one who spent more, the second on a tie.
   */
  function UserComparison(summary: Option<MonthlySummary>): (r: Option<Comparison>)
    ensures r.None? <==> summary.None? || |summary.value.users| < 2
    ensures r.Some? ==>
              var u1 := summary.value.users[0];
              var u2 := summary.value.users[1];
              r.value.user1 == u1 && r.value.user2 == u2
              && (r.value.higherSpender == u1 || r.value.higherSpender == u2)
              && r.value.higherSpender.total >= u1.total && r.value.higherSpender.total >= u2.total
              && (u1.total <= u2.total ==> r.value.higherSpender == u2)
              && r.value.difference >= 0.0
              && (r.value.difference == u1.total - u2.total || r.value.difference == u2.total - u1.total)
  {
    if summary.None? || |summary.value.users| < 2 then None
    else
      var u1 := summary.value.users[0];
      var u2 := summary.value.users[1];
      var d := u1.total - u2.total;
      Some(Comparison(u1, u2, if d < 0.0 then -d else d, if u1.total > u2.total then u1 else u2))
  }

  /** The page's state. */
  class Page {
    var currentSummary: Option<MonthlySummary>
    var monthlyTrends: seq<MonthlyData>
    var loading: bool
    var error: Option<string>

    constructor ()
      ensures currentSummary == None && monthlyTrends == [] && loading && error == None
    {
      currentSummary := None;
      monthlyTrends := [];
      loading := true;
      error := None;
    }

    /**
     * `fetchReportData`: a failed current-month request aborts the report
     * with an error and keeps the old data; otherwise the summary and the
     * six-month trend replace them and the error is cleared.
     */
    method FetchReportData(current: Option<MonthlySummary>, now: Date, monthly: MonthlyResponses)
      requires Wellformed(now)
      modifies this
      ensures !loading
      ensures current.None? ==> error == Some(LoadError)
                                && currentSummary == old(currentSummary) && monthlyTrends == old(monthlyTrends)
      ensures current.Some? ==> error == None && currentSummary == current
                                && monthlyTrends == Trends(now, monthly, 5)
    {
      loading := true;
      if current.None? {
        error := Some(LoadError);
      } else {
        currentSummary := current;
        var trends := CollectTrends(now, monthly, 5);
        monthlyTrends := trends;
        error := None;
      }
      loading := false;
    }
  }
}
