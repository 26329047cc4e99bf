/**
 * The home page: the difficulty colour of a problem row, the daily challenge,
 * and the chart of problems solved per month over the last six months.
 *
 * Months are keys `year * 12 + (month - 1)`. Month names are not modelled, so a
 * chart point carries its month key. The page sorts the points by the month it
 * finds again from each point's three-letter name; `WindowMonthsDistinct` shows
 * that in a six-month window every name belongs to one month, so that sort orders
 * by month key, and the points are already in that order.
 */
module HomePage {
  import opened Calendar
  import opened Text
  import opened Types
  import opened Catalog

  /** `getDifficultyClass` of the home page. */
  function DifficultyClass(difficulty: string): string
  {
    var d := Lower(difficulty);
    if d == "easy" then "text-green-500 dark:text-green-400"
    else if d == "medium" then "text-yellow-500 dark:text-yellow-400"
    else if d == "hard" then "text-red-500 dark:text-red-400"
    else "text-muted-foreground"
  }

  /** The colour ignores letter case. */
  lemma DifficultyClassIgnoresCase(difficulty: string)
    ensures DifficultyClass(Lower(difficulty)) == DifficultyClass(difficulty)
  {
    LowerIdempotent(difficulty);
  }

  /** The day of the year of `today` picks the daily challenge; an empty catalog has none. */
  function DailyChallenge(catalog: seq<Problem>, today: int): (r: Option<Problem>)
    ensures r.None? <==> |catalog| == 0
    ensures r.Some? ==> r.value == catalog[DayOfYear(today) % |catalog|]
  {
    if |catalog| == 0 then None else Some(catalog[DayOfYear(today) % |catalog|])
  }

  /** The daily challenge index is a valid index. */
  lemma DailyChallengeIndex(catalog: seq<Problem>, today: int)
    requires |catalog| > 0
    ensures 1 <= DayOfYear(today) <= 366
    ensures 0 <= DayOfYear(today) % |catalog| < |catalog|
  {
    DayOfYearRange(today);
  }

  /** Within a year the challenge moves on by one problem each day (wrapping round the catalog); only on 1 January does it restart. */
  lemma DailyChallengeAdvances(catalog: seq<Problem>, today: int)
    requires |catalog| > 0
    requires CivilFromDays(today + 1).month != 1 || CivilFromDays(today + 1).day != 1
    ensures DayOfYear(today + 1) == DayOfYear(today) + 1
    ensures DayOfYear(today + 1) % |catalog| == (DayOfYear(today) % |catalog| + 1) % |catalog|
  {
    DayOfYearNext(today);
    ModNext(DayOfYear(today), |catalog|);
  }

  /** Moving on by one day moves the index on by one, back to 0 after the last problem. */
  lemma ModNext(d: int, n: int)
    requires n > 0
    ensures (d + 1) % n == (d % n + 1) % n
  {
    var q, r := d / n, d % n;
    if r + 1 < n {
      ModOf(d + 1, n, q, r + 1);
      ModOf(r + 1, n, 0, r + 1);
    } else {
      ModOf(d + 1, n, q + 1, 0);
      ModOf(r + 1, n, 1, 0);
    }
  }

  /** The remainder is fixed by any quotient-remainder decomposition. */
  lemma ModOf(a: int, n: int, q: int, k: int)
    requires n > 0 && 0 <= k < n && a == q * n + k
    ensures a % n == k
  {
    var q', k' := a / n, a % n;
    MulAtLeast(q - q', n);
    MulAtLeast(q' - q, n);
    assert (q - q') * n == q * n - q' * n;
    assert (q' - q) * n == q' * n - q * n;
  }

  /** A positive multiple of a positive number is at least that number. */
  lemma {:induction false} MulAtLeast(m: int, n: int)
    ensures m >= 1 && n > 0 ==> m * n >= n
    decreases if m > 0 then m else 0
  {
    if m > 1 && n > 0 {
      MulAtLeast(m - 1, n);
      assert m * n == (m - 1) * n + n;
    }
  }

  /** One point of the chart. */
  datatype MonthlyProgress = MonthlyProgress(month: int, solved: nat)

  /** The number of timed solves in month `m`. */
  ghost function SolvedIn(p: Progress, m: int): nat
  {
    |Fibre(p, p.Keys, SolveMonth, m)|
  }

  /** The seeding loop: a zero count for each of the six months ending with `cur`. */
  method SeedMonths(cur: int) returns (monthlyCounts: map<int, nat>)
    ensures forall m :: m in monthlyCounts <==> cur - 5 <= m <= cur
    ensures forall m :: m in monthlyCounts ==> monthlyCounts[m] == 0
  {
    monthlyCounts := map[];
    var i := 5;
    while i >= 0
      invariant -1 <= i <= 5
      invariant forall m :: m in monthlyCounts <==> cur - 5 <= m < cur - i
      invariant forall m :: m in monthlyCounts ==> monthlyCounts[m] == 0
    {
      monthlyCounts := monthlyCounts[cur - i := 0];
      i := i - 1;
    }
  }

  /** The seeded months, each with the number of timed solves in it among the slugs `done`. */
  ghost predicate CountedMonths(p: Progress, done: set<string>, seeded: map<int, nat>, counts: map<int, nat>)
  {
    && counts.Keys == seeded.Keys
    && forall m :: m in counts ==> counts[m] == |Fibre(p, done, SolveMonth, m)|
  }

  lemma CountedMonthsStep(p: Progress, done: set<string>, seeded: map<int, nat>, counts: map<int, nat>, slug: string,
                          counts': map<int, nat>)
    requires slug in p && slug !in done
    requires CountedMonths(p, done, seeded, counts)
    requires SolveMonth(p[slug]).None? ==> counts' == counts
    requires SolveMonth(p[slug]).Some? ==> var m := SolveMonth(p[slug]).value;
      counts' == if m in counts then counts[m := counts[m] + 1] else counts
    ensures CountedMonths(p, done + {slug}, seeded, counts')
  {
    forall m ensures |Fibre(p, done + {slug}, SolveMonth, m)| == |Fibre(p, done, SolveMonth, m)| + (if SolveMonth(p[slug]) == Some(m) then 1 else 0) {
      FibreStep(p, done, SolveMonth, slug, m);
    }
  }

  /** The `forEach` over the entries: each timed solve bumps its month when that month is one of the seeded ones. */
  method CountSolves(p: Progress, seeded: map<int, nat>) returns (monthlyCounts: map<int, nat>)
    requires forall m :: m in seeded ==> seeded[m] == 0
    ensures monthlyCounts.Keys == seeded.Keys
    ensures forall m :: m in monthlyCounts ==> monthlyCounts[m] == SolvedIn(p, m)
  {
    monthlyCounts := seeded;
    var rest := p.Keys;
    while rest != {}
      invariant rest <= p.Keys
      invariant CountedMonths(p, p.Keys - rest, seeded, monthlyCounts)
      decreases |rest|
    {
      var slug :| slug in rest;
      var counts' := BumpMonth(p[slug], monthlyCounts);
      CountedMonthsStep(p, p.Keys - rest, seeded, monthlyCounts, slug, counts');
      assert p.Keys - (rest - {slug}) == (p.Keys - rest) + {slug};
      monthlyCounts := counts';
      rest := rest - {slug};
    }
    assert p.Keys - rest == p.Keys;
  }

  /** The body of that `forEach`: a timed solve adds one to its month, if that month is on the chart. */
  method BumpMonth(data: Entry, counts: map<int, nat>) returns (counts': map<int, nat>)
    ensures SolveMonth(data).None? ==> counts' == counts
    ensures SolveMonth(data).Some? ==> var m := SolveMonth(data).value;
      counts' == if m in counts then counts[m := counts[m] + 1] else counts
  {
    counts' := counts;
    if data.Detail? && data.status == Solved && data.solvedAt.Some? {
      var monthKey := MonthKey(DayOf(data.solvedAt.value));
      if monthKey in counts' {
        counts' := counts'[monthKey := counts'[monthKey] + 1];
      }
    }
  }

  /** `transformProgressToChartData`: the six months ending with the month of `today`, oldest first, with the number of problems solved in each. */
  method TransformProgressToChartData(p: Progress, today: int) returns (chart: seq<MonthlyProgress>)
    ensures |chart| == 6
    ensures forall i :: 0 <= i < 6 ==> chart[i] == MonthlyProgress(MonthKey(today) - 5 + i, SolvedIn(p, MonthKey(today) - 5 + i))
  {
    chart := ChartEndingAt(p, MonthKey(today));
  }

  /** The chart of the six months ending with month `cur`. */
  method ChartEndingAt(p: Progress, cur: int) returns (chart: seq<MonthlyProgress>)
    ensures |chart| == 6
    ensures forall i :: 0 <= i < 6 ==> chart[i] == MonthlyProgress(cur - 5 + i, SolvedIn(p, cur - 5 + i))
  {
    var seeded := SeedMonths(cur);
    var monthlyCounts := CountSolves(p, seeded);
    chart := [];
    for j := 0 to 6
      invariant |chart| == j
      invariant forall t :: 0 <= t < j ==> chart[t] == MonthlyProgress(cur - 5 + t, monthlyCounts[cur - 5 + t])
    {
      chart := chart + [MonthlyProgress(cur - 5 + j, monthlyCounts[cur - 5 + j])];
    }
  }


  /** The solved counts of the chart added up. */
  function ChartTotal(chart: seq<MonthlyProgress>): nat
  {
    if |chart| == 0 then 0 else ChartTotal(chart[..|chart| - 1]) + chart[|chart| - 1].solved
  }

  lemma {:induction false} ChartTotalPrefix(p: Progress, first: int, chart: seq<MonthlyProgress>, n: nat)
    requires n <= |chart|
    requires forall i :: 0 <= i < |chart| ==> chart[i].solved == SolvedIn(p, first + i)
    ensures ChartTotal(chart[..n]) == SumFibres(p, SolveMonth, first, first + n)
    decreases n
  {
    if n > 0 {
      ChartTotalPrefix(p, first, chart, n - 1);
      assert chart[..n][..n - 1] == chart[..n - 1];
    }
  }

  /** Each solve counts in at most one month, so the chart never shows more solves than there are timed solves. */
  lemma ChartTotalBounded(p: Progress, today: int, chart: seq<MonthlyProgress>)
    requires |chart| == 6
    requires forall i :: 0 <= i < 6 ==> chart[i] == MonthlyProgress(MonthKey(today) - 5 + i, SolvedIn(p, MonthKey(today) - 5 + i))
    ensures ChartTotal(chart) == |Band(p, SolveMonth, MonthKey(today) - 5, MonthKey(today) + 1)|
    ensures ChartTotal(chart) <= |SolvedSlugs(p, p.Keys)|
  {
    WindowTotal(p, MonthKey(today) - 5, chart);
  }

  lemma WindowTotal(p: Progress, first: int, chart: seq<MonthlyProgress>)
    requires |chart| == 6
    requires forall i :: 0 <= i < 6 ==> chart[i] == MonthlyProgress(first + i, SolvedIn(p, first + i))
    ensures ChartTotal(chart) == |Band(p, SolveMonth, first, first + 6)|
    ensures ChartTotal(chart) <= |SolvedSlugs(p, p.Keys)|
  {
    ChartTotalPrefix(p, first, chart, 6);
    assert chart[..6] == chart;
    SumFibresIsBand(p, SolveMonth, first, first + 6);
    BandWithinSolved(p, first, first + 6);
  }

  /** Without progress every month shows zero. */
  lemma EmptyProgressChart(p: Progress, m: int)
    requires p == map[]
    ensures SolvedIn(p, m) == 0
  {
    assert Fibre(p, p.Keys, SolveMonth, m) == {};
  }

  /** Stepping back from January lands in December of the year before. */
  lemma MonthKeyWraps(today: int)
    ensures var d := CivilFromDays(today); var k := MonthKey(today) - 1;
      d.month == 1 ==> k / 12 == d.year - 1 && k % 12 == 11
  {
    CivilValid(today);
  }

  /** Six consecutive months fall in six different months of the year, so their names are distinct. */
  lemma WindowMonthsDistinct(cur: int, i: int, j: int)
    requires 0 <= i < j < 6
    ensures (cur - 5 + i) % 12 != (cur - 5 + j) % 12
  {
    var a := cur - 5 + i;
    var b := cur - 5 + j;
    assert b == a + (j - i) && 0 < j - i < 12;
  }
}
