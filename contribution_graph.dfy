/**
 * The contribution graph of the profile page: problems solved per day over the
 * year up to today, the total number of timed solves, the current streak of
 * consecutive solving days ending today, and the colour band of a day's count.
 *
 * Days are day numbers (see `Calendar`); the `yyyy-MM-dd` strings the component
 * uses as map keys stand in one-to-one for them.
 */
module ContributionGraph {
  import opened Calendar
  import opened Types

  /** One square of the graph. */
  datatype Contribution = Contribution(day: int, count: nat)

  /** The number of timed solves on day `d`. */
  ghost function SolvedOn(p: Progress, d: int): nat
  {
    |Fibre(p, p.Keys, SolveDay, d)|
  }

  /** `m` holds, for every day with a timed solve among the slugs `done`, the number of those solves, and no other day. */
  ghost predicate CountedDays(p: Progress, done: set<string>, m: map<int, nat>)
  {
    && (forall d :: d in m <==> |Fibre(p, done, SolveDay, d)| > 0)
    && (forall d :: d in m ==> m[d] == |Fibre(p, done, SolveDay, d)|)
  }

  /** One more slug: its solve day, if any, goes up by one. */
  lemma {:induction false} CountedDaysStep(p: Progress, done: set<string>, m: map<int, nat>, slug: string, m': map<int, nat>)
    requires slug in p && slug !in done
    requires CountedDays(p, done, m)
    requires SolveDay(p[slug]).None? ==> m' == m
    requires SolveDay(p[slug]).Some? ==> var date := SolveDay(p[slug]).value;
      m' == m[date := (if date in m then m[date] else 0) + 1]
    ensures CountedDays(p, done + {slug}, m')
  {
    forall d ensures |Fibre(p, done + {slug}, SolveDay, d)| == |Fibre(p, done, SolveDay, d)| + (if SolveDay(p[slug]) == Some(d) then 1 else 0) {
      FibreStep(p, done, SolveDay, slug, d);
    }
  }

  /** After the slugs `done`: the per-day counts and the running total. */
  ghost predicate Tallied(p: Progress, done: set<string>, m: map<int, nat>, total: nat)
  {
    CountedDays(p, done, m) && total == |SolvedSlugs(p, done)|
  }

  lemma TalliedStep(p: Progress, done: set<string>, m: map<int, nat>, total: nat, slug: string, m': map<int, nat>, total': nat)
    requires slug in p && slug !in done
    requires Tallied(p, done, m, total)
    requires SolveDay(p[slug]).None? ==> m' == m && total' == total
    requires SolveDay(p[slug]).Some? ==> var date := SolveDay(p[slug]).value;
      m' == m[date := (if date in m then m[date] else 0) + 1] && total' == total + 1
    ensures Tallied(p, done + {slug}, m', total')
  {
    SolvedStep(p, done, slug);
    CountedDaysStep(p, done, m, slug, m');
  }

  /** The `forEach` over the progress values: count solves per day and in total. */
  method CountByDay(p: Progress) returns (contributionsMap: map<int, nat>, totalContributions: nat)
    ensures forall d :: d in contributionsMap <==> SolvedOn(p, d) > 0
    ensures forall d :: d in contributionsMap ==> contributionsMap[d] == SolvedOn(p, d)
    ensures totalContributions == |SolvedSlugs(p, p.Keys)|
  {
    contributionsMap := map[];
    totalContributions := 0;
    var rest := p.Keys;
    while rest != {}
      invariant rest <= p.Keys
      invariant Tallied(p, p.Keys - rest, contributionsMap, totalContributions)
      decreases |rest|
    {
      var slug :| slug in rest;
      var m', total' := Tally(p[slug], contributionsMap, totalContributions);
      TalliedStep(p, p.Keys - rest, contributionsMap, totalContributions, slug, m', total');
      assert p.Keys - (rest - {slug}) == (p.Keys - rest) + {slug};
      contributionsMap, totalContributions := m', total';
      rest := rest - {slug};
    }
    assert p.Keys - rest == p.Keys;
  }

  /** The body of that `forEach`: a timed solve adds one to its day, creating the day at zero first, and one to the total. */
  method Tally(detail: Entry, m: map<int, nat>, total: nat) returns (m': map<int, nat>, total': nat)
    ensures SolveDay(detail).None? ==> m' == m && total' == total
    ensures SolveDay(detail).Some? ==> var date := SolveDay(detail).value;
      m' == m[date := (if date in m then m[date] else 0) + 1] && total' == total + 1
  {
    m', total' := m, total;
    if detail.Detail? && detail.status == Solved && detail.solvedAt.Some? {
      var date := DayOf(detail.solvedAt.value);
      if date !in m' {
        m' := m'[date := 0];
      }
      m' := m'[date := m'[date] + 1];
      total' := total' + 1;
    }
  }

  /** The streak loop: walk back from today while the day has a solve. */
  method CurrentStreak(contributionsMap: map<int, nat>, today: int) returns (currentStreak: nat)
    ensures forall d :: today - currentStreak < d <= today ==> d in contributionsMap
    ensures today - currentStreak !in contributionsMap
  {
    currentStreak := 0;
    var streakDate := today;
    ghost var unseen := contributionsMap.Keys;
    while streakDate in contributionsMap
      invariant streakDate == today - currentStreak
      invariant forall d :: streakDate < d <= today ==> d in contributionsMap
      invariant unseen <= contributionsMap.Keys
      invariant forall d :: d in contributionsMap && d <= streakDate ==> d in unseen
      decreases |unseen|
    {
      currentStreak := currentStreak + 1;
      unseen := unseen - {streakDate};
      streakDate := streakDate - 1;
    }
  }

  /** `allDays.map(...)`: one square per day from `start` through `today`, zero where the map has no count. */
  method DaysWithCounts(contributionsMap: map<int, nat>, start: int, today: int) returns (contributions: seq<Contribution>)
    requires start <= today
    ensures |contributions| == today - start + 1
    ensures forall i :: 0 <= i < |contributions| ==>
      contributions[i] == Contribution(start + i, if start + i in contributionsMap then contributionsMap[start + i] else 0)
  {
    contributions := [];
    var day := start;
    while day <= today
      invariant start <= day <= today + 1
      invariant |contributions| == day - start
      invariant forall i :: 0 <= i < |contributions| ==>
        contributions[i] == Contribution(start + i, if start + i in contributionsMap then contributionsMap[start + i] else 0)
      decreases today - day
    {
      var count := if day in contributionsMap then contributionsMap[day] else 0;
      contributions := contributions + [Contribution(day, count)];
      day := day + 1;
    }
  }

  /** The graph data at instant `now`: the days from a year ago through today with their solve counts, every timed solve in the total, and the run of solving days ending today. */
  /** Square `i` is day `start + i` with the number of timed solves on it. */
  ghost predicate DailyCounts(p: Progress, start: int, contributions: seq<Contribution>)
  {
    forall i :: 0 <= i < |contributions| ==> contributions[i] == Contribution(start + i, SolvedOn(p, start + i))
  }

  method ComputeGraphData(p: Progress, now: Timestamp) returns (contributions: seq<Contribution>, totalContributions: nat, currentStreak: nat)
    ensures |contributions| == DayOf(now) - YearAgo(DayOf(now)) + 1
    ensures DailyCounts(p, YearAgo(DayOf(now)), contributions)
    ensures totalContributions == |SolvedSlugs(p, p.Keys)|
    ensures forall d :: DayOf(now) - currentStreak < d <= DayOf(now) ==> SolvedOn(p, d) > 0
    ensures SolvedOn(p, DayOf(now) - currentStreak) == 0
  {
    var today := DayOf(now);
    var oneYearAgo := YearAgo(today);
    YearAgoSpan(today);
    contributions, totalContributions, currentStreak := GraphBetween(p, oneYearAgo, today);
  }

  /** The graph data for the days `start` through `today`. */
  method GraphBetween(p: Progress, start: int, today: int) returns (contributions: seq<Contribution>, totalContributions: nat, currentStreak: nat)
    requires start <= today
    ensures |contributions| == today - start + 1
    ensures DailyCounts(p, start, contributions)
    ensures totalContributions == |SolvedSlugs(p, p.Keys)|
    ensures forall d :: today - currentStreak < d <= today ==> SolvedOn(p, d) > 0
    ensures SolvedOn(p, today - currentStreak) == 0
  {
    var contributionsMap;
    contributionsMap, totalContributions := CountByDay(p);
    currentStreak := CurrentStreak(contributionsMap, today);
    contributions := DaysWithCounts(contributionsMap, start, today);
  }

  /** The graph spans 366 or 367 days: a year back from today, both ends included. */
  lemma WindowLength(today: int)
    ensures 366 <= today - YearAgo(today) + 1 <= 367
  {
    YearAgoSpan(today);
  }

  /** The streak is determined: only one length has every day up to it solved and the day before it not. */
  lemma StreakUnique(p: Progress, today: int, m: nat, n: nat)
    requires forall d :: today - m < d <= today ==> SolvedOn(p, d) > 0
    requires SolvedOn(p, today - m) == 0
    requires forall d :: today - n < d <= today ==> SolvedOn(p, d) > 0
    requires SolvedOn(p, today - n) == 0
    ensures m == n
  {
  }

  /** The squares' counts added up. */
  function WindowTotal(contributions: seq<Contribution>): nat
  {
    if |contributions| == 0 then 0
    else WindowTotal(contributions[..|contributions| - 1]) + contributions[|contributions| - 1].count
  }

  lemma {:induction false} WindowTotalPrefix(p: Progress, start: int, contributions: seq<Contribution>, n: nat)
    requires n <= |contributions|
    requires forall i :: 0 <= i < |contributions| ==> contributions[i].count == SolvedOn(p, start + i)
    ensures WindowTotal(contributions[..n]) == SumFibres(p, SolveDay, start, start + n)
    decreases n
  {
    if n > 0 {
      WindowTotalPrefix(p, start, contributions, n - 1);
      assert contributions[..n][..n - 1] == contributions[..n - 1];
    }
  }

  /** The squares count the solves of the window only, so they add up to at most the total, which also counts older solves. */
  lemma WindowWithinTotal(p: Progress, start: int, contributions: seq<Contribution>)
    requires forall i :: 0 <= i < |contributions| ==> contributions[i].count == SolvedOn(p, start + i)
    ensures WindowTotal(contributions) == |Band(p, SolveDay, start, start + |contributions|)|
    ensures WindowTotal(contributions) <= |SolvedSlugs(p, p.Keys)|
  {
    WindowTotalPrefix(p, start, contributions, |contributions|);
    assert contributions[..|contributions|] == contributions;
    SumFibresIsBand(p, SolveDay, start, start + |contributions|);
    BandWithinSolved(p, start, start + |contributions|);
  }

  // ---------------------------------------------------------------------------
  // Colour bands

  /** The colour band of a count: 0 for none, then 1–2, 3–5, 6–8 and 9 or more. */
  function IntensityLevel(count: nat): (level: nat)
    ensures level <= 4
    ensures level == 0 <==> count == 0
  {
    if count == 0 then 0
    else if count <= 2 then 1
    else if count <= 5 then 2
    else if count <= 8 then 3
    else 4
  }

  function LevelClass(level: nat): string
  {
    match level
    case 0 => "bg-muted/50"
    case 1 => "bg-primary/20 text-primary"
    case 2 => "bg-primary/40 text-primary-foreground"
    case 3 => "bg-primary/70 text-primary-foreground"
    case _ => "bg-primary text-primary-foreground"
  }

  /** `getIntensity`. */
  function GetIntensity(count: nat): string
  {
    LevelClass(IntensityLevel(count))
  }

  /** More solves never give a lighter band. */
  lemma IntensityMonotone(a: nat, b: nat)
    requires a <= b
    ensures IntensityLevel(a) <= IntensityLevel(b)
  {
  }

  /** The five bands have five different classes, so the class tells the band. */
  lemma IntensityClassesDistinct(a: nat, b: nat)
    ensures GetIntensity(a) == GetIntensity(b) <==> IntensityLevel(a) == IntensityLevel(b)
  {
  }
}
