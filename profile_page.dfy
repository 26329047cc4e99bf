/**
 * The profile page: the avatar initials, the number of solved problems by
 * difficulty, and the number of catalog problems of each difficulty.
 */
module ProfilePage {
  import opened Types
  import opened Catalog
  import opened AvatarInitials

  /** The avatar initials, "U" when there is no name. */
  function GetInitials(displayName: Option<string>): (r: string)
    ensures displayName.None? || displayName.value == "" ==> r == "U"
    ensures 1 <= |r| <= 2
  {
    Initials(displayName, "U")
  }

  /** The page's test for a solved entry: the status field of a record, or the bare string itself, equals "Solved". */
  predicate IsSolvedEntry(e: Entry)
  {
    (e.Detail? && e.status == Solved) || e == Legacy("Solved")
  }

  /** The slugs the user has solved. */
  function SolvedSet(progress: Progress): set<string>
  {
    set k | k in progress && IsSolvedEntry(progress[k])
  }

  /** The number of problems of `catalog` with exactly difficulty `d`. */
  function DifficultyTotal(catalog: seq<Problem>, d: string): nat
  {
    if |catalog| == 0 then 0
    else DifficultyTotal(catalog[..|catalog| - 1], d) + (if catalog[|catalog| - 1].difficulty == d then 1 else 0)
  }

  /** The number of problems of `catalog` with exactly difficulty `d` whose slug is in `solved`. */
  function SolvedWithDifficulty(catalog: seq<Problem>, solved: set<string>, d: string): nat
  {
    if |catalog| == 0 then 0
    else
      var p := catalog[|catalog| - 1];
      SolvedWithDifficulty(catalog[..|catalog| - 1], solved, d) + (if p.slug in solved && p.difficulty == d then 1 else 0)
  }

  datatype SolvedCounts = SolvedCounts(easy: nat, medium: nat, hard: nat, total: nat)

  /** The first loop: the set of solved slugs. */
  method CollectSolved(progress: Progress) returns (solvedSlugs: set<string>)
    ensures solvedSlugs == SolvedSet(progress)
  {
    solvedSlugs := {};
    var rest := progress.Keys;
    while rest != {}
      invariant rest <= progress.Keys
      invariant solvedSlugs == set k | k in progress && k !in rest && IsSolvedEntry(progress[k])
      decreases |rest|
    {
      var slug :| slug in rest;
      if IsSolvedEntry(progress[slug]) {
        solvedSlugs := solvedSlugs + {slug};
      }
      rest := rest - {slug};
    }
  }

  /** `countProblemsByDifficulty`: solved catalog problems by exact difficulty, and all solved slugs. */
  method CountProblemsByDifficulty(progress: Progress, allProblems: seq<Problem>) returns (counts: SolvedCounts)
    ensures counts.easy == SolvedWithDifficulty(allProblems, SolvedSet(progress), "Easy")
    ensures counts.medium == SolvedWithDifficulty(allProblems, SolvedSet(progress), "Medium")
    ensures counts.hard == SolvedWithDifficulty(allProblems, SolvedSet(progress), "Hard")
    ensures counts.total == |SolvedSet(progress)|
  {
    var solvedSlugs := CollectSolved(progress);
    var easy, medium, hard := 0, 0, 0;
    for i := 0 to |allProblems|
      invariant easy == SolvedWithDifficulty(allProblems[..i], solvedSlugs, "Easy")
      invariant medium == SolvedWithDifficulty(allProblems[..i], solvedSlugs, "Medium")
      invariant hard == SolvedWithDifficulty(allProblems[..i], solvedSlugs, "Hard")
    {
      assert allProblems[..i + 1][..i] == allProblems[..i];
      var problem := allProblems[i];
      if problem.slug in solvedSlugs {
        if problem.difficulty == "Easy" {
          easy := easy + 1;
        } else if problem.difficulty == "Medium" {
          medium := medium + 1;
        } else if problem.difficulty == "Hard" {
          hard := hard + 1;
        }
      }
    }
    assert allProblems[..|allProblems|] == allProblems;
    counts := SolvedCounts(easy, medium, hard, |solvedSlugs|);
  }

  /** The per-difficulty catalog totals shown beside the solved counts. */
  function CatalogTotals(allProblems: seq<Problem>): (totals: (nat, nat, nat))
    ensures totals.0 + totals.1 + totals.2 <= |allProblems|
  {
    DifficultyTotalsBounded(allProblems);
    (DifficultyTotal(allProblems, "Easy"), DifficultyTotal(allProblems, "Medium"), DifficultyTotal(allProblems, "Hard"))
  }

  lemma {:induction false} DifficultyTotalsBounded(catalog: seq<Problem>)
    ensures DifficultyTotal(catalog, "Easy") + DifficultyTotal(catalog, "Medium") + DifficultyTotal(catalog, "Hard") <= |catalog|
    decreases |catalog|
  {
    if |catalog| > 0 {
      DifficultyTotalsBounded(catalog[..|catalog| - 1]);
    }
  }

  /** A difficulty never shows more solved problems than the catalog has of it. */
  lemma {:induction false} SolvedWithinCatalog(catalog: seq<Problem>, solved: set<string>, d: string)
    ensures SolvedWithDifficulty(catalog, solved, d) <= DifficultyTotal(catalog, d)
    decreases |catalog|
  {
    if |catalog| > 0 {
      SolvedWithinCatalog(catalog[..|catalog| - 1], solved, d);
    }
  }

  /** No two catalog problems share a slug. */
  predicate DistinctSlugs(catalog: seq<Problem>)
  {
    forall i, j :: 0 <= i < j < |catalog| ==> catalog[i].slug != catalog[j].slug
  }

  /** A solved catalog problem that one of the three difficulty counters counts. */
  predicate Counted(p: Problem, solved: set<string>)
  {
    p.slug in solved && (p.difficulty == "Easy" || p.difficulty == "Medium" || p.difficulty == "Hard")
  }

  /** The slugs of the solved catalog problems of the three named difficulties. */
  function CountedSlugs(catalog: seq<Problem>, solved: set<string>): set<string>
  {
    set i | 0 <= i < |catalog| && Counted(catalog[i], solved) :: catalog[i].slug
  }

  lemma CountedSlugsSnoc(catalog: seq<Problem>, solved: set<string>)
    requires |catalog| > 0
    ensures var p := catalog[|catalog| - 1];
      CountedSlugs(catalog, solved) == CountedSlugs(catalog[..|catalog| - 1], solved) + (if Counted(p, solved) then {p.slug} else {})
  {
    var init := catalog[..|catalog| - 1];
    var p := catalog[|catalog| - 1];
    forall x ensures x in CountedSlugs(catalog, solved) <==> x in CountedSlugs(init, solved) + (if Counted(p, solved) then {p.slug} else {}) {
      if x in CountedSlugs(catalog, solved) {
        var i :| 0 <= i < |catalog| && Counted(catalog[i], solved) && catalog[i].slug == x;
        if i < |init| {
          assert init[i] == catalog[i];
        }
      }
      if x in CountedSlugs(init, solved) {
        var i :| 0 <= i < |init| && Counted(init[i], solved) && init[i].slug == x;
        assert catalog[i] == init[i];
      }
    }
  }

  lemma {:induction false} CountedSlugsSize(catalog: seq<Problem>, solved: set<string>)
    requires DistinctSlugs(catalog)
    ensures SolvedWithDifficulty(catalog, solved, "Easy") + SolvedWithDifficulty(catalog, solved, "Medium")
      + SolvedWithDifficulty(catalog, solved, "Hard") == |CountedSlugs(catalog, solved)|
    decreases |catalog|
  {
    if |catalog| == 0 {
      assert CountedSlugs(catalog, solved) == {};
    } else {
      var init := catalog[..|catalog| - 1];
      var p := catalog[|catalog| - 1];
      assert DistinctSlugs(init);
      CountedSlugsSize(init, solved);
      CountedSlugsSnoc(catalog, solved);
      assert p.slug !in CountedSlugs(init, solved);
    }
  }

  /** With distinct catalog slugs the three difficulty counts never add up to more than the total; solved slugs outside the catalog still count toward the total. */
  lemma DifficultyCountsWithinTotal(progress: Progress, allProblems: seq<Problem>)
    requires DistinctSlugs(allProblems)
    ensures var solved := SolvedSet(progress);
      SolvedWithDifficulty(allProblems, solved, "Easy") + SolvedWithDifficulty(allProblems, solved, "Medium")
        + SolvedWithDifficulty(allProblems, solved, "Hard") <= |solved|
  {
    var solved := SolvedSet(progress);
    CountedSlugsSize(allProblems, solved);
    SubsetSize(CountedSlugs(allProblems, solved), solved);
  }
}
