/**
 * The problem catalog service: the problem list, lookup by slug, and the
 * problems grouped by company and by category.
 *
 * The catalog is a fixed list of problems; here it is the parameter `catalog`,
 * which is exactly what `getProblems` returns. A dictionary of groups is a
 * sequence of named groups in key order. An absent tag or company list is the
 * empty list and an absent category the empty string: every use of these fields
 * treats absent and empty alike.
 */
module Catalog {
  import opened Types
  import opened Text

  datatype Problem = Problem(
    title: string,
    difficulty: string,
    statement: string,
    slug: string,
    acceptance: Option<string>,
    tags: seq<string>,
    category: string,
    companies: seq<string>)

  /** One entry of a dictionary of problem groups. */
  datatype Group = Group(name: string, problems: seq<Problem>)

  function GroupNames(groups: seq<Group>): (names: seq<string>)
    ensures |names| == |groups|
    ensures forall i :: 0 <= i < |groups| ==> names[i] == groups[i].name
  {
    if |groups| == 0 then [] else GroupNames(groups[..|groups| - 1]) + [groups[|groups| - 1].name]
  }

  // ---------------------------------------------------------------------------
  // Lookup

  /** `find` by slug: the first problem with that slug, if any. */
  function GetProblemBySlug(catalog: seq<Problem>, slug: string): (r: Option<Problem>)
    ensures r.None? <==> forall i :: 0 <= i < |catalog| ==> catalog[i].slug != slug
    ensures r.Some? ==> r.value.slug == slug
    ensures r.Some? ==> exists i :: 0 <= i < |catalog| && catalog[i] == r.value && (forall j :: 0 <= j < i ==> catalog[j].slug != slug)
  {
    if |catalog| == 0 then None
    else if catalog[0].slug == slug then Some(catalog[0])
    else
      var r := GetProblemBySlug(catalog[1..], slug);
      assert forall i :: 1 <= i < |catalog| ==> catalog[i] == catalog[1..][i - 1];
      r
  }

  // ---------------------------------------------------------------------------
  // Ordering inside a group

  /** The difficulty order of the group sort: Easy, Medium, Hard, then anything else. */
  function Rank(difficulty: string): (r: int)
    ensures 1 <= r <= 4
    ensures r == 4 <==> difficulty != "Easy" && difficulty != "Medium" && difficulty != "Hard"
  {
    if difficulty == "Easy" then 1
    else if difficulty == "Medium" then 2
    else if difficulty == "Hard" then 3
    else 4
  }

  /** The problems of rank `r`, in their order in `g`. */
  function OfRank(g: seq<Problem>, r: int): seq<Problem>
  {
    if |g| == 0 then []
    else OfRank(g[..|g| - 1], r) + (if Rank(g[|g| - 1].difficulty) == r then [g[|g| - 1]] else [])
  }

  /** The ranks `r .. 4` one after another. */
  function Stack(g: seq<Problem>, r: int): seq<Problem>
    decreases 5 - r
  {
    if r > 4 then [] else OfRank(g, r) + Stack(g, r + 1)
  }

  /** The group after the stable sort by difficulty rank. */
  function ByRank(g: seq<Problem>): seq<Problem>
  {
    Stack(g, 1)
  }

  predicate SortedByRank(g: seq<Problem>)
  {
    forall i, j :: 0 <= i < j < |g| ==> Rank(g[i].difficulty) <= Rank(g[j].difficulty)
  }

  lemma {:induction false} OfRankMembers(g: seq<Problem>, r: int)
    ensures forall x :: x in OfRank(g, r) ==> x in g && Rank(x.difficulty) == r
    decreases |g|
  {
    if |g| > 0 {
      OfRankMembers(g[..|g| - 1], r);
    }
  }

  lemma {:induction false} StackRanks(g: seq<Problem>, r: int)
    ensures forall x :: x in Stack(g, r) ==> Rank(x.difficulty) >= r
    ensures SortedByRank(Stack(g, r))
    decreases 5 - r
  {
    if r <= 4 {
      OfRankMembers(g, r);
      StackRanks(g, r + 1);
      var a: seq<Problem> := OfRank(g, r);
      var b: seq<Problem> := Stack(g, r + 1);
      forall i, j | 0 <= i < j < |a + b|
        ensures Rank((a + b)[i].difficulty) <= Rank((a + b)[j].difficulty)
      {
        if i < |a| {
          assert (a + b)[i] in a;
          if j < |a| { assert (a + b)[j] in a; } else { assert (a + b)[j] == b[j - |a|]; assert b[j - |a|] in b; }
        } else {
          assert (a + b)[i] == b[i - |a|] && (a + b)[j] == b[j - |a|];
        }
      }
    }
  }

  /** The sorted group is ordered by difficulty rank. */
  lemma ByRankSorted(g: seq<Problem>)
    ensures SortedByRank(ByRank(g))
  {
    StackRanks(g, 1);
  }

  lemma OfRankSnoc(g: seq<Problem>, x: Problem, r: int)
    ensures OfRank(g + [x], r) == OfRank(g, r) + (if Rank(x.difficulty) == r then [x] else [])
  {
    assert (g + [x])[..|g|] == g;
  }

  lemma {:induction false} StackSnoc(g: seq<Problem>, x: Problem, r: int)
    ensures multiset(Stack(g + [x], r)) == multiset(Stack(g, r)) + (if r <= Rank(x.difficulty) then multiset{x} else multiset{})
    decreases 5 - r
  {
    if r <= 4 {
      var k := Rank(x.difficulty);
      var a, a' := OfRank(g, r), OfRank(g + [x], r);
      var b, b' := Stack(g, r + 1), Stack(g + [x], r + 1);
      OfRankSnoc(g, x, r);
      StackSnoc(g, x, r + 1);
      assert Stack(g + [x], r) == a' + b';
      assert Stack(g, r) == a + b;
      if k == r {
        assert a' == a + [x];
        assert multiset(b') == multiset(b);
      } else if k > r {
        assert a' == a;
        assert multiset(b') == multiset(b) + multiset{x};
      } else {
        assert a' == a;
        assert multiset(b') == multiset(b);
      }
    }
  }

  lemma {:induction false} StackPermutation(g: seq<Problem>)
    ensures multiset(Stack(g, 1)) == multiset(g)
    decreases |g|
  {
    if |g| == 0 {
      assert Stack(g, 1) == [] by {
        assert Stack(g, 5) == [];
      }
    } else {
      var init := g[..|g| - 1];
      StackPermutation(init);
      StackSnoc(init, g[|g| - 1], 1);
      assert init + [g[|g| - 1]] == g;
    }
  }

  /** The sort neither adds nor drops a problem. */
  lemma ByRankPermutation(g: seq<Problem>)
    ensures multiset(ByRank(g)) == multiset(g)
    ensures |ByRank(g)| == |g|
  {
    StackPermutation(g);
    assert |multiset(ByRank(g))| == |multiset(g)|;
  }

  lemma {:induction false} OfRankAppend(a: seq<Problem>, b: seq<Problem>, r: int)
    ensures OfRank(a + b, r) == OfRank(a, r) + OfRank(b, r)
    decreases |b|
  {
    if |b| == 0 {
      assert a + b == a;
    } else {
      var b0 := b[..|b| - 1];
      OfRankAppend(a, b0, r);
      assert (a + b)[..|a + b| - 1] == a + b0;
    }
  }

  lemma {:induction false} OfRankTwice(g: seq<Problem>, r: int, s: int)
    ensures OfRank(OfRank(g, s), r) == if r == s then OfRank(g, r) else []
    decreases |g|
  {
    if |g| > 0 {
      var init := g[..|g| - 1];
      var x := g[|g| - 1];
      OfRankTwice(init, r, s);
      var tail := if Rank(x.difficulty) == s then [x] else [];
      OfRankAppend(OfRank(init, s), tail, r);
      if Rank(x.difficulty) == s {
        assert OfRank(tail, r) == OfRank([], r) + (if Rank(x.difficulty) == r then [x] else []);
      }
    }
  }

  lemma {:induction false} OfRankStack(g: seq<Problem>, r: int, s: int)
    requires 1 <= r <= 4
    ensures OfRank(Stack(g, s), r) == if s <= r then OfRank(g, r) else []
    decreases 5 - s
  {
    if s > 4 {
    } else {
      OfRankStack(g, r, s + 1);
      OfRankAppend(OfRank(g, s), Stack(g, s + 1), r);
      OfRankTwice(g, r, s);
    }
  }

  /** The sort is stable: the problems of each rank keep their order. */
  lemma ByRankStable(g: seq<Problem>, r: int)
    requires 1 <= r <= 4
    ensures OfRank(ByRank(g), r) == OfRank(g, r)
  {
    OfRankStack(g, r, 1);
  }

  // ---------------------------------------------------------------------------
  // Grouping by company

  function Occurrences(s: seq<string>, c: string): nat
  {
    if |s| == 0 then 0 else Occurrences(s[..|s| - 1], c) + (if s[|s| - 1] == c then 1 else 0)
  }

  function Repeat(p: Problem, n: nat): seq<Problem>
  {
    if n == 0 then [] else Repeat(p, n - 1) + [p]
  }

  /** The problems pushed under company `c`, in push order: each problem once per listing of `c`. */
  function CompanyBucket(catalog: seq<Problem>, c: string): seq<Problem>
  {
    if |catalog| == 0 then []
    else
      var p := catalog[|catalog| - 1];
      CompanyBucket(catalog[..|catalog| - 1], c) + Repeat(p, Occurrences(p.companies, c))
  }

  lemma {:induction false} OccurrencesPositive(s: seq<string>, c: string)
    ensures Occurrences(s, c) > 0 <==> c in s
    decreases |s|
  {
    if |s| > 0 {
      OccurrencesPositive(s[..|s| - 1], c);
      assert s == s[..|s| - 1] + [s[|s| - 1]];
    }
  }

  lemma {:induction false} RepeatMembers(p: Problem, n: nat)
    ensures |Repeat(p, n)| == n
    ensures forall x :: x in Repeat(p, n) ==> x == p
  {
    if n > 0 {
      RepeatMembers(p, n - 1);
    }
  }

  /** A company bucket holds exactly the problems that list the company; it is empty for a company no problem lists. */
  lemma {:induction false} CompanyBucketMembers(catalog: seq<Problem>, c: string)
    ensures forall x :: x in CompanyBucket(catalog, c) <==> x in catalog && c in x.companies
    ensures |CompanyBucket(catalog, c)| > 0 <==> exists i :: 0 <= i < |catalog| && c in catalog[i].companies
    decreases |catalog|
  {
    if |catalog| > 0 {
      var init := catalog[..|catalog| - 1];
      var p := catalog[|catalog| - 1];
      CompanyBucketMembers(init, c);
      OccurrencesPositive(p.companies, c);
      RepeatMembers(p, Occurrences(p.companies, c));
      assert catalog == init + [p];
      if c in p.companies {
        assert p in Repeat(p, Occurrences(p.companies, c));
      }
      forall i | 0 <= i < |init| ensures catalog[i] == init[i] { }
    }
  }

  /** `result` is `buckets` with `problem` pushed once for each listing of a company in `listed`. */
  ghost predicate PushedFor(buckets: map<string, seq<Problem>>, problem: Problem, listed: seq<string>, result: map<string, seq<Problem>>)
  {
    && (forall c :: c in result <==> c in buckets || Occurrences(listed, c) > 0)
    && (forall c :: c in result ==> result[c] == (if c in buckets then buckets[c] else []) + Repeat(problem, Occurrences(listed, c)))
  }

  lemma PushedForStep(buckets: map<string, seq<Problem>>, problem: Problem, listed: seq<string>, company: string,
                      result: map<string, seq<Problem>>)
    requires PushedFor(buckets, problem, listed, result)
    ensures PushedFor(buckets, problem, listed + [company],
      result[company := (if company in result then result[company] else []) + [problem]])
  {
    var listed' := listed + [company];
    var result' := result[company := (if company in result then result[company] else []) + [problem]];
    forall c ensures c in result' <==> c in buckets || Occurrences(listed', c) > 0 {
      OccurrencesSnoc(listed, company, c);
    }
    forall c | c in result'
      ensures result'[c] == (if c in buckets then buckets[c] else []) + Repeat(problem, Occurrences(listed', c))
    {
      PushedAt(buckets, problem, listed, company, result, c);
    }
  }

  lemma PushedAt(buckets: map<string, seq<Problem>>, problem: Problem, listed: seq<string>, company: string,
                 result: map<string, seq<Problem>>, c: string)
    requires PushedFor(buckets, problem, listed, result)
    requires c in result || c == company
    ensures var result' := result[company := (if company in result then result[company] else []) + [problem]];
      result'[c] == (if c in buckets then buckets[c] else []) + Repeat(problem, Occurrences(listed + [company], c))
  {
    OccurrencesSnoc(listed, company, c);
    var n := Occurrences(listed, c);
    if c == company {
      assert c in result ==> result[c] == (if c in buckets then buckets[c] else []) + Repeat(problem, n);
      assert c !in result ==> c !in buckets && n == 0;
      assert Repeat(problem, n + 1) == Repeat(problem, n) + [problem];
    }
  }

  lemma OccurrencesSnoc(s: seq<string>, x: string, c: string)
    ensures Occurrences(s + [x], c) == Occurrences(s, c) + (if x == c then 1 else 0)
  {
    assert (s + [x])[..|s|] == s;
  }

  /** The inner `forEach`: push the problem once under each company it lists. */
  method PushUnderCompanies(buckets: map<string, seq<Problem>>, problem: Problem) returns (result: map<string, seq<Problem>>)
    ensures forall c :: c in result <==> c in buckets || Occurrences(problem.companies, c) > 0
    ensures forall c :: c in result ==>
      result[c] == (if c in buckets then buckets[c] else []) + Repeat(problem, Occurrences(problem.companies, c))
  {
    result := buckets;
    for j := 0 to |problem.companies|
      invariant PushedFor(buckets, problem, problem.companies[..j], result)
    {
      var company := problem.companies[j];
      assert problem.companies[..j + 1] == problem.companies[..j] + [company];
      PushedForStep(buckets, problem, problem.companies[..j], company, result);
      var current := if company in result then result[company] else [];
      result := result[company := current + [problem]];
    }
    assert problem.companies[..|problem.companies|] == problem.companies;
  }

  /** The final `forEach` over the sorted names: each group sorted by difficulty. */
  method Assemble(buckets: map<string, seq<Problem>>, names: seq<string>) returns (groups: seq<Group>)
    requires forall t :: 0 <= t < |names| ==> names[t] in buckets
    ensures GroupNames(groups) == names
    ensures forall t :: 0 <= t < |names| ==> groups[t].problems == ByRank(buckets[names[t]])
  {
    groups := [];
    for k := 0 to |names|
      invariant |groups| == k
      invariant forall t :: 0 <= t < k ==> groups[t] == Group(names[t], ByRank(buckets[names[t]]))
    {
      var name := names[k];
      groups := groups + [Group(name, ByRank(buckets[name]))];
    }
  }

  /** `getProblemsByCompany`: company names in ascending order, each with its problems sorted by difficulty. */
  method GetProblemsByCompany(catalog: seq<Problem>) returns (groups: seq<Group>)
    ensures StrictlySorted(GroupNames(groups))
    ensures forall c :: c in GroupNames(groups) <==> exists i :: 0 <= i < |catalog| && c in catalog[i].companies
    ensures forall i :: 0 <= i < |groups| ==> groups[i].problems == ByRank(CompanyBucket(catalog, groups[i].name))
  {
    var buckets: map<string, seq<Problem>> := map[];
    for i := 0 to |catalog|
      invariant forall c :: c in buckets <==> |CompanyBucket(catalog[..i], c)| > 0
      invariant forall c :: c in buckets ==> buckets[c] == CompanyBucket(catalog[..i], c)
    {
      var problem := catalog[i];
      assert catalog[..i + 1][..i] == catalog[..i];
      forall c ensures |Repeat(problem, Occurrences(problem.companies, c))| == Occurrences(problem.companies, c) {
        RepeatMembers(problem, Occurrences(problem.companies, c));
      }
      if |problem.companies| > 0 {
        buckets := PushUnderCompanies(buckets, problem);
      } else {
        assert forall c :: Occurrences(problem.companies, c) == 0;
      }
    }
    assert catalog[..|catalog|] == catalog;
    forall c ensures c in buckets <==> exists i :: 0 <= i < |catalog| && c in catalog[i].companies {
      CompanyBucketMembers(catalog, c);
    }
    var sortedCompanies := SortSet(buckets.Keys);
    groups := Assemble(buckets, sortedCompanies);
  }

  // ---------------------------------------------------------------------------
  // Grouping by category

  /** `problem.category || 'Uncategorized'`. */
  function CategoryOf(p: Problem): (c: string)
    ensures c != ""
    ensures p.category != "" ==> c == p.category
    ensures p.category == "" ==> c == "Uncategorized"
  {
    if p.category == "" then "Uncategorized" else p.category
  }

  /** The problems of category `c`, in catalog order. */
  function CategoryBucket(catalog: seq<Problem>, c: string): seq<Problem>
  {
    if |catalog| == 0 then []
    else
      var p := catalog[|catalog| - 1];
      CategoryBucket(catalog[..|catalog| - 1], c) + (if CategoryOf(p) == c then [p] else [])
  }

  lemma {:induction false} CategoryBucketMembers(catalog: seq<Problem>, c: string)
    ensures forall x :: x in CategoryBucket(catalog, c) <==> x in catalog && CategoryOf(x) == c
    decreases |catalog|
  {
    if |catalog| > 0 {
      CategoryBucketMembers(catalog[..|catalog| - 1], c);
      assert catalog == catalog[..|catalog| - 1] + [catalog[|catalog| - 1]];
    }
  }

  /** The sizes of the groups added up. */
  function TotalSize(groups: seq<Group>): nat
  {
    if |groups| == 0 then 0 else TotalSize(groups[..|groups| - 1]) + |groups[|groups| - 1].problems|
  }

  /** The bucket sizes of the given names added up. */
  function BucketSizes(catalog: seq<Problem>, names: seq<string>): nat
  {
    if |names| == 0 then 0 else BucketSizes(catalog, names[..|names| - 1]) + |CategoryBucket(catalog, names[|names| - 1])|
  }

  function CountOf(names: seq<string>, c: string): nat
  {
    if |names| == 0 then 0 else CountOf(names[..|names| - 1], c) + (if names[|names| - 1] == c then 1 else 0)
  }

  lemma {:induction false} BucketSizesSnoc(catalog: seq<Problem>, p: Problem, names: seq<string>)
    ensures BucketSizes(catalog + [p], names) == BucketSizes(catalog, names) + CountOf(names, CategoryOf(p))
    decreases |names|
  {
    if |names| > 0 {
      BucketSizesSnoc(catalog, p, names[..|names| - 1]);
      assert (catalog + [p])[..|catalog|] == catalog;
    }
  }

  lemma {:induction false} CountOfStrictlySorted(names: seq<string>, c: string)
    requires StrictlySorted(names)
    ensures CountOf(names, c) == if c in names then 1 else 0
    decreases |names|
  {
    if |names| > 0 {
      var init := names[..|names| - 1];
      assert StrictlySorted(init);
      CountOfStrictlySorted(init, c);
      if names[|names| - 1] == c && c in init {
        var i :| 0 <= i < |init| && init[i] == c;
        assert Less(names[i], names[|names| - 1]);
        LessIrreflexive(c);
      }
      assert names == init + [names[|names| - 1]];
    }
  }

  /** With every category listed once, the buckets partition the catalog. */
  lemma {:induction false} CategoryPartition(catalog: seq<Problem>, names: seq<string>)
    requires StrictlySorted(names)
    requires forall i :: 0 <= i < |catalog| ==> CategoryOf(catalog[i]) in names
    ensures BucketSizes(catalog, names) == |catalog|
    decreases |catalog|
  {
    if |catalog| == 0 {
      BucketSizesEmpty(names);
    } else {
      var init := catalog[..|catalog| - 1];
      var p := catalog[|catalog| - 1];
      CategoryPartition(init, names);
      BucketSizesSnoc(init, p, names);
      CountOfStrictlySorted(names, CategoryOf(p));
      assert init + [p] == catalog;
    }
  }

  lemma {:induction false} BucketSizesEmpty(names: seq<string>)
    ensures BucketSizes([], names) == 0
    decreases |names|
  {
    if |names| > 0 {
      BucketSizesEmpty(names[..|names| - 1]);
    }
  }

  lemma {:induction false} TotalSizeOfGroups(catalog: seq<Problem>, groups: seq<Group>)
    requires forall t :: 0 <= t < |groups| ==> groups[t].problems == ByRank(CategoryBucket(catalog, groups[t].name))
    ensures TotalSize(groups) == BucketSizes(catalog, GroupNames(groups))
    decreases |groups|
  {
    if |groups| > 0 {
      var init := groups[..|groups| - 1];
      TotalSizeOfGroups(catalog, init);
      ByRankPermutation(CategoryBucket(catalog, groups[|groups| - 1].name));
      assert GroupNames(groups)[..|groups| - 1] == GroupNames(init);
    }
  }

  /** The first `forEach`: push every problem under its category. */
  method BucketByCategory(catalog: seq<Problem>) returns (buckets: map<string, seq<Problem>>)
    ensures forall c :: c in buckets <==> |CategoryBucket(catalog, c)| > 0
    ensures forall c :: c in buckets ==> buckets[c] == CategoryBucket(catalog, c)
  {
    buckets := map[];
    for i := 0 to |catalog|
      invariant forall c :: c in buckets <==> |CategoryBucket(catalog[..i], c)| > 0
      invariant forall c :: c in buckets ==> buckets[c] == CategoryBucket(catalog[..i], c)
    {
      var problem := catalog[i];
      assert catalog[..i + 1][..i] == catalog[..i];
      var category := CategoryOf(problem);
      if category !in buckets {
        buckets := buckets[category := []];
      }
      buckets := buckets[category := buckets[category] + [problem]];
    }
    assert catalog[..|catalog|] == catalog;
  }

  /** `getProblemsByCategory`: category names in ascending order, each with its problems sorted by difficulty; every problem is in exactly one group. */
  method GetProblemsByCategory(catalog: seq<Problem>) returns (groups: seq<Group>)
    ensures StrictlySorted(GroupNames(groups))
    ensures forall c :: c in GroupNames(groups) <==> exists i :: 0 <= i < |catalog| && CategoryOf(catalog[i]) == c
    ensures forall i :: 0 <= i < |groups| ==> groups[i].problems == ByRank(CategoryBucket(catalog, groups[i].name))
    ensures TotalSize(groups) == |catalog|
  {
    var buckets := BucketByCategory(catalog);
    BucketKeys(catalog, buckets);
    var sortedCategories := SortSet(buckets.Keys);
    groups := Assemble(buckets, sortedCategories);
    TotalSizeOfGroups(catalog, groups);
    CategoryPartition(catalog, sortedCategories);
  }

  /** The dictionary's keys are exactly the categories that occur in the catalog. */
  lemma BucketKeys(catalog: seq<Problem>, buckets: map<string, seq<Problem>>)
    requires forall c :: c in buckets <==> |CategoryBucket(catalog, c)| > 0
    ensures forall c :: c in buckets <==> exists i :: 0 <= i < |catalog| && CategoryOf(catalog[i]) == c
  {
    forall c ensures |CategoryBucket(catalog, c)| > 0 <==> exists i :: 0 <= i < |catalog| && CategoryOf(catalog[i]) == c {
      CategoryBucketNonEmpty(catalog, c);
    }
  }

  lemma CategoryBucketNonEmpty(catalog: seq<Problem>, c: string)
    ensures |CategoryBucket(catalog, c)| > 0 <==> exists i :: 0 <= i < |catalog| && CategoryOf(catalog[i]) == c
  {
    var bucket := CategoryBucket(catalog, c);
    CategoryBucketMembers(catalog, c);
    if |bucket| > 0 {
      assert bucket[0] in bucket;
      var i :| 0 <= i < |catalog| && catalog[i] == bucket[0];
    }
    if exists i :: 0 <= i < |catalog| && CategoryOf(catalog[i]) == c {
      var i :| 0 <= i < |catalog| && CategoryOf(catalog[i]) == c;
      assert catalog[i] in bucket;
    }
  }
}
