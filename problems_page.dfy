/**
 * The problem set page: the search box and the difficulty, status and tag
 * filters over the catalog, and the list of tags offered by the tag filter.
 *
 * A filter value is the string the select holds, `"all"` or a lower-case value.
 */
module ProblemsPage {
  import opened Text
  import opened Types
  import opened Catalog
  import opened ProblemList

  datatype Filters = Filters(searchTerm: string, difficulty: string, status: string, tag: string)

  /** Some tag of `p` contains the (lower-cased) term. */
  predicate TagMatch(p: Problem, term: string)
  {
    exists i :: 0 <= i < |p.tags| && Contains(Lower(p.tags[i]), term)
  }

  /** The search box matches: no term, or the term occurs in the title or in a tag, ignoring case. */
  predicate SearchMatch(p: Problem, searchTerm: string)
  {
    searchTerm == "" || Contains(Lower(p.title), Lower(searchTerm)) || TagMatch(p, Lower(searchTerm))
  }

  /** The predicate passed to `filter`: all four tests hold. */
  predicate Matches(f: Filters, progress: Progress, p: Problem)
  {
    && SearchMatch(p, f.searchTerm)
    && (f.difficulty == "all" || Lower(p.difficulty) == f.difficulty)
    && (f.status == "all" || Lower(GetProblemStatusData(progress, p.slug).Name()) == f.status)
    && (f.tag == "all" || f.tag in p.tags)
  }

  /** `filteredProblems`: the problems the filters let through, in catalog order. */
  function FilteredProblems(problems: seq<Problem>, progress: Progress, f: Filters): seq<Problem>
  {
    if |problems| == 0 then []
    else
      var front := FilteredProblems(problems[..|problems| - 1], progress, f);
      var last := problems[|problems| - 1];
      if Matches(f, progress, last) then front + [last] else front
  }

  /** `r` is `s` with some elements removed, order kept. */
  predicate SubsequenceOf(r: seq<Problem>, s: seq<Problem>)
    decreases |s|
  {
    if |r| == 0 then true
    else if |s| == 0 then false
    else if r[|r| - 1] == s[|s| - 1] then SubsequenceOf(r[..|r| - 1], s[..|s| - 1])
    else SubsequenceOf(r, s[..|s| - 1])
  }

  /** The filtered list keeps the catalog order and holds exactly the problems that match (`FilteredCounts` gives how often). */
  lemma {:induction false} FilteredProblemsSpec(problems: seq<Problem>, progress: Progress, f: Filters)
    ensures SubsequenceOf(FilteredProblems(problems, progress, f), problems)
    ensures forall p :: p in FilteredProblems(problems, progress, f) <==> p in problems && Matches(f, progress, p)
    decreases |problems|
  {
    if |problems| > 0 {
      var init := problems[..|problems| - 1];
      var last := problems[|problems| - 1];
      FilteredProblemsSpec(init, progress, f);
      assert problems == init + [last];
      var r := FilteredProblems(problems, progress, f);
      if Matches(f, progress, last) {
        assert r[..|r| - 1] == FilteredProblems(init, progress, f);
      }
    }
  }

  /** Each problem occurs in the filtered list as often as in the catalog when it matches, and not at all otherwise. */
  lemma {:induction false} FilteredCounts(problems: seq<Problem>, progress: Progress, f: Filters)
    ensures forall p :: multiset(FilteredProblems(problems, progress, f))[p]
                        == if Matches(f, progress, p) then multiset(problems)[p] else 0
    decreases |problems|
  {
    if |problems| > 0 {
      var init := problems[..|problems| - 1];
      var last := problems[|problems| - 1];
      FilteredCounts(init, progress, f);
      assert problems == init + [last];
      assert multiset(problems) == multiset(init) + multiset{last};
      var front := FilteredProblems(init, progress, f);
      if Matches(f, progress, last) {
        assert multiset(FilteredProblems(problems, progress, f)) == multiset(front) + multiset{last};
      }
    }
  }

  /** With no search term and every filter on "all", nothing is filtered out. */
  lemma {:induction false} DefaultFiltersKeepAll(problems: seq<Problem>, progress: Progress)
    ensures FilteredProblems(problems, progress, Filters("", "all", "all", "all")) == problems
    decreases |problems|
  {
    if |problems| > 0 {
      DefaultFiltersKeepAll(problems[..|problems| - 1], progress);
      assert problems == problems[..|problems| - 1] + [problems[|problems| - 1]];
    }
  }

  /** The status filter values pick out exactly one status each. */
  lemma StatusFilterValues(st: Status)
    ensures Lower(st.Name()) == "solved" <==> st == Solved
    ensures Lower(st.Name()) == "attempted" <==> st == Attempted
    ensures Lower(st.Name()) == "todo" <==> st == Todo
  {
  }

  /** Some problem of the catalog carries tag `t`. */
  predicate HasTag(problems: seq<Problem>, t: string)
  {
    exists i :: 0 <= i < |problems| && t in problems[i].tags
  }

  /** `availableTags`: every tag of every problem, each once, in sorted order. */
  method AvailableTags(problems: seq<Problem>) returns (availableTags: seq<string>)
    ensures StrictlySorted(availableTags)
    ensures forall t :: t in availableTags <==> HasTag(problems, t)
  {
    var allTags: set<string> := {};
    for i := 0 to |problems|
      invariant forall t :: t in allTags <==> HasTag(problems[..i], t)
    {
      var tags := problems[i].tags;
      for j := 0 to |tags|
        invariant forall t :: t in allTags <==> HasTag(problems[..i], t) || t in tags[..j]
      {
        allTags := allTags + {tags[j]};
      }
      assert tags[..|tags|] == tags;
      forall t ensures HasTag(problems[..i + 1], t) <==> HasTag(problems[..i], t) || t in tags {
        if HasTag(problems[..i + 1], t) {
          var k :| 0 <= k < i + 1 && t in problems[..i + 1][k].tags;
          if k < i {
            assert problems[..i][k] == problems[..i + 1][k];
          }
        }
        if HasTag(problems[..i], t) {
          var k :| 0 <= k < i && t in problems[..i][k].tags;
          assert problems[..i + 1][k] == problems[..i][k];
        }
        if t in tags {
          assert problems[..i + 1][i] == problems[i];
        }
      }
    }
    assert problems[..|problems|] == problems;
    availableTags := SortSet(allTags);
  }
}
