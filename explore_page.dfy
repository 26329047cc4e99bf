/**
 * The explore page: the category groups without the categories that have pages
 * of their own. The company groups are shown as `GetProblemsByCompany` returns
 * them.
 */
module ExplorePage {
  import opened Catalog

  const ExcludedCategories: seq<string> := ["Discussion", "Interview Prep", "Interview"]

  /** The category groups the page keeps, in key order. */
  function KeptCategories(byCategory: seq<Group>): seq<Group>
  {
    if |byCategory| == 0 then []
    else
      var front := KeptCategories(byCategory[..|byCategory| - 1]);
      var last := byCategory[|byCategory| - 1];
      if last.name in ExcludedCategories then front else front + [last]
  }

  /** The `for…in` loop: copy every category that is not excluded, with its problem list, into a fresh dictionary. */
  method FilterCategories(byCategory: seq<Group>) returns (filteredByCategory: seq<Group>)
    ensures filteredByCategory == KeptCategories(byCategory)
  {
    filteredByCategory := [];
    for i := 0 to |byCategory|
      invariant filteredByCategory == KeptCategories(byCategory[..i])
    {
      assert byCategory[..i + 1][..i] == byCategory[..i];
      if byCategory[i].name !in ExcludedCategories {
        filteredByCategory := filteredByCategory + [byCategory[i]];
      }
    }
    assert byCategory[..|byCategory|] == byCategory;
  }

  /** No excluded category survives; every other group is kept unchanged, and nothing is added. */
  lemma {:induction false} KeptCategoriesSpec(byCategory: seq<Group>)
    ensures forall g :: g in KeptCategories(byCategory) ==> g.name !in ExcludedCategories
    ensures forall g :: g in KeptCategories(byCategory) <==> g in byCategory && g.name !in ExcludedCategories
    ensures |KeptCategories(byCategory)| <= |byCategory|
    decreases |byCategory|
  {
    if |byCategory| > 0 {
      var init := byCategory[..|byCategory| - 1];
      KeptCategoriesSpec(init);
      assert byCategory == init + [byCategory[|byCategory| - 1]];
    }
  }

  /** Filtering keeps the key order: the kept names are the input names with the excluded ones taken out. */
  lemma {:induction false} KeptCategoriesKeepOrder(byCategory: seq<Group>)
    ensures GroupNames(KeptCategories(byCategory)) == FilterNames(GroupNames(byCategory))
    decreases |byCategory|
  {
    if |byCategory| > 0 {
      var init := byCategory[..|byCategory| - 1];
      KeptCategoriesKeepOrder(init);
      var names := GroupNames(byCategory);
      assert names[..|names| - 1] == GroupNames(init);
      var kept := KeptCategories(byCategory);
      if byCategory[|byCategory| - 1].name !in ExcludedCategories {
        var kn := GroupNames(kept);
        assert kn[..|kn| - 1] == GroupNames(kept[..|kept| - 1]);
      }
    }
  }

  /** The names that are not excluded, in order. */
  function FilterNames(names: seq<string>): seq<string>
  {
    if |names| == 0 then []
    else
      var front := FilterNames(names[..|names| - 1]);
      if names[|names| - 1] in ExcludedCategories then front else front + [names[|names| - 1]]
  }
}
