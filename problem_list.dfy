/**
 * The problem table: the status shown for each problem, the colour of its
 * difficulty and the tag cell.
 */
module ProblemList {
  import opened Text
  import opened Types

  /** The status an optional progress entry stands for: a detail record's own status, a recognised bare string, and Todo for anything else or nothing. */
  function NormalizeStatus(entry: Option<Entry>): Status
  {
    match entry
    case None => Todo
    case Some(Detail(st, _, _)) => st
    case Some(Legacy(raw)) =>
      match ParseStatus(raw)
      case Some(st) => st
      case None => Todo
  }

  /** `getProblemStatusData` (and `getProblemStatus` of the problems page): the status of a slug in a user's progress. */
  function GetProblemStatusData(progress: Progress, slug: string): (st: Status)
    ensures slug !in progress ==> st == Todo
    ensures slug in progress && progress[slug].Detail? ==> st == progress[slug].status
    ensures slug in progress && progress[slug].Legacy? ==>
      (st.Name() == progress[slug].raw || (st == Todo && ParseStatus(progress[slug].raw).None?))
  {
    NormalizeStatus(if slug in progress then Some(progress[slug]) else None)
  }

  /** Either stored form of a status, the bare string or a detail record, reads back as that status. */
  lemma NormalizeStoredForms(st: Status, solvedAt: Option<int>, lastAttemptedAt: Option<int>)
    ensures NormalizeStatus(Some(Legacy(st.Name()))) == st
    ensures NormalizeStatus(Some(Detail(st, solvedAt, lastAttemptedAt))) == st
  {
    ParseName(st);
  }

  /** A problem reads as solved exactly when its entry is a solved detail record or the bare string "Solved". */
  lemma NormalizeSolvedIff(entry: Option<Entry>)
    ensures NormalizeStatus(entry) == Solved <==>
      entry.Some? && (entry.value == Legacy("Solved") || (entry.value.Detail? && entry.value.status == Solved))
  {
  }

  /** `getDifficultyClass` of the problem table. */
  function DifficultyClass(difficulty: string): string
  {
    var d := Lower(difficulty);
    if d == "easy" then "text-green-600 dark:text-green-400"
    else if d == "medium" then "text-yellow-600 dark:text-yellow-400"
    else if d == "hard" then "text-red-600 dark:text-red-400"
    else "text-muted-foreground"
  }

  /** The colour ignores letter case, and only the three known difficulties are coloured. */
  lemma DifficultyClassCases(difficulty: string)
    ensures DifficultyClass(Lower(difficulty)) == DifficultyClass(difficulty)
    ensures DifficultyClass(difficulty) == "text-muted-foreground" <==>
      Lower(difficulty) != "easy" && Lower(difficulty) != "medium" && Lower(difficulty) != "hard"
  {
    LowerIdempotent(difficulty);
  }

  /** What the tags column shows: a dash, or some badges with or without a trailing "..." badge. */
  datatype TagCell = Dash | Badges(shown: seq<string>, more: bool)

  /** The tag cell: a dash without tags, otherwise the first two tags and a "..." badge when there are more. */
  function TagsCell(tags: seq<string>): (c: TagCell)
    ensures c.Dash? <==> |tags| == 0
    ensures c.Badges? ==> 1 <= |c.shown| <= 2 && c.shown <= tags
    ensures c.Badges? ==> (|c.shown| == 2 || c.shown == tags)
    ensures c.Badges? ==> (c.more <==> |tags| > |c.shown|)
  {
    if |tags| == 0 then Dash
    else if |tags| <= 2 then Badges(tags, false)
    else Badges(tags[..2], true)
  }
}
