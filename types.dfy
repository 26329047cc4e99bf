/**
 * The shared data model: a user's progress on each problem, keyed by slug, and
 * the submission record written for every judged solution.
 *
 * A progress entry is either a bare status string (the legacy form) or a detail
 * record with optional timestamps. A legacy entry keeps its raw string, since the
 * pages must cope with strings that are not one of the three statuses; a missing
 * timestamp and a `null` one are both `None`.
 */
module Types {
  import opened Calendar

  datatype Option<T> = None | Some(value: T)

  /** JavaScript truthiness of an optional string: present and not empty. */
  predicate Truthy(o: Option<string>)
  {
    o.Some? && o.value != ""
  }

  datatype Status = Solved | Attempted | Todo
  {
    /** The string stored in the database for this status. */
    function Name(): string
    {
      match this
      case Solved => "Solved"
      case Attempted => "Attempted"
      case Todo => "Todo"
    }
  }

  /** The status a stored string denotes, if it is one of the three. */
  function ParseStatus(s: string): (r: Option<Status>)
    ensures r.Some? ==> r.value.Name() == s
    ensures r.None? ==> s != "Solved" && s != "Attempted" && s != "Todo"
  {
    if s == "Solved" then Some(Solved)
    else if s == "Attempted" then Some(Attempted)
    else if s == "Todo" then Some(Todo)
    else None
  }

  /** Every status survives being stored as its name and read back, so names are distinct. */
  lemma ParseName(st: Status)
    ensures ParseStatus(st.Name()) == Some(st)
  {
  }

  datatype Entry =
    | Legacy(raw: string)
    | Detail(status: Status, solvedAt: Option<Timestamp>, lastAttemptedAt: Option<Timestamp>)

  /** The `problems` map of a user's progress document. */
  type Progress = map<string, Entry>

  datatype SubmissionStatus =
    | Accepted | WrongAnswer | TimeLimitExceeded | RuntimeError
    | MemoryLimitExceeded | CompilationError | Pending | Running
  {
    function Label(): string
    {
      match this
      case Accepted => "Accepted"
      case WrongAnswer => "Wrong Answer"
      case TimeLimitExceeded => "Time Limit Exceeded"
      case RuntimeError => "Runtime Error"
      case MemoryLimitExceeded => "Memory Limit Exceeded"
      case CompilationError => "Compilation Error"
      case Pending => "Pending"
      case Running => "Running"
    }
  }

  /** A document of the `submissions` collection. */
  datatype Submission = Submission(
    userId: string,
    problemSlug: string,
    problemTitle: string,
    language: string,
    code: string,
    status: SubmissionStatus,
    submittedAt: Timestamp,
    runtime: Option<nat>,
    memory: Option<nat>,
    output: Option<string>,
    error: Option<string>,
    testCasesPassed: Option<nat>,
    totalTestCases: Option<nat>)

  /** When the problem was solved, for a detail record marked solved that carries the time; nothing otherwise (a legacy string has no `.status` field). */
  function SolvedTime(e: Entry): (r: Option<Timestamp>)
    ensures r.Some? <==> e.Detail? && e.status == Solved && e.solvedAt.Some?
    ensures r.Some? ==> r.value == e.solvedAt.value
  {
    if e.Detail? && e.status == Solved then e.solvedAt else None
  }

  /** The local day of the solve. */
  function SolveDay(e: Entry): Option<int>
  {
    match SolvedTime(e)
    case Some(t) => Some(DayOf(t))
    case None => None
  }

  /** The calendar month of the solve. */
  function SolveMonth(e: Entry): Option<int>
  {
    match SolvedTime(e)
    case Some(t) => Some(MonthKey(DayOf(t)))
    case None => None
  }

  /** The slugs among `done` whose entry is a timed solve. */
  ghost function SolvedSlugs(p: Progress, done: set<string>): set<string>
  {
    set k | k in done && k in p && SolvedTime(p[k]).Some?
  }

  /** The slugs among `done` whose entry maps to `v` under `f`. */
  ghost function Fibre(p: Progress, done: set<string>, f: Entry -> Option<int>, v: int): set<string>
  {
    set k | k in done && k in p && f(p[k]) == Some(v)
  }

  /** The slugs whose entry maps into `[lo, hi)` under `f`. */
  ghost function Band(p: Progress, f: Entry -> Option<int>, lo: int, hi: int): set<string>
  {
    set k | k in p && f(p[k]).Some? && lo <= f(p[k]).value < hi
  }

  /** The fibre sizes for the values `lo .. hi - 1`, added up. */
  ghost function SumFibres(p: Progress, f: Entry -> Option<int>, lo: int, hi: int): nat
    decreases hi - lo
  {
    if hi <= lo then 0 else SumFibres(p, f, lo, hi - 1) + |Fibre(p, p.Keys, f, hi - 1)|
  }

  /** Adding one more slug to the processed set grows exactly the fibre it belongs to. */
  lemma FibreStep(p: Progress, done: set<string>, f: Entry -> Option<int>, k: string, v: int)
    requires k in p && k !in done
    ensures |Fibre(p, done + {k}, f, v)| == |Fibre(p, done, f, v)| + (if f(p[k]) == Some(v) then 1 else 0)
  {
    if f(p[k]) == Some(v) {
      assert Fibre(p, done + {k}, f, v) == Fibre(p, done, f, v) + {k};
    } else {
      assert Fibre(p, done + {k}, f, v) == Fibre(p, done, f, v);
    }
  }

  /** Adding one more slug to the processed set grows the solved set exactly when its entry is a timed solve. */
  lemma SolvedStep(p: Progress, done: set<string>, k: string)
    requires k in p && k !in done
    ensures |SolvedSlugs(p, done + {k})| == |SolvedSlugs(p, done)| + (if SolvedTime(p[k]).Some? then 1 else 0)
  {
    if SolvedTime(p[k]).Some? {
      assert SolvedSlugs(p, done + {k}) == SolvedSlugs(p, done) + {k};
    } else {
      assert SolvedSlugs(p, done + {k}) == SolvedSlugs(p, done);
    }
  }

  /** The fibres over a range of values are disjoint, so their sizes add up to the size of the band. */
  lemma {:induction false} SumFibresIsBand(p: Progress, f: Entry -> Option<int>, lo: int, hi: int)
    ensures SumFibres(p, f, lo, hi) == |Band(p, f, lo, hi)|
    decreases hi - lo
  {
    if hi <= lo {
      assert Band(p, f, lo, hi) == {};
    } else {
      SumFibresIsBand(p, f, lo, hi - 1);
      var fib := Fibre(p, p.Keys, f, hi - 1);
      assert Band(p, f, lo, hi) == Band(p, f, lo, hi - 1) + fib;
      assert Band(p, f, lo, hi - 1) * fib == {};
    }
  }

  lemma {:induction false} SubsetSize<T>(a: set<T>, b: set<T>)
    requires a <= b
    ensures |a| <= |b|
    decreases |a|
  {
    if a != {} {
      var x :| x in a;
      SubsetSize(a - {x}, b - {x});
    }
  }

  /** A band of solve days or months holds only timed solves. */
  lemma BandWithinSolved(p: Progress, lo: int, hi: int)
    ensures |Band(p, SolveDay, lo, hi)| <= |SolvedSlugs(p, p.Keys)|
    ensures |Band(p, SolveMonth, lo, hi)| <= |SolvedSlugs(p, p.Keys)|
  {
    SubsetSize(Band(p, SolveDay, lo, hi), SolvedSlugs(p, p.Keys));
    SubsetSize(Band(p, SolveMonth, lo, hi), SolvedSlugs(p, p.Keys));
  }
}
