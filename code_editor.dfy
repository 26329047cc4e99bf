/**
 * The code editor of a problem page: submitting or running code, recording the
 * submission, reconciling the user's progress entry for the problem and
 * rendering the result panel.
 *
 * The judge is not modelled: its verdict arrives as an `ExecutionResult`. The
 * database is modelled by two fields of the editor, the user's progress map and
 * the log of submission documents. One `now` stands for every clock reading of
 * an operation.
 */
module CodeEditor {
  import opened Calendar
  import opened Text
  import opened Types

  datatype OutputType = Info | Success | Error | Warning

  /** What the judge reports for the editor's code. */
  datatype ExecutionResult = ExecutionResult(
    status: SubmissionStatus,
    runtime: Option<nat>,
    memory: Option<nat>,
    output: Option<string>,
    error: Option<string>,
    testCasesPassed: Option<nat>,
    totalTestCases: Option<nat>)

  const InitialOutput: string := "Console Output / Test Results will appear here..."

  // ---------------------------------------------------------------------------
  // Progress reconciliation

  /** The progress status a judged submission leads to. */
  function StatusForOutcome(s: SubmissionStatus): (r: Status)
    ensures r == Solved <==> s == Accepted
    ensures r == Attempted <==> s != Accepted
  {
    if s == Accepted then Solved else Attempted
  }

  /** `currentStatus`: the stored status string, read from a detail record or taken as the bare string; nothing when there is no entry. */
  function StoredStatus(current: Option<Entry>): Option<string>
  {
    match current
    case None => None
    case Some(Legacy(raw)) => Some(raw)
    case Some(Detail(status, _, _)) => Some(status.Name())
  }

  /** The detail record written for the new status. */
  function ReconciledEntry(current: Option<Entry>, newStatus: Status, now: Timestamp): (e: Entry)
    ensures e.Detail? && e.status == newStatus && e.lastAttemptedAt == Some(now)
    ensures newStatus == Solved ==> e.solvedAt == Some(now)
    ensures newStatus != Solved ==> e.solvedAt == (if current.Some? then SolvedTime(current.value) else None)
  {
    var solvedAt :=
      if newStatus == Solved then Some(now)
      else if StoredStatus(current) == Some("Solved") && current.Some? && current.value.Detail? then current.value.solvedAt
      else None;
    Detail(newStatus, solvedAt, Some(now))
  }

  /** The write rule: the first entry, a change of status, or any attempt is written. */
  predicate WriteNeeded(current: Option<Entry>, newStatus: Status)
  {
    current.None? || StoredStatus(current) != Some(newStatus.Name()) || newStatus == Attempted
  }

  function Lookup(p: Progress, slug: string): Option<Entry>
  {
    if slug in p then Some(p[slug]) else None
  }

  /** The progress map after `updateUserProgress(newStatus)` for the given user and problem. */
  function UpdatedProgress(userId: string, slug: string, p: Progress, newStatus: Status, now: Timestamp): (q: Progress)
    ensures forall k :: k in p && k != slug ==> k in q && q[k] == p[k]
    ensures q.Keys == p.Keys + (if userId == "" then {} else {slug})
    ensures userId == "" || !WriteNeeded(Lookup(p, slug), newStatus) ==> q == p
    ensures userId != "" && WriteNeeded(Lookup(p, slug), newStatus) ==>
      q[slug].Detail? && q[slug].status == newStatus && q[slug].lastAttemptedAt == Some(now)
  {
    if userId == "" then p
    else
      var current := Lookup(p, slug);
      if WriteNeeded(current, newStatus) then p[slug := ReconciledEntry(current, newStatus, now)] else p
  }

  /** Run reads `.status` of the stored value, which a bare string does not have. */
  predicate RunSeesSolved(current: Option<Entry>)
  {
    current.Some? && current.value.Detail? && current.value.status == Solved
  }

  /** The progress map after the progress step of a run. */
  function RunUpdatedProgress(userId: string, slug: string, p: Progress, now: Timestamp): (q: Progress)
    ensures RunSeesSolved(Lookup(p, slug)) ==> q == p
    ensures !RunSeesSolved(Lookup(p, slug)) ==> q == UpdatedProgress(userId, slug, p, Attempted, now)
  {
    if RunSeesSolved(Lookup(p, slug)) then p else UpdatedProgress(userId, slug, p, Attempted, now)
  }

  /** A solved problem solved again keeps its entry, including the time of the first solve. */
  lemma RepeatSolvedKeepsEntry(userId: string, slug: string, p: Progress, now: Timestamp)
    requires slug in p && (p[slug] == Legacy("Solved") || (p[slug].Detail? && p[slug].status == Solved))
    ensures UpdatedProgress(userId, slug, p, Solved, now) == p
  {
  }

  /** A failed submission on a solved problem regresses it to Attempted but carries the solve time over. */
  lemma FailedSubmitRegressesSolved(userId: string, slug: string, p: Progress, t: Option<Timestamp>, a: Option<Timestamp>, now: Timestamp)
    requires userId != "" && slug in p && p[slug] == Detail(Solved, t, a)
    ensures UpdatedProgress(userId, slug, p, StatusForOutcome(WrongAnswer), now)[slug] == Detail(Attempted, t, Some(now))
  {
  }

  /** Two failed submissions after a solve leave no solve time. */
  lemma {:induction false} SecondFailureClearsSolvedAt(userId: string, slug: string, p: Progress, f1: SubmissionStatus, f2: SubmissionStatus, n1: Timestamp, n2: Timestamp)
    requires userId != "" && slug in p && p[slug].Detail? && p[slug].status == Solved
    requires f1 != Accepted && f2 != Accepted
    ensures var q1 := UpdatedProgress(userId, slug, p, StatusForOutcome(f1), n1);
      var q2 := UpdatedProgress(userId, slug, q1, StatusForOutcome(f2), n2);
      q1[slug].status == Attempted && q2[slug] == Detail(Attempted, None, Some(n2))
  {
    var q1 := UpdatedProgress(userId, slug, p, StatusForOutcome(f1), n1);
    assert q1[slug] == ReconciledEntry(Some(p[slug]), Attempted, n1);
    assert Lookup(q1, slug) == Some(q1[slug]);
    assert SolvedTime(q1[slug]) == None;
  }

  /** A run leaves a detail record marked solved alone. */
  lemma RunKeepsSolvedDetail(userId: string, slug: string, p: Progress, t: Option<Timestamp>, a: Option<Timestamp>, now: Timestamp)
    requires slug in p && p[slug] == Detail(Solved, t, a)
    ensures RunUpdatedProgress(userId, slug, p, now) == p
  {
  }

  /** A run rewrites a bare 'Solved' string as an attempt with no solve time. */
  lemma RunRewritesLegacySolved(userId: string, slug: string, p: Progress, now: Timestamp)
    requires userId != "" && slug in p && p[slug] == Legacy("Solved")
    ensures RunUpdatedProgress(userId, slug, p, now)[slug] == Detail(Attempted, None, Some(now))
  {
  }

  /** Every detail record marked solved carries its solve time. */
  ghost predicate SolvesStamped(p: Progress)
  {
    forall k :: k in p && p[k].Detail? && p[k].status == Solved ==> p[k].solvedAt.Some?
  }

  /** Submit and run keep solve times on solved records: a write never produces a solved record without one. */
  lemma UpdatePreservesStamps(userId: string, slug: string, p: Progress, newStatus: Status, now: Timestamp)
    requires SolvesStamped(p)
    ensures SolvesStamped(UpdatedProgress(userId, slug, p, newStatus, now))
    ensures SolvesStamped(RunUpdatedProgress(userId, slug, p, now))
  {
    var q := UpdatedProgress(userId, slug, p, newStatus, now);
    forall k | k in q && q[k].Detail? && q[k].status == Solved
      ensures q[k].solvedAt.Some?
    {
      if k != slug || userId == "" || !WriteNeeded(Lookup(p, slug), newStatus) {
        assert q[k] == p[k];
      }
    }
  }

  // ---------------------------------------------------------------------------
  // Result panel

  /** The headings the result panel can show. */
  datatype Heading =
    | StatusLabel | RunResultLabel | RuntimeLabel | MemoryLabel | TestCasesLabel
    | OutputTitle | ConsoleOutputTitle | ErrorTitle
  {
    function Text(): string
    {
      match this
      case StatusLabel => "Status"
      case RunResultLabel => "Run Result"
      case RuntimeLabel => "Runtime"
      case MemoryLabel => "Memory"
      case TestCasesLabel => "Test Cases"
      case OutputTitle => "Output"
      case ConsoleOutputTitle => "Console Output"
      case ErrorTitle => "Error"
    }
  }

  /** One line of the result panel: `name: value` or a blank line, a `title:` line and a body. */
  datatype ReportLine = Field(name: Heading, value: string) | Section(title: Heading, body: string)

  function RenderLine(l: ReportLine): string
  {
    match l
    case Field(name, value) => name.Text() + ": " + value + "\n"
    case Section(title, body) => "\n" + title.Text() + ":\n" + body + "\n"
  }

  /** The panel text: the lines one after another. */
  function Render(lines: seq<ReportLine>): string
  {
    if |lines| == 0 then "" else Render(lines[..|lines| - 1]) + RenderLine(lines[|lines| - 1])
  }

  predicate HasField(lines: seq<ReportLine>, name: Heading)
  {
    exists l :: l in lines && l.Field? && l.name == name
  }

  predicate HasSection(lines: seq<ReportLine>, title: Heading)
  {
    exists l :: l in lines && l.Section? && l.title == title
  }

  function RuntimeLine(r: ExecutionResult): seq<ReportLine>
  {
    if r.runtime.Some? then [Field(RuntimeLabel, NatToString(r.runtime.value) + " ms")] else []
  }

  function MemoryLine(r: ExecutionResult): seq<ReportLine>
  {
    if r.memory.Some? then [Field(MemoryLabel, NatToString(r.memory.value) + " KB")] else []
  }

  function TestCasesLine(r: ExecutionResult): seq<ReportLine>
  {
    if r.testCasesPassed.Some? && r.totalTestCases.Some? then
      [Field(TestCasesLabel, NatToString(r.testCasesPassed.value) + " / " + NatToString(r.totalTestCases.value) + " passed")]
    else []
  }

  function BodySection(title: Heading, o: Option<string>): seq<ReportLine>
  {
    if Truthy(o) then [Section(title, o.value)] else []
  }

  /** The lines of the panel after a submission. */
  function SubmitLines(r: ExecutionResult): (lines: seq<ReportLine>)
    ensures |lines| >= 1 && lines[0] == Field(StatusLabel, r.status.Label())
  {
    [Field(StatusLabel, r.status.Label())] + RuntimeLine(r) + MemoryLine(r) + TestCasesLine(r)
      + BodySection(OutputTitle, r.output) + BodySection(ErrorTitle, r.error)
  }

  /** The lines of the panel after a run: no test-case count, and the output titled as console output. */
  function RunLines(r: ExecutionResult): (lines: seq<ReportLine>)
    ensures |lines| >= 1 && lines[0] == Field(RunResultLabel, r.status.Label())
  {
    [Field(RunResultLabel, r.status.Label())] + RuntimeLine(r) + MemoryLine(r)
      + BodySection(ConsoleOutputTitle, r.output) + BodySection(ErrorTitle, r.error)
  }

  /** Which lines the submit panel shows: the status always, each measurement exactly when it is present, each text section exactly when it is not empty, and nothing else. */
  lemma SubmitLinesShow(r: ExecutionResult, h: Heading)
    ensures HasField(SubmitLines(r), h) <==>
      || h == StatusLabel
      || (h == RuntimeLabel && r.runtime.Some?)
      || (h == MemoryLabel && r.memory.Some?)
      || (h == TestCasesLabel && r.testCasesPassed.Some? && r.totalTestCases.Some?)
    ensures HasSection(SubmitLines(r), h) <==> (h == OutputTitle && Truthy(r.output)) || (h == ErrorTitle && Truthy(r.error))
  {
    var a := [Field(StatusLabel, r.status.Label())];
    var b := a + RuntimeLine(r);
    var c := b + MemoryLine(r);
    var d := c + TestCasesLine(r);
    var e := d + BodySection(OutputTitle, r.output);
    OneLine(a[0], h);
    RuntimeShows(r, h);
    MemoryShows(r, h);
    TestCasesShows(r, h);
    BodyShows(OutputTitle, r.output, h);
    BodyShows(ErrorTitle, r.error, h);
    HasAppend(a, RuntimeLine(r), h);
    HasAppend(b, MemoryLine(r), h);
    HasAppend(c, TestCasesLine(r), h);
    HasAppend(d, BodySection(OutputTitle, r.output), h);
    HasAppend(e, BodySection(ErrorTitle, r.error), h);
  }

  /** Which lines the run panel shows: the run result always, the same rules for the rest, and never a test-case count. */
  lemma RunLinesShow(r: ExecutionResult, h: Heading)
    ensures HasField(RunLines(r), h) <==>
      || h == RunResultLabel
      || (h == RuntimeLabel && r.runtime.Some?)
      || (h == MemoryLabel && r.memory.Some?)
    ensures HasSection(RunLines(r), h) <==> (h == ConsoleOutputTitle && Truthy(r.output)) || (h == ErrorTitle && Truthy(r.error))
  {
    var a := [Field(RunResultLabel, r.status.Label())];
    var b := a + RuntimeLine(r);
    var c := b + MemoryLine(r);
    var d := c + BodySection(ConsoleOutputTitle, r.output);
    OneLine(a[0], h);
    RuntimeShows(r, h);
    MemoryShows(r, h);
    BodyShows(ConsoleOutputTitle, r.output, h);
    BodyShows(ErrorTitle, r.error, h);
    HasAppend(a, RuntimeLine(r), h);
    HasAppend(b, MemoryLine(r), h);
    HasAppend(c, BodySection(ConsoleOutputTitle, r.output), h);
    HasAppend(d, BodySection(ErrorTitle, r.error), h);
  }

  lemma HasAppend(a: seq<ReportLine>, b: seq<ReportLine>, h: Heading)
    ensures HasField(a + b, h) <==> HasField(a, h) || HasField(b, h)
    ensures HasSection(a + b, h) <==> HasSection(a, h) || HasSection(b, h)
  {
    if HasField(a + b, h) {
      var l :| l in a + b && l.Field? && l.name == h;
    }
    if HasSection(a + b, h) {
      var l :| l in a + b && l.Section? && l.title == h;
    }
  }

  lemma OneLine(l: ReportLine, h: Heading)
    ensures HasField([l], h) <==> l.Field? && l.name == h
    ensures HasSection([l], h) <==> l.Section? && l.title == h
  {
    assert l in [l];
  }

  lemma RuntimeShows(r: ExecutionResult, h: Heading)
    ensures HasField(RuntimeLine(r), h) <==> h == RuntimeLabel && r.runtime.Some?
    ensures !HasSection(RuntimeLine(r), h)
  {
    if r.runtime.Some? { OneLine(RuntimeLine(r)[0], h); }
  }

  lemma MemoryShows(r: ExecutionResult, h: Heading)
    ensures HasField(MemoryLine(r), h) <==> h == MemoryLabel && r.memory.Some?
    ensures !HasSection(MemoryLine(r), h)
  {
    if r.memory.Some? { OneLine(MemoryLine(r)[0], h); }
  }

  lemma TestCasesShows(r: ExecutionResult, h: Heading)
    ensures HasField(TestCasesLine(r), h) <==> h == TestCasesLabel && r.testCasesPassed.Some? && r.totalTestCases.Some?
    ensures !HasSection(TestCasesLine(r), h)
  {
    if r.testCasesPassed.Some? && r.totalTestCases.Some? { OneLine(TestCasesLine(r)[0], h); }
  }

  lemma BodyShows(title: Heading, o: Option<string>, h: Heading)
    ensures !HasField(BodySection(title, o), h)
    ensures HasSection(BodySection(title, o), h) <==> h == title && Truthy(o)
  {
    if Truthy(o) { OneLine(BodySection(title, o)[0], h); }
  }


  lemma RenderSnoc(lines: seq<ReportLine>, l: ReportLine)
    ensures Render(lines + [l]) == Render(lines) + RenderLine(l)
  {
    assert (lines + [l])[..|lines|] == lines;
  }

  lemma RenderAppendOptional(lines: seq<ReportLine>, extra: seq<ReportLine>)
    requires |extra| <= 1
    ensures |extra| == 1 ==> Render(lines + extra) == Render(lines) + RenderLine(extra[0])
    ensures |extra| == 0 ==> Render(lines + extra) == Render(lines)
  {
    if |extra| == 1 {
      assert extra == [extra[0]];
      RenderSnoc(lines, extra[0]);
    } else {
      assert lines + extra == lines;
    }
  }

  lemma ContainsPair(s: string, part: string)
    requires Contains(s, part) && |part| >= 2
    ensures exists i :: 0 <= i < |s| - 1 && s[i] == part[0] && s[i + 1] == part[1]
  {
    var i :| 0 <= i <= |s| && StartsWith(s[i..], part);
    assert s[i] == s[i..][..|part|][0];
    assert s[i + 1] == s[i..][..|part|][1];
  }

  lemma FirstAbsent(s: string, part: string)
    requires |part| > 0 && part[0] !in s
    ensures !Contains(s, part)
  {
  }

  lemma ContainsEnd(front: string, part: string)
    ensures Contains(front + part, part)
  {
    assert StartsWith((front + part)[|front|..], part);
  }

  /** An occurrence of `part` in `front + back` lies in `back` when `front` lacks the first letter of `part`. */
  lemma ContainsSplit(front: string, back: string, part: string)
    requires |part| > 0 && part[0] !in front
    ensures Contains(front + back, part) ==> Contains(back, part)
  {
    if Contains(front + back, part) {
      var s := front + back;
      var i :| 0 <= i <= |s| && StartsWith(s[i..], part);
      assert s[i] == part[0];
      assert i >= |front|;
      assert s[i..] == back[i - |front|..];
    }
  }

  lemma NoErrorInExceeded()
    ensures !Contains("Exceeded", "Error")
  {
    if Contains("Exceeded", "Error") {
      ContainsPair("Exceeded", "Error");
    }
  }

  /** No "... Exceeded" label whose prefix lacks the letter E mentions an error. */
  lemma NoErrorBeforeExceeded(prefix: string)
    requires 'E' !in prefix
    ensures !Contains(prefix + "Exceeded", "Error")
  {
    NoErrorInExceeded();
    ContainsSplit(prefix, "Exceeded", "Error");
  }

  /** Which status labels mention an error and which a wrong answer. */
  lemma LabelMarkers(st: SubmissionStatus)
    ensures Contains(st.Label(), "Error") <==> st == RuntimeError || st == CompilationError
    ensures Contains(st.Label(), "Wrong") <==> st == WrongAnswer
  {
    ErrorMarker(st);
    WrongMarker(st);
  }

  lemma ErrorMarker(st: SubmissionStatus)
    ensures Contains(st.Label(), "Error") <==> st == RuntimeError || st == CompilationError
  {
    match st
    case Accepted => FirstAbsent("Accepted", "Error");
    case WrongAnswer => FirstAbsent("Wrong Answer", "Error");
    case TimeLimitExceeded =>
      NoErrorBeforeExceeded("Time Limit ");
      assert "Time Limit Exceeded" == "Time Limit " + "Exceeded";
    case RuntimeError =>
      assert "Runtime Error" == "Runtime " + "Error";
      ContainsEnd("Runtime ", "Error");
    case MemoryLimitExceeded =>
      NoErrorBeforeExceeded("Memory Limit ");
      assert "Memory Limit Exceeded" == "Memory Limit " + "Exceeded";
    case CompilationError =>
      assert "Compilation Error" == "Compilation " + "Error";
      ContainsEnd("Compilation ", "Error");
    case Pending => FirstAbsent("Pending", "Error");
    case Running => FirstAbsent("Running", "Error");
  }

  lemma WrongMarker(st: SubmissionStatus)
    ensures Contains(st.Label(), "Wrong") <==> st == WrongAnswer
  {
    match st
    case Accepted => FirstAbsent("Accepted", "Wrong");
    case WrongAnswer => assert StartsWith("Wrong Answer"[0..], "Wrong");
    case TimeLimitExceeded => FirstAbsent("Time Limit Exceeded", "Wrong");
    case RuntimeError => FirstAbsent("Runtime Error", "Wrong");
    case MemoryLimitExceeded => FirstAbsent("Memory Limit Exceeded", "Wrong");
    case CompilationError => FirstAbsent("Compilation Error", "Wrong");
    case Pending => FirstAbsent("Pending", "Wrong");
    case Running => FirstAbsent("Running", "Wrong");
  }

  /** The panel colour after a run. */
  function RunOutputType(st: SubmissionStatus): (t: OutputType)
    ensures t == Success <==> st == Accepted
    ensures t == Error <==> st == WrongAnswer || st == RuntimeError || st == CompilationError
    ensures t == Info <==> st == TimeLimitExceeded || st == MemoryLimitExceeded || st == Pending || st == Running
  {
    LabelMarkers(st);
    if st == Accepted then Success
    else if Contains(st.Label(), "Error") || Contains(st.Label(), "Wrong") then Error
    else Info
  }

  /** The submit panel text, built line by line with `+=`. */
  method SubmitReport(r: ExecutionResult) returns (text: string)
    ensures text == Render(SubmitLines(r))
  {
    ghost var lines := [Field(StatusLabel, r.status.Label())];
    text := RenderLine(Field(StatusLabel, r.status.Label()));
    assert text == Render(lines);
    RenderAppendOptional(lines, RuntimeLine(r));
    if r.runtime.Some? {
      text := text + RenderLine(Field(RuntimeLabel, NatToString(r.runtime.value) + " ms"));
    }
    lines := lines + RuntimeLine(r);
    RenderAppendOptional(lines, MemoryLine(r));
    if r.memory.Some? {
      text := text + RenderLine(Field(MemoryLabel, NatToString(r.memory.value) + " KB"));
    }
    lines := lines + MemoryLine(r);
    RenderAppendOptional(lines, TestCasesLine(r));
    if r.testCasesPassed.Some? && r.totalTestCases.Some? {
      text := text + RenderLine(Field(TestCasesLabel, NatToString(r.testCasesPassed.value) + " / " + NatToString(r.totalTestCases.value) + " passed"));
    }
    lines := lines + TestCasesLine(r);
    RenderAppendOptional(lines, BodySection(OutputTitle, r.output));
    if Truthy(r.output) {
      text := text + RenderLine(Section(OutputTitle, r.output.value));
    }
    lines := lines + BodySection(OutputTitle, r.output);
    RenderAppendOptional(lines, BodySection(ErrorTitle, r.error));
    if Truthy(r.error) {
      text := text + RenderLine(Section(ErrorTitle, r.error.value));
    }
    lines := lines + BodySection(ErrorTitle, r.error);
    assert lines == SubmitLines(r);
  }

  /** The run panel text, built line by line with `+=`. */
  method RunReport(r: ExecutionResult) returns (text: string)
    ensures text == Render(RunLines(r))
  {
    ghost var lines := [Field(RunResultLabel, r.status.Label())];
    text := RenderLine(Field(RunResultLabel, r.status.Label()));
    assert text == Render(lines);
    RenderAppendOptional(lines, RuntimeLine(r));
    if r.runtime.Some? {
      text := text + RenderLine(Field(RuntimeLabel, NatToString(r.runtime.value) + " ms"));
    }
    lines := lines + RuntimeLine(r);
    RenderAppendOptional(lines, MemoryLine(r));
    if r.memory.Some? {
      text := text + RenderLine(Field(MemoryLabel, NatToString(r.memory.value) + " KB"));
    }
    lines := lines + MemoryLine(r);
    RenderAppendOptional(lines, BodySection(ConsoleOutputTitle, r.output));
    if Truthy(r.output) {
      text := text + RenderLine(Section(ConsoleOutputTitle, r.output.value));
    }
    lines := lines + BodySection(ConsoleOutputTitle, r.output);
    RenderAppendOptional(lines, BodySection(ErrorTitle, r.error));
    if Truthy(r.error) {
      text := text + RenderLine(Section(ErrorTitle, r.error.value));
    }
    lines := lines + BodySection(ErrorTitle, r.error);
    assert lines == RunLines(r);
  }

  // ---------------------------------------------------------------------------
  // The editor

  class Editor {
    const userId: string
    const problemTitle: string
    const problemSlug: string
    var code: string
    var language: string
    var output: string
    var outputType: OutputType
    /** The `problems` map of this user's progress document. */
    var progress: Progress
    /** The documents of the `submissions` collection, oldest first. */
    var submissions: seq<Submission>

    constructor (userId: string, problemTitle: string, problemSlug: string, progress: Progress, submissions: seq<Submission>)
      ensures this.userId == userId && this.problemTitle == problemTitle && this.problemSlug == problemSlug
      ensures this.progress == progress && this.submissions == submissions
      ensures code == "" && language == "javascript"
      ensures output == InitialOutput && outputType == Info
    {
      this.userId := userId;
      this.problemTitle := problemTitle;
      this.problemSlug := problemSlug;
      this.progress := progress;
      this.submissions := submissions;
      code := "";
      language := "javascript";
      output := InitialOutput;
      outputType := Info;
    }

    /** The editor's change handler: a missing value becomes the empty string. */
    method SetCode(value: Option<string>)
      modifies this`code
      ensures code == (if value.Some? then value.value else "")
    {
      code := if value.Some? then value.value else "";
    }

    method SetLanguage(value: string)
      modifies this`language
      ensures language == value
    {
      language := value;
    }

    /** `updateUserProgress`: read this problem's entry, build the new record, and merge it in when the write rule says so. */
    method UpdateUserProgress(newStatus: Status, now: Timestamp)
      modifies this`progress
      ensures progress == UpdatedProgress(userId, problemSlug, old(progress), newStatus, now)
    {
      if userId == "" {
        return;
      }
      var currentData := Lookup(progress, problemSlug);
      var currentStatus := StoredStatus(currentData);
      var solvedAt: Option<Timestamp> := None;
      if newStatus == Solved {
        solvedAt := Some(now);
      } else if currentStatus == Some("Solved") && currentData.Some? && currentData.value.Detail? {
        solvedAt := currentData.value.solvedAt;
      }
      var detail := Detail(newStatus, solvedAt, Some(now));
      if currentData.None? || currentStatus != Some(newStatus.Name()) || newStatus == Attempted {
        progress := progress[problemSlug := detail];
      }
    }

    /** The submission document recorded for a judged submission. */
    function Record(r: ExecutionResult, now: Timestamp): (s: Submission)
      reads this`language, this`code
      ensures s.userId == userId && s.problemSlug == problemSlug && s.status == r.status && s.submittedAt == now
    {
      Submission(userId, problemSlug, problemTitle, language, code, r.status, now,
        r.runtime, r.memory, r.output, r.error, r.testCasesPassed, r.totalTestCases)
    }

    /** `handleSubmit`, once the judge has returned `r`. */
    method HandleSubmit(r: ExecutionResult, now: Timestamp)
      modifies this`progress, this`submissions, this`output, this`outputType
      ensures userId == "" || IsBlank(code) ==>
        progress == old(progress) && submissions == old(submissions) && output == old(output) && outputType == old(outputType)
      ensures userId != "" && !IsBlank(code) ==>
        && submissions == old(submissions) + [Record(r, now)]
        && progress == UpdatedProgress(userId, problemSlug, old(progress), StatusForOutcome(r.status), now)
        && output == Render(SubmitLines(r))
        && outputType == (if r.status == Accepted then Success else Error)
    {
      TrimEmptyIffBlank(code);
      if userId == "" || Trim(code) == "" {
        return;
      }
      submissions := submissions + [Record(r, now)];
      var newProblemStatus := Attempted;
      if r.status == Accepted {
        newProblemStatus := Solved;
      }
      UpdateUserProgress(newProblemStatus, now);
      var isSuccess := r.status == Accepted;
      var text := SubmitReport(r);
      output := text;
      outputType := if isSuccess then Success else Error;
    }

    /** `handleRunCode`, once the judge has returned `r`. */
    method HandleRunCode(r: ExecutionResult, now: Timestamp)
      modifies this`progress, this`output, this`outputType
      ensures userId == "" || IsBlank(code) ==>
        progress == old(progress) && output == old(output) && outputType == old(outputType)
      ensures userId != "" && !IsBlank(code) ==>
        && progress == RunUpdatedProgress(userId, problemSlug, old(progress), now)
        && output == Render(RunLines(r))
        && outputType == RunOutputType(r.status)
    {
      TrimEmptyIffBlank(code);
      if userId == "" || Trim(code) == "" {
        return;
      }
      var current := Lookup(progress, problemSlug);
      if !(current.Some? && current.value.Detail? && current.value.status == Solved) {
        UpdateUserProgress(Attempted, now);
      }

      var text := RunReport(r);
      output := text;
      outputType := if r.status == Accepted then Success
        else if Contains(r.status.Label(), "Error") || Contains(r.status.Label(), "Wrong") then Error
        else Info;
    }
  }
}
