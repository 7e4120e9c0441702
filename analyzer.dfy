/**
 * The sprint analysis (`analyze_sprint_data`): one pass over the issues of
 * the open sprint that tallies statuses, assignees, priorities and issue
 * types, keeps per-developer "Done" and "EM ANDAMENTO" counters, collects
 * the unassigned, blocked and recently completed issues, and derives the
 * progress figures and the completion estimate.
 *
 * Timestamps are instants in milliseconds; the time of the run (`now`) and
 * the calendar (`dateOf`, the local date of an instant) are parameters.
 */
module Analyzer {
  import opened Wrappers
  import opened Text
  import opened Counters
  import opened Rounding

  /** Label under which issues without assignee are counted. */
  const Unassigned: string := "Não atribuído"
  const DoneStatus: string := "Done"
  const InProgressStatus: string := "EM ANDAMENTO"
  /** One day, in milliseconds. */
  const DayLength: int := 86_400_000

  /** The fields of a Jira issue the analysis reads. */
  datatype Issue = Issue(
    key: string,
    summary: string,
    status: string,
    assignee: Option<string>,
    priority: string,
    issueType: string,
    updated: int)

  datatype Date = Date(year: int, month: int, day: int)

  /** An entry of one of the three issue lists of the analysis. */
  datatype ListedIssue =
    | UnassignedEntry(key: string, summary: string, status: string)
    | BlockedEntry(key: string, summary: string, assignee: string, daysBlocked: int)
    | RecentEntry(key: string, summary: string, assignee: string, completedAt: int)

  /** `estimated_days`: a number of days or the sentinel "Não calculado". */
  datatype Estimate = Days(days: int) | NotCalculated

  datatype Analysis = Analysis(
    totalIssues: nat,
    completedIssues: nat,
    progressTenths: int,
    statusCount: Counter,
    devWorkload: Counter,
    devCompleted: Counter,
    devInProgress: Counter,
    priorityCount: Counter,
    issueTypes: Counter,
    recentCompletions: seq<ListedIssue>,
    blockedIssues: seq<ListedIssue>,
    unassignedIssues: seq<ListedIssue>,
    estimatedDays: Estimate)

  function AssigneeName(x: Issue): string
  {
    if x.assignee.Some? then x.assignee.value else Unassigned
  }

  /** The blocked heuristic: the upper-cased status contains one of two markers. */
  predicate IsBlocked(status: string)
  {
    Contains(Upper(status), "IMPEDIMENTO") || Contains(Upper(status), "BLOCKED")
  }

  /** `(today - updated).days`: whole days elapsed, rounded down. */
  function DaysBetween(earlier: int, later: int): (days: int)
    ensures days * DayLength <= later - earlier < (days + 1) * DayLength
  {
    (later - earlier) / DayLength
  }

  // ---------------------------------------------------------------------------
  // Groupings: the six counters of the analysis

  datatype Grouping = ByStatus | ByAssignee | ByPriority | ByIssueType | CompletedBy | InProgressBy

  /** Groupings that count every issue once. */
  predicate CountsEveryIssue(g: Grouping)
  {
    g in {ByStatus, ByAssignee, ByPriority, ByIssueType}
  }

  /** The name under which an issue is counted in grouping `g`, if any. */
  function Label(g: Grouping, x: Issue): Option<string>
  {
    match g
    case ByStatus => Some(x.status)
    case ByAssignee => Some(AssigneeName(x))
    case ByPriority => Some(x.priority)
    case ByIssueType => Some(x.issueType)
    case CompletedBy =>
      if x.assignee.Some? && x.status == DoneStatus then Some(x.assignee.value) else None
    case InProgressBy =>
      if x.assignee.Some? && x.status == InProgressStatus then Some(x.assignee.value) else None
  }

  function LabelSeq(g: Grouping, x: Issue): seq<string>
  {
    if Label(g, x).Some? then [Label(g, x).value] else []
  }

  /** The names counted in grouping `g`, in input order. */
  function Labels(issues: seq<Issue>, g: Grouping): seq<string>
  {
    if issues == [] then []
    else Labels(issues[..|issues| - 1], g) + LabelSeq(g, issues[|issues| - 1])
  }

  // ---------------------------------------------------------------------------
  // The three issue lists

  datatype Section = RecentList | BlockedList | UnassignedList

  predicate Selects(s: Section, x: Issue, now: int)
  {
    match s
    case RecentList => x.status == DoneStatus && x.updated >= now - DayLength
    case BlockedList => IsBlocked(x.status)
    case UnassignedList => x.assignee.None?
  }

  function EntryFor(s: Section, x: Issue, now: int): ListedIssue
  {
    match s
    case RecentList => RecentEntry(x.key, Truncated(x.summary, 40), AssigneeName(x), x.updated)
    case BlockedList => BlockedEntry(x.key, Truncated(x.summary, 50), AssigneeName(x), DaysBetween(x.updated, now))
    case UnassignedList => UnassignedEntry(x.key, Truncated(x.summary, 50), x.status)
  }

  function EntrySeq(s: Section, x: Issue, now: int): seq<ListedIssue>
  {
    if Selects(s, x, now) then [EntryFor(s, x, now)] else []
  }

  /** The entries of list `s`, in input order. */
  function Listing(issues: seq<Issue>, s: Section, now: int): seq<ListedIssue>
  {
    if issues == [] then []
    else Listing(issues[..|issues| - 1], s, now) + EntrySeq(s, issues[|issues| - 1], now)
  }

  // ---------------------------------------------------------------------------
  // Completion rate and estimate

  function Max(x: int, y: int): int { if x >= y then x else y }

  /**
   * The number of recent completions whose completion date is `yesterday`
   * (lines 110-111 as evidently intended; see DailyRateAsWritten).
   */
  function DailyRate(recent: seq<ListedIssue>, dateOf: int -> Date, yesterday: Date): nat
  {
    if recent == [] then 0
    else
      var e := recent[|recent| - 1];
      DailyRate(recent[..|recent| - 1], dateOf, yesterday)
        + (if e.RecentEntry? && dateOf(e.completedAt) == yesterday then 1 else 0)
  }

  lemma {:induction false} DailyRateBounds(recent: seq<ListedIssue>, dateOf: int -> Date, yesterday: Date)
    ensures DailyRate(recent, dateOf, yesterday) <= |recent|
    ensures (forall e :: e in recent ==> e.RecentEntry? && dateOf(e.completedAt) == yesterday)
            ==> DailyRate(recent, dateOf, yesterday) == |recent|
    ensures (forall e :: e in recent ==> e.RecentEntry? && dateOf(e.completedAt) != yesterday)
            ==> DailyRate(recent, dateOf, yesterday) == 0
  {
    if recent != [] {
      var init := recent[..|recent| - 1];
      assert forall e :: e in init ==> e in recent;
      DailyRateBounds(init, dateOf, yesterday);
    }
  }

  /**
   * The date `strptime` reads back from `strftime('%d/%m %H:%M')`: the year
   * is not in the text, so it defaults to 1900; the 29th of February does
   * not exist in 1900 and makes `strptime` raise (None).
   */
  function ReparsedDate(d: Date): Option<Date>
  {
    if d.month == 2 && d.day == 29 then None else Some(Date(1900, d.month, d.day))
  }

  /** Lines 110-111 as written; None when `strptime` raises. */
  function DailyRateAsWritten(recent: seq<ListedIssue>, dateOf: int -> Date, yesterday: Date): Option<nat>
  {
    if recent == [] then Some(0)
    else
      var e := recent[|recent| - 1];
      var rest := DailyRateAsWritten(recent[..|recent| - 1], dateOf, yesterday);
      if !e.RecentEntry? then rest
      else
        var d := ReparsedDate(dateOf(e.completedAt));
        if rest.None? || d.None? then None
        else Some(rest.value + (if d.value == yesterday then 1 else 0))
  }

  /** As written, no completion ever matches a date outside the year 1900. */
  lemma {:induction false} AsWrittenRateNeverCounts(recent: seq<ListedIssue>, dateOf: int -> Date, yesterday: Date)
    requires yesterday.year != 1900
    ensures DailyRateAsWritten(recent, dateOf, yesterday) in {None, Some(0)}
  {
    if recent != [] {
      AsWrittenRateNeverCounts(recent[..|recent| - 1], dateOf, yesterday);
    }
  }

  /** A completion made yesterday (2026-10-14) is missed as written and counted when corrected. */
  lemma AsWrittenRateMissesYesterday()
    ensures var dateOf := (t: int) => Date(2026, 10, 14);
            var recent := [RecentEntry("SQHUB-1", "...", "Ana", 0)];
            DailyRateAsWritten(recent, dateOf, Date(2026, 10, 14)) == Some(0)
            && DailyRate(recent, dateOf, Date(2026, 10, 14)) == 1
  {
  }

  /** A completion dated 29 February makes the rate computation raise, as written. */
  lemma AsWrittenRateFailsOnLeapDay()
    ensures var dateOf := (t: int) => Date(2028, 2, 29);
            var recent := [RecentEntry("SQHUB-1", "...", "Ana", 0)];
            DailyRateAsWritten(recent, dateOf, Date(2028, 2, 29)).None?
            && DailyRate(recent, dateOf, Date(2028, 2, 29)) == 1
  {
  }

  /** `progress_percent`, in tenths of a percent; 0 for an empty sprint. */
  function Progress(completed: nat, total: nat): (p: int)
    ensures total == 0 ==> p == 0
    ensures completed <= total ==> 0 <= p <= 1000
    ensures 0 < total == completed ==> p == 1000
  {
    if total > 0 then PercentBounds(completed, total); PercentTenths(completed, total) else 0
  }

  /**
   * `estimated_days`: "Não calculado" without recent completions, otherwise
   * the remaining issues divided by the daily rate (at least 1), rounded.
   */
  function EstimateDays(total: nat, completed: nat, recent: seq<ListedIssue>, now: int, dateOf: int -> Date): (e: Estimate)
    ensures e == NotCalculated <==> recent == []
    ensures e.Days? && completed <= total ==> 0 <= e.days <= total - completed
  {
    if |recent| > 0 then
      var rate := DailyRate(recent, dateOf, dateOf(now - DayLength));
      Days(RoundHalfEven(total - completed, Max(rate, 1)))
    else NotCalculated
  }

  // ---------------------------------------------------------------------------
  // The state of the analysis loop

  /** The counters and lists the loop has built so far. */
  datatype Tallies = Tallies(
    statusCount: Counter,
    devWorkload: Counter,
    priorityCount: Counter,
    issueTypes: Counter,
    devCompleted: Counter,
    devInProgress: Counter,
    recentCompletions: seq<ListedIssue>,
    blockedIssues: seq<ListedIssue>,
    unassignedIssues: seq<ListedIssue>)

  /** What one issue adds to the counters and lists (one turn of the loop). */
  function Step(t: Tallies, x: Issue, now: int): Tallies
  {
    var assignee := AssigneeName(x);
    Tallies(
      Increment(t.statusCount, x.status),
      Increment(t.devWorkload, assignee),
      Increment(t.priorityCount, x.priority),
      Increment(t.issueTypes, x.issueType),
      if x.assignee.Some? && x.status == DoneStatus then Increment(t.devCompleted, assignee) else t.devCompleted,
      if x.assignee.Some? && x.status != DoneStatus && x.status == InProgressStatus
      then Increment(t.devInProgress, assignee) else t.devInProgress,
      t.recentCompletions + EntrySeq(RecentList, x, now),
      t.blockedIssues + EntrySeq(BlockedList, x, now),
      t.unassignedIssues + EntrySeq(UnassignedList, x, now))
  }

  function Accumulate(issues: seq<Issue>, now: int): Tallies
  {
    if issues == [] then Tallies([], [], [], [], [], [], [], [], [])
    else Step(Accumulate(issues[..|issues| - 1], now), issues[|issues| - 1], now)
  }

  lemma AccumulateStep(issues: seq<Issue>, i: int, now: int)
    requires 0 <= i < |issues|
    ensures Accumulate(issues[..i + 1], now) == Step(Accumulate(issues[..i], now), issues[i], now)
  {
    assert issues[..i + 1][..i] == issues[..i];
  }

  lemma AccumulateWhole(issues: seq<Issue>, now: int)
    ensures Accumulate(issues[..|issues|], now) == Accumulate(issues, now)
  {
    assert issues[..|issues|] == issues;
  }

  lemma TallySnoc(names: seq<string>, extra: seq<string>)
    requires |extra| <= 1
    ensures Tally(names + extra) == if extra == [] then Tally(names) else Increment(Tally(names), extra[0])
  {
    if extra == [] {
      assert names + extra == names;
    } else {
      assert (names + extra)[..|names|] == names;
    }
  }

  /** The counter of grouping `g` in the loop's state. */
  function CounterOf(t: Tallies, g: Grouping): Counter
  {
    match g
    case ByStatus => t.statusCount
    case ByAssignee => t.devWorkload
    case ByPriority => t.priorityCount
    case ByIssueType => t.issueTypes
    case CompletedBy => t.devCompleted
    case InProgressBy => t.devInProgress
  }

  /** The list of section `s` in the loop's state. */
  function ListOf(t: Tallies, s: Section): seq<ListedIssue>
  {
    match s
    case RecentList => t.recentCompletions
    case BlockedList => t.blockedIssues
    case UnassignedList => t.unassignedIssues
  }

  /** After any prefix of the issues, each counter is the tally of that prefix's labels. */
  lemma {:induction false} AccumulateCounter(issues: seq<Issue>, now: int, g: Grouping)
    ensures CounterOf(Accumulate(issues, now), g) == Tally(Labels(issues, g))
  {
    if issues != [] {
      var init, x := issues[..|issues| - 1], issues[|issues| - 1];
      AccumulateCounter(init, now, g);
      TallySnoc(Labels(init, g), LabelSeq(g, x));
    }
  }

  /** After any prefix of the issues, each list is the listing of that prefix. */
  lemma {:induction false} AccumulateList(issues: seq<Issue>, now: int, s: Section)
    ensures ListOf(Accumulate(issues, now), s) == Listing(issues, s, now)
  {
    if issues != [] {
      AccumulateList(issues[..|issues| - 1], now, s);
    }
  }

  // ---------------------------------------------------------------------------
  // The analysis record

  /** The analysis record `analyze_sprint_data` returns for `issues` at time `now`. */
  function SprintAnalysis(issues: seq<Issue>, now: int, dateOf: int -> Date): Analysis
  {
    var t := Accumulate(issues, now);
    var completed := Get(t.statusCount, DoneStatus);
    Analysis(
      |issues|,
      completed,
      Progress(completed, |issues|),
      t.statusCount,
      t.devWorkload,
      t.devCompleted,
      t.devInProgress,
      t.priorityCount,
      t.issueTypes,
      t.recentCompletions,
      t.blockedIssues,
      t.unassignedIssues,
      EstimateDays(|issues|, completed, t.recentCompletions, now, dateOf))
  }

  /** The counter of grouping `g` in an analysis record. */
  function CounterIn(a: Analysis, g: Grouping): Counter
  {
    match g
    case ByStatus => a.statusCount
    case ByAssignee => a.devWorkload
    case ByPriority => a.priorityCount
    case ByIssueType => a.issueTypes
    case CompletedBy => a.devCompleted
    case InProgressBy => a.devInProgress
  }

  /** The list of section `s` in an analysis record. */
  function ListIn(a: Analysis, s: Section): seq<ListedIssue>
  {
    match s
    case RecentList => a.recentCompletions
    case BlockedList => a.blockedIssues
    case UnassignedList => a.unassignedIssues
  }

  /** Each counter of the analysis counts the labels its grouping gives the issues. */
  lemma AnalysisCounter(issues: seq<Issue>, now: int, dateOf: int -> Date, g: Grouping)
    ensures CounterIn(SprintAnalysis(issues, now, dateOf), g) == Tally(Labels(issues, g))
  {
    AccumulateCounter(issues, now, g);
  }

  /** Each list of the analysis is the listing of its section. */
  lemma AnalysisList(issues: seq<Issue>, now: int, dateOf: int -> Date, s: Section)
    ensures ListIn(SprintAnalysis(issues, now, dateOf), s) == Listing(issues, s, now)
  {
    AccumulateList(issues, now, s);
  }

  // ---------------------------------------------------------------------------
  // Properties of the analysis

  /** How many issues grouping `g` counts under `name`: a direct count, one issue at a time. */
  function LabelCount(issues: seq<Issue>, g: Grouping, name: string): (n: nat)
    ensures n <= |issues|
  {
    if issues == [] then 0
    else LabelCount(issues[..|issues| - 1], g, name) + (if Label(g, issues[|issues| - 1]) == Some(name) then 1 else 0)
  }

  lemma OccurrencesSnoc(names: seq<string>, extra: seq<string>, name: string)
    requires |extra| <= 1
    ensures Occurrences(names + extra, name)
            == Occurrences(names, name) + (if extra == [name] then 1 else 0)
  {
    if extra == [] {
      assert names + extra == names;
    } else {
      assert (names + extra)[..|names|] == names;
    }
  }

  lemma {:induction false} OccurrencesOfLabels(issues: seq<Issue>, g: Grouping, name: string)
    ensures Occurrences(Labels(issues, g), name) == LabelCount(issues, g, name)
  {
    if issues != [] {
      var init, x := issues[..|issues| - 1], issues[|issues| - 1];
      OccurrencesOfLabels(init, g, name);
      OccurrencesSnoc(Labels(init, g), LabelSeq(g, x), name);
    }
  }

  /**
   * `counter.get(name, 0)` on any counter of the analysis is the number of
   * issues the grouping files under `name`: for the status counter the
   * issues with that status, for the workload the issues of that assignee
   * (the unassigned ones under "Não atribuído"), for the per-developer
   * counters the assigned issues of that developer that are "Done" or
   * "EM ANDAMENTO".
   */
  lemma AnalysisGet(issues: seq<Issue>, now: int, dateOf: int -> Date, g: Grouping, name: string)
    ensures Get(CounterIn(SprintAnalysis(issues, now, dateOf), g), name) == LabelCount(issues, g, name)
  {
    AnalysisCounter(issues, now, dateOf, g);
    TallyGet(Labels(issues, g), name);
    OccurrencesOfLabels(issues, g, name);
  }

  lemma {:induction false} LabelsLength(issues: seq<Issue>, g: Grouping)
    requires CountsEveryIssue(g)
    ensures |Labels(issues, g)| == |issues|
  {
    if issues != [] {
      LabelsLength(issues[..|issues| - 1], g);
    }
  }

  /** The status, workload, priority and type counters each add up to the number of issues. */
  lemma CounterTotal(issues: seq<Issue>, now: int, dateOf: int -> Date, g: Grouping)
    requires CountsEveryIssue(g)
    ensures Total(CounterIn(SprintAnalysis(issues, now, dateOf), g)) == SprintAnalysis(issues, now, dateOf).totalIssues
  {
    AnalysisCounter(issues, now, dateOf, g);
    LabelsLength(issues, g);
  }

  /** Every counter of the analysis holds each name once. */
  lemma CounterDistinct(issues: seq<Issue>, now: int, dateOf: int -> Date, g: Grouping)
    ensures Distinct(CounterIn(SprintAnalysis(issues, now, dateOf), g))
  {
    AnalysisCounter(issues, now, dateOf, g);
  }

  /**
   * Each counter of the analysis holds the names its grouping gives, each
   * once, in the order of the first issue that gives it, and counts each of
   * them at least once.
   */
  lemma AnalysisKeys(issues: seq<Issue>, now: int, dateOf: int -> Date, g: Grouping)
    ensures Keys(CounterIn(SprintAnalysis(issues, now, dateOf), g)) == FirstSeen(Labels(issues, g))
    ensures forall e :: e in CounterIn(SprintAnalysis(issues, now, dateOf), g) ==> e.count >= 1
  {
    AnalysisCounter(issues, now, dateOf, g);
    TallyKeys(Labels(issues, g));
    TallyPositive(Labels(issues, g));
  }

  /** A name is a key of a counter of the analysis exactly when some issue is counted under it. */
  lemma AnalysisKeyMembers(issues: seq<Issue>, now: int, dateOf: int -> Date, g: Grouping, name: string)
    ensures name in Keys(CounterIn(SprintAnalysis(issues, now, dateOf), g)) <==> LabelCount(issues, g, name) > 0
  {
    AnalysisKeys(issues, now, dateOf, g);
    FirstSeenMembers(Labels(issues, g), name);
    OccursIn(Labels(issues, g), name);
    OccurrencesOfLabels(issues, g, name);
  }

  /**
   * A developer's "Done" and "EM ANDAMENTO" issues are among the issues
   * assigned to that developer: an issue without assignee is never counted.
   */
  lemma {:induction false} DeveloperSplit(issues: seq<Issue>, dev: string)
    ensures LabelCount(issues, CompletedBy, dev) + LabelCount(issues, InProgressBy, dev)
            <= AssignedCount(issues, dev)
  {
    if issues != [] {
      assert DoneStatus != InProgressStatus by { assert |DoneStatus| != |InProgressStatus|; }
      DeveloperSplit(issues[..|issues| - 1], dev);
    }
  }

  /**
   * What the report relies on: no developer has more issues done and in
   * progress than assigned (so `pending` is never negative), no status has
   * more issues than the sprint, and an analysis with a status row has at
   * least one issue (so each status percentage divides by a positive total).
   */
  predicate Consistent(a: Analysis)
  {
    && Distinct(a.devWorkload)
    && (forall e :: e in a.devWorkload ==> Get(a.devCompleted, e.name) + Get(a.devInProgress, e.name) <= e.count)
    && (forall e :: e in a.statusCount ==> e.count <= a.totalIssues)
    && (a.statusCount != [] ==> a.totalIssues >= 1)
  }

  /** Only issues with an assignee count as a developer's done or in-progress work. */
  lemma DeveloperAssigned(issues: seq<Issue>, now: int, dateOf: int -> Date, dev: string)
    ensures var a := SprintAnalysis(issues, now, dateOf);
            Get(a.devCompleted, dev) + Get(a.devInProgress, dev) <= AssignedCount(issues, dev)
  {
    var a := SprintAnalysis(issues, now, dateOf);
    assert Get(a.devCompleted, dev) == LabelCount(issues, CompletedBy, dev) by {
      AnalysisGet(issues, now, dateOf, CompletedBy, dev);
    }
    assert Get(a.devInProgress, dev) == LabelCount(issues, InProgressBy, dev) by {
      AnalysisGet(issues, now, dateOf, InProgressBy, dev);
    }
    DeveloperSplit(issues, dev);
  }

  /** No developer has more issues done and in progress than assigned. */
  lemma DeveloperRow(issues: seq<Issue>, now: int, dateOf: int -> Date, dev: string)
    ensures var a := SprintAnalysis(issues, now, dateOf);
            Get(a.devCompleted, dev) + Get(a.devInProgress, dev) <= Get(a.devWorkload, dev)
  {
    DeveloperAssigned(issues, now, dateOf, dev);
    AnalysisGet(issues, now, dateOf, ByAssignee, dev);
    WorkloadSplit(issues, dev);
  }

  lemma AnalysisConsistent(issues: seq<Issue>, now: int, dateOf: int -> Date)
    ensures Consistent(SprintAnalysis(issues, now, dateOf))
  {
    var a := SprintAnalysis(issues, now, dateOf);
    CounterDistinct(issues, now, dateOf, ByAssignee);
    forall e | e in a.devWorkload
      ensures Get(a.devCompleted, e.name) + Get(a.devInProgress, e.name) <= e.count
    {
      var i :| 0 <= i < |a.devWorkload| && a.devWorkload[i] == e;
      GetEntry(a.devWorkload, i);
      DeveloperRow(issues, now, dateOf, e.name);
    }
    CounterTotal(issues, now, dateOf, ByStatus);
    forall e | e in a.statusCount
      ensures e.count <= a.totalIssues
    {
      EntryWithinTotal(a.statusCount, e);
    }
  }

  /** How many issues are assigned to `dev`. */
  function AssignedCount(issues: seq<Issue>, dev: string): (n: nat)
    ensures n <= |issues|
  {
    if issues == [] then 0
    else AssignedCount(issues[..|issues| - 1], dev) + (if issues[|issues| - 1].assignee == Some(dev) then 1 else 0)
  }

  /** How many issues have no assignee. */
  function UnassignedCount(issues: seq<Issue>): (n: nat)
    ensures n <= |issues|
  {
    if issues == [] then 0
    else UnassignedCount(issues[..|issues| - 1]) + (if issues[|issues| - 1].assignee.None? then 1 else 0)
  }

  lemma {:induction false} WorkloadSplit(issues: seq<Issue>, dev: string)
    ensures LabelCount(issues, ByAssignee, dev)
            == AssignedCount(issues, dev) + (if dev == Unassigned then UnassignedCount(issues) else 0)
  {
    if issues != [] {
      WorkloadSplit(issues[..|issues| - 1], dev);
    }
  }

  lemma {:induction false} UnassignedListLength(issues: seq<Issue>, now: int)
    ensures |Listing(issues, UnassignedList, now)| == UnassignedCount(issues)
  {
    if issues != [] {
      UnassignedListLength(issues[..|issues| - 1], now);
    }
  }

  /**
   * One unassigned entry per issue without assignee; in the workload those
   * issues are counted under "Não atribuído" (together with any issue whose
   * assignee bears that very name) and every other name counts exactly the
   * issues assigned to it.
   */
  lemma UnassignedIssues(issues: seq<Issue>, now: int, dateOf: int -> Date, dev: string)
    ensures var a := SprintAnalysis(issues, now, dateOf);
            && |a.unassignedIssues| == UnassignedCount(issues)
            && Get(a.devWorkload, dev)
               == AssignedCount(issues, dev) + (if dev == Unassigned then |a.unassignedIssues| else 0)
  {
    AnalysisList(issues, now, dateOf, UnassignedList);
    UnassignedListLength(issues, now);
    AnalysisGet(issues, now, dateOf, ByAssignee, dev);
    WorkloadSplit(issues, dev);
  }

  /** The lists keep the input order: the listing of a concatenation is the concatenation of the listings. */
  lemma {:induction false} ListingAppend(xs: seq<Issue>, ys: seq<Issue>, s: Section, now: int)
    ensures Listing(xs + ys, s, now) == Listing(xs, s, now) + Listing(ys, s, now)
    decreases |ys|
  {
    if ys == [] {
      assert xs + ys == xs;
    } else {
      var init := ys[..|ys| - 1];
      assert (xs + ys)[..|xs + ys| - 1] == xs + init;
      ListingAppend(xs, init, s, now);
    }
  }

  /** An entry is listed exactly when some issue is selected for the section and yields it. */
  lemma {:induction false} ListingMembers(issues: seq<Issue>, s: Section, now: int, e: ListedIssue)
    ensures e in Listing(issues, s, now)
            <==> exists i :: 0 <= i < |issues| && Selects(s, issues[i], now) && e == EntryFor(s, issues[i], now)
  {
    if issues != [] {
      var init, x := issues[..|issues| - 1], issues[|issues| - 1];
      ListingMembers(init, s, now, e);
      assert e in Listing(issues, s, now)
             <==> e in Listing(init, s, now) || (Selects(s, x, now) && e == EntryFor(s, x, now));
      if e in Listing(issues, s, now) {
        if e in Listing(init, s, now) {
          var i :| 0 <= i < |init| && Selects(s, init[i], now) && e == EntryFor(s, init[i], now);
          assert issues[i] == init[i];
        } else {
          assert issues[|issues| - 1] == x;
        }
      }
      if exists i :: 0 <= i < |issues| && Selects(s, issues[i], now) && e == EntryFor(s, issues[i], now) {
        var i :| 0 <= i < |issues| && Selects(s, issues[i], now) && e == EntryFor(s, issues[i], now);
        if i < |init| {
          assert init[i] == issues[i];
        }
      }
    }
  }

  /** The shape of the entries of each list: their kind and the bound on their truncated summary. */
  predicate WellFormedEntry(s: Section, e: ListedIssue)
  {
    match s
    case RecentList => e.RecentEntry? && |e.summary| <= 43
    case BlockedList => e.BlockedEntry? && |e.summary| <= 53
    case UnassignedList => e.UnassignedEntry? && |e.summary| <= 53
  }

  lemma ListedEntries(issues: seq<Issue>, now: int, dateOf: int -> Date, s: Section, e: ListedIssue)
    requires e in ListIn(SprintAnalysis(issues, now, dateOf), s)
    ensures WellFormedEntry(s, e)
  {
    AnalysisList(issues, now, dateOf, s);
    ListingMembers(issues, s, now, e);
  }

  lemma {:induction false} RecentAreDone(issues: seq<Issue>, now: int)
    ensures |Listing(issues, RecentList, now)| <= LabelCount(issues, ByStatus, DoneStatus)
  {
    if issues != [] {
      RecentAreDone(issues[..|issues| - 1], now);
    }
  }

  /**
   * The completed issues are those whose status is exactly "Done"; recent
   * completions are among them, and they are among all issues.
   */
  lemma RecentWithinCompleted(issues: seq<Issue>, now: int, dateOf: int -> Date)
    ensures var a := SprintAnalysis(issues, now, dateOf);
            && a.completedIssues == LabelCount(issues, ByStatus, DoneStatus)
            && |a.recentCompletions| <= a.completedIssues <= a.totalIssues
  {
    AnalysisList(issues, now, dateOf, RecentList);
    AnalysisGet(issues, now, dateOf, ByStatus, DoneStatus);
    RecentAreDone(issues, now);
  }

  /** The progress lies between 0 and 100.0 percent, reaching 100.0 when everything is done. */
  lemma ProgressBounds(issues: seq<Issue>, now: int, dateOf: int -> Date)
    ensures var a := SprintAnalysis(issues, now, dateOf);
            && 0 <= a.progressTenths <= 1000
            && (a.totalIssues == 0 ==> a.progressTenths == 0)
            && (a.totalIssues > 0 && a.completedIssues == a.totalIssues ==> a.progressTenths == 1000)
  {
    var a := SprintAnalysis(issues, now, dateOf);
    RecentWithinCompleted(issues, now, dateOf);
    if a.totalIssues > 0 {
      PercentBounds(a.completedIssues, a.totalIssues);
    }
  }

  /**
   * The estimate is "Não calculado" exactly when nothing was completed in
   * the last day; otherwise it is a number of days between 0 and the number
   * of remaining issues.
   */
  lemma EstimateRule(issues: seq<Issue>, now: int, dateOf: int -> Date)
    ensures var a := SprintAnalysis(issues, now, dateOf);
            && (a.estimatedDays == NotCalculated <==> a.recentCompletions == [])
            && (a.estimatedDays.Days? ==> 0 <= a.estimatedDays.days <= a.totalIssues - a.completedIssues)
  {
    RecentWithinCompleted(issues, now, dateOf);
  }

  /** Any casing of "blocked" or "impedimento" inside a status marks the issue as blocked. */
  lemma BlockedAnyCase(status: string, marker: string)
    requires Contains(status, marker)
    requires Upper(marker) == "BLOCKED" || Upper(marker) == "IMPEDIMENTO"
    ensures IsBlocked(status)
  {
    ContainsUpper(status, marker);
  }

  // ---------------------------------------------------------------------------
  // The analysis loop

  /**
   * The loop of lines 57-101: one pass over the issues that updates the six
   * counters and appends to the three lists.
   */
  method Tabulate(issues: seq<Issue>, now: int) returns (t: Tallies)
    ensures t == Accumulate(issues, now)
  {
    var statusCount: Counter := [];
    var devWorkload: Counter := [];
    var priorityCount: Counter := [];
    var issueTypes: Counter := [];
    var devCompleted: Counter := [];
    var devInProgress: Counter := [];
    var recentCompletions: seq<ListedIssue> := [];
    var blockedIssues: seq<ListedIssue> := [];
    var unassignedIssues: seq<ListedIssue> := [];

    var i := 0;
    while i < |issues|
      invariant 0 <= i <= |issues|
      invariant Tallies(statusCount, devWorkload, priorityCount, issueTypes, devCompleted, devInProgress,
                        recentCompletions, blockedIssues, unassignedIssues)
                == Accumulate(issues[..i], now)
    {
      var x := issues[i];
      AccumulateStep(issues, i, now);
      ghost var next := Step(Accumulate(issues[..i], now), x, now);
      var assignee := AssigneeName(x);
      statusCount := Increment(statusCount, x.status);
      devWorkload := Increment(devWorkload, assignee);
      priorityCount := Increment(priorityCount, x.priority);
      issueTypes := Increment(issueTypes, x.issueType);
      assert statusCount == next.statusCount && devWorkload == next.devWorkload
          && priorityCount == next.priorityCount && issueTypes == next.issueTypes;
      if x.assignee.Some? {
        if x.status == DoneStatus {
          devCompleted := Increment(devCompleted, assignee);
        } else if x.status == InProgressStatus {
          devInProgress := Increment(devInProgress, assignee);
        }
      } else {
        unassignedIssues := unassignedIssues + [UnassignedEntry(x.key, Truncated(x.summary, 50), x.status)];
      }
      assert devCompleted == next.devCompleted && devInProgress == next.devInProgress
          && unassignedIssues == next.unassignedIssues;
      if IsBlocked(x.status) {
        blockedIssues := blockedIssues
          + [BlockedEntry(x.key, Truncated(x.summary, 50), assignee, DaysBetween(x.updated, now))];
      }
      assert blockedIssues == next.blockedIssues;
      if x.status == DoneStatus && x.updated >= now - DayLength {
        recentCompletions := recentCompletions
          + [RecentEntry(x.key, Truncated(x.summary, 40), assignee, x.updated)];
      }
      assert recentCompletions == next.recentCompletions;
      i := i + 1;
    }
    AccumulateWhole(issues, now);
    t := Tallies(statusCount, devWorkload, priorityCount, issueTypes, devCompleted, devInProgress,
                 recentCompletions, blockedIssues, unassignedIssues);
  }

  /** The completion estimate, computed from the recent completions once the loop is done. */
  method EstimateCompletion(totalIssues: nat, completedIssues: nat, recent: seq<ListedIssue>, now: int, dateOf: int -> Date)
    returns (estimatedDays: Estimate)
    ensures estimatedDays == EstimateDays(totalIssues, completedIssues, recent, now, dateOf)
  {
    if |recent| > 0 {
      var dailyRate := DailyRate(recent, dateOf, dateOf(now - DayLength));
      var remaining := totalIssues - completedIssues;
      estimatedDays := Days(RoundHalfEven(remaining, Max(dailyRate, 1)));
    } else {
      estimatedDays := NotCalculated;
    }
  }

  /** The analysis record assembled from the loop's state and the derived figures. */
  lemma AnalysisFromTallies(issues: seq<Issue>, now: int, dateOf: int -> Date, t: Tallies, progressTenths: int, estimate: Estimate)
    requires t == Accumulate(issues, now)
    requires progressTenths == Progress(Get(t.statusCount, DoneStatus), |issues|)
    requires estimate == EstimateDays(|issues|, Get(t.statusCount, DoneStatus), t.recentCompletions, now, dateOf)
    ensures SprintAnalysis(issues, now, dateOf)
            == Analysis(|issues|, Get(t.statusCount, DoneStatus), progressTenths,
                        t.statusCount, t.devWorkload, t.devCompleted, t.devInProgress, t.priorityCount, t.issueTypes,
                        t.recentCompletions, t.blockedIssues, t.unassignedIssues, estimate)
  {
  }

  /** `analyze_sprint_data`: the loop, then the progress figures and the estimate. */
  method AnalyzeSprintData(issues: seq<Issue>, now: int, dateOf: int -> Date) returns (a: Analysis)
    ensures a == SprintAnalysis(issues, now, dateOf)
  {
    var t := Tabulate(issues, now);

    var totalIssues := |issues|;
    var completedIssues := Get(t.statusCount, DoneStatus);
    var progressTenths := if totalIssues > 0 then PercentTenths(completedIssues, totalIssues) else 0;
    assert progressTenths == Progress(completedIssues, totalIssues);

    var estimatedDays := EstimateCompletion(totalIssues, completedIssues, t.recentCompletions, now, dateOf);

    AnalysisFromTallies(issues, now, dateOf, t, progressTenths, estimatedDays);
    a := Analysis(totalIssues, completedIssues, progressTenths,
                  t.statusCount, t.devWorkload, t.devCompleted, t.devInProgress, t.priorityCount, t.issueTypes,
                  t.recentCompletions, t.blockedIssues, t.unassignedIssues, estimatedDays);
  }

}
