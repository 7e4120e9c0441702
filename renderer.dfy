/**
 * The Discord report (`create_discord_message`): the summary, the status and
 * developer tables, the recent completions (first five), the blocked issues
 * (all of them, or the all-clear note), the unassigned issues (first three),
 * the priority and type tables and the recommended actions.
 *
 * The message is a sequence of lines; each line keeps the values the report
 * prints and leaves out the fixed wording, emoji decoration and date stamps.
 */
module Renderer {
  import opened Text
  import opened Counters
  import opened Rounding
  import opened Analyzer

  /** The status markers of `get_status_emoji`. */
  const StatusEmojis: map<string, string> := map[
    "A FAZER" := "📋", "TODO" := "📋",
    "EM ANDAMENTO" := "🔄", "IN PROGRESS" := "🔄",
    "EM REVISÃO" := "👀", "IN REVIEW" := "👀",
    "AGUARDANDO DEPLOY" := "⏳", "WAITING" := "⏳",
    "Done" := "✅", "CONCLUÍDO" := "✅",
    "IMPEDIMENTO" := "🚫", "BLOCKED" := "🚫"]

  const DefaultStatusEmoji: string := "📌"

  /** The priority markers of `get_priority_emoji`. */
  const PriorityEmojis: map<string, string> := map[
    "Highest" := "🔴", "High" := "🟠", "Medium" := "🟡", "Low" := "🟢", "Lowest" := "⚪"]

  const DefaultPriorityEmoji: string := "⚪"

  /** Recent completions shown before the remainder line. */
  const RecentShown: nat := 5
  /** Unassigned issues shown before the remainder line. */
  const UnassignedShown: nat := 3
  /** `progress_percent < 50`, in tenths of a percent. */
  const SlowProgress: int := 500

  /** `emojis.get(status, '📌')`: the default marker is used exactly for unknown statuses. */
  function StatusEmoji(status: string): (e: string)
    ensures status in StatusEmojis ==> e == StatusEmojis[status]
    ensures e == DefaultStatusEmoji <==> status !in StatusEmojis
  {
    if status in StatusEmojis then StatusEmojis[status] else DefaultStatusEmoji
  }

  /**
   * `emojis.get(priority, '⚪')`: unknown priorities share the marker of
   * "Lowest" and no other priority has it.
   */
  function PriorityEmoji(priority: string): (e: string)
    ensures priority in PriorityEmojis ==> e == PriorityEmojis[priority]
    ensures e == DefaultPriorityEmoji <==> priority !in PriorityEmojis || priority == "Lowest"
  {
    if priority in PriorityEmojis then PriorityEmojis[priority] else DefaultPriorityEmoji
  }

  /** A line of the report and the values it prints. */
  datatype Line =
    | Summary(total: nat, completed: nat, progressTenths: int, remaining: int, estimate: Estimate)
    | StatusHeading
    | StatusLine(emoji: string, status: string, count: nat, percentTenths: int)
    | DevHeading
    | DevLine(dev: string, total: nat, completed: nat, rateTenths: int, inProgress: nat, pending: int)
    | RecentHeading
    | NoRecentCompletions
    | BlockedHeading(count: nat)
    | NoBlockers
    | UnassignedHeading(count: nat)
    | Item(section: Section, entry: ListedIssue)
    | More(section: Section, hidden: int)
    | PriorityHeading
    | PriorityLine(emoji: string, priority: string, count: nat)
    | TypeHeading
    | TypeLine(issueType: string, count: nat)
    | ActionsHeading
    | AssignAction(count: nat)
    | ResolveAction(count: nat)
    | AccelerateAction
    | Signature

  /** The four tables of the report, one line per counter entry. */
  datatype Table = StatusTable | DevTable | PriorityTable | TypeTable

  predicate IsRow(l: Line)
  {
    l.StatusLine? || l.DevLine? || l.PriorityLine? || l.TypeLine?
  }

  /** What the status percentage divides by must be positive whenever there is a status row. */
  predicate Renderable(a: Analysis)
  {
    a.statusCount != [] ==> a.totalIssues >= 1
  }

  /** The line of table `t` for counter entry `e`. */
  function RowFor(t: Table, e: Entry, a: Analysis): Line
    requires t == StatusTable ==> a.totalIssues >= 1
  {
    match t
    case StatusTable =>
      StatusLine(StatusEmoji(e.name), e.name, e.count, PercentTenths(e.count, a.totalIssues))
    case DevTable =>
      var completed := Get(a.devCompleted, e.name);
      var inProgress := Get(a.devInProgress, e.name);
      var rate := if e.count > 0 then PercentTenths(completed, e.count) else 0;
      DevLine(e.name, e.count, completed, rate, inProgress, e.count - completed - inProgress)
    case PriorityTable => PriorityLine(PriorityEmoji(e.name), e.name, e.count)
    case TypeTable => TypeLine(e.name, e.count)
  }

  /** The lines of table `t` for the entries of `c`, in the counter's order. */
  function Rows(t: Table, c: Counter, a: Analysis): seq<Line>
    requires t == StatusTable && c != [] ==> a.totalIssues >= 1
  {
    if c == [] then [] else Rows(t, c[..|c| - 1], a) + [RowFor(t, c[|c| - 1], a)]
  }

  /** One item line per entry, in order. */
  function Items(s: Section, entries: seq<ListedIssue>): seq<Line>
  {
    if entries == [] then [] else Items(s, entries[..|entries| - 1]) + [Item(s, entries[|entries| - 1])]
  }

  /** The remainder line after the first `shown` entries of a list of `n`. */
  function Remainder(s: Section, n: nat, shown: nat): seq<Line>
  {
    if n > shown then [More(s, n - shown)] else []
  }

  function Header(a: Analysis): seq<Line>
    requires Renderable(a)
  {
    [Summary(a.totalIssues, a.completedIssues, a.progressTenths, a.totalIssues - a.completedIssues, a.estimatedDays),
     StatusHeading]
    + Rows(StatusTable, a.statusCount, a)
    + [DevHeading]
    + Rows(DevTable, a.devWorkload, a)
  }

  function RecentSection(a: Analysis): seq<Line>
  {
    var r := a.recentCompletions;
    if r != [] then [RecentHeading] + Items(RecentList, r[..Min(RecentShown, |r|)]) + Remainder(RecentList, |r|, RecentShown)
    else [NoRecentCompletions]
  }

  function BlockedSection(a: Analysis): seq<Line>
  {
    var b := a.blockedIssues;
    if b != [] then [BlockedHeading(|b|)] + Items(BlockedList, b) else [NoBlockers]
  }

  function UnassignedSection(a: Analysis): seq<Line>
  {
    var u := a.unassignedIssues;
    if u != [] then [UnassignedHeading(|u|)] + Items(UnassignedList, u[..Min(UnassignedShown, |u|)])
                    + Remainder(UnassignedList, |u|, UnassignedShown)
    else []
  }

  /** The recommended actions, each present exactly when its condition holds. */
  function Actions(a: Analysis): seq<Line>
  {
    (if a.unassignedIssues != [] then [AssignAction(|a.unassignedIssues|)] else [])
    + (if a.blockedIssues != [] then [ResolveAction(|a.blockedIssues|)] else [])
    + (if a.progressTenths < SlowProgress then [AccelerateAction] else [])
  }

  /** The priority and issue type tables. */
  function Breakdown(a: Analysis): seq<Line>
  {
    [PriorityHeading] + Rows(PriorityTable, a.priorityCount, a) + [TypeHeading] + Rows(TypeTable, a.issueTypes, a)
  }

  function Closing(a: Analysis): seq<Line>
  {
    [ActionsHeading] + Actions(a) + [Signature]
  }

  /** The report for analysis `a`, line by line. */
  function Report(a: Analysis): seq<Line>
    requires Renderable(a)
  {
    Header(a) + RecentSection(a) + BlockedSection(a) + UnassignedSection(a) + Breakdown(a) + Closing(a)
  }

  // ---------------------------------------------------------------------------
  // Properties of the report

  lemma {:induction false} RowsMembers(t: Table, c: Counter, a: Analysis, l: Line)
    requires t == StatusTable && c != [] ==> a.totalIssues >= 1
    requires l in Rows(t, c, a)
    ensures IsRow(l)
    ensures exists i :: 0 <= i < |c| && l == RowFor(t, c[i], a)
  {
    var init := c[..|c| - 1];
    if l in Rows(t, init, a) {
      RowsMembers(t, init, a, l);
      var i :| 0 <= i < |init| && l == RowFor(t, init[i], a);
      assert c[i] == init[i];
    } else {
      assert l == RowFor(t, c[|c| - 1], a);
    }
  }

  lemma {:induction false} ItemsMembers(s: Section, entries: seq<ListedIssue>, l: Line)
    ensures l in Items(s, entries) <==> l.Item? && l.section == s && l.entry in entries
  {
    if entries != [] {
      var init := entries[..|entries| - 1];
      ItemsMembers(s, init, l);
      assert entries == init + [entries[|entries| - 1]];
    }
  }

  /** The entries shown for section `s`, in the order of the lines. */
  function Shown(lines: seq<Line>, s: Section): seq<ListedIssue>
  {
    if lines == [] then []
    else
      var l := lines[|lines| - 1];
      Shown(lines[..|lines| - 1], s) + (if l.Item? && l.section == s then [l.entry] else [])
  }

  lemma {:induction false} ShownAppend(xs: seq<Line>, ys: seq<Line>, s: Section)
    ensures Shown(xs + ys, s) == Shown(xs, s) + Shown(ys, s)
    decreases |ys|
  {
    if ys == [] {
      assert xs + ys == xs;
    } else {
      var init := ys[..|ys| - 1];
      assert (xs + ys)[..|xs + ys| - 1] == xs + init;
      ShownAppend(xs, init, s);
    }
  }

  lemma {:induction false} ShownNone(lines: seq<Line>, s: Section)
    requires forall l :: l in lines ==> !l.Item?
    ensures Shown(lines, s) == []
  {
    if lines != [] {
      ShownNone(lines[..|lines| - 1], s);
    }
  }

  lemma {:induction false} ShownItems(s: Section, entries: seq<ListedIssue>, t: Section)
    ensures Shown(Items(s, entries), t) == if s == t then entries else []
  {
    if entries != [] {
      var init := entries[..|entries| - 1];
      ShownItems(s, init, t);
      ShownAppend(Items(s, init), [Item(s, entries[|entries| - 1])], t);
      assert [Item(s, entries[|entries| - 1])][..0] == [];
      assert entries == init + [entries[|entries| - 1]];
    }
  }

  lemma ShownRows(t: Table, c: Counter, a: Analysis, s: Section)
    requires t == StatusTable && c != [] ==> a.totalIssues >= 1
    ensures Shown(Rows(t, c, a), s) == []
  {
    forall l | l in Rows(t, c, a) ensures !l.Item? {
      RowsMembers(t, c, a, l);
    }
    ShownNone(Rows(t, c, a), s);
  }

  lemma HeaderLines(a: Analysis, l: Line)
    requires Renderable(a) && l in Header(a)
    ensures l.Summary? || l == StatusHeading || l == DevHeading || IsRow(l)
  {
    if l in Rows(StatusTable, a.statusCount, a) { RowsMembers(StatusTable, a.statusCount, a, l); }
    if l in Rows(DevTable, a.devWorkload, a) { RowsMembers(DevTable, a.devWorkload, a, l); }
  }

  lemma BreakdownLines(a: Analysis, l: Line)
    requires l in Breakdown(a)
    ensures l == PriorityHeading || l == TypeHeading || IsRow(l)
  {
    if l in Rows(PriorityTable, a.priorityCount, a) { RowsMembers(PriorityTable, a.priorityCount, a, l); }
    if l in Rows(TypeTable, a.issueTypes, a) { RowsMembers(TypeTable, a.issueTypes, a, l); }
  }

  /** The header, the breakdown tables and the closing show no list entries. */
  lemma ShownOutsideLists(a: Analysis, s: Section)
    requires Renderable(a)
    ensures Shown(Header(a), s) == [] && Shown(Breakdown(a), s) == [] && Shown(Closing(a), s) == []
  {
    forall l | l in Header(a) ensures !l.Item? {
      HeaderLines(a, l);
    }
    forall l | l in Breakdown(a) ensures !l.Item? {
      BreakdownLines(a, l);
    }
    ShownNone(Header(a), s);
    ShownNone(Breakdown(a), s);
    ShownNone(Closing(a), s);
  }

  /** A list section: a heading, the shown entries, then an optional remainder line. */
  lemma ShownSection(head: seq<Line>, s: Section, entries: seq<ListedIssue>, rest: seq<Line>, t: Section)
    requires forall l :: l in head ==> !l.Item?
    requires forall l :: l in rest ==> !l.Item?
    ensures Shown(head + Items(s, entries) + rest, t) == if s == t then entries else []
  {
    ShownAppend(head + Items(s, entries), rest, t);
    ShownAppend(head, Items(s, entries), t);
    ShownNone(head, t);
    ShownNone(rest, t);
    ShownItems(s, entries, t);
  }

  lemma ShownLists(a: Analysis, s: Section)
    ensures Shown(RecentSection(a), s)
            == if s == RecentList then a.recentCompletions[..Min(RecentShown, |a.recentCompletions|)] else []
    ensures Shown(BlockedSection(a), s) == if s == BlockedList then a.blockedIssues else []
    ensures Shown(UnassignedSection(a), s)
            == if s == UnassignedList then a.unassignedIssues[..Min(UnassignedShown, |a.unassignedIssues|)] else []
  {
    var r, b, u := a.recentCompletions, a.blockedIssues, a.unassignedIssues;
    if r != [] {
      ShownSection([RecentHeading], RecentList, r[..Min(RecentShown, |r|)], Remainder(RecentList, |r|, RecentShown), s);
    } else {
      ShownNone(RecentSection(a), s);
    }
    if b != [] {
      ShownSection([BlockedHeading(|b|)], BlockedList, b, [], s);
      assert BlockedSection(a) == [BlockedHeading(|b|)] + Items(BlockedList, b) + [];
    } else {
      ShownNone(BlockedSection(a), s);
    }
    if u != [] {
      ShownSection([UnassignedHeading(|u|)], UnassignedList, u[..Min(UnassignedShown, |u|)],
                   Remainder(UnassignedList, |u|, UnassignedShown), s);
    } else {
      ShownNone(UnassignedSection(a), s);
    }
  }

  lemma ShownSixParts(h: seq<Line>, r: seq<Line>, b: seq<Line>, u: seq<Line>, k: seq<Line>, c: seq<Line>, s: Section)
    requires Shown(h, s) == [] && Shown(k, s) == [] && Shown(c, s) == []
    ensures Shown(h + r + b + u + k + c, s) == Shown(r, s) + Shown(b, s) + Shown(u, s)
  {
    ShownAppend(h + r + b + u + k, c, s);
    ShownAppend(h + r + b + u, k, s);
    ShownAppend(h + r + b, u, s);
    ShownAppend(h + r, b, s);
    ShownAppend(h, r, s);
  }

  lemma InSixParts(h: seq<Line>, r: seq<Line>, b: seq<Line>, u: seq<Line>, k: seq<Line>, c: seq<Line>, l: Line)
    ensures l in h + r + b + u + k + c <==> l in h || l in r || l in b || l in u || l in k || l in c
  {
  }

  /** A line of the report lies in one of its six parts. */
  lemma ReportParts(a: Analysis, l: Line)
    requires Renderable(a)
    ensures l in Report(a)
            <==> || l in Header(a) || l in RecentSection(a) || l in BlockedSection(a)
                 || l in UnassignedSection(a) || l in Breakdown(a) || l in Closing(a)
  {
    InSixParts(Header(a), RecentSection(a), BlockedSection(a), UnassignedSection(a), Breakdown(a), Closing(a), l);
  }

  /** Only the three list sections show entries. */
  lemma ShownReport(a: Analysis, s: Section)
    requires Renderable(a)
    ensures Shown(Report(a), s) == Shown(RecentSection(a), s) + Shown(BlockedSection(a), s) + Shown(UnassignedSection(a), s)
  {
    ShownOutsideLists(a, s);
    ShownSixParts(Header(a), RecentSection(a), BlockedSection(a), UnassignedSection(a), Breakdown(a), Closing(a), s);
  }

  /**
   * The report shows the first five recent completions, every blocked issue
   * and the first three unassigned issues, each in the analysis's order.
   */
  lemma ReportShows(a: Analysis)
    requires Renderable(a)
    ensures Shown(Report(a), RecentList) == a.recentCompletions[..Min(RecentShown, |a.recentCompletions|)]
    ensures Shown(Report(a), BlockedList) == a.blockedIssues
    ensures Shown(Report(a), UnassignedList) == a.unassignedIssues[..Min(UnassignedShown, |a.unassignedIssues|)]
  {
    ShownReport(a, RecentList);
    ShownLists(a, RecentList);
    ShownReport(a, BlockedList);
    ShownLists(a, BlockedList);
    ShownReport(a, UnassignedList);
    ShownLists(a, UnassignedList);
  }

  /** A line that is neither a table line nor a heading of one lies in the list sections or the closing. */
  lemma OutsideTables(a: Analysis, l: Line)
    requires Renderable(a)
    requires !IsRow(l) && !l.Summary?
    requires l !in {StatusHeading, DevHeading, PriorityHeading, TypeHeading}
    ensures l in Report(a)
            <==> l in RecentSection(a) || l in BlockedSection(a) || l in UnassignedSection(a) || l in Closing(a)
  {
    ReportParts(a, l);
    if l in Header(a) { HeaderLines(a, l); }
    if l in Breakdown(a) { BreakdownLines(a, l); }
  }

  /** The lines of the recent completions section other than its items. */
  lemma RecentLines(a: Analysis, l: Line)
    requires !l.Item?
    ensures var r := a.recentCompletions;
            l in RecentSection(a)
            <==> if r == [] then l == NoRecentCompletions
                 else l == RecentHeading || (|r| > RecentShown && l == More(RecentList, |r| - RecentShown))
  {
    var r := a.recentCompletions;
    ItemsMembers(RecentList, r[..Min(RecentShown, |r|)], l);
  }

  /** The lines of the blocked section other than its items. */
  lemma BlockedLines(a: Analysis, l: Line)
    requires !l.Item?
    ensures var b := a.blockedIssues;
            l in BlockedSection(a) <==> if b == [] then l == NoBlockers else l == BlockedHeading(|b|)
  {
    ItemsMembers(BlockedList, a.blockedIssues, l);
  }

  /** The lines of the unassigned section other than its items. */
  lemma UnassignedLines(a: Analysis, l: Line)
    requires !l.Item?
    ensures var u := a.unassignedIssues;
            l in UnassignedSection(a)
            <==> u != [] && (l == UnassignedHeading(|u|) || (|u| > UnassignedShown && l == More(UnassignedList, |u| - UnassignedShown)))
  {
    var u := a.unassignedIssues;
    ItemsMembers(UnassignedList, u[..Min(UnassignedShown, |u|)], l);
  }

  /** Where a line that is not a table line, a heading or an item can appear. */
  lemma ListAndClosingLines(a: Analysis, l: Line)
    requires Renderable(a)
    requires !IsRow(l) && !l.Summary? && !l.Item?
    requires l !in {StatusHeading, DevHeading, PriorityHeading, TypeHeading}
    ensures l in Report(a)
            <==> l in RecentSection(a) || l in BlockedSection(a) || l in UnassignedSection(a) || l in Closing(a)
    ensures var r, b, u := a.recentCompletions, a.blockedIssues, a.unassignedIssues;
            && (l in RecentSection(a)
                <==> if r == [] then l == NoRecentCompletions
                     else l == RecentHeading || (|r| > RecentShown && l == More(RecentList, |r| - RecentShown)))
            && (l in BlockedSection(a) <==> if b == [] then l == NoBlockers else l == BlockedHeading(|b|))
            && (l in UnassignedSection(a)
                <==> u != [] && (l == UnassignedHeading(|u|)
                                 || (|u| > UnassignedShown && l == More(UnassignedList, |u| - UnassignedShown))))
  {
    OutsideTables(a, l);
    RecentLines(a, l);
    BlockedLines(a, l);
    UnassignedLines(a, l);
  }

  /**
   * "... e mais N tarefas" follows the recent completions exactly when there
   * are more than five, with N the number not shown.
   */
  lemma RecentRemainder(a: Analysis, n: int)
    requires Renderable(a)
    ensures var r := a.recentCompletions;
            More(RecentList, n) in Report(a) <==> |r| > RecentShown && n == |r| - RecentShown
  {
    ListAndClosingLines(a, More(RecentList, n));
  }

  /** Likewise after the unassigned issues when there are more than three. */
  lemma UnassignedRemainder(a: Analysis, n: int)
    requires Renderable(a)
    ensures var u := a.unassignedIssues;
            More(UnassignedList, n) in Report(a) <==> |u| > UnassignedShown && n == |u| - UnassignedShown
  {
    ListAndClosingLines(a, More(UnassignedList, n));
  }

  /** The all-clear note appears exactly when nothing is blocked. */
  lemma AllClearNote(a: Analysis)
    requires Renderable(a)
    ensures NoBlockers in Report(a) <==> a.blockedIssues == []
  {
    ListAndClosingLines(a, NoBlockers);
  }

  /** The note that nothing was completed appears exactly when there are no recent completions. */
  lemma NothingRecentNote(a: Analysis)
    requires Renderable(a)
    ensures NoRecentCompletions in Report(a) <==> a.recentCompletions == []
  {
    ListAndClosingLines(a, NoRecentCompletions);
  }

  /** The lines of the closing: the heading, the actions whose condition holds, the signature. */
  lemma ClosingLines(a: Analysis, l: Line)
    ensures var u, b := a.unassignedIssues, a.blockedIssues;
            l in Closing(a)
            <==> || l == ActionsHeading || l == Signature
                 || (u != [] && l == AssignAction(|u|))
                 || (b != [] && l == ResolveAction(|b|))
                 || (a.progressTenths < SlowProgress && l == AccelerateAction)
  {
  }

  /** "Atribuir responsáveis para N tarefas" appears exactly when N issues are unassigned, N > 0. */
  lemma AssignActionRule(a: Analysis, n: nat)
    requires Renderable(a)
    ensures AssignAction(n) in Report(a) <==> a.unassignedIssues != [] && n == |a.unassignedIssues|
  {
    ListAndClosingLines(a, AssignAction(n));
    ClosingLines(a, AssignAction(n));
  }

  /** "Resolver N impedimentos ativos" appears exactly when N issues are blocked, N > 0. */
  lemma ResolveActionRule(a: Analysis, n: nat)
    requires Renderable(a)
    ensures ResolveAction(n) in Report(a) <==> a.blockedIssues != [] && n == |a.blockedIssues|
  {
    ListAndClosingLines(a, ResolveAction(n));
    ClosingLines(a, ResolveAction(n));
  }

  /** "Acelerar desenvolvimento" appears exactly when the progress is below 50%. */
  lemma AccelerateActionRule(a: Analysis)
    requires Renderable(a)
    ensures AccelerateAction in Report(a) <==> a.progressTenths < SlowProgress
  {
    ListAndClosingLines(a, AccelerateAction);
    ClosingLines(a, AccelerateAction);
  }

  /** Table lines come from the four tables only. */
  lemma RowOrigin(a: Analysis, l: Line)
    requires Renderable(a) && l in Report(a) && IsRow(l)
    ensures || l in Rows(StatusTable, a.statusCount, a)
            || l in Rows(DevTable, a.devWorkload, a)
            || l in Rows(PriorityTable, a.priorityCount, a)
            || l in Rows(TypeTable, a.issueTypes, a)
  {
    ReportParts(a, l);
    RecentLines(a, l);
    BlockedLines(a, l);
    UnassignedLines(a, l);
    ClosingLines(a, l);
    if l in Header(a) {
      if l in Rows(StatusTable, a.statusCount, a) || l in Rows(DevTable, a.devWorkload, a) {
      } else {
        assert false;
      }
    } else {
      assert l in Breakdown(a);
    }
  }

  /** The figures of a status line: its marker, and a percentage between 0 and 100.0. */
  lemma StatusRow(a: Analysis, l: Line)
    requires Consistent(a) && l in Rows(StatusTable, a.statusCount, a)
    ensures l.StatusLine? && l.emoji == StatusEmoji(l.status) && 0 <= l.percentTenths <= 1000
  {
    RowsMembers(StatusTable, a.statusCount, a, l);
    var i :| 0 <= i < |a.statusCount| && l == RowFor(StatusTable, a.statusCount[i], a);
    assert a.statusCount[i] in a.statusCount;
    PercentBounds(a.statusCount[i].count, a.totalIssues);
  }

  /** The figures of a developer line: the three counts add up, none negative, and the rate is a percentage. */
  lemma DevRow(a: Analysis, l: Line)
    requires Consistent(a) && l in Rows(DevTable, a.devWorkload, a)
    ensures l.DevLine? && 0 <= l.pending && l.completed + l.inProgress + l.pending == l.total
    ensures 0 <= l.rateTenths <= 1000
  {
    RowsMembers(DevTable, a.devWorkload, a, l);
    var i :| 0 <= i < |a.devWorkload| && l == RowFor(DevTable, a.devWorkload[i], a);
    var e := a.devWorkload[i];
    assert e in a.devWorkload;
    if e.count > 0 {
      PercentBounds(Get(a.devCompleted, e.name), e.count);
    }
  }

  /** The table lines of a report, and the figures they print for a consistent analysis. */
  lemma TableLines(a: Analysis, l: Line)
    requires Consistent(a) && l in Report(a) && IsRow(l)
    ensures l.StatusLine? ==> l.emoji == StatusEmoji(l.status) && 0 <= l.percentTenths <= 1000
    ensures l.DevLine? ==> && 0 <= l.pending
                           && l.completed + l.inProgress + l.pending == l.total
                           && 0 <= l.rateTenths <= 1000
    ensures l.PriorityLine? ==> l.emoji == PriorityEmoji(l.priority)
  {
    RowOrigin(a, l);
    if l in Rows(StatusTable, a.statusCount, a) { StatusRow(a, l); }
    if l in Rows(DevTable, a.devWorkload, a) { DevRow(a, l); }
    if l in Rows(PriorityTable, a.priorityCount, a) {
      RowsMembers(PriorityTable, a.priorityCount, a, l);
    }
    if l in Rows(TypeTable, a.issueTypes, a) { RowsMembers(TypeTable, a.issueTypes, a, l); }
  }

  /**
   * The report of any sprint analysis can be rendered, and its table lines
   * print no negative pending count and no percentage above 100.0.
   */
  lemma SprintReport(issues: seq<Issue>, now: int, dateOf: int -> Date, l: Line)
    ensures Renderable(SprintAnalysis(issues, now, dateOf))
    ensures var a := SprintAnalysis(issues, now, dateOf);
            l in Report(a) && IsRow(l) ==>
              && (l.StatusLine? ==> 0 <= l.percentTenths <= 1000)
              && (l.DevLine? ==> 0 <= l.pending && 0 <= l.rateTenths <= 1000)
  {
    var a := SprintAnalysis(issues, now, dateOf);
    AnalysisConsistent(issues, now, dateOf);
    if l in Report(a) && IsRow(l) {
      TableLines(a, l);
    }
  }

  // ---------------------------------------------------------------------------
  // Building the message

  /** `create_discord_message`: appends the report's sections in order. */
  method CreateDiscordMessage(a: Analysis) returns (message: seq<Line>)
    requires Renderable(a)
    ensures message == Report(a)
  {
    message := [Summary(a.totalIssues, a.completedIssues, a.progressTenths,
                        a.totalIssues - a.completedIssues, a.estimatedDays),
                StatusHeading];
    message := AppendRows(message, StatusTable, a.statusCount, a);
    message := message + [DevHeading];
    message := AppendRows(message, DevTable, a.devWorkload, a);
    assert message == Header(a);
    message := AppendRecent(message, a);
    message := AppendBlocked(message, a);
    message := AppendUnassigned(message, a);
    ghost var before := message;
    message := message + [PriorityHeading];
    message := AppendRows(message, PriorityTable, a.priorityCount, a);
    message := message + [TypeHeading];
    message := AppendRows(message, TypeTable, a.issueTypes, a);
    assert message == before + Breakdown(a);
    message := AppendActions(message, a);
  }

  /** Recent completions: the first five, then how many more; or the note that there are none. */
  method AppendRecent(message: seq<Line>, a: Analysis) returns (m: seq<Line>)
    ensures m == message + RecentSection(a)
  {
    var recent := a.recentCompletions;
    if recent != [] {
      m := message + [RecentHeading];
      m := AppendItems(m, RecentList, recent[..Min(RecentShown, |recent|)]);
      if |recent| > RecentShown {
        m := m + [More(RecentList, |recent| - RecentShown)];
      }
    } else {
      m := message + [NoRecentCompletions];
    }
  }

  /** Blocked issues: all of them, or the all-clear note. */
  method AppendBlocked(message: seq<Line>, a: Analysis) returns (m: seq<Line>)
    ensures m == message + BlockedSection(a)
  {
    var blocked := a.blockedIssues;
    if blocked != [] {
      m := message + [BlockedHeading(|blocked|)];
      m := AppendItems(m, BlockedList, blocked);
    } else {
      m := message + [NoBlockers];
    }
  }

  /** Unassigned issues: the first three, then how many more; nothing when there are none. */
  method AppendUnassigned(message: seq<Line>, a: Analysis) returns (m: seq<Line>)
    ensures m == message + UnassignedSection(a)
  {
    m := message;
    var unassigned := a.unassignedIssues;
    if unassigned != [] {
      m := m + [UnassignedHeading(|unassigned|)];
      m := AppendItems(m, UnassignedList, unassigned[..Min(UnassignedShown, |unassigned|)]);
      if |unassigned| > UnassignedShown {
        m := m + [More(UnassignedList, |unassigned| - UnassignedShown)];
      }
    }
  }

  /** The recommended actions and the signature. */
  method AppendActions(message: seq<Line>, a: Analysis) returns (m: seq<Line>)
    ensures m == message + Closing(a)
  {
    m := message + [ActionsHeading];
    ghost var actions := m;
    if a.unassignedIssues != [] {
      m := m + [AssignAction(|a.unassignedIssues|)];
    }
    if a.blockedIssues != [] {
      m := m + [ResolveAction(|a.blockedIssues|)];
    }
    if a.progressTenths < SlowProgress {
      m := m + [AccelerateAction];
    }
    assert m == actions + Actions(a);
    m := m + [Signature];
  }

  /** One table loop: a line per entry of `c`, appended in order. */
  method AppendRows(message: seq<Line>, t: Table, c: Counter, a: Analysis) returns (m: seq<Line>)
    requires t == StatusTable && c != [] ==> a.totalIssues >= 1
    ensures m == message + Rows(t, c, a)
  {
    m := message;
    var i := 0;
    while i < |c|
      invariant 0 <= i <= |c|
      invariant m == message + Rows(t, c[..i], a)
    {
      var e := c[i];
      var line;
      match t {
        case StatusTable =>
          var percentage := PercentTenths(e.count, a.totalIssues);
          line := StatusLine(StatusEmoji(e.name), e.name, e.count, percentage);
        case DevTable =>
          var completed := Get(a.devCompleted, e.name);
          var inProgress := Get(a.devInProgress, e.name);
          var rate := if e.count > 0 then PercentTenths(completed, e.count) else 0;
          line := DevLine(e.name, e.count, completed, rate, inProgress, e.count - completed - inProgress);
        case PriorityTable =>
          line := PriorityLine(PriorityEmoji(e.name), e.name, e.count);
        case TypeTable =>
          line := TypeLine(e.name, e.count);
      }
      assert c[..i + 1][..i] == c[..i];
      m := m + [line];
      i := i + 1;
    }
    assert c[..i] == c;
  }

  /** One list loop: an item line per entry, appended in order. */
  method AppendItems(message: seq<Line>, s: Section, entries: seq<ListedIssue>) returns (m: seq<Line>)
    ensures m == message + Items(s, entries)
  {
    m := message;
    var i := 0;
    while i < |entries|
      invariant 0 <= i <= |entries|
      invariant m == message + Items(s, entries[..i])
    {
      assert entries[..i + 1][..i] == entries[..i];
      m := m + [Item(s, entries[i])];
      i := i + 1;
    }
    assert entries[..i] == entries;
  }
}
