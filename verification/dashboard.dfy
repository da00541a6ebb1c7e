/** The overview page of `src/components/dashboard/dashboard.tsx`: the
    counters, the four panels, the thread cards and the loading outcome. */
module Dashboard {
  import opened Base
  import opened Types

  /** Badge colours of the dashboard and the request list. Approved and Work
      Completed share one blue. */
  function BadgePalette(st: RequestStatus): string {
    match st
    case Pending => "bg-[#FFD700] text-black hover:bg-[#FFD700]/80"
    case Approved => "bg-[#0089D9] text-white hover:bg-[#0089D9]/80"
    case Working => "bg-[#00852B] text-white hover:bg-[#00852B]/80"
    case WorkCompleted => "bg-[#0089D9] text-white hover:bg-[#0089D9]/80"
    case PaymentPending => "bg-[#FF8000] text-black hover:bg-[#FF8000]/80"
    case PaymentDone => "bg-[#4CAF50] text-white hover:bg-[#4CAF50]/80"
    case Rejected => "bg-[#C91A0B] text-white hover:bg-[#C91A0B]/80"
    case Overdue => "bg-[#AF1A25] text-white hover:bg-[#AF1A25]/80"
  }

  const BadgeFallback := "bg-gray-400 text-gray-900"

  /** Three digits of the hex colour inside the brackets, enough to tell the
      colours apart. */
  function Hex(cls: string): string {
    if |cls| >= 11 then [cls[7], cls[8], cls[10]] else cls
  }

  /** Two statuses share a badge exactly when they are the same status or
      are Approved and Work Completed. */
  lemma BadgeShared(a: RequestStatus, b: RequestStatus)
    ensures BadgePalette(a) == BadgePalette(b) <==> a == b || (SharesBlue(a) && SharesBlue(b))
  {
    if BadgePalette(a) == BadgePalette(b) {
      SameBadgeSameColour(a, b);
    } else if a == b || (SharesBlue(a) && SharesBlue(b)) {
      BlueBadges(a, b);
    }
  }

  predicate SharesBlue(st: RequestStatus) {
    st == Approved || st == WorkCompleted
  }

  lemma SameBadgeSameColour(a: RequestStatus, b: RequestStatus)
    requires BadgePalette(a) == BadgePalette(b)
    ensures a == b || (SharesBlue(a) && SharesBlue(b))
  {
    assert Hex(BadgePalette(a)) == Hex(BadgePalette(b));
  }

  lemma BlueBadges(a: RequestStatus, b: RequestStatus)
    requires a == b || (SharesBlue(a) && SharesBlue(b))
    ensures BadgePalette(a) == BadgePalette(b)
  {
    if a != b {
      assert BadgePalette(Approved) == BadgePalette(WorkCompleted);
    }
  }

  lemma BadgeNotFallback(a: RequestStatus)
    ensures BadgePalette(a) != BadgeFallback
  {
    assert BadgeFallback[3] == 'g';
    match a {
      case Pending => case Approved => case Working => case WorkCompleted =>
      case PaymentPending => case PaymentDone => case Rejected => case Overdue =>
    }
  }

  /** `getStatusClass` of the dashboard: case-insensitive. */
  function StatusClass(status: string): (r: string)
    ensures forall st: RequestStatus :: ToLower(status) == LowerName(st) ==> r == BadgePalette(st)
    ensures (forall st: RequestStatus :: ToLower(status) != LowerName(st)) ==> r == BadgeFallback
  {
    StatusIgnoringCaseUnique(status);
    match StatusIgnoringCase(status)
    case Some(st) => BadgePalette(st)
    case None => BadgeFallback
  }

  /** One thread of a dashboard panel, as the backend sends it. */
  datatype ThreadSummary = ThreadSummary(
    threadNumber: int,
    title: string,
    createdByName: string,
    dueDate: Option<string>,
    status: string)

  /** One reminder of today's reminder panel. */
  datatype ReminderSummary = ReminderSummary(
    id: int,
    workThreadNumber: string,
    reminderAt: string,
    title: string,
    message: string)

  datatype Section = Section(count: int, threads: Option<seq<ThreadSummary>>)
  datatype ReminderSection = ReminderSection(count: int, reminders: Option<seq<ReminderSummary>>)

  /** The counts payload. The three "today" sections are read through
      optional chaining; `overdue` is read through it for its threads but
      without a guard for its count. */
  datatype DashboardData = DashboardData(
    totalRequests: int,
    pending: int,
    working: int,
    workCompleted: int,
    paymentPending: int,
    paymentDone: int,
    rejected: int,
    overdue: Option<Section>,
    todaysPendency: Option<Section>,
    todaysWork: Option<Section>,
    todaysReminders: Option<ReminderSection>)

  /** The eight counter tiles. */
  datatype Stats = Stats(
    total: int,
    pending: int,
    working: int,
    workCompleted: int,
    paymentPending: int,
    paymentDone: int,
    rejected: int,
    overdue: int)

  const NoStats := Stats(0, 0, 0, 0, 0, 0, 0, 0)

  /** The tiles: zeros before any data, otherwise the backend's counts.
      None is the TypeError `dashboardData.overdue.count` raises when the
      payload has no `overdue` section. */
  function StatsOf(data: Option<DashboardData>): (r: Option<Stats>)
    ensures r.None? <==> data.Some? && data.value.overdue.None?
    ensures data.None? ==> r == Some(NoStats)
    ensures data.Some? && r.Some? ==>
              (r.value.total == data.value.totalRequests && r.value.pending == data.value.pending &&
               r.value.working == data.value.working && r.value.workCompleted == data.value.workCompleted &&
               r.value.paymentPending == data.value.paymentPending && r.value.paymentDone == data.value.paymentDone &&
               r.value.rejected == data.value.rejected)
    ensures data.Some? && r.Some? ==> r.value.overdue == data.value.overdue.value.count
  {
    match data
    case None => Some(NoStats)
    case Some(d) =>
      if d.overdue.None? then None
      else
        Some(Stats(d.totalRequests, d.pending, d.working, d.workCompleted, d.paymentPending,
                   d.paymentDone, d.rejected, d.overdue.value.count))
  }

  /** `section?.threads || []`: the sent list, or none when the section or
      its list is missing. */
  function ThreadsOf(s: Option<Section>): (r: seq<ThreadSummary>)
    ensures s.Some? && s.value.threads.Some? ==> r == s.value.threads.value
    ensures s.None? || s.value.threads.None? ==> r == []
  {
    if s.Some? && s.value.threads.Some? then s.value.threads.value else []
  }

  /** `todays_reminders?.reminders || []`. */
  function RemindersOf(s: Option<ReminderSection>): (r: seq<ReminderSummary>)
    ensures s.Some? && s.value.reminders.Some? ==> r == s.value.reminders.value
    ensures s.None? || s.value.reminders.None? ==> r == []
  {
    if s.Some? && s.value.reminders.Some? then s.value.reminders.value else []
  }

  /** The four lists behind the panels. */
  datatype Panels = Panels(
    reminders: seq<ReminderSummary>,
    pendency: seq<ThreadSummary>,
    overdue: seq<ThreadSummary>,
    work: seq<ThreadSummary>)

  /** Each list is the one the backend sent, or empty when its section or
      list is missing or no data has arrived. */
  function PanelsOf(data: Option<DashboardData>): (r: Panels)
    ensures data.None? ==> r == Panels([], [], [], [])
    ensures data.Some? ==>
              r.reminders == RemindersOf(data.value.todaysReminders) &&
              r.pendency == ThreadsOf(data.value.todaysPendency) &&
              r.overdue == ThreadsOf(data.value.overdue) &&
              r.work == ThreadsOf(data.value.todaysWork)
  {
    match data
    case None => Panels([], [], [], [])
    case Some(d) =>
      Panels(RemindersOf(d.todaysReminders), ThreadsOf(d.todaysPendency), ThreadsOf(d.overdue), ThreadsOf(d.todaysWork))
  }

  /** What a panel shows: its cards, or its placeholder line when it has none. */
  datatype Panel<T> = Cards(items: seq<T>) | Placeholder(text: string)

  function PanelOf<T>(items: seq<T>, placeholder: string): (r: Panel<T>)
    ensures r.Placeholder? <==> |items| == 0
    ensures r.Cards? ==> r.items == items
    ensures r.Placeholder? ==> r.text == placeholder
  {
    if |items| > 0 then Cards(items) else Placeholder(placeholder)
  }

  /** `"TR-" + String(n).padStart(3, "0")`. */
  function ThreadLabel(n: int): (r: string)
    ensures |r| >= 4 && r[..3] == "TR-"
  {
    "TR-" + PadStart(IntToString(n), 3, '0')
  }

  /** A thread label reads back to its number: after "TR-" come only digits,
      at least three of them, and their value is the thread number. */
  lemma ThreadLabelReadsBack(n: nat)
    ensures |ThreadLabel(n)| >= 6
    ensures forall i :: 3 <= i < |ThreadLabel(n)| ==> IsDigit(ThreadLabel(n)[i])
    ensures ParseNat(ThreadLabel(n)[3..]) == n
  {
    var tag := ThreadLabel(n);
    assert tag[3..] == PadStart(NatToString(n), 3, '0');
    ParsePadded(n, 3);
  }

  /** Below 1000 every label has the fixed width "TR-ddd". */
  lemma ThreadLabelWidth(n: nat)
    requires n < 1000
    ensures |ThreadLabel(n)| == 6
  {
    assert Pow10(3) == 1000;
    PaddedWidth(n, 3);
  }

  /** Different threads never share a label. */
  lemma ThreadLabelInjective(a: nat, b: nat)
    requires ThreadLabel(a) == ThreadLabel(b)
    ensures a == b
  {
    ThreadLabelReadsBack(a);
    ThreadLabelReadsBack(b);
  }

  /** A thread card on the dashboard. */
  datatype ThreadCard = ThreadCard(
    tag: string,
    link: string,
    title: string,
    createdByName: string,
    due: Option<string>,
    statusClass: Option<string>)

  /** `RequestThreadCard`: the link uses the bare thread number, the label the
      padded one; the due date shows only when set. */
  function CardOf(t: ThreadSummary, showStatus: bool): (r: ThreadCard)
    ensures r.tag == ThreadLabel(t.threadNumber)
    ensures r.link == "/dashboard/requests/" + IntToString(t.threadNumber)
    ensures r.title == t.title && r.createdByName == t.createdByName
    ensures r.due.Some? <==> Truthy(t.dueDate)
    ensures r.due.Some? ==> r.due == t.dueDate
    ensures r.statusClass.Some? <==> showStatus
    ensures r.statusClass.Some? ==> r.statusClass.value == StatusClass(t.status)
  {
    ThreadCard(
      ThreadLabel(t.threadNumber),
      "/dashboard/requests/" + IntToString(t.threadNumber),
      t.title,
      t.createdByName,
      if Truthy(t.dueDate) then t.dueDate else None,
      if showStatus then Some(StatusClass(t.status)) else None)
  }

  /** The reply to the counts request: an HTTP status with a body, or a
      failure before any reply (whose message may be empty). */
  datatype Reply = Reply(status: int, body: DashboardData) | Unreachable(message: string)

  datatype LoadOutcome =
    | Redirected(expired: bool)
    | LoadFailed(description: string)
    | Loaded(data: DashboardData)

  predicate Ok(status: int) {
    200 <= status <= 299
  }

  const FetchFailedText := "Failed to fetch dashboard data."
  const LoadFailedText := "Could not load dashboard data."

  /** `fetchData`. Without a token nothing is requested and the user is sent
      to the sign-in page; a 401 sends them there too, as an expired session. */
  function Load(token: Option<string>, reply: Reply): (r: LoadOutcome)
    ensures r.Redirected? <==> !HasToken(token) || (reply.Reply? && reply.status == 401)
    ensures r.Redirected? ==> (r.expired <==> HasToken(token))
    ensures r.Loaded? <==> HasToken(token) && reply.Reply? && Ok(reply.status)
    ensures r.Loaded? ==> r.data == reply.body
    ensures r.LoadFailed? ==> r.description != ""
    ensures HasToken(token) && reply.Reply? && !Ok(reply.status) && reply.status != 401 ==>
              r == LoadFailed(FetchFailedText)
    ensures HasToken(token) && reply.Unreachable? ==>
              r == LoadFailed(if reply.message != "" then reply.message else LoadFailedText)
  {
    if !HasToken(token) then Redirected(false)
    else match reply
      case Reply(status, body) =>
        if Ok(status) then Loaded(body)
        else if status == 401 then Redirected(true)
        else LoadFailed(OrElse(FetchFailedText, LoadFailedText))
      case Unreachable(message) => LoadFailed(OrElse(message, LoadFailedText))
  }

  /** The page's data after a load: replaced on success, kept otherwise. */
  function DataAfter(prior: Option<DashboardData>, outcome: LoadOutcome): (r: Option<DashboardData>)
    ensures outcome.Loaded? ==> r == Some(outcome.data)
    ensures !outcome.Loaded? ==> r == prior
  {
    if outcome.Loaded? then Some(outcome.data) else prior
  }

  const NoRemindersText := "No reminders for today."
  const NoPendencyText := "No pending requests for today."
  const NoOverdueText := "No overdue threads."
  const NoWorkText := "No new threads created today."

  /** What the page shows: the loading skeleton, nothing (the render threw),
      or the tiles over the four panels. */
  datatype Page =
    | Skeleton
    | Crashed
    | Board(stats: Stats,
            reminders: Panel<ReminderSummary>,
            pendency: Panel<ThreadSummary>,
            overdue: Panel<ThreadSummary>,
            work: Panel<ThreadSummary>)

  /** The page for the data it holds and its loading flag. The counts are
      read in the component body, before the loading test, so a payload
      without `overdue` crashes the page even while it is loading. */
  function PageOf(data: Option<DashboardData>, loading: bool): (r: Page)
    ensures r.Crashed? <==> StatsOf(data).None?
    ensures r.Skeleton? <==> loading && StatsOf(data).Some?
    ensures r.Board? ==> r.stats == StatsOf(data).value
    ensures r.Board? ==>
              r.reminders == PanelOf(PanelsOf(data).reminders, NoRemindersText) &&
              r.pendency == PanelOf(PanelsOf(data).pendency, NoPendencyText) &&
              r.overdue == PanelOf(PanelsOf(data).overdue, NoOverdueText) &&
              r.work == PanelOf(PanelsOf(data).work, NoWorkText)
  {
    match StatsOf(data)
    case None => Crashed
    case Some(stats) =>
      if loading then Skeleton
      else
        var p := PanelsOf(data);
        Board(stats, PanelOf(p.reminders, NoRemindersText), PanelOf(p.pendency, NoPendencyText),
              PanelOf(p.overdue, NoOverdueText), PanelOf(p.work, NoWorkText))
  }

  /** The page after the first load. The page starts loading; `finally`
      clears the flag on every path through the `try`, but the no-token path
      returns before it, so that page stays on the skeleton. */
  function PageAfterLoad(token: Option<string>, reply: Reply): (r: Page)
    ensures r.Skeleton? <==> !HasToken(token)
    ensures Load(token, reply).Loaded? ==> r == PageOf(Some(reply.body), false)
    ensures HasToken(token) && !Load(token, reply).Loaded? ==> r == PageOf(None, false)
  {
    var outcome := Load(token, reply);
    PageOf(DataAfter(None, outcome), outcome == Redirected(false))
  }

  /** A first load that fails with a token leaves every tile at zero and
      every panel on its placeholder; without a token the skeleton stays. */
  lemma FailedFirstLoadShowsNothing(token: Option<string>, reply: Reply)
    requires !Load(token, reply).Loaded?
    ensures !HasToken(token) ==> PageAfterLoad(token, reply) == Skeleton
    ensures HasToken(token) ==>
              PageAfterLoad(token, reply) ==
              Board(NoStats, Placeholder(NoRemindersText), Placeholder(NoPendencyText),
                    Placeholder(NoOverdueText), Placeholder(NoWorkText))
  {
  }

  /** A successful load with an `overdue` section shows the counts and
      every non-empty list as cards; one without it crashes the page. */
  lemma LoadedBoardShowsData(token: Option<string>, reply: Reply)
    requires Load(token, reply).Loaded?
    ensures reply.Reply? && (PageAfterLoad(token, reply).Crashed? <==> reply.body.overdue.None?)
    ensures reply.Reply? && PageAfterLoad(token, reply).Board? ==>
              PageAfterLoad(token, reply).stats.total == reply.body.totalRequests &&
              PageAfterLoad(token, reply).stats.overdue == reply.body.overdue.value.count
    ensures reply.Reply? && PageAfterLoad(token, reply).Board? && |ThreadsOf(reply.body.todaysPendency)| > 0 ==>
              PageAfterLoad(token, reply).pendency == Cards(ThreadsOf(reply.body.todaysPendency))
  {
  }
}
