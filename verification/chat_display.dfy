/** The conversation pane of `src/components/dashboard/chat/chat-display.tsx`:
    the welcome screen, the pane's parts, and the "set a reminder" dialog. */
module ChatDisplay {
  import opened Base
  import opened Types
  import ChatTopbar
  import ChatMessageList
  import ChatLayout

  /** The day picked in the date picker. `year` may be zero or negative. */
  datatype CalendarDate = CalendarDate(year: int, month: nat, day: nat)

  /** The year as the `yyyy` pattern of date-fns prints it: years before 1
      count backwards from 1 BC, so year 0 is 1 and year -1 is 2. */
  function YearNumber(year: int): (r: nat)
    ensures r >= 1
  {
    if year > 0 then year else 1 - year
  }

  /** `format(date, "yyyy-MM-dd")`. */
  function FormatDate(d: CalendarDate): string {
    PadStart(NatToString(YearNumber(d.year)), 4, '0') + "-" +
    PadStart(NatToString(d.month), 2, '0') + "-" +
    PadStart(NatToString(d.day), 2, '0')
  }

  /** `` `${formattedDate}T${reminderTime}:00` ``. */
  function ReminderAt(d: CalendarDate, time: string): (r: string)
    ensures |r| >= |time| + 4 && r[|r| - |time| - 4..] == "T" + time + ":00"
  {
    FormatDate(d) + "T" + time + ":00"
  }

  /** A date as a picker produces it, with a year of at most four digits. */
  predicate PickerDate(d: CalendarDate) {
    1 <= d.month <= 12 && 1 <= d.day <= 31 && YearNumber(d.year) < 10000
  }

  /** The reminder time reads back: "yyyy-MM-dd" in its ten fixed places,
      each field giving back its number, then "T", the time as typed, and
      ":00". */
  lemma ReminderAtReadsBack(d: CalendarDate, time: string)
    requires PickerDate(d)
    ensures |ReminderAt(d, time)| == 14 + |time|
    ensures ReminderAt(d, time)[4] == '-' && ReminderAt(d, time)[7] == '-' && ReminderAt(d, time)[10] == 'T'
    ensures forall i :: 0 <= i < 4 ==> IsDigit(ReminderAt(d, time)[i])
    ensures ParseNat(ReminderAt(d, time)[..4]) == YearNumber(d.year)
    ensures ReminderAt(d, time)[5..7] == PadStart(NatToString(d.month), 2, '0')
    ensures ParseNat(PadStart(NatToString(d.month), 2, '0')) == d.month
    ensures ReminderAt(d, time)[8..10] == PadStart(NatToString(d.day), 2, '0')
    ensures ParseNat(PadStart(NatToString(d.day), 2, '0')) == d.day
    ensures ReminderAt(d, time)[11..11 + |time|] == time
    ensures ReminderAt(d, time)[11 + |time|..] == ":00"
  {
    var y := PadStart(NatToString(YearNumber(d.year)), 4, '0');
    var m := PadStart(NatToString(d.month), 2, '0');
    var dd := PadStart(NatToString(d.day), 2, '0');
    assert Pow10(2) == 100 && Pow10(4) == 10000;
    PaddedWidth(YearNumber(d.year), 4);
    PaddedWidth(d.month, 2);
    PaddedWidth(d.day, 2);
    ParsePadded(YearNumber(d.year), 4);
    ParsePadded(d.month, 2);
    ParsePadded(d.day, 2);
    var r := ReminderAt(d, time);
    assert r == y + "-" + m + "-" + dd + "T" + time + ":00";
    assert r[..4] == y;
    assert r[5..7] == m;
    assert r[8..10] == dd;
    assert r[11..11 + |time|] == time;
    assert r[11 + |time|..] == ":00";
  }

  /** Two reminders at different days or times never share a time string. */
  lemma ReminderAtInjective(d1: CalendarDate, t1: string, d2: CalendarDate, t2: string)
    requires PickerDate(d1) && PickerDate(d2)
    requires ReminderAt(d1, t1) == ReminderAt(d2, t2)
    ensures YearNumber(d1.year) == YearNumber(d2.year) && d1.month == d2.month && d1.day == d2.day
    ensures t1 == t2
  {
    ReminderAtReadsBack(d1, t1);
    ReminderAtReadsBack(d2, t2);
    var r := ReminderAt(d1, t1);
    assert r[5..7] == PadStart(NatToString(d2.month), 2, '0');
    assert r[8..10] == PadStart(NatToString(d2.day), 2, '0');
  }

  /** The dialog's state. */
  datatype ReminderForm = ReminderForm(open: bool, date: Option<CalendarDate>, time: string, message: string)

  const ClosedForm := ReminderForm(false, None, "", "")

  /** The body posted to the reminders endpoint. */
  datatype ReminderPayload = ReminderPayload(workThread: int, reminderAt: string, message: string)

  /** The server's answer, if the request is sent: accepted, refused with an
      optional `detail`, or no answer at all. */
  datatype ReminderReply = Accepted | Refused(detail: Option<string>) | Unreachable(message: string)

  /** The toast the user sees. `ThreadUnreadable` is the runtime error raised
      when the open request has no backend thread to read the id from; its
      text comes from the JavaScript engine. */
  datatype ReminderNotice =
    | MissingFields
    | AuthenticationError
    | ReminderSet(at: string)
    | SetFailed(description: string)
    | ThreadUnreadable

  datatype ReminderResult = ReminderResult(form: ReminderForm, sent: Option<ReminderPayload>, notice: ReminderNotice)

  const FailedText := "Failed to set reminder."

  /** The message of the RangeError date-fns `format` throws for a date
      that is not a valid time. */
  const InvalidTimeValue := "Invalid time value"

  predicate FieldsFilled(form: ReminderForm) {
    form.date.Some? && form.time != "" && form.message != ""
  }

  /** `handleSetReminder`. The fields are checked before the token, the
      token before anything is sent. `reply` is consulted only if a request
      goes out. After the server accepts, the success toast formats
      `new Date(reminder_at)`; `atReadable` says whether that is a valid
      date (outside ECMAScript's date-time string format the answer depends
      on the engine). When it is not, `format` throws inside the `try`, the
      `catch` reports the failure, and the form is kept although the
      reminder was created. The form is cleared and closed only on a full
      success. */
  function SetReminder(request: Option<Request>, form: ReminderForm, token: Option<string>,
                       reply: ReminderReply, atReadable: bool): (r: ReminderResult)
    ensures r.notice == MissingFields <==> request.None? || !FieldsFilled(form)
    ensures r.notice == AuthenticationError <==> request.Some? && FieldsFilled(form) && !HasToken(token)
    ensures r.notice == ThreadUnreadable <==>
              request.Some? && FieldsFilled(form) && HasToken(token) && request.value.apiData.None?
    ensures r.sent.Some? <==>
              request.Some? && FieldsFilled(form) && HasToken(token) && request.value.apiData.Some?
    ensures r.sent.Some? ==>
              r.sent.value == ReminderPayload(request.value.apiData.value.id, ReminderAt(form.date.value, form.time), form.message)
    ensures r.notice.ReminderSet? <==> r.sent.Some? && reply == Accepted && atReadable
    ensures r.notice.ReminderSet? ==> r.notice.at == r.sent.value.reminderAt && r.form == ClosedForm
    ensures !r.notice.ReminderSet? ==> r.form == form
    ensures r.notice.SetFailed? <==> r.sent.Some? && (reply != Accepted || !atReadable)
    ensures r.sent.Some? && reply == Accepted && !atReadable ==> r.notice == SetFailed(InvalidTimeValue)
    ensures r.sent.Some? && reply.Refused? ==> r.notice == SetFailed(OptOrElse(reply.detail, FailedText))
    ensures r.sent.Some? && reply.Unreachable? ==> r.notice == SetFailed(reply.message)
  {
    if request.None? || !FieldsFilled(form) then ReminderResult(form, None, MissingFields)
    else if !HasToken(token) then ReminderResult(form, None, AuthenticationError)
    else if request.value.apiData.None? then ReminderResult(form, None, ThreadUnreadable)
    else
      var at := ReminderAt(form.date.value, form.time);
      var payload := ReminderPayload(request.value.apiData.value.id, at, form.message);
      match reply
      case Accepted =>
        if atReadable then ReminderResult(ClosedForm, Some(payload), ReminderSet(at))
        else ReminderResult(form, Some(payload), SetFailed(InvalidTimeValue))
      case Refused(detail) => ReminderResult(form, Some(payload), SetFailed(OptOrElse(detail, FailedText)))
      case Unreachable(message) => ReminderResult(form, Some(payload), SetFailed(message))
  }

  /** Setting a reminder a second time with the form it leaves behind is
      refused for missing fields and sends nothing. */
  lemma SecondSubmitRefused(request: Option<Request>, form: ReminderForm, token: Option<string>,
                            reply: ReminderReply, readable: bool, again: ReminderReply, readableAgain: bool)
    requires SetReminder(request, form, token, reply, readable).notice.ReminderSet?
    ensures SetReminder(request, SetReminder(request, form, token, reply, readable).form, token, again, readableAgain).notice
              == MissingFields
    ensures SetReminder(request, SetReminder(request, form, token, reply, readable).form, token, again, readableAgain).sent.None?
  {
  }

  /** When the success toast cannot read the date, the reminder already
      exists but the form is kept, so submitting again sends the same
      reminder a second time. */
  lemma UnreadableDateResends(request: Option<Request>, form: ReminderForm, token: Option<string>,
                              again: ReminderReply, readableAgain: bool)
    requires SetReminder(request, form, token, Accepted, false).sent.Some?
    ensures SetReminder(request, form, token, Accepted, false).notice == SetFailed(InvalidTimeValue)
    ensures SetReminder(request, SetReminder(request, form, token, Accepted, false).form, token, again, readableAgain).sent
              == SetReminder(request, form, token, Accepted, false).sent
  {
  }

  /** What the pane shows. */
  datatype Pane =
    | Welcome
    | Conversation(topbar: ChatTopbar.Topbar, entries: seq<ChatMessageList.Entry>)

  /** `ChatDisplay`: the welcome screen when no request is open, otherwise
      the title bar over the message list. */
  function PaneOf(request: Option<Request>, users: seq<User>, viewer: User, hasBack: bool): (r: Pane)
    ensures r.Welcome? <==> request.None?
    ensures r.Conversation? ==> r.topbar == ChatTopbar.TopbarOf(request.value, hasBack)
    ensures r.Conversation? ==> r.entries == ChatMessageList.Entries(request.value, users, viewer)
    ensures r.Conversation? ==> |r.entries| == |request.value.messages|
  {
    match request
    case None => Welcome
    case Some(q) => Conversation(ChatTopbar.TopbarOf(q, hasBack), ChatMessageList.Entries(q, users, viewer))
  }

  /** A message added through the layout shows as one more entry at the
      bottom of the open pane, under the same title bar; with no request
      open the pane stays on the welcome screen. */
  lemma AddedMessageShows(request: Option<Request>, users: seq<User>, viewer: User, hasBack: bool, m: Message)
    ensures request.None? ==> PaneOf(ChatLayout.AddMessage(request, m), users, viewer, hasBack) == Welcome
    ensures request.Some? ==>
              PaneOf(ChatLayout.AddMessage(request, m), users, viewer, hasBack).entries ==
              PaneOf(request, users, viewer, hasBack).entries + [ChatMessageList.EntryOf(users, viewer, m)]
    ensures request.Some? ==>
              PaneOf(ChatLayout.AddMessage(request, m), users, viewer, hasBack).topbar ==
              PaneOf(request, users, viewer, hasBack).topbar
  {
    if request.Some? {
      ChatMessageList.AddMessageExtendsList(request.value, users, viewer, m);
    }
  }
}
