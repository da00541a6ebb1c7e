# GLAThread front-end decision logic in Dafny

GLAThread is a transport-request workflow. A supervisor raises a request for a vehicle job, approvers act on it, and every step is logged in a chat-style timeline for that request. The web client is a React application. Its behaviour beyond drawing is a set of small pure decisions inside components, and this project models them as immutable datatypes and total functions. They are:

- the base64url decoding of the push-notification key (`push.ts`);
- the validation and field layout of the new-request form (`requests/new/page.tsx`);
- the reminder dialog and conversation pane (`chat-display.tsx`);
- the rendering rules of a timeline entry (`chat-message.tsx`);
- the timeline state and its sender resolution (`chat-layout.tsx`, `chat-message-list.tsx`);
- the conversation sidebar (`chat-list.tsx`);
- the dashboard counters, panels, thread labels and loading outcome (`dashboard.tsx`);
- the request list (`request-list.tsx`), the conversation title bar (`chat-topbar.tsx`) and the account initials (`header.tsx`).

Every component becomes a function to an abstract view: a datatype of tags such as `Hidden`, `Centered`, `Bubble`, `Placeholder` or `Redirected`, or the class-name string the component picks. Browser services become inputs and outcome tags:
- the stored access token is an `Option<string>`;
- a server reply is a datatype of its HTTP status and body;
- toasts and navigations are the constructors of an outcome.

JavaScript semantics the decisions depend on are written out:
- Truthiness: "" is falsy, and so is an approver id of 0.
- `String.prototype.replace` with a string pattern replaces only the first occurrence.
- `split(' ')`, `join` and `padStart` are modelled directly.
- `toLowerCase` is modelled for the inputs that matter here, ASCII letters plus U+212A KELVIN SIGN; it is the only non-ASCII character whose lower case is an ASCII letter.
- A `Uint8Array` store reduces a value modulo 256.
- `window.atob` is modelled as the forgiving-base64 decode algorithm of the WHATWG Infra Standard:
  - ASCII whitespace is removed;
  - one or two trailing '=' are removed when the length is a multiple of four;
  - a remaining length of 1 mod 4, or any character outside the RFC 4648 section 4 alphabet, throws;
  - each group of four characters gives three bytes, and leftover bits are dropped.

Files, one module each:
- `base.dfy` (`Base`): `Option` and the string and number primitives.
- `types.dfy` (`Types`): the records and enumerations of `src/lib/types.ts` and the status lookups.
- `push_key.dfy`, `new_request.dfy`, `chat_display.dfy`, `chat_message.dfy`, `chat_layout.dfy`, `chat_message_list.dfy`, `chat_list.dfy`, `dashboard.dfy`, `request_list.dfy`, `chat_topbar.dfy`, `header.dfy`: one module per source file.

Four places where the components disagree with each other or with the status names, or behave in a way their markup does not suggest:
- The chat-message status badge matches status names ignoring case. The request-list badge and the title-bar variant match exactly.
- The title bar tests for "Pending Approval" and "In Progress". Neither is a status name, so its outline variant never appears for a real status (`ChatTopbar.VariantOfStatuses`).
- A GATE_PASS_UPDATE entry has no card of its own and shows as the italic system note. DEADLINE_MISSED is drawn as a bubble holding that note.
- The approver block tests `approved_by` for truthiness, so an approver id of 0 hides it. React then prints that 0 as a stray "0" in the details card (`ChatMessage.DetailsApproverSlot`).

## Model

| member | source | states |
|---|---|---|
| Types.FindUser | src/components/dashboard/header.tsx:17 | `users.find` by id: none exactly when no user has the id, otherwise the first user carrying it |
| Types.StatusIgnoringCase | src/components/dashboard/dashboard.tsx:48-59 | the status whose name equals the text ignoring case, none exactly when no status name matches in any casing |
| Types.StatusIgnoringCaseFinds | src/components/dashboard/chat/chat-message.tsx:32-44 | any casing of a status name finds that very status (the lower-case names are distinct) |
| Types.StatusNamed | src/components/dashboard/request-list.tsx:15-27 | exact lookup: found only for a text spelt exactly like a status name |
| Types.ExactImpliesIgnoringCase | src/components/dashboard/request-list.tsx:15-27 | whatever the exact lookup finds, the case-insensitive lookup finds too |
| PushKey.PaddingLength | src/lib/push.ts:6 | the pad is 0 to 3 characters, makes the length a multiple of four, and is 0 exactly for lengths already a multiple of four |
| PushKey.Pad | src/lib/push.ts:6-7 | the padded text keeps the input as prefix, appends only '=', and changes nothing when the length is already a multiple of four |
| PushKey.ToStandardAlphabet | src/lib/push.ts:7 | every '-' becomes '+', every '_' becomes '/', all else is kept, the length is kept, and no '-' or '_' remains |
| PushKey.NormaliseNormalised | src/lib/push.ts:6-7 | normalising text that is already padded and in the standard alphabet changes nothing |
| PushKey.Atob | src/lib/push.ts:8 | once whitespace and trailing padding are stripped, it throws exactly when the length is 1 mod 4 or a character lies outside the standard alphabet; otherwise the decoded text has three characters for every four left, each with a code below 256 |
| PushKey.CharCodesToUint8Array | src/lib/push.ts:9-12 | the copy loop yields one byte per character, byte i being character i's code modulo 256, which is the code itself below 256 |
| PushKey.UrlBase64ToUint8Array | src/lib/push.ts:5-14 | fails exactly when `atob` throws; otherwise byte i is the code of decoded character i; a base64url encoding of any bytes decodes to those bytes |
| PushKey.DecodeEncode | src/lib/push.ts:8 | decoding 6-bit groups undoes encoding, for any byte sequence |
| PushKey.AtobOfUrlEncoding | src/lib/push.ts:6-8 | padding and translating any base64url encoding gives text that `atob` decodes to the encoded bytes |
| PushKey.RoundTrip | src/lib/push.ts:5-14 | the key a base64url encoder produced, without padding, decodes to its bytes |
| PushKey.PaddedRoundTrip | src/lib/push.ts:5-14 | the same key already padded with '=' decodes to the same bytes |
| NewRequest.SetDocumentName | src/app/dashboard/requests/new/page.tsx:83-87 | renaming slot i changes only that slot's name; the slot count and every other slot are kept |
| NewRequest.SetDocumentFile | src/app/dashboard/requests/new/page.tsx:89-93 | attaching to slot i changes only that slot's file; the slot count and every other slot are kept |
| NewRequest.EditsKeepFourSlots | src/app/dashboard/requests/new/page.tsx:38 | starting from four slots, any edit leaves four slots, and naming then attaching slot i sets exactly that slot |
| NewRequest.PrepareSubmission | src/app/dashboard/requests/new/page.tsx:98-133 | refused for missing fields exactly when category, title or description is empty, checked before the token; refused for no token exactly when the fields pass; otherwise posts the form |
| NewRequest.WhitespaceTitlePasses | src/app/dashboard/requests/new/page.tsx:98-105 | example: only emptiness is checked, so a title of one space passes |
| NewRequest.MissingFieldsBeforeToken | src/app/dashboard/requests/new/page.tsx:98-116 | an empty title is reported as missing whether or not a token exists |
| NewRequest.FormData | src/app/dashboard/requests/new/page.tsx:121-123 | the form always opens with request_category, title, description in that order |
| NewRequest.FormVehicleEntries | src/app/dashboard/requests/new/page.tsx:125-126 | vehicle_number and vehicle_type are in the form exactly when non-empty, with the entered value |
| NewRequest.FormDocumentEntries | src/app/dashboard/requests/new/page.tsx:128-133 | `document_n_name` and `document_n_file` are in the form exactly when slot n-1 has both a name and a file; numbering follows the slot, not the count of filled slots |
| NewRequest.FormDataLength | src/app/dashboard/requests/new/page.tsx:121-133 | the form holds exactly three required entries, one per non-empty vehicle field and two per slot with both a name and a file, so nothing is appended twice |
| NewRequest.NameThenFile | src/app/dashboard/requests/new/page.tsx:130-131 | each document name entry is directly followed by the file entry of the same slot |
| NewRequest.DocumentKeysDistinct | src/app/dashboard/requests/new/page.tsx:130-131 | name and file keys never collide, and different slots get different keys |
| NewRequest.FixedKeysAreNotDocumentKeys | src/app/dashboard/requests/new/page.tsx:121-126 | the five fixed field names are never document keys |
| NewRequest.ErrorText | src/app/dashboard/requests/new/page.tsx:155-156 | the error description is never empty: the flattened messages joined by newlines, or "An unknown error occurred." when that is empty |
| NewRequest.ErrorTextLines | src/app/dashboard/requests/new/page.tsx:155 | splitting the description at newlines gives back the flattened messages |
| NewRequest.FinishSubmission | src/app/dashboard/requests/new/page.tsx:146-163 | success navigates to the new thread's page; a refusal shows the error text; a network failure shows its message, or "There was a problem with your request." exactly when that message is empty |
| NewRequest.CreatedPathReadsBack | src/app/dashboard/requests/new/page.tsx:153 | the page a created thread leads to is the threads prefix and digits that read back to the thread number, so different threads lead to different pages |
| ChatDisplay.SetReminder | src/components/dashboard/chat/chat-display.tsx:52-109 | the outcomes in order (missing fields, then token, then thread, then sending), the payload fields, the failure text; an accepted reminder whose date the success toast cannot format fails with "Invalid time value" and keeps the form; the reset and close only on full success |
| ChatDisplay.SecondSubmitRefused | src/components/dashboard/chat/chat-display.tsx:99-102 | after a success the cleared form is refused for missing fields and sends nothing |
| ChatDisplay.UnreadableDateResends | src/components/dashboard/chat/chat-display.tsx:93-105 | when the toast cannot format the date the reminder exists but the form is kept, so a second submit sends the same reminder again |
| ChatDisplay.ReminderAt | src/components/dashboard/chat/chat-display.tsx:70-71 | the string ends with 'T', the time as typed and ":00" |
| ChatDisplay.ReminderAtReadsBack | src/components/dashboard/chat/chat-display.tsx:70-71 | reminder_at is yyyy-MM-dd in fixed places, each field giving back its number, then 'T', the time as typed and ":00" |
| ChatDisplay.ReminderAtInjective | src/components/dashboard/chat/chat-display.tsx:70-71 | two reminder_at strings are equal only for the same time, month, day and year as date-fns prints it (years 0 and 1 both print as 0001) |
| ChatDisplay.PaneOf | src/components/dashboard/chat/chat-display.tsx:40-50 | the welcome screen exactly when no request is open, otherwise the title bar over one entry per message |
| ChatDisplay.AddedMessageShows | src/components/dashboard/chat/chat-layout.tsx:17-25 | a message added through the layout appears as one more entry at the bottom under the same title bar |
| ChatMessage.StatusClass | src/components/dashboard/chat/chat-message.tsx:32-44 | any casing of a status name gives that status's colours; any other text gives the grey fallback |
| ChatMessage.StatusClassDetermines | src/components/dashboard/chat/chat-message.tsx:32-44 | a status's colours appear exactly for the casings of its name, and grey exactly when no name matches |
| ChatMessage.StatusClassExamples | src/components/dashboard/chat/chat-message.tsx:32-44 | example: "PAYMENT DONE" is green; "work_completed" is grey |
| ChatMessage.DocumentIconFor | src/components/dashboard/chat/chat-message.tsx:162-167 | the icon follows the first matching suffix among .pdf, then .docx/.doc, then .xlsx/.xls |
| ChatMessage.IconOfExtension | src/components/dashboard/chat/chat-message.tsx:125-129 | each office extension selects its icon whatever the stem |
| ChatMessage.IconIsCaseSensitive | src/components/dashboard/chat/chat-message.tsx:125-129 | example: an upper-case ".PDF" gets the generic icon |
| ChatMessage.FileViewOf | src/components/dashboard/chat/chat-message.tsx:87-148 | an image is a link to the picture, a video a player, a voice note an audio player with its size; every other kind is a download card with the name's icon and the size or "N/A" |
| ChatMessage.FileViewReadsBack | src/components/dashboard/chat/chat-message.tsx:87-148 | every view gives back the file's address and the kind it plays, so files of different played kinds never look alike |
| ChatMessage.ApproverBlockOf | src/components/dashboard/chat/chat-message.tsx:202-222 | shown exactly when the approver id is set and non-zero, with the approver's name; labelled "Rejected By/On" when approval_status is "rejected" and "Approved By/On" otherwise; the date when approval_at is set, else none ("N/A") |
| ChatMessage.DetailsOf | src/components/dashboard/chat/chat-message.tsx:161-255 | the title, the subtitle joining type and vehicle details with a vertical bar, badge, creator name, the creation date as sent, the approver block as above, a stray "0" exactly for an approver id of 0, the thread's description or "No description provided.", and one document link per document with its icon |
| ChatMessage.DetailsApproverSlot | src/components/dashboard/chat/chat-message.tsx:180-222 | the approver slot holds exactly one of the block, a stray "0" or nothing, chosen by approved_by; the badge tells the status back ignoring case |
| ChatMessage.ProgressCardOf | src/components/dashboard/chat/chat-message.tsx:267-289 | "Initial Time Limit Set", "Work Delayed" and "Work Marked as Completed" for the three known types, "Progress Update" exactly for any other; the end date, the updater and the update's date as sent; a reason quoted only on a delay that has one |
| ChatMessage.ProgressTitleTellsType | src/components/dashboard/chat/chat-message.tsx:267-274 | two updates with the same title have the same known type, or both an unknown one |
| ChatMessage.OutPassLink | src/components/dashboard/chat/chat-message.tsx:420 | the link is "/out-pass/" and the id with three characters fewer exactly when the id contains "TR-" |
| ChatMessage.OutPassLinkOfLabel | src/components/dashboard/chat/chat-message.tsx:420 | the out-pass link of "TR-n" is "/out-pass/n" |
| ChatMessage.MessageContent | src/components/dashboard/chat/chat-message.tsx:372-470 | each kind gets its own card: nothing exactly for a non-approver's approval or a missing file, progress or gate-pass payload; the approval, date and payment cards with the text; the file view; the details card; the progress card; the created pass; vehicle in with in_time and out with out_time; the text bubble; the italic note exactly for system, missed-deadline and gate-pass-update entries |
| ChatMessage.ContentTellsKind | src/components/dashboard/chat/chat-message.tsx:372-470 | every card other than the note and nothing tells back the kind of the entry that produced it; the note only comes from the three note kinds |
| ChatMessage.Render | src/components/dashboard/chat/chat-message.tsx:472-501 | hidden exactly for a non-approver's approval; the eleven centred kinds otherwise centred; a bubble shows the message's own time; it shows the sender's name and an avatar of the sender's image with the name's first character as fallback only for others, and the seen tick only for the viewer |
| ChatMessage.ApprovalVisibility | src/components/dashboard/chat/chat-message.tsx:357-358 | an approval is hidden exactly for roles other than HOD, CFO, Registrar and Administrator, spelt exactly; the others see the approval card |
| ChatMessage.DeadlineNoticeIsBubble | src/components/dashboard/chat/chat-message.tsx:467-468 | a missed-deadline entry is a bubble whose body is the italic note |
| ChatMessage.GatePassUpdateIsNote | src/components/dashboard/chat/chat-message.tsx:472 | a gate-pass-update entry is the centred italic note |
| ChatLayout.AddMessage | src/components/dashboard/chat/chat-layout.tsx:17-25 | with no request it stays absent; otherwise the old messages stay as prefix, the new one is last, the list grows by one even for a repeated id, and no other field changes |
| ChatLayout.AddMessagesAppends | src/components/dashboard/chat/chat-layout.tsx:22 | any run of additions leaves the old timeline followed by the new messages in arrival order |
| ChatLayout.AddMessagesToNothing | src/components/dashboard/chat/chat-layout.tsx:19 | with no request open, every addition is lost |
| ChatMessageList.SenderOf | src/components/dashboard/chat/chat-message-list.tsx:35-37 | "system" always resolves to the fixed System record; any other id to the first user with it, or none; a found sender always has the asked id |
| ChatMessageList.EntryOf | src/components/dashboard/chat/chat-message-list.tsx:44 | an entry carries its message and resolved sender, and is on the viewer's side exactly when the sender id is the viewer's |
| ChatMessageList.Entries | src/components/dashboard/chat/chat-message-list.tsx:34-45 | one entry per message in order, each with its resolved sender and "is current user" exactly when the sender id is the viewer's |
| ChatMessageList.OwnEntries | src/components/dashboard/chat/chat-message-list.tsx:44 | an entry on the viewer's side has a sender with the viewer's id; a platform message is on the viewer's side only for a viewer whose id is "system" |
| ChatMessageList.AddMessageExtendsList | src/components/dashboard/chat/chat-message-list.tsx:34 | after an addition the list is the old entries plus one for the new message |
| ChatList.EntryFor | src/components/dashboard/chat/chat-list.tsx:29-54 | the preview and time of the last message; highlighted exactly when selected; an avatar image only for a found creator with an avatar; the fallback is the creator's first character or "U" |
| ChatList.ShownMembers | src/components/dashboard/chat/chat-list.tsx:29-30 | a request gets a row exactly when it is in the input and has a message |
| ChatList.ShownAppend | src/components/dashboard/chat/chat-list.tsx:28-31 | the rows of two lists one after the other are the rows of the first then those of the second, so input order is kept |
| ChatList.SkipsSilent | src/components/dashboard/chat/chat-list.tsx:29-30 | a request without messages takes no row and leaves the rows around it unchanged |
| ChatList.ShownAll | src/components/dashboard/chat/chat-list.tsx:28 | when every request has a message, all are shown in input order |
| ChatList.Rows | src/components/dashboard/chat/chat-list.tsx:28-57 | one row per shown request, in order |
| ChatList.OneHighlight | src/components/dashboard/chat/chat-list.tsx:38 | two rows of different requests are never both highlighted |
| ChatList.Select | src/components/dashboard/chat/chat-list.tsx:40 | clicking a row selects the id of the request it shows |
| Dashboard.BadgeShared | src/components/dashboard/dashboard.tsx:50-57 | two statuses share a badge exactly when they are equal or are Approved and Work Completed |
| Dashboard.BadgeNotFallback | src/components/dashboard/dashboard.tsx:58 | no status badge is the grey fallback |
| Dashboard.StatusClass | src/components/dashboard/dashboard.tsx:48-59 | case-insensitive badge choice, grey for any text naming no status |
| Dashboard.StatsOf | src/components/dashboard/dashboard.tsx:118-130 | zeros before data; afterwards each tile shows its count and the overdue tile overdue.count; a payload without an overdue section makes the render throw |
| Dashboard.ThreadsOf | src/components/dashboard/dashboard.tsx:132-134 | the section's threads when the section and its list are present, empty otherwise |
| Dashboard.RemindersOf | src/components/dashboard/dashboard.tsx:135 | the reminders when the section and its list are present, empty otherwise |
| Dashboard.PanelsOf | src/components/dashboard/dashboard.tsx:132-135 | each of the four lists is the sent list when its section and list are present, and empty otherwise or before data |
| Dashboard.PanelOf | src/components/dashboard/dashboard.tsx:260-265 | a panel shows its placeholder exactly when its list is empty |
| Dashboard.ThreadLabel | src/components/dashboard/dashboard.tsx:143 | a label starts with "TR-" and has at least one more character |
| Dashboard.ThreadLabelReadsBack | src/components/dashboard/dashboard.tsx:143 | a label is "TR-" and at least three digits that read back to the thread number |
| Dashboard.ThreadLabelWidth | src/components/dashboard/dashboard.tsx:143 | below 1000 every label has exactly six characters |
| Dashboard.ThreadLabelInjective | src/components/dashboard/dashboard.tsx:143 | different thread numbers never share a label |
| Dashboard.CardOf | src/components/dashboard/dashboard.tsx:137-157 | the padded label, a link with the bare number, the title and creator, the due date exactly when set and then its value, and the badge only when asked for |
| Dashboard.Load | src/components/dashboard/dashboard.tsx:71-112 | no token redirects without fetching; 401 redirects as expired; other failures give "Failed to fetch dashboard data." or the error message or "Could not load dashboard data."; success loads the body |
| Dashboard.PageOf | src/components/dashboard/dashboard.tsx:118-135 | a crash exactly when the counts cannot be read, whether or not the page is loading, since the body reads them before its `isLoading` test; the skeleton exactly while loading with readable counts; otherwise the tiles and the four panels, each with its placeholder text when empty |
| Dashboard.PageAfterLoad | src/components/dashboard/dashboard.tsx:70-116 | after the first load the skeleton stays exactly when there was no token, because that path returns before the `finally`; a success shows the sent data; other outcomes show the empty board |
| Dashboard.FailedFirstLoadShowsNothing | src/components/dashboard/dashboard.tsx:72-135 | a failed first load with a token shows zero tiles and every placeholder; without a token the skeleton stays |
| Dashboard.LoadedBoardShowsData | src/components/dashboard/dashboard.tsx:118-135 | a successful load crashes exactly when overdue is missing, and otherwise shows the counts and a non-empty list as cards |
| RequestList.StatusClass | src/components/dashboard/request-list.tsx:15-27 | the dashboard's colours for an exactly spelt status name, grey otherwise |
| RequestList.AgreesWithDashboard | src/components/dashboard/request-list.tsx:15-27 | for a correctly spelt status both pages pick the same badge |
| RequestList.CasingMatters | src/components/dashboard/request-list.tsx:17 | example: "pending" is grey here but yellow on the dashboard |
| RequestList.LinkOfLabel | src/components/dashboard/request-list.tsx:54 | the link of "TR-ddd" carries the padded number, which reads back to the thread number, and equals the dashboard's link from 100 on |
| RequestList.RowOf | src/components/dashboard/request-list.tsx:52-69 | a card shows the id, links to the thread page, and shows type, title, vehicle details, the creation date as sent and the exact-match badge |
| RequestList.ListViewOf | src/components/dashboard/request-list.tsx:52-86 | one card per request in input order; the "No requests found" placeholder exactly when the list is empty |
| ChatTopbar.StatusVariant | src/components/dashboard/chat/chat-topbar.tsx:13-21 | secondary exactly for "Approved", destructive exactly for "Rejected", outline exactly for "In Progress", matched exactly; default otherwise |
| ChatTopbar.VariantOfStatuses | src/components/dashboard/chat/chat-topbar.tsx:14-19 | for the eight real statuses outline never appears, and only Approved and Rejected differ from default |
| ChatTopbar.TopbarOf | src/components/dashboard/chat/chat-topbar.tsx:25-34 | the back button appears exactly when a back action is supplied |
| Header.InitialsAreWordStarts | src/components/dashboard/header.tsx:18 | the initials are the first letters of the words in order, however many spaces separate them |
| Header.Initials | src/components/dashboard/header.tsx:18 | the initials equal the word starts of the name |
| Header.AvatarText | src/components/dashboard/header.tsx:17-18 | never empty: the initials of the first user with id "user-current", or "U" when there is none or the initials are empty |
| Header.BlankNameGivesNoInitials | src/components/dashboard/header.tsx:18 | a name of spaces only has no initials, so the avatar falls back to "U" |

## Left out

- Network requests, browser storage, toasts and router navigation are left out as effects. They appear only as inputs (the token, the HTTP status and body, a network failure message) and as outcome constructors.
- React hooks, effects and refs, and the `isSubmitting` flags, are presentation state with no decision in them. The dashboard's `isLoading` flag is modelled, because one path never clears it.
- The push subscription flow and the service worker are browser APIs and I/O. Only `urlBase64ToUint8Array` is modelled.
- The audio progress percentage uses floating point.
- Display formatting of dates by date-fns and date-fns-tz (relative times, `PPp`, time zones) is locale and library behaviour. Only the fixed `yyyy-MM-dd` shape inside reminder_at is modelled.
- `toUpperCase` of the badge texts is left out. The full Unicode upper-case mapping can change a string's length.
- `toLowerCase` is modelled for ASCII and the Kelvin sign only. Other non-ASCII letters are left unchanged, which never affects a comparison with the ASCII status names.
- Strings are sequences of code points, while JavaScript counts UTF-16 units. `charAt(0)` and `n[0]` differ only for characters outside the Basic Multilingual Plane.
- A reply body that is not JSON makes `response.json()` throw. That path is not modelled.
- NewRequest.SetDocumentName: requires a slot index inside the list. The page only ever passes the indices of its four slots, and a JavaScript write past the end would create holes in the array.
- NewRequest.SetDocumentFile: requires a slot index inside the list, for the same reason.
- ChatDisplay.SetReminder: the runtime error raised when the open request has no backend thread is the tag `ThreadUnreadable`, because its message text comes from the JavaScript engine.
- ChatDisplay.ReminderAtReadsBack: states the fixed places only for dates whose year has at most four digits; date-fns prints longer years in full.
- The request-thread transformation in `src/app/dashboard/requests/[id]/page.tsx` is not part of this model. Neither are the category fetch of the new-request page, the out-pass page and the login form.
- `src/lib/data.ts` is a static fixture.
- `search-filter-bar.tsx`, `chat-message-input.tsx`, `quick-stats.tsx`, the layouts, `logo.tsx` and the page files carry no decision logic.
- The chat message list hands `ChatMessage` only the message, the sender and the side. `ChatMessage.Render` takes the open request and the viewer as its declared props say, and does not model the props missing at that call site.
- The request-details card, the progress and gate-pass cards, the bubbles' times, the dashboard cards and the request list format dates through date-fns. Each view carries the raw date string it formats, and the formatting itself is left out as above.
- ChatMessage.Render: does not model the RangeError date-fns `format` throws for a timestamp `new Date` cannot read, which crashes the entry. The same holds for the details, progress and gate-pass cards (DetailsOf, ProgressCardOf, MessageContent), the dashboard cards (Dashboard.CardOf) and the request list (RequestList.RowOf). Dates are kept as raw strings, and whether a string reads as a date depends on the engine outside ECMAScript's date-time string format.
- ChatDisplay.ReminderAtInjective: years 0 and 1 print alike as 0001 under date-fns `yyyy`, so the lemma equates the printed year only.
- ChatDisplay.SetReminder: whether `new Date(reminder_at)` is a valid date is the input `atReadable`, because parsing strings outside ECMAScript's date-time string format is engine-specific.
- NewRequest.ErrorValue: each value of the error object is given as the text `join` prints for it. The conversion of numbers, null and nested objects to that text is not modelled.
