/** The rendering rules of one timeline entry
    (`src/components/dashboard/chat/chat-message.tsx`): whether it shows,
    whether it is centred or drawn as a bubble, and what it carries. */
module ChatMessage {
  import opened Base
  import opened Types

  /** Badge colours of the request-details card, one per status. */
  function DetailsPalette(st: RequestStatus): string {
    match st
    case Pending => "bg-amber-100 text-amber-700 border-amber-200"
    case Approved => "bg-blue-100 text-blue-700 border-blue-200"
    case Working => "bg-teal-100 text-teal-700 border-teal-200"
    case WorkCompleted => "bg-sky-100 text-sky-700 border-sky-200"
    case PaymentPending => "bg-orange-100 text-orange-700 border-orange-200"
    case PaymentDone => "bg-green-100 text-green-700 border-green-200"
    case Rejected => "bg-red-100 text-red-700 border-red-200"
    case Overdue => "bg-rose-100 text-rose-700 border-rose-200"
  }

  const DetailsFallback := "bg-gray-100 text-gray-700 border-gray-200"

  /** `getStatusClass`: the status text is compared with the status names
      ignoring case; anything else gets the grey fallback. */
  function StatusClass(status: string): (r: string)
    ensures forall st: RequestStatus :: ToLower(status) == LowerName(st) ==> r == DetailsPalette(st)
    ensures (forall st: RequestStatus :: ToLower(status) != LowerName(st)) ==> r == DetailsFallback
  {
    StatusIgnoringCaseUnique(status);
    match StatusIgnoringCase(status)
    case Some(st) => DetailsPalette(st)
    case None => DetailsFallback
  }

  /** The colour name that follows "bg-", enough to tell the palettes apart. */
  function Hue(cls: string): string {
    if |cls| >= 6 then cls[3..6] else cls
  }

  /** Different statuses have different colours. */
  lemma DetailsPaletteInjective(a: RequestStatus, b: RequestStatus)
    requires DetailsPalette(a) == DetailsPalette(b)
    ensures a == b
  {
    assert Hue(DetailsPalette(a)) == Hue(DetailsPalette(b));
  }

  lemma DetailsPaletteNotFallback(a: RequestStatus)
    ensures DetailsPalette(a) != DetailsFallback
  {
    assert DetailsFallback[3] == 'g' && DetailsFallback[5] == 'a';
    match a {
      case Pending => case Approved => case Working => case WorkCompleted =>
      case PaymentPending => case PaymentDone => case Rejected => case Overdue =>
    }
  }

  /** The colour tells the status back: a status's colour is shown exactly
      when the text names that status in some casing, and the grey fallback
      exactly when it names none. */
  lemma StatusClassDetermines(status: string, st: RequestStatus)
    ensures StatusClass(status) == DetailsPalette(st) <==> ToLower(status) == LowerName(st)
    ensures StatusClass(status) == DetailsFallback <==> StatusIgnoringCase(status).None?
  {
    StatusIgnoringCaseUnique(status);
    DetailsPaletteNotFallback(st);
    match StatusIgnoringCase(status)
    case Some(s) =>
      DetailsPaletteNotFallback(s);
      if StatusClass(status) == DetailsPalette(st) {
        DetailsPaletteInjective(s, st);
      }
    case None =>
  }

  /** Any casing of a status name selects its colour; a spelling that is
      not a status name, such as the underscored "work_completed", is grey. */
  lemma StatusClassExamples()
    ensures StatusClass("PAYMENT DONE") == DetailsPalette(PaymentDone)
    ensures StatusClass("work_completed") == DetailsFallback
  {
    assert ToLower("PAYMENT DONE") == "payment done";
    var l := ToLower("work_completed");
    assert |l| == 14 && l[4] == '_';
    assert StatusIgnoringCase("work_completed").None? by {
      forall st: RequestStatus ensures l != LowerName(st) {
        assert |LowerName(st)| != 14 || LowerName(st)[4] == ' ' by {
          match st {
            case Pending => case Approved => case Working => case WorkCompleted =>
            case PaymentPending => case PaymentDone => case Rejected => case Overdue =>
          }
        }
      }
    }
  }

  /** The roles allowed to answer an approval request, matched exactly. */
  const ApproverRoles: seq<string> := ["HOD", "CFO", "Registrar", "Administrator"]

  predicate CanApprove(viewer: User) {
    viewer.role in ApproverRoles
  }

  /** The entry kinds drawn centred, without avatar or sender name. */
  const CenteredKinds: set<MessageType> :=
    {System, Approval, DatePrompt, OutpassGeneration, PaymentTracking, RequestDetails,
     ProgressUpdate, GatePassDetails, GatePassUpdate, GatePassIn, GatePassOut}

  /** The entry kinds that fall to the italic system note. */
  const NoteKinds: set<MessageType> := {System, DeadlineMissed, GatePassUpdate}

  datatype DocumentIcon = PdfIcon | WordIcon | SpreadsheetIcon | GenericIcon

  /** `getFileIcon`: chosen from the file name's ending, checked in order. */
  function DocumentIconFor(name: string): (r: DocumentIcon)
    ensures r == PdfIcon <==> EndsWith(name, ".pdf")
    ensures r == WordIcon <==> !EndsWith(name, ".pdf") && (EndsWith(name, ".docx") || EndsWith(name, ".doc"))
    ensures r == SpreadsheetIcon <==>
              !EndsWith(name, ".pdf") && !EndsWith(name, ".docx") && !EndsWith(name, ".doc") &&
              (EndsWith(name, ".xlsx") || EndsWith(name, ".xls"))
  {
    if EndsWith(name, ".pdf") then PdfIcon
    else if EndsWith(name, ".docx") || EndsWith(name, ".doc") then WordIcon
    else if EndsWith(name, ".xlsx") || EndsWith(name, ".xls") then SpreadsheetIcon
    else GenericIcon
  }

  /** Each office extension selects its own icon whatever the stem. */
  lemma IconOfExtension(stem: string)
    ensures DocumentIconFor(stem + ".pdf") == PdfIcon
    ensures DocumentIconFor(stem + ".doc") == WordIcon
    ensures DocumentIconFor(stem + ".docx") == WordIcon
    ensures DocumentIconFor(stem + ".xls") == SpreadsheetIcon
    ensures DocumentIconFor(stem + ".xlsx") == SpreadsheetIcon
  {
    var s := stem + ".pdf";
    assert s[|s| - 4..] == ".pdf";
    s := stem + ".doc";
    assert s[|s| - 4..] == ".doc";
    s := stem + ".docx";
    assert s[|s| - 5..] == ".docx";
    assert s[|s| - 1] == 'x';
    s := stem + ".xls";
    assert s[|s| - 4..] == ".xls";
    assert s[|s| - 1] == 's';
    s := stem + ".xlsx";
    assert s[|s| - 5..] == ".xlsx";
    assert s[|s| - 1] == 'x' && s[|s| - 2] == 's';
  }

  /** The suffix tests are case-sensitive: an upper-case extension gets the
      generic icon. */
  lemma IconIsCaseSensitive()
    ensures DocumentIconFor("REPORT.PDF") == GenericIcon
    ensures DocumentIconFor("report.pdf") == PdfIcon
  {
    assert "report.pdf"[6..] == ".pdf";
  }

  /** What a file entry shows. Pictures, videos and voice notes play in place;
      every other kind is a download card whose icon comes from the name. */
  datatype FileView =
    | ImageLink(url: string)
    | VideoPlayer(url: string)
    | VoicePlayer(url: string, size: Option<string>)
    | DocumentCard(icon: DocumentIcon, name: string, sizeText: string, download: string)

  /** `FileMessageContent`. */
  function FileViewOf(f: Attachment): (r: FileView)
    ensures f.kind == Image ==> r == ImageLink(f.url)
    ensures f.kind == Video ==> r == VideoPlayer(f.url)
    ensures f.kind == Voice ==> r == VoicePlayer(f.url, f.size)
    ensures r.DocumentCard? <==> f.kind != Image && f.kind != Video && f.kind != Voice
    ensures r.DocumentCard? ==> r.icon == DocumentIconFor(f.name) && r.name == f.name && r.download == f.url
    ensures r.DocumentCard? ==> r.sizeText == (if Truthy(f.size) then f.size.value else "N/A")
    ensures !r.DocumentCard? ==> r.url == f.url
  {
    match f.kind
    case Image => ImageLink(f.url)
    case Video => VideoPlayer(f.url)
    case Voice => VoicePlayer(f.url, f.size)
    case _ => DocumentCard(DocumentIconFor(f.name), f.name, OptOrElse(f.size, "N/A"), f.url)
  }

  /** The address a file view points at: the link, the player's source or
      the download target. */
  function ViewUrl(v: FileView): string {
    match v
    case ImageLink(u) => u
    case VideoPlayer(u) => u
    case VoicePlayer(u, _) => u
    case DocumentCard(_, _, _, d) => d
  }

  /** The kind a view plays in place, if it plays one. */
  function PlayedKind(v: FileView): Option<FileKind> {
    match v
    case ImageLink(_) => Some(Image)
    case VideoPlayer(_) => Some(Video)
    case VoicePlayer(_, _) => Some(Voice)
    case DocumentCard(_, _, _, _) => None
  }

  /** A file view gives back the file's address, and the kind of file it
      plays; two files of different played kinds never look alike. */
  lemma FileViewReadsBack(f: Attachment, g: Attachment)
    ensures ViewUrl(FileViewOf(f)) == f.url
    ensures PlayedKind(FileViewOf(f)) == (if f.kind in {Image, Video, Voice} then Some(f.kind) else None)
    ensures FileViewOf(f) == FileViewOf(g) ==> f.url == g.url
    ensures FileViewOf(f) == FileViewOf(g) && f.kind in {Image, Video, Voice} ==> f.kind == g.kind
  {
  }

  /** The approver lines of the request-details card. */
  datatype ApproverBlock = ApproverBlock(
    rejected: bool,
    byLabel: string,
    onLabel: string,
    approverName: string,
    when: Option<string>)

  /** Shown only when the thread names an approver by a non-zero id. */
  function ApproverBlockOf(api: Option<ThreadData>): (r: Option<ApproverBlock>)
    ensures r.Some? <==> api.Some? && api.value.approvedBy.Some? && api.value.approvedBy.value != 0
    ensures r.Some? ==> r.value.approverName == api.value.approvedByName
    ensures r.Some? ==> (r.value.rejected <==> api.value.approvalStatus == "rejected")
    ensures r.Some? ==> r.value.byLabel == (if r.value.rejected then "Rejected By" else "Approved By")
    ensures r.Some? ==> r.value.onLabel == (if r.value.rejected then "Rejected On" else "Approved On")
    ensures r.Some? ==> (r.value.when.Some? <==> Truthy(api.value.approvalAt))
    ensures r.Some? && Truthy(api.value.approvalAt) ==> r.value.when == api.value.approvalAt
  {
    if api.Some? && api.value.approvedBy.Some? && api.value.approvedBy.value != 0 then
      var t := api.value;
      var rejected := t.approvalStatus == "rejected";
      Some(ApproverBlock(
        rejected,
        if rejected then "Rejected By" else "Approved By",
        if rejected then "Rejected On" else "Approved On",
        t.approvedByName,
        if Truthy(t.approvalAt) then t.approvalAt else None))
    else None
  }

  const NoDescription := "No description provided."

  /** The request-details card. `strayZero` is the "0" React prints when
      `approved_by && (...)` short-circuits on an approver id of 0. */
  datatype DetailsView = DetailsView(
    title: string,
    subtitle: string,
    statusClass: string,
    createdByName: Option<string>,
    createdOn: string,
    approver: Option<ApproverBlock>,
    strayZero: bool,
    description: string,
    documents: seq<(DocumentIcon, Document)>)

  /** `RequestDetailsMessage`. */
  function DetailsOf(request: Request): (r: DetailsView)
    ensures r.title == request.title
    ensures r.subtitle == request.requestType + " | " + request.vehicleDetails
    ensures r.statusClass == StatusClass(request.status)
    ensures r.approver == ApproverBlockOf(request.apiData)
    ensures r.strayZero <==> request.apiData.Some? && request.apiData.value.approvedBy == Some(0)
    ensures r.description == NoDescription <==>
              request.apiData.None? || !Truthy(request.apiData.value.description) ||
              request.apiData.value.description.value == NoDescription
    ensures request.apiData.Some? && Truthy(request.apiData.value.description) ==>
              r.description == request.apiData.value.description.value
    ensures r.createdByName.Some? <==> request.apiData.Some?
    ensures r.createdByName.Some? ==> r.createdByName.value == request.apiData.value.createdByName
    ensures r.createdOn == request.createdAt
    ensures |r.documents| == |request.documents|
    ensures forall i :: 0 <= i < |r.documents| ==>
              r.documents[i] == (DocumentIconFor(request.documents[i].name), request.documents[i])
  {
    DetailsView(
      request.title,
      request.requestType + " | " + request.vehicleDetails,
      StatusClass(request.status),
      if request.apiData.Some? then Some(request.apiData.value.createdByName) else None,
      request.createdAt,
      ApproverBlockOf(request.apiData),
      request.apiData.Some? && request.apiData.value.approvedBy == Some(0),
      if request.apiData.Some? then OptOrElse(request.apiData.value.description, NoDescription)
      else NoDescription,
      seq(|request.documents|, i requires 0 <= i < |request.documents| =>
        (DocumentIconFor(request.documents[i].name), request.documents[i])))
  }

  /** The approver slot of the details card holds exactly one of three
      things, chosen by `approved_by`: the approver block for a non-zero id,
      a stray "0" for the id 0, nothing when there is no approver; and the
      badge tells the status back ignoring case. */
  lemma DetailsApproverSlot(request: Request, st: RequestStatus)
    ensures !(DetailsOf(request).approver.Some? && DetailsOf(request).strayZero)
    ensures DetailsOf(request).approver.None? && !DetailsOf(request).strayZero <==>
              request.apiData.None? || request.apiData.value.approvedBy.None?
    ensures DetailsOf(request).statusClass == DetailsPalette(st) <==> ToLower(request.status) == LowerName(st)
  {
    StatusClassDetermines(request.status, st);
  }

  /** The progress-update card. */
  datatype ProgressCard = ProgressCard(
    title: string,
    expectedEndDate: string,
    delayReason: Option<string>,
    updatedByName: string,
    updatedOn: string)

  /** `ProgressUpdateMessage`: a reason is quoted only on a delay that gives one. */
  function ProgressCardOf(u: ProgressUpdate): (r: ProgressCard)
    ensures r.delayReason.Some? <==> u.progressType == "delay" && Truthy(u.delayReason)
    ensures r.delayReason.Some? ==> r.delayReason == u.delayReason
    ensures u.progressType == "initial" ==> r.title == "Initial Time Limit Set"
    ensures u.progressType == "delay" ==> r.title == "Work Delayed"
    ensures u.progressType == "completed" ==> r.title == "Work Marked as Completed"
    ensures r.title == "Progress Update" <==>
              u.progressType != "initial" && u.progressType != "delay" && u.progressType != "completed"
    ensures r.expectedEndDate == u.expectedEndDate && r.updatedByName == u.updatedByName
    ensures r.updatedOn == u.createdAt
  {
    var title :=
      if u.progressType == "initial" then "Initial Time Limit Set"
      else if u.progressType == "delay" then "Work Delayed"
      else if u.progressType == "completed" then "Work Marked as Completed"
      else "Progress Update";
    ProgressCard(
      title, u.expectedEndDate,
      if u.progressType == "delay" && Truthy(u.delayReason) then u.delayReason else None,
      u.updatedByName, u.createdAt)
  }

  /** The card's title tells the progress type back: two updates with the
      same title have the same type, or both have a type the card does not
      know. */
  lemma ProgressTitleTellsType(u: ProgressUpdate, v: ProgressUpdate)
    requires ProgressCardOf(u).title == ProgressCardOf(v).title
    ensures u.progressType == v.progressType || (KnownProgress(u) == KnownProgress(v) == false)
  {
    var a, b := ProgressCardOf(u).title, ProgressCardOf(v).title;
    assert |a| == |b|;
  }

  predicate KnownProgress(u: ProgressUpdate) {
    u.progressType == "initial" || u.progressType == "delay" || u.progressType == "completed"
  }

  /** The inside of an entry. `Nothing` is what React draws for `null` and
      `false`. */
  datatype Content =
    | Nothing
    | ApprovalCard(prompt: string)
    | DatePromptCard(prompt: string)
    | OutPassCard(prompt: string, link: string)
    | PaymentCard(prompt: string)
    | FileContent(view: FileView)
    | DetailsContent(details: DetailsView)
    | ProgressContent(card: ProgressCard)
    | GatePassCreated(pass: GatePass)
    | VehicleOut(vehicleNumber: string, at: Option<string>)
    | VehicleIn(vehicleNumber: string, at: Option<string>)
    | TextBody(text: string, own: bool)
    | SystemNote(text: string)

  /** The out-pass page of a request: the first "TR-" is dropped from its id. */
  function OutPassLink(requestId: string): (r: string)
    ensures |r| == |OutPassPrefix| + |requestId| - (if IndexOf(requestId, "TR-").Some? then 3 else 0)
    ensures r[..|OutPassPrefix|] == OutPassPrefix
  {
    OutPassPrefix + ReplaceFirst(requestId, "TR-", "")
  }

  const OutPassPrefix := "/out-pass/"


  /** A label "TR-<n>" links to the out-pass page of "<n>". */
  lemma OutPassLinkOfLabel(number: string)
    ensures OutPassLink("TR-" + number) == OutPassPrefix + number
  {
    ReplaceLeadingOccurrence("TR-", number);
  }

  /** `renderMessageContent`. */
  function MessageContent(m: Message, isCurrentUser: bool, request: Request, viewer: User): (r: Content)
    ensures r == Nothing <==>
              (m.kind == Approval && !CanApprove(viewer)) ||
              (m.kind == File && m.file.None?) ||
              (m.kind == ProgressUpdate && m.progress.None?) ||
              (m.kind in {GatePassDetails, GatePassIn, GatePassOut} && m.gatePass.None?)
    ensures r.SystemNote? <==> m.kind in NoteKinds
    ensures r.SystemNote? ==> r.text == m.content
    ensures r.TextBody? <==> m.kind == Text
    ensures r.TextBody? ==> r.text == m.content && r.own == isCurrentUser
    ensures r.OutPassCard? <==> m.kind == OutpassGeneration
    ensures r.OutPassCard? ==> r.prompt == m.content && r.link == OutPassLink(m.requestId)
    ensures r.ApprovalCard? <==> m.kind == Approval && CanApprove(viewer)
    ensures r.DatePromptCard? <==> m.kind == DatePrompt
    ensures r.PaymentCard? <==> m.kind == PaymentTracking
    ensures r.ApprovalCard? || r.DatePromptCard? || r.PaymentCard? ==> r.prompt == m.content
    ensures r.FileContent? <==> m.kind == File && m.file.Some?
    ensures r.FileContent? ==> r.view == FileViewOf(m.file.value)
    ensures r.DetailsContent? <==> m.kind == RequestDetails
    ensures r.DetailsContent? ==> r.details == DetailsOf(request)
    ensures r.ProgressContent? <==> m.kind == ProgressUpdate && m.progress.Some?
    ensures r.ProgressContent? ==> r.card == ProgressCardOf(m.progress.value)
    ensures r.GatePassCreated? <==> m.kind == GatePassDetails && m.gatePass.Some?
    ensures r.GatePassCreated? ==> r.pass == m.gatePass.value
    ensures r.VehicleIn? <==> m.kind == GatePassIn && m.gatePass.Some?
    ensures r.VehicleIn? ==>
              r.vehicleNumber == m.gatePass.value.vehicleNumber &&
              r.at == (if Truthy(m.gatePass.value.inTime) then m.gatePass.value.inTime else None)
    ensures r.VehicleOut? <==> m.kind == GatePassOut && m.gatePass.Some?
    ensures r.VehicleOut? ==>
              r.vehicleNumber == m.gatePass.value.vehicleNumber &&
              r.at == (if Truthy(m.gatePass.value.outTime) then m.gatePass.value.outTime else None)
  {
    match m.kind
    case Approval => if CanApprove(viewer) then ApprovalCard(m.content) else Nothing
    case DatePrompt => DatePromptCard(m.content)
    case OutpassGeneration => OutPassCard(m.content, OutPassLink(m.requestId))
    case PaymentTracking => PaymentCard(m.content)
    case File => if m.file.Some? then FileContent(FileViewOf(m.file.value)) else Nothing
    case RequestDetails => DetailsContent(DetailsOf(request))
    case ProgressUpdate => if m.progress.Some? then ProgressContent(ProgressCardOf(m.progress.value)) else Nothing
    case GatePassDetails => if m.gatePass.Some? then GatePassCreated(m.gatePass.value) else Nothing
    case GatePassIn =>
      if m.gatePass.Some? then
        var p := m.gatePass.value;
        VehicleIn(p.vehicleNumber, if Truthy(p.inTime) then p.inTime else None)
      else Nothing
    case GatePassOut =>
      if m.gatePass.Some? then
        var p := m.gatePass.value;
        VehicleOut(p.vehicleNumber, if Truthy(p.outTime) then p.outTime else None)
      else Nothing
    case Text => TextBody(m.content, isCurrentUser)
    case _ => SystemNote(m.content)
  }

  /** The entry kind a card belongs to; the italic note is shared by three
      kinds and `Nothing` by several, so neither names one. */
  function KindOfContent(c: Content): Option<MessageType> {
    match c
    case Nothing => None
    case SystemNote(_) => None
    case ApprovalCard(_) => Some(Approval)
    case DatePromptCard(_) => Some(DatePrompt)
    case OutPassCard(_, _) => Some(OutpassGeneration)
    case PaymentCard(_) => Some(PaymentTracking)
    case FileContent(_) => Some(File)
    case DetailsContent(_) => Some(RequestDetails)
    case ProgressContent(_) => Some(ProgressUpdate)
    case GatePassCreated(_) => Some(GatePassDetails)
    case VehicleOut(_, _) => Some(GatePassOut)
    case VehicleIn(_, _) => Some(GatePassIn)
    case TextBody(_, _) => Some(Text)
  }

  /** Every card but the note and `Nothing` tells back the kind of the entry
      that produced it, and the note tells back that the kind is one of
      the three note kinds. */
  lemma ContentTellsKind(m: Message, isCurrentUser: bool, request: Request, viewer: User)
    ensures var c := MessageContent(m, isCurrentUser, request, viewer);
            c != Nothing && !c.SystemNote? ==> KindOfContent(c) == Some(m.kind)
    ensures MessageContent(m, isCurrentUser, request, viewer).SystemNote? ==> m.kind in NoteKinds
  {
  }

  /** The avatar beside another person's bubble. */
  datatype Avatar = Avatar(image: string, fallback: string)

  /** A whole entry. `Fault` is the TypeError raised when a bubble from
      someone else has no sender record to read the name from. */
  datatype Rendered =
    | Hidden
    | Centered(content: Content)
    | Bubble(own: bool, avatar: Option<Avatar>, senderName: Option<string>, timestamp: string,
             content: Content, seenTick: Option<bool>)
    | Fault

  /** `ChatMessage`. */
  function Render(m: Message, sender: Option<User>, isCurrentUser: bool, request: Request, viewer: User): (r: Rendered)
    ensures r.Hidden? <==> m.kind == Approval && !CanApprove(viewer)
    ensures r.Centered? <==> m.kind in CenteredKinds && !r.Hidden?
    ensures r.Fault? <==> m.kind !in CenteredKinds && !isCurrentUser && sender.None?
    ensures r.Centered? || r.Bubble? ==> r.content == MessageContent(m, isCurrentUser, request, viewer)
    ensures r.Bubble? ==> r.own == isCurrentUser
    ensures r.Bubble? ==> (r.avatar.Some? <==> !isCurrentUser) && (r.senderName.Some? <==> !isCurrentUser)
    ensures r.Bubble? && !isCurrentUser ==> r.senderName == Some(sender.value.name)
    ensures r.Bubble? && !isCurrentUser ==>
              r.avatar == Some(Avatar(sender.value.avatar, FirstChar(sender.value.name)))
    ensures r.Bubble? ==> r.timestamp == m.timestamp
    ensures r.Bubble? ==> (r.seenTick.Some? <==> isCurrentUser)
    ensures r.Bubble? && isCurrentUser ==> r.seenTick == Some(m.seen)
  {
    if m.kind in CenteredKinds then
      if m.kind == Approval && !CanApprove(viewer) then Hidden
      else Centered(MessageContent(m, isCurrentUser, request, viewer))
    else if isCurrentUser then
      Bubble(true, None, None, m.timestamp, MessageContent(m, isCurrentUser, request, viewer), Some(m.seen))
    else if sender.Some? then
      var u := sender.value;
      Bubble(false, Some(Avatar(u.avatar, FirstChar(u.name))), Some(u.name), m.timestamp,
             MessageContent(m, isCurrentUser, request, viewer), None)
    else Fault
  }

  /** Exactly three kinds are drawn as bubbles: free text, files and the
      missed-deadline notice, which is a bubble holding a system note. */
  lemma BubbleKinds(k: MessageType)
    ensures k !in CenteredKinds <==> k == Text || k == File || k == DeadlineMissed
  {
  }

  /** An approval request is hidden from exactly the viewers who may not act
      on it; to the others it is a centred card carrying its text. */
  lemma ApprovalVisibility(m: Message, sender: Option<User>, isCurrentUser: bool, request: Request, viewer: User)
    requires m.kind == Approval
    ensures Render(m, sender, isCurrentUser, request, viewer).Hidden? <==>
              viewer.role != "HOD" && viewer.role != "CFO" && viewer.role != "Registrar" && viewer.role != "Administrator"
    ensures !Render(m, sender, isCurrentUser, request, viewer).Hidden? ==>
              Render(m, sender, isCurrentUser, request, viewer) == Centered(ApprovalCard(m.content))
  {
  }

  /** A missed-deadline notice is never centred: it is a bubble from its
      sender whose body is the italic note. */
  lemma DeadlineNoticeIsBubble(m: Message, sender: User, isCurrentUser: bool, request: Request, viewer: User)
    requires m.kind == DeadlineMissed
    ensures Render(m, Some(sender), isCurrentUser, request, viewer).Bubble?
    ensures Render(m, Some(sender), isCurrentUser, request, viewer).content == SystemNote(m.content)
  {
  }

  /** A gate-pass status change has no card of its own: it shows as the
      italic note, centred. */
  lemma GatePassUpdateIsNote(m: Message, sender: Option<User>, isCurrentUser: bool, request: Request, viewer: User)
    requires m.kind == GatePassUpdate
    ensures Render(m, sender, isCurrentUser, request, viewer) == Centered(SystemNote(m.content))
  {
  }
}
