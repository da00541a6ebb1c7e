/** The records and enumerations of `src/lib/types.ts`, plus the few fields of
    the raw backend thread (`apiData`) that the components read. */
module Types {
  import opened Base

  /** A person in the user directory. `role` is free text: the source lists
      Supervisor, CFO, GateTeam, HOD, Registrar and Administrator but admits
      any string. */
  datatype User = User(id: string, name: string, avatar: string, role: string)

  /** `MessageType`: the fourteen kinds of timeline entry. */
  datatype MessageType =
    | Text
    | System
    | Approval
    | DatePrompt
    | OutpassGeneration
    | DeadlineMissed
    | PaymentTracking
    | File
    | RequestDetails
    | ProgressUpdate
    | GatePassDetails
    | GatePassUpdate
    | GatePassOut
    | GatePassIn

  /** `RequestStatus`: the eight workflow states, each with its display name. */
  datatype RequestStatus =
    | Pending
    | Approved
    | Working
    | WorkCompleted
    | PaymentPending
    | PaymentDone
    | Rejected
    | Overdue
  {
    /** The string value of the enumeration member. */
    function Name(): string {
      match this
      case Pending => "Pending"
      case Approved => "Approved"
      case Working => "Working"
      case WorkCompleted => "Work Completed"
      case PaymentPending => "Payment Pending"
      case PaymentDone => "Payment Done"
      case Rejected => "Rejected"
      case Overdue => "Overdue"
    }
  }

  /** All statuses in declaration order, the order in which the source's
      `switch` statements test them. */
  const AllStatuses: seq<RequestStatus> :=
    [Pending, Approved, Working, WorkCompleted, PaymentPending, PaymentDone, Rejected, Overdue]

  lemma AllStatusesComplete(st: RequestStatus)
    ensures st in AllStatuses
  {
  }

  /** The lower-case form of a status name, as the case-insensitive
      `switch` statements spell their labels. */
  function LowerName(st: RequestStatus): (r: string)
    ensures r == ToLower(st.Name())
  {
    match st
    case Pending => "pending"
    case Approved => "approved"
    case Working => "working"
    case WorkCompleted => "work completed"
    case PaymentPending => "payment pending"
    case PaymentDone => "payment done"
    case Rejected => "rejected"
    case Overdue => "overdue"
  }

  /** `switch (status)` over the status names: the status whose name is
      exactly `s`, if any. */
  function StatusNamed(s: string): (r: Option<RequestStatus>)
    ensures r.Some? ==> r.value.Name() == s
    ensures r.None? <==> forall st: RequestStatus :: st.Name() != s
  {
    if s == "Pending" then Some(Pending)
    else if s == "Approved" then Some(Approved)
    else if s == "Working" then Some(Working)
    else if s == "Work Completed" then Some(WorkCompleted)
    else if s == "Payment Pending" then Some(PaymentPending)
    else if s == "Payment Done" then Some(PaymentDone)
    else if s == "Rejected" then Some(Rejected)
    else if s == "Overdue" then Some(Overdue)
    else None
  }

  /** `switch (status.toLowerCase())` against the lower-cased names: the
      status whose name equals `s` ignoring case, if any. */
  function StatusIgnoringCase(s: string): (r: Option<RequestStatus>)
    ensures r.Some? ==> ToLower(s) == LowerName(r.value)
    ensures r.None? <==> forall st: RequestStatus :: ToLower(s) != LowerName(st)
  {
    var l := ToLower(s);
    if l == "pending" then Some(Pending)
    else if l == "approved" then Some(Approved)
    else if l == "working" then Some(Working)
    else if l == "work completed" then Some(WorkCompleted)
    else if l == "payment pending" then Some(PaymentPending)
    else if l == "payment done" then Some(PaymentDone)
    else if l == "rejected" then Some(Rejected)
    else if l == "overdue" then Some(Overdue)
    else None
  }

  /** Any casing of a status name finds that status, and only that one. */
  lemma StatusIgnoringCaseFinds(s: string, st: RequestStatus)
    requires ToLower(s) == ToLower(st.Name())
    ensures StatusIgnoringCase(s) == Some(st)
  {
    assert ToLower(s) == LowerName(st);
    match st
    case Pending =>
    case Approved =>
    case Working =>
    case WorkCompleted =>
    case PaymentPending =>
    case PaymentDone =>
    case Rejected =>
    case Overdue =>
  }

  /** The case-insensitive lookup finds every status whose lower-case name
      matches, so it finds exactly one when any matches. */
  lemma StatusIgnoringCaseUnique(s: string)
    ensures forall st: RequestStatus :: ToLower(s) == LowerName(st) ==> StatusIgnoringCase(s) == Some(st)
  {
    forall st: RequestStatus | ToLower(s) == LowerName(st)
      ensures StatusIgnoringCase(s) == Some(st)
    {
      StatusIgnoringCaseFinds(s, st);
    }
  }

  /** The exact lookup never finds a status the case-insensitive one misses. */
  lemma ExactImpliesIgnoringCase(s: string)
    ensures StatusNamed(s).Some? ==> StatusIgnoringCase(s) == StatusNamed(s)
  {
    if StatusNamed(s).Some? {
      StatusIgnoringCaseFinds(s, StatusNamed(s).value);
    }
  }

  /** `ProgressUpdate`. `progressType` is 'initial', 'delay' or 'completed'. */
  datatype ProgressUpdate = Progress(
    id: int,
    progressType: string,
    expectedEndDate: string,
    delayReason: Option<string>,
    updatedBy: int,
    updatedByName: string,
    createdAt: string)

  datatype PassMode = PassIn | PassOut

  /** `GatePass`. */
  datatype GatePass = GatePass(
    id: int,
    issuedTo: int,
    issuedToName: string,
    vehicleNumber: string,
    purpose: string,
    validFrom: string,
    validTo: string,
    status: string,
    createdAt: string,
    passMode: PassMode,
    outTime: Option<string>,
    inTime: Option<string>)

  /** The `type` of an attached file. */
  datatype FileKind = Image | Video | Pdf | Docx | Voice | OtherFile

  datatype Attachment = Attachment(name: string, url: string, kind: FileKind, size: Option<string>)

  /** `Message`: one timeline entry; `file`, `progress` and `gatePass` are the
      optional payloads. */
  datatype Message = Message(
    id: string,
    requestId: string,
    senderId: string,
    content: string,
    timestamp: string,
    kind: MessageType,
    seen: bool,
    file: Option<Attachment>,
    progress: Option<ProgressUpdate>,
    gatePass: Option<GatePass>)

  datatype Document = Document(name: string, url: string)

  /** The fields of the raw backend thread (`Request.apiData`) that the
      components read. `approvedBy` is the approver's numeric id, if any. */
  datatype ThreadData = ThreadData(
    id: int,
    approvalStatus: string,
    approvedBy: Option<int>,
    approvedByName: string,
    approvalAt: Option<string>,
    description: Option<string>,
    createdByName: string)

  /** `Request`: one transport request with its timeline. */
  datatype Request = Request(
    id: string,
    title: string,
    vehicleType: string,
    vehicleNumber: string,
    vehicleDetails: string,
    requestType: string,
    status: string,
    createdBy: string,
    cfo: string,
    createdAt: string,
    updatedAt: string,
    messages: seq<Message>,
    documents: seq<Document>,
    startDate: Option<string>,
    endDate: Option<string>,
    outpassQr: Option<string>,
    apiData: Option<ThreadData>)

  /** The position of the first user with id `id`, searching from `from`. */
  function FirstWithId(users: seq<User>, id: string, from: nat): (r: Option<nat>)
    requires from <= |users|
    ensures r.Some? ==> from <= r.value < |users| && users[r.value].id == id
    ensures r.Some? ==> forall j :: from <= j < r.value ==> users[j].id != id
    ensures r.None? ==> forall j :: from <= j < |users| ==> users[j].id != id
    decreases |users| - from
  {
    if from == |users| then None
    else if users[from].id == id then Some(from)
    else FirstWithId(users, id, from + 1)
  }

  /** `users.find(u => u.id === id)`: the first user with that id. */
  function FindUser(users: seq<User>, id: string): (r: Option<User>)
    ensures r.None? <==> forall u :: u in users ==> u.id != id
    ensures r.Some? ==> exists k :: 0 <= k < |users| && users[k] == r.value && r.value.id == id &&
                          forall j :: 0 <= j < k ==> users[j].id != id
  {
    match FirstWithId(users, id, 0)
    case None => None
    case Some(k) => Some(users[k])
  }

  /** A local browser-storage token, present only when it is a non-empty
      string (`if (!token)` rejects null and ""). */
  predicate HasToken(token: Option<string>) {
    Truthy(token)
  }
}
