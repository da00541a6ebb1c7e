/** The "Create New Thread" page (`src/app/dashboard/requests/new/page.tsx`):
    the four document slots and their edits, the checks `handleSubmit` makes
    before posting, the ordered multipart form it builds, and the text shown
    when the backend refuses the thread. */
module NewRequest {
  import opened Base
  import opened Types

  /** A file picked in a document slot; only its identity matters here. */
  datatype UploadFile = UploadFile(fileName: string)

  /** One of the four "Document N" rows: a name and perhaps a file. */
  datatype DocumentSlot = DocumentSlot(name: string, file: Option<UploadFile>)

  /** The page starts with four empty slots. */
  const InitialSlots: seq<DocumentSlot> := seq(4, _ => DocumentSlot("", None))

  /** `handleDocNameChange(index, name)`: only the name of slot `index` changes. */
  function SetDocumentName(docs: seq<DocumentSlot>, index: nat, name: string): (r: seq<DocumentSlot>)
    requires index < |docs|
    ensures |r| == |docs|
    ensures r[index].name == name && r[index].file == docs[index].file
    ensures forall j :: 0 <= j < |docs| && j != index ==> r[j] == docs[j]
  {
    docs[index := docs[index].(name := name)]
  }

  /** `handleDocFileChange(index, file)`: only the file of slot `index` changes. */
  function SetDocumentFile(docs: seq<DocumentSlot>, index: nat, file: Option<UploadFile>): (r: seq<DocumentSlot>)
    requires index < |docs|
    ensures |r| == |docs|
    ensures r[index].file == file && r[index].name == docs[index].name
    ensures forall j :: 0 <= j < |docs| && j != index ==> r[j] == docs[j]
  {
    docs[index := docs[index].(file := file)]
  }

  /** Any sequence of slot edits keeps exactly four slots. */
  lemma EditsKeepFourSlots(docs: seq<DocumentSlot>, index: nat, name: string, file: Option<UploadFile>)
    requires |docs| == 4 && index < 4
    ensures |SetDocumentName(docs, index, name)| == 4
    ensures |SetDocumentFile(docs, index, file)| == 4
    ensures SetDocumentFile(SetDocumentName(docs, index, name), index, file)[index] == DocumentSlot(name, file)
  {
  }

  // ---------------------------------------------------------------------------
  // The form

  /** The fields the user typed or picked. */
  datatype ThreadDraft = ThreadDraft(
    requestCategory: string,
    title: string,
    description: string,
    vehicleNumber: string,
    vehicleType: string,
    documents: seq<DocumentSlot>)

  datatype FormValue = TextValue(text: string) | FileValue(file: UploadFile)

  /** One `formData.append(key, value)`. */
  datatype FormEntry = FormEntry(key: string, value: FormValue)

  /** A slot is sent when it has both a name and a file. */
  predicate Attached(d: DocumentSlot) {
    d.file.Some? && d.name != ""
  }

  /** `document_{n}_name` and `document_{n}_file`, numbered from 1. */
  function DocumentNameKey(n: nat): string {
    "document_" + NatToString(n) + "_name"
  }

  function DocumentFileKey(n: nat): string {
    "document_" + NatToString(n) + "_file"
  }

  /** Entries of the slots from `from` on, each attached slot contributing
      its name then its file, numbered by its position. */
  function DocumentEntries(docs: seq<DocumentSlot>, from: nat): seq<FormEntry>
    requires from <= |docs|
    decreases |docs| - from
  {
    if from == |docs| then []
    else
      (if Attached(docs[from])
       then [FormEntry(DocumentNameKey(from + 1), TextValue(docs[from].name)),
             FormEntry(DocumentFileKey(from + 1), FileValue(docs[from].file.value))]
       else [])
      + DocumentEntries(docs, from + 1)
  }

  /** The three required fields, in the order they are appended. */
  function RequiredEntries(d: ThreadDraft): seq<FormEntry> {
    [FormEntry("request_category", TextValue(d.requestCategory)),
     FormEntry("title", TextValue(d.title)),
     FormEntry("description", TextValue(d.description))]
  }

  /** The optional vehicle fields, each only when non-empty. */
  function VehicleEntries(d: ThreadDraft): seq<FormEntry> {
    (if d.vehicleNumber != "" then [FormEntry("vehicle_number", TextValue(d.vehicleNumber))] else [])
    + (if d.vehicleType != "" then [FormEntry("vehicle_type", TextValue(d.vehicleType))] else [])
  }

  /** The multipart body `handleSubmit` posts. */
  function FormData(d: ThreadDraft): (form: seq<FormEntry>)
    ensures |form| >= 3 && form[..3] == RequiredEntries(d)
  {
    RequiredEntries(d) + VehicleEntries(d) + DocumentEntries(d.documents, 0)
  }

  /** How many slots are sent. */
  function AttachedCount(docs: seq<DocumentSlot>): nat {
    if docs == [] then 0
    else (if Attached(docs[0]) then 1 else 0) + AttachedCount(docs[1..])
  }

  /** The slots from `from` on contribute two entries per attached slot and
      nothing else. */
  lemma {:induction false} DocumentEntriesLength(docs: seq<DocumentSlot>, from: nat)
    requires from <= |docs|
    ensures |DocumentEntries(docs, from)| == 2 * AttachedCount(docs[from..])
    decreases |docs| - from
  {
    if from < |docs| {
      DocumentEntriesLength(docs, from + 1);
      assert docs[from..][1..] == docs[from + 1..];
    }
  }

  /** The form has no entry beyond the three required fields, one per
      non-empty vehicle field, and a name and a file per attached slot, so no
      entry is appended twice. */
  lemma FormDataLength(d: ThreadDraft)
    ensures |FormData(d)| ==
              3 + (if d.vehicleNumber != "" then 1 else 0) + (if d.vehicleType != "" then 1 else 0)
              + 2 * AttachedCount(d.documents)
  {
    DocumentEntriesLength(d.documents, 0);
    assert d.documents[0..] == d.documents;
  }

  /** What `handleSubmit` does before the request leaves the browser. */
  datatype Submission =
    | MissingRequiredFields
    | NotLoggedIn
    | Post(form: seq<FormEntry>)

  /** `handleSubmit` up to the `fetch`: the required fields are checked for
      emptiness first, the stored token second. */
  function PrepareSubmission(d: ThreadDraft, token: Option<string>): (r: Submission)
    ensures r == MissingRequiredFields <==>
      d.requestCategory == "" || d.title == "" || d.description == ""
    ensures r == NotLoggedIn <==>
      d.requestCategory != "" && d.title != "" && d.description != "" && !HasToken(token)
    ensures r.Post? ==> HasToken(token) && r.form == FormData(d)
  {
    if d.requestCategory == "" || d.title == "" || d.description == "" then MissingRequiredFields
    else if !HasToken(token) then NotLoggedIn
    else Post(FormData(d))
  }

  /** Whitespace is content: a title of one space passes the check. */
  lemma WhitespaceTitlePasses(category: string, description: string, token: string)
    requires category != "" && description != "" && token != ""
    ensures PrepareSubmission(ThreadDraft(category, " ", description, "", "", InitialSlots), Some(token)).Post?
  {
  }

  /** Missing fields are reported even when nobody is logged in. */
  lemma MissingFieldsBeforeToken(d: ThreadDraft, token: Option<string>)
    requires d.title == ""
    ensures PrepareSubmission(d, token) == MissingRequiredFields
  {
  }

  // ---------------------------------------------------------------------------
  // Reading the form back: every key occurs for exactly the reason it should

  /** Document keys all begin with "document_". */
  predicate IsDocumentKey(k: string) {
    |k| >= 9 && k[..9] == "document_"
  }

  lemma DocumentKeyShape(n: nat)
    ensures IsDocumentKey(DocumentNameKey(n)) && IsDocumentKey(DocumentFileKey(n))
    ensures var k := DocumentNameKey(n); k[9..|k| - 5] == NatToString(n) && k[|k| - 5..] == "_name"
    ensures var k := DocumentFileKey(n); k[9..|k| - 5] == NatToString(n) && k[|k| - 5..] == "_file"
  {
  }

  /** Document keys differ from each other unless they are the same key. */
  lemma DocumentKeysDistinct(m: nat, n: nat)
    ensures DocumentNameKey(m) != DocumentFileKey(n)
    ensures DocumentNameKey(m) == DocumentNameKey(n) ==> m == n
    ensures DocumentFileKey(m) == DocumentFileKey(n) ==> m == n
  {
    DocumentKeyShape(m);
    DocumentKeyShape(n);
    var a, b := DocumentNameKey(m), DocumentFileKey(n);
    assert a[|a| - 5..] != b[|b| - 5..];
    if DocumentNameKey(m) == DocumentNameKey(n) {
      NatToStringInjective(m, n);
    }
    if DocumentFileKey(m) == DocumentFileKey(n) {
      NatToStringInjective(m, n);
    }
  }

  lemma FixedKeysAreNotDocumentKeys()
    ensures !IsDocumentKey("request_category") && !IsDocumentKey("title")
    ensures !IsDocumentKey("description")
    ensures !IsDocumentKey("vehicle_number") && !IsDocumentKey("vehicle_type")
  {
    assert "description"[..9] != "document_" by {
      assert "description"[1] != "document_"[1];
    }
    assert "request_category"[0] != 'd';
    assert "vehicle_number"[0] != 'd';
    assert "vehicle_type"[0] != 'd';
  }

  lemma {:induction false} DocumentEntriesHaveDocumentKeys(docs: seq<DocumentSlot>, from: nat)
    requires from <= |docs|
    ensures forall e :: e in DocumentEntries(docs, from) ==> IsDocumentKey(e.key)
    decreases |docs| - from
  {
    if from < |docs| {
      DocumentKeyShape(from + 1);
      DocumentEntriesHaveDocumentKeys(docs, from + 1);
    }
  }

  /** Slot `n` (numbered from 1) is named in the entries iff it lies in the
      range and is attached, and then with its own name. */
  lemma {:induction false} DocumentNameEntry(docs: seq<DocumentSlot>, from: nat, n: nat, v: FormValue)
    requires from <= |docs|
    ensures FormEntry(DocumentNameKey(n), v) in DocumentEntries(docs, from) <==>
      from < n <= |docs| && Attached(docs[n - 1]) && v == TextValue(docs[n - 1].name)
    decreases |docs| - from
  {
    if from < |docs| {
      DocumentNameEntry(docs, from + 1, n, v);
      DocumentKeysDistinct(n, from + 1);
      var e := FormEntry(DocumentNameKey(n), v);
      var rest := DocumentEntries(docs, from + 1);
      if Attached(docs[from]) {
        var name := FormEntry(DocumentNameKey(from + 1), TextValue(docs[from].name));
        var file := FormEntry(DocumentFileKey(from + 1), FileValue(docs[from].file.value));
        assert DocumentEntries(docs, from) == [name, file] + rest;
        assert e != file;
        if n == from + 1 {
          assert e == name <==> v == TextValue(docs[from].name);
        } else {
          assert e != name;
        }
      } else {
        assert DocumentEntries(docs, from) == rest;
      }
    }
  }

  /** The same for the file entry of slot `n`. */
  lemma {:induction false} DocumentFileEntry(docs: seq<DocumentSlot>, from: nat, n: nat, v: FormValue)
    requires from <= |docs|
    ensures FormEntry(DocumentFileKey(n), v) in DocumentEntries(docs, from) <==>
      from < n <= |docs| && Attached(docs[n - 1]) && v == FileValue(docs[n - 1].file.value)
    decreases |docs| - from
  {
    if from < |docs| {
      DocumentFileEntry(docs, from + 1, n, v);
      DocumentKeysDistinct(from + 1, n);
      var e := FormEntry(DocumentFileKey(n), v);
      var rest := DocumentEntries(docs, from + 1);
      if Attached(docs[from]) {
        var name := FormEntry(DocumentNameKey(from + 1), TextValue(docs[from].name));
        var file := FormEntry(DocumentFileKey(from + 1), FileValue(docs[from].file.value));
        assert DocumentEntries(docs, from) == [name, file] + rest;
        assert e != name;
        if n == from + 1 {
          assert e == file <==> v == FileValue(docs[from].file.value);
        } else {
          assert e != file;
        }
      } else {
        assert DocumentEntries(docs, from) == rest;
      }
    }
  }

  /** In the whole form, slot `n` contributes `document_{n}_name` and
      `document_{n}_file` exactly when it has a name and a file; numbering
      follows slot positions, so empty slots leave gaps. */
  lemma FormDocumentEntries(d: ThreadDraft, n: nat, v: FormValue)
    ensures FormEntry(DocumentNameKey(n), v) in FormData(d) <==>
      1 <= n <= |d.documents| && Attached(d.documents[n - 1]) && v == TextValue(d.documents[n - 1].name)
    ensures FormEntry(DocumentFileKey(n), v) in FormData(d) <==>
      1 <= n <= |d.documents| && Attached(d.documents[n - 1]) && v == FileValue(d.documents[n - 1].file.value)
  {
    DocumentNameEntry(d.documents, 0, n, v);
    DocumentFileEntry(d.documents, 0, n, v);
    DocumentKeyShape(n);
    FixedKeysAreNotDocumentKeys();
    var head := RequiredEntries(d) + VehicleEntries(d);
    assert forall e :: e in head ==> !IsDocumentKey(e.key);
    assert FormData(d) == head + DocumentEntries(d.documents, 0);
  }

  /** The vehicle fields appear iff they were filled in, with their values. */
  lemma FormVehicleEntries(d: ThreadDraft, v: FormValue)
    ensures FormEntry("vehicle_number", v) in FormData(d) <==>
      d.vehicleNumber != "" && v == TextValue(d.vehicleNumber)
    ensures FormEntry("vehicle_type", v) in FormData(d) <==>
      d.vehicleType != "" && v == TextValue(d.vehicleType)
  {
    FixedKeysAreNotDocumentKeys();
    DocumentEntriesHaveDocumentKeys(d.documents, 0);
    var docs := DocumentEntries(d.documents, 0);
    assert FormData(d) == RequiredEntries(d) + VehicleEntries(d) + docs;
    var number, kind := FormEntry("vehicle_number", v), FormEntry("vehicle_type", v);
    assert number !in docs && kind !in docs;
    assert number !in RequiredEntries(d) && kind !in RequiredEntries(d);
    assert number in FormData(d) <==> number in VehicleEntries(d);
    assert kind in FormData(d) <==> kind in VehicleEntries(d);
  }

  /** An attached slot's name entry is immediately followed by its file. */
  lemma {:induction false} NameThenFile(docs: seq<DocumentSlot>, from: nat, k: nat)
    requires from <= |docs|
    requires k < |DocumentEntries(docs, from)|
    requires DocumentEntries(docs, from)[k].value.TextValue?
    ensures k + 1 < |DocumentEntries(docs, from)|
    ensures var es := DocumentEntries(docs, from);
      exists n :: from < n <= |docs| && Attached(docs[n - 1]) &&
        es[k] == FormEntry(DocumentNameKey(n), TextValue(docs[n - 1].name)) &&
        es[k + 1] == FormEntry(DocumentFileKey(n), FileValue(docs[n - 1].file.value))
    decreases |docs| - from
  {
    var es := DocumentEntries(docs, from);
    var rest := DocumentEntries(docs, from + 1);
    if Attached(docs[from]) {
      var name := FormEntry(DocumentNameKey(from + 1), TextValue(docs[from].name));
      var file := FormEntry(DocumentFileKey(from + 1), FileValue(docs[from].file.value));
      assert es == [name, file] + rest;
      if k == 0 {
        assert es[0] == name && es[1] == file;
      } else {
        assert es[1] == file;
        assert k != 1;
        assert es[k] == rest[k - 2];
        NameThenFile(docs, from + 1, k - 2);
        var n :| from + 1 < n <= |docs| && Attached(docs[n - 1]) &&
          rest[k - 2] == FormEntry(DocumentNameKey(n), TextValue(docs[n - 1].name)) &&
          rest[k - 1] == FormEntry(DocumentFileKey(n), FileValue(docs[n - 1].file.value));
        assert es[k + 1] == rest[k - 1];
      }
    } else {
      assert es == rest;
      NameThenFile(docs, from + 1, k);
    }
  }

  // ---------------------------------------------------------------------------
  // The reply

  /** One value of the backend's error object: a single value or a list of
      them. Each value is given as the text `join` prints for it, which is
      the message itself for a string, "" for null, the decimal form for a
      number and "[object Object]" for an object. */
  datatype ErrorValue = OneMessage(text: string) | MessageList(items: seq<string>)

  /** `.flat()`: lists are spliced in, one level deep. */
  function Flatten(values: seq<ErrorValue>): (r: seq<string>)
    ensures |values| == 0 ==> r == []
    decreases |values|
  {
    if |values| == 0 then []
    else
      (match values[0]
       case OneMessage(t) => [t]
       case MessageList(items) => items)
      + Flatten(values[1..])
  }

  const UnknownError: string := "An unknown error occurred."
  const RequestProblem: string := "There was a problem with your request."

  /** `Object.values(result).flat().join('\n') || "An unknown error occurred."`. */
  function ErrorText(values: seq<ErrorValue>): (r: string)
    ensures r != ""
    ensures Join(Flatten(values), "\n") == "" ==> r == UnknownError
    ensures Join(Flatten(values), "\n") != "" ==> r == Join(Flatten(values), "\n")
  {
    OrElse(Join(Flatten(values), "\n"), UnknownError)
  }

  /** The messages can be read back from the text by splitting at line
      breaks, when none of them spans lines and they are not all blank. */
  lemma ErrorTextLines(values: seq<ErrorValue>)
    requires |Flatten(values)| >= 1
    requires forall m :: m in Flatten(values) ==> '\n' !in m
    requires Join(Flatten(values), "\n") != ""
    ensures Split(ErrorText(values), '\n') == Flatten(values)
  {
    SplitJoin(Flatten(values), '\n');
  }

  /** The backend's answer to the create request. */
  datatype CreateReply =
    | Created(threadNumber: int)
    | Refused(errors: seq<ErrorValue>)
    | NetworkFailure(message: string)

  datatype CreateOutcome = Navigate(path: string) | Failed(description: string)

  /** After the `fetch`: navigate to the new thread, or show why not. */
  function FinishSubmission(reply: CreateReply): (r: CreateOutcome)
    ensures reply.Created? ==> r == Navigate(ThreadsPath + IntToString(reply.threadNumber))
    ensures reply.Refused? ==> r == Failed(ErrorText(reply.errors))
    ensures reply.NetworkFailure? ==> r.Failed? && r.description != ""
    ensures reply.NetworkFailure? && reply.message != "" ==> r == Failed(reply.message)
    ensures reply.NetworkFailure? && reply.message == "" ==> r == Failed(RequestProblem)
  {
    match reply
    case Created(n) => Navigate(ThreadsPath + IntToString(n))
    case Refused(errors) => Failed(ErrorText(errors))
    case NetworkFailure(m) => Failed(OrElse(m, RequestProblem))
  }

  const ThreadsPath := "/dashboard/requests/"

  /** The page a created thread leads to names the thread: the path is the
      threads prefix followed by the number's decimal form, which reads back
      to the number, so different threads lead to different pages. */
  lemma CreatedPathReadsBack(n: nat, m: nat)
    ensures FinishSubmission(Created(n)).path[..|ThreadsPath|] == ThreadsPath
    ensures var tail := FinishSubmission(Created(n)).path[|ThreadsPath|..];
            (forall i :: 0 <= i < |tail| ==> IsDigit(tail[i])) && ParseNat(tail) == n
    ensures n != m ==> FinishSubmission(Created(n)) != FinishSubmission(Created(m))
  {
    var p := FinishSubmission(Created(n)).path;
    assert p == ThreadsPath + NatToString(n);
    assert p[|ThreadsPath|..] == NatToString(n);
    ParseNatToString(n);
    if n != m {
      var q := FinishSubmission(Created(m)).path;
      assert q[|ThreadsPath|..] == NatToString(m);
      ParseNatToString(m);
    }
  }
}
