/** The conversation sidebar of `src/components/dashboard/chat/chat-list.tsx`. */
module ChatList {
  import opened Base
  import opened Types

  /** One row of the sidebar. */
  datatype ListEntry = ListEntry(
    requestId: string,
    title: string,
    highlighted: bool,
    avatarImage: Option<string>,
    avatarFallback: string,
    preview: string,
    lastActivity: string)

  /** The row of a request that has at least one message. */
  function EntryFor(request: Request, users: seq<User>, selected: Option<string>): (r: ListEntry)
    requires |request.messages| > 0
    ensures r.requestId == request.id && r.title == request.title
    ensures r.preview == request.messages[|request.messages| - 1].content
    ensures r.lastActivity == request.messages[|request.messages| - 1].timestamp
    ensures r.highlighted <==> selected == Some(request.id)
    ensures r.avatarImage.Some? <==>
              FindUser(users, request.createdBy).Some? && FindUser(users, request.createdBy).value.avatar != ""
    ensures r.avatarImage.Some? ==> r.avatarImage.value == FindUser(users, request.createdBy).value.avatar
    ensures |r.avatarFallback| == 1
    ensures FindUser(users, request.createdBy).None? ==> r.avatarFallback == "U"
    ensures FindUser(users, request.createdBy).Some? && FindUser(users, request.createdBy).value.name != "" ==>
              r.avatarFallback[0] == FindUser(users, request.createdBy).value.name[0]
    ensures FindUser(users, request.createdBy).Some? && FindUser(users, request.createdBy).value.name == "" ==>
              r.avatarFallback == "U"
  {
    var last := request.messages[|request.messages| - 1];
    var creator := FindUser(users, request.createdBy);
    ListEntry(
      request.id,
      request.title,
      selected == Some(request.id),
      if creator.Some? && creator.value.avatar != "" then Some(creator.value.avatar) else None,
      OrElse(if creator.Some? then FirstChar(creator.value.name) else "", "U"),
      last.content,
      last.timestamp)
  }

  /** The requests that get a row: those with at least one message, in order. */
  function Shown(requests: seq<Request>): (r: seq<Request>)
    ensures |r| <= |requests|
    ensures forall i :: 0 <= i < |r| ==> |r[i].messages| > 0
  {
    if |requests| == 0 then []
    else if |requests[0].messages| == 0 then Shown(requests[1..])
    else [requests[0]] + Shown(requests[1..])
  }

  /** A request is in the sidebar exactly when it is in the input and has a
      message; none is dropped and none is made up. */
  lemma {:induction false} ShownMembers(requests: seq<Request>, q: Request)
    ensures q in Shown(requests) <==> q in requests && |q.messages| > 0
  {
    if |requests| > 0 {
      ShownMembers(requests[1..], q);
      assert requests == [requests[0]] + requests[1..];
    }
  }

  /** The sidebar keeps the input order: the rows of two lists placed one
      after the other are the rows of the first followed by those of the
      second. */
  lemma {:induction false} ShownAppend(a: seq<Request>, b: seq<Request>)
    ensures Shown(a + b) == Shown(a) + Shown(b)
    decreases |a|
  {
    if |a| == 0 {
      assert a + b == b;
    } else {
      assert (a + b)[0] == a[0];
      assert (a + b)[1..] == a[1..] + b;
      ShownAppend(a[1..], b);
    }
  }

  /** A request without messages takes no row and leaves the others as
      they were. */
  lemma SkipsSilent(a: seq<Request>, q: Request, b: seq<Request>)
    requires |q.messages| == 0
    ensures Shown(a + [q] + b) == Shown(a) + Shown(b)
  {
    ShownAppend(a + [q], b);
    ShownAppend(a, [q]);
    assert [q][1..] == [];
  }

  /** When every request has a message, all of them are shown, in order. */
  lemma {:induction false} ShownAll(requests: seq<Request>)
    requires forall i :: 0 <= i < |requests| ==> |requests[i].messages| > 0
    ensures Shown(requests) == requests
  {
    if |requests| > 0 {
      ShownAll(requests[1..]);
      assert requests == [requests[0]] + requests[1..];
    }
  }

  /** `ChatList`: the rows, one per shown request, in order. */
  function Rows(requests: seq<Request>, users: seq<User>, selected: Option<string>): (r: seq<ListEntry>)
    ensures |r| == |Shown(requests)|
    ensures forall i :: 0 <= i < |r| ==> r[i] == EntryFor(Shown(requests)[i], users, selected)
  {
    var shown := Shown(requests);
    seq(|shown|, i requires 0 <= i < |shown| => EntryFor(shown[i], users, selected))
  }

  /** At most one row is highlighted when request ids are distinct. */
  lemma OneHighlight(requests: seq<Request>, users: seq<User>, selected: Option<string>, i: nat, j: nat)
    requires i < |Rows(requests, users, selected)| && j < |Rows(requests, users, selected)|
    requires Shown(requests)[i].id != Shown(requests)[j].id
    ensures !(Rows(requests, users, selected)[i].highlighted && Rows(requests, users, selected)[j].highlighted)
  {
  }

  /** Clicking a row selects its request. */
  function Select(row: ListEntry): (id: string)
    ensures forall requests, users, selected, i ::
              0 <= i < |Rows(requests, users, selected)| && Rows(requests, users, selected)[i] == row ==>
              id == Shown(requests)[i].id
  {
    row.requestId
  }
}
