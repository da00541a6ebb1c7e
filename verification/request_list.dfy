/** The request cards of `src/components/dashboard/request-list.tsx`. */
module RequestList {
  import opened Base
  import opened Types
  import Dashboard

  /** `getStatusClass` of the request list: the same colours as the
      dashboard, but the status must match a name exactly. */
  function StatusClass(status: string): (r: string)
    ensures forall st: RequestStatus :: status == st.Name() ==> r == Dashboard.BadgePalette(st)
    ensures (forall st: RequestStatus :: status != st.Name()) ==> r == Dashboard.BadgeFallback
  {
    match StatusNamed(status)
    case Some(st) => Dashboard.BadgePalette(st)
    case None => Dashboard.BadgeFallback
  }

  /** On a correctly spelt status both pages colour the badge alike. */
  lemma AgreesWithDashboard(st: RequestStatus)
    ensures StatusClass(st.Name()) == Dashboard.StatusClass(st.Name())
  {
    assert ToLower(st.Name()) == LowerName(st);
  }

  /** Only the dashboard forgives casing: "pending" is yellow there and grey here. */
  lemma CasingMatters()
    ensures StatusClass("pending") == Dashboard.BadgeFallback
    ensures Dashboard.StatusClass("pending") == Dashboard.BadgePalette(Pending)
  {
    assert ToLower("pending") == LowerName(Pending);
  }

  /** The thread page a card links to: the id with its first "TR-" removed. */
  function RequestLink(id: string): string {
    "/dashboard/requests/" + ReplaceFirst(id, "TR-", "")
  }

  /** For a thread label the link carries the padded number, which reads
      back to the thread number; from 100 on it is the dashboard's own link. */
  lemma LinkOfLabel(n: nat)
    ensures RequestLink(Dashboard.ThreadLabel(n)) == "/dashboard/requests/" + PadStart(NatToString(n), 3, '0')
    ensures ParseNat(PadStart(NatToString(n), 3, '0')) == n
    ensures n >= 100 ==> RequestLink(Dashboard.ThreadLabel(n)) == "/dashboard/requests/" + IntToString(n)
  {
    ReplaceLeadingOccurrence("TR-", PadStart(NatToString(n), 3, '0'));
    ParsePadded(n, 3);
    if n >= 100 {
      assert !(n < 10);
      assert |NatToString(n)| >= 3 by {
        assert NatToString(n) == NatToString(n / 10) + [DigitChar(n % 10)];
        assert !(n / 10 < 10);
      }
    }
  }

  /** One card of the list. */
  datatype Row = Row(
    tag: string,
    link: string,
    requestType: string,
    title: string,
    vehicleDetails: string,
    created: string,
    statusClass: string)

  function RowOf(q: Request): (r: Row)
    ensures r.tag == q.id && r.link == RequestLink(q.id) && r.title == q.title
    ensures r.requestType == q.requestType && r.vehicleDetails == q.vehicleDetails
    ensures r.created == q.createdAt
    ensures r.statusClass == StatusClass(q.status)
  {
    Row(q.id, RequestLink(q.id), q.requestType, q.title, q.vehicleDetails, q.createdAt, StatusClass(q.status))
  }

  /** The list: one card per request in the given order, and the "No requests
      found" placeholder exactly when there are none. */
  datatype ListView = ListView(rows: seq<Row>, placeholder: bool)

  function ListViewOf(requests: seq<Request>): (r: ListView)
    ensures |r.rows| == |requests|
    ensures forall i :: 0 <= i < |r.rows| ==> r.rows[i] == RowOf(requests[i])
    ensures r.placeholder <==> |r.rows| == 0
  {
    ListView(seq(|requests|, i requires 0 <= i < |requests| => RowOf(requests[i])), |requests| == 0)
  }
}
