/** The title bar of an open conversation (`src/components/dashboard/chat/chat-topbar.tsx`). */
module ChatTopbar {
  import opened Base
  import opened Types

  datatype Variant = DefaultVariant | SecondaryVariant | DestructiveVariant | OutlineVariant

  /** `getStatusVariant`: an exact match on four labels. Two of them,
      "Pending Approval" and "In Progress", are not status names. */
  function StatusVariant(status: string): (r: Variant)
    ensures r == SecondaryVariant <==> status == "Approved"
    ensures r == DestructiveVariant <==> status == "Rejected"
    ensures r == OutlineVariant <==> status == "In Progress"
  {
    if status == "Pending Approval" then DefaultVariant
    else if status == "Approved" then SecondaryVariant
    else if status == "Rejected" then DestructiveVariant
    else if status == "In Progress" then OutlineVariant
    else DefaultVariant
  }

  /** Over the statuses a request can actually have, the outline look never
      appears: only Approved and Rejected differ from the default. */
  lemma VariantOfStatuses(st: RequestStatus)
    ensures StatusVariant(st.Name()) != OutlineVariant
    ensures StatusVariant(st.Name()) == SecondaryVariant <==> st == Approved
    ensures StatusVariant(st.Name()) == DestructiveVariant <==> st == Rejected
    ensures st != Approved && st != Rejected ==> StatusVariant(st.Name()) == DefaultVariant
  {
  }

  datatype Topbar = Topbar(backButton: bool, title: string, status: string, variant: Variant, details: string)

  /** `ChatTopbar`: the back button appears only when a back action is given. */
  function TopbarOf(request: Request, hasBack: bool): (r: Topbar)
    ensures r.backButton <==> hasBack
    ensures r.title == request.title && r.status == request.status && r.details == request.vehicleDetails
    ensures r.variant == StatusVariant(request.status)
  {
    Topbar(hasBack, request.title, request.status, StatusVariant(request.status), request.vehicleDetails)
  }
}
