/** How `src/components/dashboard/chat/chat-message-list.tsx` pairs each
    timeline entry with its sender and decides whose side it is on. */
module ChatMessageList {
  import opened Base
  import opened Types
  import ChatLayout

  /** The fixed record that stands for the platform as a sender. */
  const SystemSender := User("system", "System", "/logo.svg", "CFO")

  /** The sender of an entry: the platform for id "system" (even when the
      directory also holds a "system" user), otherwise the first directory
      user with that id, if any. */
  function SenderOf(users: seq<User>, senderId: string): (r: Option<User>)
    ensures r.Some? ==> r.value.id == senderId
    ensures r.None? <==> senderId != "system" && forall u :: u in users ==> u.id != senderId
    ensures senderId == "system" ==> r == Some(SystemSender)
    ensures senderId != "system" && r.Some? ==> r.value in users
  {
    if senderId == "system" then Some(SystemSender) else FindUser(users, senderId)
  }

  /** What the list hands to each `ChatMessage`. */
  datatype Entry = Entry(message: Message, sender: Option<User>, isCurrentUser: bool)

  function EntryOf(users: seq<User>, viewer: User, m: Message): (r: Entry)
    ensures r.message == m && r.sender == SenderOf(users, m.senderId)
    ensures r.isCurrentUser <==> m.senderId == viewer.id
  {
    Entry(m, SenderOf(users, m.senderId), m.senderId == viewer.id)
  }

  /** One entry per timeline message, in timeline order. */
  function Entries(request: Request, users: seq<User>, viewer: User): (r: seq<Entry>)
    ensures |r| == |request.messages|
    ensures forall i :: 0 <= i < |r| ==> r[i] == EntryOf(users, viewer, request.messages[i])
  {
    seq(|request.messages|, i requires 0 <= i < |request.messages| => EntryOf(users, viewer, request.messages[i]))
  }

  /** Every entry on the viewer's side is one the viewer sent, and a message
      from the platform is on the viewer's side only for a viewer whose id
      is "system". */
  lemma OwnEntries(request: Request, users: seq<User>, viewer: User, i: nat)
    requires i < |request.messages|
    ensures Entries(request, users, viewer)[i].isCurrentUser ==>
              Entries(request, users, viewer)[i].sender.Some? ==>
              Entries(request, users, viewer)[i].sender.value.id == viewer.id
    ensures request.messages[i].senderId == "system" ==>
              (Entries(request, users, viewer)[i].isCurrentUser <==> viewer.id == "system")
  {
  }

  /** Adding a message to the open conversation adds exactly one entry at
      the bottom of the list and leaves the others as they were. */
  lemma AddMessageExtendsList(q: Request, users: seq<User>, viewer: User, m: Message)
    ensures ChatLayout.AddMessage(Some(q), m).Some?
    ensures Entries(ChatLayout.AddMessage(Some(q), m).value, users, viewer) ==
              Entries(q, users, viewer) + [EntryOf(users, viewer, m)]
  {
    var q' := ChatLayout.AddMessage(Some(q), m).value;
    assert q'.messages == q.messages + [m];
  }
}
