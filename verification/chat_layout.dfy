/** The conversation state kept by `src/components/dashboard/chat/chat-layout.tsx`. */
module ChatLayout {
  import opened Base
  import opened Types

  /** `addMessage`: the new entry goes at the end of the open conversation's
      timeline; with no conversation open the state stays empty. Nothing
      checks whether an entry with the same id is already there. */
  function AddMessage(current: Option<Request>, m: Message): (r: Option<Request>)
    ensures r.None? <==> current.None?
    ensures r.Some? ==> |r.value.messages| == |current.value.messages| + 1
    ensures r.Some? ==> r.value.messages[..|current.value.messages|] == current.value.messages
    ensures r.Some? ==> r.value.messages[|current.value.messages|] == m
    ensures r.Some? ==> r.value.(messages := current.value.messages) == current.value
  {
    match current
    case None => None
    case Some(q) => Some(q.(messages := q.messages + [m]))
  }

  /** Several `addMessage` calls in a row. */
  function AddMessages(current: Option<Request>, ms: seq<Message>): Option<Request>
    decreases |ms|
  {
    if |ms| == 0 then current else AddMessages(AddMessage(current, ms[0]), ms[1..])
  }

  /** The timeline only grows: after any run of additions it is the old
      timeline followed by the new entries in the order they arrived, and
      the rest of the request is untouched. */
  lemma {:induction false} AddMessagesAppends(q: Request, ms: seq<Message>)
    ensures AddMessages(Some(q), ms) == Some(q.(messages := q.messages + ms))
    decreases |ms|
  {
    if |ms| > 0 {
      var q' := q.(messages := q.messages + [ms[0]]);
      assert AddMessage(Some(q), ms[0]) == Some(q');
      AddMessagesAppends(q', ms[1..]);
      assert q'.messages + ms[1..] == q.messages + ms;
    } else {
      assert q.messages + ms == q.messages;
    }
  }

  /** With no conversation open, additions are lost. */
  lemma {:induction false} AddMessagesToNothing(ms: seq<Message>)
    ensures AddMessages(None, ms) == None
    decreases |ms|
  {
    if |ms| > 0 {
      AddMessagesToNothing(ms[1..]);
    }
  }
}
