/** The HTTP message endpoints: `sendMessage` stores a message from the
    authenticated user, `getMessages` reads one group's history. */
module MessageController {
  import opened Common
  import opened MessageStore

  /** The JSON bodies these endpoints answer with. */
  datatype Body = StoredMessage(message: Message) | MessageList(messages: seq<Message>) | ErrorBody(error: string)

  /** `sendMessage`: the sender is always the authenticated user `userId`;
      group and content come from the request body. Success stores exactly
      one message and answers 201 with it; a failed write stores nothing
      and answers 500 with the error's message. */
  method SendMessage(store: MessageCollection, userId: ObjectId, groupId: ObjectId, content: string,
                     outcome: WriteOutcome) returns (reply: Reply<Body>)
    requires store.Valid()
    modifies store
    ensures store.Valid()
    ensures outcome.Stored? ==>
              var m := Message(|old(store.messages)|, groupId, userId, content, outcome.createdAt);
              reply == Reply(201, StoredMessage(m)) && store.messages == old(store.messages) + [m]
    ensures outcome.Failed? ==>
              reply == Reply(500, ErrorBody(outcome.reason)) && store.messages == old(store.messages)
  {
    var created := store.Create(Draft(groupId, userId, content), outcome);
    match created
    case Ok(m) => reply := Reply(201, StoredMessage(m));
    case Err(e) => reply := Reply(500, ErrorBody(e));
  }

  /** `getMessages` for route parameter `groupId`: on success, 200 with
      exactly the messages of that group (each as often as stored, none of
      any other group), oldest first; a failed read answers 500 with the
      error's message. */
  function GetMessages(log: seq<Message>, groupId: ObjectId, readFailure: Option<string>): (reply: Reply<Body>)
    ensures readFailure.Some? ==> reply == Reply(500, ErrorBody(readFailure.value))
    ensures readFailure.None? ==>
              reply.status == 200 && reply.body.MessageList?
              && Ascending(reply.body.messages)
              && (forall i :: 0 <= i < |reply.body.messages| ==> reply.body.messages[i].group == groupId)
              && (forall m :: m in log && m.group == groupId ==> m in reply.body.messages)
              && |reply.body.messages| == |ByGroup(log, groupId)|
              && multiset(reply.body.messages) == multiset(ByGroup(log, groupId))
  {
    match readFailure
    case Some(e) => Reply(500, ErrorBody(e))
    case None =>
      var h := History(log, groupId);
      forall m | m in log && m.group == groupId ensures m in h {
        HistoryExact(log, groupId, m);
      }
      forall i | 0 <= i < |h| ensures h[i].group == groupId {
        HistoryExact(log, groupId, h[i]);
      }
      assert |h| == |multiset(h)| == |ByGroup(log, groupId)|;
      Reply(200, MessageList(h))
  }
}
