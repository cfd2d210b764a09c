/**
 * The `/api/chats` POST route: creates a chat for the user named by the
 * `x-user-id` header and answers with the new chat's id.
 */
module ChatsRoute {
  import opened Wrappers
  import opened Types
  import opened Http
  import ChatService

  /** The POST body; `isPublic` defaults to false and `aiParticipants` to none. */
  datatype CreateChatBody = CreateChatBody(
    name: Option<string>,
    isPublic: Option<bool>,
    aiParticipants: Option<seq<AIParticipantDraft>>)

  /**
   * `POST(request)`: 401 without the header (the body is not read), 500 for a
   * body that does not parse, 400 without a name, and otherwise the outcome of
   * `createChat`; a failing `createChat` gives 500 and keeps what it wrote.
   */
  function Post(store: ChatService.Store, userId: Option<string>, body: JsonBody<CreateChatBody>,
                uuid: ChatService.Uuids, joinCode: string, now: Millis)
    : (r: (ChatService.Store, Response))
    ensures !HasValue(userId) ==> r == (store, Response(Unauthorized, ErrorMessage("Unauthorized")))
    ensures HasValue(userId) && body.Malformed? ==>
      r == (store, Response(InternalServerError, ErrorMessage("Failed to create chat")))
    ensures HasValue(userId) && body.Parsed? && (body.value.name.None? || body.value.name.value == "") ==>
      r == (store, Response(BadRequest, ErrorMessage("Chat name is required")))
    ensures r.1.status == Ok <==>
      HasValue(userId) && body.Parsed? && body.value.name.Some? && body.value.name.value != ""
      && userId.value in store.users
    ensures HasValue(userId) && body.Parsed? && body.value.name.Some? && body.value.name.value != ""
            && userId.value !in store.users ==>
      r.1 == Response(InternalServerError, ErrorMessage("Failed to create chat"))
    ensures r.1.status == Ok ==>
      && r.1.body == CreatedChat(uuid(0))
      && uuid(0) in r.0.chats
      && r.0.chats[uuid(0)].participants == [userId.value]
      && r.0.chats[uuid(0)].name == body.value.name.value
      && r.0.chats[uuid(0)].isPublic == body.value.isPublic.GetOr(false)
      && |r.0.chats[uuid(0)].aiParticipants| == |body.value.aiParticipants.GetOr([])|
      && userId.value in r.0.users && uuid(0) in r.0.users[userId.value].chats
  {
    if !HasValue(userId) then (store, Response(Unauthorized, ErrorMessage("Unauthorized")))
    else match body
      case Malformed => (store, Response(InternalServerError, ErrorMessage("Failed to create chat")))
      case Parsed(b) =>
        if b.name.None? || b.name.value == "" then
          (store, Response(BadRequest, ErrorMessage("Chat name is required")))
        else
          var o := ChatService.CreateChat(store, userId.value, b.name.value, b.isPublic.GetOr(false),
                                          b.aiParticipants.GetOr([]), uuid, joinCode, now);
          match o.result
          case Success(chat) => (o.store, Response(Ok, CreatedChat(chat.id)))
          case Failure(_) => (o.store, Response(InternalServerError, ErrorMessage("Failed to create chat")))
  }

  /** A creator without a user document gets 500 although the chat document was written. */
  lemma UnknownCreatorLeavesChatBehind(store: ChatService.Store, userId: string, body: CreateChatBody,
                                       uuid: ChatService.Uuids, joinCode: string, now: Millis)
    requires userId != "" && userId !in store.users
    requires body.name.Some? && body.name.value != ""
    ensures var r := Post(store, Some(userId), Parsed(body), uuid, joinCode, now);
      && r.1 == Response(InternalServerError, ErrorMessage("Failed to create chat"))
      && uuid(0) in r.0.chats && r.0.chats[uuid(0)].participants == [userId]
  {
  }
}
