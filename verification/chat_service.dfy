/**
 * The chat service: the document store of chats, users and messages and the
 * operations that create chats, add participants, send messages, update a
 * chat and read one page of a chat's message history.
 *
 * The store is three maps from document id to document. Firestore's
 * `update` of a missing document fails; writes that the same operation made
 * before such a failure stay applied, so every writing operation returns the
 * store it leaves behind together with its result. The values `uuidv4()`,
 * `Timestamp.now()` and the random join code would produce are inputs.
 */
module ChatService {
  import opened Wrappers
  import opened Types
  import JsArray

  datatype Store = Store(
    chats: map<string, Chat>,
    users: map<string, User>,
    messages: map<string, ChatMessage>)

  /** Why an operation throws. */
  datatype Failure =
    | ChatNotFound                                      // `new Error('Chat not found')`
    | DocumentNotFound(collection: string, id: string)  // `update` of a missing document
    | UndefinedDocument(collection: string, id: string) // a field read on the data of a missing document
    | EmptyUpdate                                       // `update({})`: Firestore requires at least one field

  /** The store an operation leaves behind and what it returns or throws. */
  datatype Outcome<T> = Outcome(store: Store, result: Result<T, Failure>)

  /** The values successive calls of `uuidv4()` return during one operation. */
  type Uuids = nat -> string

  // ---------------------------------------------------------------------------
  // arrayUnion

  /** `FieldValue.arrayUnion(x)` applied to the array `xs`: `x` is appended unless already present. */
  function ArrayUnion<T(==,!new)>(xs: seq<T>, x: T): (r: seq<T>)
    ensures forall y :: y in r <==> y in xs || y == x
    ensures |xs| <= |r| <= |xs| + 1 && r[..|xs|] == xs
    ensures x in xs ==> r == xs
  {
    if x in xs then xs else xs + [x]
  }

  predicate NoDuplicates<T(==)>(xs: seq<T>) {
    forall i, j :: 0 <= i < j < |xs| ==> xs[i] != xs[j]
  }

  /** Arrays only ever grown by `arrayUnion` hold every element once. */
  lemma ArrayUnionKeepsNoDuplicates<T(!new)>(xs: seq<T>, x: T)
    requires NoDuplicates(xs)
    ensures NoDuplicates(ArrayUnion(xs, x))
  {
    if x !in xs {
      var r := xs + [x];
      forall i, j | 0 <= i < j < |r| ensures r[i] != r[j] {
        if j == |xs| {
          assert r[i] == xs[i];
        }
      }
    }
  }

  // ---------------------------------------------------------------------------
  // createChat

  /** The supplied AI participants, the i-th one under the id `uuid(first + i)`. */
  function WithIds(drafts: seq<AIParticipantDraft>, uuid: Uuids, first: nat): (r: seq<AIChatParticipant>)
    ensures |r| == |drafts|
    ensures forall i :: 0 <= i < |drafts| ==> r[i] == WithId(drafts[i], uuid(first + i))
  {
    seq(|drafts|, i requires 0 <= i < |drafts| => WithId(drafts[i], uuid(first + i)))
  }

  /**
   * `createChat(creatorId, name, isPublic, aiParticipants)`. The chat id is the
   * first uuid, the AI participants take the following ones in order. The chat
   * document is written before the creator's `chats` is updated, so a missing
   * creator leaves the new chat stored and the call failing.
   */
  function CreateChat(store: Store, creatorId: string, name: string, isPublic: bool,
                      drafts: seq<AIParticipantDraft>, uuid: Uuids, joinCode: string,
                      now: Millis): (o: Outcome<Chat>)
    ensures uuid(0) in o.store.chats
    ensures var c := o.store.chats[uuid(0)];
      && c.id == uuid(0) && c.name == name && c.isPublic == isPublic && c.joinCode == joinCode
      && c.participants == [creatorId] && c.messages == []
      && c.createdAt == now && c.updatedAt == now
      && |c.aiParticipants| == |drafts|
      && (forall i :: 0 <= i < |drafts| ==>
            c.aiParticipants[i] == WithId(drafts[i], uuid(1 + i)))
    ensures forall id :: id in store.chats && id != uuid(0) ==> id in o.store.chats && o.store.chats[id] == store.chats[id]
    ensures o.store.chats.Keys == store.chats.Keys + {uuid(0)}
    ensures o.store.messages == store.messages
    ensures o.result.Success? <==> creatorId in store.users
    ensures o.result.Success? ==> o.result.value == o.store.chats[uuid(0)]
    ensures o.result.Failure? ==>
      o.result.error == DocumentNotFound("users", creatorId) && o.store.users == store.users
    ensures o.result.Success? ==>
      && o.store.users.Keys == store.users.Keys
      && o.store.users[creatorId] == store.users[creatorId].(chats := ArrayUnion(store.users[creatorId].chats, uuid(0)))
      && (forall id :: id in store.users && id != creatorId ==> o.store.users[id] == store.users[id])
  {
    var chatId := uuid(0);
    var chat := Chat(chatId, joinCode, isPublic, name, now, now, [creatorId],
                     WithIds(drafts, uuid, 1), []);
    var s1 := store.(chats := store.chats[chatId := chat]);
    if creatorId !in s1.users then Outcome(s1, Failure(DocumentNotFound("users", creatorId)))
    else
      var u := s1.users[creatorId];
      Outcome(s1.(users := s1.users[creatorId := u.(chats := ArrayUnion(u.chats, chatId))]), Success(chat))
  }

  // ---------------------------------------------------------------------------
  // addParticipant and addAIParticipant

  /**
   * `addParticipant(chatId, userId)`: adds the user to the chat's participants
   * and the chat to the user's chats, each by `arrayUnion`.
   */
  function AddParticipant(store: Store, chatId: string, userId: string): (o: Outcome<()>)
    ensures chatId !in store.chats ==> o == Outcome(store, Failure(DocumentNotFound("chats", chatId)))
    ensures chatId in store.chats && userId !in store.users ==>
      o.result == Failure(DocumentNotFound("users", userId)) && o.store.users == store.users
    ensures o.result.Success? <==> chatId in store.chats && userId in store.users
    ensures chatId in store.chats ==>
      && o.store.chats.Keys == store.chats.Keys
      && o.store.chats[chatId] == store.chats[chatId].(participants := ArrayUnion(store.chats[chatId].participants, userId))
      && (forall id :: id in store.chats && id != chatId ==> o.store.chats[id] == store.chats[id])
    ensures o.result.Success? ==>
      && o.store.users.Keys == store.users.Keys
      && o.store.users[userId] == store.users[userId].(chats := ArrayUnion(store.users[userId].chats, chatId))
      && (forall id :: id in store.users && id != userId ==> o.store.users[id] == store.users[id])
    ensures o.store.messages == store.messages
  {
    if chatId !in store.chats then Outcome(store, Failure(DocumentNotFound("chats", chatId)))
    else
      var c := store.chats[chatId];
      var s1 := store.(chats := store.chats[chatId := c.(participants := ArrayUnion(c.participants, userId))]);
      if userId !in s1.users then Outcome(s1, Failure(DocumentNotFound("users", userId)))
      else
        var u := s1.users[userId];
        Outcome(s1.(users := s1.users[userId := u.(chats := ArrayUnion(u.chats, chatId))]), Success(()))
  }

  /** Adding a user who is already a participant changes nothing. */
  lemma AddParticipantIdempotent(store: Store, chatId: string, userId: string)
    requires AddParticipant(store, chatId, userId).result.Success?
    ensures var s1 := AddParticipant(store, chatId, userId).store;
      AddParticipant(s1, chatId, userId) == Outcome(s1, Success(()))
  {
    var s1 := AddParticipant(store, chatId, userId).store;
    var c := s1.chats[chatId];
    var u := s1.users[userId];
    assert c.(participants := ArrayUnion(c.participants, userId)) == c;
    assert u.(chats := ArrayUnion(u.chats, chatId)) == u;
    assert s1.chats[chatId := c] == s1.chats;
    assert s1.users[userId := u] == s1.users;
  }

  /** A new participant is appended exactly once to the chat, and the chat once to the user. */
  lemma AddParticipantAppendsOnce(store: Store, chatId: string, userId: string)
    requires chatId in store.chats && userId in store.users
    requires userId !in store.chats[chatId].participants
    requires chatId !in store.users[userId].chats
    ensures var s1 := AddParticipant(store, chatId, userId).store;
      && s1.chats[chatId].participants == store.chats[chatId].participants + [userId]
      && s1.users[userId].chats == store.users[userId].chats + [chatId]
  {
  }

  /**
   * `addAIParticipant(chatId, aiParticipant)`: the draft gets the id `aiId`
   * and is added to the chat's AI participants by `arrayUnion`.
   */
  function AddAIParticipant(store: Store, chatId: string, draft: AIParticipantDraft, aiId: string)
    : (o: Outcome<AIChatParticipant>)
    ensures chatId !in store.chats ==> o == Outcome(store, Failure(DocumentNotFound("chats", chatId)))
    ensures chatId in store.chats ==>
      && o.result == Success(WithId(draft, aiId))
      && o.store.chats.Keys == store.chats.Keys
      && o.store.chats[chatId] == store.chats[chatId].(aiParticipants := ArrayUnion(store.chats[chatId].aiParticipants, WithId(draft, aiId)))
      && (forall id :: id in store.chats && id != chatId ==> o.store.chats[id] == store.chats[id])
      && o.store.users == store.users && o.store.messages == store.messages
  {
    if chatId !in store.chats then Outcome(store, Failure(DocumentNotFound("chats", chatId)))
    else
      var p := WithId(draft, aiId);
      var c := store.chats[chatId];
      Outcome(store.(chats := store.chats[chatId := c.(aiParticipants := ArrayUnion(c.aiParticipants, p))]), Success(p))
  }

  /** Adding the same AI participant again changes nothing. */
  lemma AddAIParticipantIdempotent(store: Store, chatId: string, draft: AIParticipantDraft, aiId: string)
    ensures var o := AddAIParticipant(store, chatId, draft, aiId);
      AddAIParticipant(o.store, chatId, draft, aiId).store == o.store
  {
    var o := AddAIParticipant(store, chatId, draft, aiId);
    if chatId in store.chats {
      var c := o.store.chats[chatId];
      assert c.(aiParticipants := ArrayUnion(c.aiParticipants, WithId(draft, aiId))) == c;
      assert o.store.chats[chatId := c] == o.store.chats;
    }
  }

  /** After `addAIParticipant`, the chat as read holds the participant, with its draft's fields, exactly once. */
  lemma AddedAIParticipantIsRead(store: Store, chatId: string, draft: AIParticipantDraft, aiId: string)
    requires chatId in store.chats
    requires NoDuplicates(store.chats[chatId].aiParticipants)
    ensures var o := AddAIParticipant(store, chatId, draft, aiId);
      var c := GetChat(o.store, chatId);
      && c.Some?
      && NoDuplicates(c.value.aiParticipants)
      && (exists i :: 0 <= i < |c.value.aiParticipants|
            && c.value.aiParticipants[i] == AIChatParticipant(aiId, draft.name, draft.provider, draft.model, draft.systemPrompt))
  {
    var o := AddAIParticipant(store, chatId, draft, aiId);
    var ps := o.store.chats[chatId].aiParticipants;
    ArrayUnionKeepsNoDuplicates(store.chats[chatId].aiParticipants, WithId(draft, aiId));
    assert WithId(draft, aiId) in ps;
  }

  // ---------------------------------------------------------------------------
  // sendMessage

  /** `aiParticipants.findIndex(ai => ai.id === id)`, `None` for -1. */
  function FindById(ps: seq<AIChatParticipant>, id: string): (r: Option<nat>)
    ensures r.None? <==> forall i :: 0 <= i < |ps| ==> ps[i].id != id
    ensures r.Some? ==>
      r.value < |ps| && ps[r.value].id == id && forall j :: 0 <= j < r.value ==> ps[j].id != id
  {
    if |ps| == 0 then None
    else if ps[0].id == id then Some(0)
    else match FindById(ps[1..], id)
      case Some(i) => Some(i + 1)
      case None => None
  }

  /**
   * `aiParticipant?.name || 'AI'`: the name of the first AI participant with
   * the sender's id, or 'AI' when there is none or its name is empty.
   */
  function AISenderName(ps: seq<AIChatParticipant>, senderId: string): (r: string)
    ensures r != ""
    ensures (forall i :: 0 <= i < |ps| ==> ps[i].id != senderId) ==> r == "AI"
    ensures forall i :: 0 <= i < |ps| && ps[i].id == senderId && (forall j :: 0 <= j < i ==> ps[j].id != senderId) ==>
      r == if ps[i].name != "" then ps[i].name else "AI"
  {
    match FindById(ps, senderId)
    case Some(i) => if ps[i].name != "" then ps[i].name else "AI"
    case None => "AI"
  }

  /**
   * `sendMessage(chatId, senderId, content, isAI)`. The chat is read first; an
   * AI sender's name comes from the chat, a user sender's from the user's
   * document. The message document is written before the chat is updated, so
   * for a missing chat and an existing user the message is stored and the call
   * fails.
   */
  function SendMessage(store: Store, chatId: string, senderId: string, content: string,
                       isAI: bool, messageId: string, now: Millis): (o: Outcome<ChatMessage>)
    ensures isAI && chatId !in store.chats ==>
      o == Outcome(store, Failure(UndefinedDocument("chats", chatId)))
    ensures !isAI && senderId !in store.users ==>
      o == Outcome(store, Failure(UndefinedDocument("users", senderId)))
    ensures o.result.Success? <==> chatId in store.chats && (isAI || senderId in store.users)
    ensures o.result.Success? ==>
      var m := o.result.value;
      && m.id == messageId && m.content == content && m.senderId == senderId && m.isAI == isAI
      && m.createdAt == now && m.updatedAt == now
      && m.senderName == (if isAI then AISenderName(store.chats[chatId].aiParticipants, senderId)
                          else store.users[senderId].name)
      && o.store.messages == store.messages[messageId := m]
      && o.store.chats.Keys == store.chats.Keys
      && o.store.chats[chatId] == store.chats[chatId].(
           messages := ArrayUnion(store.chats[chatId].messages, messageId), updatedAt := now)
      && (forall id :: id in store.chats && id != chatId ==> o.store.chats[id] == store.chats[id])
    ensures !isAI && senderId in store.users && chatId !in store.chats ==>
      && o.result == Failure(DocumentNotFound("chats", chatId))
      && messageId in o.store.messages && o.store.chats == store.chats
    ensures o.store.users == store.users
  {
    if isAI && chatId !in store.chats then Outcome(store, Failure(UndefinedDocument("chats", chatId)))
    else if !isAI && senderId !in store.users then Outcome(store, Failure(UndefinedDocument("users", senderId)))
    else
      var senderName := if isAI then AISenderName(store.chats[chatId].aiParticipants, senderId)
                        else store.users[senderId].name;
      var m := ChatMessage(messageId, content, now, now, senderId, senderName, isAI);
      var s1 := store.(messages := store.messages[messageId := m]);
      if chatId !in s1.chats then Outcome(s1, Failure(DocumentNotFound("chats", chatId)))
      else
        var c := s1.chats[chatId];
        Outcome(s1.(chats := s1.chats[chatId := c.(messages := ArrayUnion(c.messages, messageId), updatedAt := now)]),
                Success(m))
  }

  /** A sent message's id is added to the chat once: a second send under the same id adds nothing. */
  lemma SendMessageAddsIdOnce(store: Store, chatId: string, senderId: string, content: string,
                              isAI: bool, messageId: string, now: Millis)
    requires chatId in store.chats && (isAI || senderId in store.users)
    ensures var ids := store.chats[chatId].messages;
      var ids' := SendMessage(store, chatId, senderId, content, isAI, messageId, now).store.chats[chatId].messages;
      && (messageId in ids ==> ids' == ids)
      && (messageId !in ids ==> ids' == ids + [messageId])
  {
  }

  // ---------------------------------------------------------------------------
  // getChat, getUserChats and updateChat

  /** `getChat(chatId)`: the chat document, or null. */
  function GetChat(store: Store, chatId: string): (r: Option<Chat>)
    ensures r.Some? <==> chatId in store.chats
    ensures r.Some? ==> r.value == store.chats[chatId]
  {
    if chatId in store.chats then Some(store.chats[chatId]) else None
  }

  /** `getUserChats(userId)`: the chats whose participants contain the user. */
  function UserChats(store: Store, userId: string): (r: set<Chat>)
    ensures forall c :: c in r <==> c in store.chats.Values && userId in c.participants
  {
    set c | c in store.chats.Values && userId in c.participants
  }

  /** A chat that was just created is among its creator's chats. */
  lemma CreatedChatIsListed(store: Store, creatorId: string, name: string, isPublic: bool,
                            drafts: seq<AIParticipantDraft>, uuid: Uuids, joinCode: string, now: Millis)
    ensures var o := CreateChat(store, creatorId, name, isPublic, drafts, uuid, joinCode, now);
      o.store.chats[uuid(0)] in UserChats(o.store, creatorId)
  {
  }

  /** After `addParticipant`, the chat is among the new participant's chats. */
  lemma AddedParticipantSeesChat(store: Store, chatId: string, userId: string)
    requires chatId in store.chats
    ensures var s1 := AddParticipant(store, chatId, userId).store;
      s1.chats[chatId] in UserChats(s1, userId)
  {
    var s1 := AddParticipant(store, chatId, userId).store;
    assert s1.chats[chatId] in s1.chats.Values;
  }

  /** The fields `updateChat` may change; an absent field is left as it is. */
  datatype ChatUpdates = ChatUpdates(name: Option<string>, isPublic: Option<bool>)

  function ApplyUpdates(c: Chat, u: ChatUpdates): Chat {
    c.(name := u.name.GetOr(c.name), isPublic := u.isPublic.GetOr(c.isPublic))
  }

  /** An update naming no field, which Firestore's `update` rejects. */
  predicate NoFields(u: ChatUpdates) {
    u.name.None? && u.isPublic.None?
  }

  /**
   * `updateChat(chatId, updates)`: applies the updates and returns the re-read
   * chat. An update that names no field is rejected by Firestore and throws.
   */
  function UpdateChat(store: Store, chatId: string, updates: ChatUpdates): (o: Outcome<Chat>)
    ensures chatId !in store.chats ==> o == Outcome(store, Failure(ChatNotFound))
    ensures chatId in store.chats && NoFields(updates) ==> o == Outcome(store, Failure(EmptyUpdate))
    ensures o.result.Success? <==> chatId in store.chats && !NoFields(updates)
    ensures chatId in store.chats && !NoFields(updates) ==>
      var before := store.chats[chatId];
      && o.result.Success?
      && var c := o.result.value;
      && o.store == store.(chats := store.chats[chatId := c])
      && c.name == (if updates.name.Some? then updates.name.value else before.name)
      && c.isPublic == (if updates.isPublic.Some? then updates.isPublic.value else before.isPublic)
      && c.(name := before.name, isPublic := before.isPublic) == before
  {
    if chatId !in store.chats then Outcome(store, Failure(ChatNotFound))
    else if NoFields(updates) then Outcome(store, Failure(EmptyUpdate))
    else
      var c := ApplyUpdates(store.chats[chatId], updates);
      Outcome(store.(chats := store.chats[chatId := c]), Success(c))
  }

  /** Applying the same updates a second time changes nothing more. */
  lemma UpdateChatIdempotent(store: Store, chatId: string, updates: ChatUpdates)
    requires chatId in store.chats
    ensures var o := UpdateChat(store, chatId, updates);
      UpdateChat(o.store, chatId, updates) == o
  {
    var o := UpdateChat(store, chatId, updates);
    if !NoFields(updates) {
      assert o.store.chats[chatId := o.result.value] == o.store.chats;
    }
  }

  /** Reading the chat after a successful update gives what `updateChat` returned. */
  lemma GetChatAfterUpdate(store: Store, chatId: string, updates: ChatUpdates)
    requires chatId in store.chats && !NoFields(updates)
    ensures var o := UpdateChat(store, chatId, updates);
      GetChat(o.store, chatId) == Some(o.result.value)
  {
  }

  /** Reading a created chat gives what `createChat` returned. */
  lemma GetChatAfterCreate(store: Store, creatorId: string, name: string, isPublic: bool,
                           drafts: seq<AIParticipantDraft>, uuid: Uuids, joinCode: string, now: Millis)
    requires creatorId in store.users
    ensures var o := CreateChat(store, creatorId, name, isPublic, drafts, uuid, joinCode, now);
      GetChat(o.store, uuid(0)) == Some(o.result.value)
  {
  }

  /** Other chats read the same before and after a chat is created, and an unknown id still reads as null. */
  lemma GetChatOthersUnchanged(store: Store, creatorId: string, name: string, isPublic: bool,
                               drafts: seq<AIParticipantDraft>, uuid: Uuids, joinCode: string, now: Millis,
                               chatId: string)
    requires chatId != uuid(0)
    ensures var o := CreateChat(store, creatorId, name, isPublic, drafts, uuid, joinCode, now);
      GetChat(o.store, chatId) == GetChat(store, chatId)
  {
  }

  // ---------------------------------------------------------------------------
  // getChatMessages

  /** One page of history: newest message first, and whether older messages remain. */
  datatype Page = Page(messages: seq<ChatMessage>, hasMore: bool)

  function CreatedAt(m: ChatMessage): Millis {
    m.createdAt
  }

  /**
   * The message documents the ids resolve to, in the order of the ids; an id
   * with no stored document is skipped.
   */
  function Resolve(ids: seq<string>, docs: map<string, ChatMessage>): (r: seq<ChatMessage>)
    ensures |r| <= |ids|
    ensures forall id :: id in ids && id in docs ==> docs[id] in r
    ensures forall m :: m in r ==> exists id :: id in ids && id in docs && docs[id] == m
  {
    if |ids| == 0 then []
    else
      var id := ids[|ids| - 1];
      var init := ids[..|ids| - 1];
      assert forall x :: x in ids ==> x in init || x == id;
      Resolve(init, docs) + (if id in docs then [docs[id]] else [])
  }

  /** `messages.filter(msg => msg.createdAt < t)`. */
  function OlderThan(s: seq<ChatMessage>, t: Millis): (r: seq<ChatMessage>)
    ensures |r| <= |s|
    ensures forall m :: m in r <==> m in s && m.createdAt < t
  {
    if |s| == 0 then []
    else if s[0].createdAt < t then [s[0]] + OlderThan(s[1..], t)
    else OlderThan(s[1..], t)
  }

  /** The cursor filter: everything without a cursor, the strictly older messages with one. */
  function Cursor(s: seq<ChatMessage>, before: Option<Millis>): seq<ChatMessage> {
    match before
    case None => s
    case Some(t) => OlderThan(s, t)
  }

  /** The chat's stored messages, newest first, that pass the cursor: what a page is cut from. */
  function Candidates(store: Store, chat: Chat, before: Option<Millis>): seq<ChatMessage> {
    Cursor(JsArray.SortDesc(Resolve(chat.messages, store.messages), CreatedAt), before)
  }

  /** The chat's stored messages that pass the cursor, in the order of the chat's message ids. */
  function Eligible(store: Store, chat: Chat, before: Option<Millis>): seq<ChatMessage> {
    Cursor(Resolve(chat.messages, store.messages), before)
  }

  /**
   * `getChatMessages(chatId, limit, beforeTimestamp)`: sorts the chat's stored
   * messages newest first, keeps those older than the cursor, takes
   * `limit + 1` of them to learn whether more remain and returns the first
   * `limit`.
   */
  function GetChatMessages(store: Store, chatId: string, limit: int, before: Option<Millis>)
    : (r: Result<Page, Failure>)
    ensures r.Failure? <==> chatId !in store.chats
    ensures r.Failure? ==> r.error == ChatNotFound
  {
    if chatId !in store.chats then Failure(ChatNotFound)
    else
      var filtered := Candidates(store, store.chats[chatId], before);
      var paginated := JsArray.SliceTo(filtered, limit + 1);
      Success(Page(JsArray.SliceTo(paginated, limit), |paginated| > limit))
  }

  // Facts about the cursor filter

  lemma {:induction false} OlderThanCount(s: seq<ChatMessage>, t: Millis, m: ChatMessage)
    ensures multiset(OlderThan(s, t))[m] == if m.createdAt < t then multiset(s)[m] else 0
  {
    if |s| > 0 {
      OlderThanCount(s[1..], t, m);
      assert s == [s[0]] + s[1..];
    }
  }

  /** Filtering a permutation gives a permutation of the filtered messages. */
  lemma OlderThanPermutation(a: seq<ChatMessage>, b: seq<ChatMessage>, t: Millis)
    requires multiset(a) == multiset(b)
    ensures multiset(OlderThan(a, t)) == multiset(OlderThan(b, t))
  {
    forall m ensures multiset(OlderThan(a, t))[m] == multiset(OlderThan(b, t))[m] {
      OlderThanCount(a, t, m);
      OlderThanCount(b, t, m);
    }
  }

  lemma CursorPermutation(a: seq<ChatMessage>, b: seq<ChatMessage>, before: Option<Millis>)
    requires multiset(a) == multiset(b)
    ensures multiset(Cursor(a, before)) == multiset(Cursor(b, before))
  {
    if before.Some? {
      OlderThanPermutation(a, b, before.value);
    }
  }

  lemma {:induction false} OlderThanSorted(s: seq<ChatMessage>, t: Millis)
    requires JsArray.SortedDesc(s, CreatedAt)
    ensures JsArray.SortedDesc(OlderThan(s, t), CreatedAt)
  {
    if |s| > 0 {
      assert JsArray.SortedDesc(s[1..], CreatedAt);
      OlderThanSorted(s[1..], t);
      var r := OlderThan(s[1..], t);
      if s[0].createdAt < t {
        forall j | 0 <= j < |r| ensures CreatedAt(r[j]) <= CreatedAt(s[0]) {
          assert r[j] in s[1..];
        }
        JsArray.ConsSorted(s[0], r, CreatedAt);
      }
    }
  }

  lemma CursorBound(s: seq<ChatMessage>, before: Option<Millis>)
    ensures before.Some? ==> forall m :: m in Cursor(s, before) ==> m.createdAt < before.value
  {
  }

  lemma CursorSorted(s: seq<ChatMessage>, before: Option<Millis>)
    requires JsArray.SortedDesc(s, CreatedAt)
    ensures JsArray.SortedDesc(Cursor(s, before), CreatedAt)
  {
    if before.Some? {
      OlderThanSorted(s, before.value);
    }
  }

  /** Filtering by a cursor and then by an earlier one is filtering by the earlier one. */
  lemma {:induction false} OlderThanNested(s: seq<ChatMessage>, b: Millis, t: Millis)
    requires t <= b
    ensures OlderThan(OlderThan(s, b), t) == OlderThan(s, t)
  {
    if |s| > 0 {
      OlderThanNested(s[1..], b, t);
      if s[0].createdAt < b {
        assert OlderThan(s, b) == [s[0]] + OlderThan(s[1..], b);
        assert ([s[0]] + OlderThan(s[1..], b))[1..] == OlderThan(s[1..], b);
      }
    }
  }

  /** In a newest-first list, the messages older than `t` are exactly the suffix after the newer ones. */
  lemma {:induction false} OlderThanSuffix(s: seq<ChatMessage>, k: nat, t: Millis)
    requires k <= |s|
    requires forall i :: 0 <= i < k ==> s[i].createdAt >= t
    requires forall j :: k <= j < |s| ==> s[j].createdAt < t
    ensures OlderThan(s, t) == s[k..]
  {
    if k == 0 {
      OlderThanAll(s, t);
    } else {
      OlderThanSuffix(s[1..], k - 1, t);
      assert s[1..][k - 1..] == s[k..];
    }
  }

  lemma {:induction false} OlderThanAll(s: seq<ChatMessage>, t: Millis)
    requires forall j :: 0 <= j < |s| ==> s[j].createdAt < t
    ensures OlderThan(s, t) == s
  {
    if |s| > 0 {
      OlderThanAll(s[1..], t);
      assert s == [s[0]] + s[1..];
    }
  }

  // Properties of a page

  /** A page holds at most `limit` messages, and `hasMore` says exactly whether more than `limit` pass the cursor. */
  lemma PageBounds(store: Store, chatId: string, limit: int, before: Option<Millis>)
    requires chatId in store.chats && limit >= 0
    ensures var p := GetChatMessages(store, chatId, limit, before).value;
      && |p.messages| <= limit
      && (p.hasMore <==> |Eligible(store, store.chats[chatId], before)| > limit)
  {
    var chat := store.chats[chatId];
    var found := Resolve(chat.messages, store.messages);
    var sorted := JsArray.SortDesc(found, CreatedAt);
    CursorPermutation(sorted, found, before);
    assert |Candidates(store, chat, before)| == |multiset(Candidates(store, chat, before))|;
    assert |Eligible(store, chat, before)| == |multiset(Eligible(store, chat, before))|;
  }

  /** The page is cut from the front of the candidates. */
  lemma PageIsCandidatePrefix(store: Store, chatId: string, limit: int, before: Option<Millis>)
    requires chatId in store.chats && limit >= 0
    ensures var c := Candidates(store, store.chats[chatId], before);
      var p := GetChatMessages(store, chatId, limit, before).value;
      && p.messages == c[..JsArray.Min(limit, |c|)]
      && (p.hasMore <==> |c| > limit)
  {
  }

  /**
   * A page is newest first, holds nothing at or after the cursor, and is a
   * top selection of the eligible messages: no message left off the page is
   * newer than one on it, and without `hasMore` nothing was left off.
   */
  lemma PageIsNewestSelection(store: Store, chatId: string, limit: int, before: Option<Millis>)
    requires chatId in store.chats && limit >= 0
    ensures var e := Eligible(store, store.chats[chatId], before);
      var p := GetChatMessages(store, chatId, limit, before).value;
      && JsArray.SortedDesc(p.messages, CreatedAt)
      && (before.Some? ==> forall m :: m in p.messages ==> m.createdAt < before.value)
      && multiset(p.messages) <= multiset(e)
      && (forall x, y :: x in multiset(e) - multiset(p.messages) && y in p.messages
            ==> x.createdAt <= y.createdAt)
      && (!p.hasMore ==> multiset(p.messages) == multiset(e))
  {
    var chat := store.chats[chatId];
    var found := Resolve(chat.messages, store.messages);
    var sorted := JsArray.SortDesc(found, CreatedAt);
    var c := Candidates(store, chat, before);
    PageIsCandidatePrefix(store, chatId, limit, before);
    CursorSorted(sorted, before);
    CursorPermutation(sorted, found, before);
    CursorBound(sorted, before);
    TopSelection(c, Eligible(store, chat, before), JsArray.Min(limit, |c|), before);
  }

  lemma TopSelection(c: seq<ChatMessage>, e: seq<ChatMessage>, k: nat, before: Option<Millis>)
    requires k <= |c| && JsArray.SortedDesc(c, CreatedAt) && multiset(c) == multiset(e)
    requires before.Some? ==> forall m :: m in c ==> m.createdAt < before.value
    ensures JsArray.SortedDesc(c[..k], CreatedAt)
    ensures before.Some? ==> forall m :: m in c[..k] ==> m.createdAt < before.value
    ensures multiset(c[..k]) <= multiset(e)
    ensures forall x, y :: x in multiset(e) - multiset(c[..k]) && y in c[..k] ==> x.createdAt <= y.createdAt
    ensures k == |c| ==> multiset(c[..k]) == multiset(e)
  {
    var p := c[..k];
    assert c == p + c[k..];
    assert multiset(c) == multiset(p) + multiset(c[k..]);
    forall i, j | 0 <= i < j < |p| ensures CreatedAt(p[i]) >= CreatedAt(p[j]) {
      assert p[i] == c[i] && p[j] == c[j];
    }
    JsArray.SortedPrefixDominates(c, k, CreatedAt);
    forall x, y | x in multiset(e) - multiset(p) && y in p ensures x.createdAt <= y.createdAt {
      assert x in c[k..];
    }
    if k == |c| {
      assert p == c;
    }
  }

  /** Every message on a page is the stored document of one of the chat's message ids. */
  lemma PageMessagesAreStored(store: Store, chatId: string, limit: int, before: Option<Millis>)
    requires chatId in store.chats && limit >= 0
    ensures var ids := store.chats[chatId].messages;
      forall m :: m in GetChatMessages(store, chatId, limit, before).value.messages ==>
        exists id :: id in ids && id in store.messages && store.messages[id] == m
  {
    var chat := store.chats[chatId];
    var p := GetChatMessages(store, chatId, limit, before).value;
    PageIsNewestSelection(store, chatId, limit, before);
    forall m | m in p.messages
      ensures exists id :: id in chat.messages && id in store.messages && store.messages[id] == m
    {
      assert m in multiset(p.messages);
      var found := Resolve(chat.messages, store.messages);
      assert m in Eligible(store, chat, before);
      assert m in found;
    }
  }

  // Paging through the history

  /**
   * Asking again with the oldest returned message's timestamp as the cursor
   * continues right after the page, provided no further candidate shares that
   * timestamp.
   */
  lemma NextPageContinues(store: Store, chatId: string, limit: int, before: Option<Millis>)
    requires chatId in store.chats && limit >= 1
    requires GetChatMessages(store, chatId, limit, before).value.hasMore
    requires var c := Candidates(store, store.chats[chatId], before);
      forall j :: limit <= j < |c| ==> c[j].createdAt != c[limit - 1].createdAt
    ensures var c := Candidates(store, store.chats[chatId], before);
      var p := GetChatMessages(store, chatId, limit, before).value;
      && p.messages == c[..limit]
      && Candidates(store, store.chats[chatId], Some(p.messages[limit - 1].createdAt)) == c[limit..]
      && GetChatMessages(store, chatId, limit, Some(p.messages[limit - 1].createdAt))
         == Success(Page(c[limit..][..JsArray.Min(limit, |c| - limit)], |c| - limit > limit))
  {
    var chat := store.chats[chatId];
    var sorted := JsArray.SortDesc(Resolve(chat.messages, store.messages), CreatedAt);
    var c := Candidates(store, chat, before);
    PageIsCandidatePrefix(store, chatId, limit, before);
    NextCursorSuffix(sorted, before, limit);
    var t := c[limit - 1].createdAt;
    assert Candidates(store, chat, Some(t)) == c[limit..];
    PageIsCandidatePrefix(store, chatId, limit, Some(t));
  }

  /**
   * In a newest-first list, the cursor set to the `limit`-th candidate's
   * timestamp leaves exactly the candidates after it, when none of those
   * shares that timestamp.
   */
  lemma NextCursorSuffix(sorted: seq<ChatMessage>, before: Option<Millis>, limit: nat)
    requires JsArray.SortedDesc(sorted, CreatedAt)
    requires var c := Cursor(sorted, before);
      1 <= limit < |c| && forall j :: limit <= j < |c| ==> c[j].createdAt != c[limit - 1].createdAt
    ensures var c := Cursor(sorted, before);
      Cursor(sorted, Some(c[limit - 1].createdAt)) == c[limit..]
  {
    var c := Cursor(sorted, before);
    var t := c[limit - 1].createdAt;
    CursorSorted(sorted, before);
    forall i | 0 <= i < limit ensures c[i].createdAt >= t {
      assert CreatedAt(c[i]) >= CreatedAt(c[limit - 1]);
    }
    forall j | limit <= j < |c| ensures c[j].createdAt < t {
      assert CreatedAt(c[limit - 1]) >= CreatedAt(c[j]);
    }
    OlderThanSuffix(c, limit, t);
    if before.Some? {
      CursorBound(sorted, before);
      assert c[limit - 1] in c;
      OlderThanNested(sorted, before.value, t);
    }
  }

  /**
   * With one message more than a page, the first page has `hasMore`, and the
   * page asked for with its last message's timestamp as the cursor holds
   * exactly the remaining message and no `hasMore`.
   */
  lemma LastMessageOnSecondPage(store: Store, chatId: string, limit: int)
    requires chatId in store.chats && limit >= 1
    requires var c := Candidates(store, store.chats[chatId], None);
      |c| == limit + 1 && c[limit].createdAt != c[limit - 1].createdAt
    ensures var c := Candidates(store, store.chats[chatId], None);
      && GetChatMessages(store, chatId, limit, None) == Success(Page(c[..limit], true))
      && GetChatMessages(store, chatId, limit, Some(c[limit - 1].createdAt)) == Success(Page([c[limit]], false))
  {
    var c := Candidates(store, store.chats[chatId], None);
    PageIsCandidatePrefix(store, chatId, limit, None);
    NextPageContinues(store, chatId, limit, None);
    assert c[..limit][limit - 1] == c[limit - 1];
    assert JsArray.Min(limit, |c| - limit) == 1;
    assert c[limit..][..1] == [c[limit]];
  }

  /**
   * The cursor compares timestamps only: when a chat holds two messages sent
   * in the same millisecond and the page size is 1, the second message is on
   * neither the first page nor the page after it.
   */
  lemma CursorTieSkipsMessage(store: Store, chatId: string, a: ChatMessage, b: ChatMessage)
    requires chatId in store.chats
    requires Resolve(store.chats[chatId].messages, store.messages) == [a, b]
    requires a.createdAt == b.createdAt
    ensures GetChatMessages(store, chatId, 1, None) == Success(Page([a], true))
    ensures GetChatMessages(store, chatId, 1, Some(a.createdAt)) == Success(Page([], false))
  {
    TiedPair(a, b);
    PageIsCandidatePrefix(store, chatId, 1, None);
    PageIsCandidatePrefix(store, chatId, 1, Some(a.createdAt));
  }

  /** Two messages with the same timestamp: the sort keeps them, the cursor at that timestamp drops both. */
  lemma TiedPair(a: ChatMessage, b: ChatMessage)
    requires a.createdAt == b.createdAt
    ensures JsArray.SortDesc([a, b], CreatedAt) == [a, b]
    ensures OlderThan([a, b], a.createdAt) == []
    ensures [a, b][..1] == [a]
  {
    JsArray.SortEqualKeysKeepsOrder([a, b], CreatedAt, a.createdAt);
    OlderThanSuffix([a, b], 2, a.createdAt);
    assert [a, b][2..] == [];
  }

  // History after the writing operations

  /** A chat that was just created has an empty history. */
  lemma CreatedChatHasNoMessages(store: Store, creatorId: string, name: string, isPublic: bool,
                                 drafts: seq<AIParticipantDraft>, uuid: Uuids, joinCode: string,
                                 now: Millis, limit: int, before: Option<Millis>)
    requires limit >= 0
    ensures var o := CreateChat(store, creatorId, name, isPublic, drafts, uuid, joinCode, now);
      GetChatMessages(o.store, uuid(0), limit, before) == Success(Page([], false))
  {
  }

  /**
   * A message sent with a fresh id and a timestamp later than every stored
   * message of the chat comes first on the chat's newest page.
   */
  lemma SentMessageLeadsNewestPage(store: Store, chatId: string, senderId: string, content: string,
                                   isAI: bool, messageId: string, now: Millis, limit: int)
    requires chatId in store.chats && (isAI || senderId in store.users) && limit >= 1
    requires messageId !in store.messages
    requires forall id :: id in store.chats[chatId].messages && id in store.messages ==>
      store.messages[id].createdAt < now
    ensures var o := SendMessage(store, chatId, senderId, content, isAI, messageId, now);
      var p := GetChatMessages(o.store, chatId, limit, None).value;
      |p.messages| >= 1 && p.messages[0] == o.result.value
  {
    var o := SendMessage(store, chatId, senderId, content, isAI, messageId, now);
    var m := o.result.value;
    var ids := store.chats[chatId].messages;
    var ids' := o.store.chats[chatId].messages;
    var found' := Resolve(ids', o.store.messages);
    assert messageId in ids' && messageId in o.store.messages && o.store.messages[messageId] == m;
    assert m in found';
    forall y | y in found' && y != m ensures y.createdAt < m.createdAt {
      var id :| id in ids' && id in o.store.messages && o.store.messages[id] == y;
      assert id != messageId;
      assert id in ids;
    }
    JsArray.SortPutsStrictMaxFirst(found', CreatedAt, m);
    PageIsCandidatePrefix(o.store, chatId, limit, None);
  }
}
