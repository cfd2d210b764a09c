# Conclave chat core, modelled in Dafny

Conclave is a chat application in which people and AI participants talk in
named chats. This project models the logic at its centre. Each part is a
pure function over immutable data:

- **Chat service.** The chat, user and message documents live in three maps.
  The service covers `createChat`, `addParticipant`, `addAIParticipant`,
  `sendMessage`, `getChat`, `getUserChats` and `updateChat`. It also covers
  `getChatMessages`, the paginated read of a chat's history: sort newest
  first, apply an exclusive timestamp cursor, take `limit + 1` messages to
  learn `hasMore`, and return `limit` of them.
- **Client socket session.** There is an optional socket and an ordered list
  of message handlers. The transport is an abstract log of sockets opened and
  closed, events emitted, and handler calls.
- **Route guard.** The middleware decides between a redirect to `/home` and
  letting the request through.
- **New-chat dialog.** The dialog edits the list of AI participants and
  submits the form.
- **Sidebar.** It picks the five most recently updated chats and caps the
  number of placeholder rows.
- **API routes.** The status codes of `/api/user` (POST, GET and PATCH) and
  of `POST /api/chats`, and the user document that POST creates.

Some things become inputs of the functions: the values `uuidv4()`,
`Timestamp.now()`, `new Date()` and the random join code produce, and the
uid from the anonymous sign-in. The cookie and the `localStorage` entry are
inputs too. So are the results of `fetch` and the failures of storage
calls. A `Date` is a whole number of milliseconds. Firestore's `update` of a
missing document fails. Writes made earlier in the same operation stay
applied, so each writing operation returns the store it leaves behind along
with its result.

JavaScript semantics are followed where the code depends on them:

- `trim` and `parseInt(s, 10)` skip the white space of ECMA-262 (sections
  12.2 and 12.3).
- `slice(0, end)` counts a negative `end` from the back.
- `Array.prototype.sort` is stable (ECMA-262, section 23.1.3.30).
- `||` treats the empty string as false.

Three places where the code and its natural description differ:

- `sendMessage` names an AI sender `'AI'` when no participant matches, and
  also when the matching participant's name is empty. This comes from
  `aiParticipant?.name || 'AI'`.
- `getChatMessages` sorts first and filters second. The cursor compares
  timestamps only, so a message that shares the cursor's millisecond but
  missed the page is never returned (`ChatService.CursorTieSkipsMessage`).
  Messages are never ordered by id.
- `PATCH /api/user` reads the body before it checks the header. So a body
  that fails to parse gives 500 even without the header. An unknown user
  also gives 500, not 404, because the update of the missing document
  rejects. So does a body naming no field, because Firestore's `update({})`
  rejects as well; the same holds for `updateChat` with no field.

Modules: `Wrappers`, `Types`, `JsText`, `JsArray`, `ChatService`,
`SocketService`, `Middleware`, `NewChatDialog`, `AppSidebar`, `Http`,
`UserRoute`, `ChatsRoute`.

## Model

| member | source | states |
|---|---|---|
| `JsText.TrimEmptyIff` | src/app/api/user/route.ts:12 | `!nickname.trim()` holds exactly when the nickname is empty or white space only |
| `JsText.TrimKeepsInner` | src/app/api/user/route.ts:26 | trimming removes the surrounding white space and keeps the text between it exactly |
| `JsText.ParseDecimal` | src/components/app-sidebar.tsx:171 | `parseInt(s, 10)` reads back the decimal rendering of any count, with or without a minus sign |
| `JsArray.SortDesc` | src/lib/services/chatService.ts:177 | the newest-first sort returns a permutation of its input in non-increasing key order |
| `JsArray.SortEqualKeysKeepsOrder` | src/lib/services/chatService.ts:177 | a special case of stability: when all keys are equal, the sort leaves the order unchanged |
| `JsArray.SortStable` | src/lib/services/chatService.ts:177 | the sort is stable: for every key value, the elements with that key come out in the order they went in |
| `JsArray.SortPutsStrictMaxFirst` | src/lib/services/chatService.ts:177 | an element whose key is greater than every other element's is sorted to the front |
| `JsArray.SliceTo` | src/lib/services/chatService.ts:186-191 | `slice(0, end)` returns a prefix of length `min(end, n)`, and a negative `end` counts back from the end, down to the empty prefix |
| `ChatService.ArrayUnion` | src/lib/services/chatService.ts:50 | `arrayUnion` keeps the array as a prefix and adds the element at most once, so the contents become old contents plus the element; an element already present leaves the array exactly as it was |
| `ChatService.ArrayUnionKeepsNoDuplicates` | src/lib/services/chatService.ts:45-56 | an array with no duplicates stays duplicate-free under `arrayUnion` |
| `ChatService.CreateChat` | src/lib/services/chatService.ts:6-43 | the new chat has the creator as its only participant, no messages and `createdAt = updatedAt = now`; the id is the first uuid; each AI participant keeps its fields under the next uuid; the chat id joins the creator's chats; a missing creator fails with the chat already written |
| `ChatService.CreatedChatIsListed` | src/lib/services/chatService.ts:121-128 | a newly created chat is among its creator's chats as `getUserChats` selects them |
| `ChatService.CreatedChatHasNoMessages` | src/lib/services/chatService.ts:31 | the history of a new chat is an empty page with no `hasMore` |
| `ChatService.AddParticipant` | src/lib/services/chatService.ts:45-56 | the user joins the participants and the chat joins the user's chats, both by set union; a missing chat fails without writing; a missing user fails after the chat was updated |
| `ChatService.AddParticipantIdempotent` | src/lib/services/chatService.ts:45-56 | adding the same participant again leaves the store unchanged |
| `ChatService.AddParticipantAppendsOnce` | src/lib/services/chatService.ts:49-55 | a new participant is appended exactly once to the chat, and the chat exactly once to the user |
| `ChatService.AddedParticipantSeesChat` | src/lib/services/chatService.ts:121-128 | after `addParticipant`, the chat is among the user's chats |
| `ChatService.AddAIParticipant` | src/lib/services/chatService.ts:58-74 | the draft gets the given id and is added to the chat's AI participants by set union; a missing chat fails |
| `ChatService.AddAIParticipantIdempotent` | src/lib/services/chatService.ts:58-74 | adding the same AI participant a second time leaves the store unchanged |
| `ChatService.AddedAIParticipantIsRead` | src/lib/services/chatService.ts:58-74 | after `addAIParticipant`, `getChat` returns the chat holding the participant with the draft's fields under the new id, and the list stays duplicate-free |
| `ChatService.FindById` | src/lib/services/chatService.ts:89 | `find` returns the first AI participant with the sender's id, and nothing when none has it |
| `ChatService.AISenderName` | src/lib/services/chatService.ts:88-91 | the AI sender's name is never empty: the first participant with the sender's id gives its name, or `'AI'` when that name is empty, and `'AI'` when no participant has the id |
| `ChatService.SendMessage` | src/lib/services/chatService.ts:76-119 | the message has `createdAt = updatedAt = now` and the given id; the chat's `updatedAt` becomes the same `now` and its message ids gain the id by set union; the sender name comes from the first matching AI participant (or `'AI'`) or from the user's name; missing documents give the failures the code throws |
| `ChatService.SendMessageAddsIdOnce` | src/lib/services/chatService.ts:113-116 | the message id is appended when new and not added a second time |
| `ChatService.SentMessageLeadsNewestPage` | src/lib/services/chatService.ts:99-116 | a message sent with a new id and a later timestamp than all stored ones comes first on the newest page |
| `ChatService.GetChat` | src/lib/services/chatService.ts:130-139 | returns the chat document, or nothing for an unknown id |
| `ChatService.GetChatAfterCreate` | src/lib/services/chatService.ts:6-43 | reading the new chat by its id returns the same field values `createChat` returned, with timestamps as milliseconds |
| `ChatService.GetChatOthersUnchanged` | src/lib/services/chatService.ts:6-43 | every other chat id reads the same before and after `createChat`, including ids with no chat |
| `ChatService.UserChats` | src/lib/services/chatService.ts:121-128 | selects exactly the chats whose participants contain the user |
| `ChatService.UpdateChat` | src/lib/services/chatService.ts:196-214 | an unknown chat throws `'Chat not found'`; an update naming no field is rejected by `update` (line 210) and changes nothing; otherwise only the given name and visibility change, and the re-read chat is returned; it succeeds exactly in the last case |
| `ChatService.UpdateChatIdempotent` | src/lib/services/chatService.ts:196-214 | applying the same updates twice equals applying them once |
| `ChatService.GetChatAfterUpdate` | src/lib/services/chatService.ts:196-214 | after a successful update, `getChat` returns the same chat `updateChat` returned |
| `ChatService.GetChatMessages` | src/lib/services/chatService.ts:141-154 | an unknown chat throws `'Chat not found'`; every known chat yields a page |
| `ChatService.Resolve` | src/lib/services/chatService.ts:157-174 | every message id with a stored document contributes that document; ids without one are skipped, not errors |
| `ChatService.OlderThan` | src/lib/services/chatService.ts:181-183 | keeps exactly the messages strictly older than the cursor; messages at the cursor's timestamp are dropped |
| `ChatService.OlderThanNested` | src/lib/services/chatService.ts:181-183 | filtering by one cursor and then an earlier one is the same as filtering by the earlier one |
| `ChatService.PageBounds` | src/lib/services/chatService.ts:185-193 | a page holds at most `limit` messages, and `hasMore` is true exactly when more than `limit` stored messages pass the cursor |
| `ChatService.PageIsCandidatePrefix` | src/lib/services/chatService.ts:176-193 | the page is the first `min(limit, n)` of the sorted, filtered messages; it is not reversed |
| `ChatService.PageIsNewestSelection` | src/lib/services/chatService.ts:176-193 | the page is newest first and strictly older than the cursor; it is a sub-multiset of the eligible messages; no message left off is newer than one on it; without `hasMore` nothing was left off |
| `ChatService.PageMessagesAreStored` | src/lib/services/chatService.ts:157-166 | every message on a page is the stored document of one of the chat's message ids |
| `ChatService.NextPageContinues` | src/lib/services/chatService.ts:176-193 | using the oldest returned timestamp as the next cursor continues right after the page, when no later candidate shares that timestamp |
| `ChatService.LastMessageOnSecondPage` | src/lib/services/chatService.ts:176-193 | with `limit + 1` messages (e.g. 16 with limit 15), the first page holds the `limit` newest with `hasMore`, and the second holds the remaining one without it |
| `ChatService.CursorTieSkipsMessage` | src/lib/services/chatService.ts:176-193 | for any chat holding two stored messages with the same timestamp and a page size of 1, the first page is the first message with `hasMore`, and the page at that timestamp is empty, so the second message is never returned |
| `SocketService.Connect` | src/lib/services/socketService.ts:8-25 | without a socket, one is opened to the configured or default URL; with one, the same socket is returned and nothing is opened |
| `SocketService.FirstConnect` | src/lib/services/socketService.ts:4-25 | the fresh singleton has no socket, no handlers and an empty log, and its first `connect` opens exactly one socket to the configured or default URL |
| `SocketService.ConnectIdempotent` | src/lib/services/socketService.ts:8-25 | a second `connect` returns the first call's socket and changes nothing |
| `SocketService.Disconnect` | src/lib/services/socketService.ts:27-32 | the socket is closed and forgotten; without a socket nothing happens; handlers are kept |
| `SocketService.DisconnectIdempotent` | src/lib/services/socketService.ts:27-32 | disconnecting twice equals disconnecting once |
| `SocketService.HandlersSurviveReconnect` | src/lib/services/socketService.ts:27-32 | after a disconnect and a connect, the handler list is unchanged, and the log records the opening of the new socket, which becomes the current one |
| `SocketService.JoinChat` | src/lib/services/socketService.ts:34-38 | when connected, exactly one `('join-chat', id)` is emitted; when disconnected, nothing |
| `SocketService.LeaveChat` | src/lib/services/socketService.ts:40-44 | when connected, exactly one `('leave-chat', id)` is emitted; when disconnected, nothing |
| `SocketService.SendMessage` | src/lib/services/socketService.ts:46-50 | when connected, exactly one `('new-message', id, msg)` is emitted; when disconnected, nothing |
| `SocketService.EventNames` | src/lib/services/socketService.ts:34-50 | the three emits use the names `join-chat`, `leave-chat` and `new-message`, and different events never share a name |
| `SocketService.DisconnectedEmitsNothing` | src/lib/services/socketService.ts:27-50 | after `disconnect`, `joinChat`, `leaveChat` and `sendMessage` leave the session exactly as it is |
| `SocketService.ConnectedEmitsOnSocket` | src/lib/services/socketService.ts:8-50 | after `connect`, each emit adds one entry on the socket `connect` returned, and socket and handlers stay as they are |
| `SocketService.JoinThenLeave` | src/lib/services/socketService.ts:34-44 | joining and then leaving a chat logs the join and then the leave, on the same socket |
| `SocketService.OnMessage` | src/lib/services/socketService.ts:52-53 | the handler is appended after the existing ones |
| `SocketService.Without` | src/lib/services/socketService.ts:55 | the handler is gone, and every other handler keeps its number of registrations |
| `SocketService.Unsubscribe` | src/lib/services/socketService.ts:54-56 | every registration of the handler is removed; the others keep their counts; socket and log are untouched |
| `SocketService.SubscribeThenUnsubscribe` | src/lib/services/socketService.ts:52-56 | subscribing a new handler and calling the returned unsubscribe restores the session |
| `SocketService.UnsubscribeKeepsOrder` | src/lib/services/socketService.ts:55 | the handlers before and after the removed one keep their order |
| `SocketService.Dispatch` | src/lib/services/socketService.ts:17 | one call per registration, in registration order, all with the same message |
| `SocketService.MessageReceived` | src/lib/services/socketService.ts:16-18 | an incoming `message-received` on the open socket adds exactly the dispatch of every handler to the log |
| `SocketService.UnsubscribedHandlerNotInvoked` | src/lib/services/socketService.ts:16-18 | after unsubscribing, an incoming message never reaches the handler |
| `Middleware.IsPublicPath` | src/middleware.ts:5-16 | a path is public exactly when it is `/`, `/home` or `/api/user`, or starts with `/api/` |
| `Middleware.Guard` | src/middleware.ts:19-27 | the request is redirected to `/home` exactly when the path is not public and there is no `user_id` cookie |
| `Middleware.CookiePassesThrough` | src/middleware.ts:22-27 | a request carrying the cookie is never redirected |
| `Middleware.RedirectTargetPasses` | src/middleware.ts:23 | the redirect target `/home` is public, so there is no redirect loop |
| `Middleware.ApiUserCoveredByPrefix` | src/middleware.ts:5-16 | for every pathname, the public-path check gives the same answer with the `/api/user` entry dropped, so listing it is redundant given the `/api/` prefix rule |
| `Middleware.ChatPageRedirectsWithoutCookie` | src/middleware.ts:19-27 | every chat page `/chats/<id>` requested without the cookie is redirected to `/home` |
| `NewChatDialog.AddAIParticipant` | src/components/chat/new-chat-dialog.tsx:47-52 | exactly one entry `{"", openai, "gpt-4"}` is appended; earlier entries are unchanged |
| `NewChatDialog.UpdateAIParticipant` | src/components/chat/new-chat-dialog.tsx:54-62 | only the chosen field of the chosen entry changes; the length and all other entries are kept |
| `NewChatDialog.UpdateSameFieldLastWins` | src/components/chat/new-chat-dialog.tsx:54-62 | two edits of the same input of the same entry equal the later edit alone |
| `NewChatDialog.RemoveIndexShifts` | src/components/chat/new-chat-dialog.tsx:65 | filtering out an index keeps the entries before it and shifts the ones after it down |
| `NewChatDialog.RemoveAIParticipant` | src/components/chat/new-chat-dialog.tsx:64-66 | exactly the entry at the index is removed and the rest keep their order; an out-of-range index changes nothing |
| `NewChatDialog.AddThenRemove` | src/components/chat/new-chat-dialog.tsx:47-66 | removing the entry just added restores the form |
| `NewChatDialog.HandleSubmit` | src/components/chat/new-chat-dialog.tsx:33-45 | the current name, visibility and AI list go to `onCreateChat`, then `onClose` is called, and the form resets to `""`, `false`, `[]` |
| `NewChatDialog.SubmitForm` | src/components/chat/new-chat-dialog.tsx:77-163 | the form submits exactly when every `required` input is non-empty; a submit calls `onCreateChat` with a config whose name is the non-empty chat name and then `onClose`, and leaves a blank form |
| `NewChatDialog.NewEntryBlocksSubmit` | src/components/chat/new-chat-dialog.tsx:125-132 | a freshly added AI entry has an empty required name, so the form cannot submit until it is named |
| `NewChatDialog.SubmitTwiceCreatesOnce` | src/components/chat/new-chat-dialog.tsx:33-45 | after a submit the form is blank, so submitting again is blocked and a second chat is not created |
| `NewChatDialog.UpdateThenSubmit` | src/components/chat/new-chat-dialog.tsx:33-62 | an edited entry reaches `onCreateChat` with the edit applied, and all other entries as they were |
| `AppSidebar.RecentChatsAreTopFive` | src/components/app-sidebar.tsx:193-202 | the list has `min(n, 5)` rows in non-increasing update order; it is a top-five selection by `_seconds`; each row keeps its chat's id and name with `updatedAt = _seconds * 1000` |
| `AppSidebar.SameSecondKeepsResponseOrder` | src/components/app-sidebar.tsx:193-196 | for any response and any second, the shown chats updated in that second are a prefix of the response's chats of that second, in response order, and all of them when the response has at most five chats |
| `AppSidebar.FetchRecentChats` | src/components/app-sidebar.tsx:176-210 | without a cookie nothing is fetched; on success the list is replaced; on failure it is kept; loading ends in every case |
| `AppSidebar.NoCookieNoChats` | src/components/app-sidebar.tsx:177-181 | on first load without the cookie, the list stays empty and loading becomes false |
| `AppSidebar.SkeletonCountAsWritten` | src/components/app-sidebar.tsx:165-172 | the count defaults to 3 and is never above 5 |
| `AppSidebar.StoredCountCanBreakRender` | src/components/app-sidebar.tsx:278 | a stored "-1" or "none" gives a count that `Array(n)` rejects |
| `AppSidebar.SkeletonCount` | src/components/app-sidebar.tsx:169-172 | the corrected count is a valid length in 0..5; it equals the written one whenever that is valid and falls back to 3 otherwise |
| `AppSidebar.StoredCountRoundTrip` | src/components/app-sidebar.tsx:171 | a stored count `n` gives `min(n, 5)` placeholder rows |
| `AppSidebar.LoadSkeletonCount` | src/components/app-sidebar.tsx:165-173 | the mount effect, using the corrected count of the Findings row: a non-empty stored value sets the placeholder count to `AppSidebar.SkeletonCount` of it, which lies in 0..5; a missing or empty one leaves the state unchanged |
| `AppSidebar.MountEffectSkeletonCount` | src/components/app-sidebar.tsx:165-173 | the first render shows the default 3 placeholders; after the mount effect, a stored count `n` gives `min(n, 5)` rows, and no stored count keeps 3 |
| `UserRoute.Post` | src/app/api/user/route.ts:8-46 | a missing or blank nickname gives 400 `'Nickname is required'`; a good one stores and returns the new user under the uid from auth; the response is 200 exactly when the nickname is non-blank text, sign-in yields a uid and the write succeeds; every throw gives 500 and stores nothing |
| `UserRoute.BlankNicknameRefused` | src/app/api/user/route.ts:12-17 | a white-space-only nickname gives 400 and leaves the store unchanged |
| `UserRoute.CreatedUserNameIsTrimmed` | src/app/api/user/route.ts:24-37 | the created user has the trimmed nickname as its name, no chats and preferences `{notifications: true, defaultAIProvider: 'openai'}`; the stored document equals the returned user |
| `UserRoute.Get` | src/app/api/user/route.ts:48-76 | a missing header gives 400; an unknown id gives 404; a read failure gives 500; otherwise the stored document is returned |
| `UserRoute.GetAfterPost` | src/app/api/user/route.ts:59-68 | reading back a just-created user returns the same field values POST returned, with timestamps as milliseconds |
| `UserRoute.Patch` | src/app/api/user/route.ts:78-102 | a malformed body gives 500 before the header is checked; a missing header gives 400 with no update; a missing user, a body naming no field (`update({})` rejects) or a failed write gives 500; the response is 200 exactly in the remaining case |
| `UserRoute.GetAfterPatch` | src/app/api/user/route.ts:48-102 | after a successful PATCH, GET returns exactly the PATCH response, and every other user reads as before |
| `UserRoute.PatchIdempotent` | src/app/api/user/route.ts:78-102 | sending the same successful PATCH twice gives the same store and response as sending it once |
| `ChatsRoute.Post` | src/app/api/chats/route.ts:4-26 | a missing `x-user-id` gives 401 before the body is read; a missing or empty name gives 400 and creates nothing; on success `chatId` is the created chat's id; a failing `createChat` gives 500 `'Failed to create chat'` |
| `ChatsRoute.UnknownCreatorLeavesChatBehind` | src/app/api/chats/route.ts:17-25 | a creator without a user document gets 500, but the chat document has already been written |

## Findings

| source | as written | input that shows it | evidently intended | confidence | as-written member | corrected member |
|---|---|---|---|---|---|---|
| src/components/app-sidebar.tsx:171 | `Math.min(parseInt(storedCount, 10), 5)` caps the placeholder count only from above | `localStorage` `chat_count` = `"-1"` gives -1, and `"none"` gives `NaN`; `Array(skeletonCount)` at line 278 then throws `RangeError` while rendering | a placeholder count in 0..5, falling back to the default 3 | medium, not executed; no writer of `chat_count` is modelled | `AppSidebar.SkeletonCountAsWritten`, `AppSidebar.StoredCountCanBreakRender` | `AppSidebar.SkeletonCount`, used by `AppSidebar.LoadSkeletonCount` |

## Left out

- The Socket.IO server (`server.ts`) and its compiled copy. Room membership and the "everyone but the sender" broadcast happen inside the Socket.IO library, which is not part of this model.
- The behaviour the client does not have is not modelled: acknowledged joins, reconnection with rejoin, a membership check before broadcast, self-echo suppression, de-duplication of live messages, and ordering by id among equal timestamps.
- The `connect` and `disconnect` listeners of the socket only log, so they are left out. Handlers are opaque identities. What a handler does when called, including calling back into the session, is not modelled.
- `SocketService.Connect`: the connection attempt itself is not modelled. Neither is the transport's own reconnection, because the client code never looks at connection state.
- The AI service (`aiService.ts`) only dispatches to provider SDKs and streams. The join-by-code route calls a `joinChat` that is not part of this model.
- Firestore, the uuid generator, clocks, `Math.random`, `fetch`, cookies and `localStorage` are inputs. The join code derived from `Math.random()` is a given string.
- `ChatService.UserChats`: it returns a set. The order of Firestore's query result is not modelled.
- `ChatService.CreateChat`: ids are taken from the uuid inputs as given. That they are distinct (uuid freshness) is not modelled.
- `ChatService.GetChatMessages`: Firestore timestamps are converted to whole milliseconds before the model sees them. A non-integer or `NaN` limit is not modelled. A negative limit follows JavaScript's `slice`, and the page properties are stated for `limit >= 0`. The default `limit` of 15 (line 143) is left to the caller, which passes the limit explicitly.
- `NewChatDialog.UpdateAIParticipant`: it requires an index the dialog renders. With any other index JavaScript writes a partial entry past the end, and the UI never does this.
- `UserRoute.Patch`: only the fields `name`, `preferences` and `apiKeys` are modelled. Arbitrary keys and Firestore field paths in the body are not, so a body holding only other keys is treated as naming no field.
- `UserRoute.Post`: the uid is taken as given. A sign-in that yields no uid is modelled as a rejection.
- `ChatsRoute.Post`: `name`, `isPublic` and `aiParticipants` have their declared types. Non-string names and other ill-typed JSON values are not modelled.
- Timestamps: a `Date` written by `createChat` or POST `/api/user` and the Firestore `Timestamp` read back by `getChat` or GET are the same millisecond value here. Their types differ, and so does their JSON form (an ISO string against `{_seconds, _nanoseconds}`). The read-back lemmas compare field values only.
- `AppSidebar.LoadSkeletonCount`: it applies the corrected count. As written, line 171 stores -1 for a stored "-1" and `NaN` for "none"; that behaviour is modelled by `AppSidebar.SkeletonCountAsWritten` (see "## Findings"), not by the sidebar state.
- `JsText.ParseInt`: digit strings too long for a double are read as exact integers.
- Only the failures the routes surface are inputs: the failed read in GET, and the failed write in POST and PATCH. Other rejected storage calls in the chat service are not modelled.
- The middleware's `matcher` pattern and the Next.js request and response objects are not modelled. The guard sees only the pathname and whether the cookie is present.
- Rendering, the UI-only components, the auth hook, the user service and the configuration file are not modelled.
