/**
 * The `/api/user` route: POST creates an anonymous user with a nickname, GET
 * reads the user named by the `x-user-id` header, PATCH updates it. Every
 * exception inside a handler becomes a 500 response.
 */
module UserRoute {
  import opened Wrappers
  import opened Types
  import opened Http
  import JsText
  import ChatService

  type Store = ChatService.Store

  /** The `nickname` property of the POST body. */
  datatype Nickname =
    | NoNickname            // absent or null: `nickname?.trim()` is undefined
    | Text(value: string)
    | NotText               // a number, boolean, object or array: `trim` is not a function

  /** The preferences every new user starts with. */
  const DefaultPreferences: UserPreferences := UserPreferences(Some(true), Some(OpenAI))

  /** The user document POST creates for a nickname. */
  function NewUser(userId: string, nickname: string, now: Millis): User {
    User(userId, JsText.Trim(nickname), now, [], DefaultPreferences, None)
  }

  /**
   * `POST(req)`. `auth` is the uid `signInAnonymously` yields, `None` when it
   * rejects; `writeFails` says whether writing the user document rejects;
   * `now` is the `new Date()` of the call.
   */
  function Post(store: Store, body: JsonBody<Nickname>, auth: Option<string>, writeFails: bool,
                now: Millis): (r: (Store, Response))
    ensures body.Parsed? && body.value.Text? && JsText.Trim(body.value.value) != []
            && auth.Some? && !writeFails ==>
      var user := NewUser(auth.value, body.value.value, now);
      r == (store.(users := store.users[auth.value := user]), Response(Ok, UserDocument(user)))
    ensures r.1.status == Ok || r.0 == store
    ensures r.1.status == Ok <==>
      body.Parsed? && body.value.Text? && JsText.Trim(body.value.value) != [] && auth.Some? && !writeFails
    ensures r.1.status == BadRequest <==>
      body.Parsed? && (body.value.NoNickname? || (body.value.Text? && JsText.Trim(body.value.value) == []))
    ensures r.1.status == BadRequest ==> r.1.body == ErrorMessage("Nickname is required")
    ensures r.1.status != Ok && r.1.status != BadRequest ==>
      r.1 == Response(InternalServerError, ErrorMessage("Failed to create user"))
  {
    var failed := (store, Response(InternalServerError, ErrorMessage("Failed to create user")));
    match body
    case Malformed => failed
    case Parsed(NotText) => failed
    case Parsed(NoNickname) => (store, Response(BadRequest, ErrorMessage("Nickname is required")))
    case Parsed(Text(nickname)) =>
      if JsText.Trim(nickname) == [] then (store, Response(BadRequest, ErrorMessage("Nickname is required")))
      else if auth.None? || writeFails then failed
      else
        var user := NewUser(auth.value, nickname, now);
        (store.(users := store.users[auth.value := user]), Response(Ok, UserDocument(user)))
  }

  /** A nickname of white space only is refused and nothing is stored. */
  lemma BlankNicknameRefused(store: Store, nickname: string, auth: Option<string>, writeFails: bool, now: Millis)
    requires forall i :: 0 <= i < |nickname| ==> JsText.IsWhiteSpace(nickname[i])
    ensures Post(store, Parsed(Text(nickname)), auth, writeFails, now)
         == (store, Response(BadRequest, ErrorMessage("Nickname is required")))
  {
    JsText.TrimEmptyIff(nickname);
  }

  /** The new user is named by the nickname without its surrounding white space. */
  lemma CreatedUserNameIsTrimmed(lead: string, name: string, trail: string, store: Store, uid: string, now: Millis)
    requires forall i :: 0 <= i < |lead| ==> JsText.IsWhiteSpace(lead[i])
    requires forall i :: 0 <= i < |trail| ==> JsText.IsWhiteSpace(trail[i])
    requires |name| > 0 && !JsText.IsWhiteSpace(name[0]) && !JsText.IsWhiteSpace(name[|name| - 1])
    ensures var r := Post(store, Parsed(Text(lead + name + trail)), Some(uid), false, now);
      && r.1.status == Ok
      && r.1.body.user == User(uid, name, now, [], UserPreferences(Some(true), Some(OpenAI)), None)
      && r.0.users[uid] == r.1.body.user
  {
    JsText.TrimKeepsInner(lead, name, trail);
  }

  /** `GET(req)`. `readFails` says whether reading the user document rejects. */
  function Get(store: Store, userId: Option<string>, readFails: bool): (r: Response)
    ensures !HasValue(userId) ==> r == Response(BadRequest, ErrorMessage("User ID is required"))
    ensures HasValue(userId) && readFails ==> r == Response(InternalServerError, ErrorMessage("Failed to fetch user"))
    ensures HasValue(userId) && !readFails ==>
      if userId.value in store.users then r == Response(Ok, UserDocument(store.users[userId.value]))
      else r == Response(NotFound, ErrorMessage("User not found"))
  {
    if !HasValue(userId) then Response(BadRequest, ErrorMessage("User ID is required"))
    else if readFails then Response(InternalServerError, ErrorMessage("Failed to fetch user"))
    else if userId.value !in store.users then Response(NotFound, ErrorMessage("User not found"))
    else Response(Ok, UserDocument(store.users[userId.value]))
  }

  /** Reading back a user that POST just created returns the document POST returned. */
  lemma GetAfterPost(store: Store, nickname: string, uid: string, now: Millis)
    requires JsText.Trim(nickname) != [] && uid != ""
    ensures var r := Post(store, Parsed(Text(nickname)), Some(uid), false, now);
      Get(r.0, Some(uid), false) == r.1
  {
  }

  /** The fields a PATCH body may set; an absent field is left as it is. */
  datatype UserPatch = UserPatch(name: Option<string>, preferences: Option<UserPreferences>,
                                 apiKeys: Option<APIKeys>)

  /** A body naming none of the fields: Firestore's `update({})` rejects it. */
  predicate NoFields(p: UserPatch) {
    p.name.None? && p.preferences.None? && p.apiKeys.None?
  }

  function ApplyPatch(u: User, p: UserPatch): User {
    u.(name := p.name.GetOr(u.name), preferences := p.preferences.GetOr(u.preferences),
       apiKeys := if p.apiKeys.Some? then p.apiKeys else u.apiKeys)
  }

  /**
   * `PATCH(req)`: the body is parsed before the header is checked; the update
   * of a missing user document and an update naming no field both reject,
   * which yields 500.
   */
  function Patch(store: Store, userId: Option<string>, body: JsonBody<UserPatch>, writeFails: bool)
    : (r: (Store, Response))
    ensures r.1.status != Ok ==> r.0 == store
    ensures body.Malformed? ==> r.1 == Response(InternalServerError, ErrorMessage("Failed to update user"))
    ensures body.Parsed? && !HasValue(userId) ==> r.1 == Response(BadRequest, ErrorMessage("User ID is required"))
    ensures body.Parsed? && HasValue(userId) && (writeFails || userId.value !in store.users || NoFields(body.value)) ==>
      r.1 == Response(InternalServerError, ErrorMessage("Failed to update user"))
    ensures r.1.status == Ok <==>
      body.Parsed? && HasValue(userId) && !writeFails && userId.value in store.users && !NoFields(body.value)
    ensures r.1.status == Ok ==>
      var updated := ApplyPatch(store.users[userId.value], body.value);
      r == (store.(users := store.users[userId.value := updated]), Response(Ok, UserDocument(updated)))
  {
    var failed := (store, Response(InternalServerError, ErrorMessage("Failed to update user")));
    match body
    case Malformed => failed
    case Parsed(patch) =>
      if !HasValue(userId) then (store, Response(BadRequest, ErrorMessage("User ID is required")))
      else if writeFails || userId.value !in store.users || NoFields(patch) then failed
      else
        var updated := ApplyPatch(store.users[userId.value], patch);
        (store.(users := store.users[userId.value := updated]), Response(Ok, UserDocument(updated)))
  }

  /** A successful PATCH is what GET reads back afterwards, and every other user reads as before. */
  lemma GetAfterPatch(store: Store, uid: string, patch: UserPatch, other: string)
    requires uid != "" && uid in store.users && !NoFields(patch) && other != uid
    ensures var r := Patch(store, Some(uid), Parsed(patch), false);
      && Get(r.0, Some(uid), false) == r.1
      && Get(r.0, Some(other), false) == Get(store, Some(other), false)
  {
  }

  /** Sending the same PATCH twice leaves the user as sending it once. */
  lemma PatchIdempotent(store: Store, uid: string, patch: UserPatch)
    requires uid != "" && uid in store.users && !NoFields(patch)
    ensures var r := Patch(store, Some(uid), Parsed(patch), false);
      Patch(r.0, Some(uid), Parsed(patch), false) == r
  {
    var u := ApplyPatch(store.users[uid], patch);
    assert ApplyPatch(u, patch) == u;
    assert store.users[uid := u][uid := u] == store.users[uid := u];
  }
}
