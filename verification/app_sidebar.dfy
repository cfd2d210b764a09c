/**
 * The sidebar's recent-chats list: the five most recently updated chats of
 * the signed-in user, and the number of placeholder rows shown while they
 * load.
 */
module AppSidebar {
  import opened Wrappers
  import opened Types
  import JsText
  import JsArray

  /** A Firestore timestamp as the chats endpoint serialises it. */
  datatype FirestoreTimestamp = FirestoreTimestamp(seconds: int, nanoseconds: int)

  /** One chat of the `/api/chats` response body. */
  datatype ChatResponse = ChatResponse(id: string, name: string, updatedAt: FirestoreTimestamp)

  /** One row of the recent-chats list. */
  datatype RecentChat = RecentChat(id: string, name: string, updatedAt: Millis)

  /** How many chats the list shows. */
  const RecentLimit: nat := 5

  /** Placeholder rows before a stored count is read. */
  const DefaultSkeletonCount: nat := 3

  /** The sort key: `new Date(updatedAt._seconds * 1000).getTime()`; nanoseconds play no part. */
  function UpdatedMillis(c: ChatResponse): Millis {
    c.updatedAt.seconds * 1000
  }

  function ToRecent(c: ChatResponse): RecentChat {
    RecentChat(c.id, c.name, UpdatedMillis(c))
  }

  /** `sortedChats`: sort newest first, keep the first five, project each chat to a row. */
  function RecentChats(chats: seq<ChatResponse>): seq<RecentChat> {
    var top := JsArray.SliceTo(JsArray.SortDesc(chats, UpdatedMillis), RecentLimit);
    seq(|top|, i requires 0 <= i < |top| => ToRecent(top[i]))
  }

  /** The chats that make it to the list, before projection. */
  function Shown(chats: seq<ChatResponse>): seq<ChatResponse> {
    JsArray.SliceTo(JsArray.SortDesc(chats, UpdatedMillis), RecentLimit)
  }

  /**
   * The list holds `min(n, 5)` rows, newest first; every row keeps its chat's
   * id and name with the update time in milliseconds; and it is a top-five
   * selection: no chat left out was updated later than a chat shown.
   */
  lemma RecentChatsAreTopFive(chats: seq<ChatResponse>)
    ensures var r := RecentChats(chats);
      var shown := Shown(chats);
      && |r| == JsArray.Min(|chats|, 5)
      && (forall i, j :: 0 <= i < j < |r| ==> r[i].updatedAt >= r[j].updatedAt)
      && |shown| == |r|
      && (forall i :: 0 <= i < |r| ==>
            r[i] == RecentChat(shown[i].id, shown[i].name, shown[i].updatedAt.seconds * 1000))
      && multiset(shown) <= multiset(chats)
      && (forall x, y :: x in multiset(chats) - multiset(shown) && y in shown ==>
            x.updatedAt.seconds <= y.updatedAt.seconds)
  {
    var sorted := JsArray.SortDesc(chats, UpdatedMillis);
    var shown := Shown(chats);
    var k := |shown|;
    assert shown == sorted[..k];
    JsArray.SortedPrefixDominates(sorted, k, UpdatedMillis);
    RecentRowsInOrder(chats);
    forall x, y | x in multiset(chats) - multiset(shown) && y in shown
      ensures x.updatedAt.seconds <= y.updatedAt.seconds
    {
      assert x in sorted[k..];
      assert UpdatedMillis(x) <= UpdatedMillis(y);
    }
  }

  /** Each row projects the chat at its position, so the rows inherit the newest-first order. */
  lemma RecentRowsInOrder(chats: seq<ChatResponse>)
    ensures var r := RecentChats(chats);
      && |r| == |Shown(chats)| == JsArray.Min(|chats|, 5)
      && forall i, j :: 0 <= i < j < |r| ==> r[i].updatedAt >= r[j].updatedAt
  {
    var sorted := JsArray.SortDesc(chats, UpdatedMillis);
    var r := RecentChats(chats);
    forall i, j | 0 <= i < j < |r| ensures r[i].updatedAt >= r[j].updatedAt {
      assert r[i].updatedAt == UpdatedMillis(sorted[i]);
      assert r[j].updatedAt == UpdatedMillis(sorted[j]);
    }
  }

  /**
   * Chats updated in the same second keep the order the endpoint sent them in:
   * those of them that are shown are the first ones of that second in the
   * response, in response order, and all of them when the response has at
   * most five chats.
   */
  lemma SameSecondKeepsResponseOrder(chats: seq<ChatResponse>, seconds: int)
    ensures var shown := JsArray.KeyIs(Shown(chats), UpdatedMillis, seconds * 1000);
      var sent := JsArray.KeyIs(chats, UpdatedMillis, seconds * 1000);
      && |shown| <= |sent| && shown == sent[..|shown|]
      && (|chats| <= RecentLimit ==> shown == sent)
  {
    var sorted := JsArray.SortDesc(chats, UpdatedMillis);
    var n := |Shown(chats)|;
    assert Shown(chats) == sorted[..n];
    JsArray.SortStable(chats, UpdatedMillis, seconds * 1000);
    JsArray.KeyIsPrefix(sorted, n, UpdatedMillis, seconds * 1000);
    if |chats| <= RecentLimit {
      assert sorted[..n] == sorted;
    }
  }

  // ---------------------------------------------------------------------------
  // Fetching the list

  /** What `fetch('/api/chats')` yields: a body with chats, a non-ok status, or a rejection. */
  datatype FetchResult = Chats(chats: seq<ChatResponse>) | NotOk | Rejected

  datatype SidebarState = SidebarState(recentChats: seq<RecentChat>, isLoadingChats: bool, skeletonCount: nat)

  const InitialState: SidebarState := SidebarState([], true, DefaultSkeletonCount)

  /** A fetch of the user's chats, sent with the `x-user-id` header. */
  datatype Request = NoRequest | ChatsRequest(userId: string)

  /**
   * `fetchRecentChats()`: without a (non-empty) `user_id` cookie nothing is
   * fetched; otherwise the list is replaced by the fetched chats on success
   * and kept on failure. Loading ends in every case.
   */
  function FetchRecentChats(st: SidebarState, cookie: Option<string>, response: FetchResult)
    : (r: (SidebarState, Request))
    ensures !r.0.isLoadingChats && r.0.skeletonCount == st.skeletonCount
    ensures cookie.None? || cookie.value == "" ==> r.1 == NoRequest && r.0.recentChats == st.recentChats
    ensures cookie.Some? && cookie.value != "" ==>
      && r.1 == ChatsRequest(cookie.value)
      && r.0.recentChats == (if response.Chats? then RecentChats(response.chats) else st.recentChats)
  {
    if cookie.None? || cookie.value == "" then (st.(isLoadingChats := false), NoRequest)
    else
      var request := ChatsRequest(cookie.value);
      match response
      case Chats(cs) => (st.(recentChats := RecentChats(cs), isLoadingChats := false), request)
      case NotOk => (st.(isLoadingChats := false), request)
      case Rejected => (st.(isLoadingChats := false), request)
  }

  /** On a first load without the cookie the list stays empty and loading ends. */
  lemma NoCookieNoChats(response: FetchResult)
    ensures FetchRecentChats(InitialState, None, response) == (SidebarState([], false, 3), NoRequest)
  {
  }

  // ---------------------------------------------------------------------------
  // Placeholder count

  /** A JavaScript number as far as this computation needs it. */
  datatype JsNumber = Num(value: int) | NaN

  /** `Array(n)` accepts a length that is an integer in 0 .. 2^32 - 1 and throws `RangeError` otherwise. */
  predicate IsArrayLength(n: JsNumber) {
    n.Num? && 0 <= n.value < 0x1_0000_0000
  }

  /**
   * The placeholder count as written: `Math.min(parseInt(stored, 10), 5)` when
   * `localStorage.getItem('chat_count')` is a non-empty string, 3 otherwise.
   * Nothing bounds it from below.
   */
  function SkeletonCountAsWritten(stored: Option<string>): (n: JsNumber)
    ensures stored.None? || stored.value == "" ==> n == Num(3)
    ensures n.Num? ==> n.value <= 5
  {
    if stored.None? || stored.value == "" then Num(DefaultSkeletonCount)
    else match JsText.ParseInt(stored.value)
      case None => NaN
      case Some(v) => Num(JsArray.Min(v, 5))
  }

  /** A stored "-1" or "none" gives a count `Array(skeletonCount)` rejects while rendering. */
  lemma StoredCountCanBreakRender()
    ensures SkeletonCountAsWritten(Some("-1")) == Num(-1)
    ensures SkeletonCountAsWritten(Some("none")) == NaN
    ensures !IsArrayLength(SkeletonCountAsWritten(Some("-1")))
    ensures !IsArrayLength(SkeletonCountAsWritten(Some("none")))
  {
    JsText.ParseDecimal(1);
    assert "-" + JsText.DecimalString(1) == "-1";
    assert JsText.TrimStart("none") == "none";
    assert JsText.LeadingDigits("none") == 0;
  }

  /**
   * The placeholder count as intended: the stored count capped at 5, and the
   * default 3 when the stored value is missing, empty, not a number or negative.
   */
  function SkeletonCount(stored: Option<string>): (n: nat)
    ensures n <= 5
    ensures IsArrayLength(SkeletonCountAsWritten(stored)) ==> SkeletonCountAsWritten(stored) == Num(n)
    ensures !IsArrayLength(SkeletonCountAsWritten(stored)) ==> n == DefaultSkeletonCount
  {
    match SkeletonCountAsWritten(stored)
    case Num(v) => if 0 <= v then v else DefaultSkeletonCount
    case NaN => DefaultSkeletonCount
  }

  /** The stored count of a number of chats shows that many rows, at most five. */
  lemma StoredCountRoundTrip(count: nat)
    ensures SkeletonCount(Some(JsText.DecimalString(count))) == JsArray.Min(count, 5)
  {
    JsText.ParseDecimal(count);
  }

  /**
   * The mount effect: when `localStorage` holds a non-empty `chat_count`, the
   * placeholder count becomes the count read from it; otherwise the state is
   * left as it is.
   */
  function LoadSkeletonCount(st: SidebarState, stored: Option<string>): (r: SidebarState)
    ensures stored.Some? && stored.value != "" ==> r == st.(skeletonCount := SkeletonCount(stored))
    ensures stored.None? || stored.value == "" ==> r == st
    ensures r.skeletonCount <= 5 || r.skeletonCount == st.skeletonCount
  {
    if stored.None? || stored.value == "" then st
    else st.(skeletonCount := SkeletonCount(stored))
  }

  /**
   * The first render always shows the default 3 placeholders; after the mount
   * effect has run, the count is the stored count capped at 5, or still 3 when
   * none is stored.
   */
  lemma MountEffectSkeletonCount(count: nat)
    ensures InitialState.skeletonCount == DefaultSkeletonCount == 3
    ensures LoadSkeletonCount(InitialState, Some(JsText.DecimalString(count))).skeletonCount == JsArray.Min(count, 5)
    ensures LoadSkeletonCount(InitialState, None).skeletonCount == DefaultSkeletonCount
  {
    StoredCountRoundTrip(count);
  }
}
