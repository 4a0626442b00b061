/** `SessionManager` (src/components/utils/sessionManager.js): the visitor's
    session record under `chatUser`, the time-boxed admin flag under
    `adminMode`, and the two per-user message buffers `messages_<userId>` and
    `chatMessages_<userId>`, all kept in `localStorage`. Every operation is a
    pure function from the old store to the new one; the wall-clock time
    `Date.now()` is the parameter `now`, and random text is a parameter too. */
module Session {
  import opened Wrappers
  import opened Strings
  import opened Js
  import opened Storage
  import Host

  /** SESSION_DURATION: 24 hours in milliseconds. Admin mode uses the same window. */
  const SessionDuration: int := 24 * 60 * 60 * 1000

  const ChatUserKey: string := "chatUser"
  const AdminModeKey: string := "adminMode"
  const BotPrefix: string := "messages_"
  const AdminChatPrefix: string := "chatMessages_"

  /** The property names `createSession` sets after spreading the form data. */
  const SessionFieldNames: set<string> := {"userId", "token", "expiresAt", "createdAt"}

  /** `messages_${userId}`: the bot-conversation buffer of a user. */
  function BotKey(userId: Value): string {
    BotPrefix + ToText(userId)
  }

  /** `chatMessages_${userId}`: the admin-conversation buffer of a user. */
  function AdminChatKey(userId: Value): string {
    AdminChatPrefix + ToText(userId)
  }

  /** `!data.expiresAt || now > data.expiresAt`: a missing, falsy or passed
      expiry. The instant `now == expiresAt` is not yet expired, and an
      expiry that coerces to NaN never passes. */
  predicate Expired(f: Fields, now: int) {
    !Truthy(Get(f, "expiresAt")) || Exceeds(now, Get(f, "expiresAt"))
  }

  /** `!data.timestamp || now - data.timestamp > SESSION_DURATION` */
  predicate Stale(f: Fields, now: int) {
    !Truthy(Get(f, "timestamp")) || GapExceeds(now, Get(f, "timestamp"), SessionDuration)
  }

  /** The keys `clearOrphanedData` sweeps. */
  predicate IsOrphanKey(k: string) {
    StartsWith(k, BotPrefix) || StartsWith(k, AdminChatPrefix) || k == AdminModeKey
  }

  /** The keys `clearAllUserData(userId)` removes. */
  function CascadeKeys(userId: Option<Value>): set<string> {
    {ChatUserKey, AdminModeKey}
    + (if Truthy(userId) then {BotKey(userId.value), AdminChatKey(userId.value)} else {})
  }

  /** The record's numeric expiry, when the key holds a record whose
      `expiresAt` is a number. */
  function NumericExpiry(store: Store, key: string): Option<int> {
    if key in store && store[key].Record? && Get(store[key].fields, "expiresAt").Some?
       && Get(store[key].fields, "expiresAt").value.Num?
    then Some(Get(store[key].fields, "expiresAt").value.n)
    else None
  }

  /** The four storage keys of one user are pairwise distinct, and only the
      session key escapes the orphan sweep. */
  lemma KeysDistinct(u: Value)
    ensures BotKey(u) != AdminChatKey(u)
    ensures BotKey(u) != ChatUserKey && BotKey(u) != AdminModeKey
    ensures AdminChatKey(u) != ChatUserKey && AdminChatKey(u) != AdminModeKey
    ensures ChatUserKey != AdminModeKey
    ensures IsOrphanKey(BotKey(u)) && IsOrphanKey(AdminChatKey(u)) && IsOrphanKey(AdminModeKey)
    ensures !IsOrphanKey(ChatUserKey)
  {
    assert BotKey(u)[0] == 'm';
    assert AdminChatKey(u)[0] == 'c' && AdminChatKey(u)[4] == 'M';
    assert BotKey(u)[..|BotPrefix|] == BotPrefix;
    assert AdminChatKey(u)[..|AdminChatPrefix|] == AdminChatPrefix;
    assert ChatUserKey[0] == 'c' && ChatUserKey[4] == 'U';
  }

  // ---------------------------------------------------------------------
  // Reading and writing the session record

  /** `isSessionValid()`: the store is only read. */
  function IsSessionValid(store: Store, now: int): (valid: bool)
    ensures valid <==> ChatUserKey in store && store[ChatUserKey].Record?
                       && !Expired(store[ChatUserKey].fields, now)
    ensures NumericExpiry(store, ChatUserKey).Some? ==>
              (valid <==> NumericExpiry(store, ChatUserKey).value != 0
                          && now <= NumericExpiry(store, ChatUserKey).value)
  {
    match ReadJson(store, ChatUserKey)
    case Parsed(f) => !Expired(f, now)
    case _ => false
  }

  /** `token`: random base-36 text followed by `Date.now().toString(36)`. */
  function Token(randomText: string, now: int): string {
    randomText + IntToRadix(now, 36)
  }

  datatype Created = Created(store: Store, session: Fields)

  /** `createSession(formData, userId)`: the form fields, overridden by
      `userId`, `token`, `expiresAt` and `createdAt`, stored under `chatUser`. */
  function CreateSession(store: Store, formData: Fields, userId: Value, randomText: string, now: int)
    : (r: Created)
    ensures r.store.Keys == store.Keys + {ChatUserKey}
    ensures forall k :: k in store && k != ChatUserKey ==> r.store[k] == store[k]
    ensures ReadJson(r.store, ChatUserKey) == Parsed(r.session)
    ensures r.session.Keys == formData.Keys + SessionFieldNames
    ensures forall k :: k in formData && k !in SessionFieldNames ==> r.session[k] == formData[k]
    ensures Get(r.session, "userId") == Some(userId)
    ensures Get(r.session, "token") == Some(Str(Token(randomText, now)))
    ensures Get(r.session, "expiresAt") == Some(Num(now + SessionDuration))
    ensures Get(r.session, "createdAt") == Some(Num(now))
  {
    var session := formData + map[
      "userId" := userId,
      "token" := Str(Token(randomText, now)),
      "expiresAt" := Num(now + SessionDuration),
      "createdAt" := Num(now)
    ];
    Created(store[ChatUserKey := Record(session)], session)
  }

  /** `getSessionData()`: the parsed session record, or null. */
  function GetSessionData(store: Store): (r: Option<Fields>)
    ensures r.Some? <==> ChatUserKey in store && store[ChatUserKey].Record?
    ensures r.Some? ==> store[ChatUserKey] == Record(r.value)
  {
    match ReadJson(store, ChatUserKey)
    case Parsed(f) => Some(f)
    case _ => None
  }

  /** The id `getUserId` generates: `user_${Date.now()}_${random}_${cleanWebsite}`. */
  function FreshUserId(now: int, randomText: string, website: string): (id: string)
  {
    "user_" + Decimal(now) + "_" + randomText + "_" + Host.CleanHost(website)
  }

  /** `getUserId(website)`: the stored session's truthy `userId`, else a fresh id.
      The store is only read. */
  function GetUserId(store: Store, website: string, now: int, randomText: string): (id: Value)
    ensures ChatUserKey in store && store[ChatUserKey].Record?
            && Truthy(Get(store[ChatUserKey].fields, "userId"))
            ==> id == store[ChatUserKey].fields["userId"]
    ensures !(ChatUserKey in store && store[ChatUserKey].Record?
              && Truthy(Get(store[ChatUserKey].fields, "userId")))
            ==> id == Str(FreshUserId(now, randomText, website))
  {
    match ReadJson(store, ChatUserKey)
    case Parsed(f) =>
      if Truthy(Get(f, "userId")) then Get(f, "userId").value
      else Str(FreshUserId(now, randomText, website))
    case _ => Str(FreshUserId(now, randomText, website))
  }

  /** A generated id is tagged `user_` and ends with `_` and the site's host. */
  lemma FreshUserIdShape(now: int, randomText: string, website: string)
    ensures StartsWith(FreshUserId(now, randomText, website), "user_")
    ensures var id := FreshUserId(now, randomText, website);
            var tail := "_" + Host.CleanHost(website);
            |tail| <= |id| && id[|id| - |tail|..] == tail
  {
    var time, host := Decimal(now), Host.CleanHost(website);
    assert FreshUserId(now, randomText, website) == "user_" + time + "_" + randomText + "_" + host;
    TaggedIdShape(time, randomText, host);
  }

  /** `user_<time>_<random>_<host>` starts with its tag and ends with `_<host>`,
      whatever the three parts are. */
  lemma TaggedIdShape(time: string, randomText: string, host: string)
    ensures var id := "user_" + time + "_" + randomText + "_" + host;
            StartsWith(id, "user_") && id[|id| - |"_" + host|..] == "_" + host
  {
    var head := "user_" + time + "_" + randomText;
    var id := head + "_" + host;
    assert id == head + ("_" + host);
    assert id[|head|..] == "_" + host;
    assert id[..5] == "user_";
  }

  // ---------------------------------------------------------------------
  // Admin mode

  /** `enableAdminMode()`: an active flag that expires with the session window. */
  function EnableAdminMode(store: Store, now: int): (r: Store)
    ensures r.Keys == store.Keys + {AdminModeKey}
    ensures forall k :: k in store && k != AdminModeKey ==> r[k] == store[k]
    ensures ReadJson(r, AdminModeKey).Parsed?
    ensures r[AdminModeKey].fields.Keys == {"active", "expiresAt", "createdAt"}
    ensures var f := r[AdminModeKey].fields;
            Get(f, "active") == Some(Bool(true))
            && Get(f, "expiresAt") == Some(Num(now + SessionDuration))
            && Get(f, "createdAt") == Some(Num(now))
  {
    store[AdminModeKey := Record(map[
      "active" := Bool(true),
      "expiresAt" := Num(now + SessionDuration),
      "createdAt" := Num(now)
    ])]
  }

  /** The admin flag is kept by a check: it is an empty string or an unexpired record. */
  predicate AdminFlagKept(store: Store, now: int) {
    AdminModeKey in store
    && (store[AdminModeKey] == Text("")
        || (store[AdminModeKey].Record? && !Expired(store[AdminModeKey].fields, now)))
  }

  datatype AdminCheck = AdminCheck(active: bool, store: Store)

  /** `isAdminModeActive()`: true only for a parseable, unexpired flag whose
      `active` is exactly `true`; a corrupt or expired flag is removed. */
  function IsAdminModeActive(store: Store, now: int): (r: AdminCheck)
    ensures r.active <==> AdminModeKey in store && store[AdminModeKey].Record?
                          && !Expired(store[AdminModeKey].fields, now)
                          && Get(store[AdminModeKey].fields, "active") == Some(Bool(true))
    ensures AdminModeKey in r.store <==> AdminFlagKept(store, now)
    ensures RemovalsOnly(r.store, store)
    ensures forall k :: k != AdminModeKey ==> SameAt(r.store, store, k)
  {
    match ReadJson(store, AdminModeKey)
    case Absent => AdminCheck(false, store)
    case Unparsable => AdminCheck(false, Remove(store, AdminModeKey))
    case Parsed(f) =>
      if Expired(f, now) then AdminCheck(false, Remove(store, AdminModeKey))
      else AdminCheck(Get(f, "active") == Some(Bool(true)), store)
  }

  /** `cleanAdminMode()`: removes a corrupt or expired admin flag. */
  function CleanAdminMode(store: Store, now: int): (r: Store)
    ensures AdminModeKey in r <==> AdminFlagKept(store, now)
    ensures RemovalsOnly(r, store)
    ensures forall k :: k != AdminModeKey ==> SameAt(r, store, k)
  {
    var adminMode := ReadJson(store, AdminModeKey);
    if adminMode.Absent? then store
    else if adminMode.Parsed? && !Expired(adminMode.fields, now) then store
    else Remove(store, AdminModeKey)
  }

  /** The check `isAdminModeActive` makes and the sweep `cleanAdminMode` makes
      leave the same store behind. */
  lemma AdminCheckCleansLikeSweep(store: Store, now: int)
    ensures IsAdminModeActive(store, now).store == CleanAdminMode(store, now)
  {
  }

  /** After `enableAdminMode` at `now`, admin mode is active exactly up to and
      including `now + SESSION_DURATION` (a zero expiry is falsy, so never);
      past it the check removes the flag and nothing else. */
  lemma AdminModeWindow(store: Store, now: int, t: int)
    ensures var enabled := EnableAdminMode(store, now);
            var check := IsAdminModeActive(enabled, t);
            && (check.active <==> now + SessionDuration != 0 && t <= now + SessionDuration)
            && (check.active ==> check.store == enabled)
            && (!check.active ==> check.store == Remove(enabled, AdminModeKey))
  {
    var enabled := EnableAdminMode(store, now);
    var check := IsAdminModeActive(enabled, t);
    if !check.active {
      assert check.store == Remove(enabled, AdminModeKey);
    }
  }

  // ---------------------------------------------------------------------
  // Cleanup

  /** `clearAllUserData(userId)`: removes the session, the admin flag, and,
      when `userId` is truthy, that user's two buffers. */
  function ClearAllUserData(store: Store, userId: Option<Value>): (r: Store)
    ensures forall k :: k in r <==> k in store && k !in CascadeKeys(userId)
    ensures RemovalsOnly(r, store)
  {
    var withoutSession := Remove(Remove(store, ChatUserKey), AdminModeKey);
    if Truthy(userId) then
      Remove(Remove(withoutSession, BotKey(userId.value)), AdminChatKey(userId.value))
    else withoutSession
  }

  /** `clearOrphanedData()`: removes every `messages_*` and `chatMessages_*`
      key and the admin flag. */
  function ClearOrphanedData(store: Store): (r: Store)
    ensures forall k :: k in r <==> k in store && !IsOrphanKey(k)
    ensures RemovalsOnly(r, store)
  {
    map k | k in store && !IsOrphanKey(k) :: store[k]
  }

  /** A message buffer survives `cleanUserMessages`: it is an empty string, or
      a record with a truthy timestamp no more than SESSION_DURATION old. */
  predicate BufferKept(store: Store, key: string, now: int) {
    key in store
    && (store[key] == Text("") || (store[key].Record? && !Stale(store[key].fields, now)))
  }

  /** One half of `cleanUserMessages`: drops the buffer under `key` when it is
      corrupt or stale. */
  function CleanBuffer(store: Store, key: string, now: int): (r: Store)
    ensures key in r <==> BufferKept(store, key, now)
    ensures RemovalsOnly(r, store)
    ensures forall k :: k != key ==> SameAt(r, store, k)
  {
    match ReadJson(store, key)
    case Absent => store
    case Unparsable => Remove(store, key)
    case Parsed(f) => if Stale(f, now) then Remove(store, key) else store
  }

  /** `cleanUserMessages(userId)`: cleans the user's bot buffer, then the
      admin-conversation buffer. */
  function CleanUserMessages(store: Store, userId: Value, now: int): (r: Store)
    ensures BotKey(userId) in r <==> BufferKept(store, BotKey(userId), now)
    ensures AdminChatKey(userId) in r <==> BufferKept(store, AdminChatKey(userId), now)
    ensures RemovalsOnly(r, store)
    ensures forall k :: k != BotKey(userId) && k != AdminChatKey(userId) ==> SameAt(r, store, k)
  {
    KeysDistinct(userId);
    CleanBuffer(CleanBuffer(store, BotKey(userId), now), AdminChatKey(userId), now)
  }

  /** `clearExpiredSessions()`: the lazy lifecycle sweep run on start-up.
      - no session: the orphan sweep;
      - a corrupt session: the session key, then the orphan sweep;
      - an expired session: the cascade over that user's keys;
      - a live session with a truthy `userId`: that user's stale buffers and a
        stale admin flag;
      - a live session without one: nothing. */
  function ClearExpiredSessions(store: Store, now: int): (r: Store)
    ensures RemovalsOnly(r, store)
    ensures !Present(store, ChatUserKey) ==>
              forall k :: k in r <==> k in store && !IsOrphanKey(k)
    ensures ReadJson(store, ChatUserKey).Unparsable? ==>
              forall k :: k in r <==> k in store && k != ChatUserKey && !IsOrphanKey(k)
    ensures var session := ReadJson(store, ChatUserKey);
            session.Parsed? && Expired(session.fields, now) ==>
              forall k :: k in r <==> k in store && k !in CascadeKeys(Get(session.fields, "userId"))
    ensures var session := ReadJson(store, ChatUserKey);
            session.Parsed? && !Expired(session.fields, now) && Truthy(Get(session.fields, "userId")) ==>
              var u := Get(session.fields, "userId").value;
              && SameAt(r, store, ChatUserKey)
              && (BotKey(u) in r <==> BufferKept(store, BotKey(u), now))
              && (AdminChatKey(u) in r <==> BufferKept(store, AdminChatKey(u), now))
              && (AdminModeKey in r <==> AdminFlagKept(store, now))
              && (forall k :: (k != BotKey(u) && k != AdminChatKey(u) && k != AdminModeKey)
                                ==> SameAt(r, store, k))
    ensures var session := ReadJson(store, ChatUserKey);
            session.Parsed? && !Expired(session.fields, now) && !Truthy(Get(session.fields, "userId"))
            ==> r == store
  {
    match ReadJson(store, ChatUserKey)
    case Absent => ClearOrphanedData(store)
    case Unparsable => ClearOrphanedData(Remove(store, ChatUserKey))
    case Parsed(f) =>
      var userId := Get(f, "userId");
      if Expired(f, now) then ClearAllUserData(store, userId)
      else if Truthy(userId) then
        KeysDistinct(userId.value);
        CleanAdminMode(CleanUserMessages(store, userId.value, now), now)
      else store
  }

  /** `logout()`: the cascade, whatever the expiry; the user's buffers go only
      when a `userId` can be read from the session record. */
  function Logout(store: Store): (r: Store)
    ensures ChatUserKey !in r && AdminModeKey !in r
    ensures RemovalsOnly(r, store)
    ensures var session := ReadJson(store, ChatUserKey);
            session.Parsed? && Truthy(Get(session.fields, "userId")) ==>
              BotKey(Get(session.fields, "userId").value) !in r
              && AdminChatKey(Get(session.fields, "userId").value) !in r
    ensures var session := ReadJson(store, ChatUserKey);
            var readable := if session.Parsed? then Get(session.fields, "userId") else None;
            forall k :: k !in CascadeKeys(readable) ==> SameAt(r, store, k)
  {
    var userId := match ReadJson(store, ChatUserKey)
      case Parsed(f) => Get(f, "userId")
      case _ => None;
    ClearAllUserData(store, userId)
  }

  datatype Init = Init(store: Store, userId: Value, hasValidSession: bool)

  /** `initSession(website)`: the sweep, then `getUserId`, then `isSessionValid`
      on the swept store. */
  function InitSession(store: Store, website: string, now: int, randomText: string): (r: Init)
    ensures r.store == ClearExpiredSessions(store, now)
    ensures RemovalsOnly(r.store, store)
    ensures r.hasValidSession <==> IsSessionValid(store, now)
    ensures r.hasValidSession ==> SameAt(r.store, store, ChatUserKey)
    ensures IsSessionValid(store, now) && Truthy(Get(store[ChatUserKey].fields, "userId"))
            ==> r.userId == store[ChatUserKey].fields["userId"]
    ensures !(IsSessionValid(store, now) && Truthy(Get(store[ChatUserKey].fields, "userId")))
            ==> r.userId == Str(FreshUserId(now, randomText, website))
  {
    var swept := ClearExpiredSessions(store, now);
    SweptSessionState(store, now);
    var userId := GetUserId(swept, website, now, randomText);
    var hasValidSession := IsSessionValid(swept, now);
    Init(swept, userId, hasValidSession)
  }

  // ---------------------------------------------------------------------
  // Lifecycle properties

  /** After the sweep the session key is either untouched and valid, or holds
      no parseable record: an expired or corrupt session never survives it. */
  lemma SweptSessionState(store: Store, now: int)
    ensures var swept := ClearExpiredSessions(store, now);
            && (IsSessionValid(store, now) ==> SameAt(swept, store, ChatUserKey))
            && (!IsSessionValid(store, now) ==> !ReadJson(swept, ChatUserKey).Parsed?)
  {
    KeysDistinct(Null);
  }

  /** Cleanup never changes whether the session is valid. */
  lemma ValidityUnchangedBySweep(store: Store, now: int)
    ensures IsSessionValid(ClearExpiredSessions(store, now), now) <==> IsSessionValid(store, now)
  {
    SweptSessionState(store, now);
  }

  /** A session created at `now` is valid exactly up to and including
      `now + SESSION_DURATION` (a zero expiry is falsy, so never). */
  lemma CreatedSessionWindow(store: Store, formData: Fields, userId: Value, randomText: string,
                             now: int, t: int)
    ensures IsSessionValid(CreateSession(store, formData, userId, randomText, now).store, t)
            <==> now + SessionDuration != 0 && t <= now + SessionDuration
  {
  }

  /** Writing a session and reading it back gives the written record. */
  lemma CreateThenGetSessionData(store: Store, formData: Fields, userId: Value, randomText: string,
                                 now: int)
    ensures var created := CreateSession(store, formData, userId, randomText, now);
            GetSessionData(created.store) == Some(created.session)
  {
  }

  /** The expiry scenario: a session created at `now` with a truthy `userId`
      and checked one millisecond after its window has the session, the admin
      flag and both of that user's buffers purged, and every other key kept. */
  lemma ExpiryCascadePurgesUser(store: Store, formData: Fields, userId: Value, randomText: string,
                                now: int)
    requires Truthy(Some(userId))
    ensures var created := CreateSession(store, formData, userId, randomText, now);
            var swept := ClearExpiredSessions(created.store, now + SessionDuration + 1);
            && ChatUserKey !in swept && AdminModeKey !in swept
            && BotKey(userId) !in swept && AdminChatKey(userId) !in swept
            && forall k :: k in store && k !in CascadeKeys(Some(userId)) ==> k in swept
  {
    var created := CreateSession(store, formData, userId, randomText, now);
    assert ReadJson(created.store, ChatUserKey) == Parsed(created.session);
    assert Expired(created.session, now + SessionDuration + 1);
  }

  /** After `logout`, no session is valid and admin mode is off at any time,
      and checking admin mode changes nothing more. */
  lemma LogoutEndsEverything(store: Store, t: int)
    ensures !IsSessionValid(Logout(store), t)
    ensures !IsAdminModeActive(Logout(store), t).active
    ensures IsAdminModeActive(Logout(store), t).store == Logout(store)
    ensures GetSessionData(Logout(store)).None?
  {
  }

  /** With no parseable session (absent, empty or corrupt), the sweep leaves no
      orphan key. */
  lemma SweepLeavesNoOrphans(store: Store, now: int)
    requires !ReadJson(store, ChatUserKey).Parsed?
    ensures forall k :: k in ClearExpiredSessions(store, now) ==> !IsOrphanKey(k)
  {
  }

  /** Orphan sweep, applied to its own result, removes nothing more. */
  lemma OrphanSweepIdempotent(store: Store)
    ensures ClearOrphanedData(ClearOrphanedData(store)) == ClearOrphanedData(store)
  {
  }

  /** Running the sweep again at the same instant changes nothing, unless the
      first run was an expiry cascade: then the second run is an orphan sweep
      that may remove other users' buffers, and a third run changes nothing. */
  lemma {:induction false} SweepSettles(store: Store, now: int)
    ensures var once := ClearExpiredSessions(store, now);
            var twice := ClearExpiredSessions(once, now);
            var session := ReadJson(store, ChatUserKey);
            && (!(session.Parsed? && Expired(session.fields, now)) ==> twice == once)
            && (session.Parsed? && Expired(session.fields, now) ==> twice == ClearOrphanedData(once))
            && ClearExpiredSessions(twice, now) == twice
  {
    var once := ClearExpiredSessions(store, now);
    var twice := ClearExpiredSessions(once, now);
    var session := ReadJson(store, ChatUserKey);
    KeysDistinct(Null);
    match session {
    case Absent =>
      assert !Present(once, ChatUserKey);
      assert twice == once;
    case Unparsable =>
      assert ChatUserKey !in once;
      assert twice == once;
    case Parsed(f) =>
      var userId := Get(f, "userId");
      if Expired(f, now) {
        assert ChatUserKey !in once;
        assert twice == ClearOrphanedData(once);
        assert ChatUserKey !in twice;
        assert ClearExpiredSessions(twice, now) == ClearOrphanedData(twice);
      } else if Truthy(userId) {
        assert SameAt(once, store, ChatUserKey);
        KeysDistinct(userId.value);
        assert ReadJson(once, ChatUserKey) == Parsed(f);
        assert forall k :: k in twice <==> k in once;
        assert twice == once;
      } else {
        assert once == store;
      }
    }
  }

  /** First visit with empty storage on a typical embedding URL: a generated id
      ending in the site's host, no valid session, and nothing written. */
  lemma FirstVisitScenario(now: int, randomText: string)
    ensures var first := InitSession(map[], "https://www.example.com/widget", now, randomText);
            && first.userId == Str("user_" + Decimal(now) + "_" + randomText + "_" + "example.com")
            && !first.hasValidSession
            && first.store == map[]
  {
    var empty: Store := map[];
    var website := "https://www.example.com/widget";
    assert ClearExpiredSessions(empty, now) == empty;
    Host.CleanHostExample();
  }

  /** Once a session is created with a truthy id, every start-up within its
      window reports a valid session and hands back that same id. */
  lemma ReturningVisitKeepsId(store: Store, formData: Fields, userId: Value, tokenText: string,
                              now: int, t: int, website: string, randomText: string)
    requires Truthy(Some(userId))
    requires now + SessionDuration != 0 && t <= now + SessionDuration
    ensures var created := CreateSession(store, formData, userId, tokenText, now);
            var again := InitSession(created.store, website, t, randomText);
            again.hasValidSession && again.userId == userId
  {
    var created := CreateSession(store, formData, userId, tokenText, now);
    assert created.store[ChatUserKey] == Record(created.session);
    assert IsSessionValid(created.store, t);
  }

  /** A corrupt session record is not a valid session, and start-up removes it. */
  lemma CorruptSessionScenario(store: Store, website: string, now: int, randomText: string)
    requires ChatUserKey in store && store[ChatUserKey] == Corrupt
    ensures !IsSessionValid(store, now)
    ensures var init := InitSession(store, website, now, randomText);
            ChatUserKey !in init.store && !init.hasValidSession
            && init.userId == Str(FreshUserId(now, randomText, website))
  {
  }
}
