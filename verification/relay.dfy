/** `useAbly()` (src/composables/userAbly.js): the visitor side of the
    realtime relay. The module-level `ablyService` and `isConnected` become a
    `State`; the auth endpoint's answer and the transport's connection events
    are inputs; a callback invocation is a `Delivery`. Each connection carries
    an epoch so that an unsubscribe handle from a closed connection cannot
    touch a later one. */
module Relay {
  import opened Wrappers
  import opened Js

  const ChatChannel: string := "chat-messages"
  const NewMessageEvent: string := "new.message"

  datatype ConnectionEvent = Connecting | Connected | Disconnected | Failed

  /** `json.data`: the token and the client id; a missing client id is
      written as the empty string, which is just as falsy. */
  datatype Credentials = Credentials(token: string, clientId: string)

  /** The auth response body: unreadable JSON, or `{success, data}`. */
  datatype AuthBody = Unreadable | Json(success: Option<Value>, data: Option<Credentials>)

  /** What `fetch(ABLY_AUTH_URL, …)` produced. */
  datatype AuthReply = NetworkFailure | Response(status: int, body: AuthBody)

  /** An inbound message: its event name and its payload (None when falsy). */
  datatype Message = Message(name: string, data: Option<Fields>)

  /** What a registered handler does: the admin-reply filter for one session,
      or forwarding every message. */
  datatype ListenerKind = AdminReplies(sessionId: Option<Value>) | Everything

  datatype Listener = Listener(id: nat, channel: string, kind: ListenerKind)

  /** A live `Ably.Realtime` client and the handlers registered on its channels. */
  datatype Connection = Connection(epoch: nat, token: string, clientId: Option<string>,
                                   listeners: seq<Listener>)

  /** `ablyService` and `isConnected`, with counters for fresh epochs and
      handler ids. */
  datatype State = State(service: Option<Connection>, isConnected: bool, epochs: nat, nextId: nat)

  /** Module load: no service, not connected. */
  const Start: State := State(None, false, 0, 0)

  /** The function `onAdminReply` or `subscribe` returns. */
  datatype Unsubscribe =
    | NoOp
    | DetachListener(epoch: nat, id: nat)       // channel.unsubscribe(handler)
    | DetachChannel(epoch: nat, channel: string) // channel.unsubscribe()

  /** A callback invocation: the handler that fired and the argument it passed. */
  datatype Delivery = Delivery(listener: nat, argument: Argument)
  datatype Argument = Payload(data: Fields) | WholeMessage(msg: Message)

  /** The flag is set only while a service exists; every connection is older
      than the epoch counter and every handler id is below the id counter and
      unique. */
  predicate Valid(s: State) {
    && (s.isConnected ==> s.service.Some?)
    && (s.service.Some? ==>
          && s.service.value.epoch < s.epochs
          && (forall i :: 0 <= i < |s.service.value.listeners| ==>
                s.service.value.listeners[i].id < s.nextId)
          && UniqueIds(s.service.value.listeners))
  }

  /** At module load the relay is valid, uninitialised and disconnected, and
      the first `initializeAbly` succeeds exactly when auth grants. */
  lemma StartIsValid(auth: AuthReply)
    ensures Valid(Start) && Start.service.None? && !Start.isConnected
    ensures InitializeAbly(Start, auth).ok <==> Granted(auth).Some?
  {
  }

  // ---------------------------------------------------------------------
  // Initialisation and connection state

  /** The credentials a reply grants: a 2xx status, a readable body, a truthy
      `success` and a `data` object; anything else makes `initializeAbly`
      throw internally and return false. */
  function Granted(auth: AuthReply): (r: Option<Credentials>)
    ensures r.Some? <==> && auth.Response? && 200 <= auth.status <= 299
                         && auth.body.Json? && Truthy(auth.body.success)
                         && auth.body.data.Some?
    ensures r.Some? ==> r == auth.body.data
  {
    match auth
    case NetworkFailure => None
    case Response(status, body) =>
      if !(200 <= status <= 299) then None
      else match body
        case Unreadable => None
        case Json(success, data) => if !Truthy(success) then None else data
  }

  datatype Outcome = Outcome(ok: bool, state: State)

  /** `initializeAbly()`: true at once when a service exists; otherwise true
      exactly when auth grants credentials, in which case the new client
      (with `clientId || undefined`) becomes the service. The connection flag
      is left to the connection events. */
  function InitializeAbly(s: State, auth: AuthReply): (r: Outcome)
    ensures s.service.Some? ==> r == Outcome(true, s)
    ensures s.service.None? ==> (r.ok <==> Granted(auth).Some?)
    ensures !r.ok ==> r.state == s && r.state.service.None?
    ensures s.service.None? && auth.Response? && !(200 <= auth.status <= 299) ==> !r.ok
    ensures s.service.None? && auth.Response? && auth.body.Json? && !Truthy(auth.body.success)
            ==> !r.ok
    ensures s.service.None? && r.ok ==>
              && r.state.service.Some?
              && r.state.service.value.token == Granted(auth).value.token
              && r.state.service.value.listeners == []
              && r.state.isConnected == s.isConnected
              && r.state.service.value.epoch == s.epochs
              && (r.state.service.value.clientId.Some? <==> Granted(auth).value.clientId != "")
              && (r.state.service.value.clientId.Some? ==>
                    r.state.service.value.clientId.value == Granted(auth).value.clientId)
    ensures Valid(s) ==> Valid(r.state)
  {
    if s.service.Some? then Outcome(true, s)
    else match Granted(auth)
      case None => Outcome(false, s)
      case Some(c) =>
        var clientId := if c.clientId == "" then None else Some(c.clientId);
        Outcome(true, s.(service := Some(Connection(s.epochs, c.token, clientId, [])),
                         epochs := s.epochs + 1))
  }

  /** The connection-state handlers: `connected` sets the flag, `disconnected`
      and `failed` clear it, `connecting` only logs. Events come from a live
      client, so without one nothing happens. */
  function OnConnectionEvent(s: State, e: ConnectionEvent): (r: State)
    ensures r.service == s.service && r.epochs == s.epochs && r.nextId == s.nextId
    ensures s.service.Some? && e == Connected ==> r.isConnected
    ensures s.service.Some? && (e == Disconnected || e == Failed) ==> !r.isConnected
    ensures e == Connecting || s.service.None? ==> r == s
    ensures Valid(s) ==> Valid(r)
  {
    if s.service.None? then s
    else match e
      case Connected => s.(isConnected := true)
      case Connecting => s
      case Disconnected => s.(isConnected := false)
      case Failed => s.(isConnected := false)
  }

  /** `disconnect()`: closes and forgets a live service and clears the flag;
      without one it does nothing. */
  function Disconnect(s: State): (r: State)
    ensures r.service.None?
    ensures s.service.Some? ==> !r.isConnected && r.epochs == s.epochs && r.nextId == s.nextId
    ensures s.service.None? ==> r == s
    ensures Valid(s) ==> Valid(r)
  {
    if s.service.Some? then State(None, false, s.epochs, s.nextId) else s
  }

  /** Once initialised, `initializeAbly` ignores the auth endpoint entirely:
      the outcome is the same whatever it would have answered. */
  lemma InitializedSkipsAuth(s: State, auth: AuthReply, auth': AuthReply)
    requires s.service.Some?
    ensures InitializeAbly(s, auth) == InitializeAbly(s, auth')
    ensures InitializeAbly(s, auth).ok
  {
  }

  /** After `disconnect`, `initializeAbly` consults the auth endpoint again:
      a refusal now leaves the relay uninitialised, a grant builds a client
      with a fresh epoch. */
  lemma DisconnectForcesReauth(s: State, auth: AuthReply)
    requires Valid(s) && s.service.Some?
    ensures var r := InitializeAbly(Disconnect(s), auth);
            && (r.ok <==> Granted(auth).Some?)
            && (r.ok ==> r.state.service.value.epoch != s.service.value.epoch)
  {
  }

  // ---------------------------------------------------------------------
  // Subscriptions and delivery

  /** The handler `onAdminReply` installs: the callback receives `msg.data`
      unchanged, and only for a `new.message` event whose payload names this
      session (`===`) and was sent by an admin. */
  function AdminReplyHandler(sessionId: Option<Value>, msg: Message): (r: Option<Fields>)
    ensures r.Some? <==>
              && msg.name == NewMessageEvent
              && msg.data.Some?
              && Get(msg.data.value, "session_id") == sessionId
              && Get(msg.data.value, "sender_type") == Some(Str("admin"))
    ensures r.Some? ==> r == msg.data
  {
    if msg.name == NewMessageEvent && msg.data.Some? then
      var data := msg.data.value;
      if Get(data, "session_id") == sessionId && Get(data, "sender_type") == Some(Str("admin"))
      then Some(data)
      else None
    else None
  }

  /** What one handler does with one message on one channel. */
  function HandleOne(l: Listener, channel: string, msg: Message): seq<Delivery> {
    if l.channel != channel then []
    else match l.kind
      case AdminReplies(sessionId) =>
        (match AdminReplyHandler(sessionId, msg)
         case Some(data) => [Delivery(l.id, Payload(data))]
         case None => [])
      case Everything => [Delivery(l.id, WholeMessage(msg))]
  }

  /** The handlers fire in registration order. */
  function Dispatch(listeners: seq<Listener>, channel: string, msg: Message): seq<Delivery> {
    if listeners == [] then []
    else Dispatch(listeners[..|listeners| - 1], channel, msg)
         + HandleOne(listeners[|listeners| - 1], channel, msg)
  }

  /** The callback invocations a message published on `channel` causes. */
  function Deliver(s: State, channel: string, msg: Message): (r: seq<Delivery>)
    ensures s.service.None? ==> r == []
  {
    if s.service.None? then [] else Dispatch(s.service.value.listeners, channel, msg)
  }

  datatype Subscribed = Subscribed(state: State, unsubscribe: Unsubscribe)

  /** Registers a handler on a live service, returning the handle to remove it. */
  function Register(s: State, channel: string, kind: ListenerKind, handle: Unsubscribe)
    : (r: Subscribed)
    requires s.service.Some?
  {
    var c := s.service.value;
    Subscribed(s.(service := Some(c.(listeners := c.listeners + [Listener(s.nextId, channel, kind)])),
                  nextId := s.nextId + 1),
               handle)
  }

  /** `onAdminReply(sessionId, callback)`: without a service it registers
      nothing and returns a no-op; otherwise it adds the admin-reply handler
      on `chat-messages` and returns a handle that removes just that handler. */
  function OnAdminReply(s: State, sessionId: Option<Value>): (r: Subscribed)
    ensures s.service.None? ==> r == Subscribed(s, NoOp)
    ensures s.service.Some? ==>
              && r.state.service.Some?
              && r.state.service.value.listeners
                 == s.service.value.listeners + [Listener(s.nextId, ChatChannel, AdminReplies(sessionId))]
              && r.unsubscribe == DetachListener(s.service.value.epoch, s.nextId)
              && r.state.isConnected == s.isConnected
              && r.state.service.value.epoch == s.service.value.epoch
              && r.state.service.value == s.service.value.(listeners := r.state.service.value.listeners)
              && r.state.epochs == s.epochs
    ensures Valid(s) ==> Valid(r.state)
  {
    if s.service.None? then Subscribed(s, NoOp)
    else Register(s, ChatChannel, AdminReplies(sessionId),
                  DetachListener(s.service.value.epoch, s.nextId))
  }

  /** `subscribe(channelName, callback)`: without a service it registers
      nothing and returns a no-op; otherwise it adds a handler forwarding
      every message on the channel, and its handle detaches every handler on
      that channel. */
  function Subscribe(s: State, channel: string): (r: Subscribed)
    ensures s.service.None? ==> r == Subscribed(s, NoOp)
    ensures s.service.Some? ==>
              && r.state.service.Some?
              && r.state.service.value.listeners
                 == s.service.value.listeners + [Listener(s.nextId, channel, Everything)]
              && r.unsubscribe == DetachChannel(s.service.value.epoch, channel)
              && r.state.isConnected == s.isConnected
              && r.state.service.value.epoch == s.service.value.epoch
              && r.state.service.value == s.service.value.(listeners := r.state.service.value.listeners)
              && r.state.epochs == s.epochs
    ensures Valid(s) ==> Valid(r.state)
  {
    if s.service.None? then Subscribed(s, NoOp)
    else Register(s, channel, Everything, DetachChannel(s.service.value.epoch, channel))
  }

  /** `a` is `b` with some elements dropped and the rest in their order. */
  predicate Subsequence<T(==)>(a: seq<T>, b: seq<T>)
    decreases |b|
  {
    || a == []
    || (&& b != []
        && (|| (a[|a| - 1] == b[|b| - 1] && Subsequence(a[..|a| - 1], b[..|b| - 1]))
            || Subsequence(a, b[..|b| - 1])))
  }

  /** Dropping nothing is a subsequence. */
  lemma {:induction false} SubsequenceOfItself<T>(a: seq<T>)
    ensures Subsequence(a, a)
  {
    if a != [] {
      SubsequenceOfItself(a[..|a| - 1]);
    }
  }

  /** Every element of a subsequence occurs in the whole. */
  lemma {:induction false} SubsequenceMember<T>(a: seq<T>, b: seq<T>, i: nat)
    requires Subsequence(a, b) && i < |a|
    ensures exists p :: 0 <= p < |b| && b[p] == a[i]
  {
    var b' := b[..|b| - 1];
    if a[|a| - 1] == b[|b| - 1] && Subsequence(a[..|a| - 1], b') {
      if i == |a| - 1 {
        assert b[|b| - 1] == a[i];
      } else {
        SubsequenceMember(a[..|a| - 1], b', i);
        var p :| 0 <= p < |b'| && b'[p] == a[..|a| - 1][i];
        assert b[p] == a[i];
      }
    } else {
      SubsequenceMember(a, b', i);
      var p :| 0 <= p < |b'| && b'[p] == a[i];
      assert b[p] == a[i];
    }
  }

  /** A subsequence keeps the relative order of what it keeps: two of its
      elements occur in the whole in the same order. */
  lemma {:induction false} SubsequenceKeepsOrder<T>(a: seq<T>, b: seq<T>, i: nat, j: nat)
    requires Subsequence(a, b) && i < j < |a|
    ensures exists p, q :: 0 <= p < q < |b| && b[p] == a[i] && b[q] == a[j]
  {
    var a', b' := a[..|a| - 1], b[..|b| - 1];
    if a[|a| - 1] == b[|b| - 1] && Subsequence(a', b') {
      if j == |a| - 1 {
        SubsequenceMember(a', b', i);
        var p :| 0 <= p < |b'| && b'[p] == a'[i];
        assert b[p] == a[i] && b[|b| - 1] == a[j];
      } else {
        SubsequenceKeepsOrder(a', b', i, j);
        var p, q :| 0 <= p < q < |b'| && b'[p] == a'[i] && b'[q] == a'[j];
        assert b[p] == a[i] && b[q] == a[j];
      }
    } else {
      SubsequenceKeepsOrder(a, b', i, j);
      var p, q :| 0 <= p < q < |b'| && b'[p] == a[i] && b'[q] == a[j];
      assert b[p] == a[i] && b[q] == a[j];
    }
  }

  /** The handlers that remain after removing those the handle `h` selects,
      in registration order. */
  function Without(listeners: seq<Listener>, h: Unsubscribe): (r: seq<Listener>)
    requires !h.NoOp?
    ensures |r| <= |listeners|
    ensures forall i :: 0 <= i < |r| ==> !Selects(h, r[i])
    ensures forall i :: 0 <= i < |r| ==> r[i] in listeners
    ensures forall l :: l in listeners && !Selects(h, l) ==> l in r
    ensures Subsequence(r, listeners)
  {
    if listeners == [] then []
    else
      var rest := Without(listeners[..|listeners| - 1], h);
      var last := listeners[|listeners| - 1];
      assert forall l :: l in listeners ==> l in listeners[..|listeners| - 1] || l == last;
      if Selects(h, last) then rest
      else
        assert (rest + [last])[..|rest|] == rest;
        rest + [last]
  }

  /** Whether a handle removes a given handler. */
  predicate Selects(h: Unsubscribe, l: Listener) {
    match h
    case NoOp => false
    case DetachListener(_, id) => l.id == id
    case DetachChannel(_, channel) => l.channel == channel
  }

  /** Calling an unsubscribe handle: it acts only on the connection it was
      issued by; the no-op handle and handles of a closed connection do
      nothing. */
  function CallUnsubscribe(s: State, h: Unsubscribe): (r: State)
    ensures r.isConnected == s.isConnected && r.epochs == s.epochs && r.nextId == s.nextId
    ensures h.NoOp? || s.service.None? || s.service.value.epoch != h.epoch ==> r == s
    ensures r.service.Some? <==> s.service.Some?
    ensures r.service.Some? && !h.NoOp? && s.service.value.epoch == h.epoch ==>
              forall i :: 0 <= i < |r.service.value.listeners| ==>
                !Selects(h, r.service.value.listeners[i])
    ensures r.service.Some? ==>
              && r.service.value.epoch == s.service.value.epoch
              && (forall l :: l in s.service.value.listeners && !Selects(h, l)
                    ==> l in r.service.value.listeners)
              && (forall l :: l in r.service.value.listeners ==> l in s.service.value.listeners)
              && Subsequence(r.service.value.listeners, s.service.value.listeners)
              && r.service.value == s.service.value.(listeners := r.service.value.listeners)
    ensures Valid(s) ==> Valid(r)
  {
    if h.NoOp? || s.service.None? || s.service.value.epoch != h.epoch then
      if s.service.Some? then SubsequenceOfItself(s.service.value.listeners); s else s
    else
      var c := s.service.value;
      var kept := Without(c.listeners, h);
      assert forall i :: 0 <= i < |kept| ==> kept[i] in c.listeners;
      WithoutKeepsUniqueIds(c.listeners, h);
      s.(service := Some(c.(listeners := kept)))
  }

  /** No two handlers share an id. */
  predicate UniqueIds(listeners: seq<Listener>) {
    forall i, j :: 0 <= i < j < |listeners| ==> listeners[i].id != listeners[j].id
  }

  /** Removing handlers keeps ids unique. */
  lemma {:induction false} WithoutKeepsUniqueIds(listeners: seq<Listener>, h: Unsubscribe)
    requires !h.NoOp?
    ensures UniqueIds(listeners) ==> UniqueIds(Without(listeners, h))
  {
    if listeners != [] && UniqueIds(listeners) {
      var init := listeners[..|listeners| - 1];
      var last := listeners[|listeners| - 1];
      assert UniqueIds(init) by {
        forall i, j | 0 <= i < j < |init| ensures init[i].id != init[j].id {
          assert init[i] == listeners[i] && init[j] == listeners[j];
        }
      }
      WithoutKeepsUniqueIds(init, h);
      var rest := Without(init, h);
      assert forall i :: 0 <= i < |rest| ==> rest[i].id != last.id by {
        forall i | 0 <= i < |rest| ensures rest[i].id != last.id {
          assert rest[i] in init;
          var k :| 0 <= k < |init| && init[k] == rest[i];
          assert listeners[k] == rest[i];
        }
      }
      if !Selects(h, last) {
        var r := rest + [last];
        assert Without(listeners, h) == r;
        forall i, j | 0 <= i < j < |r| ensures r[i].id != r[j].id {
          if j < |rest| {
            assert r[i] == rest[i] && r[j] == rest[j];
          } else {
            assert r[i] == rest[i] && r[j] == last;
          }
        }
      }
    }
  }

  /** Removing by a handle no handler matches changes nothing. */
  lemma {:induction false} WithoutNothingSelected(listeners: seq<Listener>, h: Unsubscribe)
    requires !h.NoOp?
    requires forall i :: 0 <= i < |listeners| ==> !Selects(h, listeners[i])
    ensures Without(listeners, h) == listeners
  {
    if listeners != [] {
      WithoutNothingSelected(listeners[..|listeners| - 1], h);
      assert listeners[..|listeners| - 1] + [listeners[|listeners| - 1]] == listeners;
    }
  }

  /** Calling an unsubscribe handle twice is the same as calling it once. */
  lemma UnsubscribeIdempotent(s: State, h: Unsubscribe)
    ensures CallUnsubscribe(CallUnsubscribe(s, h), h) == CallUnsubscribe(s, h)
  {
    var once := CallUnsubscribe(s, h);
    if !h.NoOp? && once.service.Some? && once.service.value.epoch == h.epoch {
      WithoutNothingSelected(once.service.value.listeners, h);
    }
  }

  /** The handle `onAdminReply` returns undoes exactly that registration. */
  lemma AdminReplyUnsubscribeRestores(s: State, sessionId: Option<Value>)
    requires Valid(s) && s.service.Some?
    ensures var sub := OnAdminReply(s, sessionId);
            CallUnsubscribe(sub.state, sub.unsubscribe).service == s.service
  {
    var sub := OnAdminReply(s, sessionId);
    var ls := s.service.value.listeners;
    var h := sub.unsubscribe;
    WithoutNothingSelected(ls, h);
    var all := ls + [Listener(s.nextId, ChatChannel, AdminReplies(sessionId))];
    assert all[..|all| - 1] == ls;
  }

  /** The handle `subscribe` returns detaches every handler on its channel,
      including admin-reply handlers when the channel is `chat-messages`;
      handlers on other channels stay. */
  lemma ChannelUnsubscribeDetachesAll(s: State, channel: string, msg: Message)
    requires s.service.Some?
    ensures var sub := Subscribe(s, channel);
            var after := CallUnsubscribe(sub.state, sub.unsubscribe);
            && Deliver(after, channel, msg) == []
            && forall l :: l in s.service.value.listeners && l.channel != channel
                           ==> l in after.service.value.listeners
  {
    var sub := Subscribe(s, channel);
    var after := CallUnsubscribe(sub.state, sub.unsubscribe);
    NoDeliveryOffChannel(after.service.value.listeners, channel, msg);
    assert forall l :: l in s.service.value.listeners ==> l in sub.state.service.value.listeners;
  }

  /** Handlers none of which listen on the channel deliver nothing. */
  lemma {:induction false} NoDeliveryOffChannel(listeners: seq<Listener>, channel: string, msg: Message)
    requires forall i :: 0 <= i < |listeners| ==> listeners[i].channel != channel
    ensures Dispatch(listeners, channel, msg) == []
  {
    if listeners != [] {
      NoDeliveryOffChannel(listeners[..|listeners| - 1], channel, msg);
    }
  }

  /** A handle from a connection that has since been closed and replaced does
      nothing to the new connection. */
  lemma StaleHandleAfterReconnect(s: State, sessionId: Option<Value>, auth: AuthReply)
    requires Valid(s) && s.service.Some?
    ensures var sub := OnAdminReply(s, sessionId);
            var renewed := InitializeAbly(Disconnect(sub.state), auth).state;
            CallUnsubscribe(renewed, sub.unsubscribe) == renewed
  {
  }

  /** Appending a handler appends its deliveries. */
  lemma DispatchAppend(listeners: seq<Listener>, l: Listener, channel: string, msg: Message)
    ensures Dispatch(listeners + [l], channel, msg)
            == Dispatch(listeners, channel, msg) + HandleOne(l, channel, msg)
  {
    assert (listeners + [l])[..|listeners + [l]| - 1] == listeners;
  }

  /** Registering for admin replies adds one callback for exactly the admin
      messages of that session on `chat-messages`, with the payload unchanged;
      everything already registered fires as before. */
  lemma AdminReplyDelivery(s: State, sessionId: Option<Value>, channel: string, msg: Message)
    requires s.service.Some?
    ensures var sub := OnAdminReply(s, sessionId);
            var extra := Deliver(sub.state, channel, msg)[|Deliver(s, channel, msg)|..];
            && Deliver(s, channel, msg) <= Deliver(sub.state, channel, msg)
            && (extra != [] <==> channel == ChatChannel && AdminReplyHandler(sessionId, msg).Some?)
            && (extra != [] ==> extra == [Delivery(s.nextId, Payload(msg.data.value))])
  {
    var sub := OnAdminReply(s, sessionId);
    DispatchAppend(s.service.value.listeners, Listener(s.nextId, ChatChannel, AdminReplies(sessionId)),
                   channel, msg);
  }

  /** Registering with `subscribe` adds one callback for every message on that
      channel, whatever its name or payload. */
  lemma SubscribeForwardsEverything(s: State, channel: string, msg: Message)
    requires s.service.Some?
    ensures var sub := Subscribe(s, channel);
            Deliver(sub.state, channel, msg)
            == Deliver(s, channel, msg) + [Delivery(s.nextId, WholeMessage(msg))]
  {
    DispatchAppend(s.service.value.listeners, Listener(s.nextId, channel, Everything), channel, msg);
  }

  /** The routing rule separates sessions and roles: an admin reply for
      session `a` reaches a subscriber for `a` and not one for any other
      session, and a message not sent by an admin reaches no one. */
  lemma FilterSeparatesSessions(a: Value, b: Value, data: Fields)
    requires a != b
    requires Get(data, "session_id") == Some(a)
    ensures Get(data, "sender_type") == Some(Str("admin")) ==>
              AdminReplyHandler(Some(a), Message(NewMessageEvent, Some(data))) == Some(data)
    ensures AdminReplyHandler(Some(b), Message(NewMessageEvent, Some(data))).None?
    ensures Get(data, "sender_type") != Some(Str("admin")) ==>
              forall sessionId :: AdminReplyHandler(sessionId, Message(NewMessageEvent, Some(data))).None?
  {
  }
}
