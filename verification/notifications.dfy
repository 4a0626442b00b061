/** `useChatNotifications()` (src/composables/useChatNotifications.js): the
    global unread flag and counter shared by every component. */
module Notifications {
  import opened Wrappers

  datatype Unread = Unread(hasUnreadMessages: bool, unreadCount: int)

  /** The module-level refs at load: `(false, 0)`. */
  const Initial: Unread := Unread(false, 0)

  /** The flag says exactly whether something is counted, and the count is
      never negative. */
  predicate Consistent(s: Unread) {
    s.unreadCount >= 0 && s.hasUnreadMessages == (s.unreadCount > 0)
  }

  /** `setUnreadMessage(hasUnread = true)`: None is the omitted argument,
      which defaults to true. True counts one more message; false resets. */
  function SetUnreadMessage(s: Unread, hasUnread: Option<bool>): (r: Unread)
    ensures hasUnread != Some(false) ==>
              r.hasUnreadMessages && r.unreadCount == s.unreadCount + 1
    ensures hasUnread == Some(false) ==> r == Initial
    ensures Consistent(s) ==> Consistent(r)
  {
    var flag := hasUnread.GetOr(true);
    Unread(flag, if flag then s.unreadCount + 1 else 0)
  }

  /** `clearUnreadMessages()`: back to the initial state, whatever came before. */
  function ClearUnreadMessages(s: Unread): (r: Unread)
    ensures r == Initial && Consistent(r)
  {
    Unread(false, 0)
  }

  /** A call a component makes. */
  datatype Call = SetUnread(hasUnread: Option<bool>) | Clear

  function Step(s: Unread, call: Call): Unread {
    match call
    case SetUnread(hasUnread) => SetUnreadMessage(s, hasUnread)
    case Clear => ClearUnreadMessages(s)
  }

  /** The state after a sequence of calls, the last call applied last. */
  function Run(s: Unread, calls: seq<Call>): Unread {
    if calls == [] then s else Step(Run(s, calls[..|calls| - 1]), calls[|calls| - 1])
  }

  /** Clearing twice is clearing once, and a clear after any history is
      the load state. */
  lemma ClearIdempotent(s: Unread, calls: seq<Call>)
    ensures Run(s, calls + [Clear, Clear]) == Run(s, calls + [Clear]) == Initial
  {
    assert (calls + [Clear, Clear])[..|calls| + 1] == calls + [Clear];
    assert (calls + [Clear])[..|calls|] == calls;
  }

  /** Whether a call resets the counter. */
  predicate Resets(call: Call) {
    call == Clear || call == SetUnread(Some(false))
  }

  /** The number of calls after the last reset: the count the widget should show. */
  function SinceReset(calls: seq<Call>): (n: nat)
    ensures n <= |calls|
  {
    if calls == [] then 0
    else if Resets(calls[|calls| - 1]) then 0
    else SinceReset(calls[..|calls| - 1]) + 1
  }

  /** From load, any sequence of calls leaves the counter at the number of
      `setUnreadMessage(true)` calls since the last reset, and the flag set
      exactly when that number is positive. */
  lemma {:induction false} RunCountsSinceReset(calls: seq<Call>)
    ensures Run(Initial, calls) == Unread(SinceReset(calls) > 0, SinceReset(calls))
  {
    if calls != [] {
      RunCountsSinceReset(calls[..|calls| - 1]);
    }
  }

  /** Any sequence of calls from a consistent state keeps the flag in step
      with the counter and the counter non-negative. */
  lemma {:induction false} RunKeepsConsistent(s: Unread, calls: seq<Call>)
    requires Consistent(s)
    ensures Consistent(Run(s, calls))
  {
    if calls != [] {
      RunKeepsConsistent(s, calls[..|calls| - 1]);
    }
  }
}
