/** `getUserId(website)` (src/components/utils/userId.js): a visitor id made of
    a random UUID and the site's host, reused for 24 hours through the keys
    `chat_user_id` and `chat_user_id_time`. The UUID and `Date.now()` are
    parameters. */
module VisitorId {
  import opened Wrappers
  import opened Strings
  import opened Storage
  import Host

  const IdKey: string := "chat_user_id"
  const TimeKey: string := "chat_user_id_time"

  /** The reuse window: `hoursPassed < 24`, in milliseconds. */
  const ReuseWindow: int := 24 * 60 * 60 * 1000

  /** `Number(getItem(key))` on a stored item: plain text is read as a number
      when it is one; JSON text and corrupt text read as NaN (None). */
  function StoredNumber(v: Stored): Option<int> {
    match v
    case Text(raw) => NumberOfText(raw)
    case _ => None
  }

  /** `storedId && storedTime` hold and `(now - Number(storedTime)) / 3600000 < 24`,
      which for an integer time is `now - time < 24 h`; a NaN time fails it. */
  predicate Reusable(store: Store, now: int) {
    && Present(store, IdKey)
    && Present(store, TimeKey)
    && StoredNumber(store[TimeKey]).Some?
    && now - StoredNumber(store[TimeKey]).value < ReuseWindow
  }

  /** The id generated for a UUID and a website: `${uuid}_${cleanWebsite}`. */
  function NewId(uuid: string, website: string): string {
    uuid + "_" + Host.CleanHost(website)
  }

  datatype Issued = Issued(id: Stored, store: Store)

  /** `getUserId(website)`: the stored id while it is younger than 24 hours;
      otherwise a new id, with both keys overwritten. The result is the item
      returned by `getItem`, or the new id as plain text. */
  function GetVisitorId(store: Store, website: string, now: int, uuid: string): (r: Issued)
    ensures Reusable(store, now) ==> r.id == store[IdKey] && r.store == store
    ensures !Reusable(store, now) ==>
              && r.id == Text(NewId(uuid, website))
              && r.store.Keys == store.Keys + {IdKey, TimeKey}
              && r.store[IdKey] == r.id
              && r.store[TimeKey] == Text(Decimal(now))
    ensures forall k :: k != IdKey && k != TimeKey ==> SameAt(r.store, store, k)
  {
    if Reusable(store, now) then Issued(store[IdKey], store)
    else
      var newId := NewId(uuid, website);
      Issued(Text(newId), store[IdKey := Text(newId)][TimeKey := Text(Decimal(now))])
  }

  /** A generated id ends with `_` followed by the normalised host, which
      contains no `/`. */
  lemma NewIdEndsWithHost(uuid: string, website: string)
    ensures var id := NewId(uuid, website);
            var tail := "_" + Host.CleanHost(website);
            |tail| <= |id| && id[|id| - |tail|..] == tail && '/' !in tail[1..]
  {
    var tail := "_" + Host.CleanHost(website);
    assert NewId(uuid, website) == uuid + tail;
    assert tail[1..] == Host.CleanHost(website);
  }

  /** A call made less than 24 hours after a call that generated an id (or
      with the clock set back) returns that id and writes nothing, whatever
      website and UUID it is given. */
  lemma ReuseWithinWindow(store: Store, website: string, now: int, uuid: string,
                          website': string, later: int, uuid': string)
    requires !Reusable(store, now)
    requires later - now < ReuseWindow
    ensures var first := GetVisitorId(store, website, now, uuid);
            var second := GetVisitorId(first.store, website', later, uuid');
            second.id == first.id && second.store == first.store
  {
    var first := GetVisitorId(store, website, now, uuid);
    DecimalRoundTrip(now);
    assert first.store[TimeKey] == Text(Decimal(now));
    assert |NewId(uuid, website)| > 0 by {
      assert NewId(uuid, website) == uuid + ("_" + Host.CleanHost(website));
    }
    assert Reusable(first.store, later);
  }

  /** From 24 hours after a generating call on, the next call generates again:
      the window is strict. */
  lemma RegenerateAfterWindow(store: Store, website: string, now: int, uuid: string,
                              website': string, later: int, uuid': string)
    requires !Reusable(store, now)
    requires later - now >= ReuseWindow
    ensures var first := GetVisitorId(store, website, now, uuid);
            var second := GetVisitorId(first.store, website', later, uuid');
            second.id == Text(NewId(uuid', website'))
            && second.store[TimeKey] == Text(Decimal(later))
  {
    DecimalRoundTrip(now);
  }
}
