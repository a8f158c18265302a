/** The engagement rules shared by the video player and the channel page.

    A like on a video or on a comment is a tri-state per (object, user) pair:
    no row (None), a like (Some(true)) or a dislike (Some(false)). A click that
    repeats the current disposition removes the row; any other click writes the
    requested disposition into the one row of the pair.

    A subscription is a presence toggle whose client-side counter moves by one. */
module Engagement {
  import opened Wrappers
  import opened Types

  // ----- tri-state likes -----

  /** The disposition a click requesting `requested` leaves, given the current one. */
  function Reconcile(current: Option<bool>, requested: bool): (next: Option<bool>)
  {
    if current == Some(requested) then None else Some(requested)
  }

  /** A click clears the row exactly when it repeats the current disposition, and
      otherwise leaves the requested one. */
  lemma ReconcileMeaning(current: Option<bool>, requested: bool)
    ensures Reconcile(current, requested) == None <==> current == Some(requested)
    ensures Reconcile(current, requested) != None ==> Reconcile(current, requested) == Some(requested)
    ensures Reconcile(current, requested) != Some(!requested)
  {
  }

  /** The disposition after `n` identical clicks. */
  function Clicks(current: Option<bool>, requested: bool, n: nat): Option<bool> {
    if n == 0 then current else Reconcile(Clicks(current, requested, n - 1), requested)
  }

  /** Repeating a click undoes it, except when it replaced the opposite disposition. */
  lemma RepeatUndoes(current: Option<bool>, requested: bool)
    ensures Clicks(current, requested, 2) == current <==> current != Some(!requested)
  {
    assert Clicks(current, requested, 1) == Reconcile(current, requested);
    assert Clicks(current, requested, 2) == Reconcile(Clicks(current, requested, 1), requested);
    match current
    case None =>
    case Some(b) =>
  }

  /** Toggle parity: after `n >= 1` identical clicks the pair holds either the requested
      disposition or no row; it holds the requested one exactly when the parity of n
      differs from whether the pair started at the requested disposition. */
  lemma {:induction false} ClickParity(current: Option<bool>, requested: bool, n: nat)
    requires n >= 1
    ensures Clicks(current, requested, n)
            == (if (n % 2 == 1) != (current == Some(requested)) then Some(requested) else None)
  {
    if n == 1 {
      assert Clicks(current, requested, 1) == Reconcile(current, requested);
    } else {
      ClickParity(current, requested, n - 1);
    }
  }

  /** Starting from no row, an odd number of identical clicks leaves the requested
      disposition and an even number leaves no row. */
  lemma ClickParityFromNeutral(requested: bool, n: nat)
    ensures Clicks(None, requested, n) == (if n % 2 == 1 then Some(requested) else None)
  {
    if n >= 1 {
      ClickParity(None, requested, n);
    }
  }

  /** A like followed by a dislike leaves a dislike, and the other way round. */
  lemma SwitchKeepsOneDisposition(current: Option<bool>, requested: bool)
    ensures Reconcile(Reconcile(current, !requested), requested) == Some(requested)
  {
  }

  /** The stored disposition of a key in a likes table. */
  function Stored<K>(m: map<K, bool>, key: K): Option<bool> {
    if key in m then Some(m[key]) else None
  }

  /** The table after writing a disposition: a delete for None, an upsert otherwise. */
  function Apply<K>(m: map<K, bool>, key: K, next: Option<bool>): map<K, bool> {
    if next.None? then m - {key} else m[key := next.value]
  }

  /** Writing a disposition changes that key's row to it and no other row. */
  lemma ApplyStored<K>(m: map<K, bool>, key: K, next: Option<bool>, other: K)
    ensures Stored(Apply(m, key, next), key) == next
    ensures other != key ==> Stored(Apply(m, key, next), other) == Stored(m, other)
  {
  }

  /** A click that reads the stored disposition first, then writes `Reconcile` of it. */
  function ClickOnTable<K>(m: map<K, bool>, key: K, requested: bool): map<K, bool> {
    Apply(m, key, Reconcile(Stored(m, key), requested))
  }

  /** Two identical reading clicks give the table back exactly when the first did not
      replace the opposite disposition. */
  lemma ClickOnTableTwice<K>(m: map<K, bool>, key: K, requested: bool)
    ensures ClickOnTable(ClickOnTable(m, key, requested), key, requested) == m
            <==> Stored(m, key) != Some(!requested)
  {
    var m2 := ClickOnTable(ClickOnTable(m, key, requested), key, requested);
    if Stored(m, key) == Some(!requested) {
      assert key !in m2;
    } else if key in m {
      assert m[key] == requested;
      assert m2.Keys == m.Keys;
      assert forall k :: k in m ==> m2[k] == m[k];
    } else {
      assert m2.Keys == m.Keys;
      assert forall k :: k in m ==> m2[k] == m[k];
    }
  }

  /** The value `data?.is_like || null` reads back for a stored disposition: a stored
      `false` is falsy, so `|| null` turns it into null. */
  function ReadBack(stored: Option<bool>): Option<bool> {
    if stored == Some(true) then Some(true) else None
  }

  /** Only a stored dislike is read back wrongly, and it is read back as neutral. */
  lemma ReadBackLosesDislike(stored: Option<bool>)
    ensures ReadBack(stored) == stored <==> stored != Some(false)
    ensures ReadBack(Some(false)) == None
    ensures ReadBack(stored) != Some(false)
  {
    match stored
    case None =>
    case Some(b) =>
  }

  /** After a reload, a stored dislike takes two dislike clicks to remove: the first one
      sees a neutral client state and rewrites the dislike. */
  lemma StaleDislikeNeedsTwoClicks<K>(m: map<K, bool>, key: K)
    requires Stored(m, key) == Some(false)
    ensures Apply(m, key, Reconcile(ReadBack(Stored(m, key)), false)) == m
    ensures Reconcile(ReadBack(Stored(m, key)), false) == Some(false)
    ensures Reconcile(Reconcile(ReadBack(Stored(m, key)), false), false) == None
  {
    assert m[key := false] == m;
  }

  // ----- subscriptions -----

  /** The number of subscribers of `channel` in a table of (subscriber, channel) rows. */
  function SubscriberCount(subs: set<(UserId, UserId)>, channel: UserId): nat {
    |set p | p in subs && p.1 == channel|
  }

  /** Adding a subscriber who was not there raises the channel's count by one. */
  lemma SubscribeAddsOne(subs: set<(UserId, UserId)>, user: UserId, channel: UserId)
    requires (user, channel) !in subs
    ensures SubscriberCount(subs + {(user, channel)}, channel) == SubscriberCount(subs, channel) + 1
  {
    var before := set p | p in subs && p.1 == channel;
    var after := set p | p in subs + {(user, channel)} && p.1 == channel;
    assert after == before + {(user, channel)};
  }

  /** Removing a subscriber who was there lowers the channel's count by one. */
  lemma UnsubscribeRemovesOne(subs: set<(UserId, UserId)>, user: UserId, channel: UserId)
    requires (user, channel) in subs
    ensures SubscriberCount(subs - {(user, channel)}, channel) == SubscriberCount(subs, channel) - 1
  {
    var before := set p | p in subs && p.1 == channel;
    var after := set p | p in subs - {(user, channel)} && p.1 == channel;
    assert before == after + {(user, channel)};
  }

  /** Other channels' counts do not move when one (subscriber, channel) row changes. */
  lemma OtherChannelsUnchanged(subs: set<(UserId, UserId)>, user: UserId, channel: UserId, other: UserId)
    requires other != channel
    ensures SubscriberCount(subs + {(user, channel)}, other) == SubscriberCount(subs, other)
    ensures SubscriberCount(subs - {(user, channel)}, other) == SubscriberCount(subs, other)
  {
    assert (set p | p in subs + {(user, channel)} && p.1 == other) == (set p | p in subs && p.1 == other);
    assert (set p | p in subs - {(user, channel)} && p.1 == other) == (set p | p in subs && p.1 == other);
  }

  /** The client side of a subscription: the button state and the displayed count. */
  datatype Follow = Follow(subscribed: bool, count: int)

  /** One subscribe-button click on the client: flip the state, move the count by one
      (down with no lower bound when subscribed, up otherwise). */
  function ToggleFollow(f: Follow): Follow {
    if f.subscribed then Follow(false, f.count - 1) else Follow(true, f.count + 1)
  }

  /** The table write of one click: delete the row when subscribed, insert it otherwise. */
  function ToggleRow(subs: set<(UserId, UserId)>, subscribed: bool, user: UserId, channel: UserId)
    : set<(UserId, UserId)>
  {
    if subscribed then subs - {(user, channel)} else subs + {(user, channel)}
  }

  /** The client mirrors the table: the button shows the row and the count is the live count. */
  predicate Mirrors(f: Follow, subs: set<(UserId, UserId)>, user: UserId, channel: UserId) {
    (f.subscribed <==> (user, channel) in subs) && f.count == SubscriberCount(subs, channel) as int
  }

  /** A click whose write succeeds keeps the client mirroring the table. */
  lemma ToggleKeepsMirror(f: Follow, subs: set<(UserId, UserId)>, user: UserId, channel: UserId)
    requires Mirrors(f, subs, user, channel)
    ensures Mirrors(ToggleFollow(f), ToggleRow(subs, f.subscribed, user, channel), user, channel)
  {
    if f.subscribed {
      UnsubscribeRemovesOne(subs, user, channel);
    } else {
      SubscribeAddsOne(subs, user, channel);
    }
  }

  /** A click whose write fails still moves the client: it stops mirroring the table. */
  lemma FailedToggleBreaksMirror(f: Follow, subs: set<(UserId, UserId)>, user: UserId, channel: UserId)
    requires Mirrors(f, subs, user, channel)
    ensures !Mirrors(ToggleFollow(f), subs, user, channel)
  {
  }

  /** Subscribe then unsubscribe (or the reverse) restores the button and the count. */
  lemma ToggleFollowTwice(f: Follow)
    ensures ToggleFollow(ToggleFollow(f)) == f
    ensures ToggleFollow(f) != f
  {
  }
}
