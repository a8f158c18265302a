/** A channel page (src/pages/Channel.tsx): the cached subscriber count, the
    channel's public videos, and the subscribe button, which refuses the user's own
    channel. */
module Channel {
  import opened Wrappers
  import opened Seqs
  import opened Types
  import opened Engagement
  import opened Database

  /** The row-to-Video step of `fetchChannelVideos`: only the channel's rows whose
      visibility is `public` are returned by the query, and each is transformed with
      visibility kept. */
  function ChannelRow(channelId: UserId): VideoRow -> Option<Video> {
    (r: VideoRow) => if r.user_id == channelId && r.visibility == Some(Public) then Some(ToVideo(r, true)) else None
  }

  /** The list `fetchChannelVideos` stores. */
  function ChannelVideos(rows: seq<VideoRow>, channelId: UserId): seq<Video> {
    Collect(rows, ChannelRow(channelId))
  }

  /** The channel's list holds exactly the transforms of its public rows, in the order the
      server returned them, and each carries the channel's id, visibility `public`, and a
      non-empty display name. */
  lemma ChannelVideosMeaning(rows: seq<VideoRow>, channelId: UserId, v: Video)
    ensures v in ChannelVideos(rows, channelId) <==>
              exists j :: 0 <= j < |rows| && rows[j].user_id == channelId && rows[j].visibility == Some(Public)
                          && v == ToVideo(rows[j], true)
    ensures v in ChannelVideos(rows, channelId) ==>
              v.user_id == channelId && v.visibility == Some(Public)
              && v.user_display_name.Some? && v.user_display_name.value != ""
    ensures IsGathered(ChannelVideos(rows, channelId), rows, ChannelRow(channelId))
  {
    CollectMembership(rows, ChannelRow(channelId), v);
    CollectIsGathered(rows, ChannelRow(channelId));
  }

  class ChannelPage {
    var currentUser: Option<UserId>
    /** The `id` route parameter. */
    var channelId: UserId
    var channel: Option<UserProfile>
    var videos: seq<Video>
    var loading: bool
    var isSubscribed: bool
    var subscriberCount: int
    var bannerUrl: string

    constructor(user: Option<UserId>, id: UserId)
      ensures currentUser == user && channelId == id && channel == None && videos == []
      ensures loading && !isSubscribed && subscriberCount == 0 && bannerUrl == ""
    {
      currentUser := user;
      channelId := id;
      channel := None;
      videos := [];
      loading := true;
      isSubscribed := false;
      subscriberCount := 0;
      bannerUrl := "";
    }

    /** fetchChannel: on success the profile is kept, the count starts at its cached
        `subscriber_count` (0 when absent) and the banner at its URL ('' when absent);
        on failure nothing changes. */
    method FetchChannel(response: Result<UserProfile>)
      modifies this`channel, this`subscriberCount, this`bannerUrl
      ensures response.Failure? ==>
                channel == old(channel) && subscriberCount == old(subscriberCount) && bannerUrl == old(bannerUrl)
      ensures response.Success? ==>
                channel == Some(response.value)
                && subscriberCount == (if response.value.subscriber_count.Some? then response.value.subscriber_count.value else 0)
                && bannerUrl == OrElse(response.value.banner_url, "")
    {
      if response.Failure? {
        return;
      }
      var p := response.value;
      channel := Some(p);
      subscriberCount := p.subscriber_count.GetOr(0);
      bannerUrl := OrElse(p.banner_url, "");
    }

    /** fetchChannelVideos: on success the list becomes the channel's public videos; on
        failure it stays. Loading ends either way. */
    method FetchChannelVideos(response: Result<seq<VideoRow>>)
      modifies this`videos, this`loading
      ensures response.Success? ==> videos == ChannelVideos(response.value, channelId)
      ensures response.Failure? ==> videos == old(videos)
      ensures !loading
    {
      if response.Success? {
        videos := ChannelVideos(response.value, channelId);
      }
      loading := false;
    }

    /** fetchSubscriptionStatus: skipped with no user or on the user's own channel;
        otherwise `isSubscribed` becomes whether the (user, channel) row exists. */
    method FetchSubscriptionStatus(db: Store, readOk: bool)
      modifies this`isSubscribed
      ensures currentUser.None? || currentUser.value == channelId || !readOk ==> isSubscribed == old(isSubscribed)
      ensures currentUser.Some? && currentUser.value != channelId && readOk ==>
                (isSubscribed <==> (currentUser.value, channelId) in db.subscriptions)
    {
      if currentUser.None? || currentUser.value == channelId || !readOk {
        return;
      }
      isSubscribed := (currentUser.value, channelId) in db.subscriptions;
    }

    /** The guard of handleSubscribe: a user, a loaded channel, and not the user's own. */
    predicate CanSubscribe()
      reads this
    {
      currentUser.Some? && channel.Some? && currentUser.value != channel.value.id
    }

    /** handleSubscribe: does nothing unless CanSubscribe. Otherwise it deletes the
        (user, channel) row when subscribed and inserts it when not; `isSubscribed` flips
        and the count moves by one, down with no lower bound. The write's error is not
        checked. A successful write keeps a mirroring client mirroring. */
    method HandleSubscribe(db: Store, ok: bool)
      modifies this`isSubscribed, this`subscriberCount, db`subscriptions
      ensures !CanSubscribe() ==>
                isSubscribed == old(isSubscribed) && subscriberCount == old(subscriberCount)
                && db.subscriptions == old(db.subscriptions)
      ensures CanSubscribe() ==>
                Follow(isSubscribed, subscriberCount) == ToggleFollow(Follow(old(isSubscribed), old(subscriberCount)))
                && db.subscriptions == (if ok then ToggleRow(old(db.subscriptions), old(isSubscribed),
                                                             currentUser.value, channel.value.id)
                                        else old(db.subscriptions))
      ensures CanSubscribe() && ok &&
              old(Mirrors(Follow(isSubscribed, subscriberCount), db.subscriptions, currentUser.value, channel.value.id)) ==>
                Mirrors(Follow(isSubscribed, subscriberCount), db.subscriptions, currentUser.value, channel.value.id)
    {
      if !CanSubscribe() {
        return;
      }
      var user, ch := currentUser.value, channel.value.id;
      var before := Follow(isSubscribed, subscriberCount);
      if ok {
        db.subscriptions := ToggleRow(db.subscriptions, isSubscribed, user, ch);
      }
      var after := ToggleFollow(before);
      isSubscribed, subscriberCount := after.subscribed, after.count;
      if ok && Mirrors(before, old(db.subscriptions), user, ch) {
        ToggleKeepsMirror(before, old(db.subscriptions), user, ch);
      }
    }
  }
}
