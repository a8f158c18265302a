/** The remote tables and storage buckets the core handlers read and write, reduced
    to the keys the handlers use. The hosted database behind them is not modelled:
    each handler receives the outcome of its remote call as a parameter. */
module Database {
  import opened Types

  /** A `users` row as sign-up inserts it. */
  datatype ProfileInsert = ProfileInsert(
    display_name: string,
    email: string,
    photo_url: string,
    bio: string,
    subscriber_count: int,
    video_count: int)

  /** A `playlists` row as the create form inserts it. */
  datatype PlaylistInsert = PlaylistInsert(title: string, description: string, user_id: UserId, visibility: Visibility)

  class Store {
    /** `video_likes`: one row per (video, user) pair, holding `is_like`. */
    var videoLikes: map<(VideoId, UserId), bool>
    /** `comment_likes`: one row per (comment, user) pair, holding `is_like`. */
    var commentLikes: map<(CommentId, UserId), bool>
    /** `subscriptions`: (subscriber_id, channel_id) pairs. */
    var subscriptions: set<(UserId, UserId)>
    /** `watch_later`: (user_id, video_id) pairs, unique per pair. */
    var watchLater: set<(UserId, VideoId)>
    /** The ids of the `videos` rows. */
    var videos: set<VideoId>
    /** Object paths in the `videos` and `thumbnails` storage buckets. */
    var videoFiles: set<string>
    var thumbnailFiles: set<string>
    /** `users` profiles by id. */
    var users: map<UserId, ProfileInsert>
    /** `playlists` rows in insertion order. */
    var playlists: seq<PlaylistInsert>

    constructor()
      ensures videoLikes == map[] && commentLikes == map[]
      ensures subscriptions == {} && watchLater == {} && videos == {}
      ensures videoFiles == {} && thumbnailFiles == {}
      ensures users == map[] && playlists == []
    {
      videoLikes := map[];
      commentLikes := map[];
      subscriptions := {};
      watchLater := {};
      videos := {};
      videoFiles := {};
      thumbnailFiles := {};
      users := map[];
      playlists := [];
    }
  }
}
