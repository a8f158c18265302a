/** The records of the application (src/types/index.ts) and the row-to-Video
    transform that every list page applies to a `videos` select joined with `users`. */
module Types {
  import opened Wrappers
  import opened Seqs

  type UserId = string
  type VideoId = string
  type CommentId = string

  datatype Visibility = Public | Private | Unlisted

  /** The string the database stores for a visibility. */
  function VisibilityName(v: Visibility): string {
    match v
    case Public => "public"
    case Private => "private"
    case Unlisted => "unlisted"
  }

  /** A video as the pages keep it in state. `visibility` is absent when the page's
      transform does not copy it (Home, Search, MyVideos). */
  datatype Video = Video(
    id: VideoId,
    title: string,
    description: string,
    thumbnail_url: string,
    video_url: string,
    user_id: UserId,
    views: int,
    likes: int,
    dislikes: int,
    duration: string,
    visibility: Option<Visibility>,
    created_at: string,
    updated_at: Option<string>,
    user_display_name: Option<string>,
    user_photo_url: Option<string>)

  datatype UserProfile = UserProfile(
    id: UserId,
    display_name: string,
    email: string,
    photo_url: string,
    banner_url: Option<string>,
    bio: string,
    subscriber_count: Option<int>,
    video_count: int,
    created_at: string,
    updated_at: Option<string>)

  /** A comment; the `replies` field of the interface is never filled by the code and is omitted. */
  datatype Comment = Comment(
    id: CommentId,
    video_id: VideoId,
    user_id: UserId,
    content: string,
    likes: int,
    dislikes: int,
    parent_id: Option<CommentId>,
    created_at: string,
    updated_at: Option<string>,
    user_display_name: Option<string>,
    user_photo_url: Option<string>)

  datatype Subscription = Subscription(id: string, subscriber_id: UserId, channel_id: UserId, created_at: string)

  datatype Playlist = Playlist(
    id: string,
    title: string,
    description: string,
    user_id: UserId,
    visibility: Visibility,
    thumbnail_url: string,
    video_count: int,
    created_at: string,
    updated_at: string,
    user_display_name: Option<string>,
    user_photo_url: Option<string>)

  /** The `users (display_name, photo_url)` object a joined select attaches to a row. */
  datatype UserJoin = UserJoin(display_name: Option<string>, photo_url: Option<string>)

  /** A `videos` row as a select joined with `users` returns it. */
  datatype VideoRow = VideoRow(
    id: VideoId,
    title: string,
    description: string,
    thumbnail_url: string,
    video_url: string,
    user_id: UserId,
    views: int,
    likes: int,
    dislikes: int,
    duration: string,
    visibility: Option<Visibility>,
    created_at: string,
    updated_at: Option<string>,
    users: Option<UserJoin>)

  /** A `video_likes` row with its joined `videos` object (null when the video is gone). */
  datatype VideoLike = VideoLike(id: string, video_id: VideoId, user_id: UserId, is_like: bool,
                                 created_at: string, videos: Option<VideoRow>)

  datatype CommentLike = CommentLike(id: string, comment_id: CommentId, user_id: UserId, is_like: bool,
                                     created_at: string)

  /** A `watch_later` row with its joined `videos` object (null when the video is gone). */
  datatype WatchLater = WatchLater(id: string, user_id: UserId, video_id: VideoId, created_at: string,
                                   videos: Option<VideoRow>)

  const DefaultDisplayName: string := "Usuário"

  /** JavaScript's `x || d` on an optional string: `d` when x is missing or empty. */
  function OrElse(x: Option<string>, d: string): (r: string)
    ensures x.Some? && x.value != "" ==> r == x.value
    ensures x.None? || x.value == "" ==> r == d
  {
    if x.Some? && x.value != "" then x.value else d
  }

  function JoinedName(row: VideoRow): Option<string> {
    if row.users.Some? then row.users.value.display_name else None
  }

  function JoinedPhoto(row: VideoRow): Option<string> {
    if row.users.Some? then row.users.value.photo_url else None
  }

  /** The row-to-Video transform. `withVisibility` says whether the page copies
      `visibility || 'public'` (Channel, WatchLater, Liked, History) or leaves it out
      (Home, Search, MyVideos). */
  function ToVideo(row: VideoRow, withVisibility: bool): (v: Video)
    ensures v.id == row.id && v.title == row.title && v.description == row.description
    ensures v.user_id == row.user_id && v.views == row.views && v.created_at == row.created_at
    ensures v.thumbnail_url == row.thumbnail_url && v.video_url == row.video_url
    ensures v.likes == row.likes && v.dislikes == row.dislikes
    ensures v.duration == row.duration && v.updated_at == row.updated_at
    ensures v.user_display_name.Some? && v.user_display_name.value != ""
    ensures JoinedName(row).Some? && JoinedName(row).value != "" ==> v.user_display_name == JoinedName(row)
    ensures v.user_photo_url.Some?
    ensures JoinedPhoto(row).Some? ==> v.user_photo_url == JoinedPhoto(row)
    ensures withVisibility <==> v.visibility.Some?
  {
    Video(row.id, row.title, row.description, row.thumbnail_url, row.video_url, row.user_id,
          row.views, row.likes, row.dislikes, row.duration,
          if withVisibility then Some(row.visibility.GetOr(Public)) else None,
          row.created_at, row.updated_at,
          Some(OrElse(JoinedName(row), DefaultDisplayName)),
          Some(OrElse(JoinedPhoto(row), "")))
  }

  /** The defaults of the transform: a missing join or a missing or empty name gives
      "Usuário", a missing photo gives "", a missing visibility gives public. */
  lemma ToVideoDefaults(row: VideoRow, withVisibility: bool)
    ensures JoinedName(row).None? || JoinedName(row) == Some("")
            ==> ToVideo(row, withVisibility).user_display_name == Some(DefaultDisplayName)
    ensures JoinedPhoto(row).None? ==> ToVideo(row, withVisibility).user_photo_url == Some("")
    ensures withVisibility && row.visibility.None? ==> ToVideo(row, withVisibility).visibility == Some(Public)
    ensures withVisibility && row.visibility.Some? ==> ToVideo(row, withVisibility).visibility == row.visibility
  {
  }

  /** `videos.filter(video => video.id !== id)`: the local list after one video is removed. */
  function RemoveVideo(videos: seq<Video>, id: VideoId): (r: seq<Video>)
    ensures |r| <= |videos|
  {
    Filter(videos, (v: Video) => v.id != id)
  }

  /** Removing a video keeps exactly the entries with another id, in their order, and
      changes nothing when no entry has that id. */
  lemma RemoveVideoMeaning(videos: seq<Video>, id: VideoId, v: Video)
    ensures v in RemoveVideo(videos, id) <==> v in videos && v.id != id
    ensures IsGathered(RemoveVideo(videos, id), videos, KeepIf((w: Video) => w.id != id))
    ensures (forall w :: w in videos ==> w.id != id) ==> RemoveVideo(videos, id) == videos
  {
    FilterMembership(videos, (w: Video) => w.id != id, v);
    CollectIsGathered(videos, KeepIf((w: Video) => w.id != id));
    if forall w :: w in videos ==> w.id != id {
      FilterKeepsAll(videos, (w: Video) => w.id != id);
    }
  }
}
