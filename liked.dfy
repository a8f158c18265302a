/** The liked-videos list (src/pages/Liked.tsx): the signed-in user's `video_likes`
    rows with `is_like` true, with their joined videos. */
module Liked {
  import opened Wrappers
  import opened Seqs
  import opened Types

  /** One like row: kept when it is the user's, is a like, and its joined video exists;
      transformed with visibility kept. */
  function LikedRow(user: UserId): VideoLike -> Option<Video> {
    (item: VideoLike) =>
      if item.user_id == user && item.is_like && item.videos.Some? then Some(ToVideo(item.videos.value, true)) else None
  }

  /** The list `fetchLikedVideos` stores. */
  function LikedVideos(rows: seq<VideoLike>, user: UserId): seq<Video> {
    Collect(rows, LikedRow(user))
  }

  /** The list holds one video per like (not dislike) of the user whose joined video
      exists, in server order. */
  lemma LikedVideosMeaning(rows: seq<VideoLike>, user: UserId, v: Video)
    ensures v in LikedVideos(rows, user) <==>
              exists j :: 0 <= j < |rows| && rows[j].user_id == user && rows[j].is_like && rows[j].videos.Some?
                          && v == ToVideo(rows[j].videos.value, true)
    ensures IsGathered(LikedVideos(rows, user), rows, LikedRow(user))
  {
    CollectMembership(rows, LikedRow(user), v);
    CollectIsGathered(rows, LikedRow(user));
  }

  /** Dislikes never appear: a table of dislikes only gives an empty list. */
  lemma {:induction false} DislikesNeverListed(rows: seq<VideoLike>, user: UserId)
    requires forall j :: 0 <= j < |rows| ==> !rows[j].is_like
    ensures LikedVideos(rows, user) == []
  {
    if rows != [] {
      DislikesNeverListed(rows[1..], user);
    }
  }

  class LikedPage {
    var currentUser: Option<UserId>
    var videos: seq<Video>
    var loading: bool

    constructor(user: Option<UserId>)
      ensures currentUser == user && videos == [] && loading
    {
      currentUser := user;
      videos := [];
      loading := true;
    }

    /** fetchLikedVideos: skipped with no user; otherwise the list becomes the liked videos
        on success and stays on failure, and loading ends. */
    method FetchLikedVideos(response: Result<seq<VideoLike>>)
      modifies this`videos, this`loading
      ensures currentUser.None? ==> videos == old(videos) && loading == old(loading)
      ensures currentUser.Some? && response.Success? ==> videos == LikedVideos(response.value, currentUser.value)
      ensures currentUser.Some? && response.Failure? ==> videos == old(videos)
      ensures currentUser.Some? ==> !loading
    {
      if currentUser.None? {
        return;
      }
      if response.Success? {
        videos := LikedVideos(response.value, currentUser.value);
      }
      loading := false;
    }
  }
}
