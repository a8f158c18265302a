/** The watch-later list (src/pages/WatchLater.tsx): the signed-in user's saved rows
    with their joined videos, and removal of one video from the list. */
module WatchLater {
  import opened Wrappers
  import opened Seqs
  import opened Types
  import opened Database

  /** One saved row: kept when it is the user's and its joined video exists, transformed
      with visibility kept. */
  function SavedRow(user: UserId): Types.WatchLater -> Option<Video> {
    (item: Types.WatchLater) =>
      if item.user_id == user && item.videos.Some? then Some(ToVideo(item.videos.value, true)) else None
  }

  /** The list `fetchWatchLaterVideos` stores. */
  function SavedVideos(rows: seq<Types.WatchLater>, user: UserId): seq<Video> {
    Collect(rows, SavedRow(user))
  }

  /** The list holds one video per saved row of the user whose joined video exists, in
      server order; rows with a null video contribute nothing. */
  lemma SavedVideosMeaning(rows: seq<Types.WatchLater>, user: UserId, v: Video)
    ensures v in SavedVideos(rows, user) <==>
              exists j :: 0 <= j < |rows| && rows[j].user_id == user && rows[j].videos.Some?
                          && v == ToVideo(rows[j].videos.value, true)
    ensures v in SavedVideos(rows, user) ==> v.visibility.Some? && v.user_display_name.Some?
    ensures IsGathered(SavedVideos(rows, user), rows, SavedRow(user))
    ensures (forall j :: 0 <= j < |rows| ==> rows[j].videos.None?) ==> SavedVideos(rows, user) == []
  {
    CollectMembership(rows, SavedRow(user), v);
    CollectIsGathered(rows, SavedRow(user));
    if forall j :: 0 <= j < |rows| ==> rows[j].videos.None? {
      if SavedVideos(rows, user) != [] {
        var w := SavedVideos(rows, user)[0];
        CollectMembership(rows, SavedRow(user), w);
      }
    }
  }

  const RemoveFailed: string := "Erro ao remover vídeo"

  class WatchLaterPage {
    var currentUser: Option<UserId>
    var videos: seq<Video>
    var loading: bool

    constructor(user: Option<UserId>)
      ensures currentUser == user && videos == [] && loading
    {
      currentUser := user;
      videos := [];
      loading := true;
    }

    /** fetchWatchLaterVideos: skipped with no user; otherwise the list becomes the saved
        videos on success and stays on failure, and loading ends. */
    method FetchWatchLaterVideos(response: Result<seq<Types.WatchLater>>)
      modifies this`videos, this`loading
      ensures currentUser.None? ==> videos == old(videos) && loading == old(loading)
      ensures currentUser.Some? && response.Success? ==> videos == SavedVideos(response.value, currentUser.value)
      ensures currentUser.Some? && response.Failure? ==> videos == old(videos)
      ensures currentUser.Some? ==> !loading
    {
      if currentUser.None? {
        return;
      }
      if response.Success? {
        videos := SavedVideos(response.value, currentUser.value);
      }
      loading := false;
    }

    /** removeFromWatchLater: with no user nothing happens. A failed delete leaves the
        table and the list and reports an alert; a successful one removes the
        (user, video) row and exactly that video id from the list. */
    method RemoveFromWatchLater(db: Store, videoId: VideoId, ok: bool) returns (alert: Option<string>)
      modifies this`videos, db`watchLater
      ensures currentUser.None? || !ok ==> videos == old(videos) && db.watchLater == old(db.watchLater)
      ensures currentUser.None? ==> alert == None
      ensures currentUser.Some? && !ok ==> alert == Some(RemoveFailed)
      ensures currentUser.Some? && ok ==>
                alert == None && videos == RemoveVideo(old(videos), videoId)
                && db.watchLater == old(db.watchLater) - {(currentUser.value, videoId)}
    {
      if currentUser.None? {
        return None;
      }
      if !ok {
        return Some(RemoveFailed);
      }
      db.watchLater := db.watchLater - {(currentUser.value, videoId)};
      videos := RemoveVideo(videos, videoId);
      alert := None;
    }
  }
}
