/** The signed-in user's video manager (src/pages/MyVideos.tsx): the list of own
    videos, deletion of a video with its two storage files, the date column and the
    per-row menu. */
module MyVideos {
  import opened Wrappers
  import opened Seqs
  import opened Text
  import opened Types
  import opened Database
  import VideoCard

  // ----- storage paths -----

  /** `parts.slice(-2)`: the last two pieces, or all of them when there are fewer. */
  function LastTwo(parts: seq<string>): (r: seq<string>)
    requires |parts| >= 1
    ensures 1 <= |r| <= 2 && |r| <= |parts|
    ensures r == parts[|parts| - |r|..]
  {
    if |parts| >= 2 then parts[|parts| - 2..] else parts
  }

  /** `url.split('/').slice(-2).join('/')`: the `user_id/filename` part of a public URL. */
  function StoragePath(url: string): string {
    Join(LastTwo(Split(url, '/')), '/')
  }

  ghost predicate IsSuffix(a: string, b: string) {
    |a| <= |b| && b[|b| - |a|..] == a
  }

  /** Joining a tail of the pieces gives a suffix of the whole join. */
  lemma {:induction false} JoinTailIsSuffix(parts: seq<string>, sep: char, k: nat)
    requires k < |parts|
    ensures IsSuffix(Join(parts[k..], sep), Join(parts, sep))
  {
    if k > 0 {
      JoinTailIsSuffix(parts[1..], sep, k - 1);
      assert parts[1..][k - 1..] == parts[k..];
    }
  }

  /** The storage path is a suffix of the URL; its pieces are the URL's last two pieces;
      it contains a `/` exactly when the URL does, and then exactly one. */
  lemma StoragePathMeaning(url: string)
    ensures IsSuffix(StoragePath(url), url)
    ensures Split(StoragePath(url), '/') == LastTwo(Split(url, '/'))
    ensures '/' in StoragePath(url) <==> '/' in url
    ensures Occurrences(StoragePath(url), '/') == (if '/' in url then 1 else 0)
  {
    var parts := Split(url, '/');
    var tail := LastTwo(parts);
    JoinSplit(url, '/');
    JoinTailIsSuffix(parts, '/', |parts| - |tail|);
    SplitJoin(tail, '/');
    SplitCount(url, '/');
    OccurrencesZero(url, '/');
    SplitCount(StoragePath(url), '/');
    OccurrencesZero(StoragePath(url), '/');
  }

  /** `path && path.includes('/')`: removal is attempted exactly when the URL has a `/`. */
  lemma RemovalGuard(url: string)
    ensures (StoragePath(url) != "" && Contains(StoragePath(url), "/")) <==> '/' in url
  {
    StoragePathMeaning(url);
    ContainsChar(StoragePath(url), '/');
  }

  // ----- the date column -----

  /** What the date column shows: relative text, or the calendar date
      (`toLocaleDateString`, not modelled) from 30 days on. */
  datatype DateLabel = Relative(text: string) | CalendarDate

  /** `formatDate` with the day difference given as an integer. */
  function FormatDate(days: int): DateLabel {
    if days == 0 then Relative("Hoje")
    else if days == 1 then Relative("Ontem")
    else if days < 7 then Relative(IntToString(days) + " dias atrás")
    else if days < 30 then Relative(IntToString(days / 7) + " semanas atrás")
    else CalendarDate
  }

  /** Below 30 days this column shows the video card's text; from 30 days on the
      calendar date. */
  lemma FormatDateMatchesCard(days: int)
    ensures days < 30 ==> FormatDate(days) == Relative(VideoCard.FormatDate(days))
    ensures days >= 30 <==> FormatDate(days) == CalendarDate
  {
    if 1 < days < 7 {
      assert IntToString(days) + " " + VideoCard.DaysUnit == IntToString(days) + " dias atrás";
    } else if 7 <= days < 30 {
      assert IntToString(days / 7) + " " + VideoCard.WeeksUnit == IntToString(days / 7) + " semanas atrás";
    }
  }

  // ----- the list -----

  function OwnRow(user: UserId): VideoRow -> Option<Video> {
    (r: VideoRow) => if r.user_id == user then Some(ToVideo(r, false)) else None
  }

  /** The list `fetchMyVideos` stores: the user's rows, transformed without visibility. */
  function MyVideoList(rows: seq<VideoRow>, user: UserId): seq<Video> {
    Collect(rows, OwnRow(user))
  }

  /** The list holds exactly the transforms of the user's own rows, in server order. */
  lemma MyVideoListMeaning(rows: seq<VideoRow>, user: UserId, v: Video)
    ensures v in MyVideoList(rows, user) <==>
              exists j :: 0 <= j < |rows| && rows[j].user_id == user && v == ToVideo(rows[j], false)
    ensures v in MyVideoList(rows, user) ==> v.user_id == user && v.visibility.None?
    ensures IsGathered(MyVideoList(rows, user), rows, OwnRow(user))
  {
    CollectMembership(rows, OwnRow(user), v);
    CollectIsGathered(rows, OwnRow(user));
  }

  const Deleted: string := "Vídeo excluído com sucesso!"
  const DeleteFailedPrefix: string := "Erro ao excluir vídeo: "

  /** The outcome of one storage removal: done, refused with an error value (the code
      does not look at it), or thrown (caught; the rest of the storage step is skipped). */
  datatype Removal = Removed | Refused | Threw

  class MyVideosPage {
    var currentUser: Option<UserId>
    var videos: seq<Video>
    var loading: bool
    var selectedVideo: Option<VideoId>

    constructor(user: Option<UserId>)
      ensures currentUser == user && videos == [] && loading && selectedVideo == None
    {
      currentUser := user;
      videos := [];
      loading := true;
      selectedVideo := None;
    }

    /** fetchMyVideos: skipped with no user; otherwise the list becomes the user's videos
        on success and stays on failure, and loading ends. */
    method FetchMyVideos(response: Result<seq<VideoRow>>)
      modifies this`videos, this`loading
      ensures currentUser.None? ==> videos == old(videos) && loading == old(loading)
      ensures currentUser.Some? && response.Success? ==> videos == MyVideoList(response.value, currentUser.value)
      ensures currentUser.Some? && response.Failure? ==> videos == old(videos)
      ensures currentUser.Some? ==> !loading
    {
      if currentUser.None? {
        return;
      }
      if response.Success? {
        videos := MyVideoList(response.value, currentUser.value);
      }
      loading := false;
    }

    /** handleDeleteVideo. A declined confirm changes nothing. A failed database delete
        reports its message and changes nothing else. Otherwise the row is gone; each
        storage file whose URL has a `/` is removed when its removal succeeds, the
        thumbnail step is skipped when the video removal threw, and whatever the storage
        step did, the local list loses exactly the deleted id. */
    method HandleDeleteVideo(db: Store, videoId: VideoId, videoUrl: string, thumbnailUrl: string,
                             confirmed: bool, dbError: Option<string>,
                             videoRemoval: Removal, thumbnailRemoval: Removal)
      returns (alert: Option<string>)
      modifies this`videos, db`videos, db`videoFiles, db`thumbnailFiles
      ensures !confirmed || dbError.Some? ==>
                videos == old(videos) && db.videos == old(db.videos)
                && db.videoFiles == old(db.videoFiles) && db.thumbnailFiles == old(db.thumbnailFiles)
      ensures !confirmed ==> alert == None
      ensures confirmed && dbError.Some? ==> alert == Some(DeleteFailedPrefix + dbError.value)
      ensures confirmed && dbError.None? ==>
                alert == Some(Deleted)
                && videos == RemoveVideo(old(videos), videoId)
                && db.videos == old(db.videos) - {videoId}
                && db.videoFiles == (if '/' in videoUrl && videoRemoval == Removed
                                     then old(db.videoFiles) - {StoragePath(videoUrl)} else old(db.videoFiles))
                && db.thumbnailFiles == (if '/' in thumbnailUrl && thumbnailRemoval == Removed
                                            && !('/' in videoUrl && videoRemoval == Threw)
                                         then old(db.thumbnailFiles) - {StoragePath(thumbnailUrl)}
                                         else old(db.thumbnailFiles))
    {
      if !confirmed {
        return None;
      }
      if dbError.Some? {
        return Some(DeleteFailedPrefix + dbError.value);
      }
      db.videos := db.videos - {videoId};
      var videoPath := StoragePath(videoUrl);
      var thumbnailPath := StoragePath(thumbnailUrl);
      RemovalGuard(videoUrl);
      RemovalGuard(thumbnailUrl);
      var threw := false;
      if videoPath != "" && Contains(videoPath, "/") {
        if videoRemoval == Removed {
          db.videoFiles := db.videoFiles - {videoPath};
        }
        threw := videoRemoval == Threw;
      }
      if !threw && thumbnailPath != "" && Contains(thumbnailPath, "/") {
        if thumbnailRemoval == Removed {
          db.thumbnailFiles := db.thumbnailFiles - {thumbnailPath};
        }
      }
      videos := RemoveVideo(videos, videoId);
      alert := Some(Deleted);
    }

    /** The row menu button: closes the menu when it is this row's, opens this row's
        otherwise. */
    method ToggleSelected(videoId: VideoId)
      modifies this`selectedVideo
      ensures old(selectedVideo) == Some(videoId) ==> selectedVideo == None
      ensures old(selectedVideo) != Some(videoId) ==> selectedVideo == Some(videoId)
    {
      selectedVideo := if selectedVideo == Some(videoId) then None else Some(videoId);
    }

    /** The menu's edit link and delete button close the menu. */
    method CloseSelected()
      modifies this`selectedVideo
      ensures selectedVideo == None
    {
      selectedVideo := None;
    }
  }
}
