/** The history page (src/pages/History.tsx): it shows the 20 most viewed videos,
    and can be cleared locally. */
module History {
  import opened Wrappers
  import opened Seqs
  import opened Types

  const HistoryLimit: nat := 20

  function WithVisibility(r: VideoRow): Video {
    ToVideo(r, true)
  }

  /** The list `fetchHistory` stores: the first 20 rows, transformed with visibility kept. */
  function HistoryVideos(rows: seq<VideoRow>): seq<Video> {
    Map(Take(rows, HistoryLimit), WithVisibility)
  }

  ghost predicate ByViewsDescending(rows: seq<VideoRow>) {
    forall i, j :: 0 <= i < j < |rows| ==> rows[i].views >= rows[j].views
  }

  /** The list holds at most 20 videos, one per leading row and in the same order; when
      the server returns rows by views, most first, the list is by views too, and no video
      left out has more views than a video shown. */
  lemma HistoryVideosMeaning(rows: seq<VideoRow>)
    ensures |HistoryVideos(rows)| <= HistoryLimit
    ensures |HistoryVideos(rows)| == if |rows| < HistoryLimit then |rows| else HistoryLimit
    ensures forall i :: 0 <= i < |HistoryVideos(rows)| ==> HistoryVideos(rows)[i] == ToVideo(rows[i], true)
    ensures ByViewsDescending(rows) ==>
              forall i, j :: 0 <= i < j < |HistoryVideos(rows)| ==> HistoryVideos(rows)[i].views >= HistoryVideos(rows)[j].views
    ensures ByViewsDescending(rows) ==>
              forall i, j :: 0 <= i < |HistoryVideos(rows)| <= j < |rows| ==> HistoryVideos(rows)[i].views >= rows[j].views
  {
  }

  class HistoryPage {
    var currentUser: Option<UserId>
    var videos: seq<Video>
    var loading: bool

    constructor(user: Option<UserId>)
      ensures currentUser == user && videos == [] && loading
    {
      currentUser := user;
      videos := [];
      loading := true;
    }

    /** fetchHistory: skipped with no user; otherwise the list becomes the first 20 rows on
        success and stays on failure, and loading ends. */
    method FetchHistory(response: Result<seq<VideoRow>>)
      modifies this`videos, this`loading
      ensures currentUser.None? ==> videos == old(videos) && loading == old(loading)
      ensures currentUser.Some? && response.Success? ==> videos == HistoryVideos(response.value)
      ensures currentUser.Some? && response.Failure? ==> videos == old(videos)
      ensures currentUser.Some? ==> !loading
    {
      if currentUser.None? {
        return;
      }
      if response.Success? {
        videos := HistoryVideos(response.value);
      }
      loading := false;
    }

    /** clearHistory: empties the list when confirmed, leaves it otherwise. */
    method ClearHistory(confirmed: bool)
      modifies this`videos
      ensures confirmed ==> videos == []
      ensures !confirmed ==> videos == old(videos)
    {
      if confirmed {
        videos := [];
      }
    }
  }
}
