/** The home feed (src/pages/Home.tsx): the newest videos, limited to 20, optionally
    filtered by the query the header passes down. */
module Home {
  import opened Wrappers
  import opened Seqs
  import opened Types
  import Search

  const FeedLimit: nat := 20

  /** The list `fetchVideos` stores: the first 20 rows transformed, then filtered by the
      query when there is a non-empty one. */
  function Feed(rows: seq<VideoRow>, searchQuery: Option<string>): seq<Video> {
    var videos := Map(Take(rows, FeedLimit), Search.Transform);
    if searchQuery.Some? && searchQuery.value != "" then Filter(videos, Search.MatchesText(searchQuery.value))
    else videos
  }

  /** The feed never holds more than 20 videos; with no query (or an empty one) it is the
      whole transformed first page; with a query it holds exactly the videos of that page
      that match, in order. */
  lemma FeedMeaning(rows: seq<VideoRow>, searchQuery: Option<string>, v: Video)
    ensures |Feed(rows, searchQuery)| <= FeedLimit
    ensures searchQuery.None? || searchQuery.value == "" ==>
              |Feed(rows, searchQuery)| == |Take(rows, FeedLimit)|
              && forall i :: 0 <= i < |Feed(rows, searchQuery)| ==> Feed(rows, searchQuery)[i] == ToVideo(rows[i], false)
    ensures searchQuery.Some? && searchQuery.value != "" ==>
              (v in Feed(rows, searchQuery) <==>
                 (exists j :: 0 <= j < |rows| && j < FeedLimit && v == ToVideo(rows[j], false))
                 && Search.Matches(v, searchQuery.value))
    ensures searchQuery.Some? && searchQuery.value != "" ==>
              IsGathered(Feed(rows, searchQuery), Map(Take(rows, FeedLimit), Search.Transform),
                         KeepIf(Search.MatchesText(searchQuery.value)))
  {
    var page := Take(rows, FeedLimit);
    var videos := Map(page, Search.Transform);
    if searchQuery.Some? && searchQuery.value != "" {
      var text := searchQuery.value;
      FilterMembership(videos, Search.MatchesText(text), v);
      CollectIsGathered(videos, KeepIf(Search.MatchesText(text)));
      if v in videos {
        var j :| 0 <= j < |videos| && videos[j] == v;
        assert page[j] == rows[j];
      }
      if j :| 0 <= j < |rows| && j < FeedLimit && v == ToVideo(rows[j], false) {
        assert videos[j] == v;
      }
    }
  }

  class HomePage {
    var videos: seq<Video>
    var loading: bool

    constructor()
      ensures videos == [] && loading
    {
      videos := [];
      loading := true;
    }

    /** fetchVideos: on success the feed for the query, on failure the old list; loading
        ends either way. */
    method FetchVideos(searchQuery: Option<string>, response: Result<seq<VideoRow>>)
      modifies this`videos, this`loading
      ensures response.Success? ==> videos == Feed(response.value, searchQuery)
      ensures response.Failure? ==> videos == old(videos)
      ensures !loading
    {
      if response.Success? {
        videos := Feed(response.value, searchQuery);
      }
      loading := false;
    }
  }
}
