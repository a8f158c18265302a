/** The search results page (src/pages/Search.tsx): the query taken from the `q`
    parameter, and a case-insensitive substring filter over every video. */
module Search {
  import opened Wrappers
  import opened Seqs
  import opened Text
  import opened Types

  /** `searchParams.get('q') || ''`. */
  function QueryOf(q: Option<string>): (query: string)
    ensures q.Some? ==> query == q.value
    ensures q.None? ==> query == ""
  {
    OrElse(q, "")
  }

  /** The filter callback: the lower-cased query occurs in the lower-cased title,
      description, or display name (`|| ''` when absent). */
  predicate Matches(v: Video, text: string) {
    var needle := Lower(text);
    Contains(Lower(v.title), needle)
    || Contains(Lower(v.description), needle)
    || Contains(Lower(OrElse(v.user_display_name, "")), needle)
  }

  function MatchesText(text: string): Video -> bool {
    (v: Video) => Matches(v, text)
  }

  function Transform(r: VideoRow): Video {
    ToVideo(r, false)
  }

  /** The list `searchVideos` stores: every row transformed, then filtered. */
  function SearchResults(rows: seq<VideoRow>, text: string): seq<Video> {
    Filter(Map(rows, Transform), MatchesText(text))
  }

  /** A video is in the results exactly when it is the transform of a fetched row and the
      lower-cased query occurs in one of its three fields; the results keep the fetched
      order and never exceed the fetched count. */
  lemma SearchResultsMeaning(rows: seq<VideoRow>, text: string, v: Video)
    ensures v in SearchResults(rows, text) <==>
              (exists j :: 0 <= j < |rows| && v == ToVideo(rows[j], false)) && Matches(v, text)
    ensures IsGathered(SearchResults(rows, text), Map(rows, Transform), KeepIf(MatchesText(text)))
    ensures |SearchResults(rows, text)| <= |rows|
  {
    FilterMembership(Map(rows, Transform), MatchesText(text), v);
    CollectIsGathered(Map(rows, Transform), KeepIf(MatchesText(text)));
    if v in Map(rows, Transform) {
      var j :| 0 <= j < |rows| && Map(rows, Transform)[j] == v;
      assert v == ToVideo(rows[j], false);
    }
  }

  /** A match is found in lower case on both sides, so the case of the query does not matter. */
  lemma MatchesIgnoresCase(v: Video, text: string)
    ensures Matches(v, text) == Matches(v, Lower(text))
  {
    LowerIdempotent(text);
  }

  /** A video whose author has no display name is shown as "Usuário" before filtering,
      so a query that occurs in that name finds it. */
  lemma MissingNameCanMatch(rows: seq<VideoRow>, j: int, text: string)
    requires 0 <= j < |rows| && JoinedName(rows[j]).None?
    requires Contains(Lower(DefaultDisplayName), Lower(text))
    ensures ToVideo(rows[j], false) in SearchResults(rows, text)
  {
    SearchResultsMeaning(rows, text, ToVideo(rows[j], false));
  }

  /** The empty query matches every video (the page never runs it, see SearchPage.Run). */
  lemma EmptyQueryMatchesAll(v: Video)
    ensures Matches(v, "")
  {
    ContainsEmpty(Lower(v.title));
  }

  class SearchPage {
    var videos: seq<Video>
    var loading: bool
    var query: string

    /** The page reads its query once from the location. */
    constructor(q: Option<string>)
      ensures videos == [] && loading && query == QueryOf(q)
    {
      videos := [];
      loading := true;
      query := QueryOf(q);
    }

    /** The effect: with an empty query nothing runs and the page keeps loading; otherwise
        `searchVideos` stores the results on success, keeps the list on failure, and ends
        loading either way. */
    method Run(response: Result<seq<VideoRow>>)
      modifies this`videos, this`loading
      ensures query == "" ==> videos == old(videos) && loading == old(loading)
      ensures query != "" && response.Success? ==> videos == SearchResults(response.value, query)
      ensures query != "" && response.Failure? ==> videos == old(videos)
      ensures query != "" ==> !loading
    {
      if query != "" {
        SearchVideos(query, response);
      }
    }

    /** searchVideos. */
    method SearchVideos(text: string, response: Result<seq<VideoRow>>)
      modifies this`videos, this`loading
      ensures response.Success? ==> videos == SearchResults(response.value, text)
      ensures response.Failure? ==> videos == old(videos)
      ensures !loading
    {
      if response.Success? {
        videos := SearchResults(response.value, text);
      }
      loading := false;
    }
  }
}
