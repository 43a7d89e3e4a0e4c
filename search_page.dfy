/** The search page: the articles and videos whose text contains the query,
    ignoring case. */
module SearchPage {
  import opened JsLib
  import opened Types
  import opened YouTube

  /** `new URLSearchParams(location.search).get('q') || ''`. */
  function Query(q: Option<string>): (query: string)
    ensures q.None? ==> query == ""
    ensures q.Some? ==> query == q.value
  {
    q.GetOr("")
  }

  /** `field.toLowerCase().includes(query.toLowerCase())`. */
  predicate Mentions(field: string, query: string) {
    Contains(Lower(field), Lower(query))
  }

  predicate ArticleMatches(a: Article, query: string) {
    Mentions(a.title, query) || Mentions(a.content, query)
  }

  /** A missing (empty) description is falsy and matches nothing. */
  predicate VideoMatches(v: Video, query: string) {
    Mentions(v.title, query) || (v.description != "" && Mentions(v.description, query))
  }

  function ArticleTest(query: string): Article -> bool {
    (a: Article) => ArticleMatches(a, query)
  }

  function VideoTest(query: string): Video -> bool {
    (v: Video) => VideoMatches(v, query)
  }

  /** `searchResults`. */
  function SearchResults(articles: seq<Article>, query: string): (r: seq<Article>)
    ensures forall i :: 0 <= i < |r| ==> r[i] in articles && ArticleMatches(r[i], query)
    ensures forall i :: 0 <= i < |articles| && ArticleMatches(articles[i], query) ==> articles[i] in r
  {
    Filter(articles, ArticleTest(query))
  }

  /** `searchVideos`. */
  function SearchVideos(videos: seq<Video>, query: string): (r: seq<Video>)
    ensures forall i :: 0 <= i < |r| ==> r[i] in videos && VideoMatches(r[i], query)
    ensures forall i :: 0 <= i < |videos| && VideoMatches(videos[i], query) ==> videos[i] in r
  {
    Filter(videos, VideoTest(query))
  }

  /** Both result lists keep the collection order. */
  lemma ResultsKeepOrder(articles: seq<Article>, videos: seq<Video>, query: string)
    ensures IsSubsequence(SearchResults(articles, query), articles)
    ensures IsSubsequence(SearchVideos(videos, query), videos)
  {
    FilterIsSubsequence(articles, ArticleTest(query));
    FilterIsSubsequence(videos, VideoTest(query));
  }

  /** An empty query, the default when `q` is absent, matches everything. */
  lemma EmptyQueryMatchesAll(articles: seq<Article>, videos: seq<Video>)
    ensures SearchResults(articles, Query(None)) == articles
    ensures SearchVideos(videos, Query(None)) == videos
  {
    forall a: Article ensures ArticleMatches(a, "") {
      ContainsEmpty(Lower(a.title));
    }
    forall v: Video ensures VideoMatches(v, "") {
      ContainsEmpty(Lower(v.title));
    }
    FilterKeepsAll(articles, ArticleTest(""));
    FilterKeepsAll(videos, VideoTest(""));
  }

  /** The case of the query does not matter. */
  lemma QueryCaseIgnored(articles: seq<Article>, videos: seq<Video>, query: string)
    ensures SearchResults(articles, Lower(query)) == SearchResults(articles, query)
    ensures SearchVideos(videos, Lower(query)) == SearchVideos(videos, query)
  {
    LowerIdempotent(query);
    FilterSameTest(articles, ArticleTest(Lower(query)), ArticleTest(query));
    FilterSameTest(videos, VideoTest(Lower(query)), VideoTest(query));
  }

  /** The "no results" block: both lists are empty. */
  predicate NoResults(articles: seq<Article>, videos: seq<Video>, query: string)
    ensures NoResults(articles, videos, query) ==>
      (forall i :: 0 <= i < |articles| ==> !ArticleMatches(articles[i], query))
      && (forall i :: 0 <= i < |videos| ==> !VideoMatches(videos[i], query))
  {
    |SearchResults(articles, query)| == 0 && |SearchVideos(videos, query)| == 0
  }

  /** The block appears exactly when no article and no video matches. */
  lemma NoResultsIffNothingMatches(articles: seq<Article>, videos: seq<Video>, query: string)
    ensures NoResults(articles, videos, query) <==>
      (forall i :: 0 <= i < |articles| ==> !ArticleMatches(articles[i], query))
      && (forall i :: 0 <= i < |videos| ==> !VideoMatches(videos[i], query))
  {
    var ra := SearchResults(articles, query);
    var rv := SearchVideos(videos, query);
    if |ra| > 0 {
      assert ra[0] in articles && ArticleMatches(ra[0], query);
    }
    if |rv| > 0 {
      assert rv[0] in videos && VideoMatches(rv[0], query);
    }
  }

  /** The thumbnail of a video result, built from the search page's own id
      pattern. */
  function VideoThumbnail(v: Video): (url: string)
    ensures YoutubeId(SearchPageRegex, v.youtubeUrl).None? ==>
      url == "https://img.youtube.com/vi/null/hqdefault.jpg"
    ensures YoutubeId(SearchPageRegex, v.youtubeUrl).Some? ==>
      url == "https://img.youtube.com/vi/" + YoutubeId(SearchPageRegex, v.youtubeUrl).value + "/hqdefault.jpg"
  {
    "https://img.youtube.com/vi/" + IdText(YoutubeId(SearchPageRegex, v.youtubeUrl)) + "/hqdefault.jpg"
  }
}
