/** The category page: the articles of one category, or of every category
    for the "latest" entry, each with its cover image and excerpt. */
module CategoryPage {
  import opened JsLib
  import opened Types
  import opened Store

  /** The test `a => a.category === categoryName`. */
  function InCategory(name: string): Article -> bool {
    (a: Article) => a.category == name
  }

  /** `filteredArticles`: the whole list for the "latest" entry, otherwise the
      articles whose category is exactly `name`, in collection order. */
  function FilteredArticles(articles: seq<Article>, name: string): (r: seq<Article>)
    ensures name == LatestCategory ==> r == articles
    ensures name != LatestCategory ==> forall i :: 0 <= i < |r| ==> r[i] in articles && r[i].category == name
    ensures name != LatestCategory ==>
      forall i :: 0 <= i < |articles| && articles[i].category == name ==> articles[i] in r
  {
    if name == LatestCategory then articles else Filter(articles, InCategory(name))
  }

  lemma FilteredArticlesKeepOrder(articles: seq<Article>, name: string)
    ensures IsSubsequence(FilteredArticles(articles, name), articles)
  {
    if name != LatestCategory {
      FilterIsSubsequence(articles, InCategory(name));
    } else {
      SubsequenceOfItself(articles);
    }
  }

  /** The empty-category message: shown when the filtered list is empty. */
  predicate ShowsEmptyMessage(articles: seq<Article>, name: string)
    ensures ShowsEmptyMessage(articles, name) && name == LatestCategory ==> articles == []
    ensures ShowsEmptyMessage(articles, name) && name != LatestCategory ==>
      forall i :: 0 <= i < |articles| ==> articles[i].category != name
  {
    |FilteredArticles(articles, name)| == 0
  }

  /** The message appears exactly when no article is listed under the name
      (for "latest": when there are no articles at all). */
  lemma EmptyMessageIffNoArticle(articles: seq<Article>, name: string)
    ensures name == LatestCategory ==> (ShowsEmptyMessage(articles, name) <==> articles == [])
    ensures name != LatestCategory ==>
      (ShowsEmptyMessage(articles, name) <==> forall i :: 0 <= i < |articles| ==> articles[i].category != name)
  {
    if name != LatestCategory && !ShowsEmptyMessage(articles, name) {
      var r := FilteredArticles(articles, name);
      assert r[0] in articles && r[0].category == name;
    }
  }
}
