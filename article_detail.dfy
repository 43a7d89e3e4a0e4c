/** The article page: the article with the id from the route, its cover
    image, its body with the inline images, and the reporter's card. An
    unknown id sends the reader back to the homepage. */
module ArticleDetail {
  import opened JsLib
  import opened Types
  import opened ArticleText

  const FallbackEmail: string := "process@innonews.co.kr"

  function HasId(id: string): Article -> bool {
    (a: Article) => a.id == id
  }

  function IsReporter(id: string): Reporter -> bool {
    (r: Reporter) => r.id == id
  }

  /** `articles.find(a => a.id === id)`. */
  function FindArticle(articles: seq<Article>, id: string): (r: Option<Article>)
    ensures r.None? <==> forall i :: 0 <= i < |articles| ==> articles[i].id != id
    ensures r.Some? ==> r.value in articles && r.value.id == id
  {
    FindFirst(articles, HasId(id))
  }

  /** Of several articles with the same id, the first one is shown. */
  lemma FindArticleFirst(articles: seq<Article>, id: string)
    requires FindArticle(articles, id).Some?
    ensures exists k :: (0 <= k < |articles| && articles[k] == FindArticle(articles, id).value
                         && forall j :: 0 <= j < k ==> articles[j].id != id)
  {
    FindFirstIsFirst(articles, HasId(id));
  }

  /** The e-mail line of the reporter card. */
  function ShownEmail(r: Reporter): (email: string)
    ensures email != ""
    ensures r.email != "" ==> email == r.email
    ensures r.email == "" ==> email == FallbackEmail
  {
    if r.email != "" then r.email else FallbackEmail
  }

  datatype Byline =
    | ReporterCard(photo: string, name: string, role: string, email: string)
    | ReporterUnavailable

  /** The reporter section: the card of the article's reporter, or the
      "기자 정보를 불러올 수 없습니다." message when no reporter has that id. */
  function ArticleByline(reporters: seq<Reporter>, reporterId: string): (b: Byline)
    ensures b.ReporterUnavailable? <==> forall i :: 0 <= i < |reporters| ==> reporters[i].id != reporterId
    ensures b.ReporterCard? ==> exists i :: (0 <= i < |reporters| && reporters[i].id == reporterId
      && b == ReporterCard(reporters[i].photo, reporters[i].name, reporters[i].role, ShownEmail(reporters[i])))
  {
    match FindFirst(reporters, IsReporter(reporterId))
    case None => ReporterUnavailable
    case Some(r) =>
      ReporterCard(r.photo, r.name, r.role, ShownEmail(r))
  }

  /** Of several reporters with the same id, the card shows the first. */
  lemma ArticleBylineFirst(reporters: seq<Reporter>, reporterId: string)
    requires ArticleByline(reporters, reporterId).ReporterCard?
    ensures exists k :: (0 <= k < |reporters| && reporters[k].id == reporterId
      && (forall j :: 0 <= j < k ==> reporters[j].id != reporterId)
      && ArticleByline(reporters, reporterId)
         == ReporterCard(reporters[k].photo, reporters[k].name, reporters[k].role, ShownEmail(reporters[k])))
  {
    FindFirstIsFirst(reporters, IsReporter(reporterId));
  }

  /** `article.image && article.image.trim() !== ''`: the cover is drawn only
      for an image URL with a non-space character. */
  function CoverImage(article: Article): (cover: Option<string>)
    ensures cover.Some? <==> !AllSpace(article.image)
    ensures cover.Some? ==> cover.value == article.image
  {
    TrimEmptyIffBlank(article.image);
    if article.image != "" && Trim(article.image) != "" then Some(article.image) else None
  }

  datatype DetailView =
    | Redirect(target: string)
    | ArticleView(article: Article, cover: Option<string>, body: seq<Segment>, byline: Byline)

  /** The page for route id `id`. */
  function DetailPage(articles: seq<Article>, reporters: seq<Reporter>, id: string): (v: DetailView)
    ensures v.Redirect? <==> forall i :: 0 <= i < |articles| ==> articles[i].id != id
    ensures v.Redirect? ==> v.target == "/"
    ensures v.ArticleView? ==> v.article in articles && v.article.id == id
    ensures v.ArticleView? ==>
      && v.cover == CoverImage(v.article)
      && v.body == RenderContent(v.article.content)
      && v.byline == ArticleByline(reporters, v.article.reporterId)
  {
    match FindArticle(articles, id)
    case None => Redirect("/")
    case Some(a) => ArticleView(a, CoverImage(a), RenderContent(a.content), ArticleByline(reporters, a.reporterId))
  }
}
