/** The application store (`AppProvider`): every collection of the site, held
    in memory, with the mutators the context exposes. `reporters` has no setter
    and is a constant here. */
module Store {
  import opened JsLib
  import opened Types

  /** The category name that means "every article". */
  const LatestCategory: string := "최신기사"

  const SeedNavCategories: seq<string> := ["오피니언", "최신기사", "기술", "경영", "사회", "문화"]

  const SeedArticles: seq<Article> := [
    Article("1", "한국프로세스혁신협회, 차세대 디지털 전환 로드맵 발표", "기술",
      "한국프로세스혁신협회는 오늘 서울에서 열린 세미나에서 국내 기업들의 글로벌 경쟁력 강화를 위한 2025 디지털 전환 로드맵을 발표했습니다. 이번 로드맵은 AI와 클라우드 프로세스를 중심으로...",
      "https://picsum.photos/seed/tech1/800/500", "2024-05-20 09:00", "2024-05-20 14:30", "rep1"),
    Article("2", "경영 효율성 극대화를 위한 스마트 오피스 도입 현황", "경영",
      "대기업들을 중심으로 불고 있는 스마트 오피스 열풍은 단순한 공간 변화를 넘어 업무 프로세스의 근본적인 혁신을 요구하고 있습니다. 최근 조사에 따르면 스마트 오피스 도입 후 업무 만족도가...",
      "https://picsum.photos/seed/biz1/800/500", "2024-05-19 10:20", "2024-05-19 11:00", "rep2")
  ]

  const SeedVideoUrl: string := "https://www.youtube.com/watch?v=dQw4w9WgXcQ"

  const SeedVideos: seq<Video> := [
    Video("v1", "이노뉴스 창간 기념 대담 - 미래의 프로세스",
      "이노뉴스 창간을 기념하여 국내 최고의 전문가들과 함께 미래 프로세스 혁신에 대해 이야기 나누었습니다. 자세한 내용은 공식 홈페이지 https://innonews.co.kr 에서 확인하세요.",
      SeedVideoUrl, DefaultThumbnail, "", "")
  ]

  const SeedAds: seq<AdConfig> := [
    AdConfig("ad-side-1", Sidebar, "https://picsum.photos/seed/ad1/160/600", "https://askinno.com", true),
    AdConfig("ad-top-1", Top, "https://picsum.photos/seed/ad2/728/90", "https://www.google.com", true),
    AdConfig("ad-pop-1", Popup, "https://i.pinimg.com/736x/23/72/7d/23727dffcc8b9ab9f954992d13c6eeb6.jpg", "#", true),
    AdConfig("ad-pop-2", Popup, "https://picsum.photos/seed/pop2/500/500", "#", true)
  ]

  const SeedReporters: seq<Reporter> := [
    Reporter("rep1", "김이노", "기술과학부 전문기자", "https://picsum.photos/seed/p1/100/100", ""),
    Reporter("rep2", "이혁신", "경영혁신부 기자", "https://picsum.photos/seed/p2/100/100", "")
  ]

  /** Everything the store's mutators can change, as one value. */
  datatype Snapshot = Snapshot(
    articles: seq<Article>,
    videos: seq<Video>,
    ads: seq<AdConfig>,
    reports: seq<Report>,
    navCategories: seq<string>,
    isAdmin: bool,
    adminPassword: string)

  /** The test `v => v.id !== id`. */
  function OtherThan(id: string): Video -> bool {
    (v: Video) => v.id != id
  }

  /** `prev.filter(v => v.id !== id)`. */
  function WithoutVideo(videos: seq<Video>, id: string): (r: seq<Video>)
    ensures forall i :: 0 <= i < |r| ==> r[i] in videos && r[i].id != id
    ensures forall i :: 0 <= i < |videos| && videos[i].id != id ==> videos[i] in r
  {
    Filter(videos, OtherThan(id))
  }

  /** Deleting keeps every copy of a video with another id and drops every
      copy of one with the id. */
  lemma WithoutVideoCounts(videos: seq<Video>, id: string, v: Video)
    ensures multiset(WithoutVideo(videos, id))[v] == if v.id != id then multiset(videos)[v] else 0
  {
    FilterMultiplicity(videos, OtherThan(id), v);
  }

  /** Deleting keeps the surviving videos in their original order. */
  lemma WithoutVideoKeepsOrder(videos: seq<Video>, id: string)
    ensures IsSubsequence(WithoutVideo(videos, id), videos)
  {
    FilterIsSubsequence(videos, OtherThan(id));
  }

  /** Deleting the same id twice is deleting it once. */
  lemma WithoutVideoIdempotent(videos: seq<Video>, id: string)
    ensures WithoutVideo(WithoutVideo(videos, id), id) == WithoutVideo(videos, id)
  {
    FilterIdempotent(videos, OtherThan(id));
  }

  class AppStore {
    var articles: seq<Article>
    var videos: seq<Video>
    var ads: seq<AdConfig>
    const reporters: seq<Reporter>
    var reports: seq<Report>
    var navCategories: seq<string>
    var isAdmin: bool
    var adminPassword: string

    function State(): Snapshot
      reads this
    {
      Snapshot(articles, videos, ads, reports, navCategories, isAdmin, adminPassword)
    }

    /** The provider's initial state. */
    constructor ()
      ensures State() == Snapshot(SeedArticles, SeedVideos, SeedAds, [], SeedNavCategories, false, "pw")
      ensures reporters == SeedReporters
      ensures LatestCategory in navCategories
    {
      articles := SeedArticles;
      videos := SeedVideos;
      ads := SeedAds;
      reporters := SeedReporters;
      reports := [];
      navCategories := SeedNavCategories;
      isAdmin := false;
      adminPassword := "pw";
    }

    method SetAdmin(val: bool)
      modifies this
      ensures State() == old(State()).(isAdmin := val)
    {
      isAdmin := val;
    }

    method UpdateAdminPassword(newPw: string)
      modifies this
      ensures State() == old(State()).(adminPassword := newPw)
    {
      adminPassword := newPw;
    }

    method UpdateNavCategories(newCats: seq<string>)
      modifies this
      ensures State() == old(State()).(navCategories := newCats)
    {
      navCategories := newCats;
    }

    /** New articles go first: the new lead story. */
    method AddArticle(article: Article)
      modifies this
      ensures |articles| == |old(articles)| + 1 && articles[0] == article && articles[1..] == old(articles)
      ensures State() == old(State()).(articles := [article] + old(articles))
    {
      articles := [article] + articles;
    }

    /** Reports are only ever prepended; no mutator removes or alters one. */
    method AddReport(report: Report)
      modifies this
      ensures |reports| == |old(reports)| + 1 && reports[0] == report && reports[1..] == old(reports)
      ensures State() == old(State()).(reports := [report] + old(reports))
    {
      reports := [report] + reports;
    }

    method UpdateAds(newAds: seq<AdConfig>)
      modifies this
      ensures State() == old(State()).(ads := newAds)
    {
      ads := newAds;
    }

    method UpdateVideos(newVideos: seq<Video>)
      modifies this
      ensures State() == old(State()).(videos := newVideos)
    {
      videos := newVideos;
    }

    method AddVideo(video: Video)
      modifies this
      ensures |videos| == |old(videos)| + 1
      ensures videos[0] == video && videos[1..] == old(videos)
      ensures State() == old(State()).(videos := [video] + old(videos))
    {
      videos := [video] + videos;
    }

    method DeleteVideo(id: string)
      modifies this
      ensures forall i :: 0 <= i < |videos| ==> videos[i].id != id
      ensures IsSubsequence(videos, old(videos))
      ensures State() == old(State()).(videos := WithoutVideo(old(videos), id))
    {
      WithoutVideoKeepsOrder(videos, id);
      videos := WithoutVideo(videos, id);
    }
  }
}
