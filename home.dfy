/** The homepage: the article bands and the popup-ad layer.

    The popup layer reads two entries of the browser's local storage, modelled
    as the object `BrowserStorage`: a global "hide every popup until" time and
    the map from ad id to the time that ad was last closed. Times are
    milliseconds, passed in as `now`. */
module Home {
  import opened JsLib
  import opened Types

  const DayMs: int := 24 * 60 * 60 * 1000

  // ---------------------------------------------------------------------------
  // Article bands: lead story, secondary features, feed

  /** `articles[0]`, undefined for an empty list. */
  function MainArticle(articles: seq<Article>): (r: Option<Article>)
    ensures r.Some? <==> |articles| > 0
    ensures r.Some? ==> r.value == articles[0]
  {
    if |articles| > 0 then Some(articles[0]) else None
  }

  /** `articles.slice(1, 4)`. */
  function SubArticles(articles: seq<Article>): (r: seq<Article>)
    ensures |r| == if |articles| >= 4 then 3 else if |articles| == 0 then 0 else |articles| - 1
    ensures forall i :: 0 <= i < |r| ==> r[i] == articles[i + 1]
  {
    Slice(articles, 1, 4)
  }

  /** `articles.slice(4)`. */
  function ListArticles(articles: seq<Article>): (r: seq<Article>)
    ensures |r| == if |articles| <= 4 then 0 else |articles| - 4
    ensures forall i :: 0 <= i < |r| ==> r[i] == articles[i + 4]
  {
    Slice(articles, 4, |articles|)
  }

  /** The bands cover the list exactly once, in order, and the secondary band
      holds at most three stories. */
  lemma BandsPartitionArticles(articles: seq<Article>)
    ensures |SubArticles(articles)| <= 3
    ensures |articles| > 0 ==>
      [MainArticle(articles).value] + SubArticles(articles) + ListArticles(articles) == articles
    ensures |articles| == 0 ==>
      MainArticle(articles).None? && SubArticles(articles) == [] && ListArticles(articles) == []
  {
    if |articles| > 0 {
      var n := |articles|;
      var k := Min(4, n);
      assert SubArticles(articles) == articles[1..k];
      assert ListArticles(articles) == articles[k..];
      assert [articles[0]] + articles[1..k] + articles[k..] == articles;
    }
  }

  // ---------------------------------------------------------------------------
  // Popup eligibility

  /** `globalHideUntil && now < parseInt(globalHideUntil)`. */
  predicate GloballyHidden(hideAllUntil: Option<int>, now: int) {
    hideAllUntil.Some? && now < hideAllUntil.value
  }

  /** `closedAt && now < closedAt + 24h`: a missing or zero close time is falsy. */
  predicate ClosedRecently(closed: map<string, int>, id: string, now: int) {
    id in closed && closed[id] != 0 && now < closed[id] + DayMs
  }

  predicate PopupEligible(ad: AdConfig, now: int, closed: map<string, int>) {
    ad.adType == Popup && ad.isVisible && !ClosedRecently(closed, ad.id, now)
  }

  /** The `popupAds` memo: nothing while globally hidden, otherwise the visible
      popup ads not closed in the last 24 hours, in collection order. */
  function PopupAds(ads: seq<AdConfig>, now: int, hideAllUntil: Option<int>, closed: map<string, int>)
    : (r: seq<AdConfig>)
    ensures GloballyHidden(hideAllUntil, now) ==> r == []
    ensures forall i :: 0 <= i < |r| ==>
      r[i] in ads && r[i].adType == Popup && r[i].isVisible && !ClosedRecently(closed, r[i].id, now)
    ensures !GloballyHidden(hideAllUntil, now) ==>
      forall i :: 0 <= i < |ads| && PopupEligible(ads[i], now, closed) ==> ads[i] in r
  {
    if GloballyHidden(hideAllUntil, now) then []
    else Filter(ads, (ad: AdConfig) => PopupEligible(ad, now, closed))
  }

  lemma PopupAdsKeepOrder(ads: seq<AdConfig>, now: int, hideAllUntil: Option<int>, closed: map<string, int>)
    ensures IsSubsequence(PopupAds(ads, now, hideAllUntil, closed), ads)
  {
    if !GloballyHidden(hideAllUntil, now) {
      FilterIsSubsequence(ads, (ad: AdConfig) => PopupEligible(ad, now, closed));
    }
  }

  /** Closing an ad at time `t` (a truthy time) keeps it out of the popup list
      exactly while `now < t + 24h`. */
  lemma ClosedAdReturnsAfterADay(ads: seq<AdConfig>, ad: AdConfig, t: int, now: int,
                                 hideAllUntil: Option<int>, closed: map<string, int>)
    requires ad in ads && ad.adType == Popup && ad.isVisible
    requires t != 0 && !GloballyHidden(hideAllUntil, now)
    ensures ad in PopupAds(ads, now, hideAllUntil, closed[ad.id := t]) <==> t + DayMs <= now
  {
    var r := PopupAds(ads, now, hideAllUntil, closed[ad.id := t]);
    if t + DayMs <= now {
      var i :| 0 <= i < |ads| && ads[i] == ad;
      assert PopupEligible(ads[i], now, closed[ad.id := t]);
    } else {
      assert ClosedRecently(closed[ad.id := t], ad.id, now);
      assert forall i :: 0 <= i < |r| ==> r[i] != ad;
    }
  }

  /** An ad with no recorded close time, or a zero one, is never held back by it. */
  lemma UnclosedAdIsEligible(ads: seq<AdConfig>, ad: AdConfig, now: int,
                             hideAllUntil: Option<int>, closed: map<string, int>)
    requires ad in ads && ad.adType == Popup && ad.isVisible
    requires ad.id !in closed || closed[ad.id] == 0
    requires !GloballyHidden(hideAllUntil, now)
    ensures ad in PopupAds(ads, now, hideAllUntil, closed)
  {
    var i :| 0 <= i < |ads| && ads[i] == ad;
    assert PopupEligible(ads[i], now, closed);
  }

  // ---------------------------------------------------------------------------
  // The popup layer

  /** The two local-storage entries the homepage reads and writes. */
  class BrowserStorage {
    var hideAllUntil: Option<int>
    var closedPopups: map<string, int>

    constructor (hideAllUntil: Option<int>, closedPopups: map<string, int>)
      ensures this.hideAllUntil == hideAllUntil && this.closedPopups == closedPopups
    {
      this.hideAllUntil := hideAllUntil;
      this.closedPopups := closedPopups;
    }
  }

  /** The homepage's popup state: which eligible popup is showing, and whether
      the layer is open. `popupAds` is computed once, when the page mounts. */
  class PopupLayer {
    const storage: BrowserStorage
    /** The store's ads when the page mounted. */
    const ads: seq<AdConfig>
    const popupAds: seq<AdConfig>
    var showPopup: bool
    var currentPopupIdx: nat
    var hideWeekChecked: bool

    /** Every listed popup is a visible popup ad of the mounted ads, and the
        index never runs past the last of them. */
    predicate Valid()
      reads this
    {
      && (forall i :: 0 <= i < |popupAds| ==>
            popupAds[i] in ads && popupAds[i].adType == Popup && popupAds[i].isVisible)
      && (|popupAds| == 0 || currentPopupIdx < |popupAds|)
    }

    /** Mounting: compute `popupAds`, then the effect opens the layer when it is non-empty. */
    constructor Mount(ads: seq<AdConfig>, storage: BrowserStorage, now: int)
      ensures this.storage == storage && this.ads == ads
      ensures popupAds == PopupAds(ads, now, storage.hideAllUntil, storage.closedPopups)
      ensures showPopup == (|popupAds| > 0)
      ensures currentPopupIdx == 0 && !hideWeekChecked
      ensures Valid()
    {
      this.storage := storage;
      this.ads := ads;
      popupAds := PopupAds(ads, now, storage.hideAllUntil, storage.closedPopups);
      currentPopupIdx := 0;
      hideWeekChecked := false;
      showPopup := |PopupAds(ads, now, storage.hideAllUntil, storage.closedPopups)| > 0;
    }

    /** The layer is drawn only when it is open and the index names an
        eligible ad: then the ad it shows is a visible popup of the mounted ads. */
    predicate LayerShown()
      reads this
      ensures LayerShown() ==> currentPopupIdx < |popupAds| && (Valid() ==>
        var shown := popupAds[currentPopupIdx];
        shown in ads && shown.adType == Popup && shown.isVisible)
    {
      showPopup && currentPopupIdx < |popupAds|
    }

    /** The "hide for a week" checkbox. `weekLater` is the local-calendar time
        seven days from now. Unchecking only clears the box. */
    method HandleHideWeekChange(checked: bool, weekLater: int)
      requires Valid()
      modifies this, storage
      ensures Valid()
      ensures hideWeekChecked == checked
      ensures checked ==> storage.hideAllUntil == Some(weekLater) && !showPopup
      ensures !checked ==> storage.hideAllUntil == old(storage.hideAllUntil) && showPopup == old(showPopup)
      ensures currentPopupIdx == old(currentPopupIdx)
      ensures storage.closedPopups == old(storage.closedPopups)
    {
      if checked {
        storage.hideAllUntil := Some(weekLater);
        showPopup := false;
      }
      hideWeekChecked := checked;
    }

    /** Closing the current popup records `now` as its close time, then moves
        to the next eligible popup or closes the layer after the last one. */
    method HandleCloseSinglePopup(now: int)
      requires Valid()
      modifies this, storage
      ensures Valid()
      ensures old(currentPopupIdx) < |popupAds| ==>
        storage.closedPopups == old(storage.closedPopups)[popupAds[old(currentPopupIdx)].id := now]
      ensures old(currentPopupIdx) >= |popupAds| ==> storage.closedPopups == old(storage.closedPopups)
      ensures old(currentPopupIdx) < |popupAds| - 1 ==>
        currentPopupIdx == old(currentPopupIdx) + 1 && showPopup == old(showPopup)
      ensures old(currentPopupIdx) >= |popupAds| - 1 ==>
        currentPopupIdx == old(currentPopupIdx) && !showPopup
      ensures hideWeekChecked == old(hideWeekChecked)
      ensures storage.hideAllUntil == old(storage.hideAllUntil)
    {
      if currentPopupIdx < |popupAds| {
        var currentPopup := popupAds[currentPopupIdx];
        storage.closedPopups := storage.closedPopups[currentPopup.id := now];
      }
      if currentPopupIdx < |popupAds| - 1 {
        currentPopupIdx := currentPopupIdx + 1;
      } else {
        showPopup := false;
      }
    }
  }
}
