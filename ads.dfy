/** The sidebar and top banner slots: each shows one visible ad of its type,
    picked with `Math.random()`, passed in here as `random`. */
module Ads {
  import opened JsLib
  import opened Types

  function VisibleOfType(t: AdType): AdConfig -> bool {
    (ad: AdConfig) => ad.adType == t && ad.isVisible
  }

  /** `ads.filter(ad => ad.type === t && ad.isVisible)`. */
  function Candidates(ads: seq<AdConfig>, t: AdType): (r: seq<AdConfig>)
    ensures forall i :: 0 <= i < |r| ==> r[i] in ads && r[i].adType == t && r[i].isVisible
    ensures forall i :: 0 <= i < |ads| && ads[i].adType == t && ads[i].isVisible ==> ads[i] in r
  {
    Filter(ads, VisibleOfType(t))
  }

  lemma CandidatesKeepOrder(ads: seq<AdConfig>, t: AdType)
    ensures IsSubsequence(Candidates(ads, t), ads)
  {
    FilterIsSubsequence(ads, VisibleOfType(t));
  }

  /** `SidebarAd`'s list: the visible sidebar ads. */
  function SidebarCandidates(ads: seq<AdConfig>): (r: seq<AdConfig>)
    ensures forall i :: 0 <= i < |r| ==> r[i] in ads && r[i].adType == Sidebar && r[i].isVisible
    ensures forall i :: 0 <= i < |ads| && ads[i].adType == Sidebar && ads[i].isVisible ==> ads[i] in r
  {
    Candidates(ads, Sidebar)
  }

  /** `TopAd`'s list: the visible top banners. */
  function TopCandidates(ads: seq<AdConfig>): (r: seq<AdConfig>)
    ensures forall i :: 0 <= i < |r| ==> r[i] in ads && r[i].adType == Top && r[i].isVisible
    ensures forall i :: 0 <= i < |ads| && ads[i].adType == Top && ads[i].isVisible ==> ads[i] in r
  {
    Candidates(ads, Top)
  }

  /** No ad is a candidate of both slots. */
  lemma SlotsDisjoint(ads: seq<AdConfig>)
    ensures forall i :: 0 <= i < |SidebarCandidates(ads)| ==> SidebarCandidates(ads)[i] !in TopCandidates(ads)
  {
  }

  /** `Math.floor(random * n)` for `random` in [0, 1) lands in [0, n). */
  lemma ScaledIndexInRange(random: real, n: nat)
    requires 0.0 <= random < 1.0 && n > 0
    ensures 0 <= (random * n as real).Floor < n
  {
    assert random * n as real < n as real by {
      assert (1.0 - random) * n as real > 0.0;
    }
    assert random * n as real >= 0.0;
  }

  /** The ad a slot shows: none without candidates, otherwise the candidate at
      the scaled random index. */
  function ChooseAd(candidates: seq<AdConfig>, random: real): (r: Option<AdConfig>)
    requires 0.0 <= random < 1.0
    ensures r.None? <==> candidates == []
    ensures r.Some? ==> r.value in candidates
  {
    if |candidates| == 0 then None
    else
      ScaledIndexInRange(random, |candidates|);
      Some(candidates[(random * |candidates| as real).Floor])
  }

  /** The shown ad is always a visible ad of the slot's type. */
  lemma ShownAdFitsSlot(ads: seq<AdConfig>, t: AdType, random: real)
    requires 0.0 <= random < 1.0
    ensures ChooseAd(Candidates(ads, t), random).Some? ==>
      var ad := ChooseAd(Candidates(ads, t), random).value;
      ad in ads && ad.adType == t && ad.isVisible
  {
  }
}
