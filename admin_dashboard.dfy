/** The administrator's dashboard: publishing articles, managing the ads of
    each slot (at most five per type), changing the password and editing the
    navigation menu. The list edits are pure functions over the store's
    collections; the handlers commit them to the store and reset the forms. */
module AdminDashboard {
  import opened JsLib
  import opened Types
  import opened Store

  // ---------------------------------------------------------------------------
  // Ads

  /** The most ads one type may hold. */
  const MaxAdsPerType: nat := 5

  /** `Partial<AdConfig>`: the ad being edited in the modal. */
  datatype AdDraft = AdDraft(
    id: Option<string>,
    adType: Option<AdType>,
    imageUrl: Option<string>,
    linkUrl: Option<string>,
    isVisible: Option<bool>)

  /** "광고 추가": a draft with only the active type and `isVisible` set. */
  function NewAdDraft(tab: AdType): AdDraft {
    AdDraft(None, Some(tab), None, None, Some(true))
  }

  /** The edit button loads the whole ad. */
  function DraftOfAd(ad: AdConfig): AdDraft {
    AdDraft(Some(ad.id), Some(ad.adType), Some(ad.imageUrl), Some(ad.linkUrl), Some(ad.isVisible))
  }

  /** The save gate: a draft with a truthy image URL and a truthy link. */
  predicate ValidAdDraft(editing: Option<AdDraft>)
    ensures ValidAdDraft(editing) ==> (editing.Some? &&
      forall ad :: MergeAd(ad, editing.value).imageUrl != "" && MergeAd(ad, editing.value).linkUrl != "")
    ensures ValidAdDraft(editing) ==> (editing.Some? &&
      forall id, tab :: NewAd(id, tab, editing.value).imageUrl != "" && NewAd(id, tab, editing.value).linkUrl != "")
  {
    editing.Some? && Truthy(editing.value.imageUrl) && Truthy(editing.value.linkUrl)
  }

  /** `{ ...ad, ...editingAd }`: every field the draft holds overrides the ad's. */
  function MergeAd(ad: AdConfig, d: AdDraft): (r: AdConfig)
    ensures Spread(d.id, ad.id, r.id)
    ensures Spread(d.adType, ad.adType, r.adType)
    ensures Spread(d.imageUrl, ad.imageUrl, r.imageUrl)
    ensures Spread(d.linkUrl, ad.linkUrl, r.linkUrl)
    ensures Spread(d.isVisible, ad.isVisible, r.isVisible)
  {
    AdConfig(d.id.GetOr(ad.id), d.adType.GetOr(ad.adType), d.imageUrl.GetOr(ad.imageUrl),
      d.linkUrl.GetOr(ad.linkUrl), d.isVisible.GetOr(ad.isVisible))
  }

  /** `ads.map(ad => ad.id === id ? { ...ad, ...draft } : ad)`. */
  function EditAds(ads: seq<AdConfig>, id: string, d: AdDraft): (r: seq<AdConfig>)
    ensures |r| == |ads|
    ensures forall i :: 0 <= i < |r| && ads[i].id != id ==> r[i] == ads[i]
    ensures forall i :: 0 <= i < |r| && ads[i].id == id ==> r[i] == MergeAd(ads[i], d)
  {
    seq(|ads|, i requires 0 <= i < |ads| => if ads[i].id == id then MergeAd(ads[i], d) else ads[i])
  }

  /** An edit whose draft carries the edited id keeps every id, and with it
      every ad's place in the list. */
  lemma EditAdsKeepsIds(ads: seq<AdConfig>, d: AdDraft)
    requires d.id.Some?
    ensures forall i :: 0 <= i < |ads| ==> EditAds(ads, d.id.value, d)[i].id == ads[i].id
  {
  }

  function OfType(t: AdType): AdConfig -> bool {
    (ad: AdConfig) => ad.adType == t
  }

  /** `ads.filter(ad => ad.type === t).length`. */
  function CountOfType(ads: seq<AdConfig>, t: AdType): (n: nat)
    ensures n <= |ads|
  {
    |Filter(ads, OfType(t))|
  }

  /** Appending one ad adds one to its own type's count and leaves the other
      types' counts alone. */
  lemma CountAfterAppend(ads: seq<AdConfig>, ad: AdConfig, t: AdType)
    ensures CountOfType(ads + [ad], t) == CountOfType(ads, t) + (if ad.adType == t then 1 else 0)
  {
    FilterAppend(ads, ad, OfType(t));
  }

  /** The ad the add path appends: a fresh id, the active type, the draft's
      URLs and `isVisible` true. */
  function NewAd(freshId: string, tab: AdType, d: AdDraft): (ad: AdConfig)
    ensures ad.id == freshId && ad.adType == tab && ad.isVisible
    ensures Truthy(d.imageUrl) ==> ad.imageUrl == d.imageUrl.value
    ensures Truthy(d.linkUrl) ==> ad.linkUrl == d.linkUrl.value
  {
    AdConfig(freshId, tab, d.imageUrl.GetOr(""), d.linkUrl.GetOr(""), true)
  }

  datatype SaveAdOutcome =
    | MissingFields
    | TypeFull
    | SavedAds(ads: seq<AdConfig>)

  /** `handleSaveAd`'s decision: refuse a draft without both URLs; with a
      truthy id, edit that ad; otherwise append a new ad of the active type,
      unless that type already holds five. */
  function SaveAd(ads: seq<AdConfig>, editing: Option<AdDraft>, tab: AdType, freshId: string)
    : (r: SaveAdOutcome)
    ensures r.MissingFields? <==> !ValidAdDraft(editing)
    ensures r.TypeFull? <==>
      ValidAdDraft(editing) && !Truthy(editing.value.id) && CountOfType(ads, tab) >= MaxAdsPerType
    ensures r.SavedAds? && Truthy(editing.value.id) ==> r.ads == EditAds(ads, editing.value.id.value, editing.value)
    ensures r.SavedAds? && !Truthy(editing.value.id) ==> r.ads == ads + [NewAd(freshId, tab, editing.value)]
  {
    if !ValidAdDraft(editing) then MissingFields
    else if Truthy(editing.value.id) then SavedAds(EditAds(ads, editing.value.id.value, editing.value))
    else if CountOfType(ads, tab) >= MaxAdsPerType then TypeFull
    else SavedAds(ads + [NewAd(freshId, tab, editing.value)])
  }

  /** The add path never takes a type past five ads: it appends exactly one
      ad, of the active type, visible, and only below the cap. */
  lemma SaveAdRespectsCap(ads: seq<AdConfig>, editing: Option<AdDraft>, tab: AdType, freshId: string)
    requires SaveAd(ads, editing, tab, freshId).SavedAds?
    requires !Truthy(editing.value.id)
    ensures var r := SaveAd(ads, editing, tab, freshId).ads;
      && |r| == |ads| + 1 && r[..|ads|] == ads
      && r[|ads|].adType == tab && r[|ads|].isVisible
      && CountOfType(r, tab) == CountOfType(ads, tab) + 1 <= MaxAdsPerType
      && forall t :: t != tab ==> CountOfType(r, t) == CountOfType(ads, t)
  {
    var ad := NewAd(freshId, tab, editing.value);
    var r := ads + [ad];
    assert r[..|ads|] == ads;
    CountAfterAppend(ads, ad, tab);
    forall t | t != tab
      ensures CountOfType(r, t) == CountOfType(ads, t)
    {
      CountAfterAppend(ads, ad, t);
    }
  }

  /** Saving keeps every type within the cap it started within. */
  lemma SaveAdKeepsCap(ads: seq<AdConfig>, editing: Option<AdDraft>, tab: AdType, freshId: string, t: AdType)
    requires CountOfType(ads, t) <= MaxAdsPerType
    requires SaveAd(ads, editing, tab, freshId).SavedAds?
    requires !Truthy(editing.value.id)
    ensures CountOfType(SaveAd(ads, editing, tab, freshId).ads, t) <= MaxAdsPerType
  {
    SaveAdRespectsCap(ads, editing, tab, freshId);
  }

  function AdOtherThan(id: string): AdConfig -> bool {
    (ad: AdConfig) => ad.id != id
  }

  /** `ads.filter(ad => ad.id !== id)`. */
  function DeleteAd(ads: seq<AdConfig>, id: string): (r: seq<AdConfig>)
    ensures forall i :: 0 <= i < |r| ==> r[i] in ads && r[i].id != id
    ensures forall i :: 0 <= i < |ads| && ads[i].id != id ==> ads[i] in r
  {
    Filter(ads, AdOtherThan(id))
  }

  /** Deleting keeps every copy of an ad with another id and drops every
      copy of one with the id. */
  lemma DeleteAdCounts(ads: seq<AdConfig>, id: string, ad: AdConfig)
    ensures multiset(DeleteAd(ads, id))[ad] == if ad.id != id then multiset(ads)[ad] else 0
  {
    FilterMultiplicity(ads, AdOtherThan(id), ad);
  }

  lemma DeleteAdKeepsOrder(ads: seq<AdConfig>, id: string)
    ensures IsSubsequence(DeleteAd(ads, id), ads)
  {
    FilterIsSubsequence(ads, AdOtherThan(id));
  }

  /** `ads.map(ad => ad.id === id ? { ...ad, isVisible: !ad.isVisible } : ad)`:
      only the visibility of the ads with that id changes. */
  function ToggleVisibility(ads: seq<AdConfig>, id: string): (r: seq<AdConfig>)
    ensures |r| == |ads|
    ensures forall i :: 0 <= i < |r| ==> r[i].(isVisible := ads[i].isVisible) == ads[i]
    ensures forall i :: 0 <= i < |r| ==> (r[i].isVisible != ads[i].isVisible <==> ads[i].id == id)
  {
    seq(|ads|, i requires 0 <= i < |ads| =>
      if ads[i].id == id then ads[i].(isVisible := !ads[i].isVisible) else ads[i])
  }

  /** Toggling twice restores the list. */
  lemma ToggleTwice(ads: seq<AdConfig>, id: string)
    ensures ToggleVisibility(ToggleVisibility(ads, id), id) == ads
  {
    var r := ToggleVisibility(ToggleVisibility(ads, id), id);
    forall i | 0 <= i < |ads|
      ensures r[i] == ads[i]
    {
    }
  }

  // ---------------------------------------------------------------------------
  // Password

  datatype PwForm = PwForm(current: string, next: string, confirm: string)

  const EmptyPwForm: PwForm := PwForm("", "", "")

  datatype PwOutcome = WrongCurrent | ConfirmMismatch | PasswordChanged(password: string)

  /** `handlePwChange`'s decision: the current password is checked first,
      then the confirmation. */
  function ChangePassword(form: PwForm, stored: string): (r: PwOutcome)
    ensures r.PasswordChanged? <==> form.current == stored && form.next == form.confirm
    ensures r.PasswordChanged? ==> r.password == form.next
    ensures r.WrongCurrent? <==> form.current != stored
  {
    if form.current != stored then WrongCurrent
    else if form.next != form.confirm then ConfirmMismatch
    else PasswordChanged(form.next)
  }

  // ---------------------------------------------------------------------------
  // Navigation menu

  function NotBlank(c: string): bool {
    Trim(c) != ""
  }

  /** `editCats.filter(c => c.trim() !== '')`: the entries kept are stored as
      typed, untrimmed. */
  function CleanCategories(cats: seq<string>): (r: seq<string>)
    ensures forall i :: 0 <= i < |r| ==> r[i] in cats && !AllSpace(r[i])
    ensures forall i :: 0 <= i < |cats| && !AllSpace(cats[i]) ==> cats[i] in r
  {
    var r := Filter(cats, (c: string) => NotBlank(c));
    forall s: string { TrimEmptyIffBlank(s); }
    r
  }

  /** Exactly the blank entries are dropped, and the others keep their order. */
  lemma CleanCategoriesDropsBlank(cats: seq<string>)
    ensures IsSubsequence(CleanCategories(cats), cats)
    ensures forall i :: 0 <= i < |cats| ==> (cats[i] in CleanCategories(cats) <==> !AllSpace(cats[i]))
  {
    FilterIsSubsequence(cats, (c: string) => NotBlank(c));
  }

  /** A menu without blank entries is saved as it is. */
  lemma CleanCategoriesKeepsClean(cats: seq<string>)
    requires forall i :: 0 <= i < |cats| ==> !AllSpace(cats[i])
    ensures CleanCategories(cats) == cats
  {
    forall i | 0 <= i < |cats|
      ensures NotBlank(cats[i])
    {
      TrimEmptyIffBlank(cats[i]);
    }
    FilterKeepsAll(cats, (c: string) => NotBlank(c));
  }

  /** The row delete, `prev.filter((_, i) => i !== idx)`. */
  function RemoveRow(cats: seq<string>, idx: nat): (r: seq<string>)
    requires idx < |cats|
    ensures |r| == |cats| - 1
    ensures forall i :: 0 <= i < idx ==> r[i] == cats[i]
    ensures forall i :: idx <= i < |r| ==> r[i] == cats[i + 1]
  {
    cats[..idx] + cats[idx + 1..]
  }

  // ---------------------------------------------------------------------------
  // The dashboard's state

  /** The new-article form. */
  datatype ArticleForm = ArticleForm(title: string, category: string, content: string, image: string, reporterId: string)

  const BlankArticleForm: ArticleForm := ArticleForm("", "기술", "", "", "rep1")

  /** The article `handleAddArticle` publishes: the form's fields, a fresh id
      and the two clock readings, one for creation and one for update. */
  function ArticleOf(freshId: string, f: ArticleForm, createdAt: string, updatedAt: string): (a: Article)
    ensures a.id == freshId && a.createdAt == createdAt && a.updatedAt == updatedAt
    ensures a.title == f.title && a.category == f.category && a.content == f.content
    ensures a.image == f.image && a.reporterId == f.reporterId
  {
    Article(freshId, f.title, f.category, f.content, f.image, createdAt, updatedAt, f.reporterId)
  }

  /** The dashboard's own state, as one value. */
  datatype View = View(
    activeAdSubTab: AdType,
    isAdModalOpen: bool,
    editingAd: Option<AdDraft>,
    pwForm: PwForm,
    editCats: seq<string>,
    newArticle: ArticleForm)

  class DashboardState {
    const store: AppStore
    var activeAdSubTab: AdType
    var isAdModalOpen: bool
    var editingAd: Option<AdDraft>
    var pwForm: PwForm
    var editCats: seq<string>
    var newArticle: ArticleForm

    function State(): View
      reads this
    {
      View(activeAdSubTab, isAdModalOpen, editingAd, pwForm, editCats, newArticle)
    }

    /** Mounting: the sidebar tab, no modal, empty forms, and the menu rows
        copied from the store. */
    constructor (store: AppStore)
      ensures this.store == store
      ensures State() == View(Sidebar, false, None, EmptyPwForm, store.navCategories, BlankArticleForm)
    {
      this.store := store;
      activeAdSubTab := Sidebar;
      isAdModalOpen := false;
      editingAd := None;
      pwForm := EmptyPwForm;
      editCats := store.navCategories;
      newArticle := BlankArticleForm;
    }

    /** The article form's inputs: each sets its own field of the form. */
    method EditArticleForm(f: ArticleForm)
      modifies this
      ensures State() == old(State()).(newArticle := f)
    {
      newArticle := f;
    }

    /** `handleAddArticle`: publish the form as the new lead article, then
        reset the form. */

    method HandleAddArticle(freshId: string, createdAt: string, updatedAt: string)
      modifies this, store
      ensures store.State() == old(store.State()).(articles :=
        [ArticleOf(freshId, old(newArticle), createdAt, updatedAt)] + old(store.articles))
      ensures State() == old(State()).(newArticle := BlankArticleForm)
    {
      store.AddArticle(ArticleOf(freshId, newArticle, createdAt, updatedAt));
      newArticle := BlankArticleForm;
    }

    method SelectAdSubTab(tab: AdType)
      modifies this
      ensures State() == old(State()).(activeAdSubTab := tab)
    {
      activeAdSubTab := tab;
    }

    /** "광고 추가" opens the modal on a draft of the active type. */
    method OpenNewAd()
      modifies this
      ensures State() == old(State()).(editingAd := Some(NewAdDraft(activeAdSubTab)), isAdModalOpen := true)
    {
      editingAd := Some(NewAdDraft(activeAdSubTab));
      isAdModalOpen := true;
    }

    /** The edit button opens the modal on the ad itself. */
    method OpenEditAd(ad: AdConfig)
      modifies this
      ensures State() == old(State()).(editingAd := Some(DraftOfAd(ad)), isAdModalOpen := true)
    {
      editingAd := Some(DraftOfAd(ad));
      isAdModalOpen := true;
    }

    /** "취소" closes the modal; the draft stays. */
    method CloseAdModal()
      modifies this
      ensures State() == old(State()).(isAdModalOpen := false)
    {
      isAdModalOpen := false;
    }

    /** The modal's image and link boxes: each sets its own field of the draft. */
    method EditAdDraft(d: AdDraft)
      modifies this
      ensures State() == old(State()).(editingAd := Some(d))
    {
      editingAd := Some(d);
    }

    /** `handleSaveAd`. A refusal changes nothing; a save commits the new
        list, closes the modal and drops the draft. */
    method HandleSaveAd(freshId: string) returns (outcome: SaveAdOutcome)
      modifies this, store
      ensures outcome == SaveAd(old(store.ads), old(editingAd), old(activeAdSubTab), freshId)
      ensures !outcome.SavedAds? ==> store.State() == old(store.State()) && State() == old(State())
      ensures outcome.SavedAds? ==>
        && store.State() == old(store.State()).(ads := outcome.ads)
        && State() == old(State()).(isAdModalOpen := false, editingAd := None)
    {
      outcome := SaveAd(store.ads, editingAd, activeAdSubTab, freshId);
      if outcome.SavedAds? {
        store.UpdateAds(outcome.ads);
        isAdModalOpen := false;
        editingAd := None;
      }
    }

    /** `handleDeleteAd`: only a confirmed delete changes the list. */
    method HandleDeleteAd(id: string, confirmed: bool)
      modifies store
      ensures confirmed ==> store.State() == old(store.State()).(ads := DeleteAd(old(store.ads), id))
      ensures !confirmed ==> store.State() == old(store.State())
    {
      if confirmed {
        store.UpdateAds(DeleteAd(store.ads, id));
      }
    }

    method HandleToggleAdVisibility(id: string)
      modifies store
      ensures store.State() == old(store.State()).(ads := ToggleVisibility(old(store.ads), id))
    {
      store.UpdateAds(ToggleVisibility(store.ads, id));
    }

    method EditPwForm(form: PwForm)
      modifies this
      ensures State() == old(State()).(pwForm := form)
    {
      pwForm := form;
    }

    /** `handlePwChange`: on success the password is replaced and the form
        emptied; a refusal changes nothing. */
    method HandlePwChange() returns (outcome: PwOutcome)
      modifies this, store
      ensures outcome == ChangePassword(old(pwForm), old(store.adminPassword))
      ensures outcome.PasswordChanged? ==>
        && store.State() == old(store.State()).(adminPassword := old(pwForm).next)
        && State() == old(State()).(pwForm := EmptyPwForm)
      ensures !outcome.PasswordChanged? ==> store.State() == old(store.State()) && State() == old(State())
    {
      outcome := ChangePassword(pwForm, store.adminPassword);
      if outcome.PasswordChanged? {
        store.UpdateAdminPassword(outcome.password);
        pwForm := EmptyPwForm;
      }
    }

    /** A menu row's text box. */
    method EditCatRow(idx: nat, value: string)
      requires idx < |editCats|
      modifies this
      ensures State() == old(State()).(editCats := old(editCats)[idx := value])
    {
      editCats := editCats[idx := value];
    }

    /** A menu row's delete button. */
    method RemoveCatRow(idx: nat)
      requires idx < |editCats|
      modifies this
      ensures State() == old(State()).(editCats := RemoveRow(old(editCats), idx))
    {
      editCats := RemoveRow(editCats, idx);
    }

    /** "+ 메뉴 추가": an empty row at the end. */
    method AddCatRow()
      modifies this
      ensures State() == old(State()).(editCats := old(editCats) + [""])
    {
      editCats := editCats + [""];
    }

    /** `handleUpdateCats`: the menu becomes the rows without the blank ones;
        the rows themselves are left as they are. */
    method HandleUpdateCats()
      modifies store
      ensures store.State() == old(store.State()).(navCategories := CleanCategories(editCats))
    {
      store.UpdateNavCategories(CleanCategories(editCats));
    }
  }
}
