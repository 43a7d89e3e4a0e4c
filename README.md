# InnoNews: a verified model of the site's content logic

InnoNews is a small React news site: a homepage with a lead story, secondary
features, a feed and popup ads; category and search listings; an article page
that draws `[IMG:url]` markers as images; a videos page with YouTube embeds;
a tip form; and an administrator's dashboard. Every collection lives in one
in-memory store, `AppProvider`.

This project models the logic behind those screens in Dafny:

- the store, as the class `Store.AppStore`, whose mutators state their whole new state;
- the page handlers that update state step by step, as classes:
  - `Home.PopupLayer`
  - `VideosPage.VideosPageState`
  - `AdminDashboard.DashboardState`
  - `ReportPage.ReportPageState`
- the list and string rules, as functions with lemmas:
  - the band slicing, the popup eligibility window, the category filter and the case-insensitive search;
  - the `[IMG:...]` and URL tokenisers of article bodies and video descriptions;
  - the two YouTube id patterns;
  - the ad cap and the ad choice.

Inputs that come from the browser are parameters of the model. These are the
clock (`now`), `confirm()` answers, random ids, `Math.random()` for the ad
slot, and the local-storage entries. The local-storage entries are the object
`Home.BrowserStorage`.

Modules, one per file: `JsLib` (the JavaScript built-ins used: `filter`,
`find`, `slice`, `trim`, `toLowerCase`, `includes`), `Patterns` (the two regular
expressions used with `split`), `Types`, `Store`, `Home`, `ArticleText`
(body rendering, excerpt and cover fallback shared by three pages),
`ArticleDetail`, `CategoryPage`, `SearchPage`, `YouTube`, `VideosPage`,
`AdminDashboard`, `ReportPage`, `Ads`.

Two points of the code worth noting:

- The homepage has no separate mid-grid band: `slice(4)` is the whole feed (pages/Home.tsx:18).
- The dashboard enforces a cap of five ads per type (pages/AdminDashboard.tsx:53-55).

## Model

| member | source | states |
|---|---|---|
| Store.AppStore.constructor | store.tsx:28-99 | Initial state: the seed collections, no reports, not admin, password "pw", the reporters fixed, and the "최신기사" sentinel among the menu entries |
| Store.AppStore.SetAdmin | store.tsx:124 | Only the admin flag changes |
| Store.AppStore.UpdateAdminPassword | store.tsx:111 | Only the password changes, to exactly the argument |
| Store.AppStore.UpdateNavCategories | store.tsx:112 | Only the menu changes, to exactly the argument |
| Store.AppStore.AddArticle | store.tsx:103 | The new article is the head, the tail is exactly the old list, nothing else changes |
| Store.AppStore.AddReport | store.tsx:104 | The report is prepended, the old reports follow unchanged, nothing else changes |
| Store.AppStore.UpdateAds | store.tsx:105 | The ads become exactly the argument; other collections are unchanged |
| Store.AppStore.UpdateVideos | store.tsx:107 | The videos become exactly the argument; other collections are unchanged |
| Store.AppStore.AddVideo | store.tsx:108 | Length grows by one, the video is first, the rest is the old list |
| Store.AppStore.DeleteVideo | store.tsx:109 | No video with the id remains, the survivors keep their order, nothing else changes |
| Store.WithoutVideo | store.tsx:109 | Exactly the videos with another id are kept |
| Store.WithoutVideoKeepsOrder | store.tsx:109 | The kept videos are a subsequence of the original list |
| JsLib.FilterMultiplicity | store.tsx:109 | `filter` keeps every copy of a passing element and no copy of a failing one |
| Store.WithoutVideoCounts | store.tsx:109 | Every copy of a video with another id is kept, every copy of one with the id dropped |
| Store.WithoutVideoIdempotent | store.tsx:109 | Deleting the same id twice equals deleting it once |
| Home.MainArticle | pages/Home.tsx:16 | The lead story exists iff the list is non-empty, and is its first article |
| Home.SubArticles | pages/Home.tsx:17 | The secondary band is articles 2 to 4: at most three, starting at the second |
| Home.ListArticles | pages/Home.tsx:18 | The list band is every article from the fifth on |
| Home.BandsPartitionArticles | pages/Home.tsx:16-18 | The secondary band has at most three articles; lead, secondary and feed concatenate back to the list |
| Home.PopupAds | pages/Home.tsx:20-32 | Empty while globally hidden; otherwise every kept ad is a visible popup not closed in the last 24 h, and every such ad is kept |
| Home.PopupAdsKeepOrder | pages/Home.tsx:26-31 | The eligible popups are a subsequence of the ads |
| Home.ClosedAdReturnsAfterADay | pages/Home.tsx:28-29 | An ad closed at a truthy time t is excluded exactly while now < t + 86400000 |
| Home.UnclosedAdIsEligible | pages/Home.tsx:28-30 | A visible popup with no close time, or a zero one, is eligible when not globally hidden |
| Home.BrowserStorage.constructor | pages/Home.tsx:21-25 | The two stored entries hold the given values |
| Home.PopupLayer.Mount | pages/Home.tsx:20-36 | The eligible popups are computed once from the mounted ads, the layer opens iff there is one, index 0, and every listed popup is a visible popup of those ads |
| Home.PopupLayer.LayerShown | pages/Home.tsx:60-65 | When the layer is drawn, the index is in range and, in a valid layer, names a visible popup ad of the ads the page mounted with |
| Home.PopupLayer.HandleHideWeekChange | pages/Home.tsx:38-46 | Checking stores the week-later time and hides the layer; unchecking only clears the box; the index stays in range |
| Home.PopupLayer.HandleCloseSinglePopup | pages/Home.tsx:48-58 | The current popup's close time becomes now and no other entry changes; the index advances or the layer closes after the last |
| ArticleText.ClassifyPart | pages/ArticleDetail.tsx:21-30 | A part is an image iff it contains a marker; a text part is the part itself |
| ArticleText.RenderContent | pages/ArticleDetail.tsx:18-32 | One segment per split part, each the classification of that part |
| ArticleText.MarkerPartIsImage | pages/ArticleDetail.tsx:21-23 | A part that is one whole marker renders as an image whose marker is that part; its URL holds no `]` and no line break |
| ArticleText.RenderContentShape | pages/ArticleDetail.tsx:19-30 | Even parts are text holding no marker; odd parts are images whose marker is exactly the part |
| ArticleText.RenderContentRoundTrip | pages/ArticleDetail.tsx:19 | Writing each image back as its marker gives the body again |
| ArticleText.NoOpenerNoMatch | pages/ArticleDetail.tsx:21 | Without `[IMG:` in the text, no marker matches |
| ArticleText.NoMarkerSingleText | pages/ArticleDetail.tsx:19-30 | A body without a marker renders as one text segment equal to the body |
| ArticleText.MarkerExample | pages/ArticleDetail.tsx:19-30 | "a[IMG:http://x]b" renders as text "a", image "http://x", text "b" |
| ArticleText.Excerpt | pages/CategoryPage.tsx:50 | The excerpt is never longer than the body |
| ArticleText.RenderContentHead | pages/ArticleDetail.tsx:19-30 | A body with a marker renders first the text before that marker, then an image |
| ArticleText.RenderContentRest | pages/ArticleDetail.tsx:19-30 | After its first image, the rendering equals the rendering of what follows the first marker |
| ArticleText.ExcerptIsShownText | pages/SearchPage.tsx:69 | The list excerpt equals the text the article page draws between its images |
| ArticleText.NoMarkerExcerptUnchanged | pages/CategoryPage.tsx:50 | A body with no `[IMG:` is its own excerpt |
| ArticleText.ArticleImage | pages/SearchPage.tsx:24-26 | The URL when it has a non-space character, the fixed default picture otherwise |
| ArticleDetail.FindArticle | pages/ArticleDetail.tsx:12 | None iff no article has the id; otherwise an article of the list with that id |
| ArticleDetail.FindArticleFirst | pages/ArticleDetail.tsx:12 | The article found is the first one with that id |
| ArticleDetail.ShownEmail | pages/ArticleDetail.tsx:80 | The reporter's e-mail when non-empty, else process@innonews.co.kr |
| ArticleDetail.ArticleByline | pages/ArticleDetail.tsx:15 | The unavailable message iff no reporter has the id; otherwise the card of a reporter with that id |
| ArticleDetail.ArticleBylineFirst | pages/ArticleDetail.tsx:15 | Of several reporters with the id, the card is the first one's |
| ArticleDetail.CoverImage | pages/ArticleDetail.tsx:49 | A cover is drawn iff the image has a non-space character, and it is that image |
| ArticleDetail.DetailPage | pages/ArticleDetail.tsx:12-13 | Redirect to "/" iff no article has the id; otherwise that article with its cover, rendered body and byline |
| CategoryPage.FilteredArticles | pages/CategoryPage.tsx:14-16 | "최신기사" gives the list unchanged; any other name gives exactly the articles of that category |
| CategoryPage.FilteredArticlesKeepOrder | pages/CategoryPage.tsx:14-16 | The listing is a subsequence of the articles |
| CategoryPage.ShowsEmptyMessage | pages/CategoryPage.tsx:58 | When the message shows: for "최신기사" the list is empty; for any other name no article has that category |
| CategoryPage.EmptyMessageIffNoArticle | pages/CategoryPage.tsx:58 | The empty message shows iff no article is listed under the name |
| SearchPage.Query | pages/SearchPage.tsx:11 | An absent query is the empty string |
| SearchPage.SearchResults | pages/SearchPage.tsx:14-17 | Exactly the articles whose lower-cased title or content contains the lower-cased query |
| SearchPage.SearchVideos | pages/SearchPage.tsx:19-22 | Exactly the videos whose title, or non-empty description, contains the query, ignoring case |
| SearchPage.ResultsKeepOrder | pages/SearchPage.tsx:14-22 | Both result lists keep collection order |
| SearchPage.EmptyQueryMatchesAll | pages/SearchPage.tsx:11-22 | With no query, every article and every video is a result |
| SearchPage.QueryCaseIgnored | pages/SearchPage.tsx:14-22 | Lower-casing the query first changes no result |
| SearchPage.NoResults | pages/SearchPage.tsx:104 | When the block shows, no article and no video matches the query |
| SearchPage.NoResultsIffNothingMatches | pages/SearchPage.tsx:104 | The no-results block shows iff no article and no video matches |
| SearchPage.VideoThumbnail | pages/SearchPage.tsx:86-87 | The hqdefault image of the search page's id, or of "null" when there is none |
| YouTube.YoutubeId | pages/VideosPage.tsx:21-25 | A returned id is 11 characters long and holds none of `#`, `&`, `?` |
| YouTube.YoutubeIdSound | pages/SearchPage.tsx:32-36 | A returned id is the whole id group after the last branch match on the first line |
| YouTube.WatchLinkId | pages/VideosPage.tsx:22 | For either page, a single-line URL ending in "watch?v=" and an 11-character id yields that id |
| YouTube.ShortLinkId | pages/SearchPage.tsx:33 | A "youtu.be/" link yields its id, on the search page only if the id starts with neither 'v' nor '=' |
| YouTube.ShortLinkLeadingV | pages/SearchPage.tsx:33 | A "youtu.be/" id starting with 'v' is found by the videos page and lost by the search page |
| YouTube.AmpParamId | pages/VideosPage.tsx:22 | The videos page finds an id given as a later "&v=" parameter |
| YouTube.SeedUrlId | store.tsx:60 | Both pages extract dQw4w9WgXcQ from the seed video's URL |
| YouTube.LaterParamVideosPage | pages/VideosPage.tsx:22 | "watch?x=1&v=<id>" yields the id on the videos page |
| YouTube.LaterParamSearchPage | pages/SearchPage.tsx:33 | "watch?x=1&v=<id>" yields no id on the search page |
| Patterns.Find | pages/ArticleDetail.tsx:21 | The leftmost match: it matches there, and no earlier position matches |
| Patterns.SplitConcat | pages/VideosPage.tsx:29 | The parts of a split concatenate back to the input |
| Patterns.SplitPair | pages/VideosPage.tsx:29-33 | The parts at 2j and 2j+1 are a match-free text followed by one whole match |
| Patterns.SplitParts | pages/VideosPage.tsx:29-33 | Even parts contain no match; odd parts are exactly one whole match |
| Patterns.SplitMatchIffOdd | pages/VideosPage.tsx:30 | A part contains a match iff it sits at an odd index |
| VideosPage.RenderPart | pages/VideosPage.tsx:30-33 | A part is a link iff it contains a URL, and either way it keeps its text |
| VideosPage.RenderDescription | pages/VideosPage.tsx:27-35 | One piece per split part, each the rendering of that part |
| VideosPage.DescriptionRoundTrip | pages/VideosPage.tsx:27-34 | The pieces read back as the description |
| VideosPage.DescriptionLinks | pages/VideosPage.tsx:29-33 | A piece is a link iff its index is odd, and its href is one whole `https?://` URL |
| VideosPage.Player | pages/VideosPage.tsx:123-137 | No player without a selection; the embed iff the selected URL yields an id, with that id |
| VideosPage.Thumbnail | pages/VideosPage.tsx:154-170 | A text tile iff the type is text; the custom image iff type image with one set; else the maxresdefault image |
| VideosPage.MergeVideo | pages/VideosPage.tsx:49 | Each of the seven fields, the id included, is the draft's when the draft holds it and the video's otherwise |
| VideosPage.CanSave | pages/VideosPage.tsx:46 | A draft that passes the gate makes every edited or new video carry a non-empty title and URL |
| VideosPage.EditVideos | pages/VideosPage.tsx:49 | Same length; videos with another id unchanged; the edited one merged with the draft |
| VideosPage.MergeOwnDraft | pages/VideosPage.tsx:191 | Merging a video's own draft into any video yields that video |
| VideosPage.EditUnknownIdIsIdentity | pages/VideosPage.tsx:49 | An edit naming no video of the list changes nothing |
| VideosPage.NewVideo | pages/VideosPage.tsx:54-61 | Each field is the draft's when the draft holds it; otherwise the fresh id, "" for the texts and the "default" thumbnail |
| VideosPage.StaleDraftReusesId | pages/VideosPage.tsx:54-61 | A draft loaded from a video and then added again yields that same video, under the same id |
| VideosPage.FirstOther | pages/VideosPage.tsx:201 | A video with another id, or none when every video has the id |
| VideosPage.FirstOtherIsFirstSurvivor | pages/VideosPage.tsx:198-201 | The new selection is the head of the list after the deletion, or none iff nothing survives |
| VideosPage.VideosPageState.constructor | pages/VideosPage.tsx:9-19 | The first video is selected; the form is closed and blank |
| VideosPage.VideosPageState.Select | pages/VideosPage.tsx:165 | Only the selection changes |
| VideosPage.VideosPageState.StartAdd | pages/VideosPage.tsx:74 | The form opens for adding; the draft is kept |
| VideosPage.VideosPageState.StartEdit | pages/VideosPage.tsx:189-192 | The edited id is set and the draft holds the whole video |
| VideosPage.VideosPageState.Cancel | pages/VideosPage.tsx:113 | The form closes; the draft is not cleared |
| VideosPage.VideosPageState.HandleSave | pages/VideosPage.tsx:45-66 | No title or URL: nothing changes. Edit: only that id is merged, along with a matching selection. Add: one new video is prepended. The draft is reset after a save |
| VideosPage.VideosPageState.DeleteVideoAction | pages/VideosPage.tsx:198-202 | Confirmed: the id is removed and a deleted selection moves to the first other video of the old list; refused: nothing changes |
| AdminDashboard.MergeAd | pages/AdminDashboard.tsx:50 | Each of the five fields, the id, type and visibility included, is the draft's when the draft holds it and the ad's otherwise |
| AdminDashboard.ValidAdDraft | pages/AdminDashboard.tsx:46 | A draft that passes the gate makes every edited or new ad carry a non-empty image URL and link |
| AdminDashboard.EditAds | pages/AdminDashboard.tsx:50 | Same length; ads with another id unchanged; the edited one merged |
| AdminDashboard.EditAdsKeepsIds | pages/AdminDashboard.tsx:48-50 | An edit keeps every ad's id in its place |
| AdminDashboard.CountOfType | pages/AdminDashboard.tsx:54 | A type's count never exceeds the number of ads |
| AdminDashboard.CountAfterAppend | pages/AdminDashboard.tsx:54-64 | Appending adds one to the new ad's type count and leaves the other types' counts alone |
| AdminDashboard.NewAd | pages/AdminDashboard.tsx:57-63 | A fresh id, the active type, the draft's URLs, visible |
| AdminDashboard.SaveAd | pages/AdminDashboard.tsx:45-65 | Refused iff a URL is missing; with an id, edits that ad; otherwise refused iff the type holds five, else appends the new ad |
| AdminDashboard.SaveAdRespectsCap | pages/AdminDashboard.tsx:53-64 | An add appends exactly one visible ad of the active type at the end, and its type's count stays at most five |
| AdminDashboard.SaveAdKeepsCap | pages/AdminDashboard.tsx:53-55 | A type within the cap before an add is within it after |
| AdminDashboard.DeleteAd | pages/AdminDashboard.tsx:72 | Exactly the ads with another id are kept |
| AdminDashboard.DeleteAdKeepsOrder | pages/AdminDashboard.tsx:72 | The kept ads keep their order |
| AdminDashboard.DeleteAdCounts | pages/AdminDashboard.tsx:72 | Every copy of an ad with another id is kept, every copy of one with the id dropped |
| AdminDashboard.ToggleVisibility | pages/AdminDashboard.tsx:77 | Only visibility changes, and it flips exactly on the ads with the id |
| AdminDashboard.ToggleTwice | pages/AdminDashboard.tsx:76-78 | Toggling twice restores the list |
| AdminDashboard.ChangePassword | pages/AdminDashboard.tsx:80-84 | The password changes iff the current one matches and new equals confirm, and then to the new one |
| AdminDashboard.CleanCategories | pages/AdminDashboard.tsx:90 | Kept entries are untrimmed entries with a non-space character, and every such entry is kept |
| AdminDashboard.CleanCategoriesDropsBlank | pages/AdminDashboard.tsx:90 | An entry survives iff it is not blank, in order |
| AdminDashboard.CleanCategoriesKeepsClean | pages/AdminDashboard.tsx:90 | A menu without blank entries is saved unchanged |
| AdminDashboard.RemoveRow | pages/AdminDashboard.tsx:317 | The row at the index is removed and the others keep their order |
| AdminDashboard.ArticleOf | pages/AdminDashboard.tsx:34-39 | The form's fields, the fresh id, and the two clock readings as creation and update time |
| AdminDashboard.DashboardState.constructor | pages/AdminDashboard.tsx:10-30 | Sidebar tab, modal closed, empty forms, the menu rows copied from the store |
| AdminDashboard.DashboardState.HandleAddArticle | pages/AdminDashboard.tsx:32-43 | The new article, stamped with the two clock readings, is prepended and the form reset to category "기술", reporter "rep1" |
| AdminDashboard.DashboardState.SelectAdSubTab | pages/AdminDashboard.tsx:147 | Only the active sub-tab changes |
| AdminDashboard.DashboardState.OpenNewAd | pages/AdminDashboard.tsx:169-172 | The modal opens on a draft of the active type, visible |
| AdminDashboard.DashboardState.OpenEditAd | pages/AdminDashboard.tsx:194-197 | The modal opens on the whole ad |
| AdminDashboard.DashboardState.CloseAdModal | pages/AdminDashboard.tsx:239 | The modal closes; the draft stays |
| AdminDashboard.DashboardState.HandleSaveAd | pages/AdminDashboard.tsx:45-68 | A refusal changes nothing; a save commits the new ads, closes the modal and drops the draft |
| AdminDashboard.DashboardState.HandleDeleteAd | pages/AdminDashboard.tsx:70-74 | A confirmed delete removes the ads with the id; a refused one changes nothing |
| AdminDashboard.DashboardState.HandleToggleAdVisibility | pages/AdminDashboard.tsx:76-78 | The ads become the toggled list; nothing else changes |
| AdminDashboard.DashboardState.EditPwForm | pages/AdminDashboard.tsx:339 | Only the password form changes |
| AdminDashboard.DashboardState.EditArticleForm | pages/AdminDashboard.tsx:258-291 | Only the article form changes |
| AdminDashboard.DashboardState.EditAdDraft | pages/AdminDashboard.tsx:221-231 | Only the draft changes, and it is now present |
| AdminDashboard.DashboardState.HandlePwChange | pages/AdminDashboard.tsx:80-87 | On success the password becomes the new one and the form is emptied; otherwise nothing changes |
| AdminDashboard.DashboardState.EditCatRow | pages/AdminDashboard.tsx:310-314 | Only the row at the index changes, to the typed text |
| AdminDashboard.DashboardState.RemoveCatRow | pages/AdminDashboard.tsx:317 | The row at the index is removed |
| AdminDashboard.DashboardState.AddCatRow | pages/AdminDashboard.tsx:321 | An empty row is appended |
| AdminDashboard.DashboardState.HandleUpdateCats | pages/AdminDashboard.tsx:89-92 | The menu becomes the rows without the blank ones; nothing else changes |
| ReportPage.ReportOf | pages/ReportPage.tsx:59-64 | The report carries every form field, the file's name or none, the fresh id and the time |
| ReportPage.MailSubject | pages/ReportPage.tsx:67 | The subject's length is the prefix's plus the title's; the content is stated by MailSubjectCarriesTitle |
| ReportPage.MailBody | pages/ReportPage.tsx:68-73 | The body's length is that of the three labelled lines, the heading, the tip and four line breaks |
| ReportPage.MailSubjectCarriesTitle | pages/ReportPage.tsx:67 | The subject is "[이노뉴스 긴급 제보] " followed by the title |
| ReportPage.MailBodyCarriesTip | pages/ReportPage.tsx:68-73 | The name line opens the body, the phone and e-mail lines follow each after one line break, and the tip under "[내용]" ends it |
| ReportPage.SubmitResult | pages/ReportPage.tsx:38-75 | Refused iff no consent; a mail iff urgent and confirmed, to ai@aag.co.kr with that subject and body |
| ReportPage.DecliningStillSubmits | pages/ReportPage.tsx:47-53 | Declining the urgent dialog still submits, without the mail |
| ReportPage.ReportPageState.constructor | pages/ReportPage.tsx:8-18 | Blank form, no file, not submitting |
| ReportPage.ReportPageState.EditForm | pages/ReportPage.tsx:20-28 | Only the form changes |
| ReportPage.ReportPageState.HandleFileChange | pages/ReportPage.tsx:30-34 | A picked file's name is recorded; an empty pick changes nothing |
| ReportPage.ReportPageState.HandleSubmit | pages/ReportPage.tsx:36-81 | No consent: nothing changes. Consent: exactly one report is prepended, the mail is drafted iff urgent and confirmed, and the form, file and flag are reset |
| Ads.Candidates | components/Ads.tsx:7 | Exactly the visible ads of the slot's type |
| Ads.CandidatesKeepOrder | components/Ads.tsx:36 | The candidates keep collection order |
| Ads.SidebarCandidates | components/Ads.tsx:7 | Exactly the visible sidebar ads |
| Ads.TopCandidates | components/Ads.tsx:36 | Exactly the visible top banners |
| Ads.SlotsDisjoint | components/Ads.tsx:7-36 | No ad is a candidate of both slots |
| Ads.ScaledIndexInRange | components/Ads.tsx:12 | floor(random × n) lies in [0, n) for random in [0, 1) |
| Ads.ChooseAd | components/Ads.tsx:10-16 | Nothing iff there is no candidate; otherwise an element of the candidates |
| Ads.ShownAdFitsSlot | components/Ads.tsx:39-45 | The shown ad is a visible ad of the slot's type |

## Left out

- Markup, styling, icons and routing: `Navigate` appears only as the redirect target of `ArticleDetail.DetailPage`; the Header and Footer components are navigation chrome and are not part of this model.
- `alert` and `confirm`: a `confirm()` answer is a boolean parameter, and an alert is a refusal that changes no state.
- `localStorage`, `JSON.parse` and `JSON.stringify`: the two entries are the fields of `Home.BrowserStorage`; malformed stored JSON, which would throw, is not modelled.
- Home.PopupLayer.HandleHideWeekChange: the week-later time is a parameter, because `setDate(+7)` is local-calendar arithmetic that can differ from seven times 86400000 ms across a daylight-saving change.
- Home.PopupLayer.Mount: the eligible popups are computed once at mount; `useMemo` would recompute them only if the ads changed, which no action on the homepage does.
- Ads.ChooseAd: the choice is recomputed from the current candidates; the component memoises it on the list's length only, so an edit that keeps the length can leave a stale ad showing, which is not modelled.
- Random ids and `toLocaleString()` time stamps are parameters, one per call (a new article takes two, which may differ); id uniqueness is not assumed.
- `toLowerCase` is modelled on ASCII letters only; full Unicode case mapping is not.
- `encodeURIComponent` and the `mailto:` navigation: the mail is modelled as its address, subject and body before encoding.
- File uploads: only the picked file's name is kept.
- Browser form validation is not modelled: `required` on the article title and content, on the tip fields and on the three password boxes would block an empty submission in the browser, while the handlers themselves accept any text. So `AdminDashboard.ChangePassword` can set an empty password here, which the browser's form would stop first.
- The videos page shows its add, edit and delete buttons only to the administrator (`isAdmin`); that gate lives in the markup, so `VideosPageState.StartAdd`, `StartEdit` and `DeleteVideoAction` carry no such condition.
- Form wiring: each field's `onChange` is modelled as one setter of the whole form or draft (`EditPwForm`, `EditArticleForm`, `EditAdDraft`, `ReportPageState.EditForm`), not one setter per field.
- `BottomAd` is imported by the article page but not defined among the ad components, so it is not modelled.
- The image `onError` fallback to the default picture is a browser event and is not modelled.
- `setAdmin` is modelled; the login flow that calls it is not part of this model.
- The dashboard's tab switching, the report list display and the active tab itself are display state and are not modelled.
- YouTube.YoutubeId: the patterns are hand-coded for these two expressions, not a general regular-expression engine.
- YouTube.YoutubeId: the 11-character test counts Dafny characters (Unicode scalar values), while JavaScript's `length` counts UTF-16 code units; an id with a character outside the Basic Multilingual Plane would be counted differently.
- Two differences between the pages' YouTube patterns are stated as lemmas, and the model keeps each page's own behaviour:
  - The search page's optional `v?=?` swallows a leading 'v' or '=' of a short-link id (`YouTube.ShortLinkLeadingV`).
  - Only the videos page finds an id given as a later `&v=` parameter (`YouTube.LaterParamSearchPage`).
- VideosPage.NewVideo: a draft left over from an abandoned edit keeps that video's id, and the spread lets it override the fresh id. The model keeps this behaviour (`VideosPage.StaleDraftReusesId`).
