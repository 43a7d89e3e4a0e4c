/** The videos page: the player for the selected video, its description with
    the URLs turned into links, the thumbnail grid, and the administrator's
    add / edit / delete actions. */
module VideosPage {
  import opened JsLib
  import opened Types
  import opened Patterns
  import opened YouTube
  import opened Store

  // ---------------------------------------------------------------------------
  // The description

  /** One rendered piece of a description. */
  datatype DescriptionPiece = PlainText(text: string) | Link(href: string)

  /** `part.match(urlRegex)`: a part with a URL in it becomes a link to itself. */
  function RenderPart(part: string): (piece: DescriptionPiece)
    ensures piece.Link? <==> Find(HttpUrl, part, 0).Some?
    ensures piece.PlainText? ==> piece.text == part
    ensures piece.Link? ==> piece.href == part
  {
    if Find(HttpUrl, part, 0).Some? then Link(part) else PlainText(part)
  }

  /** `renderDescription`: split on the URLs, keeping them, then render each part. */
  function RenderDescription(text: string): (pieces: seq<DescriptionPiece>)
    ensures |pieces| == |Split(HttpUrl, text)|
    ensures forall i :: 0 <= i < |pieces| ==> pieces[i] == RenderPart(Split(HttpUrl, text)[i])
  {
    var parts := Split(HttpUrl, text);
    seq(|parts|, i requires 0 <= i < |parts| => RenderPart(parts[i]))
  }

  function PieceText(piece: DescriptionPiece): string {
    match piece
    case PlainText(t) => t
    case Link(h) => h
  }

  function PiecesText(pieces: seq<DescriptionPiece>): string
    decreases |pieces|
  {
    if pieces == [] then "" else PieceText(pieces[0]) + PiecesText(pieces[1..])
  }

  lemma {:induction false} PiecesTextParts(pieces: seq<DescriptionPiece>, parts: seq<string>)
    requires |pieces| == |parts|
    requires forall i :: 0 <= i < |pieces| ==> PieceText(pieces[i]) == parts[i]
    ensures PiecesText(pieces) == Concat(parts)
    decreases |pieces|
  {
    if pieces != [] {
      PiecesTextParts(pieces[1..], parts[1..]);
    }
  }

  /** The pieces read back as the description, character for character. */
  lemma DescriptionRoundTrip(text: string)
    ensures PiecesText(RenderDescription(text)) == text
  {
    var parts := Split(HttpUrl, text);
    PiecesTextParts(RenderDescription(text), parts);
    SplitConcat(HttpUrl, text);
  }

  /** The links are exactly the odd pieces, and each is one whole URL: the
      scheme, "://" and the run of non-space characters after it. */
  lemma DescriptionLinks(text: string, i: nat)
    requires i < |RenderDescription(text)|
    ensures RenderDescription(text)[i].Link? <==> i % 2 == 1
    ensures RenderDescription(text)[i].Link? ==>
      MatchEnd(HttpUrl, RenderDescription(text)[i].href, 0) == Some(|RenderDescription(text)[i].href|)
  {
    SplitMatchIffOdd(HttpUrl, text, i);
    SplitParts(HttpUrl, text, i);
  }

  // ---------------------------------------------------------------------------
  // Player and thumbnails

  datatype PlayerView = Embed(src: string) | Unavailable | NoVideo

  /** The player: nothing selected, a selected video whose URL yields no id,
      or the embed of that id. */
  function Player(selected: Option<Video>): (v: PlayerView)
    ensures v.NoVideo? <==> selected.None?
    ensures v.Embed? <==> selected.Some? && YoutubeId(VideosPageRegex, selected.value.youtubeUrl).Some?
    ensures v.Embed? ==>
      v.src == "https://www.youtube.com/embed/" + YoutubeId(VideosPageRegex, selected.value.youtubeUrl).value + "?autoplay=0"
  {
    match selected
    case None => NoVideo
    case Some(video) =>
      match YoutubeId(VideosPageRegex, video.youtubeUrl)
      case Some(id) => Embed("https://www.youtube.com/embed/" + id + "?autoplay=0")
      case None => Unavailable
  }

  datatype ThumbnailView = TextTile(text: string) | ImageTile(src: string)

  /** The tile of one video in the grid. */
  function Thumbnail(video: Video): (t: ThumbnailView)
    ensures t.TextTile? <==> video.thumbnailType == TextThumbnail
    ensures t.TextTile? ==> t.text == video.thumbnailText
    ensures video.thumbnailType == ImageThumbnail && video.customThumbnail != "" ==>
      t == ImageTile(video.customThumbnail)
    ensures video.thumbnailType == DefaultThumbnail || (video.thumbnailType == ImageThumbnail && video.customThumbnail == "") ==>
      t == ImageTile("https://img.youtube.com/vi/" + IdText(YoutubeId(VideosPageRegex, video.youtubeUrl)) + "/maxresdefault.jpg")
  {
    var thumbUrl :=
      if video.thumbnailType == ImageThumbnail && video.customThumbnail != "" then video.customThumbnail
      else "https://img.youtube.com/vi/" + IdText(YoutubeId(VideosPageRegex, video.youtubeUrl)) + "/maxresdefault.jpg";
    if video.thumbnailType == TextThumbnail then TextTile(video.thumbnailText) else ImageTile(thumbUrl)
  }

  // ---------------------------------------------------------------------------
  // The form draft and the new video lists

  /** `Partial<Video>`: the form's fields, each present or absent. */
  datatype VideoDraft = VideoDraft(
    id: Option<string>,
    title: Option<string>,
    description: Option<string>,
    youtubeUrl: Option<string>,
    thumbnailType: Option<ThumbnailType>,
    customThumbnail: Option<string>,
    thumbnailText: Option<string>)

  /** The form's initial and reset value. */
  const BlankDraft: VideoDraft := VideoDraft(None, Some(""), Some(""), Some(""), Some(DefaultThumbnail), None, None)

  /** `{ ...video }`: editing loads every field, the id included. */
  function DraftOf(v: Video): VideoDraft {
    VideoDraft(Some(v.id), Some(v.title), Some(v.description), Some(v.youtubeUrl),
      Some(v.thumbnailType), Some(v.customThumbnail), Some(v.thumbnailText))
  }

  /** `{ ...v, ...formData }`: every field the draft holds overrides the video's. */
  function MergeVideo(v: Video, d: VideoDraft): (r: Video)
    ensures Spread(d.id, v.id, r.id)
    ensures Spread(d.title, v.title, r.title)
    ensures Spread(d.description, v.description, r.description)
    ensures Spread(d.youtubeUrl, v.youtubeUrl, r.youtubeUrl)
    ensures Spread(d.thumbnailType, v.thumbnailType, r.thumbnailType)
    ensures Spread(d.customThumbnail, v.customThumbnail, r.customThumbnail)
    ensures Spread(d.thumbnailText, v.thumbnailText, r.thumbnailText)
  {
    Video(d.id.GetOr(v.id), d.title.GetOr(v.title), d.description.GetOr(v.description),
      d.youtubeUrl.GetOr(v.youtubeUrl), d.thumbnailType.GetOr(v.thumbnailType),
      d.customThumbnail.GetOr(v.customThumbnail), d.thumbnailText.GetOr(v.thumbnailText))
  }

  /** Merging a video's own draft into any video yields that video. */
  lemma MergeOwnDraft(v: Video, w: Video)
    ensures MergeVideo(w, DraftOf(v)) == v
  {
  }

  /** The save gate: `formData.title` and `formData.youtubeUrl` must be truthy. */
  predicate CanSave(d: VideoDraft)
    ensures CanSave(d) ==> forall v :: MergeVideo(v, d).title != "" && MergeVideo(v, d).youtubeUrl != ""
    ensures CanSave(d) ==> forall id :: NewVideo(id, d).title != "" && NewVideo(id, d).youtubeUrl != ""
  {
    Truthy(d.title) && Truthy(d.youtubeUrl)
  }

  /** `videos.map(v => v.id === editingVideoId ? { ...v, ...formData } : v)`. */
  function EditVideos(videos: seq<Video>, id: string, d: VideoDraft): (r: seq<Video>)
    ensures |r| == |videos|
    ensures forall i :: 0 <= i < |r| && videos[i].id != id ==> r[i] == videos[i]
    ensures forall i :: 0 <= i < |r| && videos[i].id == id ==> r[i] == MergeVideo(videos[i], d)
  {
    seq(|videos|, i requires 0 <= i < |videos| => if videos[i].id == id then MergeVideo(videos[i], d) else videos[i])
  }

  /** Editing with a draft that names no video changes nothing. */
  lemma EditUnknownIdIsIdentity(videos: seq<Video>, id: string, d: VideoDraft)
    requires forall i :: 0 <= i < |videos| ==> videos[i].id != id
    ensures EditVideos(videos, id, d) == videos
  {
  }

  /** The new video: a fresh id and defaults, each overridden by whatever the
      draft holds (`{ id, title: formData.title || '', ..., ...formData }`). */
  function NewVideo(freshId: string, d: VideoDraft): (v: Video)
    ensures Spread(d.id, freshId, v.id)
    ensures Spread(d.title, "", v.title)
    ensures Spread(d.description, "", v.description)
    ensures Spread(d.youtubeUrl, "", v.youtubeUrl)
    ensures Spread(d.thumbnailType, DefaultThumbnail, v.thumbnailType)
    ensures Spread(d.customThumbnail, "", v.customThumbnail)
    ensures Spread(d.thumbnailText, "", v.thumbnailText)
  {
    Video(d.id.GetOr(freshId), d.title.GetOr(""), d.description.GetOr(""), d.youtubeUrl.GetOr(""),
      d.thumbnailType.GetOr(DefaultThumbnail), d.customThumbnail.GetOr(""), d.thumbnailText.GetOr(""))
  }

  /** A draft left over from an abandoned edit still holds that video's id,
      and the spread lets it override the fresh one: the "new" video is a
      copy of the old one under the same id. */
  lemma StaleDraftReusesId(freshId: string, edited: Video)
    ensures NewVideo(freshId, DraftOf(edited)) == edited
  {
  }

  /** The selection after deleting `id`: `videos.find(v => v.id !== id) || null`
      over the list as it was before the deletion. */
  function FirstOther(videos: seq<Video>, id: string): (r: Option<Video>)
    ensures r.Some? ==> r.value in videos && r.value.id != id
    ensures r.None? ==> forall i :: 0 <= i < |videos| ==> videos[i].id == id
  {
    FindFirst(videos, OtherThan(id))
  }

  /** The new selection is the first video that survives the deletion. */
  lemma FirstOtherIsFirstSurvivor(videos: seq<Video>, id: string)
    ensures FirstOther(videos, id).None? <==> WithoutVideo(videos, id) == []
    ensures FirstOther(videos, id).Some? ==> FirstOther(videos, id).value == WithoutVideo(videos, id)[0]
  {
    FindFirstIsFilterHead(videos, OtherThan(id));
  }

  // ---------------------------------------------------------------------------
  // Page state

  class VideosPageState {
    const store: AppStore
    var selected: Option<Video>
    var isAdding: bool
    var editingVideoId: Option<string>
    var formData: VideoDraft

    /** Mounting: the first video is selected, the form is blank and closed. */
    constructor (store: AppStore)
      ensures this.store == store
      ensures selected == (if |store.videos| > 0 then Some(store.videos[0]) else None)
      ensures !isAdding && editingVideoId.None? && formData == BlankDraft
    {
      this.store := store;
      selected := if |store.videos| > 0 then Some(store.videos[0]) else None;
      isAdding := false;
      editingVideoId := None;
      formData := BlankDraft;
    }

    /** The overlay form is open while adding or editing. */
    predicate FormOpen()
      reads this
    {
      isAdding || Truthy(editingVideoId)
    }

    method Select(video: Video)
      modifies this
      ensures selected == Some(video)
      ensures isAdding == old(isAdding) && editingVideoId == old(editingVideoId) && formData == old(formData)
    {
      selected := Some(video);
    }

    /** "영상 추가": opens the form, keeping whatever the draft holds. */
    method StartAdd()
      modifies this
      ensures isAdding
      ensures selected == old(selected) && editingVideoId == old(editingVideoId) && formData == old(formData)
    {
      isAdding := true;
    }

    /** The edit button loads the video into the draft. */
    method StartEdit(video: Video)
      modifies this
      ensures editingVideoId == Some(video.id) && formData == DraftOf(video)
      ensures selected == old(selected) && isAdding == old(isAdding)
    {
      editingVideoId := Some(video.id);
      formData := DraftOf(video);
    }

    /** "취소" closes the form; the draft is not cleared. */
    method Cancel()
      modifies this
      ensures !isAdding && editingVideoId.None?
      ensures selected == old(selected) && formData == old(formData)
    {
      isAdding := false;
      editingVideoId := None;
    }

    /** `handleSave`. A draft without a title or URL is refused and nothing
        changes. Otherwise an edit merges the draft into the video with the
        edited id (and into the selection when it is that video); an add
        prepends the new video. Either way the draft is reset. */
    method HandleSave(freshId: string) returns (saved: bool)
      modifies this, store
      ensures saved == CanSave(old(formData))
      ensures !saved ==>
        && store.State() == old(store.State())
        && selected == old(selected) && isAdding == old(isAdding)
        && editingVideoId == old(editingVideoId) && formData == old(formData)
      ensures saved && Truthy(old(editingVideoId)) ==>
        && store.State() == old(store.State()).(videos := EditVideos(old(store.videos), old(editingVideoId).value, old(formData)))
        && selected == (if old(selected).Some? && old(selected).value.id == old(editingVideoId).value
                        then Some(MergeVideo(old(selected).value, old(formData))) else old(selected))
        && editingVideoId.None? && isAdding == old(isAdding)
      ensures saved && !Truthy(old(editingVideoId)) ==>
        && store.State() == old(store.State()).(videos := [NewVideo(freshId, old(formData))] + old(store.videos))
        && selected == old(selected) && !isAdding && editingVideoId == old(editingVideoId)
      ensures saved ==> formData == BlankDraft
    {
      if !CanSave(formData) {
        return false;
      }
      if Truthy(editingVideoId) {
        var id := editingVideoId.value;
        store.UpdateVideos(EditVideos(store.videos, id, formData));
        if selected.Some? && selected.value.id == id {
          selected := Some(MergeVideo(selected.value, formData));
        }
        editingVideoId := None;
      } else {
        store.AddVideo(NewVideo(freshId, formData));
        isAdding := false;
      }
      formData := BlankDraft;
      return true;
    }

    /** The delete button: after a confirmed deletion, a selected video that
        was deleted gives way to the first other video of the list as it was
        before, or to nothing. */
    method DeleteVideoAction(video: Video, confirmed: bool)
      modifies this, store
      ensures !confirmed ==> store.State() == old(store.State()) && selected == old(selected)
      ensures confirmed ==> store.State() == old(store.State()).(videos := WithoutVideo(old(store.videos), video.id))
      ensures confirmed && old(selected).Some? && old(selected).value.id == video.id ==>
        selected == FirstOther(old(store.videos), video.id)
      ensures !(old(selected).Some? && old(selected).value.id == video.id) ==> selected == old(selected)
      ensures isAdding == old(isAdding) && editingVideoId == old(editingVideoId) && formData == old(formData)
    {
      var isActive := selected.Some? && selected.value.id == video.id;
      var videos := store.videos;
      if confirmed {
        store.DeleteVideo(video.id);
        if isActive {
          selected := FirstOther(videos, video.id);
        }
      }
    }
  }
}
