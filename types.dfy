/** The records the news site keeps. Optional string fields (an article's cover
    image, a video's description or custom thumbnail, a reporter's e-mail) are
    "" when absent: every place that reads them tests truthiness or falls back
    with `|| ''`, which treat a missing value and "" alike. */
module Types {
  import opened JsLib

  datatype Article = Article(
    id: string,
    title: string,
    category: string,
    content: string,   // may embed `[IMG:url]` markers
    image: string,     // cover image URL, "" when none
    createdAt: string,
    updatedAt: string,
    reporterId: string)

  datatype AdType = Sidebar | Top | Popup | Bottom

  datatype AdConfig = AdConfig(
    id: string,
    adType: AdType,
    imageUrl: string,
    linkUrl: string,
    isVisible: bool)

  datatype Reporter = Reporter(
    id: string,
    name: string,
    role: string,
    photo: string,
    email: string)     // "" when none

  /** A tip submission. `agree` is carried over from the form by the spread
      that builds the record. */
  datatype Report = Report(
    id: string,
    name: string,
    email: string,
    phone: string,
    title: string,
    content: string,
    agree: bool,
    isUrgent: bool,
    fileName: Option<string>,
    submittedAt: string)

  datatype ThumbnailType = DefaultThumbnail | ImageThumbnail | TextThumbnail

  datatype Video = Video(
    id: string,
    title: string,
    description: string,      // "" when none
    youtubeUrl: string,
    thumbnailType: ThumbnailType,
    customThumbnail: string,  // "" when none
    thumbnailText: string)    // "" when none
}
