/** Article bodies and the helpers the article pages share.

    A body is plain text that may embed `[IMG:url]` markers. The detail page
    splits the body on the markers and draws an image for each one; the list
    pages (category, search) show an excerpt with the markers removed and a
    cover image that falls back to a fixed picture. */
module ArticleText {
  import opened JsLib
  import opened Patterns

  /** One rendered piece of a body: a text span or an inline image. */
  datatype Segment = TextSegment(text: string) | ImageSegment(url: string)

  /** `part.match(/\[IMG:(.*?)\]/)`: the first marker anywhere in `part` gives
      an image with the captured URL; a part without one stays text. */
  function ClassifyPart(part: string): (seg: Segment)
    ensures seg.TextSegment? <==> Find(ImgMarker, part, 0).None?
    ensures seg.TextSegment? ==> seg.text == part
  {
    match Find(ImgMarker, part, 0)
    case Some((a, e)) =>
      MarkerMatchShape(part, a);
      ImageSegment(part[a + 5..e - 1])
    case None => TextSegment(part)
  }

  /** `renderContent`: split on the markers, keeping them, then classify each part. */
  function RenderContent(content: string): (segs: seq<Segment>)
    ensures |segs| == |Split(ImgMarker, content)|
    ensures forall i :: 0 <= i < |segs| ==> segs[i] == ClassifyPart(Split(ImgMarker, content)[i])
  {
    var parts := Split(ImgMarker, content);
    seq(|parts|, i requires 0 <= i < |parts| => ClassifyPart(parts[i]))
  }

  /** The source text a segment stands for: an image is its marker. */
  function SegmentSource(seg: Segment): string {
    match seg
    case TextSegment(t) => t
    case ImageSegment(u) => MarkerOpen + u + "]"
  }

  function Flatten(segs: seq<Segment>): string
    decreases |segs|
  {
    if segs == [] then "" else SegmentSource(segs[0]) + Flatten(segs[1..])
  }

  /** A part of the split that is one whole marker renders as the image it names. */
  lemma MarkerPartIsImage(part: string)
    requires MatchEnd(ImgMarker, part, 0) == Some(|part|)
    ensures ClassifyPart(part).ImageSegment?
    ensures SegmentSource(ClassifyPart(part)) == part
    ensures forall k :: 0 <= k < |ClassifyPart(part).url| ==>
      ClassifyPart(part).url[k] != ']' && !IsLineTerminator(ClassifyPart(part).url[k])
  {
    var u := part[5..|part| - 1];
    assert ClassifyPart(part) == ImageSegment(u);
    assert part[..5] == MarkerOpen;
    assert part == part[..5] + u + [part[|part| - 1]];
  }

  /** The shape of a rendered body: text at even positions, holding no marker;
      at odd positions an image whose marker is exactly that part, with a URL
      free of `]` and line breaks. */
  lemma RenderContentShape(content: string, i: nat)
    requires i < |RenderContent(content)|
    ensures i % 2 == 0 ==>
      RenderContent(content)[i] == TextSegment(Split(ImgMarker, content)[i])
      && Find(ImgMarker, Split(ImgMarker, content)[i], 0).None?
    ensures i % 2 == 1 ==>
      RenderContent(content)[i].ImageSegment?
      && SegmentSource(RenderContent(content)[i]) == Split(ImgMarker, content)[i]
      && (forall k :: 0 <= k < |RenderContent(content)[i].url| ==>
            RenderContent(content)[i].url[k] != ']'
            && !IsLineTerminator(RenderContent(content)[i].url[k]))
  {
    var part := Split(ImgMarker, content)[i];
    SplitParts(ImgMarker, content, i);
    if i % 2 == 1 {
      MarkerPartIsImage(part);
    }
  }

  lemma {:induction false} FlattenParts(segs: seq<Segment>, parts: seq<string>)
    requires |segs| == |parts|
    requires forall i :: 0 <= i < |segs| ==> SegmentSource(segs[i]) == parts[i]
    ensures Flatten(segs) == Concat(parts)
    decreases |segs|
  {
    if segs != [] {
      FlattenParts(segs[1..], parts[1..]);
    }
  }

  /** Rendering loses nothing: writing every image back as its marker gives
      the body again. */
  lemma RenderContentRoundTrip(content: string)
    ensures Flatten(RenderContent(content)) == content
  {
    var segs := RenderContent(content);
    var parts := Split(ImgMarker, content);
    forall i | 0 <= i < |segs|
      ensures SegmentSource(segs[i]) == parts[i]
    {
      RenderContentShape(content, i);
    }
    FlattenParts(segs, parts);
    SplitConcat(ImgMarker, content);
  }

  /** No `[IMG:` in the body: nothing can match, so the search finds nothing. */
  lemma NoOpenerNoMatch(s: string)
    requires !Contains(s, MarkerOpen)
    ensures Find(ImgMarker, s, 0).None?
  {
    forall q | 0 <= q < |s|
      ensures MatchEnd(ImgMarker, s, q).None?
    {
      assert !OccursAt(s, MarkerOpen, q);
    }
  }

  /** A body with no marker renders as one text span holding the whole body. */
  lemma NoMarkerSingleText(content: string)
    requires !Contains(content, MarkerOpen)
    ensures RenderContent(content) == [TextSegment(content)]
  {
    NoOpenerNoMatch(content);
    assert Split(ImgMarker, content) == [content];
  }

  /** The leftmost marker of the example body spans indices 1 to 15. */
  lemma ExampleFind()
    ensures Find(ImgMarker, "a[IMG:http://x]b", 0) == Some((1, 15))
  {
    var s := "a[IMG:http://x]b";
    assert s[0] == 'a';
    assert !HasAt(s, 0, MarkerOpen);
    assert s[1..6] == MarkerOpen;
    assert CloseBracket(s, 6) == Some(14);
  }

  /** The example's marker, on its own, names "http://x". */
  lemma ExampleMarkerPart()
    ensures ClassifyPart("[IMG:http://x]") == ImageSegment("http://x")
  {
    var m := "[IMG:http://x]";
    assert m[..5] == MarkerOpen;
    assert CloseBracket(m, 5) == Some(13);
    assert Find(ImgMarker, m, 0) == Some((0, 14));
    assert m[5..13] == "http://x";
  }

  /** The example body splits into the text before, the marker and the text after. */
  lemma ExampleSplit()
    ensures Split(ImgMarker, "a[IMG:http://x]b") == ["a", "[IMG:http://x]", "b"]
  {
    var s := "a[IMG:http://x]b";
    ExampleFind();
    SplitStep(ImgMarker, s);
    assert s[15..] == "b";
    ExampleTail();
    assert s[..1] == "a";
    assert s[1..15] == "[IMG:http://x]";
  }

  /** What follows the example's marker holds no other. */
  lemma ExampleTail()
    ensures Split(ImgMarker, "b") == ["b"]
  {
    assert Find(ImgMarker, "b", 0).None?;
  }

  /** The example's plain parts hold no marker. */
  lemma ExampleTexts()
    ensures ClassifyPart("a") == TextSegment("a")
    ensures ClassifyPart("b") == TextSegment("b")
  {
    assert Find(ImgMarker, "a", 0).None?;
    assert Find(ImgMarker, "b", 0).None?;
  }

  lemma MarkerExample()
    ensures RenderContent("a[IMG:http://x]b")
      == [TextSegment("a"), ImageSegment("http://x"), TextSegment("b")]
  {
    ExampleSplit();
    ExampleMarkerPart();
    ExampleTexts();
    var parts := Split(ImgMarker, "a[IMG:http://x]b");
    var r := RenderContent("a[IMG:http://x]b");
    assert |r| == 3;
    assert r[0] == ClassifyPart(parts[0]) && parts[0] == "a";
    assert r[1] == ClassifyPart(parts[1]) && parts[1] == "[IMG:http://x]";
    assert r[2] == ClassifyPart(parts[2]) && parts[2] == "b";
  }

  // ---------------------------------------------------------------------------
  // The excerpt on the list pages

  /** `content.replace(/\[IMG:.*?\]/g, '')`: every leftmost marker, scanning
      left to right, is removed. */
  function Excerpt(content: string): (r: string)
    ensures |r| <= |content|
    decreases |content|
  {
    match Find(ImgMarker, content, 0)
    case None => content
    case Some((a, e)) => content[..a] + Excerpt(content[e..])
  }

  /** The text a rendered body shows, images left out. */
  function ShownText(segs: seq<Segment>): string
    decreases |segs|
  {
    if segs == [] then ""
    else (if segs[0].TextSegment? then segs[0].text else "") + ShownText(segs[1..])
  }

  /** An image between two text segments adds nothing to the shown text. */
  lemma ShownTextSkipsImage(segs: seq<Segment>)
    requires |segs| >= 2 && segs[0].TextSegment? && segs[1].ImageSegment?
    ensures ShownText(segs) == segs[0].text + ShownText(segs[2..])
  {
    assert segs[1..][1..] == segs[2..];
  }

  /** The rendering opens with the text before the first marker, then its image. */
  lemma RenderContentHead(content: string)
    requires Find(ImgMarker, content, 0).Some?
    ensures |RenderContent(content)| >= 2
    ensures RenderContent(content)[0] == TextSegment(content[..Find(ImgMarker, content, 0).value.0])
    ensures RenderContent(content)[1].ImageSegment?
  {
    SplitStep(ImgMarker, content);
    assert Split(ImgMarker, content)[0] == content[..Find(ImgMarker, content, 0).value.0];
    RenderContentShape(content, 0);
    RenderContentShape(content, 1);
  }

  /** After its first image, the rendering goes on as the rendering of what
      follows the first marker. */
  lemma RenderContentRest(content: string)
    requires Find(ImgMarker, content, 0).Some?
    ensures |RenderContent(content)| >= 2
    ensures RenderContent(content)[2..] == RenderContent(content[Find(ImgMarker, content, 0).value.1..])
  {
    SplitStep(ImgMarker, content);
    var e := SplitRest(ImgMarker, content);
    var rest := Split(ImgMarker, content[e..]);
    var segs := RenderContent(content);
    var tail := RenderContent(content[e..]);
    assert |segs[2..]| == |tail|;
    forall k | 0 <= k < |tail|
      ensures segs[2..][k] == tail[k]
    {
      assert Split(ImgMarker, content)[k + 2] == rest[k];
    }
  }

  /** The excerpt is exactly the text the detail page draws between its images. */
  lemma {:induction false} ExcerptIsShownText(content: string)
    ensures Excerpt(content) == ShownText(RenderContent(content))
    decreases |content|
  {
    var r := Find(ImgMarker, content, 0);
    if r.None? {
      assert Split(ImgMarker, content) == [content];
      assert RenderContent(content) == [TextSegment(content)];
    } else {
      var (a, e) := r.value;
      RenderContentHead(content);
      RenderContentRest(content);
      ShownTextSkipsImage(RenderContent(content));
      ExcerptIsShownText(content[e..]);
    }
  }

  /** A body with no `[IMG:` is its own excerpt. */
  lemma NoMarkerExcerptUnchanged(content: string)
    requires !Contains(content, MarkerOpen)
    ensures Excerpt(content) == content
  {
    NoOpenerNoMatch(content);
  }

  // ---------------------------------------------------------------------------
  // Cover images on the list pages

  const DefaultArticleImage: string :=
    "https://media.istockphoto.com/id/1170028399/vector/white-half-tone-background.jpg?s=612x612&w=0&k=20&c=2L44isbJdJt3LW7yYOhqLLiByWELcujetoXKsx6QVdE="

  /** `getArticleImage`: the article's own image unless it is missing or blank. */
  function ArticleImage(url: string): (r: string)
    ensures !AllSpace(url) ==> r == url
    ensures AllSpace(url) ==> r == DefaultArticleImage
  {
    TrimEmptyIffBlank(url);
    if url != "" && Trim(url) != "" then url else DefaultArticleImage
  }
}
