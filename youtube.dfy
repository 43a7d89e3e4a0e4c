/** YouTube video ids, as the two pages extract them with `url.match(regExp)`.

    The videos page uses
      `^.*(youtu.be\/|v\/|u\/\w\/|embed\/|watch\?v=|\&v=)([^#\&\?]*).*`
    and the search page
      `^.*((youtu.be\/)|(v\/)|(\/u\/\w\/)|(embed\/)|(watch\?))\??v?=?([^#&?]*).*`.

    How a backtracking engine runs them: the greedy `^.*` first takes the
    whole first line (`.` stops at a line terminator) and gives characters
    back one at a time, so the alternation is tried at the LAST position of
    the first line where one of its branches matches. The branches start with
    distinct characters, so at most one matches at a given position. What
    follows the alternation (the optional `?`, `v`, `=`, the greedy id group
    and the trailing `.*`) always succeeds at its first attempt, so the engine
    never backtracks to an earlier position. The id is the longest run of
    characters other than `#`, `&`, `?` after the branch; the page accepts it
    only when it is exactly 11 characters long. */
module YouTube {
  import opened JsLib

  datatype IdRegex = VideosPageRegex | SearchPageRegex

  /** `\w`. */
  predicate IsWordChar(c: char) {
    ('a' <= c <= 'z') || ('A' <= c <= 'Z') || ('0' <= c <= '9') || c == '_'
  }

  /** The characters the id group `[^#&?]` stops at. */
  predicate IsIdStop(c: char) {
    c == '#' || c == '&' || c == '?'
  }

  /** Where the first line ends: what the greedy `^.*` can cover. */
  function LineEnd(s: string, i: nat): (e: nat)
    requires i <= |s|
    ensures i <= e <= |s|
    ensures forall k :: i <= k < e ==> !IsLineTerminator(s[k])
    ensures e < |s| ==> IsLineTerminator(s[e])
    decreases |s| - i
  {
    if i == |s| || IsLineTerminator(s[i]) then i else LineEnd(s, i + 1)
  }

  /** Character `c` is at index `p` of `s`. */
  predicate At(s: string, p: nat, c: char) {
    p < |s| && s[p] == c
  }

  /** `youtu.be\/`: the `.` is any character but a line terminator. */
  predicate ShortHostAt(s: string, p: nat) {
    && At(s, p, 'y') && At(s, p + 1, 'o') && At(s, p + 2, 'u') && At(s, p + 3, 't') && At(s, p + 4, 'u')
    && p + 5 < |s| && !IsLineTerminator(s[p + 5])
    && At(s, p + 6, 'b') && At(s, p + 7, 'e') && At(s, p + 8, '/')
  }

  predicate EmbedAt(s: string, p: nat) {
    At(s, p, 'e') && At(s, p + 1, 'm') && At(s, p + 2, 'b') && At(s, p + 3, 'e') && At(s, p + 4, 'd') && At(s, p + 5, '/')
  }

  /** `watch\?`. */
  predicate WatchAt(s: string, p: nat) {
    At(s, p, 'w') && At(s, p + 1, 'a') && At(s, p + 2, 't') && At(s, p + 3, 'c') && At(s, p + 4, 'h') && At(s, p + 5, '?')
  }

  /** End of the alternation branch that matches at `p`, if one does. */
  function AltEnd(rx: IdRegex, s: string, p: nat): (r: Option<nat>)
    ensures r.Some? ==> p < r.value <= |s|
  {
    match rx
    case VideosPageRegex =>
      if ShortHostAt(s, p) then Some(p + 9)                                        // youtu.be\/
      else if At(s, p, 'v') && At(s, p + 1, '/') then Some(p + 2)                  // v\/
      else if At(s, p, 'u') && At(s, p + 1, '/') && p + 2 < |s| && IsWordChar(s[p + 2])
              && At(s, p + 3, '/') then Some(p + 4)                               // u\/\w\/
      else if EmbedAt(s, p) then Some(p + 6)                                      // embed\/
      else if WatchAt(s, p) && At(s, p + 6, 'v') && At(s, p + 7, '=') then Some(p + 8)  // watch\?v=
      else if At(s, p, '&') && At(s, p + 1, 'v') && At(s, p + 2, '=') then Some(p + 3)  // \&v=
      else None
    case SearchPageRegex =>
      if ShortHostAt(s, p) then Some(p + 9)                                        // youtu.be\/
      else if At(s, p, 'v') && At(s, p + 1, '/') then Some(p + 2)                  // v\/
      else if At(s, p, '/') && At(s, p + 1, 'u') && At(s, p + 2, '/') && p + 3 < |s|
              && IsWordChar(s[p + 3]) && At(s, p + 4, '/') then Some(p + 5)       // \/u\/\w\/
      else if EmbedAt(s, p) then Some(p + 6)                                      // embed\/
      else if WatchAt(s, p) then Some(p + 6)                                      // watch\?
      else None
  }

  /** The last position at or before `p` where a branch matches. */
  function LastAlt(rx: IdRegex, s: string, p: nat): (r: Option<nat>)
    ensures r.Some? ==> r.value <= p && AltEnd(rx, s, r.value).Some?
    ensures r.Some? ==> forall q :: r.value < q <= p ==> AltEnd(rx, s, q).None?
    ensures r.None? ==> forall q :: 0 <= q <= p ==> AltEnd(rx, s, q).None?
    decreases p
  {
    if AltEnd(rx, s, p).Some? then Some(p)
    else if p == 0 then None
    else LastAlt(rx, s, p - 1)
  }

  /** The greedy `\??v?=?` of the search page's pattern, from `j`. */
  function SkipOptionals(s: string, j: nat): (k: nat)
    requires j <= |s|
    ensures j <= k <= |s|
  {
    var j1 := if j < |s| && s[j] == '?' then j + 1 else j;
    var j2 := if j1 < |s| && s[j1] == 'v' then j1 + 1 else j1;
    if j2 < |s| && s[j2] == '=' then j2 + 1 else j2
  }

  /** The greedy id group `([^#&?]*)` from `j`. */
  function IdRunEnd(s: string, j: nat): (k: nat)
    requires j <= |s|
    ensures j <= k <= |s|
    ensures forall i :: j <= i < k ==> !IsIdStop(s[i])
    ensures k < |s| ==> IsIdStop(s[k])
    decreases |s| - j
  {
    if j == |s| || IsIdStop(s[j]) then j else IdRunEnd(s, j + 1)
  }

  /** Where the id group starts once a branch has matched at `p`. */
  function IdStart(rx: IdRegex, s: string, p: nat): (j: nat)
    requires AltEnd(rx, s, p).Some?
    ensures p < j <= |s|
  {
    var e := AltEnd(rx, s, p).value;
    match rx
    case VideosPageRegex => e
    case SearchPageRegex => SkipOptionals(s, e)
  }

  /** `getYoutubeId`: the captured id when it is 11 characters, else null. */
  function YoutubeId(rx: IdRegex, url: string): (r: Option<string>)
    ensures r.Some? ==> |r.value| == 11 && forall k :: 0 <= k < 11 ==> !IsIdStop(r.value[k])
  {
    match LastAlt(rx, url, LineEnd(url, 0))
    case None => None
    case Some(p) =>
      var j := IdStart(rx, url, p);
      var id := url[j..IdRunEnd(url, j)];
      if |id| == 11 then Some(id) else None
  }

  /** How a template literal prints an id that may be null. */
  function IdText(id: Option<string>): string {
    match id
    case Some(s) => s
    case None => "null"
  }

  // ---------------------------------------------------------------------------
  // What the extraction returns

  /** Every id returned is the whole id group after the last branch match on
      the first line: it is followed by the end of the URL or by `#`, `&`, `?`. */
  lemma YoutubeIdSound(rx: IdRegex, url: string)
    requires YoutubeId(rx, url).Some?
    ensures exists p: nat :: (
      && p <= LineEnd(url, 0) && AltEnd(rx, url, p).Some?
      && (forall q :: p < q <= LineEnd(url, 0) ==> AltEnd(rx, url, q).None?)
      && IdStart(rx, url, p) + 11 <= |url|
      && url[IdStart(rx, url, p)..IdStart(rx, url, p) + 11] == YoutubeId(rx, url).value
      && (IdStart(rx, url, p) + 11 == |url| || IsIdStop(url[IdStart(rx, url, p) + 11])))
  {
    var p := LastAlt(rx, url, LineEnd(url, 0)).value;
    var j := IdStart(rx, url, p);
    assert IdRunEnd(url, j) == j + 11;
  }

  /** The characters no branch can do without. */
  predicate IsBranchChar(c: char) {
    c == '/' || c == '?' || c == '&'
  }

  /** Every branch of both patterns contains `/`, `?` or `&`, so none matches in
      a stretch of text free of them. */
  lemma NoBranchWithoutBranchChar(rx: IdRegex, s: string, p: nat)
    requires forall k :: p <= k < |s| ==> !IsBranchChar(s[k])
    ensures AltEnd(rx, s, p).None?
  {
    if p < |s| { assert !IsBranchChar(s[p]); }
    if p + 1 < |s| { assert !IsBranchChar(s[p + 1]); }
    if p + 5 < |s| { assert !IsBranchChar(s[p + 5]); }
    if p + 8 < |s| { assert !IsBranchChar(s[p + 8]); }
  }

  /** The first two (for `/u/`, three) characters of some branch of `rx` are at `p`. */
  predicate BranchOpensAt(rx: IdRegex, s: string, p: nat) {
    p + 1 < |s| &&
    (|| (s[p] == 'y' && s[p + 1] == 'o')
     || (s[p] == 'v' && s[p + 1] == '/')
     || (s[p] == 'u' && s[p + 1] == '/')
     || (s[p] == '/' && s[p + 1] == 'u' && p + 2 < |s| && s[p + 2] == '/')
     || (s[p] == 'e' && s[p + 1] == 'm')
     || (s[p] == 'w' && s[p + 1] == 'a')
     || (rx == VideosPageRegex && s[p] == '&' && s[p + 1] == 'v'))
  }

  lemma NoBranchUnopened(rx: IdRegex, s: string, p: nat)
    requires !BranchOpensAt(rx, s, p)
    ensures AltEnd(rx, s, p).None?
  {
    if p + 1 < |s| {
      assert s[p..p + 2][0] == s[p] && s[p..p + 2][1] == s[p + 1];
    }
    if p + 2 < |s| {
      assert s[p..p + 3][2] == s[p + 2];
    }
  }

  /** A well-formed id: 11 characters, none of which can end the id group,
      belong to a branch, or end the line. */
  predicate ValidId(id: string) {
    |id| == 11 && forall k :: 0 <= k < 11 ==>
      !IsIdStop(id[k]) && !IsBranchChar(id[k]) && !IsLineTerminator(id[k])
  }

  predicate SingleLine(s: string) {
    forall k :: 0 <= k < |s| ==> !IsLineTerminator(s[k])
  }

  lemma SingleLineConcat(a: string, b: string)
    requires SingleLine(a) && SingleLine(b)
    ensures SingleLine(a + b)
  {
    forall k | 0 <= k < |a + b|
      ensures !IsLineTerminator((a + b)[k])
    {
      if k >= |a| {
        assert (a + b)[k] == b[k - |a|];
      }
    }
  }

  /** When a branch matches at `p`, none matches after it, and the id group
      that follows is `id` up to the end, extraction returns `id`. */
  lemma IdAtEnd(rx: IdRegex, url: string, p: nat, id: string)
    requires SingleLine(url) && ValidId(id)
    requires AltEnd(rx, url, p).Some? && IdStart(rx, url, p) + 11 == |url|
    requires url[IdStart(rx, url, p)..] == id
    requires forall q :: p < q <= |url| ==> AltEnd(rx, url, q).None?
    ensures YoutubeId(rx, url) == Some(id)
  {
    assert LineEnd(url, 0) == |url|;
    var j := IdStart(rx, url, p);
    var r := LastAlt(rx, url, |url|);
    assert r.Some? && !(r.value < p) && !(p < r.value);
    assert forall k :: j <= k < |url| ==> url[k] == id[k - j];
    assert IdRunEnd(url, j) == |url|;
    assert url[j..IdRunEnd(url, j)] == id;
  }

  /** Inside a valid id no branch matches. */
  lemma NoBranchInId(rx: IdRegex, url: string, j: nat, id: string)
    requires ValidId(id) && j + 11 == |url| && url[j..] == id
    ensures forall q :: j <= q <= |url| ==> AltEnd(rx, url, q).None?
  {
    forall q | j <= q <= |url|
      ensures AltEnd(rx, url, q).None?
    {
      assert forall k :: q <= k < |url| ==> url[k] == id[k - j];
      NoBranchWithoutBranchChar(rx, url, q);
    }
  }

  /** The pieces of `base + lit + id`, character by character. */
  lemma Pieces(base: string, lit: string, id: string)
    requires SingleLine(base) && SingleLine(lit) && ValidId(id)
    ensures SingleLine(base + lit + id)
    ensures (base + lit + id)[|base| + |lit|..] == id
    ensures forall k :: 0 <= k < |lit| ==> (base + lit + id)[|base| + k] == lit[k]
    ensures forall k :: 0 <= k < |id| ==> (base + lit + id)[|base| + |lit| + k] == id[k]
  {
    SingleLineConcat(base, lit);
    SingleLineConcat(base + lit, id);
  }

  /** Both pages read the id out of a `watch?v=` link. */
  lemma WatchLinkId(rx: IdRegex, base: string, id: string)
    requires SingleLine(base) && ValidId(id)
    ensures YoutubeId(rx, base + "watch?v=" + id) == Some(id)
  {
    var lit := "watch?v=";
    var url := base + lit + id;
    var b := |base|;
    Pieces(base, lit, id);
    NoBranchInId(rx, url, b + 8, id);
    forall q | b < q < b + 8
      ensures AltEnd(rx, url, q).None?
    {
      assert url[q] == lit[q - b];
      if q + 1 < b + 8 { assert url[q + 1] == lit[q - b + 1]; }
      NoBranchUnopened(rx, url, q);
    }
    assert url[b..b + 8] == lit;
    assert url[b..b + 6] == "watch?";
    if rx == SearchPageRegex {
      assert AltEnd(rx, url, b) == Some(b + 6);
      assert url[b + 6] == 'v' && url[b + 7] == '=';
    } else {
      assert AltEnd(rx, url, b) == Some(b + 8);
    }
    assert IdStart(rx, url, b) == b + 8;
    IdAtEnd(rx, url, b, id);
  }

  /** In a `youtu.be/` short link the last branch is the host itself. */
  lemma ShortLinkBranch(rx: IdRegex, base: string, id: string)
    requires SingleLine(base) && ValidId(id)
    ensures var url := base + "youtu.be/" + id;
      && SingleLine(url) && url[|base| + 9..] == id
      && LastAlt(rx, url, LineEnd(url, 0)) == Some(|base|)
      && AltEnd(rx, url, |base|) == Some(|base| + 9)
  {
    var lit := "youtu.be/";
    var url := base + lit + id;
    var b := |base|;
    Pieces(base, lit, id);
    NoBranchInId(rx, url, b + 9, id);
    forall q | b < q < b + 9
      ensures AltEnd(rx, url, q).None?
    {
      assert url[q] == lit[q - b];
      if q + 1 < b + 9 {
        assert url[q + 1] == lit[q - b + 1];
      } else {
        assert url[q + 1] == id[0] && url[q + 2] == id[1];
      }
      NoBranchUnopened(rx, url, q);
    }
    assert url[b..b + 9] == lit;
    assert AltEnd(rx, url, b) == Some(b + 9);
    assert LineEnd(url, 0) == |url|;
    var r := LastAlt(rx, url, |url|);
    assert r.Some? && !(r.value < b) && !(b < r.value);
  }

  /** A `youtu.be/` short link: the videos page always reads the id; the search
      page's optional `v?=?` swallows a leading `v` or `=` of the id. */
  lemma ShortLinkId(rx: IdRegex, base: string, id: string)
    requires SingleLine(base) && ValidId(id)
    requires rx == SearchPageRegex ==> id[0] != 'v' && id[0] != '='
    ensures YoutubeId(rx, base + "youtu.be/" + id) == Some(id)
  {
    var url := base + "youtu.be/" + id;
    var b := |base|;
    ShortLinkBranch(rx, base, id);
    assert url[b + 9] == id[0];
    assert IdStart(rx, url, b) == b + 9;
    assert forall k :: b + 9 <= k < |url| ==> url[k] == id[k - b - 9];
    assert IdRunEnd(url, b + 9) == |url|;
    assert url[b + 9..IdRunEnd(url, b + 9)] == id;
  }

  /** The search page finds no id in a short link whose id starts with `v`,
      where the videos page finds it. */
  lemma ShortLinkLeadingV(base: string, id: string)
    requires SingleLine(base) && ValidId(id) && id[0] == 'v'
    ensures YoutubeId(VideosPageRegex, base + "youtu.be/" + id) == Some(id)
    ensures YoutubeId(SearchPageRegex, base + "youtu.be/" + id) == None
  {
    ShortLinkId(VideosPageRegex, base, id);
    var url := base + "youtu.be/" + id;
    var b := |base|;
    ShortLinkBranch(SearchPageRegex, base, id);
    assert url[b + 9] == 'v';
    var j := IdStart(SearchPageRegex, url, b);
    assert j >= b + 10;
  }

  /** The videos page also reads the id out of a later `&v=` parameter. */
  lemma AmpParamId(base: string, id: string)
    requires SingleLine(base) && ValidId(id)
    ensures YoutubeId(VideosPageRegex, base + "&v=" + id) == Some(id)
  {
    var lit := "&v=";
    var url := base + lit + id;
    var b := |base|;
    Pieces(base, lit, id);
    NoBranchInId(VideosPageRegex, url, b + 3, id);
    forall q | b < q < b + 3
      ensures AltEnd(VideosPageRegex, url, q).None?
    {
      assert url[q] == lit[q - b];
      if q + 1 < b + 3 { assert url[q + 1] == lit[q - b + 1]; } else { assert url[q + 1] == id[0]; }
      NoBranchUnopened(VideosPageRegex, url, q);
    }
    assert url[b..b + 3] == lit;
    assert AltEnd(VideosPageRegex, url, b) == Some(b + 3);
    IdAtEnd(VideosPageRegex, url, b, id);
  }

  const YoutubeHome: string := "https://www.youtube.com/"

  lemma YoutubeHomeSingleLine()
    ensures SingleLine(YoutubeHome)
  {
    assert SingleLine("https://www.") && SingleLine("youtube.com/");
    SingleLineConcat("https://www.", "youtube.com/");
    assert "https://www." + "youtube.com/" == YoutubeHome;
  }

  /** The seed video's URL yields its id on both pages. */
  lemma SeedUrlId(rx: IdRegex)
    ensures YoutubeId(rx, YoutubeHome + "watch?v=" + "dQw4w9WgXcQ") == Some("dQw4w9WgXcQ")
  {
    YoutubeHomeSingleLine();
    WatchLinkId(rx, YoutubeHome, "dQw4w9WgXcQ");
  }

  /** On a watch link whose `v` parameter is not the first, the videos page's
      `&v=` branch finds the id ... */
  lemma LaterParamVideosPage()
    ensures YoutubeId(VideosPageRegex, YoutubeHome + "watch?x=1" + "&v=" + "dQw4w9WgXcQ") == Some("dQw4w9WgXcQ")
  {
    YoutubeHomeSingleLine();
    assert SingleLine("watch?x=1");
    SingleLineConcat(YoutubeHome, "watch?x=1");
    AmpParamId(YoutubeHome + "watch?x=1", "dQw4w9WgXcQ");
  }

  /** In "watch?x=1&v=<id>" the search page's last branch is the "watch?" itself. */
  lemma LaterParamBranch(base: string, id: string)
    requires SingleLine(base) && ValidId(id)
    ensures LastAlt(SearchPageRegex, base + "watch?x=1&v=" + id, |base + "watch?x=1&v=" + id|) == Some(|base|)
  {
    var lit := "watch?x=1&v=";
    var url := base + lit + id;
    var b := |base|;
    assert SingleLine(lit);
    Pieces(base, lit, id);
    NoBranchInId(SearchPageRegex, url, b + 12, id);
    forall q | b < q < b + 12
      ensures AltEnd(SearchPageRegex, url, q).None?
    {
      assert url[q] == lit[q - b];
      if q + 1 < b + 12 { assert url[q + 1] == lit[q - b + 1]; } else { assert url[q + 1] == id[0]; }
      NoBranchUnopened(SearchPageRegex, url, q);
    }
    assert url[b..b + 6] == "watch?";
    assert AltEnd(SearchPageRegex, url, b) == Some(b + 6);
    var r := LastAlt(SearchPageRegex, url, |url|);
    assert r.Some? && !(r.value < b) && !(b < r.value);
  }

  /** ... while the search page, which has no `&v=` branch, reads `x=1` after
      "watch?" as the id and rejects it. */
  lemma LaterParamSearchPage(base: string, id: string)
    requires SingleLine(base) && ValidId(id)
    ensures YoutubeId(SearchPageRegex, base + "watch?x=1&v=" + id) == None
  {
    var url := base + "watch?x=1&v=" + id;
    var b := |base|;
    Pieces(base, "watch?x=1&v=", id);
    assert SingleLine("watch?x=1&v=");
    assert LineEnd(url, 0) == |url|;
    LaterParamBranch(base, id);
    assert url[b + 6] == 'x';
    assert IdStart(SearchPageRegex, url, b) == b + 6;
    assert url[b + 9] == '&' && forall k :: b + 6 <= k < b + 9 ==> !IsIdStop(url[k]);
    assert IdRunEnd(url, b + 6) == b + 9;
  }
}
