/** The two regular expressions the pages hand to `String.prototype.split`
    (with the whole pattern as a capture group, so the matches are kept):

      ImgMarker  `\[IMG:.*?\]`        article bodies (ArticleDetail, excerpts)
      HttpUrl    `https?:\/\/[^\s]+`  video descriptions (VideosPage)

    Each is hand-coded as `MatchEnd`, where the match starting at a given index
    ends. `Find` is the leftmost-match search the regex engine performs, and
    `Split` is JavaScript's split with a capturing separator: text, match,
    text, ..., text. */
module Patterns {
  import opened JsLib

  datatype Pattern = ImgMarker | HttpUrl

  const MarkerOpen: string := "[IMG:"

  predicate HasAt(s: string, i: nat, lit: string) {
    i + |lit| <= |s| && s[i..i + |lit|] == lit
  }

  /** The non-greedy `.*?\]`: the first ']' at or after `j`, unless a line
      terminator (which `.` does not match) or the end comes first. */
  function CloseBracket(s: string, j: nat): (r: Option<nat>)
    ensures r.Some? ==> j <= r.value < |s| && s[r.value] == ']'
    ensures r.Some? ==> forall k :: j <= k < r.value ==> s[k] != ']' && !IsLineTerminator(s[k])
    decreases |s| - j
  {
    if j >= |s| then None
    else if s[j] == ']' then Some(j)
    else if IsLineTerminator(s[j]) then None
    else CloseBracket(s, j + 1)
  }

  /** The greedy `[^\s]*` from `j`: where the run of non-space characters ends. */
  function NonSpaceRunEnd(s: string, j: nat): (k: nat)
    requires j <= |s|
    ensures j <= k <= |s|
    ensures forall i :: j <= i < k ==> !IsSpace(s[i])
    ensures k < |s| ==> IsSpace(s[k])
    decreases |s| - j
  {
    if j == |s| || IsSpace(s[j]) then j else NonSpaceRunEnd(s, j + 1)
  }

  /** `https?:\/\/`: where the scheme and its "://" end, if one starts at `i`. */
  function SchemeEnd(s: string, i: nat): (r: Option<nat>)
    ensures r.Some? ==> i + 7 <= r.value <= |s|
  {
    if HasAt(s, i, "http://") then Some(i + 7)
    else if HasAt(s, i, "https://") then Some(i + 8)
    else None
  }

  /** End (exclusive) of the match of `p` that starts at index `i` of `s`. */
  function MatchEnd(p: Pattern, s: string, i: nat): (r: Option<nat>)
    ensures r.Some? ==> i < r.value <= |s|
  {
    match p
    case ImgMarker =>
      if HasAt(s, i, MarkerOpen) then
        match CloseBracket(s, i + 5)
        case Some(k) => Some(k + 1)
        case None => None
      else None
    case HttpUrl =>
      match SchemeEnd(s, i)
      case Some(j) =>
        if j < |s| && !IsSpace(s[j]) then Some(NonSpaceRunEnd(s, j)) else None
      case None => None
  }

  /** A marker match is "[IMG:" followed by the text up to the first ']'. */
  lemma MarkerMatchShape(s: string, i: nat)
    requires MatchEnd(ImgMarker, s, i).Some?
    ensures HasAt(s, i, MarkerOpen)
    ensures CloseBracket(s, i + 5) == Some(MatchEnd(ImgMarker, s, i).value - 1)
  {
  }

  /** The leftmost match at or after `i`, as (start, end). */
  function Find(p: Pattern, s: string, i: nat): (r: Option<(nat, nat)>)
    ensures r.Some? ==> i <= r.value.0 < r.value.1 <= |s|
    ensures r.Some? ==> MatchEnd(p, s, r.value.0) == Some(r.value.1)
    ensures r.Some? ==> forall q :: i <= q < r.value.0 ==> MatchEnd(p, s, q).None?
    ensures r.None? ==> forall q :: i <= q < |s| ==> MatchEnd(p, s, q).None?
    decreases |s| - i
  {
    if i >= |s| then None
    else
      match MatchEnd(p, s, i)
      case Some(e) => Some((i, e))
      case None => Find(p, s, i + 1)
  }

  /** `s.split(/(re)/g)`: the texts between matches at even indices, the
      matches themselves at odd indices. */
  function Split(p: Pattern, s: string): (parts: seq<string>)
    ensures |parts| % 2 == 1
    decreases |s|
  {
    var r := Find(p, s, 0);
    if r.None? then [s]
    else
      var (a, e) := r.value;
      [s[..a], s[a..e]] + Split(p, s[e..])
  }

  function Concat(parts: seq<string>): string
    decreases |parts|
  {
    if parts == [] then "" else parts[0] + Concat(parts[1..])
  }

  lemma {:induction false} ConcatTwoThen(x: string, y: string, rest: seq<string>)
    ensures Concat([x, y] + rest) == x + y + Concat(rest)
  {
    assert ([x, y] + rest)[1..] == [y] + rest;
    assert ([y] + rest)[1..] == rest;
  }

  /** Splitting loses nothing: the parts concatenate back to the input. */
  lemma {:induction false} SplitConcat(p: Pattern, s: string)
    ensures Concat(Split(p, s)) == s
    decreases |s|
  {
    var r := Find(p, s, 0);
    if r.None? {
      assert Split(p, s) == [s];
      assert Concat([s]) == s + Concat([]);
    } else {
      var (a, e) := r.value;
      var rest := Split(p, s[e..]);
      assert Split(p, s) == [s[..a], s[a..e]] + rest;
      SplitConcat(p, s[e..]);
      ConcatTwoThen(s[..a], s[a..e], rest);
      ThreeSlices(s, a, e);
    }
  }

  lemma ThreeSlices(s: string, a: nat, e: nat)
    requires a <= e <= |s|
    ensures s[..a] + s[a..e] + s[e..] == s
  {
    assert s[..a] + s[a..e] == s[..e];
  }

  // ---------------------------------------------------------------------------
  // Matches depend only on the text they cover

  lemma {:induction false} CloseBracketPrefix(s: string, a: nat, j: nat)
    requires a <= |s| && CloseBracket(s[..a], j).Some?
    ensures CloseBracket(s, j) == CloseBracket(s[..a], j)
    decreases a - j
  {
    if s[..a][j] != ']' {
      CloseBracketPrefix(s, a, j + 1);
    }
  }

  lemma {:induction false} CloseBracketWithin(s: string, a: nat, e: nat, j: nat)
    requires a <= j && e <= |s| && CloseBracket(s, j).Some? && CloseBracket(s, j).value < e
    ensures CloseBracket(s[a..e], j - a) == Some(CloseBracket(s, j).value - a)
    decreases |s| - j
  {
    if s[j] != ']' {
      CloseBracketWithin(s, a, e, j + 1);
    }
  }

  lemma {:induction false} NonSpaceRunEndUnique(s: string, j: nat, k: nat)
    requires j <= k <= |s|
    requires forall i :: j <= i < k ==> !IsSpace(s[i])
    requires k < |s| ==> IsSpace(s[k])
    ensures NonSpaceRunEnd(s, j) == k
    decreases k - j
  {
    if j < k {
      NonSpaceRunEndUnique(s, j + 1, k);
    }
  }

  /** A match in a prefix of `s` is a match in `s` too. */
  lemma MatchInPrefix(p: Pattern, s: string, a: nat, q: nat)
    requires q < a <= |s| && MatchEnd(p, s[..a], q).Some?
    ensures MatchEnd(p, s, q).Some?
  {
    match p
    case ImgMarker =>
      assert s[..a][q..q + 5] == s[q..q + 5];
      CloseBracketPrefix(s, a, q + 5);
    case HttpUrl =>
      var j := SchemeEnd(s[..a], q).value;
      if HasAt(s[..a], q, "http://") {
        assert s[..a][q..q + 7] == s[q..q + 7];
      } else {
        assert s[..a][q..q + 8] == s[q..q + 8];
      }
      assert s[..a][j] == s[j];
  }

  /** A match of `s` from `a` to `e`, cut out on its own, matches from 0 to its end. */
  lemma MatchIsolated(p: Pattern, s: string, a: nat, e: nat)
    requires MatchEnd(p, s, a) == Some(e)
    ensures MatchEnd(p, s[a..e], 0) == Some(e - a)
  {
    var t := s[a..e];
    match p
    case ImgMarker =>
      var k := CloseBracket(s, a + 5).value;
      assert t[0..5] == s[a..a + 5];
      CloseBracketWithin(s, a, e, a + 5);
    case HttpUrl =>
      var j := SchemeEnd(s, a).value;
      assert a + 7 <= j < e;
      forall k | 0 <= k < j - a
        ensures t[k] == s[a + k]
      {
      }
      if HasAt(s, a, "http://") {
        assert t[0..7] == s[a..a + 7];
      } else {
        assert j == a + 8;
        assert t[0..8] == s[a..a + 8];
        assert !HasAt(t, 0, "http://") by { assert t[4] == s[a + 4]; }
      }
      assert SchemeEnd(t, 0) == Some(j - a);
      NonSpaceRunEndUnique(t, j - a, e - a);
  }

  /** A text with no match anywhere before `a` has no match in its first `a` characters. */
  lemma NoMatchInPrefix(p: Pattern, s: string, a: nat)
    requires a <= |s|
    requires forall q :: 0 <= q < a ==> MatchEnd(p, s, q).None?
    ensures Find(p, s[..a], 0).None?
  {
    var r := Find(p, s[..a], 0);
    if r.Some? {
      MatchInPrefix(p, s, a, r.value.0);
    }
  }

  /** One step of a split: the text before the leftmost match, the match,
      then the split of what follows. */
  lemma SplitStep(p: Pattern, s: string)
    requires Find(p, s, 0).Some?
    ensures var (a, e) := Find(p, s, 0).value;
      Split(p, s) == [s[..a], s[a..e]] + Split(p, s[e..])
  {
  }

  /** What a part of a split looks like: text without a match at even
      indices, one whole match at odd ones. */
  predicate PartShape(p: Pattern, part: string, odd: bool) {
    && (!odd ==> Find(p, part, 0).None?)
    && (odd ==> MatchEnd(p, part, 0) == Some(|part|))
  }

  /** The first part of a split holds no match. */
  lemma SplitHeadNoMatch(p: Pattern, s: string)
    ensures PartShape(p, Split(p, s)[0], false)
  {
    var r := Find(p, s, 0);
    if r.Some? {
      SplitStep(p, s);
      NoMatchInPrefix(p, s, r.value.0);
    }
  }

  /** The second part of a split, when there is one, is exactly one match. */
  lemma SplitSecondIsMatch(p: Pattern, s: string)
    requires |Split(p, s)| > 1
    ensures PartShape(p, Split(p, s)[1], true)
  {
    var (a, e) := Find(p, s, 0).value;
    SplitStep(p, s);
    assert Split(p, s)[1] == s[a..e];
    MatchIsolated(p, s, a, e);
  }

  /** Past its first two parts, a split continues with the split of what
      follows the leftmost match, which ends at `e`. */
  lemma SplitRest(p: Pattern, s: string) returns (e: nat)
    requires |Split(p, s)| > 1
    ensures Find(p, s, 0).Some? && e == Find(p, s, 0).value.1
    ensures 0 < e <= |s|
    ensures |Split(p, s)| == |Split(p, s[e..])| + 2
    ensures forall k :: 0 <= k < |Split(p, s[e..])| ==> Split(p, s)[k + 2] == Split(p, s[e..])[k]
  {
    e := Find(p, s, 0).value.1;
    SplitStep(p, s);
  }

  /** The parts at `2 * j` and `2 * j + 1`: a text without a match, then one
      whole match. */
  lemma {:induction false} SplitPair(p: Pattern, s: string, j: nat)
    requires 2 * j < |Split(p, s)|
    ensures PartShape(p, Split(p, s)[2 * j], false)
    ensures 2 * j + 1 < |Split(p, s)| ==> PartShape(p, Split(p, s)[2 * j + 1], true)
    decreases |s|
  {
    if j == 0 {
      SplitHeadNoMatch(p, s);
      if |Split(p, s)| > 1 {
        SplitSecondIsMatch(p, s);
      }
    } else {
      var e := SplitRest(p, s);
      SplitPair(p, s[e..], j - 1);
    }
  }

  /** The shape of a split: every text part is free of matches, and every
      odd part is, from its first to its last character, one match. */
  lemma SplitParts(p: Pattern, s: string, i: nat)
    requires i < |Split(p, s)|
    ensures PartShape(p, Split(p, s)[i], i % 2 == 1)
  {
    var j := i / 2;
    if i % 2 == 0 {
      assert i == 2 * j;
      SplitPair(p, s, j);
    } else {
      assert i == 2 * j + 1;
      SplitPair(p, s, j);
    }
  }

  /** A part of a split contains a match exactly when it sits at an odd index. */
  lemma SplitMatchIffOdd(p: Pattern, s: string, i: nat)
    requires i < |Split(p, s)|
    ensures Find(p, Split(p, s)[i], 0).Some? <==> i % 2 == 1
  {
    SplitParts(p, s, i);
  }
}
