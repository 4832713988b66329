/**
 * The three URL helpers of the link-analysis backend: `cleanUrl`, which drops
 * one trailing punctuation mark and surrounding whitespace; `getYouTubeVideoId`,
 * which finds an 11-character video id with a regular expression; and
 * `isSocialMediaLink`, which compares a URL's host with five social networks.
 */
module UrlHelpers {
  import opened Wrappers
  import opened Text

  // ---------------------------------------------------------------- cleanUrl

  /** The characters of the class `[.,;]`. */
  predicate IsTrailingPunct(c: char) {
    c == '.' || c == ',' || c == ';'
  }

  /** One `.`, `,` or `;` is dropped when it is the very last character: the anchor has no multiline flag. */
  function DropTrailingPunct(url: string): (r: string)
    ensures |url| > 0 && IsTrailingPunct(url[|url| - 1]) ==> r == url[..|url| - 1]
    ensures !(|url| > 0 && IsTrailingPunct(url[|url| - 1])) ==> r == url
  {
    if |url| > 0 && IsTrailingPunct(url[|url| - 1]) then url[..|url| - 1] else url
  }

  /** `cleanUrl(url)`: the punctuation is removed before trimming. */
  function CleanUrl(url: string): (r: string)
  {
    Trim(DropTrailingPunct(url))
  }

  /**
   * What `cleanUrl` keeps: a piece of the input framed by whitespace, except
   * that at most one `.`, `,` or `;` that was the input's very last character
   * is dropped as well. The result neither starts nor ends with whitespace.
   */
  lemma CleanUrlShape(url: string)
    ensures var r := CleanUrl(url);
            r == "" || (!IsJsWhitespace(r[0]) && !IsJsWhitespace(r[|r| - 1]))
    ensures var r := CleanUrl(url);
            exists i, j :: 0 <= i <= j <= |url| && url[i..j] == r && AllWhitespace(url[..i])
              && (AllWhitespace(url[j..]) || (j < |url| && AllWhitespace(url[j..|url| - 1]) && IsTrailingPunct(url[|url| - 1])))
  {
    var d := DropTrailingPunct(url);
    TrimFrame(d);
    var i := TrimStartIndex(d, 0);
    var j := TrimEndIndex(d, i, |d|);
    assert url[i..j] == d[i..j];
    assert url[..i] == d[..i];
    if d == url {
      assert AllWhitespace(url[j..]);
    } else {
      assert url[j..|url| - 1] == d[j..];
    }
  }

  /** A link that is already clean is left as it is. */
  lemma {:induction false} CleanUrlKeepsCleanLink(url: string)
    requires url != ""
    requires !IsJsWhitespace(url[0]) && !IsJsWhitespace(url[|url| - 1])
    requires !IsTrailingPunct(url[|url| - 1])
    ensures CleanUrl(url) == url
  {
    assert DropTrailingPunct(url) == url;
    assert TrimStartIndex(url, 0) == 0;
    assert TrimEndIndex(url, 0, |url|) == |url|;
    assert url[0..|url|] == url;
  }

  /** Only the very last character is looked at: of two marks one stays, and a mark followed by a space stays. */
  lemma CleanUrlExamples()
    ensures CleanUrl("a..") == "a."
    ensures CleanUrl("a. ") == "a."
    ensures CleanUrl(" a;") == "a"
  {
    assert DropTrailingPunct("a..") == "a.";
    assert TrimStartIndex("a.", 0) == 0;
    assert TrimEndIndex("a.", 0, 2) == 2;
    assert "a."[0..2] == "a.";
    assert DropTrailingPunct("a. ") == "a. ";
    assert TrimStartIndex("a. ", 0) == 0;
    assert TrimEndIndex("a. ", 0, 2) == 2;
    assert TrimEndIndex("a. ", 0, 3) == 2;
    assert "a. "[0..2] == "a.";
    assert DropTrailingPunct(" a;") == " a";
    assert TrimStartIndex(" a", 1) == 1;
    assert TrimStartIndex(" a", 0) == 1;
    assert TrimEndIndex(" a", 1, 2) == 2;
    assert " a"[1..2] == "a";
  }

  /** So `cleanUrl` is not idempotent: cleaning "a.." twice gives "a". */
  lemma CleanUrlNotIdempotent()
    ensures CleanUrl(CleanUrl("a..")) != CleanUrl("a..")
  {
    CleanUrlExamples();
    assert DropTrailingPunct("a.") == "a";
    assert TrimStartIndex("a", 0) == 0;
    assert TrimEndIndex("a", 0, 1) == 1;
    assert "a"[0..1] == "a";
  }

  // ------------------------------------------------------- getYouTubeVideoId
  //
  // The expression is
  //   (?:youtube\.com\/(?:A|B|C)|youtu\.be\/)([^"&?\/\s]{11})
  // with A = `[^\/]+\/.+\/`, B = `(?:v|e(?:mbed)?)\/` and C = `.*[?&]v=`.
  // `match` reports the leftmost position where the expression matches; at
  // that position the alternatives are tried in order, and the greedy `+` and
  // `*` back off from their longest extent, so the last suitable position wins.

  /** The class `[^"&?\/\s]` of the captured id. */
  predicate IsIdChar(c: char) {
    c != '"' && c != '&' && c != '?' && c != '/' && !IsJsWhitespace(c)
  }

  /** The characters `.` does not match. */
  predicate IsLineTerminator(c: char) {
    c == '\n' || c == '\r' || c == '\U{2028}' || c == '\U{2029}'
  }

  /** A string the capture group can match: exactly 11 id characters. */
  predicate IsVideoId(id: string) {
    |id| == 11 && forall k :: 0 <= k < 11 ==> IsIdChar(id[k])
  }

  /** `([^"&?\/\s]{11})` matches at `i`. */
  predicate IdAt(s: string, i: nat) {
    i + 11 <= |s| && IsVideoId(s[i..i + 11])
  }

  /**
   * What ends a greedy run: a `'/'` for `[^\/]+`, which matches every other
   * character, line terminators included; a line terminator for `.+` and `.*`.
   */
  predicate Stops(c: char, slash: bool) {
    if slash then c == '/' else IsLineTerminator(c)
  }

  /** The end of the longest run of characters from `i` that do not stop a run of the kind `slash` names. */
  function RunEnd(s: string, i: nat, slash: bool): (e: nat)
    requires i <= |s|
    ensures i <= e <= |s|
    ensures forall k :: i <= k < e ==> !Stops(s[k], slash)
    ensures e < |s| ==> Stops(s[e], slash)
    decreases |s| - i
  {
    if i < |s| && !Stops(s[i], slash) then RunEnd(s, i + 1, slash) else i
  }

  /**
   * The largest `q` with `lo <= q < hi` such that the text from `q` on
   * matches the rest of the alternative (`Tail`), if any.
   */
  function LastTail(s: string, lo: nat, hi: nat, alt: Alt): (q: Option<nat>)
    requires lo <= hi <= |s|
    ensures q.Some? ==> lo <= q.value < hi && Tail(s, q.value, alt)
    ensures q.Some? ==> forall k :: q.value < k < hi ==> !Tail(s, k, alt)
    ensures q.None? ==> forall k :: lo <= k < hi ==> !Tail(s, k, alt)
    decreases hi
  {
    if hi == lo then None
    else if Tail(s, hi - 1, alt) then Some(hi - 1)
    else LastTail(s, lo, hi - 1, alt)
  }

  /** The two alternatives with a greedy part. */
  datatype Alt = AltA | AltC

  /** What must follow the greedy part: `\/` and the id for A, `[?&]v=` and the id for C. */
  predicate Tail(s: string, q: nat, alt: Alt) {
    match alt
    case AltA => q < |s| && s[q] == '/' && IdAt(s, q + 1)
    case AltC => q < |s| && (s[q] == '?' || s[q] == '&') && HasAt(s, q + 1, "v=") && IdAt(s, q + 3)
  }

  /** The position of the id captured through alternative A, which starts at `i`. */
  function MatchA(s: string, i: nat): (j: Option<nat>)
    requires i <= |s|
    ensures j.Some? ==> i < j.value && IdAt(s, j.value) && s[j.value - 1] == '/'
  {
    // `[^\/]+` must stop right before a '/', so it takes the whole run up to the first '/'.
    var run := RunEnd(s, i, true);
    if run == i || run == |s| then None
    else
      // `.+` covers at least one character and no line terminator.
      var e := RunEnd(s, run + 1, false);
      if e <= run + 1 then None
      else
        match LastTail(s, run + 2, e, AltA)
        case Some(q) => Some(q + 1)
        case None => None
  }

  /** The position of the id captured through alternative B: `v/`, `embed/` or `e/`. */
  function MatchB(s: string, i: nat): (j: Option<nat>)
    requires i <= |s|
    ensures j.Some? ==> i < j.value && IdAt(s, j.value)
  {
    if HasAt(s, i, "v/") && IdAt(s, i + 2) then Some(i + 2)
    else if HasAt(s, i, "embed/") && IdAt(s, i + 6) then Some(i + 6)
    else if HasAt(s, i, "e/") && IdAt(s, i + 2) then Some(i + 2)
    else None
  }

  /** The position of the id captured through alternative C. */
  function MatchC(s: string, i: nat): (j: Option<nat>)
    requires i <= |s|
    ensures j.Some? ==> i < j.value && IdAt(s, j.value)
  {
    // `.*` may be empty; it covers no line terminator.
    var e := RunEnd(s, i, false);
    match LastTail(s, i, e, AltC)
    case Some(q) => Some(q + 3)
    case None => None
  }

  /** Where the id starts when the expression matches from position `p`. */
  function MatchAt(s: string, p: nat): (j: Option<nat>)
    requires p <= |s|
    ensures j.Some? ==> p < j.value && IdAt(s, j.value)
  {
    if HasAt(s, p, "youtube.com/") then
      var i := p + 12;
      var a := MatchA(s, i);
      if a.Some? then a
      else
        var b := MatchB(s, i);
        if b.Some? then b else MatchC(s, i)
    else if HasAt(s, p, "youtu.be/") && IdAt(s, p + 9) then Some(p + 9)
    else None
  }

  /** No match of the expression starts at a position in [lo, hi). */
  predicate NoMatchIn(s: string, lo: nat, hi: nat) {
    forall m :: lo <= m < hi && m <= |s| ==> MatchAt(s, m).None?
  }

  /** The leftmost match at or after `p`. */
  function FirstMatch(s: string, p: nat): (j: Option<nat>)
    requires p <= |s|
    ensures j.Some? ==> IdAt(s, j.value)
    ensures j.None? ==> NoMatchIn(s, p, |s| + 1)
    decreases |s| - p
  {
    var here := MatchAt(s, p);
    if here.Some? then here
    else if p == |s| then None
    else
      NoMatchInGrow(s, p, |s| + 1);
      FirstMatch(s, p + 1)
  }

  /** A stretch with no match grows by one position on the left where no match starts. */
  lemma NoMatchInGrow(s: string, lo: nat, hi: nat)
    requires lo <= |s| && MatchAt(s, lo).None?
    ensures NoMatchIn(s, lo + 1, hi) ==> NoMatchIn(s, lo, hi)
  {
  }

  /** What FirstMatch finds is the match at a position with no match before it. */
  lemma {:induction false} FirstMatchLeftmost(s: string, p: nat)
    requires p <= |s|
    ensures FirstMatch(s, p).Some? ==>
      exists m :: p <= m <= |s| && MatchAt(s, m) == FirstMatch(s, p) && NoMatchIn(s, p, m)
    decreases |s| - p
  {
    if MatchAt(s, p).Some? {
      assert NoMatchIn(s, p, p);
    } else if p < |s| {
      FirstMatchLeftmost(s, p + 1);
      if FirstMatch(s, p + 1).Some? {
        var m :| p + 1 <= m <= |s| && MatchAt(s, m) == FirstMatch(s, p + 1) && NoMatchIn(s, p + 1, m);
        assert NoMatchIn(s, p, m);
      }
    }
  }

  /** `getYouTubeVideoId(url)`: the captured group of the leftmost match, or null. */
  function GetYouTubeVideoId(url: string): (r: Option<string>)
    ensures r.Some? ==> IsVideoId(r.value) && Contains(url, r.value)
    ensures r.Some? ==>
      exists m :: 0 <= m <= |url| && MatchAt(url, m).Some?
        && r.value == url[MatchAt(url, m).value..MatchAt(url, m).value + 11]
        && NoMatchIn(url, 0, m)
    ensures r.None? <==> NoMatchIn(url, 0, |url| + 1)
  {
    match FirstMatch(url, 0)
    case Some(j) =>
      FirstMatchLeftmost(url, 0);
      assert HasAt(url, j, url[j..j + 11]);
      Some(url[j..j + 11])
    case None => None
  }

  /** No match can start at a position that does not hold a 'y'. */
  lemma NoMatchWithoutY(s: string, p: nat)
    requires p <= |s|
    requires p == |s| || s[p] != 'y'
    ensures MatchAt(s, p).None?
  {
    if HasAt(s, p, "youtube.com/") {
      HasAtHead(s, p, "youtube.com/");
    } else if HasAt(s, p, "youtu.be/") {
      HasAtHead(s, p, "youtu.be/");
    }
  }

  /** FirstMatch skips a stretch of positions where no match starts. */
  lemma {:induction false} FirstMatchSkips(s: string, p: nat, q: nat)
    requires p <= q <= |s|
    requires NoMatchIn(s, p, q)
    ensures FirstMatch(s, p) == FirstMatch(s, q)
    decreases q - p
  {
    if p < q {
      assert MatchAt(s, p).None?;
      assert FirstMatch(s, p) == FirstMatch(s, p + 1);
      FirstMatchSkips(s, p + 1, q);
    }
  }

  /** No match starts before the first 'y'. */
  lemma NoMatchBeforeY(s: string, q: nat)
    requires q <= |s|
    requires forall k :: 0 <= k < q ==> s[k] != 'y'
    ensures NoMatchIn(s, 0, q)
  {
    forall k | 0 <= k < q
      ensures MatchAt(s, k).None?
    {
      NoMatchWithoutY(s, k);
    }
  }

  /**
   * A short link `…youtu.be/<id>…` yields its id when no match starts inside
   * the text before it (which holds, for one, when that text has no 'y').
   */
  lemma ShortLinkId(pre: string, id: string, rest: string)
    requires NoMatchIn(pre + "youtu.be/" + id + rest, 0, |pre|)
    requires IsVideoId(id)
    ensures GetYouTubeVideoId(pre + "youtu.be/" + id + rest) == Some(id)
  {
    var s := pre + "youtu.be/" + id + rest;
    var p := |pre|;
    assert s[p..p + 9] == "youtu.be/";
    assert s[p + 9..p + 20] == id;
    assert s[p + 5] == '.';
    assert !HasAt(s, p, "youtube.com/");
    assert HasAt(s, p, "youtu.be/") && IdAt(s, p + 9);
    FirstMatchSkips(s, 0, p);
  }

  /** Of two short links, the first one's id comes back. */
  lemma FirstOfTwoLinks(a: string, sep: string, b: string)
    requires IsVideoId(a)
    ensures GetYouTubeVideoId("youtu.be/" + a + sep + "youtu.be/" + b) == Some(a)
  {
    assert "youtu.be/" + a + sep + "youtu.be/" + b == "" + "youtu.be/" + a + (sep + "youtu.be/" + b);
    ShortLinkId("", a, sep + "youtu.be/" + b);
  }

  /** The run scan reaches the end of a string with no stopping character from `i` on. */
  lemma {:induction false} RunEndReachesEnd(s: string, i: nat, slash: bool)
    requires i <= |s|
    requires forall k :: i <= k < |s| ==> !Stops(s[k], slash)
    ensures RunEnd(s, i, slash) == |s|
    decreases |s| - i
  {
    if i < |s| {
      RunEndReachesEnd(s, i + 1, slash);
    }
  }

  /** After "youtube.com/", a path "watch?v=<id>" with no later '/', '?' or '&' is captured by alternative C. */
  lemma WatchPathMatch(s: string, i: nat)
    requires i + 19 <= |s|
    requires s[i..i + 8] == "watch?v=" && IsVideoId(s[i + 8..i + 19])
    requires forall k :: i <= k < |s| ==> !IsLineTerminator(s[k])
    requires forall k :: i + 6 <= k < |s| ==> s[k] != '/' && s[k] != '?' && s[k] != '&'
    ensures MatchA(s, i).None? && MatchB(s, i).None? && MatchC(s, i) == Some(i + 8)
  {
    assert forall k :: i <= k < i + 6 ==> s[k] == "watch?"[k - i];
    RunEndReachesEnd(s, i, true);
    RunEndReachesEnd(s, i, false);
    assert s[i] == 'w';
    assert s[i..i + 2][0] == 'w' && s[i..i + 6][0] == 'w';
    assert !HasAt(s, i, "v/") && !HasAt(s, i, "embed/") && !HasAt(s, i, "e/");
    assert s[i + 6..i + 8] == "v=";
    assert Tail(s, i + 5, AltC);
    assert forall k :: i + 5 < k < |s| ==> !Tail(s, k, AltC);
  }

  /**
   * A watch link `…youtube.com/watch?v=<id>…` yields its id when no match
   * starts inside the text before it and what follows the id holds no '/',
   * '?', '&' or line terminator.
   */
  lemma WatchLinkId(pre: string, id: string, rest: string)
    requires NoMatchIn(pre + "youtube.com/watch?v=" + id + rest, 0, |pre|)
    requires IsVideoId(id)
    requires forall k :: 0 <= k < |rest| ==> rest[k] != '/' && rest[k] != '?' && rest[k] != '&' && !IsLineTerminator(rest[k])
    ensures GetYouTubeVideoId(pre + "youtube.com/watch?v=" + id + rest) == Some(id)
  {
    var lit := "youtube.com/watch?v=";
    var s := pre + lit + id + rest;
    var p := |pre|;
    var i := p + 12;
    assert s[p..p + 20] == lit;
    assert s[p..p + 12] == "youtube.com/";
    assert s[i..i + 8] == "watch?v=";
    assert s[i + 8..i + 19] == id;
    assert forall k :: i <= k < i + 8 ==> s[k] == lit[k - p];
    assert forall k :: i + 8 <= k < i + 19 ==> s[k] == id[k - i - 8];
    assert forall k :: i + 19 <= k < |s| ==> s[k] == rest[k - i - 19];
    WatchPathMatch(s, i);
    assert MatchAt(s, p) == Some(i + 8);
    FirstMatchSkips(s, 0, p);
  }

  /**
   * `[^\/]+` runs across a line break: in "youtube.com/a\nb/c/<id>" it takes
   * "a\nb", `.+` takes "c", and the id after the last '/' is captured.
   */
  lemma PathAcrossLineBreak(id: string)
    requires IsVideoId(id)
    ensures GetYouTubeVideoId("youtube.com/a\nb/c/" + id) == Some(id)
  {
    var s := "youtube.com/a\nb/c/" + id;
    assert s[..12] == "youtube.com/" && s[12..16] == "a\nb/" && s[16..18] == "c/" && s[18..] == id;
    assert HasAt(s, 0, "youtube.com/");
    assert RunEnd(s, 15, true) == 15;
    assert RunEnd(s, 14, true) == 15;
    assert RunEnd(s, 13, true) == 15;
    assert RunEnd(s, 12, true) == 15;
    RunEndReachesEnd(s, 16, false);
    assert Tail(s, 17, AltA);
    assert MatchA(s, 12) == Some(18);
    assert MatchAt(s, 0) == Some(18);
    assert s[18..29] == id;
  }

  // ------------------------------------------------------- isSocialMediaLink

  /** The five hosts treated as social networks. */
  const SocialMediaDomains: seq<string> := ["tiktok.com", "instagram.com", "facebook.com", "twitter.com", "x.com"]

  /** One leading "www." of the host name goes. */
  function StripWww(host: string): (r: string)
    ensures HasAt(host, 0, "www.") ==> host == "www." + r
    ensures !HasAt(host, 0, "www.") ==> r == host
  {
    if HasAt(host, 0, "www.") then host[4..] else host
  }

  /**
   * `isSocialMediaLink(url)`, given what `new URL(url)` makes of the link:
   * its hostname, or None when the constructor throws.
   */
  function IsSocialMediaLink(hostname: Option<string>): bool
  {
    match hostname
    case None => false
    case Some(h) => StripWww(h) in SocialMediaDomains
  }

  /**
   * A link is social exactly when it parses and its host is one of the five
   * domains, either bare or behind a single "www.".
   */
  lemma SocialIff(hostname: Option<string>)
    ensures IsSocialMediaLink(hostname) <==>
      hostname.Some? && exists d :: d in SocialMediaDomains && (hostname.value == d || hostname.value == "www." + d)
  {
    if hostname.Some? {
      var h := hostname.value;
      if exists d :: d in SocialMediaDomains && (h == d || h == "www." + d) {
        var d :| d in SocialMediaDomains && (h == d || h == "www." + d);
        if h == "www." + d {
          assert h[..4] == "www.";
          assert h[4..] == d;
        } else {
          // None of the five domains starts with "www.".
          assert !HasAt(h, 0, "www.") by {
            if HasAt(h, 0, "www.") {
              HasAtHead(h, 0, "www.");
            }
          }
        }
      }
    }
  }

  /** Subdomains other than "www." do not match, and only one "www." is removed. */
  lemma SocialExamples()
    ensures !IsSocialMediaLink(Some("m.facebook.com"))
    ensures !IsSocialMediaLink(Some("www.www.x.com"))
    ensures IsSocialMediaLink(Some("www.tiktok.com"))
    ensures !IsSocialMediaLink(None)
  {
    assert !HasAt("m.facebook.com", 0, "www.") by {
      assert "m.facebook.com"[0] != 'w';
    }
    assert "www.www.x.com"[..4] == "www.";
    assert "www.www.x.com"[4..] == "www.x.com";
    assert "www.tiktok.com"[..4] == "www.";
    assert "www.tiktok.com"[4..] == "tiktok.com";
  }
}
