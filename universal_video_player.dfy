/** The player component components/UniversalVideoPlayer.tsx: given the
    `video.final` of a record, it embeds a YouTube player, plays a local file,
    or shows "Video not available". The id is cut out of the link with
    `split`, not with the pattern the manifest builder uses. */
module UniversalVideoPlayer {
  import opened Wrappers
  import opened Strings
  import Youtube

  /** `video.final`: `type`, and the optional `src` and `href`. */
  datatype FinalMedia = FinalMedia(kind: string, src: Option<string>, href: Option<string>)

  datatype ObjectFit = Contain | Cover

  /** What the component renders. */
  datatype View =
    | Embed(src: string, aspectRatio: string)
    | LocalPlayer(src: string, objectFit: ObjectFit)
    | Unavailable

  const WatchMarker: string := "youtube.com/watch?v="
  const ShortLinkMarker: string := "youtu.be/"
  const ShortsMarker: string := "youtube.com/shorts/"
  const EmbedPrefix: string := "https://www.youtube.com/embed/"
  const EmbedParams: string := "?rel=0&modestbranding=1&controls=1"

  /** `url.split(sep)[1]?.split(stop)[0] || ''`: the text after the first
      `sep`, up to the next `stop` or the next `sep`. */
  function Between(url: string, sep: string, stop: string): (r: string)
    requires sep != [] && stop != []
    ensures IndexOf(url, sep).None? ==> r == ""
    ensures IndexOf(url, sep).Some? ==>
      var t := url[IndexOf(url, sep).value + |sep|..];
      && StartsWith(t, r)
      && (forall j :: 0 <= j && j + |stop| <= |r| ==> !OccursAt(t, stop, j))
      && (forall j :: 0 <= j && j + |sep| <= |r| ==> !OccursAt(t, sep, j))
      && (r == t || OccursAt(t, stop, |r|) || OccursAt(t, sep, |r|))
  {
    match SplitSecond(url, sep)
    case Some(u) =>
      var r := SplitFirst(u, stop);
      ghost var t := url[IndexOf(url, sep).value + |sep|..];
      PrefixOccurrences(u, t, stop);
      PrefixOccurrences(u, t, sep);
      r
    case None => ""
  }

  /** Within a prefix `u` of `t`, `p` occurs where it occurs in `t`. */
  lemma PrefixOccurrences(u: string, t: string, p: string)
    requires StartsWith(t, u)
    ensures forall j :: 0 <= j && j + |p| <= |u| ==> OccursAt(u, p, j) == OccursAt(t, p, j)
  {
    forall j | 0 <= j && j + |p| <= |u|
      ensures OccursAt(u, p, j) == OccursAt(t, p, j)
    {
      assert u[j..j + |p|] == t[j..j + |p|];
    }
  }

  /** The id the component extracts: a watch link, then a short link, then a
      Shorts link; "" when none applies. */
  function ExtractVideoId(url: string): string {
    if Contains(url, WatchMarker) then Between(url, "v=", "&")
    else if Contains(url, ShortLinkMarker) then Between(url, "youtu.be/", "?")
    else if Contains(url, ShortsMarker) then Between(url, "shorts/", "?")
    else ""
  }

  /** The iframe's `aspectRatio` style. */
  function AspectRatio(objectFit: ObjectFit): string {
    if objectFit == Cover then "9/16" else "16/9"
  }

  function EmbedSrc(id: string): string {
    EmbedPrefix + id + EmbedParams
  }

  /** The id an embed address carries. */
  function EmbedId(src: string): string
    requires |EmbedPrefix| + |EmbedParams| <= |src|
  {
    src[|EmbedPrefix|..|src| - |EmbedParams|]
  }

  /** The component: an embed when the url branch yields an id, otherwise a
      local player when `src` is set, otherwise the fallback. */
  function Render(final: FinalMedia, objectFit: ObjectFit): (v: View)
    ensures v.Embed? <==>
      final.kind == "url" && Truthy(final.href) && ExtractVideoId(final.href.value) != ""
    ensures v.Embed? ==>
      && v.src == EmbedSrc(ExtractVideoId(final.href.value))
      && (v.aspectRatio == "9/16" <==> objectFit == Cover)
      && (v.aspectRatio == "16/9" <==> objectFit == Contain)
    ensures v.LocalPlayer? <==> !v.Embed? && Truthy(final.src)
    ensures v.LocalPlayer? ==> v.src == final.src.value && v.objectFit == objectFit
    ensures v.Unavailable? <==> !v.Embed? && !Truthy(final.src)
  {
    var videoId := if final.kind == "url" && Truthy(final.href) then ExtractVideoId(final.href.value) else "";
    if videoId != "" then Embed(EmbedSrc(videoId), AspectRatio(objectFit))
    else if Truthy(final.src) then LocalPlayer(final.src.value, objectFit)
    else Unavailable
  }

  /** The embed address gives back the id it was built from. */
  lemma EmbedRoundTrip(id: string)
    ensures |EmbedPrefix| + |EmbedParams| <= |EmbedSrc(id)|
    ensures EmbedId(EmbedSrc(id)) == id
  {
    var src := EmbedSrc(id);
    assert src[|EmbedPrefix|..|src| - |EmbedParams|] == id;
  }

  /** `id` is what follows the first `sep` of `url`, and `stop` does not
      occur in it. */
  predicate CutAfter(url: string, sep: string, stop: string, id: string) {
    && IndexOf(url, sep).Some?
    && StartsWith(url[IndexOf(url, sep).value + |sep|..], id)
    && !Contains(id, stop)
  }

  lemma BetweenCut(url: string, sep: string, stop: string)
    requires sep != [] && stop != []
    requires Between(url, sep, stop) != ""
    ensures CutAfter(url, sep, stop, Between(url, sep, stop))
  {
    var r := Between(url, sep, stop);
    var t := url[IndexOf(url, sep).value + |sep|..];
    forall j | 0 <= j
      ensures !OccursAt(r, stop, j)
    {
      if j + |stop| <= |r| {
        assert r == t[..|r|];
        assert r[j..j + |stop|] == t[j..j + |stop|];
        assert !OccursAt(t, stop, j);
      }
    }
  }

  /** Any id the component extracts follows the first separator of its
      branch ("v=", "youtu.be/" or "shorts/") and holds no stop character
      of that branch. */
  lemma ExtractVideoIdSound(url: string)
    ensures var id := ExtractVideoId(url);
      id != "" ==>
        if Contains(url, WatchMarker) then CutAfter(url, "v=", "&", id)
        else if Contains(url, ShortLinkMarker) then CutAfter(url, "youtu.be/", "?", id)
        else Contains(url, ShortsMarker) && CutAfter(url, "shorts/", "?", id)
  {
    if ExtractVideoId(url) != "" {
      if Contains(url, WatchMarker) {
        BetweenCut(url, "v=", "&");
      } else if Contains(url, ShortLinkMarker) {
        BetweenCut(url, "youtu.be/", "?");
      } else {
        BetweenCut(url, "shorts/", "?");
      }
    }
  }

  /** `Between` reads back the id of `host + sep + id + rest` when the first
      `sep` is the one after `host`, no `sep` starts inside the id, the id
      lacks the one-character `stop`, and `rest` is empty or starts with it. */
  lemma BetweenOfLink(host: string, sep: string, id: string, rest: string, stop: string)
    requires sep != [] && |stop| == 1
    requires forall j :: 0 <= j < |host| ==> !OccursAt(host + sep + id + rest, sep, j)
    requires forall j :: 0 <= j < |id| ==> !OccursAt(id + rest, sep, j)
    requires forall k :: 0 <= k < |id| ==> id[k] != stop[0]
    requires rest == [] || rest[0] == stop[0]
    ensures Between(host + sep + id + rest, sep, stop) == id
  {
    var url := host + sep + id + rest;
    assert url[|host|..|host| + |sep|] == sep;
    FirstOccurrence(url, sep, |host|);
    assert url[|host| + |sep|..] == id + rest;
    var u := SplitFirst(id + rest, sep);
    assert SplitSecond(url, sep) == Some(u);
    SepAfterId(id, rest, sep);
    CutAtStop(u, id, stop);
  }

  /** The text before the first `sep` of `id + rest` extends `id` when no
      `sep` starts inside `id`, and by the first character of `rest` if at all. */
  lemma SepAfterId(id: string, rest: string, sep: string)
    requires sep != []
    requires forall j :: 0 <= j < |id| ==> !OccursAt(id + rest, sep, j)
    ensures var u := SplitFirst(id + rest, sep);
      StartsWith(u, id) && (|u| == |id| || (rest != [] && u[|id|] == rest[0]))
  {
    var t := id + rest;
    var u := SplitFirst(t, sep);
    assert |id| <= |u|;
    assert u == t[..|u|];
    assert u[..|id|] == t[..|id|] == id;
  }

  /** Splitting at a one-character `stop` that `id` lacks and that follows
      `id` in `u`, if anything does, gives back `id`. */
  lemma CutAtStop(u: string, id: string, stop: string)
    requires |stop| == 1
    requires StartsWith(u, id)
    requires forall k :: 0 <= k < |id| ==> id[k] != stop[0]
    requires |u| == |id| || u[|id|] == stop[0]
    ensures SplitFirst(u, stop) == id
  {
    if |u| > |id| {
      assert u[|id|..|id| + 1] == stop;
      forall j | 0 <= j < |id|
        ensures !OccursAt(u, stop, j)
      {
        assert u[j..j + 1][0] == id[j];
      }
      FirstOccurrence(u, stop, |id|);
    } else {
      assert u == id;
      MissingChar(u, stop, 0);
    }
  }

  /** No separator starts inside a host that lacks its first character. */
  lemma NoSepInHost(host: string, tail: string, sep: string)
    requires sep != []
    requires forall k :: 0 <= k < |host| ==> host[k] != sep[0]
    ensures forall j :: 0 <= j < |host| ==> !OccursAt(host + tail, sep, j)
  {
    forall j | 0 <= j < |host|
      ensures !OccursAt(host + tail, sep, j)
    {
      if j + |sep| <= |host + tail| {
        assert (host + tail)[j..j + |sep|][0] == host[j];
      }
    }
  }

  /** A watch link `https://www.youtube.com/watch?v=<id>` followed by nothing
      or by further `&` parameters gives its id. */
  lemma WatchLinkId(id: string, rest: string)
    requires forall k :: 0 <= k < |id| ==> id[k] != '&' && id[k] != '='
    requires rest == [] || rest[0] == '&'
    ensures ExtractVideoId("https://www.youtube.com/watch?v=" + id + rest) == id
  {
    var url := "https://www.youtube.com/watch?v=" + id + rest;
    assert url == "https://www.youtube.com/watch?v=" + (id + rest);
    WatchLinkMarker(id + rest);
    WatchLinkBetween(id, rest);
  }

  /** The text between the first "v=" and the next '&' of a watch link is its id. */
  lemma WatchLinkBetween(id: string, rest: string)
    requires forall k :: 0 <= k < |id| ==> id[k] != '&' && id[k] != '='
    requires rest == [] || rest[0] == '&'
    ensures Between("https://www.youtube.com/watch?v=" + id + rest, "v=", "&") == id
  {
    var host := "https://www.youtube.com/watch?";
    assert "https://www.youtube.com/watch?v=" == host + "v=";
    WatchHostLacksV();
    NoSepInHost(host, "v=" + id + rest, "v=");
    assert host + ("v=" + id + rest) == host + "v=" + id + rest;
    NoSepInWatchId(id, rest);
    BetweenOfLink(host, "v=", id, rest, "&");
  }

  lemma WatchHostLacksV()
    ensures forall k :: 0 <= k < |"https://www.youtube.com/watch?"| ==> "https://www.youtube.com/watch?"[k] != "v="[0]
  {
  }

  lemma WatchLinkMarker(tail: string)
    ensures Contains("https://www.youtube.com/watch?v=" + tail, WatchMarker)
  {
    var link := "https://www.youtube.com/watch?v=";
    var url := link + tail;
    assert url[..|link|] == link;
    assert link[12..] == WatchMarker;
    assert url[12..12 + |WatchMarker|] == WatchMarker;
    ContainsAt(url, WatchMarker, 12);
  }

  /** No "v=" starts inside an id without '=' that is followed by nothing or '&'. */
  lemma NoSepInWatchId(id: string, rest: string)
    requires forall k :: 0 <= k < |id| ==> id[k] != '&' && id[k] != '='
    requires rest == [] || rest[0] == '&'
    ensures forall j :: 0 <= j < |id| ==> !OccursAt(id + rest, "v=", j)
  {
    forall j | 0 <= j < |id|
      ensures !OccursAt(id + rest, "v=", j)
    {
      if j + 1 < |id| {
        assert (id + rest)[j + 1] == id[j + 1];
      } else if j + 1 < |id + rest| {
        assert (id + rest)[j + 1] == rest[0];
      }
    }
  }

  /** A short link `https://youtu.be/<id>` followed by nothing or by a query
      gives its id, unless the query itself holds a watch link. */
  lemma ShortLinkId(id: string, rest: string)
    requires forall k :: 0 <= k < |id| ==> id[k] != '?' && id[k] != '/'
    requires rest == [] || rest[0] == '?'
    requires !Contains("https://youtu.be/" + id + rest, WatchMarker)
    ensures ExtractVideoId("https://youtu.be/" + id + rest) == id
  {
    var url := "https://youtu.be/" + id + rest;
    assert url == "https://youtu.be/" + (id + rest);
    ShortLinkMarkerAt(id + rest);
    ShortLinkBetween(id, rest);
  }

  lemma ShortLinkMarkerAt(tail: string)
    ensures Contains("https://youtu.be/" + tail, ShortLinkMarker)
  {
    var link := "https://youtu.be/";
    var url := link + tail;
    assert url[..|link|] == link;
    assert link[8..] == ShortLinkMarker;
    assert url[8..8 + |ShortLinkMarker|] == ShortLinkMarker;
    ContainsAt(url, ShortLinkMarker, 8);
  }

  /** The text between the first "youtu.be/" and the next '?' of a short
      link is its id. */
  lemma ShortLinkBetween(id: string, rest: string)
    requires forall k :: 0 <= k < |id| ==> id[k] != '?' && id[k] != '/'
    requires rest == [] || rest[0] == '?'
    ensures Between("https://youtu.be/" + id + rest, ShortLinkMarker, "?") == id
  {
    var host := "https://";
    assert "https://youtu.be/" == host + ShortLinkMarker;
    assert forall k :: 0 <= k < |host| ==> host[k] != ShortLinkMarker[0];
    NoSepInHost(host, ShortLinkMarker + id + rest, ShortLinkMarker);
    assert host + (ShortLinkMarker + id + rest) == host + ShortLinkMarker + id + rest;
    assert ShortLinkMarker[|ShortLinkMarker| - 1] == '/' && '?' !in ShortLinkMarker;
    forall j | 0 <= j < |id|
      ensures !OccursAt(id + rest, ShortLinkMarker, j)
    {
      NoLinkInId(id, rest, ShortLinkMarker, j);
    }
    BetweenOfLink(host, ShortLinkMarker, id, rest, "?");
  }

  /** No separator that ends in '/' and has no '?' starts inside an id
      without '?' or '/' that is followed by nothing or by '?'. */
  lemma NoLinkInId(id: string, rest: string, sep: string, j: nat)
    requires sep != [] && sep[|sep| - 1] == '/' && '?' !in sep
    requires forall k :: 0 <= k < |id| ==> id[k] != '?' && id[k] != '/'
    requires rest == [] || rest[0] == '?'
    requires j < |id|
    ensures !OccursAt(id + rest, sep, j)
  {
    var t := id + rest;
    var n := |sep|;
    if j + n <= |t| {
      var w := t[j..j + n];
      if j + n - 1 < |id| {
        assert w[n - 1] == t[j + n - 1] == id[j + n - 1] != '/';
      } else {
        assert w[|id| - j] == t[|id|] == rest[0] == '?';
      }
    }
  }

  /** A Shorts link `https://www.youtube.com/shorts/<id>` followed by nothing
      or by a query gives its id, unless the link also holds a watch link
      or a short link, which the component tries first. */
  lemma ShortsLinkId(id: string, rest: string)
    requires forall k :: 0 <= k < |id| ==> id[k] != '?' && id[k] != '/'
    requires rest == [] || rest[0] == '?'
    requires !Contains("https://www.youtube.com/shorts/" + id + rest, WatchMarker)
    requires !Contains("https://www.youtube.com/shorts/" + id + rest, ShortLinkMarker)
    ensures ExtractVideoId("https://www.youtube.com/shorts/" + id + rest) == id
  {
    var url := "https://www.youtube.com/shorts/" + id + rest;
    assert url == "https://www.youtube.com/shorts/" + (id + rest);
    ShortsLinkMarkerAt(id + rest);
    ShortsLinkBetween(id, rest);
  }

  lemma ShortsLinkMarkerAt(tail: string)
    ensures Contains("https://www.youtube.com/shorts/" + tail, ShortsMarker)
  {
    var link := "https://www.youtube.com/shorts/";
    var url := link + tail;
    assert url[..|link|] == link;
    assert link[12..] == ShortsMarker;
    assert url[12..12 + |ShortsMarker|] == ShortsMarker;
    ContainsAt(url, ShortsMarker, 12);
  }

  /** The only 's' of `https://www.youtube.com/` is the one of "https". */
  lemma YoutubeHostLetters()
    ensures forall k :: 0 <= k < |"https://www.youtube.com/"| && k != 4 ==> "https://www.youtube.com/"[k] != 's'
    ensures "https://www.youtube.com/"[5] == ':'
  {
  }

  /** "shorts/" does not start inside `https://www.youtube.com/`. */
  lemma NoShortsInHost(tail: string)
    ensures forall j :: 0 <= j < |"https://www.youtube.com/"| ==>
      !OccursAt("https://www.youtube.com/" + tail, "shorts/", j)
  {
    var host := "https://www.youtube.com/";
    var url := host + tail;
    YoutubeHostLetters();
    forall j | 0 <= j < |host|
      ensures !OccursAt(url, "shorts/", j)
    {
      if j + 7 <= |url| {
        var w := url[j..j + 7];
        if j == 4 {
          assert w[1] == url[5] == host[5];
        } else {
          assert w[0] == url[j] == host[j];
        }
      }
    }
  }

  /** The text between the first "shorts/" and the next '?' of a Shorts
      link is its id. */
  lemma ShortsLinkBetween(id: string, rest: string)
    requires forall k :: 0 <= k < |id| ==> id[k] != '?' && id[k] != '/'
    requires rest == [] || rest[0] == '?'
    ensures Between("https://www.youtube.com/shorts/" + id + rest, "shorts/", "?") == id
  {
    var host := "https://www.youtube.com/";
    var sep := "shorts/";
    assert "https://www.youtube.com/shorts/" == host + sep;
    NoShortsInHost(sep + id + rest);
    assert host + (sep + id + rest) == host + sep + id + rest;
    assert sep[|sep| - 1] == '/' && '?' !in sep;
    forall j | 0 <= j < |id|
      ensures !OccursAt(id + rest, sep, j)
    {
      NoLinkInId(id, rest, sep, j);
    }
    BetweenOfLink(host, sep, id, rest, "?");
  }

  lemma PlayerKeepsFragment()
    ensures ExtractVideoId("https://youtu.be/abc#t") == "abc#t"
  {
    var url := "https://youtu.be/abc#t";
    assert url == "https://youtu.be/" + "abc#t" + "";
    assert forall j :: 0 <= j < |url| ==> url[j] != 'w';
    assert WatchMarker[12] == 'w';
    MissingChar(url, WatchMarker, 12);
    ShortLinkId("abc#t", "");
  }

  lemma PatternDropsFragment()
    ensures Youtube.VideoId("https://youtu.be/abc#t") == Some("abc")
  {
    assert "https://youtu.be/abc#t" == "https://" + Youtube.ShortLinkPrefix + "abc" + "#t";
    Youtube.VideoIdOfLink("https://", Youtube.ShortLinkPrefix, "abc", "#t");
  }

  /** The player and the YouTube pattern of the manifest builder and the
      timeline read different ids from a short link with a fragment: the
      player stops only at '?', the pattern also at '#'. */
  lemma ExtractorsDisagreeOnFragment()
    ensures ExtractVideoId("https://youtu.be/abc#t") == "abc#t"
    ensures Youtube.VideoId("https://youtu.be/abc#t") == Some("abc")
  {
    PlayerKeepsFragment();
    PatternDropsFragment();
  }
}
