/** The YouTube link pattern shared by the manifest builder (scripts/scan.mjs)
    and the timeline viewer (components/Timeline.tsx):
      /(?:youtube\.com\/watch\?v=|youtu\.be\/)([^&\n?#]+)/
    `String.prototype.match` with it returns the leftmost match, and group 1 is
    the video id. The regular expression is written out as string functions. */
module Youtube {
  import opened Wrappers
  import opened Strings

  const WatchPrefix: string := "youtube.com/watch?v="
  const ShortLinkPrefix: string := "youtu.be/"

  /** The class `[^&\n?#]`. */
  predicate IsIdChar(c: char) {
    c != '&' && c != '\n' && c != '?' && c != '#'
  }

  /** The greedy group `([^&\n?#]+)` read from the start of `s` (empty when
      the group cannot match). */
  function IdRun(s: string): string {
    TakeWhile(s, IsIdChar)
  }

  /** The id the pattern captures when its match starts at the start of `t`.
      At one place at most one of the two alternatives can match, since their
      literal texts differ at their sixth character. */
  function MatchStart(t: string): Option<string> {
    if StartsWith(t, WatchPrefix) && IdRun(t[|WatchPrefix|..]) != [] then
      Some(IdRun(t[|WatchPrefix|..]))
    else if StartsWith(t, ShortLinkPrefix) && IdRun(t[|ShortLinkPrefix|..]) != [] then
      Some(IdRun(t[|ShortLinkPrefix|..]))
    else
      None
  }

  /** The leftmost match at or after index `i`. */
  function MatchFrom(s: string, i: nat): Option<string>
    requires i <= |s|
    decreases |s| - i
  {
    if MatchStart(s[i..]).Some? then MatchStart(s[i..])
    else if i == |s| then None
    else MatchFrom(s, i + 1)
  }

  /** `url.match(pattern)?.[1]`. */
  function VideoId(url: string): Option<string> {
    MatchFrom(url, 0)
  }

  /** The captured id was preceded in `s` by one of the two link prefixes. */
  predicate LinkAt(s: string, id: string, i: int) {
    OccursAt(s, WatchPrefix + id, i) || OccursAt(s, ShortLinkPrefix + id, i)
  }

  lemma {:induction false} MatchFromSound(s: string, i: nat)
    requires i <= |s|
    ensures match MatchFrom(s, i)
      case Some(id) =>
        && id != []
        && (forall k :: 0 <= k < |id| ==> IsIdChar(id[k]))
        && exists j :: i <= j && LinkAt(s, id, j)
      case None => true
    decreases |s| - i
  {
    var t := s[i..];
    match MatchStart(t)
    case Some(id) =>
      var p := if StartsWith(t, WatchPrefix) && IdRun(t[|WatchPrefix|..]) != [] then WatchPrefix else ShortLinkPrefix;
      assert t[..|p + id|] == p + id;
      assert LinkAt(s, id, i);
    case None =>
      if i < |s| {
        MatchFromSound(s, i + 1);
      }
  }

  /** What the pattern extracts is a non-empty run of id characters that
      follows `youtube.com/watch?v=` or `youtu.be/` in the link; in
      particular the link contains "youtu", so the `includes('youtu')` test
      that guards the match in the source never changes its outcome. */
  lemma VideoIdSound(url: string)
    ensures match VideoId(url)
      case Some(id) =>
        && id != []
        && (forall k :: 0 <= k < |id| ==> IsIdChar(id[k]))
        && (exists j :: LinkAt(url, id, j))
        && Contains(url, "youtu")
      case None => true
  {
    MatchFromSound(url, 0);
    if VideoId(url).Some? {
      var id := VideoId(url).value;
      var j :| LinkAt(url, id, j);
      LinkHasYoutu(url, id, j);
    }
  }

  lemma LinkHasYoutu(url: string, id: string, j: int)
    requires LinkAt(url, id, j)
    ensures Contains(url, "youtu")
  {
    var p := if OccursAt(url, WatchPrefix + id, j) then WatchPrefix else ShortLinkPrefix;
    assert OccursAt(url, p + id, j);
    var m := url[j..j + |p + id|];
    forall k | 0 <= k < 5
      ensures url[j + k] == "youtu"[k]
    {
      assert m[k] == (p + id)[k] == p[k];
    }
    assert url[j..j + 5] == "youtu";
    ContainsAt(url, "youtu", j);
  }

  /** No index before `|p|` can start a match when `p` has no 'y'. */
  lemma {:induction false} NoMatchInPlainPrefix(p: string, q: string, i: nat)
    requires i <= |p|
    requires forall k :: 0 <= k < |p| ==> p[k] != 'y'
    ensures MatchFrom(p + q, i) == MatchFrom(p + q, |p|)
    decreases |p| - i
  {
    if i < |p| {
      var s := p + q;
      assert s[i] == p[i] != 'y';
      assert !StartsWith(s[i..], WatchPrefix) by { assert WatchPrefix[0] == 'y'; }
      assert !StartsWith(s[i..], ShortLinkPrefix) by { assert ShortLinkPrefix[0] == 'y'; }
      NoMatchInPlainPrefix(p, q, i + 1);
    }
  }

  lemma MatchStartOfLink(prefix: string, id: string, rest: string)
    requires prefix == WatchPrefix || prefix == ShortLinkPrefix
    requires id != [] && forall k :: 0 <= k < |id| ==> IsIdChar(id[k])
    requires rest == [] || !IsIdChar(rest[0])
    ensures MatchStart(prefix + id + rest) == Some(id)
  {
    var t := prefix + id + rest;
    assert t[..|prefix|] == prefix;
    assert t[|prefix|..] == id + rest;
    TakeWhileOfRun(id, rest, IsIdChar);
    if prefix == ShortLinkPrefix {
      assert !StartsWith(t, WatchPrefix) by {
        assert t[5] == '.' && WatchPrefix[5] == 'b';
      }
    }
  }

  /** The pattern recovers the id of a standard link: any host text without a
      'y' (such as "https://www."), one of the two link prefixes, a run of id
      characters, then the end of the link or a character that stops the run. */
  lemma VideoIdOfLink(host: string, prefix: string, id: string, rest: string)
    requires forall k :: 0 <= k < |host| ==> host[k] != 'y'
    requires prefix == WatchPrefix || prefix == ShortLinkPrefix
    requires id != [] && forall k :: 0 <= k < |id| ==> IsIdChar(id[k])
    requires rest == [] || !IsIdChar(rest[0])
    ensures VideoId(host + prefix + id + rest) == Some(id)
  {
    var s := host + prefix + id + rest;
    assert s == host + (prefix + id + rest);
    NoMatchInPlainPrefix(host, prefix + id + rest, 0);
    assert s[|host|..] == prefix + id + rest;
    MatchStartOfLink(prefix, id, rest);
  }
}
