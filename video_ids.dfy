/** The video id of a YouTube link (main.py `extract_video_id`; the
    dashboard's `extractVideoId` in app.js uses the same patterns in another
    order). Every pattern is a literal prefix followed by the capture
    `([a-zA-Z0-9_-]{11})`; searching for a pattern finds its leftmost match,
    and the patterns are tried in list order. */
module VideoIds {
  import opened Results
  import opened Strings

  const IdLength: nat := 11

  const WatchPrefix := "youtube.com/watch?v="
  const ShortLinkPrefix := "youtu.be/"
  const EmbedPrefix := "youtube.com/embed/"
  const ShortsPrefix := "youtube.com/shorts/"
  const LegacyPrefix := "youtube.com/v/"

  /** The server's pattern list, in its order. */
  const ServerPrefixes: seq<string> := [WatchPrefix, ShortLinkPrefix, EmbedPrefix, ShortsPrefix, LegacyPrefix]

  const InvalidUrl := HttpError(400, "Invalid YouTube URL. Please provide a valid YouTube video link.")

  predicate IsIdChar(c: char)
  {
    'a' <= c <= 'z' || 'A' <= c <= 'Z' || '0' <= c <= '9' || c == '_' || c == '-'
  }

  /** Eleven characters from `[A-Za-z0-9_-]`. */
  predicate IsVideoId(id: string)
  {
    |id| == IdLength && forall i :: 0 <= i < |id| ==> IsIdChar(id[i])
  }

  /** The pattern built on `prefix` matches `url` at index `i`. */
  predicate MatchesAt(url: string, prefix: string, i: int)
  {
    OccursAt(url, prefix, i) && i + |prefix| + IdLength <= |url|
    && IsVideoId(url[i + |prefix|..i + |prefix| + IdLength])
  }

  /** The pattern built on `prefix` matches somewhere in `url`. */
  predicate Matches(url: string, prefix: string)
  {
    exists i :: 0 <= i <= |url| && MatchesAt(url, prefix, i)
  }

  /** The captured group of a match. */
  function Capture(url: string, prefix: string, i: int): (id: string)
    requires MatchesAt(url, prefix, i)
    ensures IsVideoId(id)
  {
    url[i + |prefix|..i + |prefix| + IdLength]
  }

  /** `re.search` / `String.prototype.match` for one pattern, from index
      `from` on: the leftmost match. */
  function SearchFrom(url: string, prefix: string, from: nat): (r: Option<nat>)
    ensures r.Some? ==> from <= r.value && MatchesAt(url, prefix, r.value)
    ensures r.Some? ==> forall j :: from <= j < r.value ==> !MatchesAt(url, prefix, j)
    ensures r.None? ==> forall j :: from <= j ==> !MatchesAt(url, prefix, j)
    decreases |url| - from
  {
    if from > |url| then None
    else if MatchesAt(url, prefix, from) then Some(from)
    else SearchFrom(url, prefix, from + 1)
  }

  /** Which pattern of a list matched, and where. */
  datatype Hit = Hit(pattern: nat, at: nat)

  /** The leftmost match of the first pattern in `prefixes` that matches at
      all: the loop `for pattern in patterns` that returns on the first
      match. */
  function FirstMatch(url: string, prefixes: seq<string>): (r: Option<Hit>)
    ensures r.Some? ==> r.value.pattern < |prefixes|
    ensures r.Some? ==> MatchesAt(url, prefixes[r.value.pattern], r.value.at)
    ensures r.Some? ==> forall j :: 0 <= j < r.value.at ==> !MatchesAt(url, prefixes[r.value.pattern], j)
    ensures r.Some? ==> forall k :: 0 <= k < r.value.pattern ==> !Matches(url, prefixes[k])
    ensures r.None? <==> forall k :: 0 <= k < |prefixes| ==> !Matches(url, prefixes[k])
  {
    if prefixes == [] then None
    else
      match SearchFrom(url, prefixes[0], 0)
      case Some(i) => Some(Hit(0, i))
      case None =>
        match FirstMatch(url, prefixes[1..])
        case None => None
        case Some(h) => Some(Hit(h.pattern + 1, h.at))
  }

  /** main.py `extract_video_id`: the id captured by the first pattern that
      matches, or the 400 error when none does. */
  function ExtractVideoId(url: string): (r: Result<string, HttpError>)
    ensures r.Ok? ==> IsVideoId(r.value)
    ensures r.Err? <==> forall k :: 0 <= k < |ServerPrefixes| ==> !Matches(url, ServerPrefixes[k])
    ensures r.Err? ==> r.error == InvalidUrl
  {
    match FirstMatch(url, ServerPrefixes)
    case None => Err(InvalidUrl)
    case Some(h) => Ok(Capture(url, ServerPrefixes[h.pattern], h.at))
  }

  /** A first match is determined by its description: pattern `k` matches at
      `i`, no earlier pattern matches anywhere, and pattern `k` matches
      nowhere before `i`. */
  lemma FirstMatchUnique(url: string, prefixes: seq<string>, k: nat, i: nat)
    requires k < |prefixes| && MatchesAt(url, prefixes[k], i)
    requires forall k' :: 0 <= k' < k ==> !Matches(url, prefixes[k'])
    requires forall j :: 0 <= j < i ==> !MatchesAt(url, prefixes[k], j)
    ensures FirstMatch(url, prefixes) == Some(Hit(k, i))
  {
    var r := FirstMatch(url, prefixes);
    assert r.Some?;
    var h := r.value;
    assert h.pattern == k by {
      assert h.pattern <= k;
      assert Matches(url, prefixes[h.pattern]);
    }
  }

  /** The id the server extracts is the capture of the leftmost match of the
      first matching pattern, and every such description determines it. */
  lemma ExtractVideoIdFirstPattern(url: string, k: nat, i: nat)
    requires k < |ServerPrefixes| && MatchesAt(url, ServerPrefixes[k], i)
    requires forall k' :: 0 <= k' < k ==> !Matches(url, ServerPrefixes[k'])
    requires forall j :: 0 <= j < i ==> !MatchesAt(url, ServerPrefixes[k], j)
    ensures ExtractVideoId(url) == Ok(Capture(url, ServerPrefixes[k], i))
  {
    FirstMatchUnique(url, ServerPrefixes, k, i);
  }

  /** A pattern whose prefix holds a character the link lacks matches
      nowhere. */
  lemma AbsentCharNoMatch(url: string, prefix: string, pos: nat)
    requires pos < |prefix|
    requires forall k :: 0 <= k < |url| ==> url[k] != prefix[pos]
    ensures !Matches(url, prefix)
  {
    forall j | 0 <= j <= |url| ensures !MatchesAt(url, prefix, j) {
      if j + |prefix| <= |url| {
        assert url[j..j + |prefix|][pos] == url[j + pos];
      }
    }
  }

  /** A pattern matches nowhere before `start` when, for every earlier
      start, the character that would face the prefix's character `pos`
      differs from it. */
  lemma NoMatchBefore(url: string, prefix: string, pos: nat, start: nat)
    requires pos < |prefix|
    requires forall k :: pos <= k < start + pos && k < |url| ==> url[k] != prefix[pos]
    ensures forall j :: 0 <= j < start ==> !MatchesAt(url, prefix, j)
  {
    forall j | 0 <= j < start ensures !MatchesAt(url, prefix, j) {
      if j + |prefix| <= |url| {
        assert url[j..j + |prefix|][pos] == url[j + pos];
      }
    }
  }

  /** A character outside the id alphabet that neither `head` nor the
      prefix holds is absent from the whole link. */
  lemma AbsentFromLink(head: string, prefix: string, id: string, ch: char)
    requires IsVideoId(id) && ch !in head && ch !in prefix && !IsIdChar(ch)
    ensures forall k :: 0 <= k < |head + prefix + id| ==> (head + prefix + id)[k] != ch
  {
    var url := head + prefix + id;
    forall k | 0 <= k < |url| ensures url[k] != ch {
      if k < |head| {
        assert url[k] == head[k];
      } else if k < |head| + |prefix| {
        assert url[k] == prefix[k - |head|];
      } else {
        assert url[k] == id[k - |head| - |prefix|];
      }
    }
  }

  /** A link that starts with a prefix and an id matches at 0, whatever
      follows. */
  lemma MatchAtStart(prefix: string, id: string, tail: string)
    requires IsVideoId(id)
    ensures MatchesAt(prefix + id + tail, prefix, 0)
    ensures Capture(prefix + id + tail, prefix, 0) == id
  {
    var url := prefix + id + tail;
    assert url[..|prefix|] == prefix;
    assert url[|prefix|..|prefix| + IdLength] == id;
  }

  /** A link made of `head`, a prefix and an id matches that prefix right
      after `head`. */
  lemma MatchAfter(head: string, prefix: string, id: string)
    requires IsVideoId(id)
    ensures MatchesAt(head + prefix + id, prefix, |head|)
    ensures Capture(head + prefix + id, prefix, |head|) == id
  {
    var url := head + prefix + id;
    assert url[|head|..|head| + |prefix|] == prefix;
    assert url[|head| + |prefix|..|head| + |prefix| + IdLength] == id;
  }

  /** The scheme and host part in front of the links the programs build. */
  const SiteHead := "https://www."

  /** The characters of the host part and of the prefixes that the round
      trips below rely on. */
  lemma LinkChars()
    ensures |SiteHead| == 12 && '?' !in SiteHead
    ensures forall j :: 0 <= j < |SiteHead| ==> SiteHead[j] != 'y'
    ensures WatchPrefix[0] == 'y' && EmbedPrefix[0] == 'y'
    ensures WatchPrefix[17] == '?' && '?' !in EmbedPrefix && '?' !in ShortLinkPrefix
    ensures |WatchPrefix| == 20 && |ShortLinkPrefix| == 9 && |EmbedPrefix| == 18
    ensures forall i :: 0 <= i < |ShortLinkPrefix| && ShortLinkPrefix[i] == '.' ==> i == 5
    ensures EmbedPrefix[7] == '.' && forall i :: 0 <= i < |EmbedPrefix| && EmbedPrefix[i] == '.' ==> i == 7
  {
  }

  /** The watch URL the transcript fallback builds (main.py line 333). */
  function WatchUrl(id: string): string
  {
    SiteHead + WatchPrefix + id
  }

  /** Extracting from the watch URL of an id gives the id back. */
  lemma WatchUrlRoundTrip(id: string)
    requires IsVideoId(id)
    ensures ExtractVideoId(WatchUrl(id)) == Ok(id)
  {
    var url := WatchUrl(id);
    LinkChars();
    MatchAfter(SiteHead, WatchPrefix, id);
    NoMatchBefore(url, WatchPrefix, 0, |SiteHead|);
    var start := |SiteHead|;
    ExtractVideoIdFirstPattern(url, 0, start);
  }
}
