/** Obtaining the transcript of a video (main.py `get_transcript`) and the
    length gate and clamp the task runner applies to it (main.py lines
    214-218). The transcript services themselves are outside the model: what
    they answered for a video is an input. */
module Transcripts {
  import opened Results
  import opened Strings

  const MinLength: nat := 50
  const MaxLength: nat := 30000
  const TruncationMarker := "... [truncated]"
  const TooShortMessage := "Transcript is too short"

  /** What the subtitle fallback returns when it finds subtitles: a fixed text
      instead of the subtitles themselves. */
  const FallbackPlaceholder := "Transcript fetched via yt-dlp (Content parsing pending)"

  /** The part of the primary service's error text that marks a video
      without captions. */
  const NoCaptionsMarker := "Could not retrieve a transcript"

  const NoCaptions := HttpError(404, "No transcript available (Captions disabled).")
  const FailedFetchPrefix := "Failed to fetch transcript: "

  /** What the transcript services answered for one video: the caption
      fragments of the primary service, or its error text together with
      whether the subtitle fallback listed any subtitles (a fallback that
      fails outright lists none). */
  datatype Fetch =
    | Captions(fragments: seq<string>)
    | Failure(message: string, subtitlesListed: bool)

  /** main.py `get_transcript`: the fragments joined by single spaces; on
      failure the fallback placeholder when subtitles exist, otherwise a 404
      when the error says the transcript cannot be retrieved and a 500
      carrying the error text in every other case. */
  function GetTranscript(fetch: Fetch): (r: Result<string, HttpError>)
    ensures r.Err? <==> fetch.Failure? && !fetch.subtitlesListed
    ensures fetch.Captions? ==> r == Ok(Join(fetch.fragments, " "))
    ensures fetch.Failure? && fetch.subtitlesListed ==> r == Ok(FallbackPlaceholder)
    ensures r.Err? ==> (r.error == NoCaptions <==> Contains(fetch.message, NoCaptionsMarker))
    ensures r.Err? && r.error != NoCaptions ==> r.error == HttpError(500, FailedFetchPrefix + fetch.message)
  {
    match fetch
    case Captions(fragments) => Ok(Join(fragments, " "))
    case Failure(message, subtitlesListed) =>
      if subtitlesListed then Ok(FallbackPlaceholder)
      else if Contains(message, NoCaptionsMarker) then Err(NoCaptions)
      else Err(HttpError(500, FailedFetchPrefix + message))
  }

  /** The gate and clamp of main.py lines 214-218: a transcript shorter than
      50 characters is refused, one longer than 30000 is cut to its first
      30000 characters followed by the truncation marker, and every other
      transcript passes unchanged. */
  function GateTranscript(t: string): (r: Result<string, string>)
    ensures r.Err? <==> |t| < MinLength
    ensures r.Err? ==> r.error == TooShortMessage
    ensures r.Ok? && |t| <= MaxLength ==> r.value == t
    ensures r.Ok? && |t| > MaxLength ==> r.value == t[..MaxLength] + TruncationMarker
  {
    if |t| < MinLength then Err(TooShortMessage)
    else if |t| > MaxLength then Ok(t[..MaxLength] + TruncationMarker)
    else Ok(t)
  }

  /** A transcript that passes the gate is never shorter than 50 characters
      nor longer than 30000 plus the marker, and it always starts with the
      original text (all of it, or its first 30000 characters). */
  lemma GateBounds(t: string)
    requires GateTranscript(t).Ok?
    ensures MinLength <= |GateTranscript(t).value| <= MaxLength + |TruncationMarker|
    ensures var keep := if |t| <= MaxLength then |t| else MaxLength;
            GateTranscript(t).value[..keep] == t[..keep]
  {
  }

  /** The clamp is idempotent: a clamped transcript passes the gate again
      and comes out the same. */
  lemma GateIdempotent(t: string)
    requires GateTranscript(t).Ok?
    ensures GateTranscript(GateTranscript(t).value) == GateTranscript(t)
  {
    var c := GateTranscript(t).value;
    if |t| > MaxLength {
      assert c[..MaxLength] == t[..MaxLength];
    }
  }

  /** The fallback placeholder is 55 characters long, so a video whose
      captions fail but whose subtitles are listed passes the gate with the
      placeholder as its transcript. */
  lemma PlaceholderPassesGate(message: string)
    ensures |FallbackPlaceholder| == 55
    ensures GetTranscript(Failure(message, true)) == Ok(FallbackPlaceholder)
    ensures GateTranscript(FallbackPlaceholder) == Ok(FallbackPlaceholder)
  {
  }

  /** Every transcript built from the primary service's fragments keeps the
      fragments in order: splitting it at single spaces gives the fragments
      back when no fragment contains a space. */
  lemma {:induction false} CaptionsRoundTrip(fragments: seq<string>)
    requires fragments != []
    requires forall k :: 0 <= k < |fragments| ==> ' ' !in fragments[k]
    ensures Split(GetTranscript(Captions(fragments)).value, " ") == fragments
    decreases |fragments|
  {
    if |fragments| > 1 {
      var rest := fragments[1..];
      CaptionsRoundTrip(rest);
      SplitCons(fragments[0], ' ', Join(rest, " "));
      assert Join(fragments, " ") == fragments[0] + " " + Join(rest, " ");
    } else {
      assert Join(fragments, " ") == fragments[0];
      SplitNone(fragments[0], ' ');
    }
  }
}
