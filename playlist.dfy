/**
 * The playlist resolver's response and the pure per-entry rules of the
 * downloader: which URL is fetched, which title is shown, and how a long
 * title is shortened for the progress bar.
 */
module Playlist {
  import opened Wrappers
  import opened Decimal

  /** One flat playlist entry; `title` and `url` are keys that may be absent. */
  datatype VideoEntry = VideoEntry(id: string, title: Option<string>, url: Option<string>)

  /** The flat extraction result: an info dictionary whose `entries` key may be absent. */
  datatype InfoDict = InfoDict(title: Option<string>, entries: Option<seq<VideoEntry>>)

  /** What the extraction call does: return an info dictionary, or raise. */
  datatype ExtractResponse = Raised(message: string) | Returned(info: InfoDict)

  const WatchPrefix: string := "https://www.youtube.com/watch?v="
  const MaxDisplayLength: nat := 50
  const KeptPrefixLength: nat := 47
  const Ellipsis: string := "..."

  /**
   * get_playlist_info: nothing when the extraction raised or its result has
   * no `entries` key; otherwise the info dictionary unchanged.
   */
  function GetPlaylistInfo(response: ExtractResponse): (r: Option<InfoDict>)
    ensures r.Some? <==> response.Returned? && response.info.entries.Some?
    ensures r.Some? ==> r.value == response.info
  {
    match response
    case Raised(_) => None
    case Returned(info) => if info.entries.None? then None else Some(info)
  }

  /**
   * The URL handed to the downloader: the entry's own `url` when present and
   * non-empty, otherwise the watch URL synthesized from the entry's id.
   */
  function VideoUrl(e: VideoEntry): (r: string)
    ensures r != ""
    ensures e.url.Some? && e.url.value != "" ==> r == e.url.value
    ensures e.url.None? || e.url.value == "" ==> r == WatchPrefix + e.id
  {
    if e.url.Some? && e.url.value != "" then e.url.value else WatchPrefix + e.id
  }

  /** The video id a watch URL names, if the string is one. */
  function WatchId(u: string): (r: Option<string>)
    ensures r.Some? ==> WatchPrefix + r.value == u
  {
    if |WatchPrefix| <= |u| && u[..|WatchPrefix|] == WatchPrefix then Some(u[|WatchPrefix|..])
    else None
  }

  /** A synthesized URL names exactly the entry's id. */
  lemma WatchIdOfSynthesizedUrl(e: VideoEntry)
    requires e.url.None? || e.url.value == ""
    ensures WatchId(VideoUrl(e)) == Some(e.id)
  {
    var u := WatchPrefix + e.id;
    assert u[..|WatchPrefix|] == WatchPrefix;
    assert u[|WatchPrefix|..] == e.id;
  }

  /** The title column of the playlist table: the entry's title, or "N/A". */
  function TableTitle(e: VideoEntry): (r: string)
    ensures e.title.Some? ==> r == e.title.value
    ensures e.title.None? ==> r == "N/A"
  {
    e.title.GetOr("N/A")
  }

  /** The title used for the download label of the `index`-th entry (1-based). */
  function DownloadTitle(e: VideoEntry, index: nat): (r: string)
    ensures e.title.Some? ==> r == e.title.value
    ensures e.title.None? ==> r == "Video " + NatToString(index)
  {
    e.title.GetOr("Video " + NatToString(index))
  }

  /** A placeholder title reads back as the entry's 1-based position. */
  lemma PlaceholderTitleNamesIndex(e: VideoEntry, index: nat)
    requires e.title.None?
    ensures var r := DownloadTitle(e, index);
      |r| > 6 && r[..6] == "Video " && AllDigits(r[6..]) && DigitsValue(r[6..]) == index
  {
    var r := DownloadTitle(e, index);
    assert r[6..] == NatToString(index);
    DigitsValueOfNatToString(index);
  }

  /**
   * The label text for a title: a title longer than 50 characters becomes its
   * first 47 characters followed by "...", exactly 50 characters; a shorter
   * title is kept as it is.
   */
  function DisplayTitle(t: string): (r: string)
    ensures |r| <= MaxDisplayLength
    ensures |t| > MaxDisplayLength ==>
      |r| == MaxDisplayLength && r[..KeptPrefixLength] == t[..KeptPrefixLength] && r[KeptPrefixLength..] == Ellipsis
    ensures |t| <= MaxDisplayLength ==> r == t
  {
    if |t| > MaxDisplayLength then t[..KeptPrefixLength] + Ellipsis else t
  }

  /** The label length is the title's, capped at 50; a title is kept exactly when it fits. */
  lemma DisplayTitleLength(t: string)
    ensures |DisplayTitle(t)| == if |t| <= MaxDisplayLength then |t| else MaxDisplayLength
    ensures DisplayTitle(t) == t <==> |t| <= MaxDisplayLength
  {
  }

  /** Shortening is idempotent: a label is already its own label. */
  lemma DisplayTitleIdempotent(t: string)
    ensures DisplayTitle(DisplayTitle(t)) == DisplayTitle(t)
  {
  }
}
