/** Where the Account screen plays and downloads a processed video from. */
module Playback {
  import opened Wrappers

  /** The fixed base the client resolves processed-video names against. */
  const ProcessedBase := "http://localhost:5000/processed/"

  predicate StartsWithSlash(s: string) {
    |s| > 0 && s[0] == '/'
  }

  /** `VideoPlayer`: a name beginning with '/' is used as it is, anything
      else is placed under the processed base. */
  function PlaybackPath(filename: string): (path: string)
    ensures StartsWithSlash(filename) ==> path == filename
    ensures !StartsWithSlash(filename) ==> path == ProcessedBase + filename
  {
    if StartsWithSlash(filename) then filename else ProcessedBase + filename
  }

  /** The URL `handleDownload` fetches: always under the processed base. */
  function DownloadUrl(filename: string): (url: string)
    ensures |url| == |ProcessedBase| + |filename|
    ensures url[..|ProcessedBase|] == ProcessedBase && url[|ProcessedBase|..] == filename
  {
    ProcessedBase + filename
  }

  /** A filename state value is truthy when it is present and not empty. */
  predicate Truthy(filename: Option<string>) {
    filename.Some? && filename.value != ""
  }

  /** `handleDownload` returns at once without a truthy filename; otherwise it
      fetches the download URL. */
  function DownloadTarget(filename: Option<string>): (url: Option<string>)
    ensures url.Some? <==> Truthy(filename)
    ensures url.Some? ==> url.value == DownloadUrl(filename.value)
  {
    if Truthy(filename) then Some(DownloadUrl(filename.value)) else None
  }

  /** Playback and download agree on every name that is not already a path. */
  lemma PlaybackAgreesWithDownload(filename: string)
    requires !StartsWithSlash(filename)
    ensures PlaybackPath(filename) == DownloadUrl(filename)
  {
  }

  /** The playback path of a relative name is not itself seen as a path,
      so the rule is not idempotent: resolving twice prefixes the base twice. */
  lemma ResolvedPathIsNotAbsolute(filename: string)
    requires !StartsWithSlash(filename)
    ensures !StartsWithSlash(PlaybackPath(filename))
    ensures PlaybackPath(PlaybackPath(filename)) == ProcessedBase + ProcessedBase + filename
  {
    assert PlaybackPath(filename)[0] == 'h';
  }
}
