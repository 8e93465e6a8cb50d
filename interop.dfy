/** How the client's locations line up with the server's names and routes. */
module Interop {
  import Naming
  import Http
  import Playback

  /** The server's origin as the client hard-codes it. */
  const ServerOrigin := "http://localhost:5000"

  /** The client's download URL for a name is the server's `video_url` for
      it, placed under the server's origin. */
  lemma DownloadUrlIsServerVideoUrl(filename: string)
    ensures Playback.DownloadUrl(filename) == ServerOrigin + Http.VideoUrl(filename)
  {
  }

  /** A name the server gives an output video never begins with '/', so the
      player and the download reach the same route, the one the server
      reports as `video_url`. */
  lemma PlaybackOfServerName(n: int)
    ensures !Playback.StartsWithSlash(Naming.OutputName(n))
    ensures Playback.PlaybackPath(Naming.OutputName(n)) == Playback.DownloadUrl(Naming.OutputName(n))
    ensures Playback.PlaybackPath(Naming.OutputName(n)) == ServerOrigin + Http.VideoUrl(Naming.OutputName(n))
  {
    var name := Naming.OutputName(n);
    assert name[0] == Naming.IntToString(n)[0];
  }
}
