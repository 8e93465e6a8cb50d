/** The JSON replies of the server's endpoints, with their status codes. */
module Http {

  /** One entry of a video listing: `filename`, `video_url`, `detected_labels`. */
  datatype VideoInfo = VideoInfo(filename: string, videoUrl: string, detectedLabels: seq<string>)

  datatype Body =
    | ErrorBody(error: string)
    | LatestBody(success: bool, info: VideoInfo)
    | ListBody(success: bool, videos: seq<VideoInfo>)

  datatype HttpReply = HttpReply(status: int, body: Body)

  /** `f'/processed/{filename}'`, the route that serves the processed folder. */
  function VideoUrl(filename: string): (url: string)
    ensures |url| == |"/processed/"| + |filename|
    ensures url[..|"/processed/"|] == "/processed/" && url[|"/processed/"|..] == filename
  {
    "/processed/" + filename
  }
}
