/** The processed folder as the server reads it: the newest output video,
    its stored detection results, and the newest-first listing, together
    with the two GET endpoints built on them. */
module ProcessedFolder {
  import opened Wrappers
  import opened Naming
  import opened Http

  /** The readable content of a results file: the `detected_labels` member
      of a JSON object, when present. */
  datatype ResultsJson = ResultsJson(detectedLabels: Option<seq<string>>)

  /** A file of the folder: its modification time and, when its content
      parses as a JSON object, that object. */
  datatype FileEntry = FileEntry(mtime: int, json: Option<ResultsJson>)

  type Folder = map<string, FileEntry>

  /** The files the glob for `_out.mp4` names in the processed folder returns. */
  function Videos(folder: Folder): (vs: set<string>)
    ensures forall f :: f in vs <==> f in folder && IsOutputVideo(f)
  {
    set f | f in folder && IsOutputVideo(f)
  }

  /** The detected labels stored for a video: those of its results file,
      `[]` when that file is missing, unreadable or has no such member. */
  function StoredLabels(folder: Folder, video: string): (labels: seq<string>)
    requires IsOutputVideo(video)
    ensures ResultsNameOf(video) !in folder ==> labels == []
    ensures ResultsNameOf(video) in folder && folder[ResultsNameOf(video)].json.None? ==> labels == []
    ensures ResultsNameOf(video) in folder && folder[ResultsNameOf(video)].json.Some? ==>
      labels == folder[ResultsNameOf(video)].json.value.detectedLabels.GetOr([])
  {
    var results := ResultsNameOf(video);
    if results in folder && folder[results].json.Some? then folder[results].json.value.detectedLabels.GetOr([]) else []
  }

  /** The labels written for video number n are the ones read back for its
      output video; without a readable results file they are `[]`. */
  lemma StoredLabelsOfNumber(folder: Folder, n: int)
    ensures IsOutputVideo(OutputName(n))
    ensures ResultsFileName(n) in folder && folder[ResultsFileName(n)].json.Some? ==>
      StoredLabels(folder, OutputName(n)) == folder[ResultsFileName(n)].json.value.detectedLabels.GetOr([])
    ensures ResultsFileName(n) !in folder || folder[ResultsFileName(n)].json.None? ==>
      StoredLabels(folder, OutputName(n)) == []
  {
    ResultsNameMatchesWriter(n);
  }

  /** The listing entry of one video: its name, its `/processed/` URL and
      its stored labels. */
  function InfoOf(folder: Folder, video: string): (info: VideoInfo)
    requires IsOutputVideo(video)
    ensures info.filename == video && info.videoUrl == "/processed/" + info.filename
    ensures info.detectedLabels == StoredLabels(folder, video)
  {
    VideoInfo(video, VideoUrl(video), StoredLabels(folder, video))
  }

  /** A file of greatest modification time among `candidates`, as
      `max(files, key=os.path.getmtime)` finds one; which of several equally
      new files is taken depends on the unspecified listing order. */
  method PickNewest(folder: Folder, candidates: set<string>) returns (newest: string)
    requires candidates != {} && candidates <= folder.Keys
    ensures newest in candidates
    ensures forall f :: f in candidates ==> folder[f].mtime <= folder[newest].mtime
  {
    newest :| newest in candidates;
    var pending := candidates - {newest};
    while pending != {}
      invariant pending <= candidates && newest in candidates
      invariant forall f :: f in candidates && f !in pending ==> folder[f].mtime <= folder[newest].mtime
      decreases |pending|
    {
      var f :| f in pending;
      if folder[f].mtime > folder[newest].mtime {
        newest := f;
      }
      pending := pending - {f};
    }
  }

  datatype Latest = Latest(filename: string, detectedLabels: seq<string>)

  /** `get_latest_processed_video`: `(None, None)` without any output video;
      otherwise a newest one with its stored labels. */
  method LatestProcessedVideo(folder: Folder) returns (latest: Option<Latest>)
    ensures latest.None? <==> Videos(folder) == {}
    ensures latest.Some? ==> latest.value.filename in Videos(folder)
    ensures latest.Some? ==> forall f :: f in Videos(folder) ==> folder[f].mtime <= folder[latest.value.filename].mtime
    ensures latest.Some? ==> latest.value.detectedLabels == StoredLabels(folder, latest.value.filename)
  {
    var files := Videos(folder);
    if files == {} {
      return None;
    }
    var newest := PickNewest(folder, files);
    latest := Some(Latest(newest, StoredLabels(folder, newest)));
  }

  /** `get_latest_video`: 404 with an error when there is no output video,
      otherwise success with the newest file, its URL and its labels. */
  method GetLatestVideo(folder: Folder) returns (reply: HttpReply)
    ensures Videos(folder) == {} ==> reply == HttpReply(404, ErrorBody("No processed videos found"))
    ensures Videos(folder) != {} ==> reply.status == 200 && reply.body.LatestBody? && reply.body.success
    ensures reply.body.LatestBody? ==> (
      var info := reply.body.info;
      info.filename in Videos(folder) &&
      info.videoUrl == VideoUrl(info.filename) &&
      info.detectedLabels == StoredLabels(folder, info.filename) &&
      forall f :: f in Videos(folder) ==> folder[f].mtime <= folder[info.filename].mtime)
  {
    var latest := LatestProcessedVideo(folder);
    if latest.None? {
      return HttpReply(404, ErrorBody("No processed videos found"));
    }
    var name := latest.value.filename;
    reply := HttpReply(200, LatestBody(true, VideoInfo(name, VideoUrl(name), latest.value.detectedLabels)));
  }

  predicate NewestFirstOrder(folder: Folder, files: seq<string>)
    requires forall i :: 0 <= i < |files| ==> files[i] in folder
  {
    forall i, j :: 0 <= i < j < |files| ==> folder[files[j]].mtime <= folder[files[i]].mtime
  }

  /** `files.sort(key=os.path.getmtime, reverse=True)` on the glob result:
      every output video once, newest first. */
  method NewestFirst(folder: Folder) returns (files: seq<string>)
    ensures forall i :: 0 <= i < |files| ==> files[i] in Videos(folder)
    ensures forall f :: f in Videos(folder) ==> f in files
    ensures forall i, j :: 0 <= i < j < |files| ==> files[i] != files[j]
    ensures NewestFirstOrder(folder, files)
  {
    var remaining := Videos(folder);
    files := [];
    while remaining != {}
      invariant remaining <= Videos(folder)
      invariant forall i :: 0 <= i < |files| ==> files[i] in Videos(folder) && files[i] !in remaining
      invariant forall f :: f in Videos(folder) ==> f in remaining || f in files
      invariant forall i, j :: 0 <= i < j < |files| ==> files[i] != files[j]
      invariant NewestFirstOrder(folder, files)
      invariant forall i, f :: 0 <= i < |files| && f in remaining ==> folder[f].mtime <= folder[files[i]].mtime
      decreases |remaining|
    {
      var f := PickNewest(folder, remaining);
      files := files + [f];
      remaining := remaining - {f};
    }
  }

  /** `get_all_videos`: always status 200; without output videos
      `success: False` and an empty list, otherwise one entry per video,
      newest first, each with its URL and stored labels. */
  method GetAllVideos(folder: Folder) returns (reply: HttpReply)
    ensures reply.status == 200 && reply.body.ListBody?
    ensures Videos(folder) == {} <==> reply.body == ListBody(false, [])
    ensures Videos(folder) != {} ==> reply.body.success
    ensures (var vs := reply.body.videos;
      (forall i :: 0 <= i < |vs| ==> vs[i].filename in Videos(folder) && vs[i] == InfoOf(folder, vs[i].filename)) &&
      (forall f :: f in Videos(folder) ==> exists i :: 0 <= i < |vs| && vs[i].filename == f) &&
      (forall i, j :: 0 <= i < j < |vs| ==> vs[i].filename != vs[j].filename) &&
      (forall i, j :: 0 <= i < j < |vs| ==> folder[vs[j].filename].mtime <= folder[vs[i].filename].mtime))
  {
    if Videos(folder) == {} {
      return HttpReply(200, ListBody(false, []));
    }
    var files := NewestFirst(folder);
    var videos: seq<VideoInfo> := [];
    for k := 0 to |files|
      invariant |videos| == k
      invariant forall i :: 0 <= i < k ==> videos[i] == InfoOf(folder, files[i])
    {
      videos := videos + [InfoOf(folder, files[k])];
    }
    assert |files| > 0 by {
      var f :| f in Videos(folder);
      assert f in files;
    }
    reply := HttpReply(200, ListBody(true, videos));
    forall f | f in Videos(folder) ensures exists i :: 0 <= i < |videos| && videos[i].filename == f {
      var i :| 0 <= i < |files| && files[i] == f;
      assert videos[i].filename == f;
    }
  }
}
