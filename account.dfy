/** The Account screen's workflow: the component's state fields, updated by
    one method per event (label toggle, Next, Back, file choice, upload start
    and its reply, progress tick, final timer, the latest-video reply, the
    comparison dialog buttons, unmount). */
module AccountScreen {
  import opened Wrappers
  import Labels
  import Progress
  import Playback

  /** The file the user picked; only its identity matters here. */
  datatype File = File(name: string)

  /** What a `fetch` against the server ends in: no usable answer (the
      request or `response.json()` rejected), a non-ok HTTP status, or a JSON
      body. A JSON array is truthy even when empty, so `detected_labels`
      counts when it is present at all. */
  datatype Reply =
    | Unreachable
    | NotOk
    | Body(success: bool, filename: Option<string>, detectedLabels: Option<seq<string>>)

  predicate Succeeded(reply: Reply) {
    reply.Body? && reply.success
  }

  /** The multipart form `handleUploadAndProcess` posts. */
  datatype UploadRequest = UploadRequest(video: File, suggestedLabels: seq<string>)

  /** The component's state at one moment. `timersActive` tells whether the
      progress interval and the 10-second final timer are scheduled; the
      effect always creates and clears the two together. */
  datatype AccountState = AccountState(
    activeStep: int,
    uploading: bool,
    processing: bool,
    progress: int,
    selectedLabels: seq<Labels.Entry>,
    detectedLabels: seq<string>,
    showComparison: bool,
    selectedFile: Option<File>,
    processedVideoFilename: Option<string>,
    timersActive: bool)

  /** The `useState` initial values; the latest-video fetch has not
      answered yet. */
  const Initial := AccountState(0, false, false, 0, [], [], false, None, None, false)

  /** What every reachable state satisfies. */
  predicate Valid(s: AccountState) {
    0 <= s.activeStep <= 1 &&
    0 <= s.progress <= 100 &&
    Labels.DistinctKeys(s.selectedLabels) &&
    (s.timersActive ==> s.processing)
  }

  /** The effect on `[processing]`: when `processing` changes, the cleanup
      clears both timers and, if now processing with progress below 100,
      both are scheduled again; when it does not change, nothing happens. */
  function EffectTimers(before: bool, after: bool, progress: int, active: bool): (armed: bool)
    ensures armed ==> after || (before == after && active)
    ensures before != after ==> (armed <==> after && progress < 100)
    ensures before == after ==> armed == active
  {
    if before == after then active else after && progress < 100
  }

  /** The Next button is enabled. */
  predicate NextEnabled(s: AccountState): (enabled: bool)
    ensures enabled <==> Labels.Suggested(s.selectedLabels) != []
  {
    Labels.AnySelectedIffSuggestions(s.selectedLabels);
    Labels.AnySelected(s.selectedLabels)
  }

  /** The "Process Video" button is shown. */
  predicate ProcessButtonShown(s: AccountState): (shown: bool)
    ensures shown ==> s.selectedFile.Some? && !Busy(s)
  {
    s.activeStep == 1 && s.selectedFile.Some? && !s.uploading && !s.processing
  }

  /** On the upload step, the "Select Video" button is disabled and the
      progress bar is shown. */
  predicate Busy(s: AccountState): (busy: bool)
    ensures Valid(s) && s.timersActive ==> busy
  {
    s.uploading || s.processing
  }

  /** The value the progress bar shows while it is visible. */
  function ProgressBarValue(s: AccountState): (v: int)
    ensures Valid(s) ==> 0 <= v <= 100
    ensures s.processing ==> v == s.progress
    ensures !s.processing ==> v == 0
  {
    if s.processing then s.progress else 0
  }

  /** The player's source, when the result section is shown at all. */
  function PlayerSource(s: AccountState): (src: Option<string>)
    ensures src.Some? <==> Playback.Truthy(s.processedVideoFilename)
    ensures src.Some? ==> src.value == Playback.PlaybackPath(s.processedVideoFilename.value)
  {
    if Playback.Truthy(s.processedVideoFilename) then Some(Playback.PlaybackPath(s.processedVideoFilename.value)) else None
  }

  /** The two columns of the comparison dialog. */
  function ComparisonColumns(s: AccountState): (columns: (seq<(string, Labels.Tone)>, seq<(string, Labels.Tone)>))
    ensures |columns.0| == |Labels.Suggested(s.selectedLabels)| && |columns.1| == |s.detectedLabels|
    ensures forall i :: 0 <= i < |columns.0| ==> columns.0[i].0 == Labels.Suggested(s.selectedLabels)[i]
    ensures forall i :: 0 <= i < |columns.1| ==> columns.1[i].0 == s.detectedLabels[i]
    ensures Labels.Matched(columns.0) == Labels.Matched(columns.1)
    ensures Valid(s) ==> forall x :: x in Labels.Matched(columns.0) <==> Labels.Flag(s.selectedLabels, x) && x in s.detectedLabels
  {
    var suggested := Labels.Suggested(s.selectedLabels);
    Labels.BothColumnsMatchIntersection(suggested, s.detectedLabels);
    Labels.SuggestedElements(s.selectedLabels);
    assert forall x :: x in Labels.Elements(s.detectedLabels) <==> x in s.detectedLabels;
    (Labels.SuggestedRows(suggested, s.detectedLabels), Labels.DetectedRows(s.detectedLabels, suggested))
  }

  /** The state after an upload acknowledgment or failure. */
  function AfterUploadReply(s: AccountState, reply: Reply): (t: AccountState)
    ensures t.activeStep == s.activeStep && t.progress == s.progress && t.showComparison == s.showComparison
    ensures t.selectedLabels == s.selectedLabels && t.selectedFile == s.selectedFile
    ensures Succeeded(reply) ==> t.uploading == s.uploading && t.processing
    ensures Succeeded(reply) ==>
      t.processedVideoFilename == reply.filename && t.detectedLabels == reply.detectedLabels.GetOr(s.detectedLabels)
    ensures Succeeded(reply) ==> t.timersActive == EffectTimers(s.processing, true, s.progress, s.timersActive)
    ensures !Succeeded(reply) ==> !t.uploading && !t.processing
  {
    if Succeeded(reply) then
      s.(processedVideoFilename := reply.filename,
         detectedLabels := reply.detectedLabels.GetOr(s.detectedLabels),
         processing := true,
         timersActive := EffectTimers(s.processing, true, s.progress, s.timersActive))
    else
      s.(uploading := false, processing := false, timersActive := false)
  }

  /** An acknowledged upload leaves the screen busy, with the timers running
      when progress was below 100; a failed one clears both flags and keeps
      the result fields and the chosen file. */
  lemma UploadReplyOutcome(s: AccountState, reply: Reply)
    requires Valid(s)
    ensures Valid(AfterUploadReply(s, reply))
    ensures Succeeded(reply) ==> Busy(AfterUploadReply(s, reply)) && !ProcessButtonShown(AfterUploadReply(s, reply))
    ensures Succeeded(reply) && !s.processing && s.progress < 100 ==> AfterUploadReply(s, reply).timersActive
    ensures !Succeeded(reply) ==> !Busy(AfterUploadReply(s, reply)) && !AfterUploadReply(s, reply).timersActive
    ensures !Succeeded(reply) ==>
      AfterUploadReply(s, reply).processedVideoFilename == s.processedVideoFilename &&
      AfterUploadReply(s, reply).detectedLabels == s.detectedLabels &&
      AfterUploadReply(s, reply).selectedFile == s.selectedFile
  {
  }

  class Account {
    var activeStep: int
    var uploading: bool
    var processing: bool
    var progress: int
    var selectedLabels: seq<Labels.Entry>
    var detectedLabels: seq<string>
    var showComparison: bool
    var selectedFile: Option<File>
    var processedVideoFilename: Option<string>
    var timersActive: bool

    function State(): AccountState
      reads this
    {
      AccountState(activeStep, uploading, processing, progress, selectedLabels, detectedLabels,
                   showComparison, selectedFile, processedVideoFilename, timersActive)
    }

    /** Mounting the component. */
    constructor ()
      ensures State() == Initial && Valid(State())
    {
      activeStep, uploading, processing, progress := 0, false, false, 0;
      selectedLabels, detectedLabels, showComparison := [], [], false;
      selectedFile, processedVideoFilename, timersActive := None, None, false;
    }

    /** The answer to `fetchLatestProcessedVideo`, asked once on mount: a
        successful body supplies the filename and, when present, the
        detected labels; anything else changes nothing. The step stays
        where it is. */
    method ReceiveLatestVideo(reply: Reply)
      requires Valid(State())
      modifies this
      ensures Valid(State())
      ensures Succeeded(reply) ==> State() == old(State()).(
        processedVideoFilename := reply.filename,
        detectedLabels := reply.detectedLabels.GetOr(old(detectedLabels)))
      ensures !Succeeded(reply) ==> State() == old(State())
    {
      if Succeeded(reply) {
        processedVideoFilename := reply.filename;
        if reply.detectedLabels.Some? {
          detectedLabels := reply.detectedLabels.value;
        }
      }
    }

    /** `handleLabelChange`: flips one label's flag and nothing else. */
    method ToggleLabel(key: string)
      requires Valid(State())
      modifies this
      ensures Valid(State())
      ensures State() == old(State()).(selectedLabels := Labels.Toggle(old(selectedLabels), key))
      ensures Labels.Flag(selectedLabels, key) == !Labels.Flag(old(selectedLabels), key)
      ensures forall other :: other != key ==> Labels.Flag(selectedLabels, other) == Labels.Flag(old(selectedLabels), other)
    {
      Labels.ToggleKeepsDistinct(selectedLabels, key);
      forall other ensures other != key ==> Labels.Flag(Labels.Toggle(selectedLabels, key), other) == Labels.Flag(selectedLabels, other) {
        Labels.ToggleFlipsOnlyThatLabel(selectedLabels, key, other);
      }
      Labels.ToggleFlipsOnlyThatLabel(selectedLabels, key, key);
      selectedLabels := Labels.Toggle(selectedLabels, key);
    }

    /** `handleNext`: from step 0 to step 1 exactly when some flag is true,
        the same test that enables the button; otherwise nothing. */
    method Next()
      requires Valid(State())
      modifies this
      ensures Valid(State())
      ensures old(activeStep) == 0 && NextEnabled(old(State())) ==> State() == old(State()).(activeStep := 1)
      ensures !(old(activeStep) == 0 && NextEnabled(old(State()))) ==> State() == old(State())
    {
      if activeStep == 0 && Labels.AnySelected(selectedLabels) {
        activeStep := 1;
      }
    }

    /** `handleBack`: step 0 and no chosen file; labels and results stay. */
    method Back()
      requires Valid(State())
      modifies this
      ensures Valid(State())
      ensures State() == old(State()).(activeStep := 0, selectedFile := None)
    {
      activeStep := 0;
      selectedFile := None;
    }

    /** `handleFileSelect`: the first chosen file replaces the previous one;
        an empty choice changes nothing. */
    method SelectFile(files: seq<File>)
      requires Valid(State())
      modifies this
      ensures Valid(State())
      ensures |files| > 0 ==> State() == old(State()).(selectedFile := Some(files[0]))
      ensures |files| == 0 ==> State() == old(State())
    {
      if |files| > 0 {
        selectedFile := Some(files[0]);
      }
    }

    /** The synchronous part of `handleUploadAndProcess`: without a file it
        does nothing and sends nothing; otherwise it marks the upload, resets
        the progress and posts the file with the labels whose flag is true,
        in key order, the same list the comparison dialog shows. */
    method StartUpload() returns (request: Option<UploadRequest>)
      requires Valid(State())
      modifies this
      ensures Valid(State())
      ensures old(selectedFile).None? ==> request.None? && State() == old(State())
      ensures old(selectedFile).Some? ==>
        request == Some(UploadRequest(old(selectedFile).value, Labels.Suggested(old(selectedLabels)))) &&
        State() == old(State()).(uploading := true, progress := 0)
      ensures request.Some? ==> !ProcessButtonShown(State()) && Busy(State())
    {
      if selectedFile.None? {
        return None;
      }
      uploading := true;
      progress := 0;
      request := Some(UploadRequest(selectedFile.value, Labels.Suggested(selectedLabels)));
    }

    /** The rest of `handleUploadAndProcess`, once the server has answered. */
    method ReceiveUploadReply(reply: Reply)
      requires Valid(State())
      modifies this
      ensures Valid(State())
      ensures State() == AfterUploadReply(old(State()), reply)
    {
      var before := processing;
      if Succeeded(reply) {
        processedVideoFilename := reply.filename;
        if reply.detectedLabels.Some? {
          detectedLabels := reply.detectedLabels.value;
        }
        processing := true;
      } else {
        uploading := false;
        processing := false;
      }
      timersActive := EffectTimers(before, processing, progress, timersActive);
    }

    /** One firing of the progress interval with increment `increment`;
        a cleared interval does not fire. */
    method Tick(increment: int)
      requires Valid(State()) && Progress.IsIncrement(increment)
      modifies this
      ensures Valid(State())
      ensures old(timersActive) ==> State() == old(State()).(progress := Progress.NextProgress(old(progress), increment))
      ensures !old(timersActive) ==> State() == old(State())
      ensures old(progress) <= progress <= 100
    {
      if timersActive {
        progress := Progress.NextProgress(progress, increment);
      }
    }

    /** The 10-second final timer: progress 100, processing over, comparison
        dialog open; the effect's cleanup then clears the interval. */
    method FinalTimeout()
      requires Valid(State())
      modifies this
      ensures Valid(State())
      ensures old(timersActive) ==> State() == old(State()).(
        progress := 100, processing := false, showComparison := true, timersActive := false)
      ensures !old(timersActive) ==> State() == old(State())
    {
      if timersActive {
        progress := 100;
        var before := processing;
        processing := false;
        showComparison := true;
        timersActive := EffectTimers(before, processing, progress, timersActive);
      }
    }

    /** "View Label Comparison". */
    method OpenComparison()
      requires Valid(State())
      modifies this
      ensures Valid(State())
      ensures State() == old(State()).(showComparison := true)
    {
      showComparison := true;
    }

    /** The dialog's close action. */
    method CloseComparison()
      requires Valid(State())
      modifies this
      ensures Valid(State())
      ensures State() == old(State()).(showComparison := false)
    {
      showComparison := false;
    }

    /** Unmounting runs the effect's cleanup: both timers are cleared. */
    method Unmount()
      requires Valid(State())
      modifies this
      ensures Valid(State())
      ensures State() == old(State()).(timersActive := false)
    {
      timersActive := false;
    }
  }
}
