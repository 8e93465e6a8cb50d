/** The server's own state: the video counter file and the processed
    folder, with the `process_video` request handler that consults and
    advances the counter. */
module Server {
  import opened Wrappers
  import opened Naming
  import opened Http
  import ProcessedFolder

  /** The counter file: absent, a JSON object with or without an integer
      `count`, or content `json.load` rejects (or a `count` that `+ 1`
      rejects). */
  datatype CounterFile = Missing | Stored(count: Option<int>) | Unreadable

  /** `get_next_video_number`: 1 without a counter file, otherwise the
      stored count plus one, a missing count reading as 0; an unreadable
      file makes it raise. */
  function NextVideoNumber(counter: CounterFile): (n: Option<int>)
    ensures counter.Missing? ==> n == Some(1)
    ensures counter.Stored? ==> n == Some(counter.count.GetOr(0) + 1)
    ensures counter.Unreadable? ==> n.None?
  {
    match counter
    case Missing => Some(1)
    case Stored(count) => Some(count.GetOr(0) + 1)
    case Unreadable => None
  }

  /** The file `save_video_number(n)` writes: `{'count': n}`, which the
      next request reads back as n + 1. */
  function Saved(n: int): (c: CounterFile)
    ensures NextVideoNumber(c) == Some(n + 1)
  {
    Stored(Some(n))
  }

  /** The numbers a run of `count` accepted requests is given, starting
      from the counter file `counter`: each takes the next number and saves
      it before any processing, so its later failure does not matter. An
      unreadable counter gives no numbers. */
  function NumbersGiven(counter: CounterFile, count: nat): (numbers: seq<int>)
    ensures !counter.Unreadable? ==> |numbers| == count
    ensures counter.Unreadable? ==> numbers == []
    decreases count
  {
    if count == 0 then []
    else match NextVideoNumber(counter)
      case None => []
      case Some(n) => [n] + NumbersGiven(Saved(n), count - 1)
  }

  /** Successive requests get consecutive, hence strictly increasing and
      distinct, numbers, the first being the next number of the starting
      counter. */
  lemma {:induction false} NumbersGivenIncrease(counter: CounterFile, count: nat)
    requires !counter.Unreadable?
    ensures count > 0 ==> NumbersGiven(counter, count)[0] == NextVideoNumber(counter).value
    ensures forall i :: 0 <= i < count ==> NumbersGiven(counter, count)[i] == NextVideoNumber(counter).value + i
    ensures forall i, j :: 0 <= i < j < count ==> NumbersGiven(counter, count)[i] < NumbersGiven(counter, count)[j]
    decreases count
  {
    if count > 0 {
      var n := NextVideoNumber(counter).value;
      NumbersGivenIncrease(Saved(n), count - 1);
      var rest := NumbersGiven(Saved(n), count - 1);
      assert NumbersGiven(counter, count) == [n] + rest;
      forall i | 0 < i < count ensures NumbersGiven(counter, count)[i] == n + i {
        assert NumbersGiven(counter, count)[i] == rest[i - 1];
      }
    }
  }

  /** So the output names of successive requests never collide. */
  lemma NamesGivenDistinct(counter: CounterFile, count: nat, i: nat, j: nat)
    requires !counter.Unreadable? && i < j < count
    ensures OutputName(NumbersGiven(counter, count)[i]) != OutputName(NumbersGiven(counter, count)[j])
  {
    NumbersGivenIncrease(counter, count);
    if OutputName(NumbersGiven(counter, count)[i]) == OutputName(NumbersGiven(counter, count)[j]) {
      OutputNameInjective(NumbersGiven(counter, count)[i], NumbersGiven(counter, count)[j]);
    }
  }

  /** The uploaded `video` part; only its client-side filename matters. */
  datatype Upload = Upload(filename: string)

  /** The `suggested_labels` form field: absent, not JSON, or a parsed list. */
  datatype LabelsField = NoField | Unparsable | Parsed(labels: seq<string>)

  datatype Request = Request(video: Option<Upload>, suggestedLabels: LabelsField)

  datatype Checked = Rejected(reply: HttpReply) | Accepted(suggested: seq<string>)

  /** The checks at the start of `process_video`. */
  function CheckRequest(req: Request): (c: Checked)
    ensures req.video.None? ==> c == Rejected(HttpReply(400, ErrorBody("No video file provided")))
    ensures req.video.Some? && req.video.value.filename == "" ==> c == Rejected(HttpReply(400, ErrorBody("No selected file")))
    ensures c.Rejected? ==> c.reply.status == 400
    ensures c.Accepted? ==> c.suggested == if req.suggestedLabels.Parsed? then req.suggestedLabels.labels else []
  {
    if req.video.None? then Rejected(HttpReply(400, ErrorBody("No video file provided")))
    else if req.video.value.filename == "" then Rejected(HttpReply(400, ErrorBody("No selected file")))
    else
      var suggested := if req.suggestedLabels.Parsed? then req.suggestedLabels.labels else [];
      Accepted(suggested)
  }

  /** Whether a request is rejected depends on its video part alone: a
      missing or unparsable `suggested_labels` never causes a 400. */
  lemma LabelsNeverCauseRejection(req: Request, field: LabelsField)
    ensures CheckRequest(req.(suggestedLabels := field)).Accepted? == CheckRequest(req).Accepted?
    ensures CheckRequest(req).Accepted? <==> req.video.Some? && req.video.value.filename != ""
  {
  }

  class Server {
    var counter: CounterFile
    var folder: ProcessedFolder.Folder

    /** `save_video_number`: overwrites the counter file, nothing else. */
    method SaveVideoNumber(n: int)
      modifies this
      ensures counter == Saved(n) && folder == old(folder)
      ensures NextVideoNumber(counter) == Some(n + 1)
    {
      counter := Saved(n);
    }

    /** `process_video`. A rejected request changes nothing. An accepted one
        takes the next number and saves it; an unreadable counter instead
        ends in 500 with the counter untouched. The processor call that
        follows passes a keyword argument its signature lacks, so it always
        raises and the handler answers 500 with the exception's text
        `failure`; the folder is not changed. */
    method ProcessVideo(req: Request, failure: string) returns (reply: HttpReply)
      modifies this
      ensures folder == old(folder)
      ensures CheckRequest(req).Rejected? ==> reply == CheckRequest(req).reply && counter == old(counter)
      ensures CheckRequest(req).Accepted? ==> reply == HttpReply(500, ErrorBody(failure))
      ensures CheckRequest(req).Accepted? && old(NextVideoNumber(counter)).Some? ==>
        counter == Saved(old(NextVideoNumber(counter)).value) &&
        NextVideoNumber(counter) == Some(old(NextVideoNumber(counter)).value + 1)
      ensures old(NextVideoNumber(counter)).None? ==> counter == old(counter)
    {
      var checked := CheckRequest(req);
      if checked.Rejected? {
        return checked.reply;
      }
      var number := NextVideoNumber(counter);
      if number.None? {
        return HttpReply(500, ErrorBody(failure));
      }
      SaveVideoNumber(number.value);
      // The call `process_video_from_bytes(..., suggested_labels=...)` raises
      // a TypeError, so the output name is never used.
      reply := HttpReply(500, ErrorBody(failure));
    }
  }
}
