/** The simulated progress of the Account screen: the updater the progress
    interval hands to `setProgress`, and the status text chosen from the
    upload flags and the progress value. */
module Progress {

  /** The smallest and largest value of `Math.floor(Math.random() * 20) + 1`. */
  const MinIncrement := 1
  const MaxIncrement := 20

  predicate IsIncrement(r: int) {
    MinIncrement <= r <= MaxIncrement
  }

  /** One tick of the interval: below 95 the value grows by the random
      increment but stops at 99; from 95 on it jumps to 100. */
  function NextProgress(current: int, increment: int): (next: int)
    ensures 0 <= current <= 100 && IsIncrement(increment) ==> current <= next <= 100
    ensures current < 95 && IsIncrement(increment) ==> current < next <= 99
    ensures current >= 95 ==> next == 100
  {
    var candidate := if current + increment < 99 then current + increment else 99;
    if current >= 95 then 100 else candidate
  }

  /** The value after a run of ticks with the given increments. */
  function Ticks(current: int, increments: seq<int>): (t: int)
    ensures increments != [] ==> t <= 100
    ensures current <= 100 ==> t <= 100
    decreases |increments|
  {
    if increments == [] then current else Ticks(NextProgress(current, increments[0]), increments[1..])
  }

  predicate AllIncrements(increments: seq<int>) {
    forall k :: 0 <= k < |increments| ==> IsIncrement(increments[k])
  }

  /** Any run of ticks from a value in [0,100] stays between that value and
      100, and either has reached 100 or has gained at least one per tick. */
  lemma {:induction false} TicksBoundedAndAdvancing(current: int, increments: seq<int>)
    requires 0 <= current <= 100 && AllIncrements(increments)
    ensures current <= Ticks(current, increments) <= 100
    ensures Ticks(current, increments) == 100 || Ticks(current, increments) >= current + |increments|
    decreases |increments|
  {
    if increments != [] {
      var next := NextProgress(current, increments[0]);
      assert AllIncrements(increments[1..]) by {
        forall k | 0 <= k < |increments| - 1 ensures IsIncrement(increments[1..][k]) {
          assert increments[1..][k] == increments[k + 1];
        }
      }
      TicksBoundedAndAdvancing(next, increments[1..]);
    }
  }

  /** Once the value is 100, further ticks keep it there. */
  lemma {:induction false} HundredIsFixed(increments: seq<int>)
    ensures Ticks(100, increments) == 100
    decreases |increments|
  {
    if increments != [] {
      HundredIsFixed(increments[1..]);
    }
  }

  /** Ticks alone reach exactly 100 after at most 101 of them. */
  lemma TicksReachHundred(current: int, increments: seq<int>)
    requires 0 <= current <= 100 && AllIncrements(increments) && |increments| > 100
    ensures Ticks(current, increments) == 100
  {
    TicksBoundedAndAdvancing(current, increments);
  }

  /** `getStatusText`: the upload flag wins, then the processing bands by
      the thresholds 30, 60 and 90, then the idle prompt. */
  function StatusText(uploading: bool, processing: bool, progress: int): (text: string)
    ensures uploading ==> text == "Uploading video..."
    ensures !uploading && !processing ==> text == "Upload Video"
    ensures !uploading && processing ==>
      (text == "Initializing processing..." <==> progress < 30) &&
      (text == "Processing video..." <==> 30 <= progress < 60) &&
      (text == "Analyzing results..." <==> 60 <= progress < 90) &&
      (text == "Finalizing..." <==> 90 <= progress)
  {
    if uploading then "Uploading video..."
    else if processing then
      if progress < 30 then "Initializing processing..."
      else if progress < 60 then "Processing video..."
      else if progress < 90 then "Analyzing results..."
      else "Finalizing..."
    else "Upload Video"
  }

  /** The position of a processing status text in the order the bands come. */
  function Band(text: string): int {
    if text == "Initializing processing..." then 0
    else if text == "Processing video..." then 1
    else if text == "Analyzing results..." then 2
    else 3
  }

  /** While processing, a tick never moves the status text back to an
      earlier band. */
  lemma StatusTextNeverGoesBack(current: int, increment: int)
    requires 0 <= current <= 100 && IsIncrement(increment)
    ensures Band(StatusText(false, true, current)) <= Band(StatusText(false, true, NextProgress(current, increment)))
  {
  }
}
