/**
 * The small pieces of shared state in backend/main.go: the connection progress
 * and status message with the cancel handle of the progress animation, the
 * bounded in-memory log buffers, the progress step table and boolInt.
 */
module Backend {
  /** Converts a flag to the 0/1 integer used in the metrics output. */
  function BoolInt(b: bool): (r: int)
    ensures r == 0 || r == 1
    ensures r == 1 <==> b
  {
    if b then 1 else 0
  }

  /** The progress value stored for a requested value `p`: `p` clamped into [0, 100]. */
  function Clamp(p: int): (r: int)
    ensures 0 <= r <= 100
    ensures 0 <= p <= 100 ==> r == p
    ensures p < 0 ==> r == 0
    ensures p > 100 ==> r == 100
  {
    if p < 0 then 0 else if p > 100 then 100 else p
  }

  /** One step of the connection animation: the progress value and the status shown with it. */
  datatype Step = Step(progress: int, status: string)

  /** The steps startProgress plays, one per second. */
  const Steps: seq<Step> := [Step(10, "connecting"), Step(30, "handshake"), Step(60, "establishing"),
                             Step(80, "almost ready"), Step(100, "ready")]

  /** The step table climbs strictly, stays within [0, 100], and ends at 100 with "ready". */
  lemma StepsClimb()
    ensures forall i, j :: 0 <= i < j < |Steps| ==> Steps[i].progress < Steps[j].progress
    ensures forall i :: 0 <= i < |Steps| ==> Clamp(Steps[i].progress) == Steps[i].progress
    ensures Steps[|Steps| - 1] == Step(100, "ready")
  {}

  /** How many entries a log buffer keeps. */
  const MaxLogEntries := 1000

  /** The log after appending `entry` and keeping only the newest MaxLogEntries entries. */
  function Appended(log: seq<string>, entry: string): (r: seq<string>)
    ensures |r| == if |log| < MaxLogEntries then |log| + 1 else MaxLogEntries
    ensures |r| > 0 && r[|r| - 1] == entry
    ensures r[..|r| - 1] == log[|log| + 1 - |r|..]
  {
    var grown := log + [entry];
    if |grown| > MaxLogEntries then grown[|grown| - MaxLogEntries..] else grown
  }

  /** One of the in-memory log buffers (connection log, general log). */
  class LogBuffer {
    var entries: seq<string>

    constructor ()
      ensures entries == []
    {
      entries := [];
    }

    /** addLog: appends "<timestamp> <msg>" and trims to the newest MaxLogEntries entries. */
    method Add(timestamp: string, msg: string)
      modifies this
      ensures entries == Appended(old(entries), timestamp + " " + msg)
    {
      var entry := timestamp + " " + msg;
      entries := entries + [entry];
      if |entries| > MaxLogEntries {
        entries := entries[|entries| - MaxLogEntries..];
      }
    }
  }

  /** The progress value, the status message and whether a progress cancel handle is held. */
  class Progress {
    var progress: int
    var status: string
    var cancelHeld: bool

    /** The package's initial values: progress 0, status "disconnected", no handle. */
    constructor ()
      ensures progress == 0 && status == "disconnected" && !cancelHeld
    {
      progress, status, cancelHeld := 0, "disconnected", false;
    }

    method SetProgress(p: int)
      modifies this`progress
      ensures progress == Clamp(p)
    {
      var q := p;
      if q < 0 {
        q := 0;
      }
      if q > 100 {
        q := 100;
      }
      progress := q;
    }

    method GetProgress() returns (p: int)
      ensures p == progress
    {
      p := progress;
    }

    method SetStatus(s: string)
      modifies this`status
      ensures status == s
    {
      status := s;
    }

    method GetStatus() returns (s: string)
      ensures s == status
    {
      s := status;
    }

    /**
     * startProgress, its synchronous part: cancels the running animation if
     * any, holds the new handle and resets the progress; the status is kept.
     */
    method StartProgress()
      modifies this`progress, this`cancelHeld
      ensures cancelHeld && progress == 0
    {
      cancelHeld := true;
      SetProgress(0);
    }

    /**
     * The animation goroutine of startProgress when it is cancelled after
     * `ticks` seconds (or never, if `ticks` is at least the number of steps):
     * it plays the first `ticks` steps in order.
     */
    method PlaySteps(ticks: nat)
      modifies this`progress, this`status
      ensures ticks == 0 ==> progress == old(progress) && status == old(status)
      ensures 0 < ticks <= |Steps| ==> progress == Steps[ticks - 1].progress && status == Steps[ticks - 1].status
      ensures ticks >= |Steps| ==> progress == 100 && status == "ready"
    {
      StepsClimb();
      for i := 0 to |Steps|
        invariant i <= ticks
        invariant i == 0 ==> progress == old(progress) && status == old(status)
        invariant i > 0 ==> progress == Steps[i - 1].progress && status == Steps[i - 1].status
      {
        if i >= ticks {
          return;
        }
        SetProgress(Steps[i].progress);
        SetStatus(Steps[i].status);
      }
    }

    /** stopProgress: cancels and drops the handle, then resets progress and status. */
    method StopProgress()
      modifies this
      ensures progress == 0 && status == "disconnected" && !cancelHeld
    {
      cancelHeld := false;
      SetProgress(0);
      SetStatus("disconnected");
    }
  }
}
