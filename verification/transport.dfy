/** The transport: a two-state machine (stopped, running) that gates the
    scheduler. Starting resets the cursor to step 0 and the clock to just
    after `now`, then runs a first tick; stopping cancels the pending tick.
    The page also stops playback when it is hidden, and before clearing the
    grid or adding a row. */
module Transport {
  import Tempo
  import opened Sequencer
  import opened Scheduler

  /** Delay after `now` of the first step after a start, in seconds. */
  const StartOffset: real := 0.05

  /** A tick is pending exactly while playing: the only timer is the
      scheduler's own re-arm, and stopping cancels it. */
  predicate TimerMatchesPlaying(s: State) {
    s.timerArmed == s.isPlaying
  }

  /** `start()` at clock reading `now`: play from step 0, `StartOffset` after
      `now`, whatever the cursor was; the first tick runs at once. Its first
      step is step 0 at `now + 0.05`, and since the shortest step is 1/24
      second it schedules one or two steps. */
  method Start(s: State, now: real) returns (r: State, steps: seq<ScheduledStep>)
    requires Valid(s)
    ensures Valid(r)
    ensures r.isPlaying && r.timerArmed && TimerMatchesPlaying(r)
    ensures r.tracks == s.tracks && r.pattern == s.pattern && r.bpsField == s.bpsField
    ensures 1 <= |steps| <= 2
    ensures steps[0].step == 0 && steps[0].time == now + StartOffset
    ensures forall i :: 0 <= i < |steps| ==>
      && steps[i].step == i
      && steps[i].time == now + StartOffset + Offset(i, Tempo.StepDuration(s.bpsField))
      && steps[i].time < now + ScheduleAheadTime
      && steps[i].triggers == StepTriggers(s.tracks, s.pattern, i, steps[i].time)
    ensures r.currentStep == |steps|
    ensures r.nextNoteTime == now + StartOffset + Offset(|steps|, Tempo.StepDuration(s.bpsField))
  {
    var started := s.(isPlaying := true, currentStep := 0, nextNoteTime := now + StartOffset);
    r, steps := Tick(started, now);
    assert steps[0] == NthStep(started, 0, now);
    var last := |steps| - 1;
    assert steps[last].time < now + ScheduleAheadTime;
    OffsetGrows(last, Tempo.StepDuration(s.bpsField));
  }

  /** `stop()`: playback off and the pending tick cancelled. The cursor is
      left where it was; the next start resets it. */
  function Stop(s: State): (r: State)
    ensures !r.isPlaying && !r.timerArmed && TimerMatchesPlaying(r)
    ensures r.tracks == s.tracks && r.pattern == s.pattern && r.bpsField == s.bpsField
    ensures r.currentStep == s.currentStep && r.nextNoteTime == s.nextNoteTime
    ensures Valid(s) ==> Valid(r)
  {
    s.(isPlaying := false, timerArmed := false)
  }

  /** `toggle()`: stop when playing, start otherwise. Either way it flips
      whether the sequencer plays, and a start after a stop always resumes at
      step 0. */
  method Toggle(s: State, now: real) returns (r: State, steps: seq<ScheduledStep>)
    requires Valid(s)
    ensures Valid(r) && TimerMatchesPlaying(r)
    ensures r.isPlaying == !s.isPlaying
    ensures r.tracks == s.tracks && r.pattern == s.pattern && r.bpsField == s.bpsField
    ensures s.isPlaying ==> steps == [] && r.currentStep == s.currentStep
    ensures !s.isPlaying ==> |steps| >= 1 && steps[0].step == 0 && steps[0].time == now + StartOffset
  {
    if s.isPlaying {
      r := Stop(s);
      steps := [];
    } else {
      r, steps := Start(s, now);
    }
  }

  /** Toggling twice from playing restarts at step 0, whatever step playback
      had reached. */
  method StopThenStart(s: State, now1: real, now2: real) returns (r: State, steps: seq<ScheduledStep>)
    requires Valid(s) && s.isPlaying
    ensures r.isPlaying && Valid(r)
    ensures |steps| >= 1 && steps[0].step == 0 && steps[0].time == now2 + StartOffset
  {
    var stopped, none := Toggle(s, now1);
    r, steps := Toggle(stopped, now2);
  }

  /** The `visibilitychange` handler: a page hidden while playing stops;
      anything else leaves the state alone. */
  function OnVisibilityChange(s: State, hidden: bool): (r: State)
    ensures hidden ==> !r.isPlaying
    ensures hidden && TimerMatchesPlaying(s) ==> !r.timerArmed
    ensures !hidden ==> r == s
    ensures hidden && s.isPlaying ==> r == Stop(s)
    ensures TimerMatchesPlaying(s) ==> TimerMatchesPlaying(r)
  {
    if hidden && s.isPlaying then Stop(s) else s
  }

  /** The Clear button: stop, then turn every cell off. */
  function ClearButton(s: State): (r: State)
    requires Valid(s)
    ensures Valid(r) && !r.isPlaying && !r.timerArmed
    ensures r.tracks == s.tracks
    ensures forall t, k :: 0 <= t < |r.pattern| && 0 <= k < |r.pattern[t]| ==> !r.pattern[t][k]
  {
    ClearPattern(Stop(s))
  }

  /** The Add-row button: stop, then append a kick row of the preset kit. */
  function AddRowButton(s: State, preset: string): (r: State)
    ensures Valid(s) ==> Valid(r)
    ensures !r.isPlaying && !r.timerArmed
    ensures |r.tracks| == |s.tracks| + 1 && r.tracks[..|s.tracks|] == s.tracks
    ensures |r.pattern| == |s.pattern| + 1 && r.pattern[..|s.pattern|] == s.pattern
    ensures r.tracks[|s.tracks|] == NewRowKey(preset) && r.pattern[|s.pattern|] == EmptyRow()
  {
    var stopped := Stop(s);
    assert stopped.tracks == s.tracks && stopped.pattern == s.pattern;
    AddRow(stopped, preset)
  }
}
