/** The lookahead scheduler. One tick reads the audio clock once (`now`),
    schedules every step whose time falls before `now + 0.12` seconds,
    advancing the cursor one step per scheduled step, and re-arms its timer.
    Scheduling a step asks the sound bank to play every row that is on at
    that step, all at the step's exact time, and asks for the playhead to
    move when that time arrives. */
module Scheduler {
  import opened Wrappers
  import Tempo
  import opened Sequencer

  /** `scheduleAheadTime`: how far past `now` a tick schedules, in seconds. */
  const ScheduleAheadTime: real := 0.12

  /** Everything one scheduled step emits: the sound-bank requests in row
      order, then the playhead callback for `step`, delayed by `playheadDelayMs`. */
  datatype ScheduledStep = ScheduledStep(step: nat, time: real, triggers: seq<Trigger>, playheadDelayMs: real)

  /** Every row is wide enough to be read at `step`, and there is a row per track. */
  predicate Readable(tracks: seq<string>, pattern: seq<seq<bool>>, step: nat) {
    |pattern| == |tracks| && forall t :: 0 <= t < |pattern| ==> step < |pattern[t]|
  }

  /** Some request in `ev` is for row `u`. */
  predicate Requests(ev: seq<Trigger>, u: nat) {
    exists i :: 0 <= i < |ev| && ev[i].track == u
  }

  /** `ev` is what rows `t` onwards should request at `step`: every request
      is for a row from `t` on that is lit at `step`, carries that row's key
      and `time`; every such lit row is requested; and the requests are in
      strictly increasing row order, so none is repeated. */
  predicate RequestsExactly(tracks: seq<string>, pattern: seq<seq<bool>>, step: nat, time: real, t: nat, ev: seq<Trigger>)
    requires Readable(tracks, pattern, step)
  {
    && (forall i :: 0 <= i < |ev| ==>
          && t <= ev[i].track < |tracks|
          && pattern[ev[i].track][step]
          && ev[i].soundKey == tracks[ev[i].track]
          && ev[i].time == time)
    && (forall u :: t <= u < |tracks| && pattern[u][step] ==> Requests(ev, u))
    && (forall i, j :: 0 <= i < j < |ev| ==> ev[i].track < ev[j].track)
  }

  /** A row that is off adds no request. */
  lemma RequestsExactlySkip(tracks: seq<string>, pattern: seq<seq<bool>>, step: nat, time: real, t: nat, rest: seq<Trigger>)
    requires Readable(tracks, pattern, step)
    requires t < |tracks| && !pattern[t][step]
    requires RequestsExactly(tracks, pattern, step, time, t + 1, rest)
    ensures RequestsExactly(tracks, pattern, step, time, t, rest)
  {
  }

  /** A row that is on adds its request in front of the later rows' requests. */
  lemma RequestsExactlyCons(tracks: seq<string>, pattern: seq<seq<bool>>, step: nat, time: real, t: nat, rest: seq<Trigger>)
    requires Readable(tracks, pattern, step)
    requires t < |tracks| && pattern[t][step]
    requires RequestsExactly(tracks, pattern, step, time, t + 1, rest)
    ensures RequestsExactly(tracks, pattern, step, time, t, [Trigger(t, tracks[t], time)] + rest)
  {
    var e := Trigger(t, tracks[t], time);
    var ev := [e] + rest;
    forall i | 0 <= i < |ev|
      ensures && t <= ev[i].track < |tracks| && pattern[ev[i].track][step]
              && ev[i].soundKey == tracks[ev[i].track] && ev[i].time == time
    {
      if i > 0 {
        assert ev[i] == rest[i - 1];
      }
    }
    forall u | t <= u < |tracks| && pattern[u][step]
      ensures Requests(ev, u)
    {
      if u == t {
        assert ev[0].track == u;
      } else {
        var i :| 0 <= i < |rest| && rest[i].track == u;
        assert ev[i + 1].track == u;
      }
    }
    forall i, j | 0 <= i < j < |ev|
      ensures ev[i].track < ev[j].track
    {
      assert ev[j] == rest[j - 1];
      if i > 0 {
        assert ev[i] == rest[i - 1];
      }
    }
  }

  /** The requests `scheduleStep` makes for rows `t` onwards: one per row that
      is on at `step`, in row order, each at `time` with the row's own key. */
  function TriggersFrom(tracks: seq<string>, pattern: seq<seq<bool>>, step: nat, time: real, t: nat): (ev: seq<Trigger>)
    requires Readable(tracks, pattern, step)
    requires t <= |tracks|
    decreases |tracks| - t
    ensures RequestsExactly(tracks, pattern, step, time, t, ev)
  {
    if t == |tracks| then []
    else
      var rest := TriggersFrom(tracks, pattern, step, time, t + 1);
      if pattern[t][step] then
        RequestsExactlyCons(tracks, pattern, step, time, t, rest);
        [Trigger(t, tracks[t], time)] + rest
      else
        RequestsExactlySkip(tracks, pattern, step, time, t, rest);
        rest
  }

  /** The requests for one step: exactly the rows that are on at `step`. */
  function StepTriggers(tracks: seq<string>, pattern: seq<seq<bool>>, step: nat, time: real): (ev: seq<Trigger>)
    requires Readable(tracks, pattern, step)
  {
    TriggersFrom(tracks, pattern, step, time, 0)
  }

  /** A row fires at a step exactly when its cell is on, once, at the step's time. */
  lemma StepTriggersExactly(tracks: seq<string>, pattern: seq<seq<bool>>, step: nat, time: real, u: nat)
    requires Readable(tracks, pattern, step)
    requires u < |tracks|
    ensures pattern[u][step] <==> exists i :: 0 <= i < |StepTriggers(tracks, pattern, step, time)| &&
                                           StepTriggers(tracks, pattern, step, time)[i].track == u
    ensures forall i, j :: 0 <= i < j < |StepTriggers(tracks, pattern, step, time)| ==>
      StepTriggers(tracks, pattern, step, time)[i].track != StepTriggers(tracks, pattern, step, time)[j].track
  {
    var ev := TriggersFrom(tracks, pattern, step, time, 0);
    assert ev == StepTriggers(tracks, pattern, step, time);
    if pattern[u][step] {
      assert Requests(ev, u);
    }
  }

  /** Delay before the playhead moves to a step sounding at `time`:
      `max(0, (time - now) * 1000)` milliseconds, never negative. */
  function PlayheadDelay(time: real, now: real): (ms: real)
    ensures ms >= 0.0
    ensures time >= now ==> ms == (time - now) * 1000.0
    ensures time <= now ==> ms == 0.0
  {
    var ms := (time - now) * 1000.0;
    if ms < 0.0 then 0.0 else ms
  }

  /** `scheduleStep(step, time)` for the clock reading `now`: every request
      is for a row lit at `step`, with its own key, at exactly `time`, and the
      playhead moves to `step` no earlier than now. */
  function ScheduleStep(tracks: seq<string>, pattern: seq<seq<bool>>, step: nat, time: real, now: real): (e: ScheduledStep)
    requires Readable(tracks, pattern, step)
    ensures e.step == step && e.time == time
    ensures e.triggers == StepTriggers(tracks, pattern, step, time)
    ensures RequestsExactly(tracks, pattern, step, time, 0, e.triggers)
    ensures e.playheadDelayMs >= 0.0
    ensures time >= now ==> now + e.playheadDelayMs / 1000.0 == time
  {
    ScheduledStep(step, time, StepTriggers(tracks, pattern, step, time), PlayheadDelay(time, now))
  }

  /** `nextNote`: one step later on the clock, one step further (cyclically) on the grid. */
  function NextNote(s: State): (r: State)
  {
    s.(nextNoteTime := s.nextNoteTime + Tempo.StepDuration(s.bpsField),
       currentStep := (s.currentStep + 1) % STEPS)
  }

  /** One `nextNote` moves the clock on by between 1/24 and 1/2 second and
      the cursor to the next step of the cycle, wrapping from the last step
      to step 0, and changes nothing else. */
  lemma NextNoteMoves(s: State)
    ensures Tempo.MinStepSec <= NextNote(s).nextNoteTime - s.nextNoteTime <= Tempo.MaxStepSec
    ensures NextNote(s).currentStep < STEPS
    ensures s.currentStep < STEPS - 1 ==> NextNote(s).currentStep == s.currentStep + 1
    ensures s.currentStep == STEPS - 1 ==> NextNote(s).currentStep == 0
    ensures NextNote(s).tracks == s.tracks && NextNote(s).pattern == s.pattern && NextNote(s).bpsField == s.bpsField
    ensures NextNote(s).isPlaying == s.isPlaying && NextNote(s).timerArmed == s.timerArmed
    ensures Valid(s) ==> Valid(NextNote(s))
  {
  }

  /** `k` step lengths `d` laid end to end: the offset of the k-th step from
      the first, built up by repeated addition as `nextNote` builds it. */
  function Offset(k: nat, d: real): real
  {
    if k == 0 then 0.0 else Offset(k - 1, d) + d
  }

  /** Repeated addition of the step length is multiplication by the step count. */
  lemma {:induction false} OffsetIsProduct(k: nat, d: real)
    ensures Offset(k, d) == k as real * d
  {
    if k > 0 {
      OffsetIsProduct(k - 1, d);
      assert k as real * d == (k - 1) as real * d + d;
    }
  }

  /** Two or more steps of at least 1/24 second span at least 1/12 second. */
  lemma {:induction false} OffsetGrows(k: nat, d: real)
    requires d >= Tempo.MinStepSec
    ensures k >= 2 ==> Offset(k, d) >= 2.0 * Tempo.MinStepSec
  {
    if k > 2 {
      OffsetGrows(k - 1, d);
    } else if k == 2 {
      assert Offset(1, d) == d;
    }
  }

  /** The state `k` steps on from `s`: the cursor `k` steps further round
      the cycle, the clock `k` step lengths later, nothing else changed. */
  function AfterSteps(s: State, k: nat): State
  {
    s.(currentStep := (s.currentStep + k) % STEPS,
       nextNoteTime := s.nextNoteTime + Offset(k, Tempo.StepDuration(s.bpsField)))
  }

  /** Moving one step round a cycle of `STEPS`. */
  lemma ModSucc(a: nat)
    ensures ((a % STEPS) + 1) % STEPS == (a + 1) % STEPS
  {
    if a % STEPS == STEPS - 1 {
      assert a == (a / STEPS) * STEPS + (STEPS - 1);
      assert a + 1 == (a / STEPS + 1) * STEPS;
    } else {
      assert a == (a / STEPS) * STEPS + a % STEPS;
      assert a + 1 == (a / STEPS) * STEPS + (a % STEPS + 1);
    }
  }

  /** One `nextNote` takes the state `k` steps on to the state `k + 1` steps on. */
  lemma NextNoteAfterSteps(s: State, k: nat)
    ensures NextNote(AfterSteps(s, k)) == AfterSteps(s, k + 1)
  {
    ModSucc(s.currentStep + k);
  }

  /** `k` calls of `nextNote` in a row. */
  function Advance(s: State, k: nat): State
  {
    if k == 0 then s else NextNote(Advance(s, k - 1))
  }

  /** After `k` calls of `nextNote` the cursor is `(start + k) mod 16`, the
      clock has moved `k` step lengths, and nothing else has changed. */
  lemma {:induction false} AdvanceClosedForm(s: State, k: nat)
    requires s.currentStep < STEPS
    ensures Advance(s, k) == s.(currentStep := (s.currentStep + k) % STEPS,
                                nextNoteTime := s.nextNoteTime + k as real * Tempo.StepDuration(s.bpsField))
  {
    AdvanceIsAfterSteps(s, k);
    AfterStepsClosedForm(s, k);
  }

  /** The state `k` steps on has its clock `k·d` later. */
  lemma AfterStepsClosedForm(s: State, k: nat)
    ensures AfterSteps(s, k) == s.(currentStep := (s.currentStep + k) % STEPS,
                                   nextNoteTime := s.nextNoteTime + k as real * Tempo.StepDuration(s.bpsField))
  {
    var d := Tempo.StepDuration(s.bpsField);
    ShiftByProduct(AfterSteps(s, k).nextNoteTime, s.nextNoteTime, k, d);
  }

  /** A time `k` step lengths after `t0` is `t0 + k·d`. */
  lemma ShiftByProduct(x: real, t0: real, k: nat, d: real)
    requires x == t0 + Offset(k, d)
    ensures x == t0 + k as real * d
  {
    OffsetIsProduct(k, d);
  }

  lemma {:induction false} AdvanceIsAfterSteps(s: State, k: nat)
    requires s.currentStep < STEPS
    ensures Advance(s, k) == AfterSteps(s, k)
  {
    if k == 0 {
      assert s.currentStep % STEPS == s.currentStep;
    } else {
      AdvanceIsAfterSteps(s, k - 1);
      NextNoteAfterSteps(s, k - 1);
    }
  }

  /** The i-th step a tick schedules when it starts from state `s`: the
      step scheduled at the cursor and clock `i` steps on. */
  function NthStep(s: State, i: nat, now: real): (e: ScheduledStep)
    requires Valid(s)
  {
    var a := AfterSteps(s, i);
    ScheduleStep(a.tracks, a.pattern, a.currentStep, a.nextNoteTime, now)
  }

  /** The step scheduled from the state `k` steps on is the k-th step. */
  lemma NthStepAt(s: State, k: nat, now: real)
    requires Valid(s)
    ensures var a := AfterSteps(s, k);
      ScheduleStep(a.tracks, a.pattern, a.currentStep, a.nextNoteTime, now) == NthStep(s, k, now)
  {
  }

  /** Consecutive steps of a run are one step length apart. */
  lemma NthStepSpacing(s: State, i: nat, now: real)
    requires Valid(s)
    ensures NthStep(s, i + 1, now).time - NthStep(s, i, now).time == Tempo.StepDuration(s.bpsField)
  {
  }

  /** Appending the next step of a run to a prefix of it gives a longer
      prefix, still before the horizon when that step is. */
  lemma ExtendRun(s: State, steps: seq<ScheduledStep>, now: real, horizon: real)
    requires Valid(s)
    requires forall i :: 0 <= i < |steps| ==> steps[i] == NthStep(s, i, now)
    requires forall i :: 0 <= i < |steps| ==> steps[i].time < horizon
    requires AfterSteps(s, |steps|).nextNoteTime < horizon
    ensures var more := steps + [NthStep(s, |steps|, now)];
      && (forall i :: 0 <= i < |more| ==> more[i] == NthStep(s, i, now))
      && (forall i :: 0 <= i < |more| ==> more[i].time < horizon)
  {
  }

  /** The loop measure of a tick: whole 1/24-second slices left before the
      horizon. A step of at least 1/24 second removes at least one. */
  lemma MeasureDrops(horizon: real, t: real, d: real)
    requires t < horizon
    requires d >= Tempo.MinStepSec
    ensures ((horizon - t) * 24.0).Floor >= 0
    ensures ((horizon - (t + d)) * 24.0).Floor < ((horizon - t) * 24.0).Floor
  {
    var x := (horizon - t) * 24.0;
    var y := (horizon - (t + d)) * 24.0;
    assert y <= x - 1.0;
  }

  /** One run of `scheduler()` at clock reading `now`. The steps it schedules
      are the consecutive steps from the cursor on, spaced exactly one step
      length apart from `nextNoteTime`, all before the horizon; it stops at the
      first step at or past the horizon and leaves the cursor and clock there,
      and it re-arms its timer. */
  method Tick(s: State, now: real) returns (r: State, steps: seq<ScheduledStep>)
    requires Valid(s)
    ensures Valid(r)
    ensures r.tracks == s.tracks && r.pattern == s.pattern
    ensures r.isPlaying == s.isPlaying && r.bpsField == s.bpsField
    ensures r.timerArmed
    ensures r.nextNoteTime >= now + ScheduleAheadTime
    ensures forall i :: 0 <= i < |steps| ==> steps[i].time < now + ScheduleAheadTime
    ensures forall i :: 0 <= i < |steps| ==> steps[i] == NthStep(s, i, now)
    ensures forall i :: 0 <= i < |steps| - 1 ==> steps[i + 1].time - steps[i].time == Tempo.StepDuration(s.bpsField)
    ensures r.currentStep == (s.currentStep + |steps|) % STEPS
    ensures r.nextNoteTime == s.nextNoteTime + Offset(|steps|, Tempo.StepDuration(s.bpsField))
  {
    var d := Tempo.StepDuration(s.bpsField);
    var horizon := now + ScheduleAheadTime;
    r := s;
    steps := [];
    assert s == AfterSteps(s, 0);
    while r.nextNoteTime < horizon
      invariant r == AfterSteps(s, |steps|)
      invariant forall i :: 0 <= i < |steps| ==> steps[i] == NthStep(s, i, now)
      invariant forall i :: 0 <= i < |steps| ==> steps[i].time < horizon
      decreases ((horizon - r.nextNoteTime) * 24.0).Floor
    {
      MeasureDrops(horizon, r.nextNoteTime, d);
      NextNoteAfterSteps(s, |steps|);
      NthStepAt(s, |steps|, now);
      var e := ScheduleStep(r.tracks, r.pattern, r.currentStep, r.nextNoteTime, now);
      assert e == NthStep(s, |steps|, now);
      ExtendRun(s, steps, now, horizon);
      steps := steps + [e];
      r := NextNote(r);
    }
    forall i | 0 <= i < |steps| - 1
      ensures steps[i + 1].time - steps[i].time == d
    {
      NthStepSpacing(s, i, now);
    }
    r := r.(timerArmed := true);
  }

  /** `e` is the i-th step of an uninterrupted run of the grid from `s`:
      at the cursor and clock `i` steps on, firing exactly the rows that are
      on at that step. Only the playhead delay, which depends on when the
      step was scheduled, is left free. */
  predicate OnGrid(s: State, e: ScheduledStep, i: nat)
    requires Valid(s)
  {
    var a := AfterSteps(s, i);
    && e.step == a.currentStep
    && e.time == a.nextNoteTime
    && e.triggers == StepTriggers(s.tracks, s.pattern, e.step, e.time)
  }

  lemma ModAdd(a: nat, j: nat)
    ensures ((a % STEPS) + j) % STEPS == (a + j) % STEPS
  {
    assert a == (a / STEPS) * STEPS + a % STEPS;
    assert a + j == (a / STEPS) * STEPS + (a % STEPS + j);
  }

  lemma {:induction false} OffsetAdd(m: nat, j: nat, d: real)
    ensures Offset(m, d) + Offset(j, d) == Offset(m + j, d)
  {
    if j > 0 {
      OffsetAdd(m, j - 1, d);
    }
  }

  /** The steps one tick schedules from the state `k` steps into a run
      continue that run: its j-th step is step k + j of the run. */
  lemma RunExtends(s: State, r: State, steps: seq<ScheduledStep>, more: seq<ScheduledStep>, now: real)
    requires Valid(s) && Valid(r)
    requires r.tracks == s.tracks && r.pattern == s.pattern && r.bpsField == s.bpsField
    requires r.currentStep == (s.currentStep + |steps|) % STEPS
    requires r.nextNoteTime == s.nextNoteTime + Offset(|steps|, Tempo.StepDuration(s.bpsField))
    requires forall i :: 0 <= i < |steps| ==> OnGrid(s, steps[i], i)
    requires forall j :: 0 <= j < |more| ==> more[j] == NthStep(r, j, now)
    ensures forall i :: 0 <= i < |steps + more| ==> OnGrid(s, (steps + more)[i], i)
  {
    var d := Tempo.StepDuration(s.bpsField);
    forall j | 0 <= j < |more|
      ensures OnGrid(s, more[j], |steps| + j)
    {
      ModAdd(s.currentStep + |steps|, j);
      OffsetAdd(|steps|, j, d);
    }
    forall i | 0 <= i < |steps + more|
      ensures OnGrid(s, (steps + more)[i], i)
    {
      if i >= |steps| {
        assert (steps + more)[i] == more[i - |steps|];
      } else {
        assert (steps + more)[i] == steps[i];
      }
    }
  }

  /** Tagging the steps of tick `n` with `n` keeps every step before the
      horizon of its own tick and the tags in order. */
  lemma TicksExtend(steps: seq<ScheduledStep>, ticks: seq<nat>, more: seq<ScheduledStep>, nows: seq<real>, n: nat)
    requires n < |nows| && |ticks| == |steps|
    requires forall i :: 0 <= i < |steps| ==> ticks[i] < n && steps[i].time < nows[ticks[i]] + ScheduleAheadTime
    requires forall i, j :: 0 <= i < j < |steps| ==> ticks[i] <= ticks[j]
    requires forall j :: 0 <= j < |more| ==> more[j].time < nows[n] + ScheduleAheadTime
    ensures var steps', ticks' := steps + more, ticks + seq(|more|, _ => n);
      && |ticks'| == |steps'|
      && (forall i :: 0 <= i < |steps'| ==> ticks'[i] < n + 1 && steps'[i].time < nows[ticks'[i]] + ScheduleAheadTime)
      && (forall i, j :: 0 <= i < j < |steps'| ==> ticks'[i] <= ticks'[j])
  {
    var steps', ticks' := steps + more, ticks + seq(|more|, _ => n);
    forall i | 0 <= i < |steps'|
      ensures ticks'[i] < n + 1 && steps'[i].time < nows[ticks'[i]] + ScheduleAheadTime
    {
      if i >= |steps| {
        assert ticks'[i] == n && steps'[i] == more[i - |steps|];
      } else {
        assert ticks'[i] == ticks[i] && steps'[i] == steps[i];
      }
    }
  }

  /** The timer firing again and again, at clock readings `nows`, with the
      grid and tempo left alone in between: the steps of all the ticks
      together are one uninterrupted run from the starting cursor and clock,
      so no step is skipped and none is scheduled twice. `ticks[i]` is the
      tick that emitted step i: ticks emit in order, and each step falls
      before the horizon of the tick that emitted it. */
  method RunTicks(s: State, nows: seq<real>) returns (r: State, steps: seq<ScheduledStep>, ticks: seq<nat>)
    requires Valid(s)
    ensures Valid(r)
    ensures r.tracks == s.tracks && r.pattern == s.pattern && r.bpsField == s.bpsField
    ensures forall i :: 0 <= i < |steps| ==> OnGrid(s, steps[i], i)
    ensures r.currentStep == (s.currentStep + |steps|) % STEPS
    ensures r.nextNoteTime == s.nextNoteTime + Offset(|steps|, Tempo.StepDuration(s.bpsField))
    ensures |nows| > 0 ==> r.timerArmed && r.nextNoteTime >= nows[|nows| - 1] + ScheduleAheadTime
    ensures |ticks| == |steps|
    ensures forall i :: 0 <= i < |steps| ==> ticks[i] < |nows| && steps[i].time < nows[ticks[i]] + ScheduleAheadTime
    ensures forall i, j :: 0 <= i < j < |steps| ==> ticks[i] <= ticks[j]
  {
    var d := Tempo.StepDuration(s.bpsField);
    r := s;
    steps := [];
    ticks := [];
    var n := 0;
    while n < |nows|
      invariant 0 <= n <= |nows|
      invariant Valid(r)
      invariant r.tracks == s.tracks && r.pattern == s.pattern && r.bpsField == s.bpsField
      invariant r.currentStep == (s.currentStep + |steps|) % STEPS
      invariant r.nextNoteTime == s.nextNoteTime + Offset(|steps|, d)
      invariant forall i :: 0 <= i < |steps| ==> OnGrid(s, steps[i], i)
      invariant n > 0 ==> r.timerArmed && r.nextNoteTime >= nows[n - 1] + ScheduleAheadTime
      invariant |ticks| == |steps|
      invariant forall i :: 0 <= i < |steps| ==> ticks[i] < n && steps[i].time < nows[ticks[i]] + ScheduleAheadTime
      invariant forall i, j :: 0 <= i < j < |steps| ==> ticks[i] <= ticks[j]
    {
      var r', more := Tick(r, nows[n]);
      RunExtends(s, r, steps, more, nows[n]);
      TicksExtend(steps, ticks, more, nows, n);
      OffsetAdd(|steps|, |more|, d);
      ModAdd(s.currentStep + |steps|, |more|);
      steps := steps + more;
      ticks := ticks + seq(|more|, _ => n);
      r := r';
      n := n + 1;
    }
  }

  /** A grid whose only lit cell is row 0 at step 0. */
  predicate DownbeatOnly(pattern: seq<seq<bool>>) {
    && |pattern| > 0
    && (forall t, k :: 0 <= t < |pattern| && 0 <= k < |pattern[t]| ==> (pattern[t][k] <==> t == 0 && k == 0))
  }

  /** With only the first row lit, and only on step 0, a step fires that row
      alone when it is step 0 and fires nothing otherwise. */
  lemma DownbeatTriggers(tracks: seq<string>, pattern: seq<seq<bool>>, step: nat, time: real)
    requires Readable(tracks, pattern, step) && step < STEPS
    requires DownbeatOnly(pattern)
    ensures StepTriggers(tracks, pattern, step, time) ==
      (if step == 0 then [Trigger(0, tracks[0], time)] else [])
  {
    if step == 0 {
      NothingLitFrom(tracks, pattern, step, time, 1);
    } else {
      NothingLitFrom(tracks, pattern, step, time, 0);
    }
  }

  /** Rows from `t` on that are all off at `step` produce no requests. */
  lemma {:induction false} NothingLitFrom(tracks: seq<string>, pattern: seq<seq<bool>>, step: nat, time: real, t: nat)
    requires Readable(tracks, pattern, step)
    requires t <= |tracks|
    requires forall u :: t <= u < |tracks| ==> !pattern[u][step]
    ensures TriggersFrom(tracks, pattern, step, time, t) == []
    decreases |tracks| - t
  {
    if t < |tracks| {
      NothingLitFrom(tracks, pattern, step, time, t + 1);
    }
  }

  /** At 2 beats per second (a step of 1/8 second), a grid lit only on row 0
      at step 0, played from step 0, fires row 0 once every 16 steps, that is
      every 2 seconds from the first step's time, and fires nothing else. */
  lemma KickEveryTwoSeconds(s: State, e: ScheduledStep, i: nat)
    requires Valid(s) && s.currentStep == 0 && s.bpsField == Some(2.0)
    requires DownbeatOnly(s.pattern)
    requires OnGrid(s, e, i)
    ensures i % STEPS == 0 ==> e.triggers == [Trigger(0, s.tracks[0], s.nextNoteTime + (i / STEPS) as real * 2.0)]
    ensures i % STEPS != 0 ==> e.triggers == []
  {
    assert e.step == i % STEPS;
    assert Tempo.StepDuration(s.bpsField) == 0.125;
    assert e.time == s.nextNoteTime + Offset(i, 0.125);
    DownbeatTriggers(s.tracks, s.pattern, e.step, e.time);
    if i % STEPS == 0 {
      WholeCyclesAtEighths(i);
    }
  }

  /** Whole cycles of 16 steps of 1/8 second last 2 seconds each. */
  lemma WholeCyclesAtEighths(i: nat)
    requires i % STEPS == 0
    ensures Offset(i, 0.125) == (i / STEPS) as real * 2.0
  {
    OffsetIsProduct(i, 0.125);
    var m := i / STEPS;
    assert i == m * STEPS;
    assert i as real == (m as real) * 16.0;
  }
}
