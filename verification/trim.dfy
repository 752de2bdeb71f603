/** Trim arithmetic for recorded samples: the start and end marks the trim
    controls hold, the window the editor reports, and the part of a stored
    sample that a trigger plays. The marks and every start are clamped into
    the recording; the end the editor reports is at least 0.02 seconds after
    the start, and so lies past the recording's end when the start mark is
    in its last 0.02 seconds. Durations come from decoded audio buffers and are never negative. */
module Trim {
  import opened Wrappers
  import Tempo

  /** Shortest window the editor reports and the shortest playback. */
  const MinPlaySec: real := 0.02
  /** How far the other mark is pushed when the marks come too close. */
  const PushSec: real := 0.1

  /** A pair of marks, in seconds from the start of the recording. */
  datatype Window = Window(startSec: real, endSec: real)

  /** Which trim control the user moved. */
  datatype Edge = StartEdge | EndEdge

  /** `getTrim()`: with no decoded recording the window is (0, 0); otherwise
      the start mark clamped into the recording, and an end at least 0.02
      seconds after it. */
  function GetTrim(hasRecording: bool, dur: real, startField: real, endField: real): (w: Window)
    requires dur >= 0.0
    ensures !hasRecording ==> w == Window(0.0, 0.0)
    ensures hasRecording ==> 0.0 <= w.startSec <= dur
    ensures hasRecording ==> w.endSec >= w.startSec + MinPlaySec
    ensures hasRecording ==> w.startSec == Tempo.Clamp(startField, 0.0, dur)
    ensures hasRecording && Tempo.Clamp(endField, 0.0, dur) >= w.startSec + MinPlaySec ==>
      w.endSec == Tempo.Clamp(endField, 0.0, dur)
    ensures hasRecording && Tempo.Clamp(endField, 0.0, dur) < w.startSec + MinPlaySec ==>
      w.endSec == w.startSec + MinPlaySec
    ensures hasRecording && w.endSec > dur ==> w.endSec == w.startSec + MinPlaySec
  {
    if !hasRecording then Window(0.0, 0.0)
    else
      var startSec := Tempo.Clamp(startField, 0.0, dur);
      var endSec := Tempo.Clamp(endField, 0.0, dur);
      Window(startSec, if startSec + MinPlaySec > endSec then startSec + MinPlaySec else endSec)
  }

  /** `syncTrim(which, value)`: the marks after the user moves one of them to
      `value`, or `None` (nothing written) when there is no decoded recording.
      The moved mark lands on `value` clamped into the recording and is never
      overridden; when the marks end up 0.02 seconds apart or closer, the other
      mark is pushed 0.1 seconds away, as far as the recording allows. */
  function SyncTrim(hasRecording: bool, dur: real, which: Edge, value: real, startField: real, endField: real): (w: Option<Window>)
    requires dur >= 0.0
    ensures w.Some? <==> hasRecording
    ensures w.Some? ==> 0.0 <= w.value.startSec <= w.value.endSec <= dur
    ensures w.Some? && which == StartEdge ==> w.value.startSec == Tempo.Clamp(value, 0.0, dur)
    ensures w.Some? && which == EndEdge ==> w.value.endSec == Tempo.Clamp(value, 0.0, dur)
    ensures w.Some? && which == StartEdge ==> w.value.endSec > w.value.startSec + MinPlaySec || w.value.endSec == dur
    ensures w.Some? && which == EndEdge ==> w.value.endSec > w.value.startSec + MinPlaySec || w.value.startSec == 0.0
    ensures w.Some? && which == StartEdge && Tempo.Clamp(endField, 0.0, dur) > Tempo.Clamp(value, 0.0, dur) + MinPlaySec ==>
      w.value.endSec == Tempo.Clamp(endField, 0.0, dur)
    ensures w.Some? && which == EndEdge && Tempo.Clamp(value, 0.0, dur) > Tempo.Clamp(startField, 0.0, dur) + MinPlaySec ==>
      w.value.startSec == Tempo.Clamp(startField, 0.0, dur)
    ensures w.Some? && which == StartEdge && Tempo.Clamp(endField, 0.0, dur) <= Tempo.Clamp(value, 0.0, dur) + MinPlaySec ==>
      w.value.endSec == Tempo.Clamp(Tempo.Clamp(value, 0.0, dur) + PushSec, 0.0, dur)
    ensures w.Some? && which == EndEdge && Tempo.Clamp(value, 0.0, dur) <= Tempo.Clamp(startField, 0.0, dur) + MinPlaySec ==>
      w.value.startSec == Tempo.Clamp(Tempo.Clamp(value, 0.0, dur) - PushSec, 0.0, dur)
  {
    if !hasRecording then None
    else
      var v := Tempo.Clamp(value, 0.0, dur);
      var start := Tempo.Clamp(startField, 0.0, dur);
      var end := Tempo.Clamp(endField, 0.0, dur);
      var nextStart := if which == StartEdge then v else start;
      var nextEnd := if which == StartEdge then end else v;
      if nextEnd <= nextStart + MinPlaySec then
        if which == StartEdge then Some(Window(nextStart, Tempo.Clamp(nextStart + PushSec, 0.0, dur)))
        else Some(Window(Tempo.Clamp(nextEnd - PushSec, 0.0, dur), nextEnd))
      else Some(Window(nextStart, nextEnd))
  }

  /** Moving either mark leaves the marks more than 0.02 seconds apart,
      except when the start mark is moved into the last 0.02 seconds of the
      recording (the end then sits on the recording's end) or the end mark
      into the first 0.02 seconds (the start then sits at 0). */
  lemma SyncKeepsGap(dur: real, which: Edge, value: real, startField: real, endField: real)
    requires dur >= 0.0
    ensures var w := SyncTrim(true, dur, which, value, startField, endField).value;
      || w.endSec > w.startSec + MinPlaySec
      || (which == StartEdge && w.endSec == dur && w.startSec >= dur - MinPlaySec)
      || (which == EndEdge && w.startSec == 0.0 && w.endSec <= MinPlaySec)
  {
  }

  /** Dragging the start mark to the very end of a recording makes the
      editor report an end 0.02 seconds past the recording. */
  lemma StartAtEndReportsPastEnd(dur: real, startField: real, endField: real)
    requires dur >= 0.0
    ensures var m := SyncTrim(true, dur, StartEdge, dur, startField, endField).value;
      GetTrim(true, dur, m.startSec, m.endSec) == Window(dur, dur + MinPlaySec)
  {
  }

  /** The window a recorded-sample trigger plays, for a buffer of `bufDur`
      seconds and the kit record's marks: the start clamped into the buffer,
      the end clamped likewise, and a duration of at least 0.02 seconds. The
      `??` defaults (`None`: start 0, end at the buffer's end) are modelled as
      written, but the program never reaches them: every kit record carries
      both marks as numbers (see `KitMark`). */
  function PlaybackWindow(storedStart: Option<real>, storedEnd: Option<real>, bufDur: real): (p: (real, real))
    requires bufDur >= 0.0
    ensures 0.0 <= p.0 <= bufDur
    ensures p.1 >= MinPlaySec
    ensures p.0 == Tempo.Clamp(storedStart.GetOr(0.0), 0.0, bufDur)
    ensures var end := Tempo.Clamp(storedEnd.GetOr(bufDur), 0.0, bufDur);
      (end - p.0 >= MinPlaySec ==> p.0 + p.1 == end) && (end - p.0 < MinPlaySec ==> p.1 == MinPlaySec)
    ensures storedStart.None? && storedEnd.None? && bufDur >= MinPlaySec ==> p == (0.0, bufDur)
  {
    var start := Tempo.Clamp(storedStart.GetOr(0.0), 0.0, bufDur);
    var end := Tempo.Clamp(storedEnd.GetOr(bufDur), 0.0, bufDur);
    (start, if end - start < MinPlaySec then MinPlaySec else end - start)
  }

  /** `initKit`: a mark as a kit record holds it after loading from the
      sample store, the stored number, or 0 when none was stored (`None`).
      Saving a trim stores what `getTrim()` reports, always two numbers. */
  function KitMark(stored: Option<real>): (m: real)
    ensures stored.Some? ==> m == stored.value
    ensures stored.None? ==> m == 0.0
  {
    stored.GetOr(0.0)
  }

  /** A sample stored without marks loads with both marks at 0, so a trigger
      plays it for 0.02 seconds from its start, not the whole buffer. */
  lemma UnmarkedSamplePlaysMinimum(bufDur: real)
    requires bufDur >= 0.0
    ensures PlaybackWindow(Some(KitMark(None)), Some(KitMark(None)), bufDur) == (0.0, MinPlaySec)
  {
  }

  /** A window the editor reported, once stored with the sample, plays from
      its start for its whole length whenever it fits in the buffer. */
  lemma StoredTrimPlaysAsReported(dur: real, startField: real, endField: real)
    requires dur >= 0.0
    ensures var w := GetTrim(true, dur, startField, endField);
      var p := PlaybackWindow(Some(w.startSec), Some(w.endSec), dur);
      p.0 == w.startSec && (w.endSec <= dur ==> p.1 == w.endSec - w.startSec)
  {
  }
}
