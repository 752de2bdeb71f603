/** The sequencer's state and the grid edits the page offers: add a row,
    remove a row, clear the grid, change a row's sound, toggle a cell.
    Every edit keeps the rows of the pattern and the list of tracks in
    lockstep, one 16-step row per track, which the scheduler relies on when
    it reads `pattern[t]` for every track `t`. */
module Sequencer {
  import opened Wrappers
  import Sounds

  /** `STEPS`: steps in one pattern cycle. */
  const STEPS: nat := 16

  /** Offset after `now` at which a cell toggled while stopped is previewed. */
  const PreviewOffset: real := 0.005

  /** The whole mutable state of the page that the core reads and writes.
      `tracks[t]` is row t's sound key; `pattern[t][s]` says whether row t
      sounds on step s; `timerArmed` says whether a scheduler tick is pending;
      `bpsField` is the tempo control's parsed value. */
  datatype State = State(
    tracks: seq<string>,
    pattern: seq<seq<bool>>,
    isPlaying: bool,
    currentStep: nat,
    nextNoteTime: real,
    timerArmed: bool,
    bpsField: Option<real>)

  /** A request to the sound bank: play row `track`'s sound at `time`. */
  datatype Trigger = Trigger(track: nat, soundKey: string, time: real)

  /** The grid is as wide as a cycle in every row and has one row per track,
      and the cursor names a step of the cycle. */
  predicate Valid(s: State) {
    && |s.pattern| == |s.tracks|
    && (forall t :: 0 <= t < |s.pattern| ==> |s.pattern[t]| == STEPS)
    && s.currentStep < STEPS
  }

  /** A row with every step off. */
  function EmptyRow(): (row: seq<bool>)
    ensures |row| == STEPS
    ensures forall s :: 0 <= s < |row| ==> !row[s]
  {
    seq(STEPS, _ => false)
  }

  /** The state the page starts in: the classic kit, an empty grid, stopped,
      cursor and clock at zero, no tick pending. */
  function Initial(bpsField: Option<real>): (s: State)
    ensures Valid(s)
    ensures s.tracks == Sounds.DefaultTracks("classic")
    ensures forall t, k :: 0 <= t < |s.pattern| && 0 <= k < |s.pattern[t]| ==> !s.pattern[t][k]
    ensures !s.isPlaying && !s.timerArmed && s.currentStep == 0
  {
    var tracks := Sounds.DefaultTracks("classic");
    State(tracks, seq(|tracks|, _ => EmptyRow()), false, 0, 0.0, false, bpsField)
  }

  /** The key `addRow` gives a new row: the kick of the selected preset kit,
      or the classic kick when the preset is not a kit. */
  function NewRowKey(preset: string): (key: string)
    ensures Sounds.IsSoundKey(key)
    ensures Sounds.KitPart(key) == (if preset in Sounds.Kits then preset else "classic")
    ensures Sounds.TrackColor(key) == Sounds.Kick
  {
    Sounds.DefaultTracks(preset)[0]
  }

  /** `addRow`: appends a kick row of the preset kit with every step off. */
  function AddRow(s: State, preset: string): (r: State)
    ensures |r.tracks| == |s.tracks| + 1 && |r.pattern| == |s.pattern| + 1
    ensures r.tracks[..|s.tracks|] == s.tracks && r.pattern[..|s.pattern|] == s.pattern
    ensures r.tracks[|s.tracks|] == NewRowKey(preset)
    ensures r.pattern[|s.pattern|] == EmptyRow()
    ensures Valid(s) ==> Valid(r)
    ensures r.isPlaying == s.isPlaying && r.currentStep == s.currentStep
    ensures r.nextNoteTime == s.nextNoteTime && r.timerArmed == s.timerArmed && r.bpsField == s.bpsField
  {
    s.(tracks := s.tracks + [NewRowKey(preset)], pattern := s.pattern + [EmptyRow()])
  }

  /** Where `Array.prototype.splice(index, 1)` starts on an array of length
      `n`: a negative index counts from the end, and the result is clamped to [0, n]. */
  function SpliceStart(n: nat, index: int): (i: nat)
    ensures i <= n
    ensures 0 <= index <= n ==> i == index
    ensures index > n ==> i == n
    ensures index < 0 && n + index >= 0 ==> i == n + index
    ensures n + index < 0 ==> i == 0
  {
    if index < 0 then (if n + index < 0 then 0 else n + index)
    else if index > n then n
    else index
  }

  /** `xs.splice(index, 1)`: removes the element at the splice start, if any. */
  function SpliceOut<T>(xs: seq<T>, index: int): (r: seq<T>)
    ensures SpliceStart(|xs|, index) < |xs| ==> |r| == |xs| - 1
    ensures SpliceStart(|xs|, index) == |xs| ==> r == xs
    ensures forall j :: 0 <= j < SpliceStart(|xs|, index) && j < |r| ==> r[j] == xs[j]
    ensures forall j :: SpliceStart(|xs|, index) <= j < |r| ==> r[j] == xs[j + 1]
  {
    var i := SpliceStart(|xs|, index);
    if i < |xs| then xs[..i] + xs[i + 1..] else xs
  }

  /** `removeRow(index)`: keeps the last remaining row; otherwise removes
      the same row from the tracks and from the pattern. */
  function RemoveRow(s: State, index: int): (r: State)
    ensures |s.tracks| <= 1 ==> r == s
    ensures Valid(s) ==> Valid(r)
    ensures Valid(s) && |s.tracks| > 1 && 0 <= index < |s.tracks| ==>
      && |r.tracks| == |s.tracks| - 1
      && (forall j :: 0 <= j < index ==> r.tracks[j] == s.tracks[j] && r.pattern[j] == s.pattern[j])
      && (forall j :: index <= j < |r.tracks| ==> r.tracks[j] == s.tracks[j + 1] && r.pattern[j] == s.pattern[j + 1])
    ensures Valid(s) && |s.tracks| > 1 && index >= |s.tracks| ==> r == s
    ensures r.isPlaying == s.isPlaying && r.currentStep == s.currentStep
    ensures r.nextNoteTime == s.nextNoteTime && r.timerArmed == s.timerArmed && r.bpsField == s.bpsField
  {
    if |s.tracks| <= 1 then s
    else s.(tracks := SpliceOut(s.tracks, index), pattern := SpliceOut(s.pattern, index))
  }

  /** `clearPattern`: every cell off, tracks untouched. */
  function ClearPattern(s: State): (r: State)
    requires Valid(s)
    ensures Valid(r)
    ensures r.tracks == s.tracks && |r.pattern| == |s.pattern|
    ensures forall t, k :: 0 <= t < |r.pattern| && 0 <= k < |r.pattern[t]| ==> !r.pattern[t][k]
    ensures r.isPlaying == s.isPlaying && r.currentStep == s.currentStep
    ensures r.nextNoteTime == s.nextNoteTime && r.timerArmed == s.timerArmed && r.bpsField == s.bpsField
  {
    s.(pattern := seq(|s.tracks|, _ => EmptyRow()))
  }

  /** The change handler of row `t`'s sound menu: only that row's key changes. */
  function SetTrackSound(s: State, t: nat, key: string): (r: State)
    requires t < |s.tracks|
    ensures |r.tracks| == |s.tracks| && r.tracks[t] == key
    ensures forall j :: 0 <= j < |s.tracks| && j != t ==> r.tracks[j] == s.tracks[j]
    ensures r.pattern == s.pattern
    ensures Valid(s) ==> Valid(r)
    ensures r.isPlaying == s.isPlaying && r.currentStep == s.currentStep
    ensures r.nextNoteTime == s.nextNoteTime && r.timerArmed == s.timerArmed && r.bpsField == s.bpsField
  {
    s.(tracks := s.tracks[t := key])
  }

  /** The click handler of cell (t, k): flips that one cell; when stopped,
      also previews the row's sound just after `now`. */
  function ToggleCell(s: State, t: nat, k: nat, now: real): (r: (State, Option<Trigger>))
    requires Valid(s)
    requires t < |s.tracks| && k < STEPS
    ensures Valid(r.0) && r.0.tracks == s.tracks
    ensures r.0.pattern[t][k] == !s.pattern[t][k]
    ensures forall u, j :: 0 <= u < |s.pattern| && 0 <= j < STEPS && (u, j) != (t, k) ==>
      r.0.pattern[u][j] == s.pattern[u][j]
    ensures r.0.isPlaying == s.isPlaying && r.0.currentStep == s.currentStep
    ensures r.0.nextNoteTime == s.nextNoteTime && r.0.timerArmed == s.timerArmed && r.0.bpsField == s.bpsField
    ensures r.1.Some? <==> !s.isPlaying
    ensures r.1.Some? ==> r.1.value == Trigger(t, s.tracks[t], now + PreviewOffset)
  {
    var row := s.pattern[t][k := !s.pattern[t][k]];
    var s' := s.(pattern := s.pattern[t := row]);
    (s', if s.isPlaying then None else Some(Trigger(t, s.tracks[t], now + PreviewOffset)))
  }

  /** Toggling the same cell twice restores the grid. */
  lemma ToggleTwice(s: State, t: nat, k: nat, now1: real, now2: real)
    requires Valid(s)
    requires t < |s.tracks| && k < STEPS
    ensures ToggleCell(ToggleCell(s, t, k, now1).0, t, k, now2).0 == s
  {
    var s1 := ToggleCell(s, t, k, now1).0;
    var s2 := ToggleCell(s1, t, k, now2).0;
    assert s2.pattern[t] == s.pattern[t];
    assert s2.pattern == s.pattern;
  }
}
