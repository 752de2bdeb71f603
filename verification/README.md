# Drum machine step sequencer — a Dafny model of its core

The program is a browser step sequencer: a grid of tracks × 16 steps, each
track bound to a sound key such as `classic:kick`, played in a loop at a
tempo between 0.5 and 6 beats per second (four steps per beat). Its core is
a lookahead scheduler: a coarse timer runs a tick every 25 ms; each tick
reads the audio clock and hands the sound bank every step whose time falls
less than 0.12 s ahead, with that step's exact time, so that timer jitter
never reaches the audio.

This project models that core in `drummer/drummer.js` as pure functions over
one immutable state record (`Sequencer.State`: tracks, pattern, `isPlaying`,
`currentStep`, `nextNoteTime`, whether a tick is pending, and the tempo
control's value), and proves:

- the tempo is always clamped to [0.5, 6], falls back to 2 when the control
  does not hold a finite number, so a step lasts between 1/24 and 1/2 s;
- one scheduler tick schedules exactly the consecutive steps from the cursor
  whose times fall before `now + 0.12`, spaced exactly one step length
  apart, leaves the clock at or past the horizon and the cursor at
  `(start + k) mod 16` after `k` steps, and re-arms its timer; any number of
  ticks in a row form one uninterrupted run, with no step skipped or repeated;
- a scheduled step fires exactly the rows lit at that step, in row order, all
  at the same time, and moves the playhead after a delay that is never negative;
- start always plays step 0 at `now + 0.05` and schedules one or two steps;
  stop cancels the pending tick; toggle flips between them; hiding the page
  while playing stops it;
- every grid edit keeps one 16-step row per track;
- restoring a saved grid always yields at least one track and one 16-step
  row per track, the saved keys that pass the filter in their saved order, and
  the clamped saved tempo; with the corrected own-key filter of "## Findings"
  every restored key is a known sound key (as written, `"toString"` gets
  through); saving then loading gives the grid back, through the program's
  own loader and through the corrected one alike, whenever the filter accepts
  every saved track;
- the trim controls keep both marks inside the recording, and every start
  the editor reports or a trigger plays from lies inside it; the end the
  editor reports is at least 0.02 s after the start, so it lies past the
  recording's end when the start mark is in the last 0.02 s.

Files, one module each: `wrappers.dfy` (`Option`), `tempo.dfy`,
`sounds.dfy` (sound keys, label table, colour and availability lookups),
`sequencer.dfy` (state and grid edits), `scheduler.dfy`, `transport.dfy`,
`persist.dfy` (restoring saved state), `trim.dfy`.

Modelling choices:

- JavaScript numbers are `real`. A number that `parseFloat` or `JSON.parse`
  produces and that may be infinite or `NaN` is a `Tempo.Number`: finite, an
  infinity (`"1e999"`), or `NaN`. The tempo control's reading is
  `Option<real>`, because `getBps` only asks `isFinite`: `None` stands for
  `NaN` and both infinities. Rounding is not modelled, so "exactly one step
  length apart" is an equality of reals.
- The audio clock is a parameter `now` of each tick, start and toggle. It is
  read once per tick.
- The pending timer handle is a boolean (`timerArmed`). Timer delays (25 ms
  re-arm, 120 ms persistence debounce) are not modelled.
- A sound-bank call is a `Trigger(track, soundKey, time)` value. A
  scheduled step is a `ScheduledStep` record holding the step, its time, its
  triggers in row order and the playhead delay.
- The saved state reaches the loader already parsed, as a `Json` value.
  A missing or empty storage item, or text that does not parse, is `None`.
- The recording kit is a map from instrument name to whether a sample is stored.
- The row colour is the `Sounds.Instrument` it is derived from, not a CSS value.

Behaviour of `drummer/drummer.js` worth knowing when reading the model:

- The sound-menu change handler (drummer/drummer.js:616-621) plays no
  preview; only a cell toggle while stopped does (641-652).
- When every saved key is unknown, the loader (782-802) falls back to the
  classic kit but still takes the rows of the saved pattern by index, so the
  fallback grid is all off only when the saved rows are
  (`Persist.UnknownKeyFallsBack` shows an empty saved pattern).
- Rows are matched to tracks by the index a track has after unknown keys are
  dropped (793-796). `Persist.RowsFollowKeptIndex` shows a row moving to the
  next track.
- Triggering a recorded sample (452-456) starts a new voice; nothing fades
  out a voice that is still ringing.

## Model

| member | source | states |
|---|---|---|
| Tempo.Clamp | drummer/drummer.js:101-103 | the result lies in [lo, hi] for a non-empty range; it is `n` inside the range and the nearer bound outside; with lo > hi the upper bound wins |
| Tempo.ReadBps | drummer/drummer.js:105-108 | the tempo read from the control is always in [0.5, 6], is 2 when the control does not hold a finite number, and is the control's value when that is in range |
| Tempo.SetBps | drummer/drummer.js:110-115 | the value written back to the control is clamped into [0.5, 6]; an infinite input lands on the nearer bound, a finite one in range is kept, and only `NaN` leaves the control non-finite |
| Tempo.SetThenRead | drummer/drummer.js:105-115 | writing a tempo and reading it back gives the clamped value, 6 or 0.5 for an infinity, or 2 for NaN; writing what was read changes nothing |
| Tempo.ClampNumber | drummer/drummer.js:101-103 | `clamp` on a JavaScript number: a finite value is clamped, an infinity lands on the nearer bound, and `NaN` stays `NaN` |
| Tempo.StepDuration | drummer/drummer.js:117-119 | the step length is strictly positive and lies in [1/24, 1/2] s, whatever the tempo field holds |
| Tempo.StepDurationTimesTempo | drummer/drummer.js:117-119 | four steps make one beat: the step length times the tempo read back times 4 is exactly 1 |
| Tempo.StepBounds | drummer/drummer.js:117-119 | for any clamped tempo, 1/(bps·4) lies in [1/24, 1/2] and inverts bps·4 |
| Sounds.SplitJoin | drummer/drummer.js:430-432 | the text before the first colon, a colon and the text after it rebuild the key |
| Sounds.ComposeSplit | drummer/drummer.js:665-666 | a key `kit:inst` built from colon-free parts splits into exactly `kit` and `inst` |
| Sounds.DefaultTracks | drummer/drummer.js:39-47 | four known sound keys, kick, snare, hat and perc in that order, all of the preset kit, or of the classic kit for an unknown preset |
| Sounds.KitKeysAreSoundKeys | drummer/drummer.js:4-21 | every instrument of every kit has an entry in the label table |
| Sounds.TrackColor | drummer/drummer.js:665-671 | a row shows as snare, hat or perc exactly when the key's second field names that instrument, and as kick otherwise |
| Sounds.ColorFollowsInstrument | drummer/drummer.js:665-671 | any `kit:instrument` key is coloured by its instrument, whatever the kit |
| Sounds.RecordedAvailable | drummer/drummer.js:430-434 | keys outside the recorded kit are always available; a recorded key is available only when its instrument has a stored sample |
| Sounds.AvailabilityOfMenuKeys | drummer/drummer.js:430-434 | for the menu's kit:instrument keys, availability holds exactly for synthesized kits or a stored sample |
| Sounds.InheritedNamePassesLookup | drummer/drummer.js:790 | the truthiness test of a label lookup accepts `"toString"`, which is not a sound key |
| Sounds.OwnKeyFilterRefinesLookup | drummer/drummer.js:4-21 | a key is a sound key exactly when the label lookup is truthy and the key is not an inherited member name |
| Sequencer.Initial | drummer/drummer.js:49-56 | the initial state is valid, holds the classic kit with every cell off, and is stopped at step 0 with no tick pending |
| Sequencer.NewRowKey | drummer/drummer.js:686-689 | the key of an added row is a known sound key, a kick, of the preset kit or of the classic kit for an unknown preset |
| Sequencer.AddRow | drummer/drummer.js:685-694 | one track and one all-off 16-step row are appended, everything before them is kept, the grid stays valid, transport untouched |
| Sequencer.SpliceOut | drummer/drummer.js:698-699 | `splice(index, 1)` removes the element at the clamped start (negative indices count from the end) and shifts the rest down, or changes nothing past the end |
| Sequencer.RemoveRow | drummer/drummer.js:696-702 | the last remaining row is kept; otherwise the same index leaves tracks and pattern together, the rows after it move down in pairs, and the grid stays valid |
| Sequencer.ClearPattern | drummer/drummer.js:704-710 | every cell is off afterwards, the tracks and the number of rows are unchanged, and the grid stays valid |
| Sequencer.SetTrackSound | drummer/drummer.js:616-621 | only row t's key changes; the pattern is untouched |
| Sequencer.ToggleCell | drummer/drummer.js:641-652 | exactly one cell flips and nothing else changes; when stopped, the row's sound is previewed at `now + 0.005`, and when playing nothing is previewed |
| Sequencer.ToggleTwice | drummer/drummer.js:641-643 | toggling a cell twice gives the original state back |
| Scheduler.TriggersFrom | drummer/drummer.js:476-480 | every request is for a row lit at the step, carries that row's key and the step's time; every lit row has a request; requests are in strictly increasing row order, so none repeats |
| Scheduler.StepTriggersExactly | drummer/drummer.js:476-480 | a row fires at a step if and only if its cell is on, and no row fires twice |
| Scheduler.ScheduleStep | drummer/drummer.js:476-485 | a scheduled step keeps its step and time; its requests are the step's triggers: one for each row lit at that step and for no other row, with the row's own key, at exactly that time, in row order; the playhead delay is never negative and, for a future step, ends at the step's time |
| Scheduler.PlayheadDelay | drummer/drummer.js:483-484 | the playhead delay is never negative: the step's lead over `now` in milliseconds, or 0 for a step already due |
| Scheduler.NextNoteMoves | drummer/drummer.js:487-490 | the clock moves on by one step length, between 1/24 and 1/2 s; the cursor moves to the next step, wrapping from 15 to 0; nothing else changes and the grid stays valid |
| Scheduler.OffsetIsProduct | drummer/drummer.js:487-490 | k successive additions of the step length advance the clock by k times the step length |
| Scheduler.NextNoteAfterSteps | drummer/drummer.js:487-490 | one `nextNote` moves the state k steps on to k + 1 steps on, cursor modulo 16 |
| Scheduler.AdvanceClosedForm | drummer/drummer.js:487-490 | after k calls of `nextNote` the cursor is (start + k) mod 16, the clock has moved k step lengths, and nothing else changed |
| Scheduler.MeasureDrops | drummer/drummer.js:496-499 | while a step is before the horizon, each step of at least 1/24 s uses up at least one of the finitely many 1/24 s slices left, so the tick's loop ends |
| Scheduler.Tick | drummer/drummer.js:492-502 | the steps scheduled are the i-th steps from the cursor at `nextNoteTime + i·d`, each firing exactly its lit rows, all before `now + 0.12` and exactly d apart; afterwards the clock is at or past the horizon, the cursor is (start + k) mod 16, the timer is re-armed and the grid is unchanged |
| Scheduler.RunExtends | drummer/drummer.js:492-502 | the steps one tick schedules from the state k steps into a run are steps k, k + 1, … of that run |
| Scheduler.TicksExtend | drummer/drummer.js:492-502 | tagging one tick's steps with its index keeps every step before its own tick's horizon and the tags in order |
| Scheduler.RunTicks | drummer/drummer.js:492-502 | the steps of any number of successive ticks, with the grid and tempo left alone, form one uninterrupted run from the starting cursor and clock, none skipped and none repeated; ticks emit in order, and each step falls before the horizon of the tick that emitted it |
| Scheduler.OffsetGrows | drummer/drummer.js:487-490 | two or more steps of at least 1/24 s span at least 1/12 s |
| Scheduler.NothingLitFrom | drummer/drummer.js:476-480 | rows that are all off at a step produce no requests |
| Scheduler.DownbeatTriggers | drummer/drummer.js:476-480 | with only row 0 lit, and only at step 0, step 0 fires row 0 alone and every other step fires nothing |
| Scheduler.KickEveryTwoSeconds | drummer/drummer.js:476-502 | at 2 beats per second, a grid lit only at row 0 step 0, played from step 0, fires row 0 at `t0`, `t0 + 2`, `t0 + 4`, … and nothing else |
| Transport.Start | drummer/drummer.js:511-520 | playing with a tick pending; whatever the old cursor, the first step is step 0 at `now + 0.05`, steps i are at `now + 0.05 + i·d` before the horizon, and one or two are scheduled |
| Transport.Stop | drummer/drummer.js:522-528 | not playing and no tick pending; grid, cursor and clock untouched |
| Transport.Toggle | drummer/drummer.js:530-533 | flips whether it plays; from playing it schedules nothing, from stopped it starts at step 0 at `now + 0.05` |
| Transport.StopThenStart | drummer/drummer.js:511-533 | stop followed by start resumes at step 0, wherever playback had got to |
| Transport.OnVisibilityChange | drummer/drummer.js:754-756 | a page hidden while playing is stopped; a visible page, or a hidden stopped one, is left alone |
| Transport.ClearButton | drummer/drummer.js:725-728 | the Clear button leaves playback stopped and every cell off, tracks unchanged |
| Transport.AddRowButton | drummer/drummer.js:738-741 | the Add-row button leaves playback stopped and appends one all-off kick row |
| Persist.KeptKeys | drummer/drummer.js:788-790 | only keys passing the filter are kept, every saved key that passes is kept, and the result is no longer than the saved list |
| Persist.KeptKeysOne | drummer/drummer.js:788-790 | one saved entry is kept, under its key, exactly when its key passes the filter |
| Persist.KeptKeysAppend | drummer/drummer.js:788-790 | filtering a concatenation is the concatenation of the filtered parts, so saved order and repeats are kept, as `.filter` keeps them |
| Persist.KeptIsEmptyIffNoneKnown | drummer/drummer.js:788-791 | nothing is kept exactly when no saved key passes the filter |
| Persist.RestoredRow | drummer/drummer.js:793-796 | a restored row has 16 cells: the saved cells coerced to booleans, padded with off cells, and all off when the saved row is missing or not an array |
| Persist.LoadStateWith | drummer/drummer.js:782-802 | for any key filter: with no saved value nothing changes; with a grid saved, the saved keys that pass in saved order, or the classic kit when none passes, at least one track, and row i taken from saved row i as 16 cells; without a grid, grid unchanged; a numeric saved tempo is written clamped, any other leaves the tempo; transport untouched; one 16-step row per track kept |
| Persist.LoadState | drummer/drummer.js:782-802 | the loader with the corrected own-key filter of "## Findings": everything `LoadStateWith` promises, and every restored track is a known sound key |
| Persist.LoadStateAsWritten | drummer/drummer.js:782-802 | the loader as written: everything `LoadStateWith` promises for the label-lookup truthiness filter (at least one track, the classic fallback, rows by post-filter index, the clamped tempo, transport untouched, a valid grid), and every restored key passes that lookup, which is not the same as being a sound key |
| Persist.InheritedNameSurvivesAsWritten | drummer/drummer.js:787-791 | as written, a saved track named `"toString"` survives loading; with the own-key filter the classic kit is restored instead |
| Persist.UnknownKeyFallsBack | drummer/drummer.js:787-796 | a saved grid with one unknown key and an empty pattern restores the classic four-track kit with every cell off |
| Persist.RowsFollowKeptIndex | drummer/drummer.js:793-796 | when the first saved track is dropped, the second track receives the first saved row |
| Persist.KeptKeysOfKnown | drummer/drummer.js:788-790 | saved entries whose keys are all known are kept completely and in order |
| Persist.SnapshotReadsBack | drummer/drummer.js:767-776 | what `persistState` writes is read back as a stored grid whose entries, rows and tempo are the ones it was written from |
| Persist.RowReadsBack | drummer/drummer.js:793-796 | a saved 16-step row is restored cell for cell as itself |
| Persist.SaveLoadRoundTripWith | drummer/drummer.js:767-802 | for any key filter accepting every track, loading what `persistState` saves restores the tracks and the pattern exactly, and the tempo as it was read |
| Persist.SaveLoadRoundTripAsWritten | drummer/drummer.js:767-802 | the same round trip through the program's own loader, for tracks the label lookup accepts |
| Persist.SaveLoadRoundTrip | drummer/drummer.js:767-802 | the same round trip through the corrected own-key loader, for tracks with known sound keys |
| Trim.GetTrim | drummer/drummer.js:932-938 | without a recording the window is (0, 0); otherwise the start is the clamped start mark in [0, dur] and the end is the clamped end mark when that is at least 0.02 s later, else exactly 0.02 s after the start |
| Trim.SyncTrim | drummer/drummer.js:909-930 | without a recording nothing is written; otherwise 0 ≤ start ≤ end ≤ dur and the moved mark equals the clamped input; the other mark stays when the gap exceeds 0.02 s, and otherwise is pushed 0.1 s away, clamped into the recording |
| Trim.SyncKeepsGap | drummer/drummer.js:909-930 | after a move the marks are more than 0.02 s apart, unless the start was moved into the last 0.02 s or the end into the first 0.02 s |
| Trim.StartAtEndReportsPastEnd | drummer/drummer.js:909-938 | moving the start mark to the recording's end and then reading the window reports the end 0.02 s past the recording |
| Trim.PlaybackWindow | drummer/drummer.js:452-456 | a recorded trigger plays from a start in [0, buffer length] for at least 0.02 s, up to the clamped end mark when that is 0.02 s or more later; the `??` defaults are modelled as written (absent marks play the whole buffer when it is at least 0.02 s long), though the program never reaches them |
| Trim.UnmarkedSamplePlaysMinimum | drummer/drummer.js:857-872 | a sample stored without marks loads with both marks at 0, so a trigger plays 0.02 s from its start, not the whole buffer |
| Trim.StoredTrimPlaysAsReported | drummer/drummer.js:1033-1042 | a window the editor reported and stored with the sample plays from its start, for its whole length when it fits in the buffer |

## Left out

- Sound synthesis (the `play*Classic/Toy/Arcade` routines, `noiseBuffer`, `ensureAudio`, `makeSoundSet`): Web Audio graph construction and random noise. A trigger is an opaque `Trigger` value.
- Recorded-sample decoding in `playRecorded` (the promise chain): asynchronous foreign calls. Only its trim arithmetic is modelled, as `Trim.PlaybackWindow`.
- Recording and storage I/O: `openDb`, `idbGet`, `idbPut`, `idbDelete`, `initKit`, `saveTrimToKit`, `clearMyKit`, `enableMic`, `pickMimeType`, `startRecording`, `stopRecording`, `onRecordingStopped` and `playTrimPreview`. These are browser I/O and asynchronous; only the way `initKit` fills in a missing mark with 0 is modelled, as `Trim.KitMark`. `persistState` and `schedulePersist` are localStorage I/O; the record `persistState` writes is modelled as `Persist.Snapshot` only to state the round trip.
- DOM rendering: `buildGrid`, `updateRowVisuals`, `setPlayhead`, `clearPlayhead`, `setPlayButton`, `updateRecorderUI`, `bindUI`, `bindRecorderUI`, and the bpm label text in `setBps`. The playhead callback is a `ScheduledStep` field.
- Timer periods and callbacks: the 25 ms re-arm and the 120 ms persistence debounce. Re-arming is a boolean.
- Scheduler.Tick: `audioCtx.currentTime` is read once per tick. The browser may advance it between loop iterations; the model does not.
- Scheduler.RunTicks: tempo changes between ticks are not modelled. A change takes effect from the next step boundary, because each tick reads the step length afresh.
- Trim.GetTrim: trim fields are taken as parsed numbers. A field that does not parse (NaN) is not modelled.
- Trim.SyncTrim: trim fields are taken as parsed numbers. A field that does not parse (NaN) is not modelled.
- IEEE-754 rounding and `-0` are not modelled. `NaN` and the infinities are modelled where they reach `setBps` (`Tempo.Number`), not in the trim fields.
- The ensureAudio/resume calls inside `start` and the cell-click handler are left out; `now` is taken after them.

## Findings

| source | as written | input that shows it | evidently intended | confidence | as-written member | corrected member |
|---|---|---|---|---|---|---|
| drummer/drummer.js:790 | saved tracks are filtered by `Boolean(SOUND_LABELS[key])`; the lookup also finds members inherited from `Object.prototype` | a saved grid whose only track is `{ "soundKey": "toString" }` keeps that track, which the sound bank cannot play | keep only keys the label table itself defines, falling back to the classic kit otherwise | medium, not executed | Persist.InheritedNameSurvivesAsWritten | Persist.LoadState |
