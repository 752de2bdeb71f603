/** Restoring the saved grid and tempo. The saved text has already been
    parsed into a `Json` value; a missing or empty storage item, or text that
    does not parse, is `None`. The loader falls back at every level: a grid
    is restored only when both `tracks` and `pattern` are arrays; an entry
    whose `soundKey` is not a string becomes the classic kick; unknown keys
    are dropped, and if none remain the classic kit is used; every restored
    row is read as booleans and padded or cut to 16 steps; the tempo is
    restored, clamped, only when it is a number. */
module Persist {
  import opened Wrappers
  import Tempo
  import Sounds
  import opened Sequencer

  /** A parsed JSON value. `JSON.parse` never yields `NaN`, but a number
      literal too large for a double parses as an infinity. */
  datatype Json =
    | JNull
    | JBool(b: bool)
    | JNum(n: Tempo.Number)
    | JStr(str: string)
    | JArr(items: seq<Json>)
    | JObj(fields: map<string, Json>)

  /** `v.name`: an own field of an object; `undefined` on anything else.
      (Reading a field of `null` throws, and the loader's handler then
      leaves the state alone, which is what `undefined` fields lead to as well.) */
  function Field(v: Json, name: string): Option<Json> {
    if v.JObj? && name in v.fields then Some(v.fields[name]) else None
  }

  /** `items[i]`, `undefined` past the end. */
  function At(items: seq<Json>, i: nat): Option<Json> {
    if i < |items| then Some(items[i]) else None
  }

  /** `Boolean(x)` for a parsed value or `undefined`. */
  function Truthy(v: Option<Json>): bool {
    match v
    case None => false
    case Some(JNull) => false
    case Some(JBool(b)) => b
    case Some(JNum(n)) => !n.NaN? && n != Tempo.Finite(0.0)
    case Some(JStr(str)) => |str| > 0
    case Some(JArr(_)) => true
    case Some(JObj(_)) => true
  }

  /** Key given to a saved track whose `soundKey` is not a string. */
  const FallbackKey: string := "classic:kick"

  /** The key of one saved track entry. */
  function EntryKey(t: Json): string {
    match Field(t, "soundKey")
    case Some(JStr(k)) => k
    case _ => FallbackKey
  }

  /** The keys of the saved entries that pass `known`, in their saved order. */
  function KeptKeys(entries: seq<Json>, known: string -> bool): (keys: seq<string>)
    ensures |keys| <= |entries|
    ensures forall i :: 0 <= i < |keys| ==> known(keys[i])
    ensures forall i :: 0 <= i < |entries| && known(EntryKey(entries[i])) ==> EntryKey(entries[i]) in keys
  {
    if |entries| == 0 then []
    else
      var rest := KeptKeys(entries[1..], known);
      var k := EntryKey(entries[0]);
      assert forall j :: 0 <= j < |entries| - 1 ==> entries[1..][j] == entries[j + 1];
      if known(k) then
        var keys := [k] + rest;
        assert forall i :: 1 <= i < |keys| ==> keys[i] == rest[i - 1];
        keys
      else rest
  }

  /** Filtering one entry keeps its key exactly when the key passes. */
  lemma KeptKeysOne(e: Json, known: string -> bool)
    ensures KeptKeys([e], known) == if known(EntryKey(e)) then [EntryKey(e)] else []
  {
    assert [e][1..] == [];
  }

  /** Filtering distributes over concatenation: the kept keys of the first
      part come first, in order, then those of the second. With the
      single-entry case this fixes the result, order and repeats included. */
  lemma {:induction false} KeptKeysAppend(a: seq<Json>, b: seq<Json>, known: string -> bool)
    ensures KeptKeys(a + b, known) == KeptKeys(a, known) + KeptKeys(b, known)
  {
    if |a| == 0 {
      assert a + b == b;
    } else {
      assert (a + b)[0] == a[0];
      assert (a + b)[1..] == a[1..] + b;
      KeptKeysAppend(a[1..], b, known);
    }
  }

  /** Row `idx` of the restored grid: the saved row at the same index read
      cell by cell as booleans, padded with off cells and cut to 16 steps.
      A missing or non-array saved row restores as all off. */
  function RestoredRow(rows: seq<Json>, idx: nat): (row: seq<bool>)
    ensures |row| == STEPS
    ensures idx >= |rows| || !rows[idx].JArr? ==> row == EmptyRow()
    ensures idx < |rows| && rows[idx].JArr? ==>
      && (forall k :: 0 <= k < STEPS && k < |rows[idx].items| ==> row[k] == Truthy(Some(rows[idx].items[k])))
      && (forall k :: |rows[idx].items| <= k < STEPS ==> !row[k])
  {
    var cells := if idx < |rows| && rows[idx].JArr? then rows[idx].items else [];
    seq(STEPS, k requires 0 <= k < STEPS => Truthy(At(cells, k)))
  }

  /** Whether the saved value holds a grid: both `tracks` and `pattern` are arrays. */
  predicate GridStored(raw: Option<Json>) {
    raw.Some? && Field(raw.value, "tracks").Some? && Field(raw.value, "tracks").value.JArr?
    && Field(raw.value, "pattern").Some? && Field(raw.value, "pattern").value.JArr?
  }

  function StoredEntries(raw: Option<Json>): seq<Json>
    requires GridStored(raw)
  {
    Field(raw.value, "tracks").value.items
  }

  function StoredRows(raw: Option<Json>): seq<Json>
    requires GridStored(raw)
  {
    Field(raw.value, "pattern").value.items
  }

  /** The saved tempo, when it is a number. */
  function StoredBps(raw: Option<Json>): Option<Tempo.Number> {
    if raw.Some? && Field(raw.value, "bps").Some? && Field(raw.value, "bps").value.JNum? then
      Some(Field(raw.value, "bps").value.n)
    else None
  }

  /** What `loadState` with key filter `known` does to `s`, given the saved
      value `raw`. Nothing saved: nothing changes. A grid saved: the saved
      keys that pass `known`, in their saved order, or the classic kit when
      none passes; row `i` is the saved row at index `i`, read as 16 cells.
      No grid saved: tracks and pattern unchanged. A numeric tempo saved:
      written to the control, clamped. Transport untouched throughout, and
      the grid keeps one 16-step row per track. */
  predicate RestoredFrom(r: State, s: State, raw: Option<Json>, known: string -> bool) {
    && (raw.None? ==> r == s)
    && r.isPlaying == s.isPlaying && r.currentStep == s.currentStep
    && r.nextNoteTime == s.nextNoteTime && r.timerArmed == s.timerArmed
    && (Valid(s) ==> Valid(r))
    && (!GridStored(raw) ==> r.tracks == s.tracks && r.pattern == s.pattern)
    && (GridStored(raw) ==>
        && |r.tracks| >= 1
        && |r.pattern| == |r.tracks|
        && (forall i :: 0 <= i < |r.pattern| ==> r.pattern[i] == RestoredRow(StoredRows(raw), i))
        && (if exists j :: 0 <= j < |StoredEntries(raw)| && known(EntryKey(StoredEntries(raw)[j]))
            then r.tracks == KeptKeys(StoredEntries(raw), known)
            else r.tracks == Sounds.DefaultTracks("classic")))
    && (StoredBps(raw).None? ==> r.bpsField == s.bpsField)
    && (StoredBps(raw).Some? ==> r.bpsField == Tempo.SetBps(StoredBps(raw).value))
  }

  /** `loadState` with the key filter `known` as a parameter. Rows are taken
      by the index a track has AFTER filtering. */
  function LoadStateWith(s: State, raw: Option<Json>, known: string -> bool): (r: State)
    ensures RestoredFrom(r, s, raw, known)
  {
    var withGrid :=
      if GridStored(raw) then
        var kept := KeptKeys(StoredEntries(raw), known);
        var tracks := if |kept| == 0 then Sounds.DefaultTracks("classic") else kept;
        s.(tracks := tracks, pattern := seq(|tracks|, idx requires 0 <= idx < |tracks| => RestoredRow(StoredRows(raw), idx)))
      else s;
    var r :=
      match StoredBps(raw)
      case Some(n) => withGrid.(bpsField := Tempo.SetBps(n))
      case None => withGrid;
    if GridStored(raw) then
      KeptIsEmptyIffNoneKnown(StoredEntries(raw), known);
      r
    else r
  }

  /** `loadState`, filtering keys by the label table's own keys: on top of
      what every filter gives, every restored track has a known sound key. */
  function LoadState(s: State, raw: Option<Json>): (r: State)
    ensures RestoredFrom(r, s, raw, Sounds.IsSoundKey)
    ensures GridStored(raw) ==> forall i :: 0 <= i < |r.tracks| ==> Sounds.IsSoundKey(r.tracks[i])
  {
    Sounds.KitKeysAreSoundKeys("classic");
    LoadStateWith(s, raw, Sounds.IsSoundKey)
  }

  /** Filtering keeps nothing exactly when no entry's key passes. */
  lemma KeptIsEmptyIffNoneKnown(entries: seq<Json>, known: string -> bool)
    ensures |KeptKeys(entries, known)| == 0 <==> forall j :: 0 <= j < |entries| ==> !known(EntryKey(entries[j]))
  {
    var kept := KeptKeys(entries, known);
    if j :| 0 <= j < |entries| && known(EntryKey(entries[j])) {
      assert EntryKey(entries[j]) in kept;
    }
  }

  /** `loadState` exactly as the script filters: by the truthiness of a label
      lookup, which inherited member names also pass. Every restored track
      passes that lookup, but need not be a sound key. */
  function LoadStateAsWritten(s: State, raw: Option<Json>): (r: State)
    ensures RestoredFrom(r, s, raw, Sounds.LabelLookupTruthy)
    ensures GridStored(raw) ==> forall i :: 0 <= i < |r.tracks| ==> Sounds.LabelLookupTruthy(r.tracks[i])
  {
    Sounds.KitKeysAreSoundKeys("classic");
    LoadStateWith(s, raw, Sounds.LabelLookupTruthy)
  }

  /** A saved grid with a single track named `"toString"`. */
  function InheritedNameSave(): Json {
    JObj(map["tracks" := JArr([JObj(map["soundKey" := JStr("toString")])]), "pattern" := JArr([])])
  }

  /** As written, the loader keeps a track named `"toString"`, which the
      sound bank cannot play; filtering by own keys falls back to the classic kit. */
  lemma InheritedNameSurvivesAsWritten(s: State)
    ensures LoadStateAsWritten(s, Some(InheritedNameSave())).tracks == ["toString"]
    ensures !Sounds.IsSoundKey("toString")
    ensures LoadState(s, Some(InheritedNameSave())).tracks == Sounds.DefaultTracks("classic")
  {
    var raw := Some(InheritedNameSave());
    var entries := StoredEntries(raw);
    assert EntryKey(entries[0]) == "toString";
    Sounds.InheritedNamePassesLookup();
    assert entries[1..] == [];
    assert KeptKeys(entries, Sounds.LabelLookupTruthy) == ["toString"];
    assert KeptKeys(entries, Sounds.IsSoundKey) == [];
  }

  /** A saved grid with one unknown track and nothing in the pattern falls
      back to the classic four-track kit with every cell off. */
  lemma UnknownKeyFallsBack(s: State)
    ensures var r := LoadState(s, Some(JObj(map["tracks" := JArr([JObj(map["soundKey" := JStr("bogus")])]), "pattern" := JArr([])])));
      && r.tracks == Sounds.DefaultTracks("classic")
      && |r.pattern| == 4
      && (forall t :: 0 <= t < 4 ==> r.pattern[t] == EmptyRow())
  {
    var raw := Some(JObj(map["tracks" := JArr([JObj(map["soundKey" := JStr("bogus")])]), "pattern" := JArr([])]));
    assert EntryKey(StoredEntries(raw)[0]) == "bogus";
    assert !Sounds.IsSoundKey("bogus");
  }

  /** Rows follow the index a track has after filtering: when the first saved
      track is dropped, the second track gets the first saved row. */
  lemma RowsFollowKeptIndex(s: State)
    ensures var r := LoadState(s, Some(JObj(map[
        "tracks" := JArr([JObj(map["soundKey" := JStr("bogus")]), JObj(map["soundKey" := JStr("classic:snare")])]),
        "pattern" := JArr([JArr([JBool(true)]), JArr([])])])));
      && r.tracks == ["classic:snare"]
      && r.pattern[0][0]
  {
    var raw := Some(JObj(map[
        "tracks" := JArr([JObj(map["soundKey" := JStr("bogus")]), JObj(map["soundKey" := JStr("classic:snare")])]),
        "pattern" := JArr([JArr([JBool(true)]), JArr([])])]));
    var entries := StoredEntries(raw);
    assert EntryKey(entries[0]) == "bogus";
    assert EntryKey(entries[1]) == "classic:snare";
    assert !Sounds.IsSoundKey("bogus") && Sounds.IsSoundKey("classic:snare");
    assert entries[1..][1..] == [];
    assert KeptKeys(entries, Sounds.IsSoundKey) == ["classic:snare"];
  }

  /** The `{ soundKey }` entry `persistState` writes for a track. */
  function TrackEntry(key: string): Json {
    JObj(map["soundKey" := JStr(key)])
  }

  /** The saved `tracks` array. */
  function TrackEntries(keys: seq<string>): (entries: seq<Json>)
    ensures |entries| == |keys|
    ensures forall i :: 0 <= i < |keys| ==> entries[i] == TrackEntry(keys[i])
  {
    if |keys| == 0 then [] else [TrackEntry(keys[0])] + TrackEntries(keys[1..])
  }

  /** One saved row: the cells as JSON booleans. */
  function RowCells(row: seq<bool>): (cells: seq<Json>)
    ensures |cells| == |row|
    ensures forall k :: 0 <= k < |row| ==> cells[k] == JBool(row[k])
  {
    if |row| == 0 then [] else [JBool(row[0])] + RowCells(row[1..])
  }

  /** The saved `pattern` array. */
  function PatternRows(pattern: seq<seq<bool>>): (rows: seq<Json>)
    ensures |rows| == |pattern|
    ensures forall i :: 0 <= i < |pattern| ==> rows[i] == JArr(RowCells(pattern[i]))
  {
    if |pattern| == 0 then [] else [JArr(RowCells(pattern[0]))] + PatternRows(pattern[1..])
  }

  /** The record `persistState` writes: the tracks as `{ soundKey }` entries,
      the grid as arrays of booleans, and the tempo as currently read. */
  function Snapshot(s: State): Json {
    JObj(map[
      "tracks" := JArr(TrackEntries(s.tracks)),
      "pattern" := JArr(PatternRows(s.pattern)),
      "bps" := JNum(Tempo.Finite(Tempo.ReadBps(s.bpsField)))])
  }

  /** A known first entry is kept, in front of what the rest keeps. */
  lemma KeptKeysCons(entries: seq<Json>, known: string -> bool)
    requires |entries| > 0 && known(EntryKey(entries[0]))
    ensures KeptKeys(entries, known) == [EntryKey(entries[0])] + KeptKeys(entries[1..], known)
  {
  }

  lemma TrackEntriesTail(keys: seq<string>)
    requires |keys| > 0
    ensures TrackEntries(keys)[1..] == TrackEntries(keys[1..])
  {
  }

  /** A saved entry gives back the key it was written from. */
  lemma EntryKeyOfEntry(key: string)
    ensures EntryKey(TrackEntry(key)) == key
  {
  }

  /** Entries made from known keys are all kept, in order. */
  lemma {:induction false} KeptKeysOfKnown(keys: seq<string>, known: string -> bool)
    requires forall i :: 0 <= i < |keys| ==> known(keys[i])
    ensures KeptKeys(TrackEntries(keys), known) == keys
  {
    if |keys| > 0 {
      TrackEntriesTail(keys);
      EntryKeyOfEntry(keys[0]);
      KeptKeysCons(TrackEntries(keys), known);
      KeptKeysOfKnown(keys[1..], known);
      assert keys == [keys[0]] + keys[1..];
    }
  }

  /** The snapshot is read back as a grid: its entries, rows and tempo are
      the ones it was made from. */
  lemma SnapshotReadsBack(s: State)
    ensures GridStored(Some(Snapshot(s)))
    ensures StoredEntries(Some(Snapshot(s))) == TrackEntries(s.tracks)
    ensures StoredRows(Some(Snapshot(s))) == PatternRows(s.pattern)
    ensures StoredBps(Some(Snapshot(s))) == Some(Tempo.Finite(Tempo.ReadBps(s.bpsField)))
  {
  }

  /** A saved 16-step row restores as itself. */
  lemma RowReadsBack(pattern: seq<seq<bool>>, i: nat)
    requires i < |pattern| && |pattern[i]| == STEPS
    ensures RestoredRow(PatternRows(pattern), i) == pattern[i]
  {
    var row := RestoredRow(PatternRows(pattern), i);
    assert forall k :: 0 <= k < STEPS ==> row[k] == pattern[i][k];
  }

  /** Saving and then loading restores the grid and the tempo as read, into
      any state, for any key filter that accepts every saved track, provided
      there is at least one track. */
  lemma SaveLoadRoundTripWith(s: State, into: State, known: string -> bool)
    requires Valid(s) && |s.tracks| >= 1
    requires forall i :: 0 <= i < |s.tracks| ==> known(s.tracks[i])
    ensures LoadStateWith(into, Some(Snapshot(s)), known).tracks == s.tracks
    ensures LoadStateWith(into, Some(Snapshot(s)), known).pattern == s.pattern
    ensures LoadStateWith(into, Some(Snapshot(s)), known).bpsField == Some(Tempo.ReadBps(s.bpsField))
  {
    var raw := Some(Snapshot(s));
    SnapshotReadsBack(s);
    KeptKeysOfKnown(s.tracks, known);
    EntryKeyOfEntry(s.tracks[0]);
    var r := LoadStateWith(into, raw, known);
    assert r.tracks == s.tracks;
    forall i | 0 <= i < |s.pattern|
      ensures r.pattern[i] == s.pattern[i]
    {
      RowReadsBack(s.pattern, i);
    }
  }

  /** The round trip through the program's own loader, whose filter is the
      label lookup: every track the lookup accepts, `"toString"` included,
      comes back. */
  lemma SaveLoadRoundTripAsWritten(s: State, into: State)
    requires Valid(s) && |s.tracks| >= 1
    requires forall i :: 0 <= i < |s.tracks| ==> Sounds.LabelLookupTruthy(s.tracks[i])
    ensures LoadStateAsWritten(into, Some(Snapshot(s))).tracks == s.tracks
    ensures LoadStateAsWritten(into, Some(Snapshot(s))).pattern == s.pattern
    ensures LoadStateAsWritten(into, Some(Snapshot(s))).bpsField == Some(Tempo.ReadBps(s.bpsField))
  {
    SaveLoadRoundTripWith(s, into, Sounds.LabelLookupTruthy);
  }

  /** The round trip through the corrected loader: every track with a known
      sound key comes back. */
  lemma SaveLoadRoundTrip(s: State, into: State)
    requires Valid(s) && |s.tracks| >= 1
    requires forall i :: 0 <= i < |s.tracks| ==> Sounds.IsSoundKey(s.tracks[i])
    ensures LoadState(into, Some(Snapshot(s))).tracks == s.tracks
    ensures LoadState(into, Some(Snapshot(s))).pattern == s.pattern
    ensures LoadState(into, Some(Snapshot(s))).bpsField == Some(Tempo.ReadBps(s.bpsField))
  {
    SaveLoadRoundTripWith(s, into, Sounds.IsSoundKey);
  }
}
