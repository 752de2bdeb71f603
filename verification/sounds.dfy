/** Sound keys: the `"<kit>:<instrument>"` strings that name a row's sound,
    the label table that defines which keys exist, and the small lookups the
    grid needs (default tracks, the row colour, whether a recorded sample
    exists). */
module Sounds {
  import opened Wrappers

  const Kits: seq<string> := ["classic", "toy", "arcade", "recorded"]
  const Instruments: seq<string> := ["kick", "snare", "hat", "perc"]

  /** `SOUND_LABELS`: every kit paired with every instrument, and nothing else. */
  const SoundLabels: map<string, string> := map[
    "classic:kick" := "Classic — Kick",
    "classic:snare" := "Classic — Snare",
    "classic:hat" := "Classic — Hi‑Hat",
    "classic:perc" := "Classic — Perc",
    "toy:kick" := "Toy — Kick",
    "toy:snare" := "Toy — Snare",
    "toy:hat" := "Toy — Hi‑Hat",
    "toy:perc" := "Toy — Perc",
    "arcade:kick" := "Arcade — Kick",
    "arcade:snare" := "Arcade — Snare",
    "arcade:hat" := "Arcade — Hi‑Hat",
    "arcade:perc" := "Arcade — Perc",
    "recorded:kick" := "My Kit — Kick",
    "recorded:snare" := "My Kit — Snare",
    "recorded:hat" := "My Kit — Hi‑Hat",
    "recorded:perc" := "My Kit — Perc"
  ]

  /** A key the sound bank knows: one of the label table's own keys. */
  predicate IsSoundKey(key: string) {
    key in SoundLabels
  }

  /** The instrument a row plays, which also picks the row's colour. */
  datatype Instrument = Kick | Snare | Hat | Perc

  function InstrumentName(i: Instrument): string {
    match i
    case Kick => "kick"
    case Snare => "snare"
    case Hat => "hat"
    case Perc => "perc"
  }

  /** Index of the first `':'` in `s`, if any. */
  function FirstColon(s: string): (r: Option<nat>)
    ensures r.None? <==> ':' !in s
    ensures r.Some? ==> r.value < |s| && s[r.value] == ':' && ':' !in s[..r.value]
  {
    if |s| == 0 then None
    else if s[0] == ':' then Some(0)
    else
      match FirstColon(s[1..])
      case None => None
      case Some(i) =>
        assert s[..i + 1] == [s[0]] + s[1..][..i];
        Some(i + 1)
  }

  /** `key.split(":")[0]`: the text before the first colon (all of it when there is none). */
  function KitPart(key: string): string {
    match FirstColon(key)
    case None => key
    case Some(i) => key[..i]
  }

  /** The text after the first colon, if there is a colon. */
  function AfterColon(key: string): Option<string> {
    match FirstColon(key)
    case None => None
    case Some(i) => Some(key[i + 1..])
  }

  /** `key.split(":")[1]`: the second colon-separated field, `None` for `undefined`. */
  function InstrumentPart(key: string): Option<string> {
    match AfterColon(key)
    case None => None
    case Some(rest) => Some(KitPart(rest))
  }

  /** The text before the first colon, a colon and the text after it
      rebuild a key that has a colon. */
  lemma SplitJoin(key: string)
    requires ':' in key
    ensures AfterColon(key).Some?
    ensures KitPart(key) + ":" + AfterColon(key).value == key
  {
    var i := FirstColon(key).value;
    assert key == key[..i] + [key[i]] + key[i + 1..];
  }

  /** A key built as `kit + ":" + inst` from colon-free parts splits back
      into exactly those parts. */
  lemma {:induction false} ComposeSplit(kit: string, inst: string)
    requires ':' !in kit && ':' !in inst
    ensures KitPart(kit + ":" + inst) == kit
    ensures AfterColon(kit + ":" + inst) == Some(inst)
    ensures InstrumentPart(kit + ":" + inst) == Some(inst)
  {
    var key := kit + ":" + inst;
    assert key[|kit|] == ':';
    var c := FirstColon(key);
    assert c.Some?;
    var i := c.value;
    assert forall j :: 0 <= j < |kit| ==> key[j] == kit[j];
    assert key[..i] == kit;
    assert key[i + 1..] == inst;
    assert FirstColon(inst).None?;
  }

  /** `defaultTracks(preset)`: one row per instrument of the preset kit,
      falling back to the classic kit for an unknown preset. */
  function DefaultTracks(preset: string): (keys: seq<string>)
    ensures |keys| == 4
    ensures forall i :: 0 <= i < 4 ==> IsSoundKey(keys[i])
    ensures forall i :: 0 <= i < 4 ==> KitPart(keys[i]) == (if preset in Kits then preset else "classic")
    ensures forall i :: 0 <= i < 4 ==> InstrumentPart(keys[i]) == Some(Instruments[i])
  {
    var p := if preset in Kits then preset else "classic";
    var keys := [p + ":kick", p + ":snare", p + ":hat", p + ":perc"];
    forall i | 0 <= i < 4
      ensures KitPart(keys[i]) == p && InstrumentPart(keys[i]) == Some(Instruments[i])
    {
      assert keys[i] == p + ":" + Instruments[i];
      ComposeSplit(p, Instruments[i]);
    }
    KitKeysAreSoundKeys(p);
    keys
  }

  /** The four keys of any kit are in the label table. */
  lemma KitKeysAreSoundKeys(p: string)
    requires p in Kits
    ensures IsSoundKey(p + ":kick") && IsSoundKey(p + ":snare")
    ensures IsSoundKey(p + ":hat") && IsSoundKey(p + ":perc")
  {
    if p == "classic" {
      assert p + ":kick" == "classic:kick";
      assert p + ":snare" == "classic:snare";
      assert p + ":hat" == "classic:hat";
      assert p + ":perc" == "classic:perc";
    } else if p == "toy" {
      assert p + ":kick" == "toy:kick";
      assert p + ":snare" == "toy:snare";
      assert p + ":hat" == "toy:hat";
      assert p + ":perc" == "toy:perc";
    } else if p == "arcade" {
      assert p + ":kick" == "arcade:kick";
      assert p + ":snare" == "arcade:snare";
      assert p + ":hat" == "arcade:hat";
      assert p + ":perc" == "arcade:perc";
    } else {
      assert p == "recorded";
      assert p + ":kick" == "recorded:kick";
      assert p + ":snare" == "recorded:snare";
      assert p + ":hat" == "recorded:hat";
      assert p + ":perc" == "recorded:perc";
    }
  }

  /** `trackColorFromSoundKey`: the instrument named by the second field of
      the key, with anything other than snare, hat or perc shown as a kick. */
  function TrackColor(key: string): (c: Instrument)
    ensures c == Snare <==> InstrumentPart(key) == Some("snare")
    ensures c == Hat <==> InstrumentPart(key) == Some("hat")
    ensures c == Perc <==> InstrumentPart(key) == Some("perc")
  {
    match InstrumentPart(key)
    case Some(inst) =>
      if inst == "snare" then Snare
      else if inst == "hat" then Hat
      else if inst == "perc" then Perc
      else Kick
    case None => Kick
  }

  /** Every key of the form `kit:instrument` is coloured by its instrument,
      whatever the kit. */
  lemma ColorFollowsInstrument(kit: string, inst: Instrument)
    requires ':' !in kit
    ensures TrackColor(kit + ":" + InstrumentName(inst)) == inst
  {
    ComposeSplit(kit, InstrumentName(inst));
  }

  /** `recordedAvailable(key)`: a synthesized sound is always available; a
      recorded one only when the user's kit holds a sample for its instrument.
      `kit` maps an instrument name to whether a sample blob is stored. */
  function RecordedAvailable(key: string, kit: map<string, bool>): (ok: bool)
    ensures KitPart(key) != "recorded" ==> ok
    ensures ok && KitPart(key) == "recorded" ==>
      InstrumentPart(key).Some? && InstrumentPart(key).value in kit && kit[InstrumentPart(key).value]
  {
    if KitPart(key) != "recorded" then true
    else
      match InstrumentPart(key)
      case None => false
      case Some(inst) => inst in kit && kit[inst]
  }

  /** For the keys the sound menu offers, availability depends only on the
      user's kit, and only for the recorded kit. */
  lemma AvailabilityOfMenuKeys(kitName: string, inst: Instrument, kit: map<string, bool>)
    requires kitName in Kits
    ensures RecordedAvailable(kitName + ":" + InstrumentName(inst), kit) <==>
      (kitName != "recorded" || (InstrumentName(inst) in kit && kit[InstrumentName(inst)]))
  {
    ComposeSplit(kitName, InstrumentName(inst));
  }

  /** Names every plain object inherits from `Object.prototype`. Looking one
      of them up in the label table yields a truthy value (a function, or the
      prototype object itself), although none of them is a sound key. */
  const InheritedNames: set<string> := {
    "constructor", "hasOwnProperty", "isPrototypeOf", "propertyIsEnumerable",
    "toLocaleString", "toString", "valueOf", "__proto__",
    "__defineGetter__", "__defineSetter__", "__lookupGetter__", "__lookupSetter__"
  }

  /** `Boolean(SOUND_LABELS[key])` as the script evaluates it: every label is
      non-empty, and the lookup also reaches inherited members. */
  predicate LabelLookupTruthy(key: string) {
    key in SoundLabels || key in InheritedNames
  }

  /** The lookup the loader filters with lets a name that is not a sound key through. */
  lemma InheritedNamePassesLookup()
    ensures LabelLookupTruthy("toString") && !IsSoundKey("toString")
  {
    assert "toString" in InheritedNames;
  }

  /** The own-key test accepts exactly the keys the truthiness test accepts,
      minus the inherited names. */
  lemma OwnKeyFilterRefinesLookup(key: string)
    ensures IsSoundKey(key) <==> LabelLookupTruthy(key) && key !in InheritedNames
  {
    if key in InheritedNames {
      assert key !in SoundLabels;
    }
  }
}
