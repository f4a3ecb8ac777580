/** The governor gear page: six gear items, each with a gear level (one of
    the game's named levels, or unset) and three charm levels between 1 and
    11. Loading sanitises whatever was stored; the two editors change one
    level or one charm of one item. */
module GearCharms {
  import opened Wrappers

  const GearItems: seq<string> := ["Crown", "Necklace", "Robe", "Pants", "Ring", "Staff"]

  const GearLevels: seq<string> := [
    "Uncommon", "Uncommon (1-Star)",
    "Rare", "Rare (1-Star)", "Rare (2-Star)", "Rare (3-Star)",
    "Epic", "Epic (1-Star)", "Epic (2-Star)", "Epic (3-Star)",
    "Epic T1", "Epic T1 (1-Star)", "Epic T1 (2-Star)", "Epic T1 (3-Star)",
    "Mythic", "Mythic (1-Star)", "Mythic (2-Star)", "Mythic (3-Star)",
    "Mythic T1", "Mythic T1 (1-Star)", "Mythic T1 (2-Star)", "Mythic T1 (3-Star)",
    "Mythic T2", "Mythic T2 (1-Star)", "Mythic T2 (2-Star)", "Mythic T2 (3-Star)",
    "Legendary", "Legendary (1-Star)", "Legendary (2-Star)",
    "Legendary T1", "Legendary T2", "Legendary T3", "Legendary T4", "Legendary T5",
    "Legendary T6", "Legendary T7", "Legendary T8", "Legendary T9", "Legendary T10"
  ]

  const MinCharm: real := 1.0
  const MaxCharm: real := 11.0

  /** "Not set" is not one of the named gear levels. */
  lemma UnsetIsNotALevel()
    ensures "" !in GearLevels
  {
  }

  // ---------------------------------------------------------------------
  // Charms
  // ---------------------------------------------------------------------

  /** Three charm levels, each within [1, 11]; levels are not rounded. */
  predicate CharmsValid(charms: seq<real>) {
    |charms| == 3 && forall i :: 0 <= i < 3 ==> MinCharm <= charms[i] <= MaxCharm
  }

  /** One stored charm after `Number(...)`: None when not finite. */
  function SanitizeCharm(value: Option<real>): (c: real)
    ensures MinCharm <= c <= MaxCharm
    ensures value.None? ==> c == MinCharm
    ensures value.Some? && MinCharm <= value.value <= MaxCharm ==> c == value.value
    ensures value.Some? && value.value < MinCharm ==> c == MinCharm
    ensures value.Some? && MaxCharm < value.value ==> c == MaxCharm
  {
    match value
    case None => MinCharm
    case Some(v) => if v < MinCharm then MinCharm else if v > MaxCharm then MaxCharm else v
  }

  /** The entry at `index` of a stored array; a missing entry reads as
      undefined, which is not a finite number. */
  function EntryAt(raw: seq<Option<real>>, index: nat): Option<real> {
    if index < |raw| then raw[index] else None
  }

  /** sanitizeCharms: None stands for a stored value that is not an array. */
  function SanitizeCharms(raw: Option<seq<Option<real>>>): (charms: seq<real>)
    ensures CharmsValid(charms)
    ensures raw.None? ==> charms == [MinCharm, MinCharm, MinCharm]
    ensures raw.Some? ==> forall i :: 0 <= i < 3 ==> charms[i] == SanitizeCharm(EntryAt(raw.value, i))
  {
    match raw
    case None => [MinCharm, MinCharm, MinCharm]
    case Some(a) => [SanitizeCharm(EntryAt(a, 0)), SanitizeCharm(EntryAt(a, 1)), SanitizeCharm(EntryAt(a, 2))]
  }

  /** Charm levels as the array they are saved as. */
  function AsStored(charms: seq<real>): seq<Option<real>> {
    seq(|charms|, i requires 0 <= i < |charms| => Some(charms[i]))
  }

  /** Valid charms survive sanitising unchanged. */
  lemma SanitizeCharmsOfValid(charms: seq<real>)
    requires CharmsValid(charms)
    ensures SanitizeCharms(Some(AsStored(charms))) == charms
  {
  }

  lemma SanitizeCharmsIdempotent(raw: Option<seq<Option<real>>>)
    ensures SanitizeCharms(Some(AsStored(SanitizeCharms(raw)))) == SanitizeCharms(raw)
  {
    SanitizeCharmsOfValid(SanitizeCharms(raw));
  }

  // ---------------------------------------------------------------------
  // Gear items and the whole state
  // ---------------------------------------------------------------------

  datatype GearEntry = GearEntry(level: string, charms: seq<real>)

  datatype GearState = GearState(updatedAt: string, gear: map<string, GearEntry>)

  /** One stored item: its level when that was a string, and its charms when
      they were an array. */
  datatype RawEntry = RawEntry(level: Option<string>, charms: Option<seq<Option<real>>>)

  /** A stored state that was an object: its `gear` entries by item name and
      its `updatedAt` ("" when missing). */
  datatype RawState = RawState(updatedAt: string, gear: map<string, RawEntry>)

  /** Exactly the six items, each with a valid set of charms. */
  predicate GearValid(gear: map<string, GearEntry>) {
    && gear.Keys == set item | item in GearItems
    && forall item :: item in gear ==> CharmsValid(gear[item].charms)
  }

  /** buildDefaultGear: every item unset with three level-1 charms. */
  function BuildDefaultGear(): (gear: map<string, GearEntry>)
    ensures GearValid(gear)
    ensures forall item :: item in gear ==> gear[item] == GearEntry("", [MinCharm, MinCharm, MinCharm])
  {
    map item | item in GearItems :: GearEntry("", [MinCharm, MinCharm, MinCharm])
  }

  /** buildDefaultState: the default gear, stamped with the current time. */
  function BuildDefaultState(now: string): (s: GearState)
    ensures s.updatedAt == now && GearValid(s.gear)
    ensures forall item :: item in s.gear ==> s.gear[item] == GearEntry("", [MinCharm, MinCharm, MinCharm])
  {
    GearState(now, BuildDefaultGear())
  }

  /** The level sanitizeState keeps: a stored string that names a gear level,
      otherwise unset. */
  function SanitizeLevel(level: Option<string>): (l: string)
    ensures l == "" || l in GearLevels
    ensures level.Some? && level.value in GearLevels ==> l == level.value
    ensures level.None? || level.value !in GearLevels ==> l == ""
  {
    if level.Some? && level.value in GearLevels then level.value else ""
  }

  function SanitizeEntry(raw: Option<RawEntry>): (e: GearEntry)
    ensures CharmsValid(e.charms)
    ensures raw.None? ==> e == GearEntry("", [MinCharm, MinCharm, MinCharm])
    ensures raw.Some? ==> e.level == SanitizeLevel(raw.value.level)
    ensures raw.Some? ==> e.charms == SanitizeCharms(raw.value.charms)
  {
    match raw
    case None => GearEntry("", SanitizeCharms(None))
    case Some(r) => GearEntry(SanitizeLevel(r.level), SanitizeCharms(r.charms))
  }

  /** sanitizeState: None stands for a stored value that is not an object. */
  function SanitizeState(input: Option<RawState>, now: string): (s: GearState)
    ensures GearValid(s.gear)
    ensures forall item :: item in s.gear ==> s.gear[item].level == "" || s.gear[item].level in GearLevels
    ensures input.None? ==> s == BuildDefaultState(now)
    ensures input.Some? ==> forall item :: item in s.gear ==>
      s.gear[item] == SanitizeEntry(if item in input.value.gear then Some(input.value.gear[item]) else None)
    ensures input.Some? ==> s.updatedAt == if input.value.updatedAt != "" then input.value.updatedAt else now
  {
    match input
    case None => BuildDefaultState(now)
    case Some(raw) =>
      var gear := map item | item in GearItems ::
        SanitizeEntry(if item in raw.gear then Some(raw.gear[item]) else None);
      GearState(if raw.updatedAt != "" then raw.updatedAt else now, gear)
  }

  /** An item missing from the stored object gets the defaults. */
  lemma SanitizeStateMissingItem(input: RawState, now: string, item: string)
    requires item in GearItems && item !in input.gear
    ensures SanitizeState(Some(input), now).gear[item] == GearEntry("", [MinCharm, MinCharm, MinCharm])
  {
  }

  /** A state read back as the object it is saved as. */
  function AsRawState(s: GearState): RawState {
    RawState(s.updatedAt, map item | item in s.gear :: StoredEntry(s.gear[item]))
  }

  /** Saving a sanitised state and loading it again gives the same state. */
  lemma SanitizeStateIdempotent(input: Option<RawState>, now: string)
    ensures var s := SanitizeState(input, now);
      s.updatedAt != "" ==> SanitizeState(Some(AsRawState(s)), now) == s
  {
    var s := SanitizeState(input, now);
    if s.updatedAt != "" {
      SanitizeStateOfValid(s, now);
    }
  }

  /** A state with the six items, valid charms and known or unset levels is
      loaded back unchanged. */
  lemma SanitizeStateOfValid(s: GearState, now: string)
    requires GearValid(s.gear) && s.updatedAt != ""
    requires forall item :: item in s.gear ==> s.gear[item].level == "" || s.gear[item].level in GearLevels
    ensures SanitizeState(Some(AsRawState(s)), now) == s
  {
    var raw := AsRawState(s);
    var t := SanitizeState(Some(raw), now);
    assert raw.updatedAt == s.updatedAt && raw.gear.Keys == s.gear.Keys;
    assert forall item :: item in raw.gear ==> raw.gear[item] == StoredEntry(s.gear[item]);
    GearOfValid(s.gear, t.gear);
  }

  /** One item as the object it is saved as. */
  function StoredEntry(e: GearEntry): RawEntry {
    RawEntry(Some(e.level), Some(AsStored(e.charms)))
  }

  /** Sanitising each entry of a valid gear table gives the table back. */
  lemma GearOfValid(gear: map<string, GearEntry>, t: map<string, GearEntry>)
    requires t.Keys == gear.Keys
    requires forall item :: item in gear ==>
      CharmsValid(gear[item].charms) && (gear[item].level == "" || gear[item].level in GearLevels)
    requires forall item :: item in t ==> t[item] == SanitizeEntry(Some(StoredEntry(gear[item])))
    ensures t == gear
  {
    forall item | item in gear
      ensures t[item] == gear[item]
    {
      SanitizeEntryOfValid(gear[item]);
    }
  }

  /** A valid entry survives sanitising unchanged. */
  lemma SanitizeEntryOfValid(e: GearEntry)
    requires CharmsValid(e.charms) && (e.level == "" || e.level in GearLevels)
    ensures SanitizeEntry(Some(StoredEntry(e))) == e
  {
    UnsetIsNotALevel();
    SanitizeCharmsOfValid(e.charms);
  }

  // ---------------------------------------------------------------------
  // Edits
  // ---------------------------------------------------------------------

  /** updateGearLevel: the item's level becomes the value as given (it is
      not checked against the named levels); its charms stay. */
  function SetGearLevel(gear: map<string, GearEntry>, gearName: string, value: string)
    : (r: map<string, GearEntry>)
    requires gearName in gear
    ensures r.Keys == gear.Keys
    ensures r[gearName] == GearEntry(value, gear[gearName].charms)
    ensures forall item :: item in gear && item != gearName ==> r[item] == gear[item]
  {
    gear[gearName := gear[gearName].(level := value)]
  }

  /** The charm array with entry `index` replaced by `Number(value)`; an
      index outside the array replaces nothing. */
  function ReplaceCharm(charms: seq<real>, index: int, numeric: Option<real>): (next: seq<Option<real>>)
    ensures |next| == |charms|
    ensures forall i :: 0 <= i < |charms| ==> next[i] == if i == index then numeric else Some(charms[i])
  {
    seq(|charms|, i requires 0 <= i < |charms| => if i == index then numeric else Some(charms[i]))
  }

  /** updateCharmLevel: the index-th charm of that item takes the new
      value, clamped; the item's level, its other charms and the other items
      stay. */
  function SetCharmLevel(gear: map<string, GearEntry>, gearName: string, index: int, numeric: Option<real>)
    : (r: map<string, GearEntry>)
    requires gearName in gear
    ensures r.Keys == gear.Keys
    ensures r[gearName].level == gear[gearName].level
    ensures CharmsValid(r[gearName].charms)
    ensures forall item :: item in gear && item != gearName ==> r[item] == gear[item]
  {
    gear[gearName := gear[gearName].(charms := SanitizeCharms(Some(ReplaceCharm(gear[gearName].charms, index, numeric))))]
  }

  /** On valid charms, the charm edit changes exactly the addressed charm,
      to the clamped value. */
  lemma SetCharmLevelChangesOneCharm(gear: map<string, GearEntry>, gearName: string, index: int,
                                     numeric: Option<real>)
    requires gearName in gear && CharmsValid(gear[gearName].charms)
    ensures var c := SetCharmLevel(gear, gearName, index, numeric)[gearName].charms;
      forall i :: 0 <= i < 3 ==>
        c[i] == if i == index then SanitizeCharm(numeric) else gear[gearName].charms[i]
  {
  }

  /** An index outside [0, 2] leaves valid charms unchanged. */
  lemma SetCharmLevelOutOfRange(gear: map<string, GearEntry>, gearName: string, index: int,
                                numeric: Option<real>)
    requires gearName in gear && CharmsValid(gear[gearName].charms)
    requires index < 0 || index >= 3
    ensures SetCharmLevel(gear, gearName, index, numeric) == gear
  {
    var c := SetCharmLevel(gear, gearName, index, numeric)[gearName].charms;
    assert c == gear[gearName].charms;
  }

  /** Both edits keep the six items and valid charms. */
  lemma EditsKeepGearValid(gear: map<string, GearEntry>, gearName: string, index: int, numeric: Option<real>,
                           value: string)
    requires GearValid(gear) && gearName in gear
    ensures GearValid(SetGearLevel(gear, gearName, value))
    ensures GearValid(SetCharmLevel(gear, gearName, index, numeric))
  {
  }

  /** The gear page's state. */
  class GearTracker {
    var updatedAt: string
    var gear: map<string, GearEntry>

    predicate Valid()
      reads this
    {
      GearValid(gear)
    }

    /** loadState: whatever was stored, sanitised. */
    constructor (stored: Option<RawState>, now: string)
      ensures GearState(updatedAt, gear) == SanitizeState(stored, now)
      ensures Valid()
    {
      var s := SanitizeState(stored, now);
      updatedAt := s.updatedAt;
      gear := s.gear;
    }

    method UpdateGearLevel(gearName: string, value: string, now: string)
      requires Valid() && gearName in gear
      modifies this
      ensures Valid()
      ensures gear == SetGearLevel(old(gear), gearName, value) && updatedAt == now
    {
      EditsKeepGearValid(gear, gearName, 0, None, value);
      gear := gear[gearName := gear[gearName].(level := value)];
      updatedAt := now;
    }

    /** `numeric` is `Number(value)` of the chosen option, None when not finite. */
    method UpdateCharmLevel(gearName: string, index: int, numeric: Option<real>, now: string)
      requires Valid() && gearName in gear
      modifies this
      ensures Valid()
      ensures gear == SetCharmLevel(old(gear), gearName, index, numeric) && updatedAt == now
    {
      EditsKeepGearValid(gear, gearName, index, numeric, "");
      var next := ReplaceCharm(gear[gearName].charms, index, numeric);
      gear := gear[gearName := gear[gearName].(charms := SanitizeCharms(Some(next)))];
      updatedAt := now;
    }

    /** The reset button: back to the defaults, saved now. */
    method Reset(now: string)
      modifies this
      ensures Valid()
      ensures gear == BuildDefaultGear() && updatedAt == now
    {
      gear := BuildDefaultGear();
      updatedAt := now;
    }
  }
}
