/** The pets page: every pet of the game with its unlock flag, level,
    ability level and six refinement tiers. Levels are capped by rarity and
    the ability level by the pet's level; the sanitiser and the single-field
    editor both keep those caps. */
module Pets {
  import opened Wrappers
  import opened Strings
  import opened Seqs

  // ---------------------------------------------------------------------
  // Constants: the built-in pets and the rarity and refinement tables
  // ---------------------------------------------------------------------

  datatype DefaultPet = DefaultPet(name: string, rarity: string)

  const DefaultPets: seq<DefaultPet> := [
    DefaultPet("Gray Wolf", "common"),
    DefaultPet("Lynx", "uncommon"),
    DefaultPet("Bison", "uncommon"),
    DefaultPet("Cheetah", "rare"),
    DefaultPet("Moose", "rare"),
    DefaultPet("Lion", "epic"),
    DefaultPet("Grizzly Bear", "epic"),
    DefaultPet("Giant Rhino", "mythical"),
    DefaultPet("Mighty Bison", "mythical"),
    DefaultPet("Great Moose", "mythical"),
    DefaultPet("Alpha Black Panther", "mythical")
  ]

  /** The rarity of each built-in pet, keyed by its name. */
  const RarityByName: map<string, string> := map[
    "Gray Wolf" := "common",
    "Lynx" := "uncommon",
    "Bison" := "uncommon",
    "Cheetah" := "rare",
    "Moose" := "rare",
    "Lion" := "epic",
    "Grizzly Bear" := "epic",
    "Giant Rhino" := "mythical",
    "Mighty Bison" := "mythical",
    "Great Moose" := "mythical",
    "Alpha Black Panther" := "mythical"
  ]

  const RarityMaxLevel: map<string, nat> := map[
    "common" := 50, "uncommon" := 60, "rare" := 70, "epic" := 80, "mythical" := 100
  ]

  /** The refinement tiers a refinement field may hold. */
  const Tiers: seq<string> := ["common", "uncommon", "rare", "epic", "mythical"]

  /** The six refinement fields every pet carries. */
  const RefinementKeys: seq<string> := [
    "infantryLethality", "infantryHealth", "cavalryLethality",
    "cavalryHealth", "archerLethality", "archerHealth"
  ]

  /** The name table is the default list read as a map, and every name and
      rarity in it is already trimmed and (for rarities) lower-case. */
  lemma DefaultPetFacts(i: nat)
    requires i < |DefaultPets|
    ensures DefaultPets[i].name in RarityByName
    ensures RarityByName[DefaultPets[i].name] == DefaultPets[i].rarity
    ensures IsTrimmed(DefaultPets[i].name) && |DefaultPets[i].name| <= 60
    ensures DefaultPets[i].rarity in Tiers
  {
    DefaultPetTable(i);
    DefaultPetShape(i);
  }

  lemma DefaultPetTable(i: nat)
    requires i < |DefaultPets|
    ensures DefaultPets[i].name in RarityByName
    ensures RarityByName[DefaultPets[i].name] == DefaultPets[i].rarity
  {
  }

  lemma DefaultPetShape(i: nat)
    requires i < |DefaultPets|
    ensures IsTrimmed(DefaultPets[i].name) && |DefaultPets[i].name| <= 60
    ensures DefaultPets[i].rarity in Tiers
  {
  }

  /** The table facts for a pet that carries a built-in name and rarity. */
  lemma KnownDefault(d: Pet, i: nat)
    requires i < |DefaultPets|
    requires d.name == DefaultPets[i].name && d.rarity == DefaultPets[i].rarity
    ensures IsTrimmed(d.name) && |d.name| <= 60
    ensures d.name in RarityByName && d.rarity == RarityByName[d.name]
  {
    DefaultPetFacts(i);
  }

  lemma TierFacts(t: string)
    requires t in Tiers
    ensures t in RarityMaxLevel && IsLowerCase(t) && IsTrimmed(t) && t != ""
  {
  }

  // ---------------------------------------------------------------------
  // Level caps
  // ---------------------------------------------------------------------

  /** maxLevelForRarity: a missing rarity counts as common; the lookup
      ignores case and an unknown rarity is capped at 50. */
  function MaxLevelForRarity(rarity: string): (m: nat)
    ensures m == 50 || m == 60 || m == 70 || m == 80 || m == 100
    ensures Lower(rarity) in RarityMaxLevel ==> m == RarityMaxLevel[Lower(rarity)]
    ensures Lower(rarity) !in RarityMaxLevel ==> m == 50
  {
    var key := Lower(if rarity == "" then "common" else rarity);
    assert rarity == "" ==> key == "common";
    if key in RarityMaxLevel then RarityMaxLevel[key] else 50
  }

  /** Two rarities that differ only in letter case share a cap. */
  lemma MaxLevelCaseInsensitive(a: string, b: string)
    requires Lower(a) == Lower(b)
    ensures MaxLevelForRarity(a) == MaxLevelForRarity(b)
  {
  }

  lemma MaxLevelBounds(rarity: string)
    ensures 50 <= MaxLevelForRarity(rarity) <= 100
  {
  }

  /** maxAbilityForLevel: one ability level per ten pet levels. */
  function MaxAbilityForLevel(level: int): (a: nat)
    ensures level < 10 ==> a == 0
    ensures level >= 0 ==> 10 * a <= level < 10 * a + 10
  {
    if level / 10 < 0 then 0 else level / 10
  }

  /** A higher level never lowers the ability cap. */
  lemma {:induction false} MaxAbilityMonotone(m: int, n: int)
    requires m <= n
    ensures MaxAbilityForLevel(m) <= MaxAbilityForLevel(n)
  {
  }

  /** sanitizeTier: a known tier in any letter case, otherwise common. */
  function SanitizeTier(value: string): (t: string)
    ensures t in Tiers
    ensures Lower(value) in Tiers ==> t == Lower(value)
    ensures Lower(value) !in Tiers ==> t == "common"
  {
    var normalized := Lower(if value == "" then "common" else value);
    assert value == "" ==> normalized == "common";
    if normalized in Tiers then normalized else "common"
  }

  lemma SanitizeTierIdempotent(value: string)
    ensures SanitizeTier(SanitizeTier(value)) == SanitizeTier(value)
  {
    var t := SanitizeTier(value);
    TierFacts(t);
    LowerOfLowerCase(t);
  }

  // ---------------------------------------------------------------------
  // Pets and their sanitiser
  // ---------------------------------------------------------------------

  datatype Pet = Pet(id: string, name: string, rarity: string, unlocked: bool, level: int,
                     abilityLevel: int, refinement: map<string, string>, updatedAt: string)

  /** A stored pet as it arrives from storage or an import, after JavaScript's
      coercions: `level` and `abilityLevel` are `Number(...)` (None when not
      finite), a missing text field is "", a missing refinement key is absent. */
  datatype RawPet = RawPet(id: string, name: string, rarity: string, unlocked: bool,
                           level: Option<real>, abilityLevel: Option<real>,
                           refinement: map<string, string>, updatedAt: string)

  /** The invariant the page keeps for every pet of its roster. */
  predicate PetValid(p: Pet) {
    && |p.name| <= 60
    && IsLowerCase(p.rarity) && IsTrimmed(p.rarity)
    && 1 <= p.level <= MaxLevelForRarity(p.rarity)
    && 0 <= p.abilityLevel <= MaxAbilityForLevel(p.level)
    && p.refinement.Keys == set k | k in RefinementKeys
    && forall k :: k in p.refinement ==> p.refinement[k] in Tiers
  }

  function ClampInt(x: int, lo: int, hi: int): (r: int)
    requires lo <= hi
    ensures lo <= r <= hi
    ensures lo <= x <= hi ==> r == x
    ensures x < lo ==> r == lo
    ensures hi < x ==> r == hi
  {
    if x < lo then lo else if hi < x then hi else x
  }

  /** The source of a pet's rarity: the built-in table for a known name,
      otherwise the stored rarity, otherwise common. */
  function RaritySource(name: string, stored: string): string {
    if name in RarityByName then RarityByName[name]
    else if stored != "" then stored
    else "common"
  }

  /** The six refinement fields of a stored pet, each made a known tier. */
  function SanitizeRefinement(input: map<string, string>): (r: map<string, string>)
    ensures r.Keys == set k | k in RefinementKeys
    ensures forall k :: k in r ==> r[k] in Tiers
    ensures forall k :: k in r ==> r[k] == SanitizeTier(if k in input then input[k] else "")
  {
    map k | k in RefinementKeys :: SanitizeTier(if k in input then input[k] else "")
  }

  /** A refinement that already holds the six fields, each a known tier, is
      left as it is. */
  lemma SanitizeRefinementOfValid(m: map<string, string>)
    requires m.Keys == set k | k in RefinementKeys
    requires forall k :: k in m ==> m[k] in Tiers
    ensures SanitizeRefinement(m) == m
  {
    forall k | k in m
      ensures SanitizeTier(m[k]) == m[k]
    {
      TierFacts(m[k]);
      LowerOfLowerCase(m[k]);
    }
  }

  /** The name sanitizePet keeps: trimmed, then cut to 60 characters. */
  function SanitizeName(name: string): (r: string)
    ensures |r| <= 60
    ensures |Trim(name)| <= 60 ==> r == Trim(name)
    ensures |Trim(name)| > 60 ==> r == Trim(name)[..60]
  {
    Take(Trim(name), 60)
  }

  /** The rarity sanitizePet keeps for a pet of this (sanitised) name:
      the built-in table's for a known name, otherwise the stored one,
      otherwise common; trimmed and lower-cased. */
  function SanitizeRarity(name: string, stored: string): (r: string)
    ensures IsLowerCase(r) && IsTrimmed(r)
    ensures name in RarityByName ==> r == RarityByName[name]
    ensures name !in RarityByName && stored != "" ==> r == Lower(Trim(stored))
    ensures name !in RarityByName && stored == "" ==> r == "common"
  {
    var source := Trim(RaritySource(name, stored));
    LowerIsLowerCase(source);
    LowerKeepsTrimmed(source);
    if name in RarityByName then
      var t := RarityByName[name];
      assert t in Tiers;
      TierFacts(t);
      TrimOfTrimmed(t);
      LowerOfLowerCase(t);
      Lower(source)
    else if stored == "" then
      TrimOfTrimmed("common");
      LowerOfLowerCase("common");
      Lower(source)
    else
      Lower(source)
  }

  /** sanitizePet: the name is trimmed and cut to 60 characters, the level is
      clamped to the rarity's cap, the ability level to the level's cap, and a
      missing timestamp becomes `now`. */
  function SanitizePet(raw: RawPet, now: string): (p: Pet)
    ensures PetValid(p)
    ensures p.id == raw.id && p.unlocked == raw.unlocked
    ensures |Trim(raw.name)| <= 60 ==> p.name == Trim(raw.name)
    ensures |Trim(raw.name)| > 60 ==> p.name == Trim(raw.name)[..60]
    ensures p.name in RarityByName ==> p.rarity == RarityByName[p.name]
    ensures p.name !in RarityByName && raw.rarity != "" ==> p.rarity == Lower(Trim(raw.rarity))
    ensures p.name !in RarityByName && raw.rarity == "" ==> p.rarity == "common"
    ensures raw.level.None? ==> p.level == 1
    ensures (raw.level.Some? && 1 <= raw.level.value.Floor <= MaxLevelForRarity(p.rarity))
              ==> p.level == raw.level.value.Floor
    ensures raw.abilityLevel.None? ==> p.abilityLevel == 0
    ensures (raw.abilityLevel.Some? && 0 <= raw.abilityLevel.value.Floor <= MaxAbilityForLevel(p.level))
              ==> p.abilityLevel == raw.abilityLevel.value.Floor
    ensures (p.level, p.abilityLevel) == CapLevels(raw.level, raw.abilityLevel, MaxLevelForRarity(p.rarity))
    ensures p.refinement == SanitizeRefinement(raw.refinement)
    ensures p.updatedAt == (if raw.updatedAt != "" then raw.updatedAt else now)
  {
    var name := SanitizeName(raw.name);
    SanitizePetWith(raw, now, name, SanitizeRarity(name, raw.rarity))
  }

  /** The level and ability level sanitizePet keeps: each number is
      floored and clamped, the level to [1, maxLevel] and the ability level to
      [0, the new level's ability cap]; a missing number becomes the lower
      bound. */
  function CapLevels(level: Option<real>, ability: Option<real>, maxLevel: nat): (r: (int, int))
    requires 1 <= maxLevel
    ensures 1 <= r.0 <= maxLevel && 0 <= r.1 <= MaxAbilityForLevel(r.0)
    ensures level.None? ==> r.0 == 1
    ensures level.Some? ==> r.0 == ClampInt(level.value.Floor, 1, maxLevel)
    ensures ability.None? ==> r.1 == 0
    ensures ability.Some? ==> r.1 == ClampInt(ability.value.Floor, 0, MaxAbilityForLevel(r.0))
  {
    var l := if level.Some? then ClampInt(level.value.Floor, 1, maxLevel) else 1;
    var a := if ability.Some? then ClampInt(ability.value.Floor, 0, MaxAbilityForLevel(l)) else 0;
    (l, a)
  }

  /** The rest of sanitizePet, once name and rarity are settled. */
  function SanitizePetWith(raw: RawPet, now: string, name: string, rarity: string): (p: Pet)
    requires |name| <= 60 && IsLowerCase(rarity) && IsTrimmed(rarity)
    ensures PetValid(p)
    ensures p.id == raw.id && p.unlocked == raw.unlocked && p.name == name && p.rarity == rarity
    ensures (p.level, p.abilityLevel) == CapLevels(raw.level, raw.abilityLevel, MaxLevelForRarity(rarity))
    ensures p.refinement == SanitizeRefinement(raw.refinement)
    ensures p.updatedAt == (if raw.updatedAt != "" then raw.updatedAt else now)
  {
    MaxLevelBounds(rarity);
    var levels := CapLevels(raw.level, raw.abilityLevel, MaxLevelForRarity(rarity));
    Pet(raw.id, name, rarity, raw.unlocked, levels.0, levels.1, SanitizeRefinement(raw.refinement),
        if raw.updatedAt != "" then raw.updatedAt else now)
  }

  /** A pet read back as the stored object it was saved as. */
  function AsRaw(p: Pet): RawPet {
    RawPet(p.id, p.name, p.rarity, p.unlocked, Some(p.level as real), Some(p.abilityLevel as real),
           p.refinement, p.updatedAt)
  }

  /** Saving a valid pet and loading it again gives the same pet, as long
      as its name survives trimming and its rarity agrees with the name table
      (or, for a name outside the table, is not empty). */
  lemma SanitizePetStable(p: Pet, now: string)
    requires PetValid(p) && IsTrimmed(p.name) && p.updatedAt != ""
    requires p.name in RarityByName ==> p.rarity == RarityByName[p.name]
    requires p.name !in RarityByName ==> p.rarity != ""
    ensures SanitizePet(AsRaw(p), now) == p
  {
    StableName(p, now);
    StableRarity(p, now);
    StableLevels(p, now);
    StableRefinement(p, now);
  }

  lemma StableName(p: Pet, now: string)
    requires IsTrimmed(p.name) && |p.name| <= 60
    ensures SanitizePet(AsRaw(p), now).name == p.name
  {
    TrimOfTrimmed(p.name);
  }

  lemma StableRarity(p: Pet, now: string)
    requires SanitizePet(AsRaw(p), now).name == p.name
    requires IsLowerCase(p.rarity) && IsTrimmed(p.rarity)
    requires p.name in RarityByName ==> p.rarity == RarityByName[p.name]
    requires p.name !in RarityByName ==> p.rarity != ""
    ensures SanitizePet(AsRaw(p), now).rarity == p.rarity
  {
    TrimOfTrimmed(p.rarity);
    LowerOfLowerCase(p.rarity);
  }

  lemma StableLevels(p: Pet, now: string)
    requires PetValid(p) && SanitizePet(AsRaw(p), now).rarity == p.rarity
    ensures SanitizePet(AsRaw(p), now).level == p.level
    ensures SanitizePet(AsRaw(p), now).abilityLevel == p.abilityLevel
  {
  }

  lemma StableRefinement(p: Pet, now: string)
    requires PetValid(p)
    ensures SanitizePet(AsRaw(p), now).refinement == p.refinement
  {
    SanitizeRefinementOfValid(p.refinement);
  }

  // ---------------------------------------------------------------------
  // The default roster and the merge with saved data
  // ---------------------------------------------------------------------

  function DefaultId(index: nat): string {
    "pet-" + NatToString(index + 1)
  }

  function DefaultRefinement(): map<string, string> {
    map k | k in RefinementKeys :: "common"
  }

  function DefaultRaw(index: nat, now: string): RawPet
    requires index < |DefaultPets|
  {
    RawPet(DefaultId(index), DefaultPets[index].name, DefaultPets[index].rarity, false,
           Some(1.0), Some(0.0), DefaultRefinement(), now)
  }

  /** What sanitizePet makes of a built-in pet's initial record. */
  lemma DefaultPetSanitized(index: nat, now: string)
    requires index < |DefaultPets|
    ensures var p := SanitizePet(DefaultRaw(index, now), now);
      && p.id == DefaultId(index) && p.name == DefaultPets[index].name
      && p.rarity == DefaultPets[index].rarity && !p.unlocked
      && p.level == 1 && p.abilityLevel == 0
      && p.updatedAt == now
  {
    DefaultPetName(index, now);
    DefaultPetRarity(index, now);
    DefaultPetLevels(index, now);
  }

  lemma DefaultPetName(index: nat, now: string)
    requires index < |DefaultPets|
    ensures SanitizePet(DefaultRaw(index, now), now).name == DefaultPets[index].name
  {
    DefaultPetFacts(index);
    TrimOfTrimmed(DefaultPets[index].name);
  }

  lemma DefaultPetRarity(index: nat, now: string)
    requires index < |DefaultPets|
    requires SanitizePet(DefaultRaw(index, now), now).name == DefaultPets[index].name
    ensures SanitizePet(DefaultRaw(index, now), now).rarity == DefaultPets[index].rarity
  {
    DefaultPetFacts(index);
  }

  lemma DefaultPetLevels(index: nat, now: string)
    requires index < |DefaultPets|
    ensures SanitizePet(DefaultRaw(index, now), now).level == 1
    ensures SanitizePet(DefaultRaw(index, now), now).abilityLevel == 0
  {
    MaxLevelBounds(SanitizePet(DefaultRaw(index, now), now).rarity);
  }

  lemma DefaultPetRefinement(index: nat, now: string)
    requires index < |DefaultPets|
    ensures SanitizePet(DefaultRaw(index, now), now).refinement == DefaultRefinement()
  {
    SanitizeRefinementOfValid(DefaultRefinement());
  }

  /** buildDefaultRoster: one fresh record per built-in pet, in order. */
  function BuildDefaultRoster(now: string): (r: seq<Pet>)
    ensures |r| == |DefaultPets|
    ensures forall i :: 0 <= i < |r| ==> r[i] == SanitizePet(DefaultRaw(i, now), now)
  {
    seq(|DefaultPets|, i requires 0 <= i < |DefaultPets| => SanitizePet(DefaultRaw(i, now), now))
  }

  /** The default roster is valid and each entry starts locked at level 1. */
  lemma BuildDefaultRosterFacts(now: string)
    ensures var r := BuildDefaultRoster(now);
      forall i :: 0 <= i < |r| ==>
        && PetValid(r[i]) && r[i].id == DefaultId(i) && r[i].name == DefaultPets[i].name
        && r[i].rarity == DefaultPets[i].rarity && !r[i].unlocked
        && r[i].level == 1 && r[i].abilityLevel == 0
  {
    forall i | 0 <= i < |DefaultPets|
      ensures var p := SanitizePet(DefaultRaw(i, now), now);
        p.id == DefaultId(i) && p.name == DefaultPets[i].name && p.rarity == DefaultPets[i].rarity
        && !p.unlocked && p.level == 1 && p.abilityLevel == 0
    {
      DefaultPetSanitized(i, now);
    }
  }

  /** The saved record a built-in pet picks up: the last saved pet with its
      id, or failing that the last saved pet with its name. */
  function MatchSaved(saved: seq<Pet>, id: string, name: string): (m: Option<Pet>)
    ensures m.None? ==> forall p :: p in saved ==> p.id != id && p.name != name
    ensures m.Some? ==> m.value in saved
    ensures m.Some? ==> m.value.id == id || (m.value.name == name && forall p :: p in saved ==> p.id != id)
    ensures (exists i :: 0 <= i < |saved| && saved[i].id == id) ==>
      exists k :: 0 <= k < |saved| && m == Some(saved[k]) && saved[k].id == id &&
        forall j :: k < j < |saved| ==> saved[j].id != id
    ensures (forall p :: p in saved ==> p.id != id) && (exists i :: 0 <= i < |saved| && saved[i].name == name) ==>
      exists k :: 0 <= k < |saved| && m == Some(saved[k]) && saved[k].name == name &&
        forall j :: k < j < |saved| ==> saved[j].name != name
  {
    match FindLast(saved, (p: Pet) => p.id == id)
    case Some(k) => Some(saved[k])
    case None =>
      match FindLast(saved, (p: Pet) => p.name == name)
      case Some(k) => Some(saved[k])
      case None => None
  }

  /** A built-in pet overlaid with its saved record, keeping the built-in
      id and name. */
  function MergeRaw(d: Pet, m: Pet): RawPet {
    AsRaw(m).(id := d.id, name := d.name)
  }

  /** One built-in pet after the merge: itself when nothing was saved for
      it, otherwise the saved record sanitised under the built-in id and name. */
  function MergeOne(d: Pet, m: Option<Pet>, now: string): Pet {
    match m
    case None => d
    case Some(saved) => SanitizePet(MergeRaw(d, saved), now)
  }

  /** mergeWithDefaults: exactly the built-in pets, in their order, each
      merged with the saved record that matches it. */
  function MergeWithDefaults(saved: seq<Pet>, now: string): (r: seq<Pet>)
    ensures |r| == |DefaultPets|
    ensures forall i :: 0 <= i < |r| ==>
      var d := BuildDefaultRoster(now)[i];
      r[i] == MergeOne(d, MatchSaved(saved, d.id, d.name), now)
  {
    var defaults := BuildDefaultRoster(now);
    seq(|defaults|, i requires 0 <= i < |defaults| =>
      MergeOne(defaults[i], MatchSaved(saved, defaults[i].id, defaults[i].name), now))
  }

  lemma MergeOneName(d: Pet, m: Pet, now: string)
    requires IsTrimmed(d.name) && |d.name| <= 60
    ensures MergeOne(d, Some(m), now).name == d.name
  {
    TrimOfTrimmed(d.name);
  }

  lemma MergeOneRarity(d: Pet, m: Pet, now: string)
    requires MergeOne(d, Some(m), now).name == d.name && d.name in RarityByName
    ensures MergeOne(d, Some(m), now).rarity == RarityByName[d.name]
  {
  }

  lemma MergeOneLevels(d: Pet, m: Pet, now: string)
    requires PetValid(m) && MergeOne(d, Some(m), now).rarity == m.rarity
    ensures MergeOne(d, Some(m), now).level == m.level
    ensures MergeOne(d, Some(m), now).abilityLevel == m.abilityLevel
  {
  }

  lemma MergeOneRefinement(d: Pet, m: Pet, now: string)
    requires PetValid(m)
    ensures MergeOne(d, Some(m), now).refinement == m.refinement
  {
    SanitizeRefinementOfValid(m.refinement);
  }

  /** A merged entry is valid, keeps the built-in id, name and rarity, and
      takes its unlock flag from the saved match; a saved match that was
      itself valid for that rarity keeps its levels and refinements. */
  lemma MergeOneFacts(d: Pet, m: Pet, now: string)
    requires IsTrimmed(d.name) && |d.name| <= 60
    requires d.name in RarityByName && d.rarity == RarityByName[d.name]
    ensures var p := MergeOne(d, Some(m), now);
      && PetValid(p) && p.id == d.id && p.name == d.name && p.rarity == d.rarity
      && p.unlocked == m.unlocked
      && (PetValid(m) && m.rarity == d.rarity ==>
            p.level == m.level && p.abilityLevel == m.abilityLevel && p.refinement == m.refinement)
  {
    MergeOneName(d, m, now);
    MergeOneRarity(d, m, now);
    MergeOneKept(d, m, now);
  }

  lemma MergeOneKept(d: Pet, m: Pet, now: string)
    requires MergeOne(d, Some(m), now).rarity == d.rarity
    ensures var p := MergeOne(d, Some(m), now);
      PetValid(m) && m.rarity == d.rarity ==>
        p.level == m.level && p.abilityLevel == m.abilityLevel && p.refinement == m.refinement
  {
    if PetValid(m) && m.rarity == d.rarity {
      MergeOneLevels(d, m, now);
      MergeOneRefinement(d, m, now);
    }
  }

  /** The merged roster lists the built-in pets in order, each valid and
      under its built-in id, name and rarity. */
  lemma MergeWithDefaultsShape(saved: seq<Pet>, now: string, i: nat)
    requires i < |DefaultPets|
    ensures var p := MergeWithDefaults(saved, now)[i];
      && PetValid(p) && p.id == DefaultId(i) && p.name == DefaultPets[i].name
      && p.rarity == DefaultPets[i].rarity
  {
    DefaultPetSanitized(i, now);
    var d := BuildDefaultRoster(now)[i];
    KnownDefault(d, i);
    var m := MatchSaved(saved, d.id, d.name);
    if m.Some? {
      MergeOneFacts(d, m.value, now);
    }
  }

  /** A built-in pet with no saved record stays at its defaults. */
  lemma MergeWithDefaultsUnmatched(saved: seq<Pet>, now: string, i: nat)
    requires i < |DefaultPets|
    requires MatchSaved(saved, DefaultId(i), DefaultPets[i].name).None?
    ensures MergeWithDefaults(saved, now)[i] == BuildDefaultRoster(now)[i]
  {
    DefaultPetName(i, now);
  }

  /** A built-in pet with a saved record (matched by id, then by name) takes
      its unlock flag and, when that record was valid for the same rarity,
      its levels and refinements. */
  lemma MergeWithDefaultsKeepsSaved(saved: seq<Pet>, now: string, i: nat)
    requires i < |DefaultPets|
    requires MatchSaved(saved, DefaultId(i), DefaultPets[i].name).Some?
    ensures var p := MergeWithDefaults(saved, now)[i];
      var m := MatchSaved(saved, DefaultId(i), DefaultPets[i].name).value;
      && p.unlocked == m.unlocked
      && (PetValid(m) && m.rarity == DefaultPets[i].rarity ==>
            p.level == m.level && p.abilityLevel == m.abilityLevel && p.refinement == m.refinement)
  {
    var d := BuildDefaultRoster(now)[i];
    DefaultPetName(i, now);
    DefaultPetRarity(i, now);
    KnownDefault(d, i);
    MergeOneFacts(d, MatchSaved(saved, d.id, d.name).value, now);
  }

  // ---------------------------------------------------------------------
  // Search (the filter part of rosterForView)
  // ---------------------------------------------------------------------

  /** A pet matches a lower-cased query when the query is empty or occurs
      in its lower-cased name. */
  predicate MatchesQuery(p: Pet, q: string) {
    q == [] || Contains(Lower(p.name), q)
  }

  function RosterForView(roster: seq<Pet>, search: string): (r: seq<Pet>)
    ensures |r| <= |roster|
  {
    var q := Lower(Trim(search));
    Filter(roster, (p: Pet) => MatchesQuery(p, q))
  }

  /** The view shows exactly the pets whose name contains the search text,
      ignoring case and surrounding white space. */
  lemma RosterForViewMembership(roster: seq<Pet>, search: string, p: Pet)
    ensures p in RosterForView(roster, search)
        <==> p in roster && (Trim(search) == [] || Contains(Lower(p.name), Lower(Trim(search))))
  {
    FilterMembership(roster, (p: Pet) => MatchesQuery(p, Lower(Trim(search))), p);
  }

  /** An empty or blank search shows the whole roster. */
  lemma RosterForViewBlank(roster: seq<Pet>, search: string)
    requires Trim(search) == []
    ensures RosterForView(roster, search) == roster
  {
    FilterAll(roster, (p: Pet) => MatchesQuery(p, Lower(Trim(search))));
  }

  // ---------------------------------------------------------------------
  // Editing one field (updatePetField)
  // ---------------------------------------------------------------------

  /** A JavaScript number as `Number(value)` gives it. */
  datatype JsNumber = Finite(x: real) | NaN | Infinity | NegInfinity

  /** The value a table control hands to the editor: a checkbox's state, or a
      select's text together with `Number(text)`. */
  datatype FieldValue = Checked(on: bool) | Chosen(text: string, number: JsNumber)

  /** Boolean(value) */
  predicate Truthy(v: FieldValue) {
    match v
    case Checked(on) => on
    case Chosen(text, _) => text != ""
  }

  /** Number(value): a checkbox state is 1 or 0. */
  function NumberOf(v: FieldValue): JsNumber {
    match v
    case Checked(on) => Finite(if on then 1.0 else 0.0)
    case Chosen(_, number) => number
  }

  /** Number(value) || d: the falsy numbers, 0 and NaN, give way to `d`. */
  function NumberOr(v: FieldValue, d: real): (n: JsNumber)
    ensures !n.NaN?
    ensures NumberOf(v).NaN? || NumberOf(v) == Finite(0.0) ==> n == Finite(d)
    ensures !NumberOf(v).NaN? && NumberOf(v) != Finite(0.0) ==> n == NumberOf(v)
  {
    match NumberOf(v)
    case NaN => Finite(d)
    case Finite(x) => if x == 0.0 then Finite(d) else Finite(x)
    case Infinity => Infinity
    case NegInfinity => NegInfinity
  }

  /** Math.min(hi, Math.max(lo, Math.floor(n))) for a number that is not NaN:
      the infinities go to the nearer bound. */
  function FloorClamp(n: JsNumber, lo: int, hi: int): (r: int)
    requires lo <= hi && !n.NaN?
    ensures lo <= r <= hi
    ensures n.Finite? && lo <= n.x.Floor <= hi ==> r == n.x.Floor
    ensures n.Infinity? || (n.Finite? && hi < n.x.Floor) ==> r == hi
    ensures n.NegInfinity? || (n.Finite? && n.x.Floor < lo) ==> r == lo
  {
    match n
    case Finite(x) => ClampInt(x.Floor, lo, hi)
    case Infinity => hi
    case NegInfinity => lo
  }

  /** String(value), or "" when the value is falsy. */
  function TextOf(v: FieldValue): string {
    match v
    case Checked(on) => if on then "true" else ""
    case Chosen(text, _) => text
  }

  const RefinePrefix: string := "refine:"

  /** The pet after one edit, or None when the field names an unknown
      refinement (the page then leaves the pet and its timestamp alone).
      Any other unrecognised field only refreshes the timestamp. A level
      edit writes the chosen number floored and clamped to [1, the rarity's
      cap] (1 for a falsy one) and re-caps the ability; an ability edit
      writes it clamped to [0, the level's ability cap] (0 for a falsy one). */
  function EditPet(p: Pet, field: string, value: FieldValue, now: string): (r: Option<Pet>)
    ensures r.Some? ==> r.value.id == p.id && r.value.name == p.name && r.value.rarity == p.rarity
    ensures r.Some? ==> r.value.updatedAt == now
    ensures r.None? <==> RefinePrefix <= field && field[|RefinePrefix|..] !in RefinementKeys
    ensures field == "unlocked" ==> r == Some(p.(unlocked := Truthy(value), updatedAt := now))
    ensures field == "level" ==>
      && r.Some? && r.value.unlocked == p.unlocked && r.value.refinement == p.refinement
      && 1 <= r.value.level <= MaxLevelForRarity(p.rarity)
      && r.value.abilityLevel == Min(MaxAbilityForLevel(r.value.level), p.abilityLevel)
    ensures (field == "level" && NumberOf(value).Finite? && 1 <= NumberOf(value).x.Floor <= MaxLevelForRarity(p.rarity))
              ==> r.value.level == NumberOf(value).x.Floor
    ensures (field == "level" && (NumberOf(value).Infinity? ||
                                  (NumberOf(value).Finite? && NumberOf(value).x.Floor > MaxLevelForRarity(p.rarity))))
              ==> r.value.level == MaxLevelForRarity(p.rarity)
    ensures (field == "level" && (NumberOf(value).NaN? || NumberOf(value).NegInfinity? ||
                                  (NumberOf(value).Finite? && NumberOf(value).x.Floor < 1)))
              ==> r.value.level == 1
    ensures field == "abilityLevel" ==>
      && r.Some? && r.value.unlocked == p.unlocked
      && r.value.refinement == p.refinement && r.value.level == p.level
      && 0 <= r.value.abilityLevel <= MaxAbilityForLevel(p.level)
    ensures (field == "abilityLevel" && NumberOf(value).Finite? && 0 <= NumberOf(value).x.Floor <= MaxAbilityForLevel(p.level))
              ==> r.value.abilityLevel == NumberOf(value).x.Floor
    ensures (field == "abilityLevel" && (NumberOf(value).Infinity? ||
                                          (NumberOf(value).Finite? && NumberOf(value).x.Floor > MaxAbilityForLevel(p.level))))
              ==> r.value.abilityLevel == MaxAbilityForLevel(p.level)
    ensures (field == "abilityLevel" && (NumberOf(value).NaN? || NumberOf(value).NegInfinity? ||
                                          (NumberOf(value).Finite? && NumberOf(value).x.Floor < 0)))
              ==> r.value.abilityLevel == 0
    ensures field != "unlocked" && field != "level" && field != "abilityLevel" && !(RefinePrefix <= field) ==>
      r == Some(p.(updatedAt := now))
    ensures r.Some? && RefinePrefix <= field ==>
      && r.value.unlocked == p.unlocked
      && r.value.level == p.level && r.value.abilityLevel == p.abilityLevel
      && r.value.refinement == p.refinement[field[|RefinePrefix|..] := SanitizeTier(TextOf(value))]
  {
    if field == "unlocked" then
      assert field[0] != RefinePrefix[0];
      Some(p.(unlocked := Truthy(value), updatedAt := now))
    else if field == "level" then
      assert field[0] != RefinePrefix[0];
      var maxLevel := MaxLevelForRarity(p.rarity);
      var level := FloorClamp(NumberOr(value, 1.0), 1, maxLevel);
      var abilityMax := MaxAbilityForLevel(level);
      Some(p.(level := level, abilityLevel := Min(abilityMax, p.abilityLevel), updatedAt := now))
    else if field == "abilityLevel" then
      assert field[0] != RefinePrefix[0];
      var abilityMax := MaxAbilityForLevel(p.level);
      var abilityLevel := FloorClamp(NumberOr(value, 0.0), 0, abilityMax);
      Some(p.(abilityLevel := abilityLevel, updatedAt := now))
    else if RefinePrefix <= field then
      var key := field[|RefinePrefix|..];
      if key !in RefinementKeys then None
      else Some(p.(refinement := p.refinement[key := SanitizeTier(TextOf(value))], updatedAt := now))
    else
      Some(p.(updatedAt := now))
  }

  function Min(a: int, b: int): int { if a <= b then a else b }

  /** An edit keeps a valid pet valid: the caps hold after every change. */
  lemma EditPetKeepsValid(p: Pet, field: string, value: FieldValue, now: string)
    requires PetValid(p)
    requires EditPet(p, field, value, now).Some?
    ensures PetValid(EditPet(p, field, value, now).value)
  {
    if field == "level" {
      LevelEditKeepsValid(p, value, now);
    } else if field != "unlocked" && field != "abilityLevel" && RefinePrefix <= field {
      RefineEditKeepsValid(p, field, value, now);
    }
  }

  lemma LevelEditKeepsValid(p: Pet, value: FieldValue, now: string)
    requires PetValid(p)
    ensures PetValid(EditPet(p, "level", value, now).value)
  {
    assert 0 <= EditPet(p, "level", value, now).value.abilityLevel;
  }

  lemma RefineEditKeepsValid(p: Pet, field: string, value: FieldValue, now: string)
    requires PetValid(p) && RefinePrefix <= field
    requires field != "unlocked" && field != "level" && field != "abilityLevel"
    requires EditPet(p, field, value, now).Some?
    ensures PetValid(EditPet(p, field, value, now).value)
  {
    assert EditPet(p, field, value, now).value.refinement.Keys == p.refinement.Keys;
  }

  /** A level edit re-caps the ability level: an ability the new level still
      allows is kept, otherwise it drops to the new cap. */
  lemma LevelEditRecapsAbility(p: Pet, value: FieldValue, now: string)
    requires PetValid(p)
    ensures var q := EditPet(p, "level", value, now).value;
      && (p.abilityLevel <= MaxAbilityForLevel(q.level) ==> q.abilityLevel == p.abilityLevel)
      && (p.abilityLevel > MaxAbilityForLevel(q.level) ==> q.abilityLevel == MaxAbilityForLevel(q.level))
  {
  }

  /** A level edit with no usable number (empty, 0 or not a number) resets
      the level to 1; "Infinity" raises it to the rarity's cap. */
  lemma LevelEditWithoutNumber(p: Pet, now: string)
    requires PetValid(p)
    ensures EditPet(p, "level", Chosen("", Finite(0.0)), now).value.level == 1
    ensures EditPet(p, "level", Chosen("x", NaN), now).value.level == 1
    ensures EditPet(p, "level", Chosen("0", Finite(0.0)), now).value.abilityLevel == 0
    ensures EditPet(p, "level", Chosen("Infinity", Infinity), now).value.level == MaxLevelForRarity(p.rarity)
  {
  }

  /** The index of the first pet with this id (Array.prototype.find). */
  function FindPet(roster: seq<Pet>, id: string): (k: Option<nat>)
    ensures k.Some? ==> k.value < |roster| && roster[k.value].id == id
    ensures k.Some? ==> forall j :: 0 <= j < k.value ==> roster[j].id != id
    ensures k.None? ==> forall p :: p in roster ==> p.id != id
  {
    FindFirst(roster, (p: Pet) => p.id == id)
  }

  /** The roster after updatePetField, or None when nothing changes. */
  function RosterEdit(roster: seq<Pet>, id: string, field: string, value: FieldValue, now: string)
    : (r: Option<seq<Pet>>)
    ensures (forall p :: p in roster ==> p.id != id) ==> r.None?
    ensures r.Some? ==> |r.value| == |roster|
    ensures r.Some? ==> exists k ::
      && 0 <= k < |roster| && roster[k].id == id
      && (forall j :: 0 <= j < k ==> roster[j].id != id)
      && Some(r.value[k]) == EditPet(roster[k], field, value, now)
      && (forall j :: 0 <= j < |roster| && j != k ==> r.value[j] == roster[j])
    ensures r.None? <==> FindPet(roster, id).None? || EditPet(roster[FindPet(roster, id).value], field, value, now).None?
    ensures FindPet(roster, id).Some? && EditPet(roster[FindPet(roster, id).value], field, value, now).Some? ==>
      r == Some(roster[FindPet(roster, id).value := EditPet(roster[FindPet(roster, id).value], field, value, now).value])
  {
    match FindPet(roster, id)
    case None => None
    case Some(k) =>
      match EditPet(roster[k], field, value, now)
      case None => None
      case Some(p) => Some(roster[k := p])
  }

  /** An edit keeps every pet of a valid roster valid. */
  lemma RosterEditKeepsValid(roster: seq<Pet>, id: string, field: string, value: FieldValue, now: string)
    requires forall p :: p in roster ==> PetValid(p)
    requires RosterEdit(roster, id, field, value, now).Some?
    ensures forall p :: p in RosterEdit(roster, id, field, value, now).value ==> PetValid(p)
  {
    var k := FindPet(roster, id).value;
    EditPetKeepsValid(roster[k], field, value, now);
  }

  /** The pets page's state. */
  class PetRoster {
    var roster: seq<Pet>

    predicate Valid()
      reads this
    {
      forall p :: p in roster ==> PetValid(p)
    }

    /** The page starts from the built-in pets merged with what was saved. */
    constructor (saved: seq<Pet>, now: string)
      ensures roster == MergeWithDefaults(saved, now)
      ensures Valid()
    {
      var merged := MergeWithDefaults(saved, now);
      forall p | p in merged
        ensures PetValid(p)
      {
        var i :| 0 <= i < |merged| && merged[i] == p;
        MergeWithDefaultsShape(saved, now, i);
      }
      roster := merged;
    }

    /** updatePetField: the first pet with this id gets the edit in place;
        an unknown id or refinement key changes nothing. */
    method UpdatePetField(id: string, field: string, value: FieldValue, now: string)
      requires Valid()
      modifies this
      ensures Valid()
      ensures var r := RosterEdit(old(roster), id, field, value, now);
        if r.None? then unchanged(this) else roster == r.value
    {
      var found := FindPet(roster, id);
      if found.None? {
        return;
      }
      var k := found.value;
      var edited := EditPet(roster[k], field, value, now);
      if edited.None? {
        return;
      }
      RosterEditKeepsValid(roster, id, field, value, now);
      roster := roster[k := edited.value];
    }

    /** The reset button, once confirmed: the built-in pets at their
        defaults. */
    method Reset(now: string)
      modifies this
      ensures Valid()
      ensures roster == BuildDefaultRoster(now)
    {
      var defaults := BuildDefaultRoster(now);
      BuildDefaultRosterFacts(now);
      roster := defaults;
    }
  }
}
