/** The troops page: for each of the three troop types, how many troops the
    player holds at each level from 1 to 11. Counts are whole numbers that
    are never negative. */
module Troops {
  import opened Wrappers

  /** The three troop types, in the order the page lists them. The roster
      is keyed by the type's id. */
  datatype Kind = Infantry | Cavalry | Archers {
    function Id(): (id: string)
      ensures |id| > 0
    {
      match this
      case Infantry => "infantry"
      case Cavalry => "cavalry"
      case Archers => "archers"
    }
  }

  const TroopTypes: seq<Kind> := [Infantry, Cavalry, Archers]

  const AllKinds: set<Kind> := {Infantry, Cavalry, Archers}

  /** Different troop types have different ids, so a type id names at most
      one of them. */
  lemma IdInjective(a: Kind, b: Kind)
    ensures a.Id() == b.Id() <==> a == b
  {
    if a != b {
      assert a.Id()[0] != b.Id()[0];
    }
  }

  /** The troop type a type id names, if any. */
  function KindOf(typeId: string): (k: Option<Kind>)
    ensures k.Some? ==> k.value.Id() == typeId
    ensures k.None? ==> forall kind: Kind :: kind.Id() != typeId
  {
    if typeId == Infantry.Id() then Some(Infantry)
    else if typeId == Cavalry.Id() then Some(Cavalry)
    else if typeId == Archers.Id() then Some(Archers)
    else None
  }

  /** The levels from the highest down, as the page lists them. */
  const Levels: seq<int> := [11, 10, 9, 8, 7, 6, 5, 4, 3, 2, 1]

  /** The levels as a set: the keys of every troop's counts. */
  const LevelSet: set<int> := set l | l in Levels

  /** The page lists exactly the levels 1 to 11, each once, from the top. */
  lemma LevelsAreElevenDownToOne()
    ensures |Levels| == 11
    ensures forall i :: 0 <= i < |Levels| ==> Levels[i] == 11 - i
    ensures forall l :: l in Levels <==> 1 <= l <= 11
  {
    forall l | 1 <= l <= 11
      ensures l in Levels
    {
      assert Levels[11 - l] == l;
    }
  }

  /** One troop as stored: its type (whose id and label the stored object
      carries), its count at each level and when it last changed. */
  datatype Troop = Troop(kind: Kind, levels: map<int, int>, updatedAt: string)

  /** One stored troop: the stored count of each level it had, after
      `Number(...)` (None when not finite), and its `updatedAt` when that
      was a string. */
  datatype RawTroop = RawTroop(levels: map<int, Option<real>>, updatedAt: Option<string>)

  /** The count a stored or typed value stands for: its floor when it is a
      finite number that is not negative, otherwise 0. */
  function SanitizeCount(value: Option<real>): (n: int)
    ensures n >= 0
    ensures value.None? ==> n == 0
    ensures value.Some? && value.value < 0.0 ==> n == 0
    ensures value.Some? && value.value >= 0.0 ==> n as real <= value.value < n as real + 1.0
  {
    if value.Some? && value.value >= 0.0 then value.value.Floor else 0
  }

  /** A whole number that is not negative is its own count. */
  lemma SanitizeCountOfCount(n: int)
    requires n >= 0
    ensures SanitizeCount(Some(n as real)) == n
  {
  }

  /** Every level has a count and no count is negative. */
  predicate TroopValid(t: Troop) {
    && LevelSet <= t.levels.Keys
    && (forall l :: l in t.levels ==> t.levels[l] >= 0)
  }

  /** A roster with exactly the three troop types, each valid and filed
      under its own type. */
  predicate RosterValid(roster: map<Kind, Troop>) {
    && roster.Keys == AllKinds
    && forall k :: k in roster ==> TroopValid(roster[k]) && roster[k].kind == k
  }

  /** The counts of levels 1 to 11 from what was stored; any other level
      is dropped. */
  function SanitizeLevels(raw: map<int, Option<real>>): (levels: map<int, int>)
    ensures levels.Keys == LevelSet
    ensures forall l :: l in levels ==> levels[l] == SanitizeCount(if l in raw then raw[l] else None)
  {
    map l | l in Levels :: SanitizeCount(if l in raw then raw[l] else None)
  }

  /** One troop of the loaded roster: a type with nothing stored counts 0
      at every level and takes `now` as its timestamp. */
  function SanitizeTroop(k: Kind, data: Option<RawTroop>, now: string): (troop: Troop)
    ensures TroopValid(troop) && troop.kind == k
    ensures troop.levels.Keys == LevelSet
    ensures data.None? ==> forall l :: l in troop.levels ==> troop.levels[l] == 0
    ensures data.Some? ==> troop.levels == SanitizeLevels(data.value.levels)
    ensures troop.updatedAt == if data.Some? && data.value.updatedAt.Some? then data.value.updatedAt.value else now
  {
    match data
    case None => Troop(k, SanitizeLevels(map[]), now)
    case Some(d) => Troop(k, SanitizeLevels(d.levels), d.updatedAt.GetOr(now))
  }

  /** sanitizeRoster: the three known types only, each with levels 1 to 11
      only; a missing type or level counts 0 and extra keys are dropped.
      The stored value is an object keyed by type id (a value that is not
      an object has no entries). */
  function SanitizeRoster(input: map<string, RawTroop>, now: string): (roster: map<Kind, Troop>)
    ensures RosterValid(roster)
    ensures forall k :: k in roster ==> roster[k].levels.Keys == LevelSet
    ensures forall k :: k in roster ==>
      roster[k] == SanitizeTroop(k, if k.Id() in input then Some(input[k.Id()]) else None, now)
  {
    map k | k in AllKinds :: SanitizeTroop(k, if k.Id() in input then Some(input[k.Id()]) else None, now)
  }

  /** buildDefaultRoster: every type with every level at 0. */
  function BuildDefaultRoster(now: string): (roster: map<Kind, Troop>)
    ensures RosterValid(roster)
    ensures forall k :: k in roster ==>
      && roster[k].levels.Keys == LevelSet
      && (forall l :: l in roster[k].levels ==> roster[k].levels[l] == 0)
      && roster[k].updatedAt == now
  {
    SanitizeRoster(map[], now)
  }

  /** One troop read back as the object it is saved as. */
  function AsRawTroop(t: Troop): RawTroop {
    RawTroop(map l | l in t.levels :: Some(t.levels[l] as real), Some(t.updatedAt))
  }

  /** A roster read back as the object it is saved as, keyed by type id. */
  function AsRaw(roster: map<Kind, Troop>): (raw: map<string, RawTroop>)
    requires roster.Keys == AllKinds
    ensures forall k :: k in roster ==> k.Id() in raw && raw[k.Id()] == AsRawTroop(roster[k])
  {
    map[Infantry.Id() := AsRawTroop(roster[Infantry]),
        Cavalry.Id() := AsRawTroop(roster[Cavalry]),
        Archers.Id() := AsRawTroop(roster[Archers])]
  }

  /** Saving a sanitised troop and loading it again changes nothing. */
  lemma SanitizeTroopOfSanitized(t: Troop, now: string)
    requires TroopValid(t)
    requires t.levels.Keys == LevelSet
    ensures SanitizeTroop(t.kind, Some(AsRawTroop(t)), now) == t
  {
    var raw := AsRawTroop(t).levels;
    forall l | l in t.levels
      ensures SanitizeCount(raw[l]) == t.levels[l]
    {
      SanitizeCountOfCount(t.levels[l]);
    }
  }

  /** Reloading a saved valid roster gives back each of its troops. */
  lemma ReloadTroop(r: map<Kind, Troop>, k: Kind, now: string)
    requires RosterValid(r) && k in r
    requires r[k].levels.Keys == LevelSet
    ensures SanitizeRoster(AsRaw(r), now)[k] == r[k]
  {
    SanitizeTroopOfSanitized(r[k], now);
  }

  /** Saving a valid roster with exactly levels 1 to 11 and loading it
      again changes nothing. */
  lemma ReloadRoster(r: map<Kind, Troop>, now: string)
    requires RosterValid(r)
    requires forall k :: k in r ==> r[k].levels.Keys == LevelSet
    ensures SanitizeRoster(AsRaw(r), now) == r
  {
    var s := SanitizeRoster(AsRaw(r), now);
    forall k | k in r
      ensures s[k] == r[k]
    {
      ReloadTroop(r, k, now);
    }
  }

  /** Saving a sanitised roster and loading it again changes nothing. */
  lemma SanitizeRosterIdempotent(input: map<string, RawTroop>, now: string)
    ensures var r := SanitizeRoster(input, now); SanitizeRoster(AsRaw(r), now) == r
  {
    ReloadRoster(SanitizeRoster(input, now), now);
  }

  /** updateLevel: an unknown type id changes nothing; otherwise only that
      level's count (sanitised) and that troop's timestamp change. */
  function LevelUpdate(roster: map<Kind, Troop>, typeId: string, level: int, value: Option<real>, now: string)
    : (r: Option<map<Kind, Troop>>)
    requires RosterValid(roster)
    ensures r.None? <==> forall k: Kind :: k.Id() != typeId
    ensures r.Some? ==> r.value.Keys == roster.Keys
    ensures r.Some? ==> forall k :: k in roster && k.Id() != typeId ==> r.value[k] == roster[k]
    ensures r.Some? ==> forall k :: k in roster && k.Id() == typeId ==>
      var t := r.value[k];
      && t.kind == k && t.updatedAt == now
      && t.levels.Keys == roster[k].levels.Keys + {level}
      && t.levels[level] == SanitizeCount(value)
      && forall l :: l in roster[k].levels && l != level ==> t.levels[l] == roster[k].levels[l]
  {
    match KindOf(typeId)
    case None => None
    case Some(k) =>
      IdsDistinct();
      var troop := roster[k];
      Some(roster[k := troop.(levels := troop.levels[level := SanitizeCount(value)], updatedAt := now)])
  }

  lemma IdsDistinct()
    ensures forall a: Kind, b: Kind :: a.Id() == b.Id() ==> a == b
  {
    forall a: Kind, b: Kind | a.Id() == b.Id()
      ensures a == b
    {
      IdInjective(a, b);
    }
  }

  /** An update keeps the roster valid. */
  lemma LevelUpdateKeepsValid(roster: map<Kind, Troop>, typeId: string, level: int, value: Option<real>,
                              now: string)
    requires RosterValid(roster)
    ensures var r := LevelUpdate(roster, typeId, level, value, now); r.Some? ==> RosterValid(r.value)
  {
  }

  /** The troops page's state. */
  class TroopTracker {
    var roster: map<Kind, Troop>

    predicate Valid()
      reads this
    {
      RosterValid(roster)
    }

    /** loadRoster: the stored roster, sanitised. */
    constructor (stored: map<string, RawTroop>, now: string)
      ensures roster == SanitizeRoster(stored, now)
      ensures Valid()
    {
      roster := SanitizeRoster(stored, now);
    }

    method UpdateLevel(typeId: string, level: int, value: Option<real>, now: string)
      requires Valid()
      modifies this
      ensures Valid()
      ensures var r := LevelUpdate(old(roster), typeId, level, value, now);
        if r.None? then unchanged(this) else roster == r.value
    {
      var kind := KindOf(typeId);
      if kind.None? {
        return;
      }
      LevelUpdateKeepsValid(roster, typeId, level, value, now);
      var troop := roster[kind.value];
      roster := roster[kind.value := troop.(levels := troop.levels[level := SanitizeCount(value)], updatedAt := now)];
    }

    /** The reset button: every count back to 0. */
    method Reset(now: string)
      modifies this
      ensures Valid()
      ensures roster == BuildDefaultRoster(now)
    {
      roster := BuildDefaultRoster(now);
    }
  }
}
