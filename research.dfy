/** The research tracker page.

    Each research branch has a grid of stages: `tiers` rows of
    `stagesPerTier` checkboxes.  A stage may be completed only when the
    stage before it in its tier is completed and, beyond the first tier,
    when the last two stages of the previous tier are completed.
    `normalizeBranchProgress` projects any stored grid onto the grids that
    obey this rule; every update goes through it. */
module Research {
  import opened Wrappers
  import opened Strings
  import opened Seqs

  // ---------------------------------------------------------------------
  // The research catalog
  // ---------------------------------------------------------------------

  /** A branch; `tiers` is 0 when the branch uses its tree's default
      (`branch.tiers || tree.tiersDefault`). */
  datatype BranchSpec = BranchSpec(name: string, tiers: nat)

  datatype Tree = Tree(id: string, name: string, tiersDefault: nat, stagesPerTier: nat, branches: seq<BranchSpec>)

  const Growth: Tree := Tree("growth", "Growth", 7, 3, [
    BranchSpec("Tooling Up", 0), BranchSpec("Ward Expansion", 0), BranchSpec("Camp Expansion", 0),
    BranchSpec("Tool Enhancement", 0), BranchSpec("Bandaging", 0), BranchSpec("Trainer Tools", 0),
    BranchSpec("Command Tactics", 0)])

  const Economy: Tree := Tree("economy", "Economy", 6, 3, [
    BranchSpec("Bread Output", 0), BranchSpec("Wood Output", 0), BranchSpec("Food Foraging", 0),
    BranchSpec("Wood Gathering", 0), BranchSpec("Stone Output", 0), BranchSpec("Stone Gathering", 0),
    BranchSpec("Iron Output", 5), BranchSpec("Iron Mining", 5)])

  const Battle: Tree := Tree("battle", "Battle", 6, 6, [
    BranchSpec("Weapons Prep", 0), BranchSpec("Reprisal Tactics", 0), BranchSpec("Precision Targeting", 0),
    BranchSpec("Cavalry Charge", 0), BranchSpec("Defensive Formations", 0), BranchSpec("Picket Lines", 0),
    BranchSpec("Bulwark Formations", 0), BranchSpec("Special Defensive Training", 0),
    BranchSpec("Survival Techniques", 0), BranchSpec("Assault Techniques", 0),
    BranchSpec("Regimental Expansion", 0), BranchSpec("Close Combat", 0), BranchSpec("Targeted Sniping", 0),
    BranchSpec("Lance Upgrade", 0), BranchSpec("Shield Upgrade", 0), BranchSpec("Leathercraft", 0),
    BranchSpec("Fortified Mail", 0)])

  const ResearchTrees: seq<Tree> := [Growth, Economy, Battle]

  /** The bonus stats tracked per group. */
  const BonusStats: map<string, set<string>> := map[
    "growth" := {"researchSpeed", "constructionSpeed", "healingSpeed", "trainingSpeed",
                 "infirmaryCapacity", "trainingCapacity", "marchQueue"},
    "economy" := {"breadOutput", "woodOutput", "stoneOutput", "ironOutput",
                  "breadGathering", "woodGathering", "stoneGathering", "ironGathering"},
    "battle" := {"infantryAttack", "infantryDefense", "infantryLethality", "infantryHealth",
                 "cavalryAttack", "cavalryDefense", "cavalryLethality", "cavalryHealth",
                 "archerAttack", "archerDefense", "archerLethality", "archerHealth"}
  ]

  // ---------------------------------------------------------------------
  // slugify and branch ids
  // ---------------------------------------------------------------------

  predicate NoDoubleDash(s: string)
  {
    forall i :: 0 <= i < |s| - 1 ==> !(s[i] == '-' && s[i + 1] == '-')
  }

  /** A slug: lower-case letters, digits and single dashes between them. */
  predicate IsSlug(s: string)
  {
    && (forall i :: 0 <= i < |s| ==> IsLowerAlnum(s[i]) || s[i] == '-')
    && NoDoubleDash(s)
    && (s == [] || (s[0] != '-' && s[|s| - 1] != '-'))
  }

  /** Drops a leading run of characters outside [a-z0-9]. */
  function DropRun(s: string): (r: string)
    ensures |r| <= |s|
    ensures r == [] || IsLowerAlnum(r[0])
  {
    if s != [] && !IsLowerAlnum(s[0]) then DropRun(s[1..]) else s
  }

  /** `replace(/[^a-z0-9]+/g, "-")`: every maximal run of other characters
      becomes one dash. */
  function CollapseRuns(s: string): (r: string)
    ensures forall i :: 0 <= i < |r| ==> IsLowerAlnum(r[i]) || r[i] == '-'
    ensures NoDoubleDash(r)
    ensures r == [] <==> s == []
    ensures s != [] && IsLowerAlnum(s[0]) ==> r[0] == s[0]
    decreases |s|
  {
    if s == [] then []
    else if IsLowerAlnum(s[0]) then [s[0]] + CollapseRuns(s[1..])
    else "-" + CollapseRuns(DropRun(s[1..]))
  }

  /** `replace(/(^-|-$)/g, "")`: one dash off each end. */
  function StripDashes(s: string): (r: string)
  {
    var a := if |s| > 0 && s[0] == '-' then s[1..] else s;
    if |a| > 0 && a[|a| - 1] == '-' then a[..|a| - 1] else a
  }

  function Slugify(value: string): (r: string)
    ensures IsSlug(r)
  {
    var c := CollapseRuns(Lower(value));
    var r := StripDashes(c);
    assert c != [] && c[0] == '-' && |c| > 1 ==> c[1] != '-';
    r
  }

  lemma {:induction false} CollapseOfSlugChars(s: string)
    requires forall i :: 0 <= i < |s| ==> IsLowerAlnum(s[i]) || s[i] == '-'
    requires NoDoubleDash(s)
    requires s == [] || s[|s| - 1] != '-'
    ensures CollapseRuns(s) == s
    decreases |s|
  {
    if s != [] {
      if IsLowerAlnum(s[0]) {
        CollapseOfSlugChars(s[1..]);
      } else {
        assert |s| > 1 && IsLowerAlnum(s[1]);
        assert DropRun(s[1..]) == s[1..];
        CollapseOfSlugChars(s[1..]);
      }
    }
  }

  /** A slug is its own slug, so slugify is idempotent. */
  lemma SlugifyOfSlug(s: string)
    requires IsSlug(s)
    ensures Slugify(s) == s
  {
    LowerOfLowerCase(s);
    CollapseOfSlugChars(s);
  }

  lemma SlugifyIdempotent(value: string)
    ensures Slugify(Slugify(value)) == Slugify(value)
  {
    SlugifyOfSlug(Slugify(value));
  }

  function BuildBranchId(treeId: string, branchName: string): (id: string)
    ensures |id| == |treeId| + 1 + |Slugify(branchName)|
    ensures id[..|treeId| + 1] == treeId + ":"
    ensures id[|treeId| + 1..] == Slugify(branchName)
  {
    treeId + ":" + Slugify(branchName)
  }

  /** `RESEARCH_TREES.find((t) => branchId.startsWith(t.id + ":"))`. */
  function FindTreeIn(trees: seq<Tree>, branchId: string): (r: Option<Tree>)
    ensures r.Some? ==> r.value in trees && r.value.id + ":" <= branchId
    ensures r.None? ==> forall t :: t in trees ==> !(t.id + ":" <= branchId)
  {
    if trees == [] then None
    else if trees[0].id + ":" <= branchId then Some(trees[0])
    else FindTreeIn(trees[1..], branchId)
  }

  function FindTree(branchId: string): Option<Tree>
  {
    FindTreeIn(ResearchTrees, branchId)
  }

  /** Every id built from a tree of the catalog leads back to that tree. */
  lemma FindTreeOfBranchId(k: nat, branchName: string)
    requires k < |ResearchTrees|
    ensures FindTree(BuildBranchId(ResearchTrees[k].id, branchName)) == Some(ResearchTrees[k])
  {
    var id := BuildBranchId(ResearchTrees[k].id, branchName);
    assert id[0] == ResearchTrees[k].id[0];
  }

  /** `branch?.tiers || tree.tiersDefault` for the branch whose id matches. */
  function BranchTiersIn(branches: seq<BranchSpec>, treeId: string, branchId: string, tiersDefault: nat): (n: nat)
    ensures n == tiersDefault || exists b :: b in branches && b.tiers == n
  {
    if branches == [] then tiersDefault
    else if BuildBranchId(treeId, branches[0].name) == branchId then
      if branches[0].tiers != 0 then branches[0].tiers else tiersDefault
    else BranchTiersIn(branches[1..], treeId, branchId, tiersDefault)
  }

  function BranchTiers(tree: Tree, branchId: string): nat
  {
    BranchTiersIn(tree.branches, tree.id, branchId, tree.tiersDefault)
  }

  // ---------------------------------------------------------------------
  // Progress grids and the unlock rule
  // ---------------------------------------------------------------------

  type Grid = seq<seq<bool>>

  /** `Boolean(grid?.[t]?.[s])`: a missing cell reads as unchecked. */
  function Cell(g: Grid, t: int, s: int): bool
  {
    0 <= t < |g| && 0 <= s < |g[t]| && g[t][s]
  }

  predicate HasShape(g: Grid, tiers: nat, stagesPerTier: nat)
  {
    |g| == tiers && forall t :: 0 <= t < |g| ==> |g[t]| == stagesPerTier
  }

  function CreateEmptyProgress(tiers: nat, stagesPerTier: nat): (g: Grid)
    ensures HasShape(g, tiers, stagesPerTier)
    ensures forall t, s :: !Cell(g, t, s)
  {
    seq(tiers, _ => seq(stagesPerTier, _ => false))
  }

  /** The stages of a tier that unlock the next tier: the last two, or
      stage 0 when a tier has at most one stage. */
  function LastStageIndices(stagesPerTier: nat): (r: seq<nat>)
    ensures stagesPerTier >= 1 ==>
      forall i: nat :: i in r <==> stagesPerTier - 2 <= i < stagesPerTier
    ensures stagesPerTier >= 1 ==> stagesPerTier - 1 in r
    ensures stagesPerTier == 0 ==> r == [0]
  {
    if stagesPerTier <= 1 then [0] else [stagesPerTier - 2, stagesPerTier - 1]
  }

  /** isStageUnlocked. */
  predicate IsStageUnlocked(g: Grid, t: int, s: int, stagesPerTier: nat)
  {
    if t == 0 then
      s == 0 || Cell(g, t, s - 1)
    else
      (forall i :: i in LastStageIndices(stagesPerTier) ==> Cell(g, t - 1, i))
      && (s == 0 || Cell(g, t, s - 1))
  }

  /** The unlock rule as stated for players: the first stage is always open;
      a later stage is open exactly when its predecessor is done; a stage of
      a later tier is open exactly when, besides that, the last stages (the
      last two, or the only one) of the tier before it are done. */
  lemma UnlockRules(g: Grid, t: int, s: int, stagesPerTier: nat)
    requires stagesPerTier >= 1
    ensures IsStageUnlocked(g, 0, 0, stagesPerTier)
    ensures s != 0 && IsStageUnlocked(g, t, s, stagesPerTier) ==> Cell(g, t, s - 1)
    ensures t == 0 ==> (IsStageUnlocked(g, t, s, stagesPerTier) <==> s == 0 || Cell(g, t, s - 1))
    ensures t > 0 ==>
      (IsStageUnlocked(g, t, s, stagesPerTier) <==>
        && Cell(g, t - 1, stagesPerTier - 1)
        && (stagesPerTier >= 2 ==> Cell(g, t - 1, stagesPerTier - 2))
        && (s == 0 || Cell(g, t, s - 1)))
  {
    var last := LastStageIndices(stagesPerTier);
    assert stagesPerTier - 1 in last;
    assert stagesPerTier >= 2 ==> stagesPerTier - 2 in last;
    if t > 0 && Cell(g, t - 1, stagesPerTier - 1)
       && (stagesPerTier >= 2 ==> Cell(g, t - 1, stagesPerTier - 2)) {
      forall i | i in last
        ensures Cell(g, t - 1, i)
      {
      }
    }
  }

  /** Unlocking only grows with the grid: checking more cells never locks
      a stage. */
  lemma UnlockMonotone(g: Grid, h: Grid, t: int, s: int, stagesPerTier: nat)
    requires forall a, b :: Cell(g, a, b) ==> Cell(h, a, b)
    requires IsStageUnlocked(g, t, s, stagesPerTier)
    ensures IsStageUnlocked(h, t, s, stagesPerTier)
  {
  }

  /** A legal grid: the right shape, and every completed stage unlocked. */
  predicate Legal(g: Grid, tiers: nat, stagesPerTier: nat)
  {
    HasShape(g, tiers, stagesPerTier)
    && forall t, s :: 0 <= t < tiers && 0 <= s < stagesPerTier && g[t][s]
         ==> IsStageUnlocked(g, t, s, stagesPerTier)
  }

  // ---------------------------------------------------------------------
  // normalizeBranchProgress
  // ---------------------------------------------------------------------

  /** The value the normalising loop writes at (t, s): checked in the raw
      grid and unlocked by the cells written before it. */
  function NormCell(raw: Grid, stagesPerTier: nat, t: nat, s: nat): bool
    decreases t, s
  {
    Cell(raw, t, s)
    && (t == 0 || forall i :: i in LastStageIndices(stagesPerTier) ==> NormCell(raw, stagesPerTier, t - 1, i))
    && (s == 0 || NormCell(raw, stagesPerTier, t, s - 1))
  }

  function Normalized(raw: Grid, tiers: nat, stagesPerTier: nat): (g: Grid)
    ensures HasShape(g, tiers, stagesPerTier)
    ensures forall t, s :: Cell(g, t, s) ==> Cell(raw, t, s)
  {
    seq(tiers, t requires 0 <= t < tiers =>
      seq(stagesPerTier, s requires 0 <= s < stagesPerTier => NormCell(raw, stagesPerTier, t, s)))
  }

  /** normalizeBranchProgress: fills an empty grid tier by tier, stage by
      stage, each cell from the cells already written. */
  method NormalizeBranchProgress(raw: Grid, tiers: nat, stagesPerTier: nat) returns (cleaned: Grid)
    ensures cleaned == Normalized(raw, tiers, stagesPerTier)
  {
    cleaned := CreateEmptyProgress(tiers, stagesPerTier);
    var t := 0;
    while t < tiers
      invariant 0 <= t <= tiers
      invariant HasShape(cleaned, tiers, stagesPerTier)
      invariant forall a, b :: 0 <= a < t && 0 <= b < stagesPerTier ==>
        cleaned[a][b] == NormCell(raw, stagesPerTier, a, b)
    {
      var s := 0;
      while s < stagesPerTier
        invariant 0 <= s <= stagesPerTier
        invariant HasShape(cleaned, tiers, stagesPerTier)
        invariant forall a, b :: 0 <= a < t && 0 <= b < stagesPerTier ==>
          cleaned[a][b] == NormCell(raw, stagesPerTier, a, b)
        invariant forall b :: 0 <= b < s ==> cleaned[t][b] == NormCell(raw, stagesPerTier, t, b)
      {
        var unlocked := IsStageUnlocked(cleaned, t, s, stagesPerTier);
        UnlockedByWrittenCells(raw, cleaned, tiers, stagesPerTier, t, s);
        var rawValue := Cell(raw, t, s);
        cleaned := cleaned[t := cleaned[t][s := unlocked && rawValue]];
        s := s + 1;
      }
      t := t + 1;
    }
    assert forall a :: 0 <= a < tiers ==> cleaned[a] == Normalized(raw, tiers, stagesPerTier)[a];
  }

  /** While the grid is filled in order, the unlock test at (t, s) reads
      only cells already written, so it agrees with the normalising rule. */
  lemma UnlockedByWrittenCells(raw: Grid, cleaned: Grid, tiers: nat, stagesPerTier: nat, t: nat, s: nat)
    requires HasShape(cleaned, tiers, stagesPerTier) && t < tiers && s < stagesPerTier
    requires forall a, b :: 0 <= a < t && 0 <= b < stagesPerTier ==>
      cleaned[a][b] == NormCell(raw, stagesPerTier, a, b)
    requires forall b :: 0 <= b < s ==> cleaned[t][b] == NormCell(raw, stagesPerTier, t, b)
    ensures (IsStageUnlocked(cleaned, t, s, stagesPerTier) && Cell(raw, t, s))
        == NormCell(raw, stagesPerTier, t, s)
  {
    if t > 0 {
      forall i | i in LastStageIndices(stagesPerTier)
        ensures Cell(cleaned, t - 1, i) == NormCell(raw, stagesPerTier, t - 1, i)
      {
        assert i < stagesPerTier;
      }
    }
    if s > 0 {
      assert Cell(cleaned, t, s - 1) == NormCell(raw, stagesPerTier, t, s - 1);
    }
  }

  /** The normalized grid only keeps what the raw grid had checked. */
  lemma NormalizedBelowRaw(raw: Grid, tiers: nat, stagesPerTier: nat)
    ensures forall t, s :: Cell(Normalized(raw, tiers, stagesPerTier), t, s) ==> Cell(raw, t, s)
  {
  }

  /** Every checked cell of a normalized grid is unlocked in that grid. */
  lemma NormalizedIsLegal(raw: Grid, tiers: nat, stagesPerTier: nat)
    ensures Legal(Normalized(raw, tiers, stagesPerTier), tiers, stagesPerTier)
  {
    var g := Normalized(raw, tiers, stagesPerTier);
    forall t, s | 0 <= t < tiers && 0 <= s < stagesPerTier && g[t][s]
      ensures IsStageUnlocked(g, t, s, stagesPerTier)
    {
      if t > 0 {
        forall i | i in LastStageIndices(stagesPerTier)
          ensures Cell(g, t - 1, i)
        {
          assert NormCell(raw, stagesPerTier, t - 1, i);
        }
      }
    }
  }

  /** On a legal grid the normalising rule reproduces each cell. */
  lemma {:induction false} NormCellOfLegal(g: Grid, tiers: nat, stagesPerTier: nat, t: nat, s: nat)
    requires Legal(g, tiers, stagesPerTier)
    requires t < tiers && s < stagesPerTier
    ensures NormCell(g, stagesPerTier, t, s) == g[t][s]
    decreases t, s
  {
    if g[t][s] {
      if t > 0 {
        forall i | i in LastStageIndices(stagesPerTier)
          ensures NormCell(g, stagesPerTier, t - 1, i)
        {
          NormCellOfLegal(g, tiers, stagesPerTier, t - 1, i);
        }
      }
      if s > 0 {
        NormCellOfLegal(g, tiers, stagesPerTier, t, s - 1);
      }
    }
  }

  /** Legal grids are exactly the fixed points of normalisation. */
  lemma NormalizedFixpoint(g: Grid, tiers: nat, stagesPerTier: nat)
    ensures Normalized(g, tiers, stagesPerTier) == g <==> Legal(g, tiers, stagesPerTier)
  {
    if Legal(g, tiers, stagesPerTier) {
      forall t, s | 0 <= t < tiers && 0 <= s < stagesPerTier
        ensures Normalized(g, tiers, stagesPerTier)[t][s] == g[t][s]
      {
        NormCellOfLegal(g, tiers, stagesPerTier, t, s);
      }
      assert forall t :: 0 <= t < tiers ==> Normalized(g, tiers, stagesPerTier)[t] == g[t];
    }
    if Normalized(g, tiers, stagesPerTier) == g {
      NormalizedIsLegal(g, tiers, stagesPerTier);
    }
  }

  lemma NormalizeIdempotent(raw: Grid, tiers: nat, stagesPerTier: nat)
    ensures var g := Normalized(raw, tiers, stagesPerTier);
      Normalized(g, tiers, stagesPerTier) == g
  {
    NormalizedIsLegal(raw, tiers, stagesPerTier);
    NormalizedFixpoint(Normalized(raw, tiers, stagesPerTier), tiers, stagesPerTier);
  }

  /** Within a tier of a legal grid the completed stages form a prefix. */
  lemma {:induction false} LegalPrefix(g: Grid, tiers: nat, stagesPerTier: nat, t: nat, s: nat, s2: nat)
    requires Legal(g, tiers, stagesPerTier)
    requires t < tiers && s2 <= s < stagesPerTier && g[t][s]
    ensures g[t][s2]
    decreases s - s2
  {
    if s2 < s {
      assert IsStageUnlocked(g, t, s, stagesPerTier);
      LegalPrefix(g, tiers, stagesPerTier, t, s - 1, s2);
    }
  }

  /** An unchecked raw cell takes down every cell that depends on it: the
      rest of its tier and every later tier. */
  lemma {:induction false} UncheckedBlocks(raw: Grid, stagesPerTier: nat, t0: nat, s0: nat, t: nat, s: nat)
    requires s0 < stagesPerTier && !Cell(raw, t0, s0)
    requires (t == t0 && s0 <= s) || t > t0
    ensures !NormCell(raw, stagesPerTier, t, s)
    decreases t, s
  {
    if t == t0 {
      if s > s0 {
        UncheckedBlocks(raw, stagesPerTier, t0, s0, t, s - 1);
      }
    } else {
      assert stagesPerTier - 1 in LastStageIndices(stagesPerTier);
      UncheckedBlocks(raw, stagesPerTier, t0, s0, t - 1, stagesPerTier - 1);
    }
  }

  lemma NormalizedAfterUncheck(raw: Grid, tiers: nat, stagesPerTier: nat, t0: nat, s0: nat)
    requires s0 < stagesPerTier && !Cell(raw, t0, s0)
    ensures var g := Normalized(raw, tiers, stagesPerTier);
      forall t, s :: 0 <= t < tiers && 0 <= s < stagesPerTier && ((t == t0 && s0 <= s) || t > t0) ==> !g[t][s]
  {
    forall t: nat, s: nat | t < tiers && s < stagesPerTier && ((t == t0 && s0 <= s) || t > t0)
      ensures !Normalized(raw, tiers, stagesPerTier)[t][s]
    {
      UncheckedBlocks(raw, stagesPerTier, t0, s0, t, s);
    }
  }

  function CountTrue(row: seq<bool>): (n: nat)
    ensures n <= |row|
  {
    if row == [] then 0 else (if row[0] then 1 else 0) + CountTrue(row[1..])
  }

  /** countCompleted: the checked stages of a grid. */
  function CountCompleted(g: Grid): (n: nat)
    ensures n <= CountTotal(g)
  {
    if g == [] then 0 else CountTrue(g[0]) + CountCompleted(g[1..])
  }

  /** countTotal: all stages of a grid. */
  function CountTotal(g: Grid): nat
  {
    if g == [] then 0 else |g[0]| + CountTotal(g[1..])
  }

  lemma {:induction false} CountBounds(g: Grid, tiers: nat, stagesPerTier: nat)
    requires HasShape(g, tiers, stagesPerTier)
    ensures CountCompleted(g) <= CountTotal(g) == tiers * stagesPerTier
    decreases tiers
  {
    if tiers > 0 {
      CountBounds(g[1..], tiers - 1, stagesPerTier);
      assert tiers * stagesPerTier == stagesPerTier + (tiers - 1) * stagesPerTier;
    }
  }

  // ---------------------------------------------------------------------
  // romanNumeral
  // ---------------------------------------------------------------------

  const Numerals: seq<string> := ["I", "II", "III", "IV", "V", "VI", "VII", "VIII", "IX", "X"]

  /** Tier labels: I to X for 1..10, the decimal number otherwise. */
  function RomanNumeral(value: int): (r: string)
    ensures 1 <= value <= 10 ==> r == Numerals[value - 1]
    ensures !(1 <= value <= 10) ==> r == IntToString(value)
  {
    if 1 <= value <= 10 then Numerals[value - 1] else IntToString(value)
  }

  predicate IsNumeralChar(c: char) { c == 'I' || c == 'V' || c == 'X' }

  /** Different tiers get different labels. */
  lemma RomanNumeralInjective(a: int, b: int)
    requires RomanNumeral(a) == RomanNumeral(b)
    ensures a == b
  {
    var ra, rb := RomanNumeral(a), RomanNumeral(b);
    if 1 <= a <= 10 && 1 <= b <= 10 {
      assert Numerals[a - 1] == Numerals[b - 1];
    } else if 1 <= a <= 10 {
      DecimalNotNumeral(b);
      assert false;
    } else if 1 <= b <= 10 {
      DecimalNotNumeral(a);
      assert false;
    } else {
      IntToStringInjective(a, b);
    }
  }

  lemma DecimalNotNumeral(n: int)
    ensures |IntToString(n)| >= 1 && IsDigit(IntToString(n)[|IntToString(n)| - 1])
  {
  }

  // ---------------------------------------------------------------------
  // Bonuses
  // ---------------------------------------------------------------------

  type Bonuses = map<string, map<string, real>>

  /** A stored bonus table before sanitising: None where `Number(raw)` is not
      finite. */
  type RawBonuses = map<string, map<string, Option<real>>>

  function BuildDefaultBonuses(): (b: Bonuses)
    ensures b.Keys == BonusStats.Keys
    ensures forall g :: g in b ==> b[g].Keys == BonusStats[g] && forall k :: k in b[g] ==> b[g][k] == 0.0
  {
    map g | g in BonusStats :: map k | k in BonusStats[g] :: 0.0
  }

  /** The finite number stored for a stat, or 0. */
  function RawStat(input: RawBonuses, group: string, key: string): real
  {
    if group in input && key in input[group] then input[group][key].GetOr(0.0) else 0.0
  }

  /** sanitizeBonuses: exactly the known stats, each the stored finite
      number or 0; a missing or non-object table gives the defaults. */
  function SanitizeBonuses(input: Option<RawBonuses>): (b: Bonuses)
    ensures b.Keys == BonusStats.Keys
    ensures forall g :: g in b ==> b[g].Keys == BonusStats[g]
    ensures input.None? ==> b == BuildDefaultBonuses()
    ensures input.Some? ==> forall g, k :: g in b && k in b[g] ==> b[g][k] == RawStat(input.value, g, k)
  {
    match input
    case None => BuildDefaultBonuses()
    case Some(raw) => StatsFrom(raw, BonusStats)
  }

  /** The stats `stats` lists, each read from `raw`. */
  function StatsFrom(raw: RawBonuses, stats: map<string, set<string>>): (b: Bonuses)
    ensures b.Keys == stats.Keys
    ensures forall g :: g in b ==> b[g].Keys == stats[g]
    ensures forall g, k :: g in b && k in b[g] ==> b[g][k] == RawStat(raw, g, k)
  {
    map g | g in stats :: map k | k in stats[g] :: RawStat(raw, g, k)
  }

  function AsRaw(b: Bonuses): RawBonuses
  {
    map g | g in b :: map k | k in b[g] :: Some(b[g][k])
  }

  /** Sanitising a sanitised table changes nothing. */
  lemma SanitizeBonusesIdempotent(input: Option<RawBonuses>)
    ensures SanitizeBonuses(Some(AsRaw(SanitizeBonuses(input)))) == SanitizeBonuses(input)
  {
    var b := SanitizeBonuses(input);
    StatsFromOwn(b, BonusStats);
  }

  /** A table with exactly the stats `stats` lists reads back as itself. */
  lemma StatsFromOwn(b: Bonuses, stats: map<string, set<string>>)
    requires b.Keys == stats.Keys
    requires forall g :: g in b ==> b[g].Keys == stats[g]
    ensures StatsFrom(AsRaw(b), stats) == b
  {
    var raw := AsRaw(b);
    var c := StatsFrom(raw, stats);
    forall g | g in c
      ensures c[g] == b[g]
    {
      forall k | k in c[g]
        ensures c[g][k] == b[g][k]
      {
        assert raw[g][k] == Some(b[g][k]);
        assert c[g][k] == RawStat(raw, g, k);
      }
    }
  }

  // ---------------------------------------------------------------------
  // The tracker state and its updates
  // ---------------------------------------------------------------------

  /** The progress a branch update stores: the stored grid normalised, the
      stage set (when it exists), normalised again. */
  function UpdatedProgress(stored: Grid, tiers: nat, stagesPerTier: nat, t: nat, s: int, checked: bool): (g: Grid)
    requires t < tiers
    ensures Legal(g, tiers, stagesPerTier)
  {
    var progress := Normalized(stored, tiers, stagesPerTier);
    var edited := if 0 <= s < stagesPerTier then progress[t := progress[t][s := checked]] else progress;
    NormalizedIsLegal(edited, tiers, stagesPerTier);
    Normalized(edited, tiers, stagesPerTier)
  }

  /** Unchecking a stage clears it, the rest of its tier and every later
      tier. */
  lemma UncheckClearsDependents(stored: Grid, tiers: nat, stagesPerTier: nat, t: nat, s: nat)
    requires t < tiers && s < stagesPerTier
    ensures var g := UpdatedProgress(stored, tiers, stagesPerTier, t, s, false);
      forall a, b :: 0 <= a < tiers && 0 <= b < stagesPerTier && ((a == t && s <= b) || a > t) ==> !g[a][b]
  {
    var progress := Normalized(stored, tiers, stagesPerTier);
    var edited := progress[t := progress[t][s := false]];
    NormalizedAfterUncheck(edited, tiers, stagesPerTier, t, s);
  }

  /** Checking a stage that is unlocked sets exactly that stage. */
  lemma CheckUnlockedSetsStage(stored: Grid, tiers: nat, stagesPerTier: nat, t: nat, s: nat)
    requires t < tiers && s < stagesPerTier
    requires IsStageUnlocked(Normalized(stored, tiers, stagesPerTier), t, s, stagesPerTier)
    ensures var g := Normalized(stored, tiers, stagesPerTier);
      UpdatedProgress(stored, tiers, stagesPerTier, t, s, true) == g[t := g[t][s := true]]
  {
    var g := Normalized(stored, tiers, stagesPerTier);
    var h := g[t := g[t][s := true]];
    NormalizedIsLegal(stored, tiers, stagesPerTier);
    assert forall a, b :: Cell(g, a, b) ==> Cell(h, a, b);
    forall a, b | 0 <= a < tiers && 0 <= b < stagesPerTier && h[a][b]
      ensures IsStageUnlocked(h, a, b, stagesPerTier)
    {
      if a == t && b == s {
        UnlockMonotone(g, h, a, b, stagesPerTier);
      } else {
        assert g[a][b];
        UnlockMonotone(g, h, a, b, stagesPerTier);
      }
    }
    NormalizedFixpoint(h, tiers, stagesPerTier);
  }

  /** A stage index outside the tier changes nothing but re-normalises. */
  lemma StageOutOfRangeKeepsProgress(stored: Grid, tiers: nat, stagesPerTier: nat, t: nat, s: int, checked: bool)
    requires t < tiers && !(0 <= s < stagesPerTier)
    ensures UpdatedProgress(stored, tiers, stagesPerTier, t, s, checked) == Normalized(stored, tiers, stagesPerTier)
  {
    NormalizeIdempotent(stored, tiers, stagesPerTier);
  }

  /** The shape a stored branch must have: tiers and stages of its tree. */
  predicate BranchLegal(branchId: string, g: Grid)
  {
    BranchLegalIn(ResearchTrees, branchId, g)
  }

  /** The same, for the trees `trees`. */
  predicate BranchLegalIn(trees: seq<Tree>, branchId: string, g: Grid)
  {
    match FindTreeIn(trees, branchId)
    case None => false
    case Some(tree) => Legal(g, BranchTiers(tree, branchId), tree.stagesPerTier)
  }

  /** The grid stored for a branch; a branch never saved reads as empty. */
  function Stored(branches: map<string, Grid>, branchId: string): Grid
  {
    if branchId in branches then branches[branchId] else []
  }

  /** The branch table after updateBranchProgress, or None when the update
      returns early (no tree with that prefix, or no such tier). */
  function BranchUpdate(branches: map<string, Grid>, branchId: string, tierIndex: int, stageIndex: int,
                        checked: bool): (r: Option<map<string, Grid>>)
    ensures r.Some? ==> r.value.Keys == branches.Keys + {branchId}
    ensures r.Some? ==> forall id :: id in branches && id != branchId ==> r.value[id] == branches[id]
    ensures r.None? <==> FindTree(branchId).None? || !(0 <= tierIndex < BranchTiers(FindTree(branchId).value, branchId))
    ensures r.Some? ==>
      var tree := FindTree(branchId).value;
      0 <= tierIndex < BranchTiers(tree, branchId) &&
      r.value[branchId] == UpdatedProgress(Stored(branches, branchId), BranchTiers(tree, branchId), tree.stagesPerTier,
                                           tierIndex, stageIndex, checked)
  {
    match FindTree(branchId)
    case None => None
    case Some(tree) =>
      var tiers := BranchTiers(tree, branchId);
      if 0 <= tierIndex < tiers then
        Some(branches[branchId := UpdatedProgress(Stored(branches, branchId), tiers, tree.stagesPerTier,
                                                  tierIndex, stageIndex, checked)])
      else None
  }

  /** A branch update keeps every stored grid legal. */
  lemma BranchUpdateKeepsLegal(branches: map<string, Grid>, branchId: string, tierIndex: int, stageIndex: int,
                               checked: bool)
    requires forall id :: id in branches ==> BranchLegal(id, branches[id])
    requires BranchUpdate(branches, branchId, tierIndex, stageIndex, checked).Some?
    ensures var r := BranchUpdate(branches, branchId, tierIndex, stageIndex, checked).value;
      forall id :: id in r ==> BranchLegal(id, r[id])
  {
  }

  // ---------------------------------------------------------------------
  // The whole state (buildDefaultState, sanitizeState)
  // ---------------------------------------------------------------------

  /** One branch of the catalog as the state keeps it: its id and the shape
      of its grid. */
  datatype Slot = Slot(id: string, tiers: nat, stagesPerTier: nat)

  /** `branch.tiers || tree.tiersDefault`. */
  function EffectiveTiers(tree: Tree, b: BranchSpec): nat
  {
    if b.tiers != 0 then b.tiers else tree.tiersDefault
  }

  function SlotOf(tree: Tree, b: BranchSpec): Slot
  {
    Slot(BuildBranchId(tree.id, b.name), EffectiveTiers(tree, b), tree.stagesPerTier)
  }

  /** The slots of one tree, in the order of its branches. */
  function TreeSlots(tree: Tree): (r: seq<Slot>)
    ensures |r| == |tree.branches|
    ensures forall j :: 0 <= j < |r| ==> r[j] == SlotOf(tree, tree.branches[j])
  {
    seq(|tree.branches|, j requires 0 <= j < |tree.branches| => SlotOf(tree, tree.branches[j]))
  }

  /** Every branch of every tree, tree by tree. */
  function CatalogSlots(trees: seq<Tree>): seq<Slot>
  {
    FlatMap(TreeSlots, trees)
  }

  /** Every slot comes from a branch of one of the trees. */
  lemma CatalogSlotOrigin(trees: seq<Tree>, slot: Slot)
    requires slot in CatalogSlots(trees)
    ensures exists k, j :: 0 <= k < |trees| && 0 <= j < |trees[k].branches| && slot == SlotOf(trees[k], trees[k].branches[j])
  {
    FlatMapMembership(TreeSlots, trees, slot);
    var k :| 0 <= k < |trees| && slot in TreeSlots(trees[k]);
    var j :| 0 <= j < |TreeSlots(trees[k])| && TreeSlots(trees[k])[j] == slot;
    assert slot == SlotOf(trees[k], trees[k].branches[j]);
  }

  /** The branch table built from the stored one: each slot's grid
      normalised from what is stored under its id, a later slot with the
      same id writing over an earlier one. */
  function BranchesFrom(slots: seq<Slot>, stored: map<string, Grid>): map<string, Grid>
    decreases |slots|
  {
    if slots == [] then map[]
    else
      var last := slots[|slots| - 1];
      BranchesFrom(slots[..|slots| - 1], stored)[last.id := Normalized(Stored(stored, last.id), last.tiers, last.stagesPerTier)]
  }

  /** The table holds exactly the ids of the slots. */
  lemma {:induction false} BranchesFromKeys(slots: seq<Slot>, stored: map<string, Grid>, id: string)
    ensures id in BranchesFrom(slots, stored) <==> exists i :: 0 <= i < |slots| && slots[i].id == id
    decreases |slots|
  {
    if slots != [] {
      var n := |slots| - 1;
      var init := slots[..n];
      BranchesFromKeys(init, stored, id);
      if exists i :: 0 <= i < n && init[i].id == id {
        var i :| 0 <= i < n && init[i].id == id;
        assert slots[i] == init[i];
      }
      if exists i :: 0 <= i < n && slots[i].id == id {
        var i :| 0 <= i < n && slots[i].id == id;
        assert init[i] == slots[i];
      }
    }
  }

  /** The grid of the last slot with an id is that slot's grid, normalised
      from what is stored under the id. */
  lemma {:induction false} BranchesFromLast(slots: seq<Slot>, stored: map<string, Grid>, i: nat)
    requires i < |slots|
    requires forall j :: i < j < |slots| ==> slots[j].id != slots[i].id
    ensures slots[i].id in BranchesFrom(slots, stored)
    ensures BranchesFrom(slots, stored)[slots[i].id]
      == Normalized(Stored(stored, slots[i].id), slots[i].tiers, slots[i].stagesPerTier)
    decreases |slots|
  {
    var n := |slots| - 1;
    if i < n {
      var init := slots[..n];
      assert init[i] == slots[i];
      assert forall j :: i < j < n ==> init[j] == slots[j];
      BranchesFromLast(init, stored, i);
    }
  }

  /** The last slot with an id that some slot has. */
  lemma LastSlot(slots: seq<Slot>, id: string) returns (i: nat)
    requires exists k :: 0 <= k < |slots| && slots[k].id == id
    ensures i < |slots| && slots[i].id == id
    ensures forall j :: i < j < |slots| ==> slots[j].id != id
    decreases |slots|
  {
    var n := |slots| - 1;
    if slots[n].id == id {
      i := n;
    } else {
      var k :| 0 <= k < |slots| && slots[k].id == id;
      assert slots[..n][k].id == id;
      i := LastSlot(slots[..n], id);
      assert slots[..n][i] == slots[i];
    }
  }

  /** Every id of the table with the slot whose grid it holds. */
  lemma BranchOfId(slots: seq<Slot>, stored: map<string, Grid>, id: string) returns (i: nat)
    requires id in BranchesFrom(slots, stored)
    ensures i < |slots| && slots[i].id == id
    ensures forall j :: i < j < |slots| ==> slots[j].id != id
    ensures BranchesFrom(slots, stored)[id] == Normalized(Stored(stored, id), slots[i].tiers, slots[i].stagesPerTier)
  {
    BranchesFromKeys(slots, stored, id);
    i := LastSlot(slots, id);
    BranchesFromLast(slots, stored, i);
  }

  /** A grid normalised from nothing is the empty grid of its shape. */
  lemma NormalizedOfNothing(tiers: nat, stagesPerTier: nat)
    ensures Normalized([], tiers, stagesPerTier) == CreateEmptyProgress(tiers, stagesPerTier)
  {
    var g := Normalized([], tiers, stagesPerTier);
    var e := CreateEmptyProgress(tiers, stagesPerTier);
    forall t | 0 <= t < tiers
      ensures g[t] == e[t]
    {
      assert forall s :: 0 <= s < stagesPerTier ==> g[t][s] == e[t][s];
    }
  }

  /** Every grid of `b` is the empty grid of the shape of a slot with its
      id. */
  predicate AllEmpty(slots: seq<Slot>, b: map<string, Grid>)
  {
    forall id :: id in b ==> exists i :: (0 <= i < |slots| && slots[i].id == id
      && b[id] == CreateEmptyProgress(slots[i].tiers, slots[i].stagesPerTier))
  }

  /** Built from nothing, every grid is the empty grid of its slot's
      shape. */
  lemma BranchesFromNothing(slots: seq<Slot>)
    ensures AllEmpty(slots, BranchesFrom(slots, map[]))
  {
    var b := BranchesFrom(slots, map[]);
    forall id | id in b
      ensures exists i :: (0 <= i < |slots| && slots[i].id == id
        && b[id] == CreateEmptyProgress(slots[i].tiers, slots[i].stagesPerTier))
    {
      var i := BranchOfId(slots, map[], id);
      NormalizedOfNothing(slots[i].tiers, slots[i].stagesPerTier);
    }
  }

  /** Normalising twice by the same slots is normalising once. */
  lemma BranchesFromIdempotent(slots: seq<Slot>, stored: map<string, Grid>)
    ensures var r := BranchesFrom(slots, stored); BranchesFrom(slots, r) == r
  {
    var r := BranchesFrom(slots, stored);
    var r2 := BranchesFrom(slots, r);
    forall id
      ensures id in r2 <==> id in r
    {
      BranchesFromKeys(slots, stored, id);
      BranchesFromKeys(slots, r, id);
    }
    forall id | id in r
      ensures r2[id] == r[id]
    {
      var i := BranchOfId(slots, stored, id);
      BranchesFromLast(slots, r, i);
      NormalizeIdempotent(Stored(stored, id), slots[i].tiers, slots[i].stagesPerTier);
    }
  }

  /** The state the page keeps: the branch grids by id, the bonus table and
      the time of the last save. */
  datatype State = State(updatedAt: string, branches: map<string, Grid>, bonuses: Bonuses)

  /** A parsed stored state that is an object: its `updatedAt` as text (""
      when missing or falsy), its grids by branch id (a missing or
      non-array entry reads as empty) and its bonus table when that is an
      object. */
  datatype RawState = RawState(updatedAt: string, branches: map<string, Grid>, bonuses: Option<RawBonuses>)

  /** buildDefaultState: every branch of the catalog with an empty grid,
      every bonus 0. */
  function BuildDefaultState(now: string): (s: State)
    ensures s.updatedAt == now && s.bonuses == BuildDefaultBonuses()
  {
    State(now, BranchesFrom(CatalogSlots(ResearchTrees), map[]), BuildDefaultBonuses())
  }

  /** sanitizeState, with the time `nowIso()` would read passed in: the
      defaults for anything that is not an object; otherwise every branch of
      the catalog normalised from its stored grid and the bonuses
      sanitised. Stored grids of ids outside the catalog are dropped. */
  function SanitizeState(input: Option<RawState>, now: string): (s: State)
    ensures input.None? ==> s == BuildDefaultState(now)
    ensures input.Some? ==> s.bonuses == SanitizeBonuses(input.value.bonuses)
    ensures input.Some? ==> s.updatedAt == if input.value.updatedAt == [] then now else input.value.updatedAt
  {
    match input
    case None => BuildDefaultState(now)
    case Some(raw) =>
      State(if raw.updatedAt == [] then now else raw.updatedAt,
            BranchesFrom(CatalogSlots(ResearchTrees), raw.branches),
            SanitizeBonuses(raw.bonuses))
  }

  /** The grids a state was built from: the stored ones, or none. */
  function StoredBranches(input: Option<RawState>): map<string, Grid>
  {
    if input.Some? then input.value.branches else map[]
  }

  lemma SanitizeStateBranches(input: Option<RawState>, now: string)
    ensures SanitizeState(input, now).branches == BranchesFrom(CatalogSlots(ResearchTrees), StoredBranches(input))
  {
  }

  /** Every branch of the default state is the empty grid of its slot's
      shape. */
  lemma DefaultBranchesEmpty(now: string)
    ensures AllEmpty(CatalogSlots(ResearchTrees), BuildDefaultState(now).branches)
  {
    var slots := CatalogSlots(ResearchTrees);
    BranchesFromNothing(slots);
    assert BuildDefaultState(now).branches == BranchesFrom(slots, map[]);
  }

  /** Whatever was stored, the loaded state has exactly the branches of
      the catalog. */
  lemma SanitizeStateBranchIds(input: Option<RawState>, now: string, id: string)
    ensures var slots := CatalogSlots(ResearchTrees);
      id in SanitizeState(input, now).branches <==> exists i :: 0 <= i < |slots| && slots[i].id == id
  {
    SanitizeStateBranches(input, now);
    BranchesFromKeys(CatalogSlots(ResearchTrees), StoredBranches(input), id);
  }

  /** The state as it is saved and parsed again. */
  function AsRawState(s: State): RawState
  {
    RawState(s.updatedAt, s.branches, Some(AsRaw(s.bonuses)))
  }

  /** Saving the loaded state and loading it again changes nothing. */
  lemma SanitizeStateIdempotent(input: Option<RawState>, now: string)
    ensures var s := SanitizeState(input, now); SanitizeState(Some(AsRawState(s)), now) == s
  {
    var s := SanitizeState(input, now);
    SanitizeStateBranches(input, now);
    SanitizeStateBranches(Some(AsRawState(s)), now);
    BranchesFromIdempotent(CatalogSlots(ResearchTrees), StoredBranches(input));
    SanitizeBonusesIdempotent(if input.Some? then input.value.bonuses else None);
  }

  // ---------------------------------------------------------------------
  // The catalog's ids and shapes
  // ---------------------------------------------------------------------

  /** Branches whose names start alike have the same number of tiers, and
      every name starts with a capital letter. */
  predicate TiersByInitial(branches: seq<BranchSpec>)
  {
    && (forall j :: 0 <= j < |branches| ==> branches[j].name != [] && IsUpper(branches[j].name[0]))
    && (forall i, j :: 0 <= i < |branches| && 0 <= j < |branches| && branches[i].name[0] == branches[j].name[0]
          ==> branches[i].tiers == branches[j].tiers)
  }

  /** What the tracker needs of its catalog: tree ids start with different
      characters and each tree's tiers follow the branch names' initials. */
  predicate CatalogWellFormed(trees: seq<Tree>)
  {
    && (forall k :: 0 <= k < |trees| ==> trees[k].id != [])
    && (forall k, k2 :: 0 <= k < k2 < |trees| ==> trees[k].id[0] != trees[k2].id[0])
    && (forall k :: 0 <= k < |trees| ==> TiersByInitial(trees[k].branches))
  }

  /** Tiers that are `n` for names starting with `c` and 0 otherwise
      follow the initials. */
  lemma TiersFromInitial(branches: seq<BranchSpec>, c: char, n: nat)
    requires forall j :: 0 <= j < |branches| ==> branches[j].name != [] && IsUpper(branches[j].name[0])
    requires forall j :: 0 <= j < |branches| ==> branches[j].tiers == if branches[j].name[0] == c then n else 0
    ensures TiersByInitial(branches)
  {
  }

  lemma GrowthTiers()
    ensures TiersByInitial(Growth.branches)
  {
    TiersFromInitial(Growth.branches, 'I', 0);
  }

  lemma EconomyTiers()
    ensures TiersByInitial(Economy.branches)
  {
    TiersFromInitial(Economy.branches, 'I', 5);
  }

  lemma BattleTiers()
    ensures TiersByInitial(Battle.branches)
  {
    TiersFromInitial(Battle.branches, 'I', 0);
  }

  /** The catalog's trees have distinct initials ('g', 'e', 'b') and the
      only branches with their own tier count, the two iron branches of
      the economy tree, are the only ones starting with 'I'. */
  lemma CatalogIsWellFormed()
    ensures CatalogWellFormed(ResearchTrees)
  {
    GrowthTiers();
    EconomyTiers();
    BattleTiers();
  }

  /** A name that starts with a capital letter has a slug that starts with
      that letter in lower case. */
  lemma SlugHead(name: string)
    requires name != [] && IsUpper(name[0])
    ensures Slugify(name) != [] && Slugify(name)[0] == LowerChar(name[0])
  {
    var c := CollapseRuns(Lower(name));
    assert Lower(name)[0] == LowerChar(name[0]);
    assert IsLowerAlnum(LowerChar(name[0]));
    assert c[0] == LowerChar(name[0]);
  }

  /** Two names that give a tree the same branch id start alike. */
  lemma SameIdSameInitial(treeId: string, a: string, b: string)
    requires a != [] && IsUpper(a[0]) && b != [] && IsUpper(b[0])
    requires BuildBranchId(treeId, a) == BuildBranchId(treeId, b)
    ensures a[0] == b[0]
  {
    assert Slugify(a) == Slugify(b);
    SlugHead(a);
    SlugHead(b);
  }

  /** An id built from a tree's id finds that tree first. */
  lemma {:induction false} FindTreeInOfId(trees: seq<Tree>, k: nat, branchName: string)
    requires k < |trees|
    requires forall m :: 0 <= m < |trees| ==> trees[m].id != []
    requires forall m, m2 :: 0 <= m < m2 < |trees| ==> trees[m].id[0] != trees[m2].id[0]
    ensures FindTreeIn(trees, BuildBranchId(trees[k].id, branchName)) == Some(trees[k])
    decreases k
  {
    var id := BuildBranchId(trees[k].id, branchName);
    if k > 0 {
      assert id[0] == trees[k].id[0];
      assert !(trees[0].id + ":" <= id);
      FindTreeInOfId(trees[1..], k - 1, branchName);
    }
  }

  /** The id of a branch looks up that branch's own number of tiers. */
  lemma {:induction false} BranchTiersOfBranch(branches: seq<BranchSpec>, treeId: string, tiersDefault: nat, j: nat)
    requires j < |branches| && TiersByInitial(branches)
    ensures BranchTiersIn(branches, treeId, BuildBranchId(treeId, branches[j].name), tiersDefault)
      == if branches[j].tiers != 0 then branches[j].tiers else tiersDefault
    decreases j
  {
    var id := BuildBranchId(treeId, branches[j].name);
    if BuildBranchId(treeId, branches[0].name) == id {
      SameIdSameInitial(treeId, branches[0].name, branches[j].name);
    } else {
      var rest := branches[1..];
      assert rest[j - 1] == branches[j];
      assert TiersByInitial(rest) by {
        assert forall i :: 0 <= i < |rest| ==> rest[i] == branches[i + 1];
      }
      BranchTiersOfBranch(rest, treeId, tiersDefault, j - 1);
    }
  }

  /** Every slot of a well-formed catalog finds its tree and its own shape
      by its id. */
  lemma SlotShape(trees: seq<Tree>, k: nat, j: nat)
    requires CatalogWellFormed(trees) && k < |trees| && j < |trees[k].branches|
    ensures var slot := SlotOf(trees[k], trees[k].branches[j]);
      && FindTreeIn(trees, slot.id) == Some(trees[k])
      && BranchTiers(trees[k], slot.id) == slot.tiers
      && trees[k].stagesPerTier == slot.stagesPerTier
  {
    FindTreeInOfId(trees, k, trees[k].branches[j].name);
    BranchTiersOfBranch(trees[k].branches, trees[k].id, trees[k].tiersDefault, j);
  }

  /** Built from a well-formed catalog, every grid obeys the unlock rule in
      the shape its id gives it. */
  lemma BranchesFromLegal(trees: seq<Tree>, stored: map<string, Grid>)
    requires CatalogWellFormed(trees)
    ensures var b := BranchesFrom(CatalogSlots(trees), stored);
      forall id :: id in b ==> BranchLegalIn(trees, id, b[id])
  {
    var slots := CatalogSlots(trees);
    var b := BranchesFrom(slots, stored);
    forall id | id in b
      ensures BranchLegalIn(trees, id, b[id])
    {
      var i := BranchOfId(slots, stored, id);
      assert slots[i] in slots;
      CatalogSlotOrigin(trees, slots[i]);
      var k, j :| 0 <= k < |trees| && 0 <= j < |trees[k].branches|
        && slots[i] == SlotOf(trees[k], trees[k].branches[j]);
      SlotShape(trees, k, j);
      NormalizedIsLegal(Stored(stored, id), slots[i].tiers, slots[i].stagesPerTier);
    }
  }

  /** Every branch of a loaded state obeys the unlock rule in the shape
      its id gives it. */
  lemma SanitizeStateLegal(input: Option<RawState>, now: string)
    ensures var b := SanitizeState(input, now).branches; forall id :: id in b ==> BranchLegal(id, b[id])
  {
    SanitizeStateBranches(input, now);
    CatalogIsWellFormed();
    BranchesFromLegal(ResearchTrees, StoredBranches(input));
  }

  /** The research page's state. */
  class ResearchTracker {
    var branches: map<string, Grid>
    var bonuses: Bonuses
    var updatedAt: string

    /** Every stored branch belongs to a tree and obeys the unlock rule. */
    predicate Valid()
      reads this
    {
      forall id :: id in branches ==> BranchLegal(id, branches[id])
    }

    /** loadState: the stored state sanitised, or the defaults when there
        is none or it does not parse (both given as None). */
    constructor (stored: Option<RawState>, now: string)
      ensures State(updatedAt, branches, bonuses) == SanitizeState(stored, now)
      ensures Valid()
    {
      var s := SanitizeState(stored, now);
      SanitizeStateLegal(stored, now);
      updatedAt := s.updatedAt;
      branches := s.branches;
      bonuses := s.bonuses;
    }

    /** updateBranchProgress: an unknown tree or tier leaves everything as
        it is; otherwise only this branch changes and the state is saved. */
    method UpdateBranchProgress(branchId: string, tierIndex: int, stageIndex: int, checked: bool, now: string)
      requires Valid()
      modifies this
      ensures Valid()
      ensures var r := BranchUpdate(old(branches), branchId, tierIndex, stageIndex, checked);
        if r.None? then unchanged(this)
        else branches == r.value && bonuses == old(bonuses) && updatedAt == now
    {
      var found := FindTree(branchId);
      if found.None? {
        return;
      }
      var tree := found.value;
      var tiers := BranchTiers(tree, branchId);
      var progress := NormalizeBranchProgress(Stored(branches, branchId), tiers, tree.stagesPerTier);
      if !(0 <= tierIndex < tiers) {
        return;
      }
      if 0 <= stageIndex < tree.stagesPerTier {
        progress := progress[tierIndex := progress[tierIndex][stageIndex := checked]];
      }
      var normalized := NormalizeBranchProgress(progress, tiers, tree.stagesPerTier);
      assert normalized == UpdatedProgress(Stored(branches, branchId), tiers, tree.stagesPerTier,
                                           tierIndex, stageIndex, checked);
      assert BranchUpdate(branches, branchId, tierIndex, stageIndex, checked) == Some(branches[branchId := normalized]);
      BranchUpdateKeepsLegal(branches, branchId, tierIndex, stageIndex, checked);
      branches := branches[branchId := normalized];
      updatedAt := now;
    }

    /** updateBonusValue: the stat becomes the finite number given, or 0;
        nothing else changes but the timestamp. */
    method UpdateBonusValue(groupId: string, statKey: string, value: Option<real>, now: string)
      modifies this
      ensures branches == old(branches) && updatedAt == now
      ensures bonuses.Keys == old(bonuses).Keys + {groupId}
      ensures bonuses[groupId].Keys == (if groupId in old(bonuses) then old(bonuses)[groupId].Keys else {}) + {statKey}
      ensures bonuses[groupId][statKey] == value.GetOr(0.0)
      ensures forall g :: g in old(bonuses) && g != groupId ==> bonuses[g] == old(bonuses)[g]
      ensures forall k :: k != statKey && groupId in old(bonuses) && k in old(bonuses)[groupId]
                ==> bonuses[groupId][k] == old(bonuses)[groupId][k]
    {
      var sanitized := value.GetOr(0.0);
      var group := if groupId in bonuses then bonuses[groupId] else map[];
      bonuses := bonuses[groupId := group[statKey := sanitized]];
      updatedAt := now;
    }

    /** The reset-progress button: the whole state back to its defaults. */
    method ResetProgress(now: string)
      modifies this
      ensures Valid()
      ensures State(updatedAt, branches, bonuses) == BuildDefaultState(now)
    {
      SanitizeStateLegal(None, now);
      var s := BuildDefaultState(now);
      updatedAt := s.updatedAt;
      branches := s.branches;
      bonuses := s.bonuses;
    }

    /** The reset-bonuses button: every bonus back to 0, the branches kept. */
    method ResetBonuses(now: string)
      requires Valid()
      modifies this
      ensures Valid()
      ensures branches == old(branches) && bonuses == BuildDefaultBonuses() && updatedAt == now
    {
      bonuses := BuildDefaultBonuses();
      updatedAt := now;
    }
  }
}
