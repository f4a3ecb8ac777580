# Kingshot companion tools, modelled in Dafny

This project models the browser-side logic of a fan site for the mobile game
Kingshot. The site has a landing page and several single-page tools, and
each tool keeps its state in the browser:

- **Bear event optimizer** (module `BearOptimizer`). A rally troop-allocation
  calculator. The total capacity is the lead rally's capacity plus the
  capacity of each joining rally (at most six). Archers fill the capacity
  first. Cavalry and infantry split what is left, half each, and any
  leftover goes to the type that still has troops. The resulting mix is
  then turned into whole troop counts for each rally by a
  largest-remainder apportionment.
- **Research tracker** (module `Research`). Three research trees, each made
  of branches. Each branch is a grid of tiers by stages, and a stage can be
  completed only when it is unlocked: the previous stage of its tier must
  be done, and for later tiers the last two stages of the tier before must
  be done too. The tracker also keeps a table of bonus stats.
- **Pets** (module `Pets`). Every built-in pet, with an unlock flag, a level
  capped by its rarity, an ability level capped at one per ten levels, and
  six refinement tiers.
- **Governor gear and charms** (module `GearCharms`). Six gear items, each
  with a named gear level (or unset) and three charm levels from 1 to 11.
- **Troops** (module `Troops`). For each of the three troop types, how many
  troops the player holds at each level from 1 to 11.
- **Heroes roster** (module `Heroes`). Heroes with a level, stars, free-text
  tags and notes; a search, a tag filter and an add/edit dialog.
- **Landing page** (module `Landing`). A catalog of the tools, filtered by a
  search box and a status selector. Its `escapeHtml` stands for the
  identical helper that every page carries.

The supporting modules are `Wrappers` (Option), `Strings` (ASCII lowercasing,
JavaScript `trim`, `split`/`join`, substring search, decimal printing,
character-by-character string order) and `Seqs` (an order-preserving filter, flat map
and first/last search).

Pure code becomes functions and lemmas. Code that changes state step by
step becomes imperative Dafny:

- `allocateRemaining` becomes a method that mirrors its local updates.
- The remainder loop of `allocateByPercent` becomes a method with a loop.
- The nested loops of `normalizeBranchProgress` become a method over a
  grid.
- The loop that collects the heroes' tags becomes a method with a loop.
- Each tracker page becomes a class whose fields are the page's state. Its
  methods are the page's update handlers.

Each method is proved against a specification function, and the
properties are proved as lemmas about those functions.

## Model

| member | source | states |
|---|---|---|
| BearOptimizer.Round | kingshot/bear-event-optimizer/script.js:188 | `Math.round` gives the integer within one half of its argument (halves rounded up) |
| BearOptimizer.ParseNumber | kingshot/bear-event-optimizer/script.js:52-55 | a parsed input counts only when it is a positive integer; anything else (NaN, zero, negative) counts as 0 |
| BearOptimizer.Clamp | kingshot/bear-event-optimizer/script.js:57-59 | the result lies in [min, max], is the value itself when already inside, and is the nearer bound otherwise |
| BearOptimizer.SplitRemaining | kingshot/bear-event-optimizer/script.js:75-96 | the closed form of the split: neither side beyond its availability, and together exactly min(remaining, cavalry + infantry available) |
| BearOptimizer.SplitRemainingProperties | kingshot/bear-event-optimizer/script.js:75-96 | the cavalry/infantry split never exceeds either type's availability; it deploys exactly min(remaining, cavalry + infantry available); it is an even half split when both types have at least half |
| BearOptimizer.AllocateRemaining | kingshot/bear-event-optimizer/script.js:75-96 | the step-by-step allocation equals the closed-form split, so it stays within availability, deploys min(remaining, available) and splits evenly when both types have enough |
| BearOptimizer.InsertByFraction | kingshot/bear-event-optimizer/script.js:107 | inserting one more index keeps the order sorted by descending fractional part, ties by lower index (the stable sort's order), and adds exactly that index |
| BearOptimizer.SortByFraction | kingshot/bear-event-optimizer/script.js:103-107 | the indices 0..n-1, each once, in the stable sort's order: larger fractional part first, lower index first on a tie |
| BearOptimizer.AllocateByPercent | kingshot/bear-event-optimizer/script.js:98-118 | the floors-then-remainder loop computes the apportionment `Apportion`, whose sum, sign and largest-remainder lemmas follow |
| BearOptimizer.Apportion | kingshot/bear-event-optimizer/script.js:98-118 | one count per type: the floors of the shares plus one unit per round of the remainder along the sorted order; its sum, sign and largest-remainder properties are the lemmas below |
| BearOptimizer.DistributeRemainder | kingshot/bear-event-optimizer/script.js:109-115 | the `while (remainder > 0)` loop adds one unit per round to the next index of the sorted order, cycling, for `remainder` rounds (none when it is not positive) |
| BearOptimizer.BumpedSum | kingshot/bear-event-optimizer/script.js:111-115 | each round of the remainder loop raises the total by exactly one |
| BearOptimizer.FloorsAtMostCapacity | kingshot/bear-event-optimizer/script.js:99-101 | with percentages summing to at most 1 the floors never exceed the capacity, so the remainder is never negative |
| BearOptimizer.DeficitBelowCount | kingshot/bear-event-optimizer/script.js:101 | when the percentages sum to 1, the missing units are fewer than the number of types |
| BearOptimizer.ApportionSum | kingshot/bear-event-optimizer/script.js:98-118 | for capacity >= 0 and percentages summing to at most 1, the counts add up to the capacity exactly |
| BearOptimizer.ApportionNonNegative | kingshot/bear-event-optimizer/script.js:98-118 | with a non-negative capacity and non-negative percentages every count is non-negative |
| BearOptimizer.ApportionLargestRemainder | kingshot/bear-event-optimizer/script.js:103-115 | with percentages summing to 1, each count is the floor of its share or one more, and every type that gains a unit has a larger fractional part than every type that does not (lower index on a tie) |
| BearOptimizer.BumpedByOrder | kingshot/bear-event-optimizer/script.js:107-115 | with fewer rounds than types, each type gains at most one unit and the gainers precede the others in the sorted order |
| BearOptimizer.ApportionExample | kingshot/bear-event-optimizer/script.js:98-118 | 10 units at 34% / 33% / 33% give 4 / 3 / 3 |
| BearOptimizer.Deploy | kingshot/bear-event-optimizer/script.js:133-147 | archers deployed never exceed those available, and the deployed total is min(capacity, all troops) |
| BearOptimizer.DeployProperties | kingshot/bear-event-optimizer/script.js:133-142 | no type is deployed beyond what is available; the deployed total is min(capacity, all troops); archers go first, so archers covering the capacity leave no cavalry or infantry deployed |
| BearOptimizer.DeployShares | kingshot/bear-event-optimizer/script.js:142-147 | coverage lies in [0, 1]; each percentage lies in [0, 1]; the three sum to 1 when anything is deployed and are all 0 otherwise |
| BearOptimizer.ScaledBelow | kingshot/bear-event-optimizer/script.js:188-189 | a rally's effective capacity, round(capacity * coverage), lies between 0 and the capacity |
| BearOptimizer.RallyRow | kingshot/bear-event-optimizer/script.js:186-195 | a rally row keeps the rally's capacity, and with a coverage in [0, 1] and percentages summing to at most 1 its four parts add up to that capacity |
| BearOptimizer.RallyRowTotal | kingshot/bear-event-optimizer/script.js:188-195 | a rally's infantry, cavalry, archers and unfilled slots add up to its nominal capacity |
| BearOptimizer.ScaleRow | kingshot/bear-event-optimizer/script.js:197-200 | the join row times the join count: capacity and total both scaled by the count |
| BearOptimizer.ScaleRowTotal | kingshot/bear-event-optimizer/script.js:197-200 | multiplying the join row by the join count multiplies its total by the join count |
| BearOptimizer.RowsConserve | kingshot/bear-event-optimizer/script.js:187-205 | the rows built from a mix conserve capacity: the lead row, each join row and all joins together add up to their capacities, and the grand row to the total capacity |
| BearOptimizer.ComputePlan | kingshot/bear-event-optimizer/script.js:120-131 | the join count is the parsed input clamped to 0..6 (an input already in 0..6 is kept, NaN or a negative number gives 0); the total capacity is lead capacity plus join capacity times join count |
| BearOptimizer.PlanCapacity | kingshot/bear-event-optimizer/script.js:126-131 | the join count is the parsed input clamped to 0..6 and keeps any input already in 0..6; the total capacity is lead capacity plus join capacity times join count; the lead and join rows carry their own capacities |
| BearOptimizer.PlanDeployment | kingshot/bear-event-optimizer/script.js:133-142 | for any six inputs: no type beyond availability, deployed total = min(capacity, troops), archers first |
| BearOptimizer.PlanShares | kingshot/bear-event-optimizer/script.js:142-147 | for any six inputs: coverage in [0, 1], percentages in [0, 1] summing to 1 when anything is deployed, all 0 otherwise |
| BearOptimizer.PlanConservation | kingshot/bear-event-optimizer/script.js:187-205 | for any six inputs the lead row adds up to the lead capacity, each join row to the join capacity, and the grand totals (infantry + cavalry + archers + unfilled) to the total capacity |
| Research.CollapseRuns | kingshot/research/script.js:130 | replacing each run of characters outside [a-z0-9] by one dash leaves only [a-z0-9] and single dashes, and empties only the empty string |
| Research.Slugify | kingshot/research/script.js:127-132 | a slug holds only a-z, 0-9 and '-', never starts or ends with '-' and never holds "--" |
| Research.SlugifyOfSlug | kingshot/research/script.js:127-132 | a string that is already a slug is its own slug |
| Research.SlugifyIdempotent | kingshot/research/script.js:127-132 | slugifying twice is slugifying once |
| Research.BuildBranchId | kingshot/research/script.js:138-140 | a branch id is the tree id, a colon, and the slug of the branch name, in that order |
| Research.FindTreeIn | kingshot/research/script.js:424 | a found tree is one whose id plus ':' prefixes the branch id; none found means no tree's does |
| Research.FindTreeOfBranchId | kingshot/research/script.js:424 | an id built from a catalog tree's id leads back to that tree |
| Research.BranchTiersIn | kingshot/research/script.js:427-428 | the tier count looked up is the tree default or the count of some branch of the tree |
| Research.CreateEmptyProgress | kingshot/research/script.js:142-146 | a tiers x stagesPerTier grid with every stage unchecked |
| Research.LastStageIndices | kingshot/research/script.js:148-151 | the stages that unlock the next tier: the last two of the tier, or stage 0 when a tier has at most one stage |
| Research.IsStageUnlocked | kingshot/research/script.js:158-170 | the unlock test; its full characterisation is `UnlockRules` |
| Research.UnlockRules | kingshot/research/script.js:158-170 | tier 0 stage 0 is always open; in tier 0 a stage is open exactly when it is stage 0 or its predecessor is done; in a later tier a stage is open exactly when the last stages of the tier before (the last two, or the only one) are done and it is stage 0 or its predecessor is done |
| Research.UnlockMonotone | kingshot/research/script.js:158-170 | checking more stages never locks a stage that was open |
| Research.NormalizeBranchProgress | kingshot/research/script.js:172-182 | the nested fill loop computes `Normalized`, about which the following lemmas speak |
| Research.Normalized | kingshot/research/script.js:172-182 | the grid has the branch's shape and keeps a stage checked only where the raw grid had it |
| Research.UnlockedByWrittenCells | kingshot/research/script.js:174-179 | while the loop fills the grid in order, the unlock test at a cell reads only cells it has already written |
| Research.NormalizedBelowRaw | kingshot/research/script.js:177-178 | a normalized grid keeps a stage checked only where the raw grid had it checked |
| Research.NormalizedIsLegal | kingshot/research/script.js:172-182 | every checked stage of a normalized grid is unlocked in that grid, and the grid has the branch's shape |
| Research.NormalizedFixpoint | kingshot/research/script.js:172-182 | a grid is left unchanged by normalisation exactly when it is legal |
| Research.NormalizeIdempotent | kingshot/research/script.js:172-182 | normalising twice is normalising once |
| Research.LegalPrefix | kingshot/research/script.js:158-170 | within a tier of a legal grid the checked stages form a prefix |
| Research.NormalizedAfterUncheck | kingshot/research/script.js:172-182 | an unchecked stage takes down the rest of its tier and every later tier |
| Research.CountCompleted | kingshot/research/script.js:275-278 | the completed stages never exceed the grid's total |
| Research.CountTotal | kingshot/research/script.js:280-282 | the number of stages of a grid; `CountBounds` gives tiers times stages per tier |
| Research.CountBounds | kingshot/research/script.js:275-282 | completed stages never exceed the total, and the total is tiers times stages per tier |
| Research.RomanNumeral | kingshot/research/script.js:153-156 | 1..10 become I..X and any other value its decimal string |
| Research.RomanNumeralInjective | kingshot/research/script.js:153-156 | different tiers get different labels |
| Research.BuildDefaultBonuses | kingshot/research/script.js:184-193 | every stat of every bonus group, and only those, at 0 |
| Research.StatsFrom | kingshot/research/script.js:212-223 | exactly the given groups and their stats, each the stored value read by `RawStat` |
| Research.SanitizeBonuses | kingshot/research/script.js:212-223 | exactly the known groups and stats; each is the stored finite number or 0; nothing stored gives the defaults |
| Research.SanitizeBonusesIdempotent | kingshot/research/script.js:212-223 | sanitising a sanitised bonus table changes nothing |
| Research.UpdatedProgress | kingshot/research/script.js:429-433 | the grid a branch update stores is always legal |
| Research.UncheckClearsDependents | kingshot/research/script.js:432-433 | unchecking a stage clears it, the rest of its tier and every later tier |
| Research.CheckUnlockedSetsStage | kingshot/research/script.js:432-433 | checking an unlocked stage sets exactly that stage and keeps every other one |
| Research.StageOutOfRangeKeepsProgress | kingshot/research/script.js:432 | a stage index outside the tier only re-normalises the stored grid |
| Research.BranchUpdate | kingshot/research/script.js:423-442 | the update is refused exactly when no tree owns the branch id or the tier index is outside the branch's tiers; otherwise the addressed branch's grid becomes the stored grid normalised and with the one stage set, and every other branch is kept |
| Research.BranchUpdateKeepsLegal | kingshot/research/script.js:423-442 | an update keeps every stored grid legal for its branch |
| Research.TreeSlots | kingshot/research/script.js:197-202 | one slot per branch of a tree, in order, each with the branch's id, effective tier count (`branch.tiers` or the tree default) and the tree's stages per tier |
| Research.BranchesFrom | kingshot/research/script.js:229-236 | the branch table built slot by slot; its keys, grids and legality are `BranchesFromKeys`, `BranchesFromLast` and `BranchesFromLegal` |
| Research.BranchesFromKeys | kingshot/research/script.js:229-236 | the built branch table holds exactly the ids of the catalog's branches |
| Research.BranchesFromLast | kingshot/research/script.js:229-236 | each id's grid is the stored grid for that id (empty when none), normalised to the shape of the last branch with that id |
| Research.BranchesFromNothing | kingshot/research/script.js:196-203 | built with nothing stored, every branch is the empty grid of its shape |
| Research.BranchesFromIdempotent | kingshot/research/script.js:229-236 | rebuilding the branch table from itself changes nothing |
| Research.BuildDefaultState | kingshot/research/script.js:195-210 | the default state is stamped with the current time and carries the default bonuses |
| Research.DefaultBranchesEmpty | kingshot/research/script.js:195-210 | every branch of the default state is the empty grid of its shape |
| Research.SanitizeState | kingshot/research/script.js:225-244 | a state that is not an object gives the defaults; otherwise the bonuses are sanitised and the stored timestamp is kept (the current time when it is missing) |
| Research.SanitizeStateBranchIds | kingshot/research/script.js:229-236 | whatever was stored, the loaded state has exactly the branches of the catalog |
| Research.SanitizeStateIdempotent | kingshot/research/script.js:225-244 | saving a loaded state and loading it again changes nothing |
| Research.CatalogIsWellFormed | kingshot/research/script.js:20-77 | the three trees' ids start with distinct letters, and branches of a tree whose names start alike have the same tier count |
| Research.SlotShape | kingshot/research/script.js:424-429 | the update handler's lookups, applied to a catalog branch's id, find that branch's tree and its own tier count |
| Research.BranchesFromLegal | kingshot/research/script.js:229-236 | over a well-formed catalog every rebuilt grid is legal in the shape its id looks up |
| Research.SanitizeStateLegal | kingshot/research/script.js:225-244 | every branch of a loaded state obeys the unlock rule in the shape the update handler would use |
| Research.ResearchTracker.constructor | kingshot/research/script.js:246-255 | the page starts from the stored state sanitised, or the defaults, with every grid legal |
| Research.ResearchTracker.UpdateBranchProgress | kingshot/research/script.js:423-442 | an unknown tree or tier leaves the state untouched; otherwise only that branch changes (as `BranchUpdate`), the bonuses stay and the timestamp is refreshed |
| Research.ResearchTracker.UpdateBonusValue | kingshot/research/script.js:444-457 | only the addressed stat changes, to the finite number given or 0; branches and the other stats are kept |
| Research.ResearchTracker.ResetProgress | kingshot/research/script.js:539-545 | the whole state goes back to the defaults |
| Research.ResearchTracker.ResetBonuses | kingshot/research/script.js:547-554 | the bonuses go back to 0 and the branches are kept |
| Pets.DefaultPetFacts | kingshot/pets/pet-constants.js:2-19 | the rarity table is the default pet list read as a map; every built-in name is trimmed and at most 60 characters, and every rarity is a known tier |
| Pets.MaxLevelForRarity | kingshot/pets/script.js:79-81 | the level cap of the lowercased rarity (common 50, uncommon 60, rare 70, epic 80, mythical 100), 50 for an unknown one |
| Pets.MaxLevelCaseInsensitive | kingshot/pets/script.js:79-81 | rarities that differ only in letter case have the same cap |
| Pets.MaxLevelBounds | kingshot/pets/script.js:13-19 | every cap lies between 50 and 100 |
| Pets.MaxAbilityForLevel | kingshot/pets/script.js:83-85 | one ability level per full ten pet levels, and 0 below level 10 |
| Pets.MaxAbilityMonotone | kingshot/pets/script.js:83-85 | a higher level never lowers the ability cap |
| Pets.SanitizeTier | kingshot/pets/script.js:87-91 | the lowercased value when it is one of the five tiers, otherwise "common" |
| Pets.SanitizeTierIdempotent | kingshot/pets/script.js:87-91 | sanitising a tier twice is sanitising it once |
| Pets.SanitizeRefinement | kingshot/pets/script.js:129-133 | exactly the six refinement fields, each the sanitised stored tier |
| Pets.SanitizeRefinementOfValid | kingshot/pets/script.js:129-133 | a refinement already holding the six fields with known tiers is kept as it is |
| Pets.SanitizeName | kingshot/pets/script.js:117 | the trimmed name, cut to exactly its first 60 characters when longer |
| Pets.SanitizeRarity | kingshot/pets/script.js:118-119 | the built-in rarity for a known name, otherwise the stored rarity trimmed and lowercased, otherwise "common"; always lowercase and trimmed |
| Pets.SanitizePet | kingshot/pets/script.js:116-147 | the name is the trimmed name, cut to exactly its first 60 characters when longer; a known name takes its built-in rarity, otherwise the stored rarity trimmed and lowercased, or "common" when none is stored; level and ability are `CapLevels` of the stored numbers under that rarity's cap, so a stored level in [1, cap] and an ability within the level's cap are kept; the refinement is sanitised; a missing timestamp becomes the current time |
| Pets.CapLevels | kingshot/pets/script.js:120-127 | the stored level floored and clamped to [1, cap] (1 when missing), then the ability floored and clamped to [0, that level's cap] (0 when missing) |
| Pets.SanitizePetWith | kingshot/pets/script.js:120-146 | once name and rarity are settled: a valid pet under them, with the id and unlock flag kept, levels by `CapLevels`, the refinement sanitised and the timestamp kept or the current time |
| Pets.SanitizePetStable | kingshot/pets/script.js:116-147 | saving a valid pet and loading it again gives the same pet |
| Pets.DefaultPetSanitized | kingshot/pets/script.js:100-114 | a built-in pet starts under its own id, name and rarity, locked, at level 1 with ability 0 |
| Pets.BuildDefaultRoster | kingshot/pets/script.js:100-114 | one sanitised record per built-in pet, in the built-in order |
| Pets.BuildDefaultRosterFacts | kingshot/pets/script.js:100-114 | every default record is valid, carries the built-in id, name and rarity, is locked, and is at level 1 with ability 0 |
| Pets.MatchSaved | kingshot/pets/script.js:173-176 | the saved record for a built-in pet is the last saved pet with its id (a later duplicate overwrites an earlier one in the lookup map) or, when no saved pet has the id, the last one with its name; none when neither exists |
| Pets.MergeOne | kingshot/pets/script.js:176-184 | a built-in pet without a saved match stays as it is; with one, the saved record is sanitised under the built-in id and name (`MergeOneFacts`) |
| Pets.MergeWithDefaults | kingshot/pets/script.js:171-185 | exactly one entry per built-in pet, in the built-in order, each merged with its matching saved record |
| Pets.MergeOneFacts | kingshot/pets/script.js:176-183 | a merged entry is valid, keeps the built-in id, name and rarity, takes the saved unlock flag, and keeps saved levels and refinements that were valid for its rarity |
| Pets.MergeWithDefaultsShape | kingshot/pets/script.js:171-185 | each merged entry is valid and carries the built-in id, name and rarity of its position |
| Pets.MergeWithDefaultsUnmatched | kingshot/pets/script.js:177 | a built-in pet with no saved record stays at its defaults |
| Pets.MergeWithDefaultsKeepsSaved | kingshot/pets/script.js:176-184 | a built-in pet with a saved record takes its unlock flag, and its levels and refinements when those were valid |
| Pets.RosterForView | kingshot/pets/script.js:202-210 | the view never shows more pets than the roster has |
| Pets.MatchesQuery | kingshot/pets/script.js:206-210 | the search test; `RosterForViewMembership` states what it keeps |
| Pets.RosterForViewMembership | kingshot/pets/script.js:203-210 | a pet is shown exactly when it is in the roster and the trimmed search is blank or occurs in its name, ignoring case |
| Pets.RosterForViewBlank | kingshot/pets/script.js:207 | a blank search shows the whole roster in order |
| Pets.Truthy | kingshot/pets/script.js:287 | `Boolean(value)` of a checkbox state or a select's text |
| Pets.NumberOr | kingshot/pets/script.js:290-295 | `Number(value)`, or `d` in place of a falsy number: never NaN; NaN and 0 give `d`, any other number is kept |
| Pets.FloorClamp | kingshot/pets/script.js:290-295 | the floored number clamped to [lo, hi]: kept when inside, the nearer bound otherwise, and Infinity / -Infinity go to hi / lo |
| Pets.EditPet | kingshot/pets/script.js:282-305 | an edit keeps the id, name and rarity and stamps the time; "unlocked" sets the flag; "level" writes the chosen number floored when it lies in [1, cap], the cap for a larger number or Infinity, 1 for 0, NaN, -Infinity or anything below 1, and re-caps the ability; "abilityLevel" writes the floored number when it lies in [0, the level's ability cap], that cap above it, 0 below it or for NaN; "refine:k" sets that one refinement to the sanitised tier; an unknown refinement key is refused; any other field only refreshes the timestamp |
| Pets.EditPetKeepsValid | kingshot/pets/script.js:286-303 | every accepted edit keeps a valid pet valid |
| Pets.LevelEditRecapsAbility | kingshot/pets/script.js:288-292 | after a level edit, an ability the new level still allows is kept and a larger one drops to the new cap |
| Pets.LevelEditWithoutNumber | kingshot/pets/script.js:288-291 | a level edit with an empty value, 0 or text that is not a number sets level 1 (and so ability 0); "Infinity" sets the rarity's cap |
| Pets.FindPet | kingshot/pets/script.js:283 | the index of the first pet with the id, or none when no pet has it |
| Pets.RosterEdit | kingshot/pets/script.js:282-307 | nothing changes exactly when no pet has the id or the edit is refused; otherwise the first pet with the id is replaced by its edited value and every other pet is kept, so the roster keeps its length |
| Pets.RosterEditKeepsValid | kingshot/pets/script.js:282-307 | an edit keeps every pet of a valid roster valid |
| Pets.PetRoster.constructor | kingshot/pets/script.js:187-188 | the page starts from the built-in pets merged with the saved ones, all valid |
| Pets.PetRoster.UpdatePetField | kingshot/pets/script.js:282-307 | the roster becomes `RosterEdit` of the old one, or stays untouched when the id or refinement key is unknown; every pet stays valid |
| Pets.PetRoster.Reset | kingshot/pets/script.js:326-334 | the roster goes back to the built-in pets at their defaults |
| GearCharms.UnsetIsNotALevel | kingshot/governor-gear-charms/script.js:18-58 | the unset level "" is not one of the named gear levels |
| GearCharms.SanitizeCharm | kingshot/governor-gear-charms/script.js:96-100 | a charm lies in [1, 11]; a non-finite value becomes 1; in-range values are kept exactly; others go to the nearer bound |
| GearCharms.SanitizeCharms | kingshot/governor-gear-charms/script.js:93-102 | always three valid charms; a stored value that is not an array gives [1, 1, 1]; otherwise each is the sanitised stored entry (missing entries count as non-finite) |
| GearCharms.SanitizeCharmsOfValid | kingshot/governor-gear-charms/script.js:93-102 | three charms already in [1, 11] are kept |
| GearCharms.SanitizeCharmsIdempotent | kingshot/governor-gear-charms/script.js:93-102 | sanitising sanitised charms changes nothing |
| GearCharms.BuildDefaultGear | kingshot/governor-gear-charms/script.js:75-83 | the six items, each unset with charms [1, 1, 1] |
| GearCharms.BuildDefaultState | kingshot/governor-gear-charms/script.js:85-91 | the default state is stamped with the current time and holds the six items, each unset with charms [1, 1, 1] |
| GearCharms.SanitizeLevel | kingshot/governor-gear-charms/script.js:111-113 | a stored level is kept only when it is one of the named levels, otherwise it becomes unset |
| GearCharms.SanitizeEntry | kingshot/governor-gear-charms/script.js:110-117 | a missing item gets the defaults; otherwise its level and charms are each sanitised |
| GearCharms.SanitizeState | kingshot/governor-gear-charms/script.js:104-125 | always exactly the six items with valid charms and a named or unset level; a state that is not an object gives the defaults; the stored timestamp is kept (the current time when missing) |
| GearCharms.SanitizeStateMissingItem | kingshot/governor-gear-charms/script.js:108-118 | an item missing from the stored state loads unset with charms [1, 1, 1] |
| GearCharms.SanitizeStateIdempotent | kingshot/governor-gear-charms/script.js:104-125 | saving a loaded state and loading it again changes nothing |
| GearCharms.SanitizeStateOfValid | kingshot/governor-gear-charms/script.js:104-125 | a state with the six items, valid charms and named or unset levels loads back unchanged |
| GearCharms.SanitizeEntryOfValid | kingshot/governor-gear-charms/script.js:110-117 | a valid item loads back unchanged |
| GearCharms.SetGearLevel | kingshot/governor-gear-charms/script.js:232-244 | only the named item's level changes, to the value given, unchecked; its charms and the other items are kept |
| GearCharms.ReplaceCharm | kingshot/governor-gear-charms/script.js:248-250 | the charm at the index becomes the new value and every other charm is kept |
| GearCharms.SetCharmLevel | kingshot/governor-gear-charms/script.js:246-262 | only the named item's charms change, and they stay valid; its level and the other items are kept |
| GearCharms.SetCharmLevelChangesOneCharm | kingshot/governor-gear-charms/script.js:246-262 | on valid charms the edit sets exactly the addressed charm, to the clamped value |
| GearCharms.SetCharmLevelOutOfRange | kingshot/governor-gear-charms/script.js:248-250 | an index outside 0..2 leaves valid charms unchanged |
| GearCharms.EditsKeepGearValid | kingshot/governor-gear-charms/script.js:232-262 | both edits keep the six items with valid charms |
| GearCharms.GearTracker.constructor | kingshot/governor-gear-charms/script.js:127-136 | the page starts from the stored state sanitised, or the defaults |
| GearCharms.GearTracker.UpdateGearLevel | kingshot/governor-gear-charms/script.js:232-244 | the gear becomes `SetGearLevel` of the old gear, the state stays valid, and the time is refreshed |
| GearCharms.GearTracker.UpdateCharmLevel | kingshot/governor-gear-charms/script.js:246-262 | the gear becomes `SetCharmLevel` of the old gear, the state stays valid, and the time is refreshed |
| GearCharms.GearTracker.Reset | kingshot/governor-gear-charms/script.js:330-336 | the gear goes back to the defaults |
| Troops.IdInjective | kingshot/troops/script.js:8-12 | different troop types have different ids |
| Troops.KindOf | kingshot/troops/script.js:143-144 | a type id names the troop type with that id, or none when no type has it |
| Troops.LevelsAreElevenDownToOne | kingshot/troops/script.js:14 | the levels are 11 down to 1, each once |
| Troops.SanitizeCount | kingshot/troops/script.js:72-74 | a count is the floor of a finite non-negative value, otherwise 0, so it is never negative |
| Troops.SanitizeCountOfCount | kingshot/troops/script.js:74 | a whole non-negative count is kept |
| Troops.SanitizeLevels | kingshot/troops/script.js:70-75 | exactly the levels 1 to 11, each the sanitised stored count (0 when missing); other levels are dropped |
| Troops.SanitizeTroop | kingshot/troops/script.js:69-81 | a valid troop of its type; nothing stored gives 0 at every level; a stored timestamp is kept only when it is a string |
| Troops.SanitizeRoster | kingshot/troops/script.js:65-84 | exactly the three known types, each valid and sanitised from what was stored under its id; other keys are dropped |
| Troops.BuildDefaultRoster | kingshot/troops/script.js:49-63 | the three types, each with levels 1 to 11 all at 0 |
| Troops.SanitizeTroopOfSanitized | kingshot/troops/script.js:69-81 | a valid troop loads back unchanged |
| Troops.ReloadRoster | kingshot/troops/script.js:65-84 | a valid roster with levels 1 to 11 loads back unchanged |
| Troops.SanitizeRosterIdempotent | kingshot/troops/script.js:65-84 | saving a loaded roster and loading it again changes nothing |
| Troops.LevelUpdate | kingshot/troops/script.js:142-149 | an unknown type is refused; otherwise only that level of that type changes, to the sanitised count, together with that troop's timestamp |
| Troops.LevelUpdateKeepsValid | kingshot/troops/script.js:142-149 | an update keeps the roster valid |
| Troops.TroopTracker.constructor | kingshot/troops/script.js:86-96 | the page starts from the stored roster sanitised |
| Troops.TroopTracker.UpdateLevel | kingshot/troops/script.js:142-149 | the roster becomes `LevelUpdate` of the old one, or stays untouched for an unknown type, and stays valid |
| Troops.TroopTracker.Reset | kingshot/troops/script.js:168-176 | every count goes back to 0 |
| Heroes.CleanPiece | kingshot/heroes/script.js:74-76 | a blank piece gives no tag; any other gives its trimmed, lowercased text |
| Heroes.CleanTags | kingshot/heroes/script.js:74-76 | the pieces trimmed, blanks dropped and lowercased, in order; its membership and cleanliness are the lemmas below |
| Heroes.CleanTagsConcat | kingshot/heroes/script.js:72-76 | cleaning a concatenation cleans each part, so tags keep the order of their pieces |
| Heroes.CleanTagsMembership | kingshot/heroes/script.js:72-76 | a tag comes out exactly when some piece trims to non-blank text that lowercases to it |
| Heroes.CleanTagsAreClean | kingshot/heroes/script.js:74-76 | every tag that comes out is non-empty, trimmed and lowercase |
| Heroes.CleanTagsOfClean | kingshot/heroes/script.js:74-76 | tags that are already clean are kept as they are |
| Heroes.NormalizeTags | kingshot/heroes/script.js:70-77 | empty input gives no tags; every tag is non-empty, trimmed, lowercase and free of commas |
| Heroes.EditDialogTagsRoundTrip | kingshot/heroes/script.js:215 | clean tags joined by ", " for the edit dialog and normalised again on save come back unchanged |
| Heroes.WholeAtLeast | kingshot/heroes/script.js:81-82 | a finite value floored but at least the lower bound; a non-finite one gives the bound |
| Heroes.SanitizeTags | kingshot/heroes/script.js:70-77 | an array is cleaned element by element and text is normalised, every tag coming out non-empty, trimmed and lowercase; any other truthy value makes normalizeTags throw (None) |
| Heroes.SanitizeHero | kingshot/heroes/script.js:79-89 | throws (None) exactly when the tags are neither an array nor text; otherwise the name is the trimmed name cut to exactly its first 60 characters when longer, the notes likewise at 500; the level is the floor of a finite value >= 1 and 1 otherwise, the stars the floor of a finite value >= 0 and 0 otherwise; id and time kept when present, fresh otherwise |
| Heroes.SanitizeHeroRoundTrip | kingshot/heroes/script.js:79-89 | saving a stable hero and loading it again gives the same hero, without throwing |
| Heroes.LoadRoster | kingshot/heroes/script.js:91-101 | no stored array gives an empty roster, and so does an array with a `null` entry or an entry on which sanitizeHero throws (the catch); otherwise one sanitised hero per stored entry, in order |
| Heroes.FormHero | kingshot/heroes/script.js:223-232 | the form's hero is the sanitised form: its trimmed id or a fresh one, its name trimmed and cut to 60, its notes trimmed and cut to 500, its level floored and at least 1 and its stars floored and at least 0 (1 and 0 for a missing number), its tags normalised, and stamped with the current time whenever that is non-empty |
| Heroes.Upserted | kingshot/heroes/script.js:236-238 | a hero whose id is present replaces the first hero with that id in place and nothing else changes; a new id is appended |
| Heroes.UpsertKeepsValid | kingshot/heroes/script.js:222-242 | saving a valid hero keeps every hero valid |
| Heroes.UpsertKeepsUniqueIds | kingshot/heroes/script.js:236-238 | saving never creates a second hero with the same id |
| Heroes.UpsertThenFind | kingshot/heroes/script.js:207-209 | after saving, the edit dialog's lookup by id finds the saved hero |
| Heroes.UpsertIdempotent | kingshot/heroes/script.js:236-238 | saving the same hero twice is saving it once |
| Heroes.Deleted | kingshot/heroes/script.js:274 | no hero with the deleted id remains |
| Heroes.DeletedMembership | kingshot/heroes/script.js:274 | a hero survives a delete exactly when it was there with another id |
| Heroes.DeleteUndoesAdd | kingshot/heroes/script.js:274 | deleting a hero that was just added gives the roster back |
| Heroes.HeroesForView | kingshot/heroes/script.js:119-132 | the view never shows more heroes than the roster has |
| Heroes.Haystack | kingshot/heroes/script.js:126 | the searched text: name, notes, tags, level and stars joined by spaces and lowercased |
| Heroes.MatchesQuery | kingshot/heroes/script.js:125-127 | the search test; `HeroesForViewMembership` states what it keeps |
| Heroes.MatchesTag | kingshot/heroes/script.js:129-131 | the tag test; `HeroesForViewMembership` states what it keeps |
| Heroes.HeroesForViewMembership | kingshot/heroes/script.js:123-132 | a hero is shown exactly when the trimmed, lowercased search is blank or occurs in its text, and the tag choice is "all" or one of its tags |
| Heroes.HeroesForViewEveryone | kingshot/heroes/script.js:124-131 | a blank search and the "all" tag show the whole roster in order |
| Heroes.NameMatchFound | kingshot/heroes/script.js:126-127 | a hero whose lowercased name contains the query matches it |
| Heroes.AllTags | kingshot/heroes/script.js:139-140 | every hero's tags in roster order; `AllTagsMembership` states what it holds |
| Heroes.AllTagsMembership | kingshot/heroes/script.js:139-140 | the collected tags are exactly the tags some hero carries |
| Heroes.Distinct | kingshot/heroes/script.js:139-143 | the set read back holds each value once and exactly the values added |
| Heroes.CollectTags | kingshot/heroes/script.js:139-140 | the nested loop collects each tag of the roster once, in first-seen order |
| Heroes.AddTags | kingshot/heroes/script.js:140 | the inner loop adds one hero's tags to the set in order |
| Heroes.InsertTag | kingshot/heroes/script.js:143 | inserting a tag into sorted tags keeps them sorted and adds exactly that tag |
| Heroes.SortTags | kingshot/heroes/script.js:143 | the sort gives the same distinct tags in increasing character order (the code-unit order of `.sort()` for text inside the Basic Multilingual Plane) |
| Heroes.TagOptions | kingshot/heroes/script.js:139-143 | the tag filter's options are strictly increasing, so each tag is offered once |
| Heroes.TagOptionsMembership | kingshot/heroes/script.js:139-143 | the options are exactly the tags some hero carries |
| Heroes.SelectedTag | kingshot/heroes/script.js:142-149 | the selection is kept when it is still offered, otherwise it becomes "all" |
| Heroes.HeroRoster.constructor | kingshot/heroes/script.js:107 | the page starts from the stored roster loaded and sanitised |
| Heroes.HeroRoster.UpsertFromForm | kingshot/heroes/script.js:222-242 | a hero without a name is not saved; otherwise the roster becomes `Upserted` of the old one, and stays valid |
| Heroes.HeroRoster.Delete | kingshot/heroes/script.js:268-276 | the roster loses every hero with the id and keeps the rest in order |
| Heroes.HeroRoster.ClearAll | kingshot/heroes/script.js:281-290 | the roster becomes empty |
| Landing.ReplaceAllAbsent | kingshot/script.js:100-104 | replacing a character that does not occur changes nothing |
| Landing.ReplaceAll | kingshot/script.js:100-104 | every character of the result comes from the text or the replacement, so a character the replacement does not hold is gone |
| Landing.EscapeHtml | kingshot/script.js:98-105 | the escaped text holds none of < > " ' |
| Landing.EscapeChar | kingshot/script.js:100-104 | an escaped character holds none of < > " ' |
| Landing.EscapeEach | kingshot/script.js:98-105 | escaping character by character leaves none of < > " ' |
| Landing.EscapeHtmlOfChar | kingshot/script.js:98-105 | the five chained replacements turn one character into its entity; the later replacements never re-escape the "&" that the first one wrote |
| Landing.EscapeHtmlIsEscapeEach | kingshot/script.js:98-105 | the chained replacements escape each character on its own |
| Landing.EscapeHtmlSafe | kingshot/script.js:98-105 | escaped text contains no < > " or ' |
| Landing.EscapeHtmlPlain | kingshot/script.js:98-105 | text without any of & < > " ' is returned unchanged |
| Landing.EscapeHtmlRoundTrip | kingshot/script.js:98-105 | reading the five entities back gives the original text |
| Landing.StatusLabel | kingshot/script.js:107-115 | live, beta, wip and planned get their labels; any other status is shown as it is |
| Landing.StatusLabelIdempotent | kingshot/script.js:107-115 | labelling a label again keeps it |
| Landing.MatchesSearch | kingshot/script.js:117-126 | the search test; `ApplyFiltersMembership` and `TitleMatchFound` state what it keeps |
| Landing.MatchesStatus | kingshot/script.js:128-131 | the status test; `ApplyFiltersMembership` states what it keeps |
| Landing.ApplyFilters | kingshot/script.js:169-178 | the filtered list never holds more tools than the catalog |
| Landing.ApplyFiltersMembership | kingshot/script.js:169-178 | a tool is shown exactly when it is in the catalog, the trimmed search is empty or occurs in its text ignoring case, and the status is empty, "all" or its own |
| Landing.ApplyFiltersReset | kingshot/script.js:170-175 | a blank search and "all" show the whole catalog in order |
| Landing.ApplyFiltersConcat | kingshot/script.js:173-175 | filtering keeps the catalog's order: filtering two parts is filtering each |
| Landing.TitleMatchFound | kingshot/script.js:117-126 | a query found in a tool's title, ignoring case, matches that tool |

## Left out

- Rendering, HTML templates, `setBar`, `formatNumber`, `formatPercent`, `renderTools`, event wiring, `confirm`/`alert`, the theme toggle and the debug panel: these are browser UI. `escapeHtml` is modelled once, in `Landing`.
- Browser storage, `JSON.parse`/`JSON.stringify`, file export and import: these are I/O. The constructors take what was stored, already parsed, and `None` stands for "nothing stored or not parseable". The pets page's fallback to its legacy storage key is part of this I/O: `Pets.PetRoster.constructor` takes the saved pets already sanitised.
- The clock (`nowIso`) and random ids (`randomId`) are parameters (`now`, `freshId`).
- JavaScript coercions (`Number`, `Number.parseInt`, `Number.isFinite`, `Boolean`, `String`, `||` defaults) on arbitrary values: inputs arrive already coerced. A number is `Option<real>` or `Option<int>`, with `None` for NaN and infinities; the pets editor, where an infinity behaves differently from NaN, takes `Number(value)` as a `JsNumber` (finite, NaN, Infinity or -Infinity). A text field is a string, with "" for a falsy value. `typeof` tests become `Option`.
- IEEE-754 doubles: all arithmetic is exact (`real` and unbounded `int`). Floating-point rounding in `Math.floor(capacity * percent)` is not modelled, so the sum and conservation lemmas hold for exact arithmetic.
- Strings are sequences of Unicode scalar values (Dafny's `char`), not of UTF-16 code units. For text outside the Basic Multilingual Plane (an emoji in a hero or pet name, say) the lengths, the `slice(0, 60)` and `slice(0, 500)` cuts and the `.sort()` order of the model differ from JavaScript's, which count and compare code units. `toLowerCase` is modelled for ASCII letters only. `trim` removes ECMAScript white space and line terminators.
- `localeCompare`: the name sorts at the end of the heroes and pets `rosterForView` are locale-dependent. `Heroes.HeroesForView` and `Pets.RosterForView` stop before the sort. The tag sort of the heroes page uses plain `.sort()`, which is modelled (`Heroes.SortTags`).
- Lookups in the rarity tables with names such as "constructor" that would reach the object prototype: the tables are maps with only their own keys.
- The `version` field of stored states and the `type`/`label` fields of stored troops are left out: the pages only ever write constants there.
- Troop levels are integer keys. JavaScript stores them as the strings "1" to "11", and the two agree for these keys.
- Research grids are sequences of sequences of booleans. A stored cell that is truthy but not `true` (a number, a string) is taken as already coerced by `Boolean`.
- `Research.CatalogIsWellFormed` is proved about this catalog's constants, and the tracker's invariant depends on it. A catalog whose branch names share an initial but differ in tier count would need a different proof.
- Per-joiner apportionment: the calculator computes one joining rally's split and multiplies it by the join count, and the model does the same.
- GearCharms.GearTracker.UpdateGearLevel: requires an item the page knows. The page only calls it from its own six selects. Given an unknown name, the JavaScript would add an entry that has no charms.
- GearCharms.GearTracker.UpdateCharmLevel: requires an item the page knows, for the same reason. Given an unknown name, the JavaScript would throw.
- GearCharms.SanitizeStateIdempotent: holds only when the loaded timestamp is not empty, because an empty stored timestamp is replaced by the current time.
- Heroes.SanitizeHeroRoundTrip: only for heroes whose name and notes are already trimmed and within their length limits, and which have an id and a timestamp. A name cut to 60 characters in the middle of white space is not trimmed again, so it would change on the next load.
- Pets.SanitizePetStable: only for pets whose trimmed name is within 60 characters and which have a timestamp, for the same reason.
