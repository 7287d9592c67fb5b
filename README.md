# Le Cœur du Donjon — anti-cheat and player-state core in Dafny

This project models the part of the browser dungeon crawler *Le Cœur du Donjon* that
protects and changes the player record, and it proves properties of that model:

- **Anti-cheat validators.** These are the range table, `validatePlayerData`,
  `validateInventory`, `validateProgressionRate`, the checksum and the `_integrity`
  envelope of a save, `detectCheatPatterns`, and the load-time gate
  `validateSaveData`.
- **Runtime integrity checker.** It takes snapshots, compares two of them, keeps a
  leaky-bucket anomaly counter between periodic checks, and gates critical actions.
- **Game-logic mutations.** These cover level-up, spending a stat point, selling an
  item, the leaderboard score, and merging the current player into the local
  leaderboard.
- **Character creation.** It applies the sex, class and race tables.
- **Boss encounters.** They cover eligibility, index selection and scaling.
- **Event effects.** These are the effects of the random events and of the moral
  choices.

Modules follow the source files:

| Module | Models |
|---|---|
| `Results` | the shared `Option`, `Outcome` and `Result` wrappers |
| `Checksum` | calculateChecksum and verifyChecksum |
| `AntiCheat` | js/anti-cheat.js |
| `IntegrityChecker` | js/integrity-checker.js |
| `Hero` | the mutable `gameState.player` record |
| `GameLogic` | the js/game-logic.js operations |
| `CharacterClasses`, `CharacterRaces`, `CharacterSexes` | the character tables |
| `CharacterCreation` | the creation sequence, and how its result meets the validators |
| `Boss` | js/combat/boss.js |
| `Events` | js/data/events.js |

The model's shape follows the source:

- **In-place code is imperative.** The source updates `gameState.player` in place.
  The model does the same through the class `Hero.Player`, whose methods change the
  record step by step. Each method is proved equal to a specification function on
  the record value: `LevelUp`, `SpendStat`, `Sell`, `WithClass`, `EventOutcome`, and
  so on. The lemmas are proved about those functions.
- **Loops stay loops.** Checksum accumulation, the range-table walk, the inventory
  loop and `findIndex` are `while` loops with invariants.
- **Module state is a class.** The integrity checker's module-level variables are the
  fields of the class `IntegrityChecker.Monitor`.
- **Environment values are parameters.**
  - `Date.now()` is a parameter `now` in milliseconds.
  - `Math.random()` is a parameter `draw` in [0, 1).
  - The answer to `confirm` is a parameter `confirmed`.
  - `JSON.stringify` is a parameter `ser`, a function from player data to UTF-16 code
    units.
  - The `bosses` table is a parameter.
  - `MAX_LEVEL` is the constant 24.

## Model

| member | source | states |
|---|---|---|
| AntiCheat.TableIndex | js/anti-cheat.js:7-26 | every tracked property has a row of the range table, and that row names it |
| AntiCheat.TableRowsAreDistinct | js/anti-cheat.js:7-26 | no property has two rows in the table |
| AntiCheat.RangeBounds | js/anti-cheat.js:8-25 | the minimum and maximum of each property, row by row (statPoints up to 2·MAX_LEVEL) |
| Checksum.ToInt32 | js/anti-cheat.js:35 | the 32-bit wrap lands in the signed range, differs from its input by a multiple of 2^32, and leaves 32-bit values unchanged |
| Checksum.Hash | js/anti-cheat.js:31-36 | the accumulator is always a signed 32-bit integer |
| Checksum.StepIsTimes31 | js/anti-cheat.js:34-35 | `((h << 5) - h) + c` wrapped to 32 bits is the rolling hash `31·h + c` modulo 2^32 |
| Checksum.HashAppend | js/anti-cheat.js:32-36 | one more code unit extends the hash by one multiply-by-31 round |
| Checksum.StepInjective | js/anti-cheat.js:34-35 | a round never maps two different accumulators to the same value |
| Checksum.StepSeparates | js/anti-cheat.js:34-35 | a round maps two different code units to different accumulators |
| Checksum.HashDetectsSingleEdit | js/anti-cheat.js:29-38 | changing one code unit of the serialized text, keeping its length, changes the hash |
| Checksum.Radix36RoundTrip | js/anti-cheat.js:37 | reading back the `toString(36)` rendering gives the hashed number |
| Checksum.Radix36Injective | js/anti-cheat.js:37 | different numbers render to different radix-36 strings |
| Checksum.CalculateChecksum | js/anti-cheat.js:29-38 | the loop returns the radix-36 rendering of the hash of all code units, and the rendering reads back as that hash |
| Checksum.Digest | js/anti-cheat.js:29-38 | the digest is a non-empty string that reads back as the hash |
| Checksum.VerifyChecksum | js/anti-cheat.js:41-44 | a recomputed digest always verifies, and a digest that verifies pins down the hash exactly |
| Checksum.ChecksumDetectsSingleEdit | js/anti-cheat.js:41-44 | after a one-unit edit of the serialized text, the old digest fails to verify |
| AntiCheat.ValidatePlayerData | js/anti-cheat.js:47-78 | the table walk and the three logical rules give the verdict, and success means exactly that every present property is a number in range and that health, energy and mana are at most their maxima |
| AntiCheat.PlayerDataVerdict | js/anti-cheat.js:47-69 | a range failure names a present property whose value is out of its row; each max rule fails only when it is broken and the earlier max rules are not; a pass satisfies all three max rules |
| AntiCheat.PassIffAcceptable | js/anti-cheat.js:49-69 | both directions: the walk passes iff the field-by-field invariants hold |
| AntiCheat.FirstBrokenRowReported | js/anti-cheat.js:49-56 | fail-fast: the error reported is the first broken row in table order, with its value and bounds |
| AntiCheat.OutOfRangeFieldRejected | js/anti-cheat.js:50-54 | any present property outside its range, or not a number, makes validation throw a range error at that row or an earlier one |
| AntiCheat.ReportedViolationIsFirst | js/anti-cheat.js:49-56 | a reported range error is genuine and no earlier row is broken |
| AntiCheat.RangeCheckFailureIsReal | js/anti-cheat.js:49-56 | the walk from any row fails only on a genuinely broken row, with all rows before it intact |
| AntiCheat.HealthAboveMaxRejected | js/anti-cheat.js:59-61 | health above maxHealth always fails, and it is the error reported once the ranges pass |
| AntiCheat.EnergyAboveMaxRejected | js/anti-cheat.js:63-65 | energy above maxEnergy always fails, and it is reported after the ranges and the health rule |
| AntiCheat.ManaAboveMaxRejected | js/anti-cheat.js:67-69 | mana above maxMana always fails, and it is reported after everything before it |
| AntiCheat.UntrackedPropertiesIgnored | js/anti-cheat.js:47-78 | properties outside the table, and the inventory, never change the verdict |
| AntiCheat.TestPlayerAccepted | tests/anti-cheat.test.js:16-37 | the tests' valid, minimum-value and level-24 players are accepted |
| AntiCheat.TestFieldsInRange | tests/anti-cheat.test.js:153-189 | every tracked field of the three test players is in range |
| AntiCheat.TestCurrentWithinMaximum | tests/anti-cheat.test.js:153-189 | in the test players, health, energy and mana are at most their maxima |
| AntiCheat.InvalidHeroesRejectedOnLevel | tests/anti-cheat.test.js:39-44 | the tests' invalid hero is rejected on level (the first row), and a level-25 hero is rejected too |
| AntiCheat.ValidateInventory | js/anti-cheat.js:138-172 | the loop refuses a non-array, then the first bad item, and otherwise returns the per-name-and-rarity totals of `InventoryVerdict` |
| AntiCheat.InventoryVerdict | js/anti-cheat.js:138-172 | a non-array is refused as such; an accepted inventory is an array of objects; any other refusal names an item of the array |
| AntiCheat.InventoryAcceptedIff | js/anti-cheat.js:139-157 | both directions: accepted iff it is an array and every item is an object with no truthy non-string name and no quantity outside [1, 999] |
| AntiCheat.InventoryRejectsFirstBadItem | js/anti-cheat.js:145-157 | a refused array is refused for its first bad item |
| AntiCheat.TestInventories | tests/anti-cheat.test.js:83-98 | the tests' valid inventory is accepted with one total per key, and a stack of 9999 is refused on its quantity |
| AntiCheat.TotalsBoundedByItems | js/anti-cheat.js:159-162 | a key's total lies between the number of items with that key and 999 times that number |
| AntiCheat.SuspiciousTotalNeedsSeveralItems | js/anti-cheat.js:164-169 | a total above 999 needs at least two items sharing a name and rarity |
| AntiCheat.ValidateProgressionRate | js/anti-cheat.js:175-190 | always accepts, and warns only with a previous state, a level and less than a minute elapsed |
| AntiCheat.ProgressionRateExamples | js/anti-cheat.js:180-187 | one level is never flagged; two or more within a minute are |
| AntiCheat.StampFor | js/anti-cheat.js:193-207 | the envelope carries `now` and the player's version; it has a checksum exactly when there is a player, and that checksum verifies against the player |
| AntiCheat.VersionOf | js/anti-cheat.js:196 | the version is the player's level when it is present and truthy, otherwise 1, and is always truthy |
| AntiCheat.AddIntegrityMetadata | js/anti-cheat.js:193-207 | writes that envelope into the blob, leaves the player untouched, and returns the same blob |
| AntiCheat.VerifyIntegrityMetadata | js/anti-cheat.js:210-237 | a missing envelope fails; with an envelope, the blob passes exactly unless there is a player and a non-empty checksum that differs, as a string, from the player's digest; a passing checksum has the player's exact hash |
| AntiCheat.VerifyAfterStamp | js/anti-cheat.js:193-237 | round trip: a blob verifies straight after it is stamped |
| AntiCheat.TamperedPlayerFailsVerification | js/anti-cheat.js:219-224 | tamper evidence: a stamped blob whose player changes in one serialized code unit fails verification |
| AntiCheat.DetectCheatPatterns | js/anti-cheat.js:240-276 | warns about exactly the rules that fire, each once, in rule order |
| AntiCheat.DeathsNeverWarn | js/anti-cheat.js:265-269 | the deaths property never changes any warning |
| AntiCheat.SuspiciousTestHeroFlagged | tests/anti-cheat.test.js:46-51 | the tests' suspicious hero trips rules 1 and 2 and no others |
| AntiCheat.ValidateSaveData | js/anti-cheat.js:279-312 | the error cases in order (structure, player, player data, inventory when present); otherwise acceptance with the integrity result and the exact cheat warnings, which never refuse the load |
| IntegrityChecker.TakeSnapshot | js/integrity-checker.js:19-31 | the snapshot holds the player's eight critical properties and `now` |
| IntegrityChecker.CheckForSuspiciousChanges | js/integrity-checker.js:34-71 | at most one warning per rule; the rapid-gold and rapid-level warnings only within five minutes; a level-decrease warning only when the level fell |
| IntegrityChecker.SuspiciousChangesAreFiredRules | js/integrity-checker.js:34-71 | the diff equals the independent reference: the rules that fire, in rule order |
| IntegrityChecker.SuspiciousChangesReported | js/integrity-checker.js:34-71 | a warning is reported iff its rule fires, in strictly increasing rule order, hence without repeats |
| IntegrityChecker.FiredMembers | js/integrity-checker.js:40-68 | a rule appears in the reference list iff it is listed and fires |
| IntegrityChecker.FiredInOrder | js/integrity-checker.js:40-68 | the reference list keeps the rules' order |
| IntegrityChecker.IdenticalSnapshotsOnlyReportHealth | js/integrity-checker.js:34-71 | a snapshot compared with itself can only report health above its maximum |
| IntegrityChecker.IdenticalValidSnapshotsAreClean | js/integrity-checker.js:74-87 | a validated player compared with itself reports nothing |
| IntegrityChecker.NextAnomalyCount | js/integrity-checker.js:89-102 | the counter stays in [0, 3); warnings add their count unless the threshold resets it; a clean check lowers it by one, not below 0 |
| IntegrityChecker.CleanChecksLeak | js/integrity-checker.js:99-102 | N clean checks leave max(0, count − N) |
| IntegrityChecker.CounterStaysBelowThreshold | js/integrity-checker.js:89-102 | over any run of checks the counter never reaches ANOMALY_THRESHOLD |
| IntegrityChecker.ThreeAnomaliesReset | js/integrity-checker.js:89-98 | three single-warning checks reach the threshold and reset the counter |
| IntegrityChecker.Monitor.constructor | js/integrity-checker.js:8-16 | the module's initial state: no snapshot, counter 0, last check at load time |
| IntegrityChecker.Monitor.PerformIntegrityCheck | js/integrity-checker.js:74-115 | returns true iff validation passes; on failure nothing changes; on success it stores the snapshot and time and updates the counter from the diff's size |
| IntegrityChecker.Monitor.Tick | js/integrity-checker.js:118-130 | a tick checks only a player with a truthy name and otherwise changes nothing; for a named player a failed validation changes nothing, and a passing one records the snapshot and time and updates the counter as `NextAnomalyCount` says |
| IntegrityChecker.ValidateAction | js/integrity-checker.js:133-170 | a level-up passes iff it raises the level by exactly one; gold, stat and health changes fail iff they exceed 999999, 150 or maxHealth; other actions pass |
| IntegrityChecker.LevelSkipsRejected | js/integrity-checker.js:136-141 | skipping or repeating a level is refused, and +1 passes |
| GameLogic.HpIncrease | js/game-logic.js:280-285 | the health gain is 10 except 6 for an archer and 4 for a magicien |
| GameLogic.NextXpToLevel | js/game-logic.js:277 | the next threshold is ⌊1.5·x⌋ |
| GameLogic.LevelUp | js/game-logic.js:254-308 | the level stays or rises by one, and the inventory, kills and energy stay |
| GameLogic.LevelUpOutcome | js/game-logic.js:254-308 | the level rises by at most one, and exactly when below MAX_LEVEL with enough XP; at the cap XP becomes gold at 10 per coin; the rewards of a level, and nothing else changes |
| GameLogic.CheckLevelUp | js/game-logic.js:254-308 | the in-place update equals `LevelUp` of the old record |
| GameLogic.LevelUpPassesActionGate | js/game-logic.js:274-276 | every level change a level-up makes is one that validateAction accepts |
| GameLogic.LevelUpKeepsConsistency | js/game-logic.js:254-308 | a level-up keeps health at most maxHealth and gold, XP and stat points non-negative |
| GameLogic.LevelUpNeverSkips | js/game-logic.js:274-275 | n checks gain at most n levels, whatever the XP |
| GameLogic.WithStat | js/game-logic.js:342 | the named attribute takes the new value and the others keep theirs |
| GameLogic.SpendStat | js/game-logic.js:311-356 | without points, a valid name or confirmation, nothing changes; otherwise exactly the named attribute gains 1 and a point is spent, and constitution also adds 2 maximum and current health; no other property changes |
| GameLogic.SpendStatPoint | js/game-logic.js:311-356 | the in-place update equals `SpendStat` of the old record |
| GameLogic.SpendStatKeepsConsistency | js/game-logic.js:341-348 | spending keeps the balance non-negative and health at most maxHealth |
| GameLogic.SpendingExhaustsPoints | js/game-logic.js:314-317 | n confirmed spends leave max(0, points − n) |
| GameLogic.SpentStrengthPassesActionGate | js/game-logic.js:342 | a strength point below 150 passes validateAction('statIncrease') |
| GameLogic.SellPrice | js/game-logic.js:1280 | the price is ⌊cost / 2⌋ |
| GameLogic.RemoveAt | js/game-logic.js:1283 | `splice(index, 1)` removes exactly that entry and keeps the others in order |
| GameLogic.Sell | js/game-logic.js:1272-1289 | an index outside the inventory changes nothing; otherwise gold grows by the price, that item leaves, and nothing else changes |
| GameLogic.SellInventoryItem | js/game-logic.js:1272-1289 | the in-place update equals `Sell` of the old record |
| GameLogic.SellKeepsConsistency | js/game-logic.js:1272-1289 | selling keeps gold and item costs non-negative |
| GameLogic.LevelUpScore | js/game-logic.js:847-849 | a level-up is worth exactly 165 leaderboard points; converting XP at the cap is worth none |
| GameLogic.PlayerScore | js/game-logic.js:847-849 | every score is a multiple of 5, and non-negative inputs give a non-negative score |
| GameLogic.ScoreMonotone | js/game-logic.js:847-849 | the score never drops while level, kills, strength and defense do not, with weights 100, 50, 10 and 5 |
| GameLogic.SpendStatScore | js/game-logic.js:847-849 | spending a point changes the score only for strength, by 10 |
| GameLogic.EntryOf | js/game-logic.js:639-647 | the current player's row carries their name and score |
| GameLogic.FindIndex | js/game-logic.js:650 | the first row with the name, or −1 exactly when no row has it |
| GameLogic.MergeEntry | js/game-logic.js:650-658 | a known name's first row is replaced only by a strictly higher score; an unknown name is appended; the set of names grows by exactly the player's |
| GameLogic.MergeKeepsBestScore | js/game-logic.js:651-655 | the player's row keeps the better score, and no other row changes |
| GameLogic.InsertAddsRow | js/game-logic.js:664 | insertion adds exactly the new row |
| GameLogic.InsertKeepsOrder | js/game-logic.js:664 | insertion into rows sorted by score keeps them sorted |
| GameLogic.SortByScoreSorts | js/game-logic.js:664 | the sort orders by non-increasing score and is a permutation |
| GameLogic.LocalLeaderboard | js/game-logic.js:625-665 | the rows saved are the merge when the player is named and nothing otherwise; the rows shown are a sorted permutation that lists a named player |
| CharacterClasses.ClassTable | js/character-classes.js:3-40 | exactly guerrier, magicien and archer have a row |
| CharacterClasses.WithClass | js/character-classes.js:43-62 | an unknown key changes nothing; a known one fills health and energy to the class maxima, sets primary stats and identity, and leaves the rest alone |
| CharacterClasses.ApplyCharacterClass | js/character-classes.js:43-62 | the in-place update equals `WithClass` |
| CharacterClasses.ClassIdempotent | js/character-classes.js:43-62 | applying a class twice is applying it once |
| CharacterClasses.ClassOverwritesItsFields | js/character-classes.js:49-61 | the result does not depend on the old values of the fields the class sets |
| CharacterClasses.ClassTableWithinRanges | js/character-classes.js:3-40 | every class's numbers lie within the validators' ranges |
| CharacterRaces.RaceTable | js/character-races.js:3-25 | exactly humain, elfe and nain have a row |
| CharacterRaces.WithRace | js/character-races.js:28-47 | an unknown key changes nothing; a known one shifts dexterity and constitution, moves maxHealth by five per constitution point, refills health and sets identity |
| CharacterRaces.ApplyRaceModifiers | js/character-races.js:28-47 | the in-place update equals `WithRace` |
| CharacterRaces.RaceModifiersBalance | js/character-races.js:3-25 | each race's modifiers cancel and lie in [−2, 2] |
| CharacterRaces.RaceKeepsAttributeSum | js/character-races.js:38-39 | a race never changes dexterity + constitution |
| CharacterRaces.HumanIsNeutral | js/character-races.js:28-47 | a human only gets the identity and a refill |
| CharacterRaces.RaceHealthShift | js/character-races.js:41-44 | the maxHealth change is fixed per race |
| CharacterSexes.SexTable | js/character-sexes.js:4-25 | exactly male and female have a row |
| CharacterSexes.WithSex | js/character-sexes.js:29-43 | an unknown key changes nothing; a known one sets the six attributes and nothing else |
| CharacterSexes.ApplySexBaseStats | js/character-sexes.js:29-43 | the in-place update equals `WithSex` |
| CharacterSexes.SexIdempotent | js/character-sexes.js:29-43 | applying twice is applying once |
| CharacterSexes.SexTotalsAgree | js/character-sexes.js:4-25 | both sexes total 60 attribute points |
| CharacterCreation.CreateCharacter | js/game-logic.js:110-117 | the three steps on the player give `Created`: sex, then class, then race |
| CharacterCreation.Created | js/game-logic.js:110-117 | the creation steps keep name, level, XP, gold, inventory, kills and bosses defeated |
| CharacterCreation.CreatedCharacter | js/game-logic.js:110-117 | a new character starts at full health and energy, with class maxima adjusted by race, attributes from sex and race, and primary stats from class |
| CharacterCreation.CreatedHealthBounds | js/game-logic.js:110-117 | with a class and a race, maxHealth lies in [112, 158] |
| CharacterCreation.NewCharacterPassesValidation | js/game-logic.js:438-477 | a reset record after the three creation steps passes validatePlayerData |
| CharacterCreation.RecordAccepted | js/anti-cheat.js:47-78 | a record with every tracked property in range and currents at most maxima is accepted |
| CharacterCreation.CurrentsWithinMaxima | js/anti-cheat.js:59-69 | the record's health and energy rules carry over to the player object |
| CharacterCreation.FieldsInRange | js/anti-cheat.js:49-56 | in-range record properties are in range on the player object |
| Boss.IndexOf | js/combat/boss.js:20 | `indexOf`: the first position holding the value, or −1 exactly when it is absent |
| Boss.BossIndexForLevel | js/combat/boss.js:18-22 | −1 exactly for a level outside the boss levels, otherwise the position of that level |
| Boss.BossIndexTable | js/combat/boss.js:18-22 | levels 6, 12, 18 and 24 map to bosses 0–3, and every other level to −1 |
| Boss.ShouldFaceBoss | js/combat/boss.js:7-15 | a boss is faced only when eligible, and then exactly when the draw is below 0.25 |
| Boss.EncounterConditions | js/combat/boss.js:11-12 | an encounter needs a boss level, a kill, an unbeaten boss of that level |
| Boss.NoBossAfterTheLast | js/combat/boss.js:12 | after four bosses none is offered at any level |
| Boss.BossIndex | js/combat/boss.js:27 | `min(bossesDefeated, bosses.length − 1)` |
| Boss.BaseLevelForBoss | js/combat/boss.js:31-32 | the boss's own level, or 24 past the list |
| Boss.CreateBossEnemy | js/combat/boss.js:25-46 | a boss exists iff the index is in the table; it is that template, marked as a boss, at distance 0 and full health |
| Boss.BossFollowsProgress | js/combat/boss.js:25-46 | the next unbeaten boss is chosen, at its template strength at its own level |
| Boss.ScaleGrows | js/combat/boss.js:33-42 | above the boss's level, scaled stats are at least the template's |
| Events.TreasureGold | js/data/events.js:10 | a chest holds 50 to 149 gold |
| Events.GemXp | js/data/events.js:21 | a gem gives 50 to 99 XP |
| Events.SpikeDamage | js/data/events.js:32 | damage is 20 − defense, at least 1 |
| Events.GasDamage | js/data/events.js:43 | damage is 15 − ⌊constitution / 2⌋, at least 1 |
| Events.TrapHealth | js/data/events.js:33 | a trap leaves at least 1 health and otherwise subtracts the damage exactly |
| Events.EventOutcome | js/data/events.js:9-68 | each random event changes only its own properties, by the gain, damage, healing or refill its rule gives; the fountain heals by at most ⌊maxHealth / 2⌋ and the sanctuary refills at most 20 energy, both capped at the maximum |
| Events.EventKeepsConsistent | js/data/events.js:9-68 | no random event breaks the record's accounting invariants |
| Events.TrapsNeverKill | js/data/events.js:31-46 | traps never kill, and they hurt a player above 1 health |
| Events.TougherTakesLess | js/data/events.js:32-43 | more defense or constitution never means more trap damage |
| Events.HealingNeverHurts | js/data/events.js:53-68 | the fountain and the sanctuary never lower health or energy, and never exceed the maximum |
| Events.TreasureEffect | js/data/events.js:9-13 | the in-place update equals `EventOutcome(Treasure)`, returning the gold |
| Events.GemEffect | js/data/events.js:20-24 | the in-place update equals `EventOutcome(Gem)`, returning the XP |
| Events.SpikeTrapEffect | js/data/events.js:31-35 | the in-place update equals `EventOutcome(SpikeTrap)`, returning the damage |
| Events.GasTrapEffect | js/data/events.js:42-46 | the in-place update equals `EventOutcome(GasTrap)`, returning the damage |
| Events.FountainEffect | js/data/events.js:53-57 | the in-place update equals `EventOutcome(Fountain)`, returning the healing |
| Events.SanctuaryEffect | js/data/events.js:64-68 | the in-place update equals `EventOutcome(Sanctuary)` |
| Events.ChoiceOutcome | js/data/events.js:98-134 | alms trade 50 gold for 2 charisma, but only if affordable; ignoring costs 1 charisma; the purse gives 75 gold for 1 wisdom; prayer gives 2 wisdom and 50 XP; nothing else changes |
| Events.ChoiceKeepsConsistent | js/data/events.js:98-134 | no choice breaks the accounting invariants, and alms never make gold negative |
| Events.GiveToBeggarEffect | js/data/events.js:98-106 | the in-place update equals the alms outcome, and it reports whether the player could pay |
| Events.IgnoreBeggarEffect | js/data/events.js:110-113 | the in-place update equals the ignore outcome |
| Events.TakePurseEffect | js/data/events.js:122-125 | the in-place update equals the purse outcome |
| Events.PrayForTheDeadEffect | js/data/events.js:130-134 | the in-place update equals the prayer outcome |

## Left out

- **Numbers.** Only integral numbers are modelled. NaN, infinities and fractional
  values of player properties are not.
  - A non-number value is only "truthy or falsy".
  - In the cheat-pattern rules it compares like an absent property. JavaScript's
    coercion of strings and booleans in `<` and `>` is not modelled.
- **Messages and output.** Error and warning texts, `console` output and `alert`
  texts are not modelled. Errors are datatype values carrying the data the message
  shows.
- **Advisory checks that only log.** `validateLevelProgression` and
  `validateStatDistribution` (js/anti-cheat.js:81-135) only log warnings and never
  change a verdict. They use floating-point `Math.pow`, so the model leaves them out.
  The same applies to the timestamp sanity check in `verifyIntegrityMetadata`: it only
  warns, so the model leaves it out and the verdict does not depend on the timestamp.
- **Checksum.** `JSON.stringify` is a parameter, and its format is not modelled.
  - The tamper-evidence lemmas cover edits that keep the serialized length. An edit
    that changes the length has no such guarantee in a 32-bit hash.
  - A checksum that is not a string is not modelled: `checksum` is an optional string.
  - `AntiCheat.VerifyIntegrityMetadata` has no guarantee that a forged checksum
    fails.
- **Save structure.** A save whose `player` is truthy but not an object
  (js/anti-cheat.js:286) is rejected by the source like a missing player. The model
  has no such value: a player is either absent or a property map.
- **Actions without a player.** `IntegrityChecker.ValidateAction` takes
  `gameState.player.maxHealth` as an optional number. When there is no player at all,
  the source throws a TypeError on a `healthChange` (js/integrity-checker.js:159); the
  model cannot express that case, and with `maxHealth` absent the action passes.
- **Environment.**
  - `Date.now()`, `Math.random()` and `confirm` are parameters.
  - `setInterval` is reduced to a single tick (`Monitor.Tick`).
  - `saveGame`, `updateUI`, sounds, particles, achievements and `localStorage`
    I/O are left out.
  - The leaderboard's JSON parsing and DOM output are left out.
- **Boss scaling.** `Boss.CreateBossEnemy` computes `x · (1 + (level − base) · 0.1)`
  in exact arithmetic before `Math.floor`. The source multiplies floating-point
  numbers, so a product that is an integer in exact arithmetic can round down to
  the integer below.
  - The `bosses` table comes from a game-state file that is not part of this model,
    so it is a parameter.
  - Template fields other than name and the scaled stats pass through in the source.
    They are not modelled.
- **Sort.**
  - `GameLogic.SortByScore`: `Array.prototype.sort` is modelled as an insertion sort.
    The proof covers the order and the permutation, but not which of two rows with
    equal scores comes first.
  - Stored rows with non-numeric scores are not modelled.
- **Player record.** `Hero.Player` holds the record as one value field that each
  operation updates property by property. It does not have thirty separate mutable
  fields.
  - Aliasing between the record and other objects is not modelled.
  - `gender`, `gamesPlayed`, `metals`, `lastSleepTime` and `merchantPurchasedItems`
    are not modelled.
- **Character creation.** The new-game handler's name and gender assignments and
  its `gamesPlayed` increment are not modelled.
- **Character tables.** Prototype keys such as `"constructor"` are not modelled.
  JavaScript finds them on `characterClasses[key]`; here only the table's own keys
  have rows.
- **Item use.** `useInventoryItem` and the other item and shop screens are outside
  the modelled core; selling is modelled.
- **Events.** Riddles (js/data/events.js:73-89) are data only and not modelled.
  Choosing which random event fires is done elsewhere in the game and is not part
  of this model.
