/** js/combat/boss.js: when a boss may appear and how the boss enemy is built. The
    `bosses` table lives in a game-state file that is not part of this model, so it is
    a parameter; so is the `Math.random()` draw. */
module Boss {
  import opened Results

  /** The levels at which a boss can appear, in boss order. */
  const BossLevels: seq<int> := [6, 12, 18, 24]

  /** The chance of meeting the boss on a boss level. */
  const BossSpawnChance: real := 0.25

  /** `xs.indexOf(x)`: the first position holding `x`, or -1. */
  function IndexOf(xs: seq<int>, x: int): (i: int)
    ensures -1 <= i < |xs|
    ensures i == -1 <==> x !in xs
    ensures i >= 0 ==> xs[i] == x && x !in xs[..i]
    decreases |xs|
  {
    if xs == [] then -1
    else if xs[0] == x then 0
    else
      var j := IndexOf(xs[1..], x);
      assert j >= 0 ==> xs[..j + 1] == [xs[0]] + xs[1..][..j];
      if j == -1 then -1 else j + 1
  }

  /** getBossIndexForLevel. */
  function BossIndexForLevel(level: int): (i: int)
    ensures i == -1 <==> level !in BossLevels
    ensures i >= 0 ==> i < |BossLevels| && BossLevels[i] == level
  {
    IndexOf(BossLevels, level)
  }

  /** The boss levels map to the boss indices 0 to 3 and every other level to -1. */
  lemma BossIndexTable(level: int)
    ensures BossIndexForLevel(level) == (if level == 6 then 0 else if level == 12 then 1
      else if level == 18 then 2 else if level == 24 then 3 else -1)
  {
    assert BossLevels == [6] + [12, 18, 24];
    assert [12, 18, 24] == [12] + [18, 24];
    assert [18, 24] == [18] + [24];
    assert [6, 12, 18, 24][1..] == [12, 18, 24];
    assert [12, 18, 24][1..] == [18, 24];
    assert [18, 24][1..] == [24];
    assert [24][1..] == [];
  }

  /** `isAtBossLevel` in shouldFaceBoss: a boss level, at least one kill, and the boss of
      this level not beaten yet. */
  predicate BossEligible(level: int, kills: int, bossesDefeated: int) {
    level in BossLevels && kills > 0 && BossIndexForLevel(level) > bossesDefeated - 1
  }

  /** shouldFaceBoss with its random draw passed in. */
  function ShouldFaceBoss(level: int, kills: int, bossesDefeated: int, draw: real): (r: bool)
    ensures r ==> BossEligible(level, kills, bossesDefeated)
    ensures BossEligible(level, kills, bossesDefeated) ==> (r <==> draw < BossSpawnChance)
  {
    BossEligible(level, kills, bossesDefeated) && draw < BossSpawnChance
  }

  /** A boss encounter needs a boss level and a kill, and is offered only while the boss
      of that level is not among those defeated: a beaten boss is not offered again. */
  lemma EncounterConditions(level: int, kills: int, bossesDefeated: int, draw: real)
    requires ShouldFaceBoss(level, kills, bossesDefeated, draw)
    ensures level in {6, 12, 18, 24} && kills > 0
    ensures bossesDefeated <= BossIndexForLevel(level)
    ensures level == 6 * (bossesDefeated + 1) || bossesDefeated < BossIndexForLevel(level)
  {
    BossIndexTable(level);
  }

  /** Once all four bosses are beaten no encounter happens at any level. */
  lemma NoBossAfterTheLast(level: int, kills: int, bossesDefeated: int, draw: real)
    requires bossesDefeated >= 4
    ensures !ShouldFaceBoss(level, kills, bossesDefeated, draw)
  {
    BossIndexTable(level);
  }

  // ---------------------------------------------------------------------------
  // createBossEnemy

  /** A row of the `bosses` table, restricted to the fields createBossEnemy scales. */
  datatype BossTemplate = BossTemplate(name: string, health: int, strength: int, defense: int, gold: int, xp: int)

  /** The enemy record createBossEnemy returns. */
  datatype BossEnemy = BossEnemy(
    name: string, maxHealth: int, health: int, strength: int, defense: int, gold: int, xp: int,
    isBoss: bool, distance: int)

  /** `Math.min(bossesDefeated, bosses.length - 1)`. */
  function BossIndex(bossCount: int, bossesDefeated: int): (i: int)
    ensures i <= bossesDefeated && i <= bossCount - 1
    ensures i == bossesDefeated || i == bossCount - 1
  {
    if bossesDefeated < bossCount - 1 then bossesDefeated else bossCount - 1
  }

  /** `bossLevels[bossIndex] || 24`: the boss's own level, or 24 past the end of the list. */
  function BaseLevelForBoss(bossIndex: nat): (level: int)
    ensures level in BossLevels
    ensures bossIndex < |BossLevels| ==> level == BossLevels[bossIndex]
  {
    if bossIndex < |BossLevels| then BossLevels[bossIndex] else 24
  }

  /** `Math.floor(x * (1 + (level - base) * 0.1))`, in exact arithmetic. */
  function Scale(x: int, level: int, base: int): int {
    (x * (10 + level - base)) / 10
  }

  /** createBossEnemy: the boss at `min(bossesDefeated, bosses.length - 1)`, scaled to the
      player's level, marked as a boss and placed at melee range. An index outside the
      table (no bosses, or a negative defeated count) makes the source read a field of
      `undefined` and throw; that is `None` here. */
  function CreateBossEnemy(bosses: seq<BossTemplate>, level: int, bossesDefeated: int): (r: Option<BossEnemy>)
    ensures r.Some? <==> |bosses| > 0 && bossesDefeated >= 0
    ensures r.Some? ==>
      var i := BossIndex(|bosses|, bossesDefeated);
      && 0 <= i < |bosses|
      && r.value.name == bosses[i].name
      && r.value.isBoss && r.value.distance == 0
      && r.value.health == r.value.maxHealth
  {
    var bossIndex := BossIndex(|bosses|, bossesDefeated);
    if bossIndex < 0 then None
    else
      var t := bosses[bossIndex];
      var base := BaseLevelForBoss(bossIndex);
      Some(BossEnemy(
        t.name,
        Scale(t.health, level, base), Scale(t.health, level, base),
        Scale(t.strength, level, base), Scale(t.defense, level, base),
        Scale(t.gold, level, base), Scale(t.xp, level, base),
        true, 0))
  }

  /** The next boss to fight is the one after those beaten, until the last one, which is
      offered again; a player at that boss's own level meets it at its template strength. */
  lemma BossFollowsProgress(bosses: seq<BossTemplate>, bossesDefeated: nat)
    requires bossesDefeated < |bosses| <= |BossLevels|
    ensures var r := CreateBossEnemy(bosses, BossLevels[bossesDefeated], bossesDefeated);
      && r.Some?
      && r.value.name == bosses[bossesDefeated].name
      && r.value.health == bosses[bossesDefeated].health
      && r.value.strength == bosses[bossesDefeated].strength
      && r.value.defense == bosses[bossesDefeated].defense
  {
  }

  /** A player above the boss's level meets a boss at least as strong as its template
      (for templates with non-negative stats). */
  lemma {:induction false} ScaleGrows(x: int, level: int, base: int)
    requires x >= 0 && level >= base
    ensures Scale(x, level, base) >= x
  {
    assert x * (10 + level - base) == 10 * x + x * (level - base);
    assert x * (level - base) >= 0;
  }
}
