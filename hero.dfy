/** The player record the game mutates in place (`gameState.player`), restricted to
    the properties the level-up, stat, shop, character-creation and event code
    reads or writes. */
module Hero {
  import opened Results

  /** An inventory entry as sellInventoryItem sees it: a name and its purchase cost. */
  datatype Item = Item(name: string, cost: int)

  /** A value copy of the player record, used to state what each mutation does. */
  datatype PlayerState = PlayerState(
    name: string,
    heroClass: string, className: string, classIcon: string,
    race: string, raceName: string, raceIcon: string,
    level: int, xp: int, xpToLevel: int, gold: int, statPoints: int,
    kills: int, bossesDefeated: int,
    health: int, maxHealth: int, energy: int, maxEnergy: int,
    strength: int, dexterity: int, constitution: int,
    intelligence: int, wisdom: int, charisma: int,
    puissance: int, defense: int, adresse: int, esprit: int, presence: int,
    inventory: seq<Item>)

  /** The six attributes a stat point can be spent on. */
  datatype Stat = Strength | Dexterity | Constitution | Intelligence | Wisdom | Charisma

  /** The property names spendStatPoint accepts, in its `validStats` order. */
  const ValidStats: seq<string> := ["strength", "dexterity", "constitution", "intelligence", "wisdom", "charisma"]

  /** The attribute a property name denotes; `None` for a name outside `validStats`. */
  function ParseStat(name: string): (r: Option<Stat>)
    ensures r.Some? <==> name in ValidStats
  {
    if name == "strength" then Some(Strength)
    else if name == "dexterity" then Some(Dexterity)
    else if name == "constitution" then Some(Constitution)
    else if name == "intelligence" then Some(Intelligence)
    else if name == "wisdom" then Some(Wisdom)
    else if name == "charisma" then Some(Charisma)
    else None
  }

  /** `player[statName]`. */
  function StatValue(s: PlayerState, st: Stat): int {
    match st
    case Strength => s.strength
    case Dexterity => s.dexterity
    case Constitution => s.constitution
    case Intelligence => s.intelligence
    case Wisdom => s.wisdom
    case Charisma => s.charisma
  }

  /** The accounting invariants the game keeps for a live player: health and energy do
      not exceed their maxima, and gold, XP, stat points and item costs are not negative. */
  predicate Consistent(s: PlayerState) {
    && 1 <= s.maxHealth && s.health <= s.maxHealth
    && s.energy <= s.maxEnergy
    && 0 <= s.gold && 0 <= s.xp && 0 <= s.xpToLevel && 0 <= s.statPoints
    && forall i :: 0 <= i < |s.inventory| ==> s.inventory[i].cost >= 0
  }

  /** `gameState.player`: the one mutable record every operation updates in place,
      one property at a time. */
  class Player {
    var state: PlayerState

    /** A record holding the given contents. */
    constructor (s: PlayerState)
      ensures state == s
    {
      state := s;
    }
  }

  /** The properties the new-game reset in js/game-logic.js sets, with the values it
      gives them; the primary stats (puissance, adresse, esprit, presence) are left as
      they were and are overwritten by the class afterwards. */
  predicate IsReset(s: PlayerState) {
    && s.name == "" && s.race == "humain" && s.heroClass == "guerrier"
    && s.className == "Guerrier" && s.classIcon == "⚔️"
    && s.level == 1 && s.health == 100 && s.maxHealth == 100
    && s.strength == 10 && s.defense == 5 && s.dexterity == 10 && s.constitution == 10
    && s.intelligence == 10 && s.wisdom == 10 && s.charisma == 10
    && s.statPoints == 0 && s.gold == 75 && s.xp == 0 && s.xpToLevel == 100 && s.kills == 0
    && s.energy == 100 && s.maxEnergy == 100 && s.bossesDefeated == 0 && s.inventory == []
  }
}
