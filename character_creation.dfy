/** Character creation in js/game-logic.js: base stats from the sex, then the class, then
    the race, applied to a freshly reset record; and what the validators make of the result. */
module CharacterCreation {
  import opened Results
  import opened Hero
  import CharacterClasses
  import CharacterRaces
  import CharacterSexes
  import AntiCheat

  /** The record after the three creation steps, in the order the game applies them. */
  function Created(s: PlayerState, sexKey: string, classKey: string, raceKey: string): (r: PlayerState)
    ensures r.name == s.name && r.level == s.level && r.xp == s.xp && r.gold == s.gold
    ensures r.inventory == s.inventory && r.kills == s.kills && r.bossesDefeated == s.bossesDefeated
  {
    CharacterRaces.WithRace(CharacterClasses.WithClass(CharacterSexes.WithSex(s, sexKey), classKey), raceKey)
  }

  /** The creation steps of the new-game handler on `gameState.player`. */
  method CreateCharacter(player: Player, sexKey: string, classKey: string, raceKey: string)
    modifies player
    ensures player.state == Created(old(player.state), sexKey, classKey, raceKey)
  {
    CharacterSexes.ApplySexBaseStats(player, sexKey);
    CharacterClasses.ApplyCharacterClass(player, classKey);
    CharacterRaces.ApplyRaceModifiers(player, raceKey);
  }

  /** With three known keys the new character starts at full health and energy; its maximum
      health is the class's adjusted by the race; its attributes are the sex's base stats
      shifted by the race (the class does not touch them); its primary stats are the class's. */
  lemma CreatedCharacter(s: PlayerState, sexKey: string, classKey: string, raceKey: string)
    requires CharacterSexes.SexTable(sexKey).Some?
    requires CharacterClasses.ClassTable(classKey).Some?
    requires CharacterRaces.RaceTable(raceKey).Some?
    ensures var r := Created(s, sexKey, classKey, raceKey);
      var x, c, race := CharacterSexes.SexTable(sexKey).value, CharacterClasses.ClassTable(classKey).value,
        CharacterRaces.RaceTable(raceKey).value;
      && r.health == r.maxHealth == c.maxHealth + CharacterRaces.HealthPerConstitution * race.constitutionMod
      && r.energy == r.maxEnergy == c.maxEnergy
      && r.strength == x.strength && r.intelligence == x.intelligence
      && r.wisdom == x.wisdom && r.charisma == x.charisma
      && r.dexterity == x.dexterity + race.dexterityMod
      && r.constitution == x.constitution + race.constitutionMod
      && r.puissance == c.puissance && r.defense == c.defense && r.adresse == c.adresse
      && r.esprit == c.esprit && r.presence == c.presence
      && r.level == s.level && r.gold == s.gold && r.xp == s.xp && r.inventory == s.inventory
  {
    var a := CharacterSexes.WithSex(s, sexKey);
    var b := CharacterClasses.WithClass(a, classKey);
    assert b.strength == a.strength && b.dexterity == a.dexterity && b.constitution == a.constitution;
  }

  /** A known race after a known class keeps maximum health within [122 - 10, 148 + 10]. */
  lemma CreatedHealthBounds(s: PlayerState, sexKey: string, classKey: string, raceKey: string)
    requires CharacterClasses.ClassTable(classKey).Some?
    requires CharacterRaces.RaceTable(raceKey).Some?
    ensures 112 <= Created(s, sexKey, classKey, raceKey).maxHealth <= 158
  {
    CharacterRaces.RaceModifiersBalance(raceKey);
  }

  // ---------------------------------------------------------------------------
  // The record as validatePlayerData sees it

  /** The value of a tracked property on the record; the record has no deaths, mana or
      maxMana property, so those are absent. */
  function FieldValue(s: PlayerState, f: AntiCheat.Field): Option<int> {
    match f
    case Level => Some(s.level)
    case Health => Some(s.health)
    case MaxHealth => Some(s.maxHealth)
    case Puissance => Some(s.puissance)
    case Defense => Some(s.defense)
    case Adresse => Some(s.adresse)
    case Esprit => Some(s.esprit)
    case Presence => Some(s.presence)
    case Gold => Some(s.gold)
    case Xp => Some(s.xp)
    case StatPoints => Some(s.statPoints)
    case Kills => Some(s.kills)
    case BossesDefeated => Some(s.bossesDefeated)
    case Energy => Some(s.energy)
    case MaxEnergy => Some(s.maxEnergy)
    case Deaths | Mana | MaxMana => None
  }

  /** The item list as the inventory validator sees it. */
  function ItemsOf(items: seq<Item>): (r: seq<AntiCheat.Item>)
    ensures |r| == |items|
    decreases |items|
  {
    if items == [] then []
    else [AntiCheat.ItemObject(AntiCheat.StringName(items[0].name), None, "")] + ItemsOf(items[1..])
  }

  /** The record as a deserialized player object. */
  function AsPlayerData(s: PlayerState): AntiCheat.PlayerData {
    AntiCheat.PlayerData(
      map f | f in AntiCheat.AllFields && FieldValue(s, f).Some? :: AntiCheat.Num(FieldValue(s, f).value),
      map["name" := AntiCheat.NonNumber(s.name != "")],
      AntiCheat.Items(ItemsOf(s.inventory)))
  }

  /** A character fresh from the reset and the three creation steps passes validatePlayerData:
      the game never rejects the save it writes right after creation. */
  lemma NewCharacterPassesValidation(s: PlayerState, sexKey: string, classKey: string, raceKey: string)
    requires IsReset(s)
    requires CharacterSexes.SexTable(sexKey).Some?
    requires CharacterClasses.ClassTable(classKey).Some?
    requires CharacterRaces.RaceTable(raceKey).Some?
    ensures AntiCheat.PlayerDataVerdict(AsPlayerData(Created(s, sexKey, classKey, raceKey))) == Pass
  {
    CreatedCharacter(s, sexKey, classKey, raceKey);
    CreatedHealthBounds(s, sexKey, classKey, raceKey);
    CharacterClasses.ClassTableWithinRanges(classKey);
    RecordAccepted(Created(s, sexKey, classKey, raceKey));
  }

  /** A record whose tracked properties each lie in their row's range, with health and
      energy at most their maxima, is accepted by validatePlayerData. */
  lemma RecordAccepted(r: PlayerState)
    requires 1 <= r.level <= AntiCheat.MaxLevel
    requires 1 <= r.health <= 3000 && 1 <= r.maxHealth <= 3000
    requires 1 <= r.puissance <= 150 && 1 <= r.defense <= 150 && 1 <= r.adresse <= 150
    requires 1 <= r.esprit <= 150 && 1 <= r.presence <= 150
    requires 0 <= r.gold <= 999999 && 0 <= r.xp <= 999999 && 0 <= r.statPoints <= AntiCheat.MaxLevel * 2
    requires 0 <= r.kills <= 99999 && 0 <= r.bossesDefeated <= 4
    requires 0 <= r.energy <= 200 && 0 <= r.maxEnergy <= 200
    requires r.health <= r.maxHealth && r.energy <= r.maxEnergy
    ensures AntiCheat.PlayerDataVerdict(AsPlayerData(r)) == Pass
  {
    FieldsInRange(r);
    CurrentsWithinMaxima(r);
    AntiCheat.PassIffAcceptable(AsPlayerData(r));
  }

  /** Health and energy compare on the player object as they do on the record; there is no mana. */
  lemma CurrentsWithinMaxima(r: PlayerState)
    requires r.health <= r.maxHealth && r.energy <= r.maxEnergy
    ensures !AntiCheat.Exceeds(AsPlayerData(r), AntiCheat.Health, AntiCheat.MaxHealth)
    ensures !AntiCheat.Exceeds(AsPlayerData(r), AntiCheat.Energy, AntiCheat.MaxEnergy)
    ensures !AntiCheat.Exceeds(AsPlayerData(r), AntiCheat.Mana, AntiCheat.MaxMana)
  {
    var p := AsPlayerData(r);
    assert p.fields[AntiCheat.Health] == AntiCheat.Num(r.health);
    assert p.fields[AntiCheat.MaxHealth] == AntiCheat.Num(r.maxHealth);
    assert p.fields[AntiCheat.Energy] == AntiCheat.Num(r.energy);
    assert p.fields[AntiCheat.MaxEnergy] == AntiCheat.Num(r.maxEnergy);
    assert AntiCheat.Mana !in p.fields;
  }

  /** The present fields of the player object are all in range. */
  lemma FieldsInRange(r: PlayerState)
    requires 1 <= r.level <= AntiCheat.MaxLevel
    requires 1 <= r.health <= 3000 && 1 <= r.maxHealth <= 3000
    requires 1 <= r.puissance <= 150 && 1 <= r.defense <= 150 && 1 <= r.adresse <= 150
    requires 1 <= r.esprit <= 150 && 1 <= r.presence <= 150
    requires 0 <= r.gold <= 999999 && 0 <= r.xp <= 999999 && 0 <= r.statPoints <= AntiCheat.MaxLevel * 2
    requires 0 <= r.kills <= 99999 && 0 <= r.bossesDefeated <= 4
    requires 0 <= r.energy <= 200 && 0 <= r.maxEnergy <= 200
    ensures var p := AsPlayerData(r);
      forall f :: f in p.fields ==> AntiCheat.InRange(p.fields[f], AntiCheat.RangeOf(f))
  {
    var p := AsPlayerData(r);
    forall f | f in p.fields
      ensures AntiCheat.InRange(p.fields[f], AntiCheat.RangeOf(f))
    {
      assert p.fields[f] == AntiCheat.Num(FieldValue(r, f).value);
      AntiCheat.RangeBounds(f);
    }
  }
}
