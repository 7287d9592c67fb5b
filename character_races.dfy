/** js/character-races.js: the race table and applyRaceModifiers. */
module CharacterRaces {
  import opened Results
  import opened Hero

  /** A row of `characterRaces` (its description text is display-only). */
  datatype Race = Race(name: string, icon: string, dexterityMod: int, constitutionMod: int)

  /** The keys of `characterRaces`. */
  const RaceKeys: seq<string> := ["humain", "elfe", "nain"]

  /** Maximum health granted per point of constitution modifier. */
  const HealthPerConstitution: int := 5

  /** `characterRaces[raceKey]`; `None` for a key the table does not have. */
  function RaceTable(raceKey: string): (r: Option<Race>)
    ensures r.Some? <==> raceKey in RaceKeys
  {
    if raceKey == "humain" then Some(Race("Humain", "👤", 0, 0))
    else if raceKey == "elfe" then Some(Race("Elfe", "🧝", 2, -2))
    else if raceKey == "nain" then Some(Race("Nain", "🧔", -2, 2))
    else None
  }

  /** What applyRaceModifiers does to the record: an unknown key changes nothing; a known
      one shifts dexterity and constitution by the race's modifiers, shifts maxHealth by
      five per constitution point, refills health to the new maximum, sets the race
      identity, and touches nothing else. */
  function WithRace(s: PlayerState, raceKey: string): (r: PlayerState)
    ensures RaceTable(raceKey).None? ==> r == s
    ensures RaceTable(raceKey).Some? ==>
      var race := RaceTable(raceKey).value;
      && r.dexterity == s.dexterity + race.dexterityMod
      && r.constitution == s.constitution + race.constitutionMod
      && r.maxHealth == s.maxHealth + HealthPerConstitution * race.constitutionMod
      && r.health == r.maxHealth
      && r.race == raceKey && r.raceName == race.name && r.raceIcon == race.icon
      && r.(race := s.race, raceName := s.raceName, raceIcon := s.raceIcon,
            dexterity := s.dexterity, constitution := s.constitution,
            maxHealth := s.maxHealth, health := s.health) == s
  {
    match RaceTable(raceKey)
    case None => s
    case Some(race) =>
      var maxHealth := s.maxHealth + race.constitutionMod * 5;
      s.(race := raceKey, raceName := race.name, raceIcon := race.icon,
         dexterity := s.dexterity + race.dexterityMod,
         constitution := s.constitution + race.constitutionMod,
         maxHealth := maxHealth, health := maxHealth)
  }

  /** applyRaceModifiers(player, raceKey). */
  method ApplyRaceModifiers(player: Player, raceKey: string)
    modifies player
    ensures player.state == WithRace(old(player.state), raceKey)
  {
    var race := RaceTable(raceKey);
    if race.None? {
      // The source logs the unknown key and returns.
      return;
    }
    var r := race.value;
    player.state := player.state.(race := raceKey);
    player.state := player.state.(raceName := r.name);
    player.state := player.state.(raceIcon := r.icon);
    player.state := player.state.(dexterity := player.state.dexterity + r.dexterityMod);
    player.state := player.state.(constitution := player.state.constitution + r.constitutionMod);
    var constitutionHealthBonus := r.constitutionMod * 5;
    player.state := player.state.(maxHealth := player.state.maxHealth + constitutionHealthBonus);
    player.state := player.state.(health := player.state.maxHealth);
  }

  /** Every race trades dexterity for constitution or the reverse: the modifiers cancel. */
  lemma RaceModifiersBalance(raceKey: string)
    requires RaceTable(raceKey).Some?
    ensures RaceTable(raceKey).value.dexterityMod + RaceTable(raceKey).value.constitutionMod == 0
    ensures -2 <= RaceTable(raceKey).value.constitutionMod <= 2
  {
  }

  /** So a race never changes the sum of dexterity and constitution. */
  lemma RaceKeepsAttributeSum(s: PlayerState, raceKey: string)
    ensures WithRace(s, raceKey).dexterity + WithRace(s, raceKey).constitution == s.dexterity + s.constitution
  {
    if RaceTable(raceKey).Some? {
      RaceModifiersBalance(raceKey);
    }
  }

  /** A human keeps dexterity, constitution and maximum health; only health is refilled. */
  lemma HumanIsNeutral(s: PlayerState)
    ensures WithRace(s, "humain") == s.(race := "humain", raceName := "Humain", raceIcon := "👤", health := s.maxHealth)
  {
  }

  /** A race's maximum-health change does not depend on the record: it is fixed per race. */
  lemma RaceHealthShift(s: PlayerState, t: PlayerState, raceKey: string)
    ensures WithRace(s, raceKey).maxHealth - s.maxHealth == WithRace(t, raceKey).maxHealth - t.maxHealth
  {
  }
}
