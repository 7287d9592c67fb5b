/** js/character-classes.js: the class table and applyCharacterClass. */
module CharacterClasses {
  import opened Results
  import opened Hero

  /** A row of `characterClasses` (its description text is display-only). */
  datatype CharacterClass = CharacterClass(
    name: string, icon: string,
    maxHealth: int, puissance: int, defense: int, adresse: int, esprit: int, presence: int,
    maxEnergy: int)

  /** The keys of `characterClasses`. */
  const ClassKeys: seq<string> := ["guerrier", "magicien", "archer"]

  /** `characterClasses[classKey]`; `None` for a key the table does not have. */
  function ClassTable(classKey: string): (c: Option<CharacterClass>)
    ensures c.Some? <==> classKey in ClassKeys
  {
    if classKey == "guerrier" then Some(CharacterClass("Guerrier", "⚔️", 148, 15, 9, 13, 12, 14, 100))
    else if classKey == "magicien" then Some(CharacterClass("Magicien", "🧙", 122, 12, 6, 13, 15, 14, 100))
    else if classKey == "archer" then Some(CharacterClass("Archer", "🏹", 128, 13, 8, 15, 14, 12, 100))
    else None
  }

  /** What applyCharacterClass does to the record: an unknown key changes nothing; a known
      one fills health and energy to the class maxima and sets the five primary stats and
      the class identity from the table, and touches nothing else. */
  function WithClass(s: PlayerState, classKey: string): (r: PlayerState)
    ensures ClassTable(classKey).None? ==> r == s
    ensures ClassTable(classKey).Some? ==>
      var c := ClassTable(classKey).value;
      && r.health == r.maxHealth == c.maxHealth
      && r.energy == r.maxEnergy == c.maxEnergy
      && r.puissance == c.puissance && r.defense == c.defense && r.adresse == c.adresse
      && r.esprit == c.esprit && r.presence == c.presence
      && r.heroClass == classKey && r.className == c.name && r.classIcon == c.icon
      && r.(heroClass := s.heroClass, className := s.className, classIcon := s.classIcon,
            maxHealth := s.maxHealth, health := s.health, puissance := s.puissance,
            defense := s.defense, adresse := s.adresse, esprit := s.esprit,
            presence := s.presence, maxEnergy := s.maxEnergy, energy := s.energy) == s
  {
    match ClassTable(classKey)
    case None => s
    case Some(c) =>
      s.(heroClass := classKey, className := c.name, classIcon := c.icon,
         maxHealth := c.maxHealth, health := c.maxHealth,
         puissance := c.puissance, defense := c.defense, adresse := c.adresse,
         esprit := c.esprit, presence := c.presence,
         maxEnergy := c.maxEnergy, energy := c.maxEnergy)
  }

  /** applyCharacterClass(player, classKey). */
  method ApplyCharacterClass(player: Player, classKey: string)
    modifies player
    ensures player.state == WithClass(old(player.state), classKey)
  {
    var charClass := ClassTable(classKey);
    if charClass.None? {
      // The source logs the unknown key and returns.
      return;
    }
    var c := charClass.value;
    player.state := player.state.(heroClass := classKey);
    player.state := player.state.(className := c.name);
    player.state := player.state.(classIcon := c.icon);
    player.state := player.state.(maxHealth := c.maxHealth);
    player.state := player.state.(health := c.maxHealth);
    player.state := player.state.(puissance := c.puissance);
    player.state := player.state.(defense := c.defense);
    player.state := player.state.(adresse := c.adresse);
    player.state := player.state.(esprit := c.esprit);
    player.state := player.state.(presence := c.presence);
    player.state := player.state.(maxEnergy := c.maxEnergy);
    player.state := player.state.(energy := c.maxEnergy);
  }

  /** Every assignment is a plain overwrite, so applying a class twice is applying it once. */
  lemma ClassIdempotent(s: PlayerState, classKey: string)
    ensures WithClass(WithClass(s, classKey), classKey) == WithClass(s, classKey)
  {
  }

  /** The class decides the whole outcome of its own fields: two records that differ only
      in those fields end up equal. */
  lemma ClassOverwritesItsFields(s: PlayerState, t: PlayerState, classKey: string)
    requires ClassTable(classKey).Some?
    requires t.(heroClass := s.heroClass, className := s.className, classIcon := s.classIcon,
                maxHealth := s.maxHealth, health := s.health, puissance := s.puissance,
                defense := s.defense, adresse := s.adresse, esprit := s.esprit,
                presence := s.presence, maxEnergy := s.maxEnergy, energy := s.energy) == s
    ensures WithClass(s, classKey) == WithClass(t, classKey)
  {
  }

  /** Every class starts out able to pass the range table: positive health within 3000,
      primary stats within [1, 150] and energy within [0, 200]. */
  lemma ClassTableWithinRanges(classKey: string)
    requires ClassTable(classKey).Some?
    ensures var c := ClassTable(classKey).value;
      && 1 <= c.maxHealth <= 3000
      && 1 <= c.puissance <= 150 && 1 <= c.defense <= 150 && 1 <= c.adresse <= 150
      && 1 <= c.esprit <= 150 && 1 <= c.presence <= 150
      && 0 <= c.maxEnergy <= 200
  {
  }
}
