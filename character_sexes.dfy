/** js/character-sexes.js: the base-stat table and applySexBaseStats. */
module CharacterSexes {
  import opened Results
  import opened Hero

  /** A row of `characterSexes`: display name, icon and the six base attributes. */
  datatype Sex = Sex(name: string, icon: string,
    strength: int, dexterity: int, constitution: int, intelligence: int, wisdom: int, charisma: int)

  /** The keys of `characterSexes`. */
  const SexKeys: seq<string> := ["male", "female"]

  /** `characterSexes[sexKey]`; `None` for a key the table does not have. */
  function SexTable(sexKey: string): (x: Option<Sex>)
    ensures x.Some? <==> sexKey in SexKeys
  {
    if sexKey == "male" then Some(Sex("Masculin", "♂️", 10, 10, 11, 11, 9, 9))
    else if sexKey == "female" then Some(Sex("Féminin", "♀️", 9, 11, 10, 10, 10, 10))
    else None
  }

  /** What applySexBaseStats does to the record: an unknown key changes nothing; a known
      one overwrites the six attributes with the table's and touches nothing else. */
  function WithSex(s: PlayerState, sexKey: string): (r: PlayerState)
    ensures SexTable(sexKey).None? ==> r == s
    ensures SexTable(sexKey).Some? ==>
      var x := SexTable(sexKey).value;
      && r.strength == x.strength && r.dexterity == x.dexterity && r.constitution == x.constitution
      && r.intelligence == x.intelligence && r.wisdom == x.wisdom && r.charisma == x.charisma
      && r.(strength := s.strength, dexterity := s.dexterity, constitution := s.constitution,
            intelligence := s.intelligence, wisdom := s.wisdom, charisma := s.charisma) == s
  {
    match SexTable(sexKey)
    case None => s
    case Some(x) =>
      s.(strength := x.strength, dexterity := x.dexterity, constitution := x.constitution,
         intelligence := x.intelligence, wisdom := x.wisdom, charisma := x.charisma)
  }

  /** applySexBaseStats(player, sexKey). */
  method ApplySexBaseStats(player: Player, sexKey: string)
    modifies player
    ensures player.state == WithSex(old(player.state), sexKey)
  {
    var sex := SexTable(sexKey);
    if sex.None? {
      // The source logs the unknown key and returns.
      return;
    }
    var x := sex.value;
    player.state := player.state.(strength := x.strength);
    player.state := player.state.(dexterity := x.dexterity);
    player.state := player.state.(constitution := x.constitution);
    player.state := player.state.(intelligence := x.intelligence);
    player.state := player.state.(wisdom := x.wisdom);
    player.state := player.state.(charisma := x.charisma);
  }

  /** Applying the base stats twice is applying them once. */
  lemma SexIdempotent(s: PlayerState, sexKey: string)
    ensures WithSex(WithSex(s, sexKey), sexKey) == WithSex(s, sexKey)
  {
  }

  /** Both sexes share the same total of 60 attribute points. */
  lemma SexTotalsAgree(sexKey: string)
    requires SexTable(sexKey).Some?
    ensures var x := SexTable(sexKey).value;
      x.strength + x.dexterity + x.constitution + x.intelligence + x.wisdom + x.charisma == 60
  {
  }
}
