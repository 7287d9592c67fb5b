/** js/data/events.js: the effects of the random events and of the moral choices on the
    player record. Each effect's `Math.random()` draw is a parameter in [0, 1); the
    message each effect returns is left out, the amount it reports is returned. */
module Events {
  import opened Hero

  function Max(a: int, b: int): int { if a >= b then a else b }
  function Min(a: int, b: int): int { if a <= b then a else b }

  // ---------------------------------------------------------------------------
  // Random events

  /** The entries of `randomEvents`, in table order. */
  datatype RandomEvent = Treasure | Gem | SpikeTrap | GasTrap | Fountain | Sanctuary

  /** `50 + Math.floor(Math.random() * 100)`: the chest holds 50 to 149 gold. */
  function TreasureGold(draw: real): (gold: int)
    requires 0.0 <= draw < 1.0
    ensures 50 <= gold <= 149
  {
    50 + (draw * 100.0).Floor
  }

  /** `50 + Math.floor(Math.random() * 50)`: the gem gives 50 to 99 XP. */
  function GemXp(draw: real): (xp: int)
    requires 0.0 <= draw < 1.0
    ensures 50 <= xp <= 99
  {
    50 + (draw * 50.0).Floor
  }

  /** The spike trap's damage: 20 less the defense, but at least 1. */
  function SpikeDamage(defense: int): (damage: int)
    ensures damage >= 1 && damage >= 20 - defense
    ensures damage == 1 || damage == 20 - defense
  {
    Max(1, 20 - defense)
  }

  /** The gas trap's damage: 15 less half the constitution (rounded down), but at least 1. */
  function GasDamage(constitution: int): (damage: int)
    ensures damage >= 1 && damage >= 15 - constitution / 2
    ensures damage == 1 || damage == 15 - constitution / 2
  {
    Max(1, 15 - constitution / 2)
  }

  /** A trap's effect on health: `Math.max(1, health - damage)`. */
  function TrapHealth(health: int, damage: int): (h: int)
    requires damage >= 1
    ensures h >= 1
    ensures h > 1 ==> h == health - damage
    ensures h == 1 ==> health - damage <= 1
    ensures health > 1 ==> h < health
  {
    Max(1, health - damage)
  }

  /** The fountain heals `Math.floor(maxHealth * 0.5)`, without going over the maximum. */
  function FountainHealing(maxHealth: int): int {
    maxHealth / 2
  }

  /** The record after a random event; only the properties the event names change. */
  function EventOutcome(s: PlayerState, e: RandomEvent, draw: real): (r: PlayerState)
    requires 0.0 <= draw < 1.0
    ensures e == Treasure ==> 50 <= r.gold - s.gold <= 149 && r.(gold := s.gold) == s
    ensures e == Gem ==> 50 <= r.xp - s.xp <= 99 && r.(xp := s.xp) == s
    ensures e == SpikeTrap ==> r.health == TrapHealth(s.health, SpikeDamage(s.defense)) && r.(health := s.health) == s
    ensures e == GasTrap ==> r.health == TrapHealth(s.health, GasDamage(s.constitution)) && r.(health := s.health) == s
    ensures e == Fountain ==>
      && r.health <= s.maxHealth && r.health <= s.health + FountainHealing(s.maxHealth)
      && (r.health == s.maxHealth || r.health == s.health + FountainHealing(s.maxHealth))
      && r.(health := s.health) == s
    ensures e == Sanctuary ==>
      && r.health == s.maxHealth
      && r.energy <= s.maxEnergy && r.energy <= s.energy + 20 && (r.energy == s.maxEnergy || r.energy == s.energy + 20)
      && r.(health := s.health, energy := s.energy) == s
  {
    match e
    case Treasure => s.(gold := s.gold + TreasureGold(draw))
    case Gem => s.(xp := s.xp + GemXp(draw))
    case SpikeTrap => s.(health := TrapHealth(s.health, SpikeDamage(s.defense)))
    case GasTrap => s.(health := TrapHealth(s.health, GasDamage(s.constitution)))
    case Fountain => s.(health := Min(s.maxHealth, s.health + FountainHealing(s.maxHealth)))
    case Sanctuary => s.(health := s.maxHealth, energy := Min(s.maxEnergy, s.energy + 20))
  }

  /** No random event breaks the record's accounting: traps leave at least 1 health,
      healing stops at the maximum and the rewards are gains. */
  lemma {:induction false} EventKeepsConsistent(s: PlayerState, e: RandomEvent, draw: real)
    requires 0.0 <= draw < 1.0
    requires Consistent(s)
    ensures Consistent(EventOutcome(s, e, draw))
  {
    var r := EventOutcome(s, e, draw);
    assert r.inventory == s.inventory && r.maxHealth == s.maxHealth && r.maxEnergy == s.maxEnergy;
    assert r.statPoints == s.statPoints && r.xpToLevel == s.xpToLevel;
    assert r.gold >= s.gold && r.xp >= s.xp;
  }

  /** A trap never kills, and hurts a player who has more than 1 health. */
  lemma TrapsNeverKill(s: PlayerState, e: RandomEvent, draw: real)
    requires 0.0 <= draw < 1.0
    requires e == SpikeTrap || e == GasTrap
    ensures EventOutcome(s, e, draw).health >= 1
    ensures s.health > 1 ==> EventOutcome(s, e, draw).health < s.health
  {
  }

  /** Better defense, or more constitution, never makes a trap hurt more. */
  lemma {:induction false} TougherTakesLess(a: int, b: int)
    requires a <= b
    ensures SpikeDamage(b) <= SpikeDamage(a)
    ensures GasDamage(b) <= GasDamage(a)
  {
    assert a / 2 <= b / 2;
  }

  /** For a record within its maxima, the healing events never lower health. */
  lemma HealingNeverHurts(s: PlayerState, e: RandomEvent, draw: real)
    requires 0.0 <= draw < 1.0
    requires e == Fountain || e == Sanctuary
    requires 0 <= s.maxHealth && s.health <= s.maxHealth && s.energy <= s.maxEnergy
    ensures s.health <= EventOutcome(s, e, draw).health <= s.maxHealth
    ensures s.energy <= EventOutcome(s, e, draw).energy
  {
  }

  /** The treasure chest's effect on `p`; returns the gold found. */
  method TreasureEffect(p: Player, draw: real) returns (gold: int)
    requires 0.0 <= draw < 1.0
    modifies p
    ensures p.state == EventOutcome(old(p.state), Treasure, draw)
    ensures gold == p.state.gold - old(p.state.gold)
  {
    gold := 50 + (draw * 100.0).Floor;
    p.state := p.state.(gold := p.state.gold + gold);
  }

  /** The magic gem's effect on `p`; returns the XP gained. */
  method GemEffect(p: Player, draw: real) returns (xp: int)
    requires 0.0 <= draw < 1.0
    modifies p
    ensures p.state == EventOutcome(old(p.state), Gem, draw)
    ensures xp == p.state.xp - old(p.state.xp)
  {
    xp := 50 + (draw * 50.0).Floor;
    p.state := p.state.(xp := p.state.xp + xp);
  }

  /** The spike trap's effect on `p`; returns the damage it announces. */
  method SpikeTrapEffect(p: Player) returns (damage: int)
    modifies p
    ensures p.state == EventOutcome(old(p.state), SpikeTrap, 0.0)
    ensures damage == SpikeDamage(old(p.state.defense))
  {
    damage := Max(1, 20 - p.state.defense);
    p.state := p.state.(health := Max(1, p.state.health - damage));
  }

  /** The toxic gas's effect on `p`; returns the damage it announces. */
  method GasTrapEffect(p: Player) returns (damage: int)
    modifies p
    ensures p.state == EventOutcome(old(p.state), GasTrap, 0.0)
    ensures damage == GasDamage(old(p.state.constitution))
  {
    damage := Max(1, 15 - p.state.constitution / 2);
    p.state := p.state.(health := Max(1, p.state.health - damage));
  }

  /** The healing fountain's effect on `p`; returns the healing it announces, which may
      exceed what the cap lets through. */
  method FountainEffect(p: Player) returns (healing: int)
    modifies p
    ensures p.state == EventOutcome(old(p.state), Fountain, 0.0)
    ensures healing == FountainHealing(old(p.state.maxHealth))
  {
    healing := p.state.maxHealth / 2;
    p.state := p.state.(health := Min(p.state.maxHealth, p.state.health + healing));
  }

  /** The ancient sanctuary's effect on `p`. */
  method SanctuaryEffect(p: Player)
    modifies p
    ensures p.state == EventOutcome(old(p.state), Sanctuary, 0.0)
  {
    p.state := p.state.(health := p.state.maxHealth);
    p.state := p.state.(energy := Min(p.state.maxEnergy, p.state.energy + 20));
  }

  // ---------------------------------------------------------------------------
  // Moral choices

  /** The choices of `moralChoices`: the beggar's two, then the purse's two. */
  datatype MoralChoice = GiveToBeggar | IgnoreBeggar | TakePurse | PrayForTheDead

  /** The price of helping the beggar. */
  const AlmsCost: int := 50

  /** The record after a moral choice. Helping the beggar trades 50 gold for 2 charisma,
      and only when the player can pay; ignoring costs 1 charisma; taking the purse gives
      75 gold for 1 wisdom; praying gives 2 wisdom and 50 XP. Nothing else changes. */
  function ChoiceOutcome(s: PlayerState, c: MoralChoice): (r: PlayerState)
    ensures c == GiveToBeggar ==>
      && r.gold + 25 * r.charisma == s.gold + 25 * s.charisma
      && (r.charisma == s.charisma + 2 <==> s.gold >= AlmsCost)
      && (s.gold < AlmsCost ==> r == s)
      && r.(gold := s.gold, charisma := s.charisma) == s
    ensures c == IgnoreBeggar ==> r.charisma == s.charisma - 1 && r.(charisma := s.charisma) == s
    ensures c == TakePurse ==>
      r.gold == s.gold + 75 && r.wisdom == s.wisdom - 1 && r.(gold := s.gold, wisdom := s.wisdom) == s
    ensures c == PrayForTheDead ==>
      r.wisdom == s.wisdom + 2 && r.xp == s.xp + 50 && r.(wisdom := s.wisdom, xp := s.xp) == s
  {
    match c
    case GiveToBeggar =>
      if s.gold >= AlmsCost then s.(gold := s.gold - AlmsCost, charisma := s.charisma + 2) else s
    case IgnoreBeggar => s.(charisma := s.charisma - 1)
    case TakePurse => s.(gold := s.gold + 75, wisdom := s.wisdom - 1)
    case PrayForTheDead => s.(wisdom := s.wisdom + 2, xp := s.xp + 50)
  }

  /** No moral choice breaks the record's accounting; in particular alms never drive the
      gold below zero. */
  lemma {:induction false} ChoiceKeepsConsistent(s: PlayerState, c: MoralChoice)
    requires Consistent(s)
    ensures Consistent(ChoiceOutcome(s, c))
  {
    var r := ChoiceOutcome(s, c);
    assert r.inventory == s.inventory && r.maxHealth == s.maxHealth && r.health == s.health;
    assert r.energy == s.energy && r.maxEnergy == s.maxEnergy;
    assert r.statPoints == s.statPoints && r.xpToLevel == s.xpToLevel;
    assert r.gold >= 0 && r.xp >= s.xp;
  }

  /** Helping the beggar; returns whether the player could pay. */
  method GiveToBeggarEffect(p: Player) returns (helped: bool)
    modifies p
    ensures p.state == ChoiceOutcome(old(p.state), GiveToBeggar)
    ensures helped <==> old(p.state.gold) >= AlmsCost
  {
    if p.state.gold >= 50 {
      p.state := p.state.(gold := p.state.gold - 50);
      p.state := p.state.(charisma := p.state.charisma + 2);
      helped := true;
    } else {
      helped := false;
    }
  }

  /** Ignoring the beggar. */
  method IgnoreBeggarEffect(p: Player)
    modifies p
    ensures p.state == ChoiceOutcome(old(p.state), IgnoreBeggar)
  {
    p.state := p.state.(charisma := p.state.charisma - 1);
  }

  /** Taking the purse. */
  method TakePurseEffect(p: Player)
    modifies p
    ensures p.state == ChoiceOutcome(old(p.state), TakePurse)
  {
    p.state := p.state.(gold := p.state.gold + 75);
    p.state := p.state.(wisdom := p.state.wisdom - 1);
  }

  /** Leaving the purse and praying for the dead. */
  method PrayForTheDeadEffect(p: Player)
    modifies p
    ensures p.state == ChoiceOutcome(old(p.state), PrayForTheDead)
  {
    p.state := p.state.(wisdom := p.state.wisdom + 2);
    p.state := p.state.(xp := p.state.xp + 50);
  }
}
