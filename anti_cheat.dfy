/** The validators of js/anti-cheat.js: the range table, the player-data and
    inventory validators, the progression-rate check, the integrity envelope
    of a save blob, the cheat-pattern detector, and the load-time gate. */
module AntiCheat {
  import opened Results
  import Checksum

  /** MAX_LEVEL, imported by the source from a constants file that is not part of this model. */
  const MaxLevel: int := 24

  // ---------------------------------------------------------------------------
  // Player data as the validators see it

  /** The player properties tracked by the range table. */
  datatype Field =
    | Level | Health | MaxHealth | Puissance | Defense | Adresse | Esprit | Presence
    | Gold | Xp | StatPoints | Kills | Deaths | BossesDefeated
    | Energy | MaxEnergy | Mana | MaxMana

  /** A property value: a number (integral in this model) or any other JavaScript
      value, which is either truthy or falsy. A missing property is a missing map key. */
  datatype Value = Num(n: int) | NonNumber(truthy: bool)

  /** The name of an inventory item: missing, a string, or another value together
      with the text JavaScript's string conversion gives it. */
  datatype ItemName = NoName | StringName(s: string) | OtherName(truthy: bool, text: string)

  /** An inventory entry: something that is not an object (null, a number, ...), or an
      object with a name, an optional quantity and a rarity ("" when missing or falsy). */
  datatype Item = NotAnObject | ItemObject(name: ItemName, quantity: Option<Value>, rarity: string)

  /** The `inventory` property: missing or falsy, present but not an array, or an array. */
  datatype InventoryValue = NoInventory | NotAnArray | Items(items: seq<Item>)

  /** A deserialized player object: its tracked properties, any untracked ones, and its inventory. */
  datatype PlayerData = PlayerData(fields: map<Field, Value>, untracked: map<string, Value>, inventory: InventoryValue)

  /** The numeric value of a tracked property; a missing or non-numeric one compares as `undefined`. */
  function Get(p: PlayerData, f: Field): Option<int> {
    if f in p.fields && p.fields[f].Num? then Some(p.fields[f].n) else None
  }

  // ---------------------------------------------------------------------------
  // VALIDATION_RANGES

  datatype Range = Range(field: Field, min: int, max: int)

  /** The range table, in declaration order; validation visits it in this order. */
  const ValidationRanges: seq<Range> := [
    Range(Level, 1, MaxLevel),
    Range(Health, 1, 3000),
    Range(MaxHealth, 1, 3000),
    Range(Puissance, 1, 150),
    Range(Defense, 1, 150),
    Range(Adresse, 1, 150),
    Range(Esprit, 1, 150),
    Range(Presence, 1, 150),
    Range(Gold, 0, 999999),
    Range(Xp, 0, 999999),
    Range(StatPoints, 0, MaxLevel * 2),
    Range(Kills, 0, 99999),
    Range(Deaths, 0, 99999),
    Range(BossesDefeated, 0, 4),
    Range(Energy, 0, 200),
    Range(MaxEnergy, 0, 200),
    Range(Mana, 0, 300),
    Range(MaxMana, 0, 300)
  ]

  /** Where a field's range sits in the table. */
  function TableIndex(f: Field): (i: nat)
    ensures i < |ValidationRanges| && ValidationRanges[i].field == f
  {
    match f
    case Level => 0
    case Health => 1
    case MaxHealth => 2
    case Puissance => 3
    case Defense => 4
    case Adresse => 5
    case Esprit => 6
    case Presence => 7
    case Gold => 8
    case Xp => 9
    case StatPoints => 10
    case Kills => 11
    case Deaths => 12
    case BossesDefeated => 13
    case Energy => 14
    case MaxEnergy => 15
    case Mana => 16
    case MaxMana => 17
  }

  /** Every field has exactly one row in the table. */
  lemma TableRowsAreDistinct(j: nat)
    requires j < |ValidationRanges|
    ensures TableIndex(ValidationRanges[j].field) == j
  {
  }

  /** The range of a tracked field. */
  function RangeOf(f: Field): Range {
    ValidationRanges[TableIndex(f)]
  }

  /** The table read row by row, as the bounds of each field. */
  lemma RangeBounds(f: Field)
    ensures RangeOf(f).min == (match f
      case Level | Health | MaxHealth | Puissance | Defense | Adresse | Esprit | Presence => 1
      case _ => 0)
    ensures RangeOf(f).max == (match f
      case Level => MaxLevel
      case Health | MaxHealth => 3000
      case Puissance | Defense | Adresse | Esprit | Presence => 150
      case Gold | Xp => 999999
      case StatPoints => MaxLevel * 2
      case Kills | Deaths => 99999
      case BossesDefeated => 4
      case Energy | MaxEnergy => 200
      case Mana | MaxMana => 300)
  {
  }

  // ---------------------------------------------------------------------------
  // validatePlayerData

  datatype Violation =
    | OutOfRange(field: Field, value: Value, min: int, max: int)
    | HealthAboveMax
    | EnergyAboveMax
    | ManaAboveMax

  predicate InRange(v: Value, r: Range) {
    v.Num? && r.min <= v.n <= r.max
  }

  /** A table row the player breaks: the property is present and is not a number in range. */
  predicate Violates(p: PlayerData, r: Range) {
    r.field in p.fields && !InRange(p.fields[r.field], r)
  }

  /** `player[a] > player[b]`: false unless both are present numbers. */
  predicate Exceeds(p: PlayerData, a: Field, b: Field) {
    Get(p, a).Some? && Get(p, b).Some? && Get(p, a).value > Get(p, b).value
  }

  /** The range checks from table row `k` on, stopping at the first broken row. */
  function RangeCheckFrom(p: PlayerData, k: nat): Outcome<Violation>
    requires k <= |ValidationRanges|
    decreases |ValidationRanges| - k
  {
    if k == |ValidationRanges| then Pass
    else
      var r := ValidationRanges[k];
      if Violates(p, r) then Fail(OutOfRange(r.field, p.fields[r.field], r.min, r.max))
      else RangeCheckFrom(p, k + 1)
  }

  /** What validatePlayerData does: the range checks in table order, then the three
      logical rules in order; the advisory heuristics after them only log. */
  function PlayerDataVerdict(p: PlayerData): (r: Outcome<Violation>)
    ensures r.Fail? && r.error.OutOfRange? ==>
      && r.error.field in p.fields && r.error.value == p.fields[r.error.field]
      && !InRange(r.error.value, RangeOf(r.error.field))
    ensures r == Fail(HealthAboveMax) ==> Exceeds(p, Health, MaxHealth)
    ensures r == Fail(EnergyAboveMax) ==> Exceeds(p, Energy, MaxEnergy) && !Exceeds(p, Health, MaxHealth)
    ensures r == Fail(ManaAboveMax) ==>
      Exceeds(p, Mana, MaxMana) && !Exceeds(p, Energy, MaxEnergy) && !Exceeds(p, Health, MaxHealth)
    ensures r.Pass? ==> !Exceeds(p, Health, MaxHealth) && !Exceeds(p, Energy, MaxEnergy) && !Exceeds(p, Mana, MaxMana)
  {
    var ranges := RangeCheckFrom(p, 0);
    if ranges.Fail? then RangeCheckFailureIsReal(p, 0); ranges
    else if Exceeds(p, Health, MaxHealth) then Fail(HealthAboveMax)
    else if Exceeds(p, Energy, MaxEnergy) then Fail(EnergyAboveMax)
    else if Exceeds(p, Mana, MaxMana) then Fail(ManaAboveMax)
    else Pass
  }

  /** The invariants of an accepted player, stated field by field and independently of the table walk. */
  predicate Acceptable(p: PlayerData) {
    && (forall f :: f in p.fields ==> InRange(p.fields[f], RangeOf(f)))
    && !Exceeds(p, Health, MaxHealth)
    && !Exceeds(p, Energy, MaxEnergy)
    && !Exceeds(p, Mana, MaxMana)
  }

  /** validatePlayerData: walks the table, failing on the first broken row, then applies
      the logical rules. Success means exactly the accepted-player invariants hold. */
  method ValidatePlayerData(p: PlayerData) returns (r: Outcome<Violation>)
    ensures r == PlayerDataVerdict(p)
    ensures r.Pass? <==> Acceptable(p)
  {
    PassIffAcceptable(p);
    var k := 0;
    while k < |ValidationRanges|
      invariant 0 <= k <= |ValidationRanges|
      invariant RangeCheckFrom(p, 0) == RangeCheckFrom(p, k)
    {
      var range := ValidationRanges[k];
      if range.field in p.fields {
        var value := p.fields[range.field];
        if !value.Num? || value.n < range.min || value.n > range.max {
          return Fail(OutOfRange(range.field, value, range.min, range.max));
        }
      }
      k := k + 1;
    }
    if Exceeds(p, Health, MaxHealth) {
      return Fail(HealthAboveMax);
    }
    if Exceeds(p, Energy, MaxEnergy) {
      return Fail(EnergyAboveMax);
    }
    if Exceeds(p, Mana, MaxMana) {
      return Fail(ManaAboveMax);
    }
    // validateLevelProgression and validateStatDistribution only write warnings to the console.
    return Pass;
  }

  lemma {:induction false} RangeCheckPassIff(p: PlayerData, k: nat)
    requires k <= |ValidationRanges|
    ensures RangeCheckFrom(p, k).Pass? <==> forall j :: k <= j < |ValidationRanges| ==> !Violates(p, ValidationRanges[j])
    decreases |ValidationRanges| - k
  {
    if k < |ValidationRanges| {
      RangeCheckPassIff(p, k + 1);
    }
  }

  /** The table walk accepts exactly the players satisfying the field-by-field invariants. */
  lemma PassIffAcceptable(p: PlayerData)
    ensures PlayerDataVerdict(p).Pass? <==> Acceptable(p)
  {
    RangeCheckPassIff(p, 0);
    if RangeCheckFrom(p, 0).Pass? {
      forall f | f in p.fields
        ensures InRange(p.fields[f], RangeOf(f))
      {
        assert !Violates(p, ValidationRanges[TableIndex(f)]);
      }
    } else {
      var j :| 0 <= j < |ValidationRanges| && Violates(p, ValidationRanges[j]);
      var f := ValidationRanges[j].field;
      TableRowsAreDistinct(j);
      assert f in p.fields && !InRange(p.fields[f], RangeOf(f));
    }
  }

  lemma {:induction false} RangeCheckFindsFirst(p: PlayerData, k: nat, j: nat)
    requires k <= j < |ValidationRanges|
    requires Violates(p, ValidationRanges[j])
    requires forall i :: k <= i < j ==> !Violates(p, ValidationRanges[i])
    ensures var r := ValidationRanges[j];
            RangeCheckFrom(p, k) == Fail(OutOfRange(r.field, p.fields[r.field], r.min, r.max))
    decreases j - k
  {
    if k < j {
      RangeCheckFindsFirst(p, k + 1, j);
    }
  }

  /** Fail-fast: the violation reported is the first broken row in table order, naming
      its field, the offending value and the row's bounds. */
  lemma FirstBrokenRowReported(p: PlayerData, f: Field)
    requires Violates(p, RangeOf(f))
    requires forall i :: 0 <= i < TableIndex(f) ==> !Violates(p, ValidationRanges[i])
    ensures PlayerDataVerdict(p) == Fail(OutOfRange(f, p.fields[f], RangeOf(f).min, RangeOf(f).max))
  {
    RangeCheckFindsFirst(p, 0, TableIndex(f));
  }

  lemma {:induction false} RangeCheckFailureIsReal(p: PlayerData, k: nat)
    requires k <= |ValidationRanges|
    requires RangeCheckFrom(p, k).Fail?
    ensures var e := RangeCheckFrom(p, k).error;
            && e.OutOfRange?
            && k <= TableIndex(e.field)
            && RangeOf(e.field) == Range(e.field, e.min, e.max)
            && e.field in p.fields && e.value == p.fields[e.field]
            && !InRange(e.value, RangeOf(e.field))
            && forall i :: k <= i < TableIndex(e.field) ==> !Violates(p, ValidationRanges[i])
    decreases |ValidationRanges| - k
  {
    if !Violates(p, ValidationRanges[k]) {
      RangeCheckFailureIsReal(p, k + 1);
    } else {
      TableRowsAreDistinct(k);
    }
  }

  /** A present tracked property that is not a number in its range always makes validation
      fail with a range violation; the one named is this property or one earlier in the table. */
  lemma OutOfRangeFieldRejected(p: PlayerData, f: Field)
    requires f in p.fields && !InRange(p.fields[f], RangeOf(f))
    ensures PlayerDataVerdict(p).Fail? && PlayerDataVerdict(p).error.OutOfRange?
    ensures TableIndex(PlayerDataVerdict(p).error.field) <= TableIndex(f)
  {
    RangeCheckPassIff(p, 0);
    assert Violates(p, ValidationRanges[TableIndex(f)]);
    RangeCheckFailureIsReal(p, 0);
  }

  /** Conversely, any range violation reported is genuine and is the first in table order. */
  lemma ReportedViolationIsFirst(p: PlayerData)
    requires PlayerDataVerdict(p).Fail? && PlayerDataVerdict(p).error.OutOfRange?
    ensures var e := PlayerDataVerdict(p).error;
            && e.field in p.fields && e.value == p.fields[e.field]
            && Range(e.field, e.min, e.max) == RangeOf(e.field)
            && !InRange(e.value, RangeOf(e.field))
            && forall i :: 0 <= i < TableIndex(e.field) ==> !Violates(p, ValidationRanges[i])
  {
    RangeCheckFailureIsReal(p, 0);
  }

  /** health > maxHealth fails validation whatever the other fields hold; with every field in
      range it is the violation reported, since it is the first logical rule. */
  lemma HealthAboveMaxRejected(p: PlayerData)
    requires Exceeds(p, Health, MaxHealth)
    ensures PlayerDataVerdict(p).Fail?
    ensures RangeCheckFrom(p, 0).Pass? ==> PlayerDataVerdict(p) == Fail(HealthAboveMax)
  {
  }

  /** energy > maxEnergy fails; it is reported when the ranges and the health rule pass. */
  lemma EnergyAboveMaxRejected(p: PlayerData)
    requires Exceeds(p, Energy, MaxEnergy)
    ensures PlayerDataVerdict(p).Fail?
    ensures RangeCheckFrom(p, 0).Pass? && !Exceeds(p, Health, MaxHealth) ==> PlayerDataVerdict(p) == Fail(EnergyAboveMax)
  {
  }

  /** mana > maxMana fails; it is reported when everything checked before it passes. */
  lemma ManaAboveMaxRejected(p: PlayerData)
    requires Exceeds(p, Mana, MaxMana)
    ensures PlayerDataVerdict(p).Fail?
    ensures RangeCheckFrom(p, 0).Pass? && !Exceeds(p, Health, MaxHealth) && !Exceeds(p, Energy, MaxEnergy)
            ==> PlayerDataVerdict(p) == Fail(ManaAboveMax)
  {
  }

  /** Untracked properties and the inventory play no part in validatePlayerData. */
  lemma UntrackedPropertiesIgnored(p: PlayerData, untracked: map<string, Value>, inventory: InventoryValue)
    ensures PlayerDataVerdict(p.(untracked := untracked, inventory := inventory)) == PlayerDataVerdict(p)
  {
    var q := p.(untracked := untracked, inventory := inventory);
    PassIffAcceptable(p);
    PassIffAcceptable(q);
    if RangeCheckFrom(p, 0).Fail? {
      RangeCheckFailureIsReal(p, 0);
      var e := RangeCheckFrom(p, 0).error;
      FirstBrokenRowReported(q, e.field);
      FirstBrokenRowReported(p, e.field);
    } else {
      RangeCheckPassIff(p, 0);
      RangeCheckPassIff(q, 0);
    }
  }

  /** Every tracked field. */
  const AllFields: set<Field> := {Level, Health, MaxHealth, Puissance, Defense, Adresse, Esprit, Presence,
    Gold, Xp, StatPoints, Kills, Deaths, BossesDefeated, Energy, MaxEnergy, Mana, MaxMana}

  /** The players of the game's own validation tests: a valid one, one at the minimum
      boundaries and one at the level cap. */
  datatype TestCase = ValidHero | MinimumHero | MaxLevelHero

  /** The tracked properties of a test player. The minimum-boundary player is the valid
      one with level, health, maxHealth, puissance and defense at 1 and gold and kills at 0. */
  function TestStat(t: TestCase, f: Field): int {
    match t
    case ValidHero => ValidHeroStat(f)
    case MinimumHero =>
      (match f
       case Level | Health | MaxHealth | Puissance | Defense => 1
       case Gold | Kills => 0
       case _ => ValidHeroStat(f))
    case MaxLevelHero =>
      (match f
       case Level => 24
       case Health => 600
       case MaxHealth => 650
       case Puissance => 60
       case Defense => 55
       case Kills => 1000
       case BossesDefeated => 4
       case _ => ValidHeroStat(f))
  }

  /** The tracked properties of the valid test player. */
  function ValidHeroStat(f: Field): int {
    match f
    case Level => 10
    case Health => 200
    case MaxHealth => 250
    case Puissance => 25
    case Defense => 20
    case Adresse => 18
    case Esprit => 22
    case Presence => 15
    case Gold => 5000
    case Xp => 15000
    case StatPoints => 5
    case Kills => 150
    case Deaths => 10
    case BossesDefeated => 2
    case Energy => 80
    case MaxEnergy => 100
    case Mana => 120
    case MaxMana => 150
  }

  /** A test player named "Test Hero" with an empty inventory and every tracked field set. */
  function TestPlayer(t: TestCase): PlayerData {
    PlayerData(map f | f in AllFields :: Num(TestStat(t, f)), map["name" := NonNumber(true)], Items([]))
  }

  /** The valid player of the game's own tests. */
  const TestHero: PlayerData := TestPlayer(ValidHero)

  function WithFields(p: PlayerData, updates: map<Field, Value>): PlayerData {
    p.(fields := p.fields + updates)
  }

  /** Every tracked field of a test player is a number in its row's range. */
  lemma TestFieldsInRange(t: TestCase)
    ensures forall f :: f in TestPlayer(t).fields ==> InRange(TestPlayer(t).fields[f], RangeOf(f))
  {
    var p := TestPlayer(t);
    forall f | f in p.fields
      ensures InRange(p.fields[f], RangeOf(f))
    {
      assert p.fields[f] == Num(TestStat(t, f));
      RangeBounds(f);
    }
  }

  /** The tests' valid, minimum-boundary and level-24 players are accepted: the advisory
      heuristics have no say. */
  lemma TestPlayerAccepted(t: TestCase)
    ensures PlayerDataVerdict(TestPlayer(t)) == Pass
  {
    TestFieldsInRange(t);
    TestCurrentWithinMaximum(t, Health, MaxHealth);
    TestCurrentWithinMaximum(t, Energy, MaxEnergy);
    TestCurrentWithinMaximum(t, Mana, MaxMana);
    PassIffAcceptable(TestPlayer(t));
  }

  /** In every test player health, energy and mana are at most their maxima. */
  lemma TestCurrentWithinMaximum(t: TestCase, current: Field, maximum: Field)
    requires (current, maximum) in {(Health, MaxHealth), (Energy, MaxEnergy), (Mana, MaxMana)}
    ensures !Exceeds(TestPlayer(t), current, maximum)
  {
    var p := TestPlayer(t);
    assert p.fields[current] == Num(TestStat(t, current));
    assert p.fields[maximum] == Num(TestStat(t, maximum));
  }

  /** The tests' invalid hero (level 100, puissance 200, health 5000) is rejected on level,
      the first row of the table; a level-25 hero is rejected on level too. */
  lemma InvalidHeroesRejectedOnLevel()
    ensures PlayerDataVerdict(WithFields(TestHero, map[Level := Num(100), Puissance := Num(200), Health := Num(5000)]))
            == Fail(OutOfRange(Level, Num(100), 1, 24))
    ensures PlayerDataVerdict(WithFields(TestHero, map[Level := Num(25)])) == Fail(OutOfRange(Level, Num(25), 1, 24))
  {
    FirstBrokenRowReported(WithFields(TestHero, map[Level := Num(100), Puissance := Num(200), Health := Num(5000)]), Level);
    FirstBrokenRowReported(WithFields(TestHero, map[Level := Num(25)]), Level);
  }

  // ---------------------------------------------------------------------------
  // validateInventory

  datatype InventoryError =
    | InventoryNotArray
    | InvalidItem(index: nat)
    | InvalidItemName(index: nat)
    | InvalidQuantity(index: nat, quantity: Value)

  /** Why the item at position `i` is refused, if it is. */
  function ItemError(item: Item, i: nat): Option<InventoryError> {
    match item
    case NotAnObject => Some(InvalidItem(i))
    case ItemObject(name, quantity, _) =>
      if name.OtherName? && name.truthy then Some(InvalidItemName(i))
      else if quantity.Some? && !(quantity.value.Num? && 1 <= quantity.value.n <= 999) then Some(InvalidQuantity(i, quantity.value))
      else None
  }

  /** The text of `${item.name}`. */
  function NameText(name: ItemName): string {
    match name
    case NoName => "undefined"
    case StringName(s) => s
    case OtherName(_, text) => text
  }

  /** The aggregation key `${item.name}_${item.rarity || 'commun'}`. */
  function ItemKey(item: Item): string
    requires item.ItemObject?
  {
    NameText(item.name) + "_" + (if item.rarity == "" then "commun" else item.rarity)
  }

  /** `item.quantity || 1`. */
  function ItemAmount(item: Item): int
    requires item.ItemObject?
  {
    if item.quantity.Some? && item.quantity.value.Num? && item.quantity.value.n != 0 then item.quantity.value.n else 1
  }

  function AddCount(counts: map<string, int>, key: string, amount: int): map<string, int> {
    counts[key := (if key in counts then counts[key] else 0) + amount]
  }

  /** The per-key totals the validator accumulates, item by item. */
  function ItemCounts(items: seq<Item>): map<string, int>
    requires forall i :: 0 <= i < |items| ==> items[i].ItemObject?
  {
    if items == [] then map[]
    else
      var last := items[|items| - 1];
      AddCount(ItemCounts(items[..|items| - 1]), ItemKey(last), ItemAmount(last))
  }

  function FirstItemError(items: seq<Item>, k: nat): Option<InventoryError>
    requires k <= |items|
    decreases |items| - k
  {
    if k == |items| then None
    else if ItemError(items[k], k).Some? then ItemError(items[k], k)
    else FirstItemError(items, k + 1)
  }

  /** What validateInventory does: refuse anything but an array, then the first bad item;
      otherwise the per-key totals (totals above 999 only produce a console warning). */
  function InventoryVerdict(inventory: InventoryValue): (r: Result<map<string, int>, InventoryError>)
    ensures !inventory.Items? ==> r == Failure(InventoryNotArray)
    ensures r.Success? ==> inventory.Items? && forall j :: 0 <= j < |inventory.items| ==> inventory.items[j].ItemObject?
    ensures r.Failure? && inventory.Items? ==> !r.error.InventoryNotArray? && r.error.index < |inventory.items|
  {
    if !inventory.Items? then Failure(InventoryNotArray)
    else
      var firstError := FirstItemError(inventory.items, 0);
      if firstError.Some? then FirstItemErrorIsFirst(inventory.items, 0); Failure(firstError.value)
      else
        FirstItemErrorNoneIff(inventory.items, 0);
        Success(ItemCounts(inventory.items))
  }

  lemma {:induction false} FirstItemErrorNoneIff(items: seq<Item>, k: nat)
    requires k <= |items|
    ensures FirstItemError(items, k).None? <==> forall j :: k <= j < |items| ==> ItemError(items[j], j).None?
    ensures FirstItemError(items, k).None? ==> forall j :: k <= j < |items| ==> items[j].ItemObject?
    decreases |items| - k
  {
    if k < |items| {
      FirstItemErrorNoneIff(items, k + 1);
    }
  }

  lemma {:induction false} FirstItemErrorIsFirst(items: seq<Item>, k: nat)
    requires k <= |items|
    requires FirstItemError(items, k).Some?
    ensures var e := FirstItemError(items, k).value;
            && !e.InventoryNotArray?
            && k <= e.index < |items|
            && ItemError(items[e.index], e.index) == Some(e)
            && forall j :: k <= j < e.index ==> ItemError(items[j], j).None?
    decreases |items| - k
  {
    if ItemError(items[k], k).None? {
      FirstItemErrorIsFirst(items, k + 1);
    }
  }

  /** validateInventory: the loop over the items, failing on the first bad one and
      otherwise filling the per-key totals. */
  method ValidateInventory(inventory: InventoryValue) returns (r: Result<map<string, int>, InventoryError>)
    ensures r == InventoryVerdict(inventory)
  {
    if !inventory.Items? {
      return Failure(InventoryNotArray);
    }
    var items := inventory.items;
    var counts: map<string, int> := map[];
    var i := 0;
    while i < |items|
      invariant 0 <= i <= |items|
      invariant FirstItemError(items, 0) == FirstItemError(items, i)
      invariant forall j :: 0 <= j < i ==> items[j].ItemObject?
      invariant counts == ItemCounts(items[..i])
    {
      var item := items[i];
      if item.NotAnObject? {
        return Failure(InvalidItem(i));
      }
      if item.name.OtherName? && item.name.truthy {
        return Failure(InvalidItemName(i));
      }
      if item.quantity.Some? {
        var q := item.quantity.value;
        if !q.Num? || q.n < 1 || q.n > 999 {
          return Failure(InvalidQuantity(i, q));
        }
      }
      assert items[..i + 1][..i] == items[..i];
      counts := AddCount(counts, ItemKey(item), ItemAmount(item));
      i := i + 1;
    }
    assert items[..i] == items;
    return Success(counts);
  }

  /** The inventory is accepted exactly when it is an array whose every item is an object
      with no truthy non-string name and no quantity outside [1, 999]. */
  lemma InventoryAcceptedIff(inventory: InventoryValue)
    ensures InventoryVerdict(inventory).Success? <==>
            inventory.Items? && forall j :: 0 <= j < |inventory.items| ==> ItemError(inventory.items[j], j).None?
  {
    if inventory.Items? {
      FirstItemErrorNoneIff(inventory.items, 0);
    }
  }

  /** A refused array is refused for its first bad item. */
  lemma InventoryRejectsFirstBadItem(inventory: InventoryValue)
    requires inventory.Items? && InventoryVerdict(inventory).Failure?
    ensures var e := InventoryVerdict(inventory).error;
            && !e.InventoryNotArray?
            && e.index < |inventory.items|
            && ItemError(inventory.items[e.index], e.index) == Some(e)
            && forall j :: 0 <= j < e.index ==> ItemError(inventory.items[j], j).None?
  {
    FirstItemErrorIsFirst(inventory.items, 0);
  }

  /** The tests' inventories: a potion stack of 5 and a single legendary sword are accepted,
      with one total per name and rarity; a stack of 9999 is refused on its quantity. */
  lemma TestInventories()
    ensures InventoryVerdict(Items([ItemObject(StringName("Potion de Soin"), Some(Num(5)), "commun"),
                                    ItemObject(StringName("Épée Légendaire"), Some(Num(1)), "legendaire")]))
            == Success(map["Potion de Soin_commun" := 5, "Épée Légendaire_legendaire" := 1])
    ensures InventoryVerdict(Items([ItemObject(StringName("Invalid Item"), Some(Num(9999)), "commun")]))
            == Failure(InvalidQuantity(0, Num(9999)))
  {
    var potion := ItemObject(StringName("Potion de Soin"), Some(Num(5)), "commun");
    var sword := ItemObject(StringName("Épée Légendaire"), Some(Num(1)), "legendaire");
    var items := [potion, sword];
    assert items[..1] == [potion] && [potion][..0] == [];
    assert ItemKey(potion) == "Potion de Soin_commun";
    assert ItemKey(sword) == "Épée Légendaire_legendaire";
    assert FirstItemError(items, 0) == None by {
      assert FirstItemError(items, 2) == None;
    }
    var k1, k2 := "Potion de Soin_commun", "Épée Légendaire_legendaire";
    assert ItemCounts([potion]) == map[k1 := 5] by {
      assert ItemCounts([potion][..0]) == map[];
    }
    assert ItemCounts(items) == AddCount(map[k1 := 5], k2, 1);
    assert |k1| != |k2|;
  }

  /** The keys whose totals draw the "suspicious item count" warning. */
  function SuspiciousKeys(counts: map<string, int>): set<string> {
    set key | key in counts && counts[key] > 999
  }

  /** The number of items sharing a key. */
  function CountWithKey(items: seq<Item>, key: string): nat
    requires forall i :: 0 <= i < |items| ==> items[i].ItemObject?
  {
    if items == [] then 0
    else CountWithKey(items[..|items| - 1], key) + (if ItemKey(items[|items| - 1]) == key then 1 else 0)
  }

  predicate ItemsValid(items: seq<Item>) {
    forall j :: 0 <= j < |items| ==> ItemError(items[j], j).None?
  }

  lemma {:induction false} TotalsBoundedByItems(items: seq<Item>, key: string)
    requires ItemsValid(items)
    ensures forall i :: 0 <= i < |items| ==> items[i].ItemObject?
    ensures key in ItemCounts(items) <==> CountWithKey(items, key) > 0
    ensures key in ItemCounts(items) ==>
              CountWithKey(items, key) <= ItemCounts(items)[key] <= 999 * CountWithKey(items, key)
  {
    assert forall i :: 0 <= i < |items| ==> items[i].ItemObject? by {
      forall i | 0 <= i < |items| ensures items[i].ItemObject? {
        assert ItemError(items[i], i).None?;
      }
    }
    if items != [] {
      var prefix := items[..|items| - 1];
      assert ItemsValid(prefix) by {
        forall j | 0 <= j < |prefix| ensures ItemError(prefix[j], j).None? {
          assert prefix[j] == items[j];
        }
      }
      TotalsBoundedByItems(prefix, key);
      assert ItemError(items[|items| - 1], |items| - 1).None?;
    }
  }

  /** Every item holds at most 999, so a total above 999 (warned about, never refused) can only
      come from several items sharing one name and rarity. */
  lemma SuspiciousTotalNeedsSeveralItems(inventory: InventoryValue, key: string)
    requires InventoryVerdict(inventory).Success?
    requires key in SuspiciousKeys(InventoryVerdict(inventory).value)
    ensures inventory.Items?
    ensures forall i :: 0 <= i < |inventory.items| ==> inventory.items[i].ItemObject?
    ensures CountWithKey(inventory.items, key) >= 2
  {
    InventoryAcceptedIff(inventory);
    TotalsBoundedByItems(inventory.items, key);
  }

  // ---------------------------------------------------------------------------
  // validateProgressionRate

  /** The parts of a previously persisted state the rate check reads. */
  datatype PreviousState = PreviousState(lastSaveTime: Option<int>, level: Option<int>)

  /** The check always accepts; `suspicious` is whether it writes the rapid-levelling warning. */
  datatype RateCheck = RateCheck(accepted: bool, suspicious: bool)

  /** `value || fallback` for an optional number. */
  function OrElse(v: Option<int>, fallback: int): int {
    if v.Some? && v.value != 0 then v.value else fallback
  }

  /** validateProgressionRate, with Date.now() passed in as `now` (milliseconds). */
  function ValidateProgressionRate(p: PlayerData, previous: Option<PreviousState>, now: int): (r: RateCheck)
    ensures r.accepted
    ensures r.suspicious ==> previous.Some? && Get(p, Level).Some?
    ensures r.suspicious ==> now - OrElse(previous.value.lastSaveTime, 0) < 60000
  {
    if previous.None? then RateCheck(true, false)
    else
      var timeDiff := now - OrElse(previous.value.lastSaveTime, 0);
      var level := Get(p, Level);
      RateCheck(true, level.Some? && timeDiff < 60000 && level.value - OrElse(previous.value.level, 1) > 1)
  }

  /** Gaining a single level is never flagged, however fast; two within a minute are. */
  lemma ProgressionRateExamples(p: PlayerData, prev: PreviousState, now: int)
    requires Get(p, Level).Some? && prev.level.Some? && prev.level.value != 0
    requires prev.lastSaveTime.Some? && prev.lastSaveTime.value != 0
    ensures Get(p, Level).value <= prev.level.value + 1 ==> !ValidateProgressionRate(p, Some(prev), now).suspicious
    ensures Get(p, Level).value >= prev.level.value + 2 && now - prev.lastSaveTime.value < 60000
            ==> ValidateProgressionRate(p, Some(prev), now).suspicious
  {
  }

  // ---------------------------------------------------------------------------
  // Integrity metadata: addIntegrityMetadata and verifyIntegrityMetadata

  /** The `_integrity` envelope: a timestamp, the player's level as version, and the
      checksum of the player (null, here None, when the save had no player). */
  datatype Metadata = Metadata(timestamp: int, version: Value, checksum: Option<string>)

  /** A save blob; `player` is None when missing or falsy, `integrity` None when `_integrity` is. */
  class SaveData {
    var player: Option<PlayerData>
    var integrity: Option<Metadata>

    constructor (player: Option<PlayerData>, integrity: Option<Metadata>)
      ensures this.player == player && this.integrity == integrity
    {
      this.player := player;
      this.integrity := integrity;
    }
  }

  function IsTruthy(v: Value): bool {
    match v
    case Num(n) => n != 0
    case NonNumber(truthy) => truthy
  }

  /** `saveData.player?.level || 1`: the player's level when it is present and truthy,
      otherwise 1; either way a truthy value. */
  function VersionOf(player: Option<PlayerData>): (v: Value)
    ensures IsTruthy(v)
    ensures player.Some? && Level in player.value.fields && IsTruthy(player.value.fields[Level])
            ==> v == player.value.fields[Level]
    ensures !(player.Some? && Level in player.value.fields && IsTruthy(player.value.fields[Level]))
            ==> v == Num(1)
  {
    if player.Some? && Level in player.value.fields && IsTruthy(player.value.fields[Level])
    then player.value.fields[Level] else Num(1)
  }

  /** The envelope addIntegrityMetadata builds; `ser` is the serializer JSON.stringify. */
  function StampFor(player: Option<PlayerData>, ser: PlayerData -> seq<Checksum.CodeUnit>, now: int): (m: Metadata)
    ensures m.timestamp == now
    ensures m.version == VersionOf(player)
    ensures m.checksum.Some? <==> player.Some?
    ensures player.Some? ==> Checksum.VerifyChecksum(ser(player.value), m.checksum.value)
  {
    Metadata(now, VersionOf(player), if player.Some? then Some(Checksum.Digest(ser(player.value))) else None)
  }

  /** addIntegrityMetadata: writes the envelope into the save blob in place and returns the blob. */
  method AddIntegrityMetadata(save: SaveData, ser: PlayerData -> seq<Checksum.CodeUnit>, now: int) returns (stamped: SaveData)
    modifies save
    ensures stamped == save
    ensures save.player == old(save.player)
    ensures save.integrity == Some(StampFor(save.player, ser, now))
  {
    var checksum: Option<string> := None;
    if save.player.Some? {
      var digest := Checksum.CalculateChecksum(ser(save.player.value));
      checksum := Some(digest);
    }
    save.integrity := Some(Metadata(now, VersionOf(save.player), checksum));
    return save;
  }

  /** verifyIntegrityMetadata on a blob's player and envelope: false when the envelope is
      missing or when a non-empty checksum is not, as a string, the player's digest;
      otherwise true. The source's timestamp check (more than 365 days from now) only
      writes a warning, so the verdict does not depend on the timestamp or the clock. */
  function VerifyIntegrityMetadata(player: Option<PlayerData>, integrity: Option<Metadata>,
                                   ser: PlayerData -> seq<Checksum.CodeUnit>): (ok: bool)
    ensures integrity.None? ==> !ok
    ensures integrity.Some? ==>
      (ok <==> !(player.Some? && integrity.value.checksum.Some? && integrity.value.checksum.value != ""
                 && integrity.value.checksum.value != Checksum.Digest(ser(player.value))))
    ensures ok && player.Some? && integrity.value.checksum.Some? && integrity.value.checksum.value != ""
            ==> Checksum.ParseRadix36(integrity.value.checksum.value) == Checksum.Hash(ser(player.value))
  {
    if integrity.None? then false
    else
      var checksum := integrity.value.checksum;
      if checksum.Some? && checksum.value != "" && player.Some? && !Checksum.VerifyChecksum(ser(player.value), checksum.value)
      then false
      else true
  }

  /** A blob verifies straight after it is stamped, whatever its player. */
  lemma VerifyAfterStamp(player: Option<PlayerData>, ser: PlayerData -> seq<Checksum.CodeUnit>, now: int)
    ensures VerifyIntegrityMetadata(player, Some(StampFor(player, ser, now)), ser)
  {
  }

  /** Tamper evidence: after stamping, editing the player so that its serialization changes
      in a single code unit makes verification fail. */
  lemma TamperedPlayerFailsVerification(player: PlayerData, tampered: PlayerData,
                                        ser: PlayerData -> seq<Checksum.CodeUnit>, now: int, i: nat)
    requires |ser(player)| == |ser(tampered)| && i < |ser(player)|
    requires ser(player)[i] != ser(tampered)[i]
    requires forall j :: 0 <= j < |ser(player)| && j != i ==> ser(player)[j] == ser(tampered)[j]
    ensures !VerifyIntegrityMetadata(Some(tampered), Some(StampFor(Some(player), ser, now)), ser)
  {
    Checksum.ChecksumDetectsSingleEdit(ser(player), ser(tampered), i);
    var d := Checksum.Digest(ser(player));
    assert d != "" by {
      assert Checksum.Digits(if Checksum.Hash(ser(player)) < 0 then -Checksum.Hash(ser(player)) else Checksum.Hash(ser(player))) != [];
    }
  }

  // ---------------------------------------------------------------------------
  // detectCheatPatterns

  datatype CheatWarning = GoldWithoutKills | LowKillsForLevel | BossesTooEarly | ExcessiveStats

  /** The order in which the rules run. */
  function Rank(w: CheatWarning): nat {
    match w
    case GoldWithoutKills => 1
    case LowKillsForLevel => 2
    case BossesTooEarly => 3
    case ExcessiveStats => 4
  }

  predicate Above(v: Option<int>, k: int) {
    v.Some? && v.value > k
  }

  predicate Below(v: Option<int>, k: int) {
    v.Some? && v.value < k
  }

  /** `(player.f || 0)` summed over the five primary stats. */
  function PrimaryStatTotal(p: PlayerData): int {
    OrElse(Get(p, Puissance), 0) + OrElse(Get(p, Defense), 0) + OrElse(Get(p, Adresse), 0)
      + OrElse(Get(p, Esprit), 0) + OrElse(Get(p, Presence), 0)
  }

  /** When each rule fires. */
  predicate Fires(p: PlayerData, w: CheatWarning) {
    match w
    case GoldWithoutKills => Above(Get(p, Gold), 10000) && Below(Get(p, Kills), 10)
    case LowKillsForLevel => Above(Get(p, Level), 10) && Get(p, Kills).Some? && Get(p, Kills).value < Get(p, Level).value * 5
    case BossesTooEarly => Get(p, BossesDefeated).Some? && Get(p, BossesDefeated).value >= 4 && Below(Get(p, Level), 15)
    case ExcessiveStats => PrimaryStatTotal(p) > 200 && Below(Get(p, Level), 10)
  }

  /** detectCheatPatterns: exactly the rules that fire, each once, in rule order. */
  method DetectCheatPatterns(p: PlayerData) returns (warnings: seq<CheatWarning>)
    ensures forall w :: w in warnings <==> Fires(p, w)
    ensures forall i, j :: 0 <= i < j < |warnings| ==> Rank(warnings[i]) < Rank(warnings[j])
  {
    warnings := [];
    if Above(Get(p, Gold), 10000) && Below(Get(p, Kills), 10) {
      warnings := warnings + [GoldWithoutKills];
    }
    var level := Get(p, Level);
    var kills := Get(p, Kills);
    if Above(level, 10) && kills.Some? && kills.value < level.value * 5 {
      warnings := warnings + [LowKillsForLevel];
    }
    var bosses := Get(p, BossesDefeated);
    if bosses.Some? && bosses.value >= 4 && Below(level, 15) {
      warnings := warnings + [BossesTooEarly];
    }
    if PrimaryStatTotal(p) > 200 && Below(level, 10) {
      warnings := warnings + [ExcessiveStats];
    }
    // Rule 5 (many kills, no deaths) only writes an informational console line.
  }

  /** Deaths feed no rule: many kills with no deaths never changes the warnings. */
  lemma DeathsNeverWarn(p: PlayerData, deaths: Value, w: CheatWarning)
    ensures Fires(p.(fields := p.fields[Deaths := deaths]), w) <==> Fires(p, w)
  {
    var q := p.(fields := p.fields[Deaths := deaths]);
    assert forall f :: f != Deaths ==> Get(q, f) == Get(p, f);
  }

  /** The tests' suspicious hero (gold 100000, kills 5, level 20) trips rules 1 and 2 and no other. */
  lemma SuspiciousTestHeroFlagged()
    ensures var p := WithFields(TestHero, map[Gold := Num(100000), Kills := Num(5), Level := Num(20)]);
            Fires(p, GoldWithoutKills) && Fires(p, LowKillsForLevel)
            && !Fires(p, BossesTooEarly) && !Fires(p, ExcessiveStats)
  {
  }

  // ---------------------------------------------------------------------------
  // validateSaveData

  datatype SaveError =
    | InvalidStructure
    | MissingPlayer
    | InvalidPlayer(violation: Violation)
    | InvalidInventory(error: InventoryError)

  /** The advisory outcome of an accepted load: whether the envelope verified, the cheat
      warnings, and the inventory keys whose totals exceed 999. */
  datatype SaveReport = SaveReport(integrityValid: bool, cheatWarnings: seq<CheatWarning>, suspiciousItems: set<string>)

  /** validateSaveData: the hard checks decide acceptance; a failed integrity check,
      cheat patterns and large item totals are reported but never refuse the load. */
  method ValidateSaveData(save: SaveData?, ser: PlayerData -> seq<Checksum.CodeUnit>)
    returns (r: Result<SaveReport, SaveError>)
    ensures save == null ==> r == Failure(InvalidStructure)
    ensures save != null && save.player.None? ==> r == Failure(MissingPlayer)
    ensures save != null && save.player.Some? ==>
      var p := save.player.value;
      var checkInventory := p.inventory != NoInventory;
      && (PlayerDataVerdict(p).Fail? ==> r == Failure(InvalidPlayer(PlayerDataVerdict(p).error)))
      && (PlayerDataVerdict(p).Pass? && checkInventory && InventoryVerdict(p.inventory).Failure? ==>
            r == Failure(InvalidInventory(InventoryVerdict(p.inventory).error)))
      && (PlayerDataVerdict(p).Pass? && (checkInventory ==> InventoryVerdict(p.inventory).Success?) ==>
                r.Success?
                && r.value.integrityValid == VerifyIntegrityMetadata(save.player, save.integrity, ser)
                && (forall w :: w in r.value.cheatWarnings <==> Fires(p, w)))
  {
    if save == null {
      return Failure(InvalidStructure);
    }
    if save.player.None? {
      return Failure(MissingPlayer);
    }
    var p := save.player.value;
    var verdict := ValidatePlayerData(p);
    if verdict.Fail? {
      return Failure(InvalidPlayer(verdict.error));
    }
    var suspicious: set<string> := {};
    if p.inventory != NoInventory {
      var inventory := ValidateInventory(p.inventory);
      if inventory.Failure? {
        return Failure(InvalidInventory(inventory.error));
      }
      suspicious := SuspiciousKeys(inventory.value);
    }
    var integrityValid := VerifyIntegrityMetadata(save.player, save.integrity, ser);
    var warnings := DetectCheatPatterns(p);
    return Success(SaveReport(integrityValid, warnings, suspicious));
  }
}
