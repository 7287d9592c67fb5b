/** The player-state mutations of js/game-logic.js that the validators guard:
    level-up, stat-point spending, selling an item, the leaderboard score and the
    merge of the current player into the local leaderboard. */
module GameLogic {
  import opened Results
  import opened Hero
  import AntiCheat
  import IntegrityChecker

  // ---------------------------------------------------------------------------
  // checkLevelUp

  /** Maximum-health gain on a level-up: 10 by default (guerrier), 6 for an archer,
      4 for a magicien. */
  function HpIncrease(heroClass: string): (hp: int)
    ensures hp in {4, 6, 10}
    ensures hp == 10 <==> heroClass != "archer" && heroClass != "magicien"
  {
    if heroClass == "archer" then 6 else if heroClass == "magicien" then 4 else 10
  }

  /** `Math.floor(x * 1.5)` on an integer x. */
  function NextXpToLevel(x: int): (r: int)
    ensures 2 * r <= 3 * x < 2 * r + 2
  {
    (3 * x) / 2
  }

  /** What checkLevelUp does to the record. At or past MAX_LEVEL, enough XP is converted
      into gold at ten XP per coin; below it, enough XP buys exactly one level with its
      health, strength, defense and stat-point rewards; otherwise nothing changes. */
  function LevelUp(s: PlayerState): (r: PlayerState)
    ensures r.level == s.level || r.level == s.level + 1
    ensures r.inventory == s.inventory && r.kills == s.kills && r.energy == s.energy
  {
    if s.level >= AntiCheat.MaxLevel then
      if s.xp >= s.xpToLevel then s.(gold := s.gold + s.xp / 10, xp := 0) else s
    else if s.xp >= s.xpToLevel then
      var maxHealth := s.maxHealth + HpIncrease(s.heroClass);
      s.(level := s.level + 1, xp := s.xp - s.xpToLevel, xpToLevel := NextXpToLevel(s.xpToLevel),
         maxHealth := maxHealth, health := maxHealth,
         strength := s.strength + 5, defense := s.defense + 3,
         statPoints := s.statPoints + 1)
    else s
  }

  /** The outcomes of checkLevelUp, case by case. */
  lemma LevelUpOutcome(s: PlayerState)
    ensures LevelUp(s).level == s.level || LevelUp(s).level == s.level + 1
    ensures LevelUp(s).level == s.level + 1 <==> s.level < AntiCheat.MaxLevel && s.xp >= s.xpToLevel
    ensures s.xp < s.xpToLevel ==> LevelUp(s) == s
    ensures s.level >= AntiCheat.MaxLevel && s.xp >= s.xpToLevel ==>
      LevelUp(s) == s.(gold := s.gold + s.xp / 10, xp := 0)
    ensures LevelUp(s).level == s.level + 1 ==>
      && LevelUp(s).xp == s.xp - s.xpToLevel && 0 <= LevelUp(s).xp
      && 2 * LevelUp(s).xpToLevel <= 3 * s.xpToLevel < 2 * LevelUp(s).xpToLevel + 2
      && LevelUp(s).maxHealth == s.maxHealth + HpIncrease(s.heroClass) && LevelUp(s).health == LevelUp(s).maxHealth
      && LevelUp(s).strength == s.strength + 5 && LevelUp(s).defense == s.defense + 3
      && LevelUp(s).statPoints == s.statPoints + 1
      && LevelUp(s).gold == s.gold && LevelUp(s).inventory == s.inventory
    ensures LevelUp(s).level == s.level + 1 ==>
      LevelUp(s).(level := s.level, xp := s.xp, xpToLevel := s.xpToLevel, maxHealth := s.maxHealth,
                  health := s.health, strength := s.strength, defense := s.defense,
                  statPoints := s.statPoints) == s
  {
  }

  /** checkLevelUp on `gameState.player`. */
  method CheckLevelUp(p: Player)
    modifies p
    ensures p.state == LevelUp(old(p.state))
  {
    if p.state.level >= AntiCheat.MaxLevel {
      if p.state.xp >= p.state.xpToLevel {
        var goldBonus := p.state.xp / 10;
        p.state := p.state.(gold := p.state.gold + goldBonus);
        p.state := p.state.(xp := 0);
      }
      return;
    }
    if p.state.xp >= p.state.xpToLevel {
      p.state := p.state.(level := p.state.level + 1);
      p.state := p.state.(xp := p.state.xp - p.state.xpToLevel);
      p.state := p.state.(xpToLevel := (3 * p.state.xpToLevel) / 2);
      var hpIncrease := HpIncrease(p.state.heroClass);
      p.state := p.state.(maxHealth := p.state.maxHealth + hpIncrease);
      p.state := p.state.(health := p.state.maxHealth);
      p.state := p.state.(strength := p.state.strength + 5);
      p.state := p.state.(defense := p.state.defense + 3);
      p.state := p.state.(statPoints := p.state.statPoints + 1);
    }
  }

  /** The level change of a level-up is the one validateAction('levelUp') accepts. */
  lemma LevelUpPassesActionGate(s: PlayerState)
    requires LevelUp(s).level != s.level
    ensures IntegrityChecker.ValidateAction(
      IntegrityChecker.LevelUp(Some(s.level), Some(LevelUp(s).level)), None).Pass?
  {
  }

  /** A level-up keeps the accounting invariants, and so does converting XP at the cap. */
  lemma LevelUpKeepsConsistency(s: PlayerState)
    requires Consistent(s)
    ensures Consistent(LevelUp(s))
  {
    var r := LevelUp(s);
    assert r.inventory == s.inventory;
  }

  /** The record after `calls` successive level-up checks. */
  function LevelsAfter(s: PlayerState, calls: nat): PlayerState
    decreases calls
  {
    if calls == 0 then s else LevelsAfter(LevelUp(s), calls - 1)
  }

  /** Repeated checks gain at most one level per call, however much XP there is. */
  lemma {:induction false} LevelUpNeverSkips(s: PlayerState, calls: nat)
    ensures LevelsAfter(s, calls).level <= s.level + calls
    decreases calls
  {
    if calls > 0 {
      LevelUpNeverSkips(LevelUp(s), calls - 1);
    }
  }

  // ---------------------------------------------------------------------------
  // spendStatPoint

  /** `player[st] += delta`. */
  function WithStat(s: PlayerState, st: Stat, v: int): (r: PlayerState)
    ensures StatValue(r, st) == v
    ensures forall o :: o != st ==> StatValue(r, o) == StatValue(s, o)
  {
    match st
    case Strength => s.(strength := v)
    case Dexterity => s.(dexterity := v)
    case Constitution => s.(constitution := v)
    case Intelligence => s.(intelligence := v)
    case Wisdom => s.(wisdom := v)
    case Charisma => s.(charisma := v)
  }

  /** Whether spendStatPoint goes ahead: a positive stat-point balance, a name in
      `validStats`, and a confirmed prompt. */
  predicate CanSpend(s: PlayerState, statName: string, confirmed: bool) {
    s.statPoints > 0 && ParseStat(statName).Some? && confirmed
  }

  /** What spendStatPoint does to the record. */
  function SpendStat(s: PlayerState, statName: string, confirmed: bool): (r: PlayerState)
    ensures !CanSpend(s, statName, confirmed) ==> r == s
    ensures CanSpend(s, statName, confirmed) ==>
      var st := ParseStat(statName).value;
      && StatValue(r, st) == StatValue(s, st) + 1
      && (forall o :: o != st ==> StatValue(r, o) == StatValue(s, o))
      && r.statPoints == s.statPoints - 1 && r.statPoints >= 0
      && r.maxHealth == s.maxHealth + (if st == Constitution then 2 else 0)
      && r.health == s.health + (if st == Constitution then 2 else 0)
      && r.level == s.level && r.gold == s.gold && r.xp == s.xp && r.inventory == s.inventory
    ensures CanSpend(s, statName, confirmed) ==>
      r.(statPoints := s.statPoints, maxHealth := s.maxHealth, health := s.health,
         strength := s.strength, dexterity := s.dexterity, constitution := s.constitution,
         intelligence := s.intelligence, wisdom := s.wisdom, charisma := s.charisma) == s
  {
    if !CanSpend(s, statName, confirmed) then s
    else
      var st := ParseStat(statName).value;
      var spent := WithStat(s, st, StatValue(s, st) + 1).(statPoints := s.statPoints - 1);
      if st == Constitution then spent.(maxHealth := s.maxHealth + 2, health := s.health + 2)
      else spent
  }

  /** spendStatPoint(statName) on `gameState.player`, with the answer to its `confirm` prompt
      passed in as `confirmed`. */
  method SpendStatPoint(p: Player, statName: string, confirmed: bool)
    modifies p
    ensures p.state == SpendStat(old(p.state), statName, confirmed)
  {
    if p.state.statPoints <= 0 {
      return;
    }
    var stat := ParseStat(statName);
    if stat.None? {
      return;
    }
    if !confirmed {
      return;
    }
    match stat.value {
      case Strength => p.state := p.state.(strength := p.state.strength + 1);
      case Dexterity => p.state := p.state.(dexterity := p.state.dexterity + 1);
      case Constitution => p.state := p.state.(constitution := p.state.constitution + 1);
      case Intelligence => p.state := p.state.(intelligence := p.state.intelligence + 1);
      case Wisdom => p.state := p.state.(wisdom := p.state.wisdom + 1);
      case Charisma => p.state := p.state.(charisma := p.state.charisma + 1);
    }
    p.state := p.state.(statPoints := p.state.statPoints - 1);
    if stat.value == Constitution {
      p.state := p.state.(maxHealth := p.state.maxHealth + 2);
      p.state := p.state.(health := p.state.health + 2);
    }
  }

  /** Spending a point keeps the accounting invariants; in particular the constitution
      bonus keeps health at most maxHealth. */
  lemma SpendStatKeepsConsistency(s: PlayerState, statName: string, confirmed: bool)
    requires Consistent(s)
    ensures Consistent(SpendStat(s, statName, confirmed))
  {
    var r := SpendStat(s, statName, confirmed);
    assert r.inventory == s.inventory;
  }

  /** Spending every point one by one leaves the balance at zero and never below it. */
  lemma {:induction false} SpendingExhaustsPoints(s: PlayerState, statName: string, n: nat)
    requires statName in ValidStats && 0 <= s.statPoints
    ensures SpentTimes(s, statName, n).statPoints == if n <= s.statPoints then s.statPoints - n else 0
    decreases n
  {
    if n > 0 {
      SpendingExhaustsPoints(SpendStat(s, statName, true), statName, n - 1);
    }
  }

  /** The record after `n` confirmed attempts to spend a point on `statName`. */
  function SpentTimes(s: PlayerState, statName: string, n: nat): PlayerState
    decreases n
  {
    if n == 0 then s else SpentTimes(SpendStat(s, statName, true), statName, n - 1)
  }

  /** A new strength point is a stat change validateAction('statIncrease') accepts while
      strength stays at most 150. */
  lemma SpentStrengthPassesActionGate(s: PlayerState)
    requires CanSpend(s, "strength", true) && s.strength < IntegrityChecker.MaxStat
    ensures IntegrityChecker.ValidateAction(
      IntegrityChecker.StatIncrease(Some(SpendStat(s, "strength", true).strength)), None).Pass?
  {
  }

  // ---------------------------------------------------------------------------
  // sellInventoryItem

  /** The merchant's price for an item: `Math.floor(cost * 0.5)`. */
  function SellPrice(item: Item): (price: int)
    ensures 2 * price <= item.cost < 2 * price + 2
  {
    item.cost / 2
  }

  /** `inventory` without its entry at `index`, the rest in their order. */
  function RemoveAt(items: seq<Item>, index: nat): (r: seq<Item>)
    requires index < |items|
    ensures |r| == |items| - 1
    ensures forall j :: 0 <= j < index ==> r[j] == items[j]
    ensures forall j :: index <= j < |r| ==> r[j] == items[j + 1]
    ensures multiset(r) + multiset{items[index]} == multiset(items)
  {
    assert items == items[..index] + [items[index]] + items[index + 1..];
    items[..index] + items[index + 1..]
  }

  /** What sellInventoryItem(index) does: an index outside the inventory changes nothing;
      otherwise the item's price is paid in gold and exactly that item leaves the inventory. */
  function Sell(s: PlayerState, index: int): (r: PlayerState)
    ensures !(0 <= index < |s.inventory|) ==> r == s
    ensures 0 <= index < |s.inventory| ==>
      && r.gold == s.gold + SellPrice(s.inventory[index])
      && r.inventory == RemoveAt(s.inventory, index)
      && r.(gold := s.gold, inventory := s.inventory) == s
  {
    if index < 0 || index >= |s.inventory| then s
    else s.(gold := s.gold + SellPrice(s.inventory[index]), inventory := RemoveAt(s.inventory, index))
  }

  /** sellInventoryItem(index) on `gameState.player`. */
  method SellInventoryItem(p: Player, index: int)
    modifies p
    ensures p.state == Sell(old(p.state), index)
  {
    if index < 0 || index >= |p.state.inventory| {
      return;
    }
    var item := p.state.inventory[index];
    var sellPrice := item.cost / 2;
    p.state := p.state.(gold := p.state.gold + sellPrice);
    p.state := p.state.(inventory := p.state.inventory[..index] + p.state.inventory[index + 1..]);
  }

  /** Selling keeps the accounting invariants: prices of non-negative costs are non-negative. */
  lemma SellKeepsConsistency(s: PlayerState, index: int)
    requires Consistent(s)
    ensures Consistent(Sell(s, index))
  {
    if 0 <= index < |s.inventory| {
      var r := Sell(s, index);
      forall j | 0 <= j < |r.inventory| ensures r.inventory[j].cost >= 0 {
        if j >= index {
          assert r.inventory[j] == s.inventory[j + 1];
        }
      }
    }
  }

  // ---------------------------------------------------------------------------
  // calculatePlayerScore

  /** calculatePlayerScore: a weighted sum of level, kills, strength and defense. */
  function PlayerScore(level: int, kills: int, strength: int, defense: int): (score: int)
    ensures score % 5 == 0
    ensures 0 <= level && 0 <= kills && 0 <= strength && 0 <= defense ==> score >= 0
  {
    var fifths := level * 20 + kills * 10 + strength * 2 + defense;
    assert (5 * fifths) % 5 == 0;
    level * 100 + kills * 50 + strength * 10 + defense * 5
  }

  /** The score of a player record. */
  function ScoreOf(s: PlayerState): int {
    PlayerScore(s.level, s.kills, s.strength, s.defense)
  }

  /** The score never drops while level, kills, strength and defense do not, and each
      of them weighs as calculatePlayerScore says: 100, 50, 10 and 5 points a unit. */
  lemma ScoreMonotone(s: PlayerState, t: PlayerState)
    requires s.level <= t.level && s.kills <= t.kills && s.strength <= t.strength && s.defense <= t.defense
    ensures ScoreOf(s) <= ScoreOf(t)
    ensures ScoreOf(t) - ScoreOf(s) ==
      100 * (t.level - s.level) + 50 * (t.kills - s.kills) + 10 * (t.strength - s.strength) + 5 * (t.defense - s.defense)
  {
  }

  /** A level-up is worth 165 points on the leaderboard: 100 for the level, 50 for the
      strength and 15 for the defense it grants; converting XP at the cap is worth none. */
  lemma LevelUpScore(s: PlayerState)
    ensures LevelUp(s).level == s.level + 1 ==> ScoreOf(LevelUp(s)) == ScoreOf(s) + 165
    ensures LevelUp(s).level == s.level ==> ScoreOf(LevelUp(s)) == ScoreOf(s)
  {
  }

  /** Spending a point changes the score only through strength. */
  lemma SpendStatScore(s: PlayerState, statName: string, confirmed: bool)
    ensures ScoreOf(SpendStat(s, statName, confirmed)) ==
      ScoreOf(s) + (if CanSpend(s, statName, confirmed) && statName == "strength" then 10 else 0)
  {
    if CanSpend(s, statName, confirmed) {
      var st := ParseStat(statName).value;
      assert st == Strength <==> statName == "strength";
      assert StatValue(SpendStat(s, statName, confirmed), Strength) == SpendStat(s, statName, confirmed).strength;
    }
  }

  // ---------------------------------------------------------------------------
  // The local leaderboard (displayLocalLeaderboard)

  /** A leaderboard row as stored on the device. */
  datatype Entry = Entry(name: string, level: int, kills: int, strength: int, defense: int, score: int)

  /** The row for the current player. */
  function EntryOf(s: PlayerState): (e: Entry)
    ensures e.name == s.name && e.score == ScoreOf(s)
  {
    Entry(s.name, s.level, s.kills, s.strength, s.defense, ScoreOf(s))
  }

  /** `players.findIndex(p => p.name === name)`: the first row with that name, or -1. */
  method FindIndex(players: seq<Entry>, name: string) returns (index: int)
    ensures -1 <= index < |players|
    ensures index == -1 <==> forall j :: 0 <= j < |players| ==> players[j].name != name
    ensures index >= 0 ==>
      players[index].name == name && forall j :: 0 <= j < index ==> players[j].name != name
  {
    index := 0;
    while index < |players|
      invariant 0 <= index <= |players|
      invariant forall j :: 0 <= j < index ==> players[j].name != name
    {
      if players[index].name == name {
        return;
      }
      index := index + 1;
    }
    index := -1;
  }

  /** Some row carries the name. */
  predicate Listed(players: seq<Entry>, name: string) {
    exists j :: 0 <= j < |players| && players[j].name == name
  }

  /** The merge of the current row into the board: a known name's first row is replaced
      only by a strictly higher score; an unknown name is appended. */
  predicate MergedInto(players: seq<Entry>, current: Entry, merged: seq<Entry>) {
    if Listed(players, current.name) then
      exists k :: 0 <= k < |players| && players[k].name == current.name
        && (forall j :: 0 <= j < k ==> players[j].name != current.name)
        && merged == players[k := if current.score > players[k].score then current else players[k]]
    else merged == players + [current]
  }

  /** The merge step of displayLocalLeaderboard on the rows read from storage. */
  method MergeEntry(players: seq<Entry>, current: Entry) returns (merged: seq<Entry>)
    ensures MergedInto(players, current, merged)
    ensures forall name :: Listed(merged, name) <==> Listed(players, name) || name == current.name
    ensures |merged| == |players| + (if Listed(players, current.name) then 0 else 1)
  {
    var existingIndex := FindIndex(players, current.name);
    if existingIndex >= 0 {
      merged := players;
      if current.score > players[existingIndex].score {
        merged := players[existingIndex := current];
      }
      assert forall j :: 0 <= j < |merged| ==> merged[j].name == players[j].name;
    } else {
      merged := players + [current];
      assert merged[|players|].name == current.name;
      forall name ensures Listed(merged, name) <==> Listed(players, name) || name == current.name {
        if Listed(merged, name) && name != current.name {
          var j :| 0 <= j < |merged| && merged[j].name == name;
          assert players[j].name == name;
        }
        if Listed(players, name) {
          var j :| 0 <= j < |players| && players[j].name == name;
          assert merged[j].name == name;
        }
      }
    }
  }

  /** After a merge the current player's first row holds the better of the stored
      score and the current one, and no other row changed. */
  lemma MergeKeepsBestScore(players: seq<Entry>, current: Entry, merged: seq<Entry>, k: nat)
    requires MergedInto(players, current, merged)
    requires k < |players| && players[k].name == current.name
    requires forall j :: 0 <= j < k ==> players[j].name != current.name
    ensures merged[k].score == if current.score > players[k].score then current.score else players[k].score
    ensures forall j :: 0 <= j < |players| && j != k ==> merged[j] == players[j]
  {
    var k' :| 0 <= k' < |players| && players[k'].name == current.name
      && (forall j :: 0 <= j < k' ==> players[j].name != current.name)
      && merged == players[k' := if current.score > players[k'].score then current else players[k']];
    assert k' == k;
  }

  /** Rows ordered by non-increasing score, as `sort((a, b) => b.score - a.score)` leaves them. */
  predicate SortedByScore(rows: seq<Entry>) {
    forall i, j :: 0 <= i < j < |rows| ==> rows[i].score >= rows[j].score
  }

  /** Inserts a row into rows sorted by non-increasing score, after any row with the same score. */
  function Insert(e: Entry, rows: seq<Entry>): seq<Entry>
    decreases |rows|
  {
    if rows == [] then [e]
    else if e.score > rows[0].score then [e] + rows
    else [rows[0]] + Insert(e, rows[1..])
  }

  /** Insertion adds exactly the new row. */
  lemma {:induction false} InsertAddsRow(e: Entry, rows: seq<Entry>)
    ensures multiset(Insert(e, rows)) == multiset(rows) + multiset{e}
    decreases |rows|
  {
    if rows != [] && e.score <= rows[0].score {
      InsertAddsRow(e, rows[1..]);
      assert rows == [rows[0]] + rows[1..];
    }
  }

  /** Insertion into sorted rows keeps them sorted. */
  lemma {:induction false} InsertKeepsOrder(e: Entry, rows: seq<Entry>)
    requires SortedByScore(rows)
    ensures SortedByScore(Insert(e, rows))
    decreases |rows|
  {
    if rows == [] {
    } else if e.score > rows[0].score {
      forall x | x in rows ensures e.score >= x.score {
        var j :| 0 <= j < |rows| && rows[j] == x;
        assert rows[0].score >= rows[j].score;
      }
      SortedCons(e, rows);
    } else {
      var rest := Insert(e, rows[1..]);
      InsertKeepsOrder(e, rows[1..]);
      InsertAddsRow(e, rows[1..]);
      forall x | x in rest ensures rows[0].score >= x.score {
        assert x in multiset(rest);
        if x != e {
          assert x in multiset(rows[1..]);
          var j :| 0 <= j < |rows[1..]| && rows[1..][j] == x;
          assert rows[0].score >= rows[j + 1].score;
        }
      }
      SortedCons(rows[0], rest);
    }
  }

  /** A row scoring at least every row of sorted rows can go in front of them. */
  lemma SortedCons(x: Entry, rows: seq<Entry>)
    requires SortedByScore(rows)
    requires forall y :: y in rows ==> x.score >= y.score
    ensures SortedByScore([x] + rows)
  {
    var r := [x] + rows;
    forall i, j | 0 <= i < j < |r| ensures r[i].score >= r[j].score {
      assert r[j] == rows[j - 1];
      if i > 0 {
        assert r[i] == rows[i - 1];
      }
    }
  }

  /** The rows sorted by non-increasing score: same rows, new order. */
  function SortByScore(rows: seq<Entry>): seq<Entry>
    decreases |rows|
  {
    if rows == [] then [] else Insert(rows[|rows| - 1], SortByScore(rows[..|rows| - 1]))
  }

  lemma {:induction false} SortByScoreSorts(rows: seq<Entry>)
    ensures SortedByScore(SortByScore(rows))
    ensures multiset(SortByScore(rows)) == multiset(rows)
    decreases |rows|
  {
    if rows != [] {
      var init, last := rows[..|rows| - 1], rows[|rows| - 1];
      SortByScoreSorts(init);
      var front := SortByScore(init);
      InsertKeepsOrder(last, front);
      InsertAddsRow(last, front);
      assert rows == init + [last];
    }
  }

  /** displayLocalLeaderboard without the DOM: `stored` is the parsed storage contents and
      `player` the current record. With a named player the merged rows are written back
      (`saved`); the displayed rows are then sorted by non-increasing score. */
  method LocalLeaderboard(stored: seq<Entry>, player: PlayerState)
    returns (saved: Option<seq<Entry>>, shown: seq<Entry>)
    ensures player.name == "" ==> saved == None && multiset(shown) == multiset(stored)
    ensures player.name != "" ==>
      saved.Some? && MergedInto(stored, EntryOf(player), saved.value) && multiset(shown) == multiset(saved.value)
    ensures SortedByScore(shown)
    ensures player.name != "" ==> Listed(shown, player.name)
  {
    var players := stored;
    saved := None;
    if player.name != "" {
      players := MergeEntry(stored, EntryOf(player));
      saved := Some(players);
    }
    shown := SortByScore(players);
    SortByScoreSorts(players);
    if player.name != "" {
      NamesOfPermutation(players, shown, player.name);
    }
  }

  /** Reordering rows keeps the names they carry. */
  lemma NamesOfPermutation(a: seq<Entry>, b: seq<Entry>, name: string)
    requires multiset(a) == multiset(b) && Listed(a, name)
    ensures Listed(b, name)
  {
    var j :| 0 <= j < |a| && a[j].name == name;
    assert a[j] in multiset(a);
    assert a[j] in multiset(b);
    var k :| 0 <= k < |b| && b[k] == a[j];
  }
}
