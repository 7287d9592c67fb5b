/** The runtime integrity checker of js/integrity-checker.js: snapshots of the
    player, the diff rules between two snapshots, the leaky-bucket anomaly
    counter kept between checks, and the synchronous gate on critical actions. */
module IntegrityChecker {
  import opened Results
  import AntiCheat

  /** CHECK_INTERVAL: milliseconds between two ticks of the monitor. */
  const CheckInterval: int := 30000

  /** ANOMALY_THRESHOLD: accumulated anomalies at which the monitor raises its alarm. */
  const AnomalyThreshold: int := 3

  /** FIVE minutes in milliseconds: `minutesDiff < 5` is `timeDiff < FiveMinutes`. */
  const FiveMinutes: int := 5 * 60 * 1000

  // ---------------------------------------------------------------------------
  // takeSnapshot

  /** The critical numbers of the player at one instant; `None` is an absent property. */
  datatype Snapshot = Snapshot(
    level: Option<int>, health: Option<int>, maxHealth: Option<int>, gold: Option<int>,
    xp: Option<int>, kills: Option<int>, puissance: Option<int>, defense: Option<int>,
    timestamp: int)

  /** takeSnapshot, with `Date.now()` passed in as `now`. */
  function TakeSnapshot(p: AntiCheat.PlayerData, now: int): (s: Snapshot)
    ensures s.timestamp == now
    ensures s.level == AntiCheat.Get(p, AntiCheat.Level) && s.health == AntiCheat.Get(p, AntiCheat.Health)
    ensures s.maxHealth == AntiCheat.Get(p, AntiCheat.MaxHealth) && s.gold == AntiCheat.Get(p, AntiCheat.Gold)
    ensures s.xp == AntiCheat.Get(p, AntiCheat.Xp) && s.kills == AntiCheat.Get(p, AntiCheat.Kills)
    ensures s.puissance == AntiCheat.Get(p, AntiCheat.Puissance) && s.defense == AntiCheat.Get(p, AntiCheat.Defense)
  {
    Snapshot(
      AntiCheat.Get(p, AntiCheat.Level), AntiCheat.Get(p, AntiCheat.Health),
      AntiCheat.Get(p, AntiCheat.MaxHealth), AntiCheat.Get(p, AntiCheat.Gold),
      AntiCheat.Get(p, AntiCheat.Xp), AntiCheat.Get(p, AntiCheat.Kills),
      AntiCheat.Get(p, AntiCheat.Puissance), AntiCheat.Get(p, AntiCheat.Defense),
      now)
  }

  // ---------------------------------------------------------------------------
  // checkForSuspiciousChanges

  /** The kinds of warning the diff rules raise, in the order the rules run. */
  datatype Anomaly =
    | PuissanceJump
    | DefenseJump
    | RapidGold
    | RapidLevel
    | HealthOverMax
    | LevelDecreased

  function Rank(a: Anomaly): nat {
    match a
    case PuissanceJump => 0
    case DefenseJump => 1
    case RapidGold => 2
    case RapidLevel => 3
    case HealthOverMax => 4
    case LevelDecreased => 5
  }

  /** Warnings in strictly increasing rule order, hence without repeats. */
  predicate InRuleOrder(w: seq<Anomaly>) {
    forall i, j :: 0 <= i < j < |w| ==> Rank(w[i]) < Rank(w[j])
  }

  /** `a > b + k` in JavaScript on possibly-absent numbers: an absent operand makes it false. */
  predicate RisesBy(a: Option<int>, b: Option<int>, k: int) {
    a.Some? && b.Some? && a.value - b.value > k
  }

  /** `a < b` on possibly-absent numbers. */
  predicate Less(a: Option<int>, b: Option<int>) {
    a.Some? && b.Some? && a.value < b.value
  }

  /** When each rule fires, stated rule by rule. */
  predicate Triggered(cur: Snapshot, prev: Snapshot, a: Anomaly) {
    var quick := cur.timestamp - prev.timestamp < FiveMinutes;
    match a
    case PuissanceJump => RisesBy(cur.puissance, prev.puissance, 50)
    case DefenseJump => RisesBy(cur.defense, prev.defense, 50)
    case RapidGold => RisesBy(cur.gold, prev.gold, 50000) && quick
    case RapidLevel => RisesBy(cur.level, prev.level, 3) && quick
    case HealthOverMax => Less(cur.maxHealth, cur.health)
    case LevelDecreased => Less(cur.level, prev.level)
  }

  /** The rules in the order checkForSuspiciousChanges runs them. */
  const Rules: seq<Anomaly> := [PuissanceJump, DefenseJump, RapidGold, RapidLevel, HealthOverMax, LevelDecreased]

  /** The rules among `rules` that fire, in their order: the reference the diff is checked against. */
  function Fired(cur: Snapshot, prev: Snapshot, rules: seq<Anomaly>): seq<Anomaly>
    decreases |rules|
  {
    if rules == [] then []
    else (if Triggered(cur, prev, rules[0]) then [rules[0]] else []) + Fired(cur, prev, rules[1..])
  }

  /** `cond ? [a] : []`. */
  function If(cond: bool, a: Anomaly): seq<Anomaly> {
    if cond then [a] else []
  }

  /** checkForSuspiciousChanges: a guarded append per rule. */
  function CheckForSuspiciousChanges(cur: Snapshot, prev: Snapshot): (r: seq<Anomaly>)
    ensures |r| <= |Rules|
    ensures (RapidGold in r || RapidLevel in r) ==> cur.timestamp - prev.timestamp < FiveMinutes
    ensures LevelDecreased in r ==> Less(cur.level, prev.level)
  {
    var quick := cur.timestamp - prev.timestamp < FiveMinutes;
    If(RisesBy(cur.puissance, prev.puissance, 50), PuissanceJump)
    + (If(RisesBy(cur.defense, prev.defense, 50), DefenseJump)
    + (If(RisesBy(cur.gold, prev.gold, 50000) && quick, RapidGold)
    + (If(RisesBy(cur.level, prev.level, 3) && quick, RapidLevel)
    + (If(Less(cur.maxHealth, cur.health), HealthOverMax)
    + If(Less(cur.level, prev.level), LevelDecreased)))))
  }

  /** One rule in front of others: it is reported first if it fires. */
  lemma FiredCons(cur: Snapshot, prev: Snapshot, a: Anomaly, rest: seq<Anomaly>)
    ensures Fired(cur, prev, [a] + rest) == If(Triggered(cur, prev, a), a) + Fired(cur, prev, rest)
  {
    assert ([a] + rest)[1..] == rest;
  }

  /** The diff is exactly the rules that fire, in rule order. */
  lemma SuspiciousChangesAreFiredRules(cur: Snapshot, prev: Snapshot)
    ensures CheckForSuspiciousChanges(cur, prev) == Fired(cur, prev, Rules)
  {
    var r5 := [LevelDecreased];
    var r4 := [HealthOverMax] + r5;
    var r3 := [RapidLevel] + r4;
    var r2 := [RapidGold] + r3;
    var r1 := [DefenseJump] + r2;
    assert Rules == [PuissanceJump] + r1;
    FiredCons(cur, prev, LevelDecreased, []);
    assert Fired(cur, prev, r5) == If(Triggered(cur, prev, LevelDecreased), LevelDecreased);
    FiredCons(cur, prev, HealthOverMax, r5);
    FiredCons(cur, prev, RapidLevel, r4);
    FiredCons(cur, prev, RapidGold, r3);
    FiredCons(cur, prev, DefenseJump, r2);
    FiredCons(cur, prev, PuissanceJump, r1);
    var quick := cur.timestamp - prev.timestamp < FiveMinutes;
    assert Triggered(cur, prev, PuissanceJump) == RisesBy(cur.puissance, prev.puissance, 50);
    assert Triggered(cur, prev, DefenseJump) == RisesBy(cur.defense, prev.defense, 50);
    assert Triggered(cur, prev, RapidGold) == (RisesBy(cur.gold, prev.gold, 50000) && quick);
    assert Triggered(cur, prev, RapidLevel) == (RisesBy(cur.level, prev.level, 3) && quick);
    assert Triggered(cur, prev, HealthOverMax) == Less(cur.maxHealth, cur.health);
    assert Triggered(cur, prev, LevelDecreased) == Less(cur.level, prev.level);
  }

  /** A rule is reported by `Fired` exactly when it is one of the rules and it fires. */
  lemma {:induction false} FiredMembers(cur: Snapshot, prev: Snapshot, rules: seq<Anomaly>, a: Anomaly)
    ensures a in Fired(cur, prev, rules) <==> a in rules && Triggered(cur, prev, a)
    decreases |rules|
  {
    if rules != [] {
      FiredMembers(cur, prev, rules[1..], a);
      assert rules == [rules[0]] + rules[1..];
    }
  }

  /** `Fired` keeps the rules' relative order: strictly increasing ranks when the rules have them. */
  lemma {:induction false} FiredInOrder(cur: Snapshot, prev: Snapshot, rules: seq<Anomaly>)
    requires InRuleOrder(rules)
    ensures InRuleOrder(Fired(cur, prev, rules))
    decreases |rules|
  {
    if rules != [] {
      FiredInOrder(cur, prev, rules[1..]);
      var rest := Fired(cur, prev, rules[1..]);
      forall a | a in rest ensures Rank(rules[0]) < Rank(a) {
        FiredMembers(cur, prev, rules[1..], a);
        var k :| 0 <= k < |rules[1..]| && rules[1..][k] == a;
        assert rules[k + 1] == a;
      }
      var w := Fired(cur, prev, rules);
      if Triggered(cur, prev, rules[0]) {
        assert w == [rules[0]] + rest;
        forall i, j | 0 <= i < j < |w| ensures Rank(w[i]) < Rank(w[j]) {
          assert w[j] == rest[j - 1] && w[j] in rest;
          if i > 0 {
            assert w[i] == rest[i - 1];
            assert Rank(rest[i - 1]) < Rank(rest[j - 1]);
          } else {
            assert w[i] == rules[0];
          }
        }
      }
    }
  }

  /** Each rule sits at the position of its rank. */
  lemma RulesByRank()
    ensures |Rules| == 6
    ensures forall i :: 0 <= i < |Rules| ==> Rank(Rules[i]) == i
    ensures forall a :: Rules[Rank(a)] == a
  {
  }

  /** The diff reports a warning exactly when its rule fires, in rule order and without repeats. */
  lemma SuspiciousChangesReported(cur: Snapshot, prev: Snapshot)
    ensures forall a :: a in CheckForSuspiciousChanges(cur, prev) <==> Triggered(cur, prev, a)
    ensures InRuleOrder(CheckForSuspiciousChanges(cur, prev))
  {
    SuspiciousChangesAreFiredRules(cur, prev);
    RulesByRank();
    forall a ensures a in CheckForSuspiciousChanges(cur, prev) <==> Triggered(cur, prev, a) {
      FiredMembers(cur, prev, Rules, a);
      assert Rules[Rank(a)] == a;
    }
    FiredInOrder(cur, prev, Rules);
  }

  /** Comparing a snapshot with itself can only report health above its maximum. */
  lemma IdenticalSnapshotsOnlyReportHealth(s: Snapshot)
    ensures CheckForSuspiciousChanges(s, s) == If(Less(s.maxHealth, s.health), HealthOverMax)
  {
  }

  /** In particular a snapshot of player data that validation accepts is never flagged
      against itself: validation already rules out health above its maximum. */
  lemma IdenticalValidSnapshotsAreClean(p: AntiCheat.PlayerData, now: int)
    requires AntiCheat.PlayerDataVerdict(p).Pass?
    ensures CheckForSuspiciousChanges(TakeSnapshot(p, now), TakeSnapshot(p, now)) == []
  {
    AntiCheat.PassIffAcceptable(p);
    IdenticalSnapshotsOnlyReportHealth(TakeSnapshot(p, now));
  }

  // ---------------------------------------------------------------------------
  // The anomaly counter

  /** The counter after a check whose diff found `n` warnings: warnings add their count and
      reaching the threshold resets it; a clean check lets it leak down by one, not below 0. */
  function NextAnomalyCount(count: int, n: nat): (r: int)
    ensures 0 <= count < AnomalyThreshold ==> 0 <= r < AnomalyThreshold
    ensures n > 0 && r != 0 ==> r == count + n
    ensures n == 0 ==> r <= count || r == 0
    ensures r == 0 <==> (n > 0 && count + n >= AnomalyThreshold) || (n == 0 && count <= 1) || count + n == 0
  {
    if n > 0 then
      if count + n >= AnomalyThreshold then 0 else count + n
    else if count - 1 > 0 then count - 1 else 0
  }

  /** The counter after `ticks` successive clean checks. */
  function AfterCleanChecks(count: int, ticks: nat): int
    decreases ticks
  {
    if ticks == 0 then count else AfterCleanChecks(NextAnomalyCount(count, 0), ticks - 1)
  }

  /** N clean checks leave the counter at max(0, count - N). */
  lemma {:induction false} CleanChecksLeak(count: int, ticks: nat)
    requires count >= 0
    ensures AfterCleanChecks(count, ticks) == if count - ticks > 0 then count - ticks else 0
    decreases ticks
  {
    if ticks > 0 {
      CleanChecksLeak(NextAnomalyCount(count, 0), ticks - 1);
    }
  }

  /** The counter after a run of checks, each finding the given number of warnings. */
  function AfterChecks(count: int, found: seq<nat>): int
    decreases |found|
  {
    if found == [] then count else AfterChecks(NextAnomalyCount(count, found[0]), found[1..])
  }

  /** Whatever the run, the counter stays in [0, ANOMALY_THRESHOLD). */
  lemma {:induction false} CounterStaysBelowThreshold(count: int, found: seq<nat>)
    requires 0 <= count < AnomalyThreshold
    ensures 0 <= AfterChecks(count, found) < AnomalyThreshold
    decreases |found|
  {
    if found != [] {
      CounterStaysBelowThreshold(NextAnomalyCount(count, found[0]), found[1..]);
    }
  }

  /** Three checks in a row with one warning each, starting from a clean counter,
      reach the threshold on the third and reset the counter. */
  lemma ThreeAnomaliesReset()
    ensures AfterChecks(0, [1, 1]) == 2
    ensures AfterChecks(0, [1, 1, 1]) == 0
  {
  }

  // ---------------------------------------------------------------------------
  // performIntegrityCheck and the periodic tick

  /** The module-level state of the checker. */
  class Monitor {
    var lastSnapshot: Option<Snapshot>
    var anomalyCount: int
    var lastCheckTime: int

    /** The counter never rests at or above the threshold. */
    predicate Valid()
      reads this
    {
      0 <= anomalyCount < AnomalyThreshold
    }

    /** The state when the module loads, `lastCheckTime` being `Date.now()` at that time. */
    constructor (now: int)
      ensures Valid()
      ensures lastSnapshot == None && anomalyCount == 0 && lastCheckTime == now
    {
      lastSnapshot := None;
      anomalyCount := 0;
      lastCheckTime := now;
    }

    /** performIntegrityCheck on `gameState.player` (`None` when there is no player object, on
        which validation throws). A failed validation returns false and changes nothing; a
        successful check compares with the previous snapshot when there is one, updates the
        counter, and records the new snapshot and time. */
    method PerformIntegrityCheck(player: Option<AntiCheat.PlayerData>, now: int) returns (ok: bool)
      requires Valid()
      modifies this
      ensures Valid()
      ensures ok <==> player.Some? && AntiCheat.PlayerDataVerdict(player.value).Pass?
      ensures !ok ==>
        (lastSnapshot == old(lastSnapshot) && anomalyCount == old(anomalyCount) && lastCheckTime == old(lastCheckTime))
      ensures ok ==> lastSnapshot == Some(TakeSnapshot(player.value, now)) && lastCheckTime == now
      ensures ok && old(lastSnapshot).None? ==> anomalyCount == old(anomalyCount)
      ensures ok && old(lastSnapshot).Some? ==>
        anomalyCount == NextAnomalyCount(old(anomalyCount),
          |CheckForSuspiciousChanges(TakeSnapshot(player.value, now), old(lastSnapshot).value)|)
    {
      if player.None? {
        return false;
      }
      var verdict := AntiCheat.ValidatePlayerData(player.value);
      if verdict.Fail? {
        return false;
      }
      // The patterns are computed and only logged.
      var patterns := AntiCheat.DetectCheatPatterns(player.value);
      var current := TakeSnapshot(player.value, now);
      if lastSnapshot.Some? {
        var warnings := CheckForSuspiciousChanges(current, lastSnapshot.value);
        if |warnings| > 0 {
          anomalyCount := anomalyCount + |warnings|;
          if anomalyCount >= AnomalyThreshold {
            anomalyCount := 0;
          }
        } else {
          anomalyCount := if anomalyCount - 1 > 0 then anomalyCount - 1 else 0;
        }
      }
      lastSnapshot := Some(current);
      lastCheckTime := now;
      return true;
    }

    /** One tick of startIntegrityMonitoring's interval: the check runs only when there is a
        player with a truthy name; otherwise nothing happens. */
    method Tick(player: Option<AntiCheat.PlayerData>, now: int)
      requires Valid()
      modifies this
      ensures Valid()
      ensures !(player.Some? && IsNamed(player.value)) ==>
        (lastSnapshot == old(lastSnapshot) && anomalyCount == old(anomalyCount) && lastCheckTime == old(lastCheckTime))
      ensures player.Some? && IsNamed(player.value) && AntiCheat.PlayerDataVerdict(player.value).Fail? ==>
        (lastSnapshot == old(lastSnapshot) && anomalyCount == old(anomalyCount) && lastCheckTime == old(lastCheckTime))
      ensures player.Some? && IsNamed(player.value) && AntiCheat.PlayerDataVerdict(player.value).Pass? ==>
        lastSnapshot == Some(TakeSnapshot(player.value, now)) && lastCheckTime == now
      ensures TickChecks(player) && old(lastSnapshot).None? ==> anomalyCount == old(anomalyCount)
      ensures TickChecks(player) && old(lastSnapshot).Some? ==>
        anomalyCount == NextAnomalyCount(old(anomalyCount),
          |CheckForSuspiciousChanges(TakeSnapshot(player.value, now), old(lastSnapshot).value)|)
    {
      if player.Some? && IsNamed(player.value) {
        var _ := PerformIntegrityCheck(player, now);
      }
    }
  }

  /** A tick whose integrity check runs and passes validation. */
  predicate TickChecks(player: Option<AntiCheat.PlayerData>) {
    player.Some? && IsNamed(player.value) && AntiCheat.PlayerDataVerdict(player.value).Pass?
  }

  /** `player.name` is truthy. */
  predicate IsNamed(p: AntiCheat.PlayerData) {
    "name" in p.untracked && AntiCheat.IsTruthy(p.untracked["name"])
  }

  // ---------------------------------------------------------------------------
  // validateAction

  /** The largest gold amount a goldChange action may produce. */
  const MaxGold: int := 999999

  /** The largest value a statIncrease action may produce. */
  const MaxStat: int := 150

  /** The action kinds validateAction knows, with their data; `Other` is any other kind. */
  datatype Action =
    | LevelUp(oldLevel: Option<int>, newLevel: Option<int>)
    | GoldChange(newGold: Option<int>)
    | StatIncrease(newValue: Option<int>)
    | HealthChange(newHealth: Option<int>)
    | Other

  datatype ActionError =
    | InvalidLevelIncrease
    | GoldExceedsMaximum
    | StatExceedsMaximum
    | HealthExceedsMaximum

  /** `x > bound` on a possibly-absent number. */
  predicate Above(x: Option<int>, bound: Option<int>) {
    x.Some? && bound.Some? && x.value > bound.value
  }

  /** validateAction; `maxHealth` is `gameState.player.maxHealth`. A level-up must raise the
      level by exactly one (an absent level never does); gold, stat and health changes are
      refused only above their ceiling; any other kind of action passes. */
  function ValidateAction(action: Action, maxHealth: Option<int>): (r: Outcome<ActionError>)
    ensures action.LevelUp? ==>
      (r.Pass? <==> action.oldLevel.Some? && action.newLevel == Some(action.oldLevel.value + 1))
    ensures action.GoldChange? ==> (r.Fail? <==> Above(action.newGold, Some(MaxGold)))
    ensures action.StatIncrease? ==> (r.Fail? <==> Above(action.newValue, Some(MaxStat)))
    ensures action.HealthChange? ==> (r.Fail? <==> Above(action.newHealth, maxHealth))
    ensures action.Other? ==> r.Pass?
    ensures r.Fail? ==> r.error == match action
      case LevelUp(_, _) => InvalidLevelIncrease
      case GoldChange(_) => GoldExceedsMaximum
      case StatIncrease(_) => StatExceedsMaximum
      case HealthChange(_) => HealthExceedsMaximum
      case Other => r.error
  {
    match action
    case LevelUp(oldLevel, newLevel) =>
      if oldLevel.Some? && newLevel == Some(oldLevel.value + 1) then Pass else Fail(InvalidLevelIncrease)
    case GoldChange(newGold) =>
      if Above(newGold, Some(MaxGold)) then Fail(GoldExceedsMaximum) else Pass
    case StatIncrease(newValue) =>
      if Above(newValue, Some(MaxStat)) then Fail(StatExceedsMaximum) else Pass
    case HealthChange(newHealth) =>
      if Above(newHealth, maxHealth) then Fail(HealthExceedsMaximum) else Pass
    case Other => Pass
  }

  /** Skipping a level is refused, as is staying at the same level. */
  lemma LevelSkipsRejected(level: int)
    ensures ValidateAction(LevelUp(Some(level), Some(level + 2)), None) == Fail(InvalidLevelIncrease)
    ensures ValidateAction(LevelUp(Some(level), Some(level)), None) == Fail(InvalidLevelIncrease)
    ensures ValidateAction(LevelUp(Some(level), Some(level + 1)), None) == Pass
  {
  }
}
