/**
 * The game-state engine of App.tsx: one record of game facts and the guarded
 * transitions that the player's intents and the animation-frame tick apply to it,
 * plus the state cell that holds the record between transitions.
 *
 * This revision of the engine keeps coins and height as JS numbers (here `real`),
 * grants one trophy per claim and charges a flat number of trophies per unlock.
 * App.tsx imports the flat unlock price and the auto-claim price as constants
 * that constants.ts does not define, so they are a `Config` parameter.
 */
module App {
  import opened Constants

  datatype Option<T> = None | Some(value: T)

  /** The two prices App.tsx imports as TROPHIES_FOR_NEXT_TOWER and AUTO_CLAIM_COST. */
  datatype Config = Config(trophiesForNextTower: nat, autoClaimCost: nat)

  /** The game record of App.tsx. */
  datatype GameState = GameState(
    height: real,
    coins: real,
    trophies: int,
    speedLevel: int,
    upgradeCost: int,
    shoeLevel: int,
    shoeUpgradeCost: int,
    isAtTop: bool,
    towerLevel: int,
    highestTowerUnlocked: int,
    autoClaimUnlocked: bool,
    autoNextTowerEnabled: bool)

  /** The state the game starts in. */
  function InitialState(): GameState {
    GameState(
      height := 0.0,
      coins := 0.0,
      trophies := 0,
      speedLevel := INITIAL_SPEED_LEVEL,
      upgradeCost := INITIAL_UPGRADE_COST,
      shoeLevel := INITIAL_SHOE_LEVEL,
      shoeUpgradeCost := INITIAL_SHOE_UPGRADE_COST,
      isAtTop := false,
      towerLevel := 1,
      highestTowerUnlocked := 1,
      autoClaimUnlocked := false,
      autoNextTowerEnabled := true)
  }

  /**
   * `getCurrentTowerHeight`: the entry at index min(level - 1, 16) of the height
   * table. Levels above 17 repeat the last tower; a level below 1 indexes the
   * array at a negative position, which yields `undefined` (None).
   */
  function CurrentTowerHeight(level: int): (h: Option<int>)
    ensures h.Some? <==> level >= 1
    ensures h.Some? ==> 1 <= h.value <= 1000000
    ensures 1 <= level <= |TOWER_HEIGHTS| ==> h == Some(TOWER_HEIGHTS[level - 1])
    ensures level >= |TOWER_HEIGHTS| ==> h == Some(TOWER_HEIGHTS[|TOWER_HEIGHTS| - 1])
  {
    TowerHeightsShape();
    var towerIndex := if level - 1 < |TOWER_HEIGHTS| - 1 then level - 1 else |TOWER_HEIGHTS| - 1;
    if towerIndex < 0 then None else Some(TOWER_HEIGHTS[towerIndex])
  }

  /**
   * What every reachable state satisfies: no negative balance, the current tower
   * is an unlocked one, the climb never passes the top and `isAtTop` says exactly
   * whether the climber stands on it, and the levels and costs never fall below
   * their starting values.
   */
  ghost predicate Inv(s: GameState) {
    && s.coins >= 0.0
    && s.trophies >= 0
    && 1 <= s.towerLevel <= s.highestTowerUnlocked <= |TOWER_HEIGHTS|
    && var target := CurrentTowerHeight(s.towerLevel).value as real;
    && 0.0 <= s.height <= target
    && (s.isAtTop <==> s.height == target)
    && s.speedLevel >= INITIAL_SPEED_LEVEL
    && s.shoeLevel >= INITIAL_SHOE_LEVEL
    && s.upgradeCost >= INITIAL_UPGRADE_COST
    && s.shoeUpgradeCost >= INITIAL_SHOE_UPGRADE_COST
  }

  lemma InitialStateValid()
    ensures Inv(InitialState())
  {
  }

  /** `Math.floor(cost * multiplier)`, with exact rational arithmetic. */
  function GrownCost(cost: int, multiplier: real): (r: int)
    requires multiplier >= 1.0
    ensures cost >= 0 ==> r >= cost
  {
    var product := (cost as real) * multiplier;
    assert cost >= 0 ==> product >= cost as real by {
      if cost >= 0 {
        assert product - cost as real == (cost as real) * (multiplier - 1.0);
      }
    }
    product.Floor
  }

  /** The speed purchase (handleUpgradeSpeed). */
  function UpgradeSpeed(s: GameState): GameState {
    if s.coins >= s.upgradeCost as real then
      s.(coins := s.coins - s.upgradeCost as real,
         speedLevel := s.speedLevel + 1,
         upgradeCost := GrownCost(s.upgradeCost, UPGRADE_COST_MULTIPLIER))
    else
      s
  }

  /** The shoe purchase (handleUpgradeShoes). */
  function UpgradeShoes(s: GameState): GameState {
    if s.coins >= s.shoeUpgradeCost as real then
      s.(coins := s.coins - s.shoeUpgradeCost as real,
         shoeLevel := s.shoeLevel + 1,
         shoeUpgradeCost := GrownCost(s.shoeUpgradeCost, SHOE_UPGRADE_COST_MULTIPLIER))
    else
      s
  }

  /** The one-off auto-claim purchase (handlePurchaseAutoClaim). */
  function PurchaseAutoClaim(config: Config, s: GameState): GameState {
    if s.coins >= config.autoClaimCost as real && !s.autoClaimUnlocked then
      s.(coins := s.coins - config.autoClaimCost as real, autoClaimUnlocked := true)
    else
      s
  }

  /** claimTrophyInternal: one more trophy and a fresh ascent of the same tower. */
  function ClaimTrophyInternal(s: GameState): GameState {
    s.(height := 0.0, trophies := s.trophies + 1, isAtTop := false)
  }

  /** The manual claim (handleClaimTrophy). */
  function ClaimTrophy(s: GameState): GameState {
    if s.isAtTop then ClaimTrophyInternal(s) else s
  }

  /** The unlock guard, shared by the unlock handler and the auto-next effect. */
  predicate CanUnlockNext(config: Config, s: GameState) {
    s.trophies >= config.trophiesForNextTower && s.highestTowerUnlocked < |TOWER_HEIGHTS|
  }

  /** The unlock (handleUnlockNextTower): pay, unlock the next tower and move onto it. */
  function UnlockNextTower(config: Config, s: GameState): GameState {
    if CanUnlockNext(config, s) then
      var newHighest := s.highestTowerUnlocked + 1;
      s.(trophies := s.trophies - config.trophiesForNextTower,
         highestTowerUnlocked := newHighest,
         towerLevel := newHighest,
         height := 0.0,
         isAtTop := false)
    else
      s
  }

  /** The tower switch (handleSelectTower); the code checks no lower bound on `level`. */
  function SelectTower(s: GameState, level: int): GameState {
    if level <= s.highestTowerUnlocked && level != s.towerLevel then
      s.(towerLevel := level, height := 0.0, isAtTop := false)
    else
      s
  }

  /** toggleAutoNextTower. */
  function ToggleAutoNextTower(s: GameState): GameState {
    s.(autoNextTowerEnabled := !s.autoNextTowerEnabled)
  }

  /** The auto-next effect, taken as an explicit step after a transition. */
  function AutoNextEffect(config: Config, s: GameState): GameState {
    if s.autoNextTowerEnabled && CanUnlockNext(config, s) then UnlockNextTower(config, s) else s
  }

  /** Metres per second: base speed times speed level times the shoe bonus. */
  function ClimbPerSecond(s: GameState): real {
    BASE_SPEED_PER_SECOND * (s.speedLevel as real) * (1.0 + (s.shoeLevel as real) * SHOE_BONUS_PER_LEVEL)
  }

  /** The state updater of one animation frame `deltaTime` seconds long. */
  function Tick(s: GameState, deltaTime: real): GameState {
    if s.isAtTop then s
    else
      var currentTowerHeight := CurrentTowerHeight(s.towerLevel);
      var distanceClimbed := ClimbPerSecond(s) * deltaTime;
      var coinsEarnedPerSecond := s.speedLevel as real;
      var newCoins := s.coins + coinsEarnedPerSecond * deltaTime;
      var newHeight := s.height + distanceClimbed;
      if currentTowerHeight.Some? && newHeight >= currentTowerHeight.value as real then
        if s.autoClaimUnlocked then
          ClaimTrophyInternal(s)
        else
          s.(height := currentTowerHeight.value as real, coins := newCoins, isAtTop := true)
      else
        s.(height := newHeight, coins := newCoins, isAtTop := false)
  }

  /** The climb speed is at least the base 1 m/s: speed level >= 1 and the shoe bonus >= 1. */
  lemma ClimbRateAtLeastBase(s: GameState)
    requires s.speedLevel >= 1 && s.shoeLevel >= 0
    ensures ClimbPerSecond(s) >= 1.0
  {
    var speed := s.speedLevel as real;
    var bonus := 1.0 + (s.shoeLevel as real) * SHOE_BONUS_PER_LEVEL;
    assert bonus >= 1.0;
    assert speed * bonus >= 1.0 by {
      NonNegativeProduct(speed - 1.0, bonus);
      assert speed * bonus == (speed - 1.0) * bonus + bonus;
    }
  }

  lemma NonNegativeProduct(a: real, b: real)
    requires a >= 0.0 && b >= 0.0
    ensures a * b >= 0.0
  {
  }

  /**
   * A frame of non-negative length keeps the invariant, never lifts the climber
   * past the top, never takes coins or trophies away and leaves the levels, costs,
   * towers and toggles as they were.
   */
  lemma TickPreservesInv(s: GameState, deltaTime: real)
    requires Inv(s) && deltaTime >= 0.0
    ensures var r := Tick(s, deltaTime);
      && Inv(r)
      && r.height <= CurrentTowerHeight(s.towerLevel).value as real
      && r.coins >= s.coins && r.trophies >= s.trophies
      && r.towerLevel == s.towerLevel && r.highestTowerUnlocked == s.highestTowerUnlocked
      && r.speedLevel == s.speedLevel && r.upgradeCost == s.upgradeCost
      && r.shoeLevel == s.shoeLevel && r.shoeUpgradeCost == s.shoeUpgradeCost
      && r.autoClaimUnlocked == s.autoClaimUnlocked && r.autoNextTowerEnabled == s.autoNextTowerEnabled
  {
    ClimbRateAtLeastBase(s);
    NonNegativeProduct(ClimbPerSecond(s), deltaTime);
    NonNegativeProduct(s.speedLevel as real, deltaTime);
  }

  /**
   * The outcomes of one frame: nothing moves while at the top; reaching the top
   * without auto-claim clamps the height to exactly the target and credits the
   * frame's coins; reaching it with auto-claim claims instead, so the frame's coins
   * are not credited; otherwise height and coins rise by speed times elapsed time.
   */
  lemma TickOutcomes(s: GameState, deltaTime: real)
    requires s.towerLevel >= 1
    ensures var r := Tick(s, deltaTime);
      var target := CurrentTowerHeight(s.towerLevel).value as real;
      var reached := s.height + ClimbPerSecond(s) * deltaTime >= target;
      var earned := (s.speedLevel as real) * deltaTime;
      && (s.isAtTop ==> r == s)
      && (!s.isAtTop && reached && !s.autoClaimUnlocked ==>
            r.height == target && r.isAtTop && r.coins == s.coins + earned)
      && (!s.isAtTop && reached && s.autoClaimUnlocked ==>
            r == ClaimTrophyInternal(s) && r.coins == s.coins && r.trophies == s.trophies + 1 && r.height == 0.0)
      && (!s.isAtTop && !reached ==>
            r.height == s.height + ClimbPerSecond(s) * deltaTime && !r.isAtTop && r.coins == s.coins + earned)
  {
    var target := CurrentTowerHeight(s.towerLevel).value as real;
    var newHeight := s.height + ClimbPerSecond(s) * deltaTime;
    var newCoins := s.coins + (s.speedLevel as real) * deltaTime;
    if !s.isAtTop {
      if newHeight >= target {
        if !s.autoClaimUnlocked {
          assert Tick(s, deltaTime) == s.(height := target, coins := newCoins, isAtTop := true);
        }
      } else {
        assert Tick(s, deltaTime) == s.(height := newHeight, coins := newCoins, isAtTop := false);
      }
    }
  }

  /** A frame that stays below the top raises height and coins by rate times time. */
  lemma TickBelowTop(s: GameState, deltaTime: real)
    requires s.towerLevel >= 1 && !s.isAtTop
    requires s.height + ClimbPerSecond(s) * deltaTime < CurrentTowerHeight(s.towerLevel).value as real
    ensures Tick(s, deltaTime) == s.(height := s.height + ClimbPerSecond(s) * deltaTime,
                                     coins := s.coins + (s.speedLevel as real) * deltaTime,
                                     isAtTop := false)
  {
  }

  /** Two frames' worth of growth at a fixed rate is one frame of the summed time. */
  lemma GrowthAdds(start: real, rate: real, t1: real, t2: real)
    ensures (start + rate * t1) + rate * t2 == start + rate * (t1 + t2)
  {
    assert rate * (t1 + t2) == rate * t1 + rate * t2;
  }

  /**
   * The first part of a split frame stays below the top, and the climb that is
   * left from there still does not reach it.
   */
  lemma FirstPartBelowTop(s: GameState, t1: real, t2: real)
    requires s.towerLevel >= 1 && s.speedLevel >= 1 && s.shoeLevel >= 0 && !s.isAtTop
    requires t1 >= 0.0 && t2 >= 0.0
    requires s.height + ClimbPerSecond(s) * (t1 + t2) < CurrentTowerHeight(s.towerLevel).value as real
    ensures var mid := Tick(s, t1);
      && mid == s.(height := s.height + ClimbPerSecond(s) * t1,
                   coins := s.coins + (s.speedLevel as real) * t1,
                   isAtTop := false)
      && mid.height + ClimbPerSecond(mid) * t2 < CurrentTowerHeight(mid.towerLevel).value as real
  {
    var rate := ClimbPerSecond(s);
    ClimbRateAtLeastBase(s);
    NonNegativeProduct(rate, t2);
    GrowthAdds(s.height, rate, t1, t2);
    TickBelowTop(s, t1);
  }

  /**
   * Below the top, frame time adds up: one frame of t1 + t2 seconds that does not
   * reach the top leaves the same record as a frame of t1 followed by one of t2.
   */
  lemma TickAdditive(s: GameState, t1: real, t2: real)
    requires s.towerLevel >= 1 && s.speedLevel >= 1 && s.shoeLevel >= 0 && !s.isAtTop
    requires t1 >= 0.0 && t2 >= 0.0
    requires s.height + ClimbPerSecond(s) * (t1 + t2) < CurrentTowerHeight(s.towerLevel).value as real
    ensures Tick(Tick(s, t1), t2) == Tick(s, t1 + t2)
  {
    FirstPartBelowTop(s, t1, t2);
    var mid := Tick(s, t1);
    TickBelowTop(mid, t2);
    TickBelowTop(s, t1 + t2);
    GrowthAdds(s.height, ClimbPerSecond(s), t1, t2);
    GrowthAdds(s.coins, s.speedLevel as real, t1, t2);
  }

  /**
   * With auto-claim, frame time does not add up across the top: from the start of
   * tower 1 (1 m at 1 m/s), one 2-second frame claims at once and credits no coins,
   * while frames of 0.5 s and 1.5 s credit the 0.5 coins of the first frame.
   */
  lemma AutoClaimDropsFrameCoins()
    ensures var s := InitialState().(autoClaimUnlocked := true);
      && Tick(s, 2.0).coins == 0.0
      && Tick(Tick(s, 0.5), 1.5).coins == 0.5
      && Tick(s, 2.0).trophies == Tick(Tick(s, 0.5), 1.5).trophies == 1
  {
    var s := InitialState().(autoClaimUnlocked := true);
    assert CurrentTowerHeight(1) == Some(1);
    assert ClimbPerSecond(s) == 1.0;
    var mid := Tick(s, 0.5);
    assert mid == s.(height := 0.5, coins := 0.5);
    assert ClimbPerSecond(mid) == 1.0;
  }

  /**
   * A speed purchase succeeds exactly when the coins cover the cost; it then takes
   * exactly the old cost, adds one speed level and raises the cost strictly
   * (to floor(cost * 1.15)); a refused purchase changes nothing.
   */
  lemma UpgradeSpeedSpec(s: GameState)
    requires Inv(s)
    ensures var r := UpgradeSpeed(s);
      && Inv(r)
      && (s.coins >= s.upgradeCost as real ==>
            && r.coins == s.coins - s.upgradeCost as real
            && r.speedLevel == s.speedLevel + 1
            && r.upgradeCost > s.upgradeCost
            && r.upgradeCost == GrownCost(s.upgradeCost, UPGRADE_COST_MULTIPLIER)
            && r == s.(coins := r.coins, speedLevel := r.speedLevel, upgradeCost := r.upgradeCost))
      && (s.coins < s.upgradeCost as real ==> r == s)
  {
  }

  /**
   * A shoe purchase succeeds exactly when the coins cover the cost; it then takes
   * exactly the old cost, adds one shoe level and raises the cost strictly (to
   * floor(cost * 1.8)); a refused purchase changes nothing.
   */
  lemma UpgradeShoesSpec(s: GameState)
    requires Inv(s)
    ensures var r := UpgradeShoes(s);
      && Inv(r)
      && (s.coins >= s.shoeUpgradeCost as real ==>
            && r.coins == s.coins - s.shoeUpgradeCost as real
            && r.shoeLevel == s.shoeLevel + 1
            && r.shoeUpgradeCost > s.shoeUpgradeCost
            && r.shoeUpgradeCost == GrownCost(s.shoeUpgradeCost, SHOE_UPGRADE_COST_MULTIPLIER)
            && r == s.(coins := r.coins, shoeLevel := r.shoeLevel, shoeUpgradeCost := r.shoeUpgradeCost))
      && (s.coins < s.shoeUpgradeCost as real ==> r == s)
  {
  }

  /**
   * Auto-claim is bought once: the purchase is refused when it is unaffordable or
   * already owned; a successful one debits the price once and sets the flag, and
   * repeating the purchase changes nothing.
   */
  lemma PurchaseAutoClaimSpec(config: Config, s: GameState)
    ensures var r := PurchaseAutoClaim(config, s);
      && (Inv(s) ==> Inv(r))
      && (r != s <==> s.coins >= config.autoClaimCost as real && !s.autoClaimUnlocked)
      && (r != s ==> r == s.(coins := s.coins - config.autoClaimCost as real, autoClaimUnlocked := true))
      && PurchaseAutoClaim(config, r) == r
  {
  }

  /**
   * The claim step shared by the claim handler and auto-claim, from any valid
   * state (at the top or mid-climb): exactly one trophy more, the ascent of the
   * same tower restarted at height 0 and off the top, everything else kept, and
   * the invariant kept.
   */
  lemma ClaimTrophyInternalSpec(s: GameState)
    ensures var r := ClaimTrophyInternal(s);
      && (Inv(s) ==> Inv(r))
      && r.trophies == s.trophies + 1 && r.height == 0.0 && !r.isAtTop
      && r.towerLevel == s.towerLevel && r.coins == s.coins
      && r == s.(trophies := r.trophies, height := 0.0, isAtTop := false)
      && (s.isAtTop ==> ClaimTrophy(s) == r)
  {
  }

  /**
   * A claim is refused unless the climber is at the top; a successful one adds one
   * trophy, restarts the ascent at height 0 and changes nothing else, and a second
   * claim straight after it does nothing.
   */
  lemma ClaimTrophySpec(s: GameState)
    ensures var r := ClaimTrophy(s);
      && (Inv(s) ==> Inv(r))
      && (!s.isAtTop ==> r == s)
      && (s.isAtTop ==> r.trophies == s.trophies + 1 && r.height == 0.0 && !r.isAtTop
                        && r == s.(trophies := r.trophies, height := 0.0, isAtTop := false))
      && ClaimTrophy(r) == r
  {
  }

  /**
   * An unlock is refused unless the trophies cover the price and a higher tower
   * exists; a successful one debits the price, unlocks the next tower, moves onto
   * it at height 0, and leaves everything else alone. The highest unlocked tower
   * never drops and never passes 17.
   */
  lemma UnlockNextTowerSpec(config: Config, s: GameState)
    requires Inv(s)
    ensures var r := UnlockNextTower(config, s);
      && Inv(r)
      && s.highestTowerUnlocked <= r.highestTowerUnlocked <= |TOWER_HEIGHTS|
      && (CanUnlockNext(config, s) ==>
            && r.trophies == s.trophies - config.trophiesForNextTower
            && r.highestTowerUnlocked == s.highestTowerUnlocked + 1
            && r.towerLevel == r.highestTowerUnlocked
            && r.height == 0.0 && !r.isAtTop
            && r == s.(trophies := r.trophies, highestTowerUnlocked := r.highestTowerUnlocked,
                       towerLevel := r.towerLevel, height := 0.0, isAtTop := false))
      && (!CanUnlockNext(config, s) ==> r == s)
  {
  }

  /** The auto-next effect fires under exactly the unlock's own guard, and only while the toggle is on. */
  lemma AutoNextEffectSpec(config: Config, s: GameState)
    ensures s.autoNextTowerEnabled ==> AutoNextEffect(config, s) == UnlockNextTower(config, s)
    ensures !s.autoNextTowerEnabled ==> AutoNextEffect(config, s) == s
  {
  }

  /**
   * A tower switch is refused for a locked tower or the current one; otherwise it
   * moves to that tower at height 0, off the top. From a tower of at least 1 (all
   * the selection list offers) it keeps the invariant.
   */
  lemma SelectTowerSpec(s: GameState, level: int)
    requires Inv(s) && level >= 1
    ensures var r := SelectTower(s, level);
      && Inv(r)
      && (level > s.highestTowerUnlocked || level == s.towerLevel ==> r == s)
      && (level <= s.highestTowerUnlocked && level != s.towerLevel ==>
            r == s.(towerLevel := level, height := 0.0, isAtTop := false))
  {
  }

  /** The code itself does not stop tower 0 being selected, which would break the invariant. */
  lemma SelectTowerZeroBreaksInv()
    ensures Inv(InitialState())
    ensures !Inv(SelectTower(InitialState(), 0))
  {
  }

  /** Toggling flips the auto-next flag, changes nothing else, and twice is the identity. */
  lemma ToggleAutoNextTowerSpec(s: GameState)
    ensures var r := ToggleAutoNextTower(s);
      && r.autoNextTowerEnabled != s.autoNextTowerEnabled
      && r.(autoNextTowerEnabled := s.autoNextTowerEnabled) == s
      && ToggleAutoNextTower(r) == s
      && (Inv(s) ==> Inv(r))
  {
  }

  /** Every intent the interface can send, plus the frame tick and the auto-next effect. */
  datatype Intent =
    | BuySpeed
    | BuyShoes
    | BuyAutoClaim
    | Claim
    | Unlock
    | Select(level: int)
    | ToggleAutoNext
    | Frame(deltaTime: real)
    | AutoNext

  /** What the caller guarantees: the selection list starts at tower 1, frame times do not run backwards. */
  predicate WellFormed(intent: Intent) {
    match intent
    case Select(level) => level >= 1
    case Frame(deltaTime) => deltaTime >= 0.0
    case _ => true
  }

  function Step(config: Config, s: GameState, intent: Intent): GameState {
    match intent
    case BuySpeed => UpgradeSpeed(s)
    case BuyShoes => UpgradeShoes(s)
    case BuyAutoClaim => PurchaseAutoClaim(config, s)
    case Claim => ClaimTrophy(s)
    case Unlock => UnlockNextTower(config, s)
    case Select(level) => SelectTower(s, level)
    case ToggleAutoNext => ToggleAutoNextTower(s)
    case Frame(deltaTime) => Tick(s, deltaTime)
    case AutoNext => AutoNextEffect(config, s)
  }

  /** The state after a sequence of intents, applied one at a time. */
  function Run(config: Config, s: GameState, intents: seq<Intent>): GameState
    decreases |intents|
  {
    if intents == [] then s else Run(config, Step(config, s, intents[0]), intents[1..])
  }

  /** One step keeps the invariant and never lowers the highest unlocked tower. */
  lemma StepPreservesInv(config: Config, s: GameState, intent: Intent)
    requires Inv(s) && WellFormed(intent)
    ensures Inv(Step(config, s, intent))
    ensures s.highestTowerUnlocked <= Step(config, s, intent).highestTowerUnlocked
  {
    match intent
    case BuySpeed => UpgradeSpeedSpec(s);
    case BuyShoes => UpgradeShoesSpec(s);
    case BuyAutoClaim => PurchaseAutoClaimSpec(config, s);
    case Claim => ClaimTrophySpec(s);
    case Unlock => UnlockNextTowerSpec(config, s);
    case Select(level) => SelectTowerSpec(s, level);
    case ToggleAutoNext => ToggleAutoNextTowerSpec(s);
    case Frame(deltaTime) => TickPreservesInv(s, deltaTime);
    case AutoNext => UnlockNextTowerSpec(config, s);
  }

  /**
   * After any sequence of intents from a valid state, coins and trophies are still
   * non-negative, 1 <= towerLevel <= highestTowerUnlocked <= 17, the climb is within
   * the tower, and the highest unlocked tower has not dropped.
   */
  lemma {:induction false} RunPreservesInv(config: Config, s: GameState, intents: seq<Intent>)
    requires Inv(s)
    requires forall k :: 0 <= k < |intents| ==> WellFormed(intents[k])
    ensures Inv(Run(config, s, intents))
    ensures s.highestTowerUnlocked <= Run(config, s, intents).highestTowerUnlocked
    decreases |intents|
  {
    if intents != [] {
      var next := Step(config, s, intents[0]);
      StepPreservesInv(config, s, intents[0]);
      RunPreservesInv(config, next, intents[1..]);
    }
  }

  /**
   * The React state cell holding the game record: every handler replaces the
   * record with the result of one transition.
   */
  class GameStore {
    const config: Config
    var state: GameState

    ghost predicate Valid()
      reads this
    {
      Inv(state)
    }

    constructor (config: Config)
      ensures Valid() && this.config == config && state == InitialState()
    {
      this.config := config;
      state := InitialState();
    }

    method HandleUpgradeSpeed()
      requires Valid()
      modifies this
      ensures Valid() && state == UpgradeSpeed(old(state))
    {
      UpgradeSpeedSpec(state);
      state := UpgradeSpeed(state);
    }

    method HandleUpgradeShoes()
      requires Valid()
      modifies this
      ensures Valid() && state == UpgradeShoes(old(state))
    {
      UpgradeShoesSpec(state);
      state := UpgradeShoes(state);
    }

    method HandlePurchaseAutoClaim()
      requires Valid()
      modifies this
      ensures Valid() && state == PurchaseAutoClaim(config, old(state))
    {
      PurchaseAutoClaimSpec(config, state);
      state := PurchaseAutoClaim(config, state);
    }

    method HandleClaimTrophy()
      requires Valid()
      modifies this
      ensures Valid() && state == ClaimTrophy(old(state))
    {
      ClaimTrophySpec(state);
      state := ClaimTrophy(state);
    }

    method HandleUnlockNextTower()
      requires Valid()
      modifies this
      ensures Valid() && state == UnlockNextTower(config, old(state))
      ensures old(state.highestTowerUnlocked) <= state.highestTowerUnlocked
    {
      UnlockNextTowerSpec(config, state);
      state := UnlockNextTower(config, state);
    }

    /** `level` comes from the selection list, which offers towers 1 to highestTowerUnlocked. */
    method HandleSelectTower(level: int)
      requires Valid() && level >= 1
      modifies this
      ensures Valid() && state == SelectTower(old(state), level)
    {
      SelectTowerSpec(state, level);
      state := SelectTower(state, level);
    }

    method HandleToggleAutoNextTower()
      requires Valid()
      modifies this
      ensures Valid() && state == ToggleAutoNextTower(old(state))
    {
      ToggleAutoNextTowerSpec(state);
      state := ToggleAutoNextTower(state);
    }

    /** The state update of one animation frame; frame timestamps never run backwards. */
    method HandleFrame(deltaTime: real)
      requires Valid() && deltaTime >= 0.0
      modifies this
      ensures Valid() && state == Tick(old(state), deltaTime)
    {
      TickPreservesInv(state, deltaTime);
      state := Tick(state, deltaTime);
    }

    /** The auto-next effect, run after a change of trophies or of the auto-next toggle. */
    method RunAutoNextEffect()
      requires Valid()
      modifies this
      ensures Valid() && state == AutoNextEffect(config, old(state))
    {
      UnlockNextTowerSpec(config, state);
      state := AutoNextEffect(config, state);
    }
  }
}
