/**
 * The game's fixed tables and curves: the tower height table, the exponential
 * trophy cost and reward curves (exact BigInt arithmetic), and the starting
 * levels, starting costs and cost multipliers of the upgrades.
 */
module Constants {
  import opened BigNum

  /** Target height, in metres, of towers 1 to 17. */
  const TOWER_HEIGHTS: seq<int> :=
    [1, 5, 10, 50, 100, 250, 500, 1000, 2500, 5000, 10000, 25000, 50000, 100000, 250000, 500000, 1000000]

  /** The table has 17 entries, rises strictly, and runs from 1 m to 1,000,000 m. */
  lemma TowerHeightsShape()
    ensures |TOWER_HEIGHTS| == 17
    ensures TOWER_HEIGHTS[0] == 1 && TOWER_HEIGHTS[|TOWER_HEIGHTS| - 1] == 1000000
    ensures forall i, j :: 0 <= i < j < |TOWER_HEIGHTS| ==> TOWER_HEIGHTS[i] < TOWER_HEIGHTS[j]
    ensures forall i :: 0 <= i < |TOWER_HEIGHTS| ==> 1 <= TOWER_HEIGHTS[i] <= 1000000
  {
  }

  /**
   * Trophies needed to unlock the next tower when the highest unlocked tower is
   * `highestTowerUnlocked`: 5 * 10^highestTowerUnlocked. A negative exponent makes
   * BigInt `**` throw, hence the precondition.
   */
  function TrophyCostForTower(highestTowerUnlocked: int): (cost: int)
    requires highestTowerUnlocked >= 0
    ensures cost >= 5 && cost % 5 == 0
  {
    5 * Pow(10, highestTowerUnlocked)
  }

  /**
   * Trophies granted for one ascent of tower `towerLevel`: 5 * 10^(towerLevel - 1).
   * Tower 0 or below would make BigInt `**` throw, hence the precondition.
   */
  function TrophyRewardForTower(towerLevel: int): (reward: int)
    requires towerLevel >= 1
    ensures reward >= 5 && reward % 5 == 0
  {
    5 * Pow(10, towerLevel - 1)
  }

  /** The curves at their first two points: 50 and 500 to unlock, 5 and 50 per claim. */
  lemma CurveExamples()
    ensures TrophyCostForTower(1) == 50 && TrophyCostForTower(2) == 500
    ensures TrophyRewardForTower(1) == 5 && TrophyRewardForTower(2) == 50
  {
  }

  /**
   * Unlocking the tower after tower t costs exactly ten claims of tower t's reward,
   * whatever t is: the number of ascents per unlock stays constant.
   */
  lemma CostIsTenRewards(t: int)
    requires t >= 1
    ensures TrophyCostForTower(t) == 10 * TrophyRewardForTower(t)
  {
    assert Pow(10, t) == 10 * Pow(10, t - 1);
  }

  /** Each unlock costs ten times the previous one. */
  lemma CostGrowsTenfold(h: int)
    requires h >= 0
    ensures TrophyCostForTower(h + 1) == 10 * TrophyCostForTower(h)
  {
    assert Pow(10, h + 1) == 10 * Pow(10, h);
  }

  /** Unlock costs rise strictly with the highest unlocked tower. */
  lemma {:induction false} CostStrictlyIncreasing(h1: int, h2: int)
    requires 0 <= h1 < h2
    ensures TrophyCostForTower(h1) < TrophyCostForTower(h2)
  {
    PowStrictlyIncreasing(10, h1, h2);
  }

  /** Longest offline absence that is credited: eight hours. */
  const MAX_OFFLINE_SECONDS: int := 8 * 60 * 60

  const INITIAL_SPEED_LEVEL: int := 1
  const INITIAL_UPGRADE_COST: int := 10
  const UPGRADE_COST_MULTIPLIER: real := 1.15
  /** Metres per second at speed level 1 without shoes. */
  const BASE_SPEED_PER_SECOND: real := 1.0

  const INITIAL_SHOE_LEVEL: int := 0
  const INITIAL_SHOE_UPGRADE_COST: int := 100
  const SHOE_UPGRADE_COST_MULTIPLIER: real := 1.8
  /** Each shoe level adds 10% to the climb speed. */
  const SHOE_BONUS_PER_LEVEL: real := 0.1

  const INITIAL_CLICKER_LEVEL: int := 1
  const INITIAL_CLICKER_UPGRADE_COST: int := 25
  const CLICKER_UPGRADE_COST_MULTIPLIER: real := 1.2

  /** Every cost multiplier exceeds 1 and every starting cost is positive. */
  lemma UpgradeConstantsSane()
    ensures UPGRADE_COST_MULTIPLIER > 1.0 && SHOE_UPGRADE_COST_MULTIPLIER > 1.0
    ensures CLICKER_UPGRADE_COST_MULTIPLIER > 1.0
    ensures INITIAL_UPGRADE_COST > 0 && INITIAL_SHOE_UPGRADE_COST > 0 && INITIAL_CLICKER_UPGRADE_COST > 0
    ensures BASE_SPEED_PER_SECOND > 0.0 && SHOE_BONUS_PER_LEVEL >= 0.0
  {
  }
}
