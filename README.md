# Tower climber: verified model of the progression engine

A Dafny model of the core of an idle "tower climber" game. The player climbs a tower
at a speed set by their speed and shoe levels. Climbing earns coins, which buy upgrades.
Standing at the top earns a trophy when claimed. Trophies unlock higher towers.

The model has five modules:

- `App` (app.dfy) is the game-state engine of App.tsx. `GameState` is the record the
  engine keeps. Each player intent and each animation-frame tick is a pure
  prev → next function: `UpgradeSpeed`, `UpgradeShoes`, `PurchaseAutoClaim`,
  `ClaimTrophy`, `UnlockNextTower`, `SelectTower`, `ToggleAutoNextTower`, `Tick` and
  `AutoNextEffect`. `Inv` is the invariant every reachable state keeps. `GameStore` is
  the state cell: a class whose handlers replace its record with the result of one
  transition. `Run` applies any sequence of intents, and `RunPreservesInv` proves that
  the invariant survives every sequence of well-formed ones: selections of tower 1 or
  higher, which is all the selection list offers, and frames of non-negative length.
- `Constants` (constants.dfy) holds the tower height table, the exponential trophy
  cost and reward curves, and the upgrade constants.
- `FormatNumber` (format_number.dfy) models `formatNumber`. It is a method with the
  tier loop. It is proved equal to the pure function `Formatted`, and the
  lemmas state the bounds and the shape of its output.
- `Json` (json.dfy) models the BigInt replacer and reviver of utils/json.ts.
- `BigNum` (bignum.dfy) holds the shared helpers: BigInt `**`, `toString()` in base 10,
  and `BigInt(string)` parsing.

Choices made where the code leaves room:

- Coins and height are JS numbers in this revision of App.tsx, so they are `real`.
  The starting costs are BigInt literals in constants.ts (`10n` and `100n`), which
  App.tsx subtracts from and multiplies with numbers. The model treats the costs as
  integer-valued numbers instead, so they are `int`, and `Math.floor` keeps them
  integers.
- App.tsx imports a flat unlock price `TROPHIES_FOR_NEXT_TOWER` and an auto-claim price
  `AUTO_CLAIM_COST`. constants.ts does not define either one. The engine takes both as
  a `Config` parameter.
- The engine uses this flat scheme throughout: a claim grants one trophy and an unlock
  costs the flat price. The exponential curves `TrophyCostForTower` and
  `TrophyRewardForTower` are modelled and proved in `Constants`, but the engine does
  not use them. The two schemes are never mixed.
- What the code does at the points where a reader might expect otherwise:
  - Upgrade costs grow by `Math.floor(cost * multiplier)`. For example, 10 becomes 11.
  - Coins accrue at `speedLevel` per second of frame time, whatever the climb rate.
  - A claim grants exactly one trophy.
  - A tick at the top does nothing. With auto-claim, reaching the top claims at once
    and the coins of that frame are not credited.
  - Tower selection has no lower-bound check.

## Model

| member | source | states |
|---|---|---|
| `BigNum.Pow` | constants.ts:8 | BigInt `**` with a non-negative exponent; at least 1 for a positive base, at least the base once the exponent is positive |
| `BigNum.PowStrictlyIncreasing` | constants.ts:8 | for a base of at least 2, a larger exponent gives a strictly larger power |
| `BigNum.NatDigits` | utils/json.ts:5 | `toString()` digits of a natural number: non-empty, all ASCII digits, leading `0` only for zero |
| `BigNum.ParseNatDigits` | utils/json.ts:14 | reading the digits of n back with `BigInt(...)` gives n |
| `BigNum.ParseDecimalString` | utils/json.ts:14 | for every integer, negatives included, `toString()` matches `-?\d+` and `BigInt` of it is the integer again |
| `Constants.TowerHeightsShape` | constants.ts:1-3 | the table has 17 entries, rises strictly, starts at 1 and ends at 1,000,000 |
| `Constants.TrophyCostForTower` | constants.ts:5-9 | unlock cost 5·10^h for h ≥ 0 (a negative exponent throws); a positive multiple of 5 |
| `Constants.TrophyRewardForTower` | constants.ts:11-16 | claim reward 5·10^(t−1) for t ≥ 1; a positive multiple of 5 |
| `Constants.CurveExamples` | constants.ts:6-13 | cost(1) = 50, cost(2) = 500, reward(1) = 5, reward(2) = 50 |
| `Constants.CostIsTenRewards` | constants.ts:14-15 | the next unlock from tower t costs exactly ten claims of tower t, for every t |
| `Constants.CostGrowsTenfold` | constants.ts:8 | each unlock costs ten times the previous one |
| `Constants.CostStrictlyIncreasing` | constants.ts:8 | unlock costs rise strictly with the highest unlocked tower |
| `Constants.UpgradeConstantsSane` | constants.ts:19-33 | all cost multipliers exceed 1, all starting costs are positive, base speed is positive |
| `FormatNumber.ToBigInt` | utils/formatNumber.ts:5 | a number argument is floored (value ≤ x < value + 1); a BigInt passes unchanged |
| `FormatNumber.PadStart` | utils/formatNumber.ts:27 | `padStart`: the result has the target width (or the input's length), ends with the input, and every character in front of it is the fill character |
| `FormatNumber.FormatNumber` | utils/formatNumber.ts:4-32 | the tier loop followed by the assembly returns `Formatted` of the floored value |
| `FormatNumber.Log1000Bounds` | utils/formatNumber.ts:14-17 | the loop's uncapped tier t satisfies 1000^t ≤ v < 1000^(t+1) |
| `FormatNumber.TierBounds` | utils/formatNumber.ts:11-17 | from 1000 upward the loop ends with 1 ≤ tier ≤ 11, 1000^tier ≤ value, and tier = 11 or value < 1000^(tier+1) |
| `FormatNumber.ThousandPower` | utils/formatNumber.ts:19 | the divisor 10^(3·tier) equals 1000^tier |
| `FormatNumber.MainPartRange` | utils/formatNumber.ts:19-20 | the mantissa is at least 1, and at most 999 unless the tier is capped at 11 |
| `FormatNumber.Hundredths` | utils/formatNumber.ts:23-25 | the decimal part is the truncated hundredths of the remainder: below 100, d·divisor ≤ 100·rem < (d+1)·divisor, non-zero only for a non-zero remainder |
| `FormatNumber.PadTwoDigits` | utils/formatNumber.ts:27 | a decimal part from 1 to 99 prints as exactly its two digits, zero-padded |
| `FormatNumber.RenderShape` | utils/formatNumber.ts:24-31 | the text is mantissa, then "." and two digits exactly when the hundredths are non-zero, then the tier's suffix |
| `FormatNumber.FormattedShape` | utils/formatNumber.ts:19-31 | for values of 1000 or more: truncated hundredths below 100, and output = mantissa digits + optional ".dd" + `SI_SYMBOLS[tier]` |
| `FormatNumber.SmallValuesPlain` | utils/formatNumber.ts:7-9 | any value below 1000, negatives included, prints as a plain integer that reads back as the value |
| `FormatNumber.FormattedExamplesWhole` | utils/formatNumber.ts:7-31 | 999 gives "999", −5000 gives "-5000", 1005 gives "1K" |
| `FormatNumber.FormattedExample1500` | utils/formatNumber.ts:22-27 | 1500 gives "1.50K" |
| `FormatNumber.FormattedExample1999` | utils/formatNumber.ts:25 | 1999 gives "1.99K": the hundredths are truncated, not rounded |
| `Json.EncodeBig` | utils/json.ts:4-6 | a BigInt is written as its decimal string followed by `n` |
| `Json.EncodeDecode` | utils/json.ts:12-15 | every encoded integer, negatives included, matches `^-?\d+n$` and decodes to itself |
| `Json.RoundTrip` | utils/json.ts:3-16 | replacer then reviver gives the value back exactly when it is not a string that already matches the pattern |
| `Json.ReviveLeavesOthers` | utils/json.ts:13-16 | non-matching strings and non-string values pass the reviver unchanged |
| `Json.ReplaceLeavesNonBig` | utils/json.ts:4-7 | the replacer changes a value iff it is a BigInt: every other value, tagged-looking strings included, is returned as it is, and a BigInt becomes a string matching `^-?\d+n$` |
| `Json.TaggedLookingStringBecomesBig` | utils/json.ts:13-14 | the genuine string "42n" comes back as the BigInt 42, so such strings do not round-trip |
| `App.CurrentTowerHeight` | App.tsx:48-51 | a height exists exactly for levels ≥ 1; it is a table entry in 1..1,000,000; levels past 17 repeat the last tower |
| `App.InitialStateValid` | App.tsx:25-40 | the starting record satisfies the invariant |
| `App.GrownCost` | App.tsx:124 | `Math.floor(cost * multiplier)` with multiplier ≥ 1 is never below a non-negative cost |
| `App.ClimbRateAtLeastBase` | App.tsx:88-89 | the climb speed is at least 1 m/s for every reachable level pair |
| `App.TickPreservesInv` | App.tsx:84-107 | a frame of non-negative length keeps the invariant, never passes the top, never lowers coins or trophies, and leaves levels, costs, towers and toggles alone |
| `App.TickAdditive` | App.tsx:84-107 | below the top, a frame of t1 + t2 seconds leaves the same record as a frame of t1 then one of t2 |
| `App.AutoClaimDropsFrameCoins` | App.tsx:93-99 | with auto-claim, one 2 s frame up the 1 m tower credits no coins while 0.5 s then 1.5 s credits 0.5, both claiming one trophy |
| `App.TickOutcomes` | App.tsx:84-107 | no-op at the top; reaching the top clamps to exactly the target and sets `isAtTop`, or with auto-claim claims and drops that frame's coins; otherwise height and coins rise by rate × time |
| `App.UpgradeSpeedSpec` | App.tsx:117-129 | succeeds iff coins ≥ cost; takes exactly the old cost, adds a level, raises the cost strictly to floor(1.15·cost), changes nothing else; refusal changes nothing |
| `App.UpgradeShoesSpec` | App.tsx:131-143 | the same for shoes with multiplier 1.8 |
| `App.PurchaseAutoClaimSpec` | App.tsx:145-152 | changes the state iff affordable and not yet owned; debits once and sets the flag; a repeat purchase changes nothing; keeps the invariant |
| `App.ClaimTrophyInternalSpec` | App.tsx:53-61 | from any state: one more trophy, height 0, off the top, every other field kept, invariant kept; it is what a claim at the top does |
| `App.ClaimTrophySpec` | App.tsx:154-156 | no-op unless at the top; else +1 trophy, height 0, off the top, nothing else; a second claim does nothing; keeps the invariant |
| `App.UnlockNextTowerSpec` | App.tsx:158-173 | no-op unless trophies ≥ price and a higher tower exists; else debits the price, unlocks and moves to the next tower at height 0; the highest tower never drops nor passes 17 |
| `App.AutoNextEffectSpec` | App.tsx:64-71 | with the toggle on, the effect is exactly the unlock (same guard); with it off, nothing happens |
| `App.SelectTowerSpec` | App.tsx:175-183 | no-op for a locked or the current tower; otherwise moves there at height 0 off the top; keeps the invariant for levels ≥ 1 |
| `App.SelectTowerZeroBreaksInv` | App.tsx:177 | the code's guard lets tower 0 through, which breaks `1 ≤ towerLevel` |
| `App.ToggleAutoNextTowerSpec` | App.tsx:185-187 | flips only the auto-next flag; toggling twice is the identity |
| `App.StepPreservesInv` | App.tsx:84-187 | every well-formed intent (a selection of tower ≥ 1, a frame of non-negative length, any other intent) keeps the invariant and never lowers the highest unlocked tower |
| `App.RunPreservesInv` | App.tsx:84-187 | after any sequence of well-formed intents (selections of tower ≥ 1, frames of non-negative length): coins and trophies ≥ 0, 1 ≤ towerLevel ≤ highestTowerUnlocked ≤ 17, height within the tower, `isAtTop` iff at the target, highest tower not lowered |
| `App.GameStore.constructor` | App.tsx:25-40 | the cell starts with the initial record, which is valid |
| `App.GameStore.HandleUpgradeSpeed` | App.tsx:117-129 | replaces the record by `UpgradeSpeed` of it and stays valid |
| `App.GameStore.HandleUpgradeShoes` | App.tsx:131-143 | replaces the record by `UpgradeShoes` of it and stays valid |
| `App.GameStore.HandlePurchaseAutoClaim` | App.tsx:145-152 | replaces the record by `PurchaseAutoClaim` of it and stays valid |
| `App.GameStore.HandleClaimTrophy` | App.tsx:154-156 | replaces the record by `ClaimTrophy` of it and stays valid |
| `App.GameStore.HandleUnlockNextTower` | App.tsx:158-173 | replaces the record by `UnlockNextTower` of it, stays valid, the highest tower does not drop |
| `App.GameStore.HandleSelectTower` | App.tsx:175-183 | replaces the record by `SelectTower` of it and stays valid |
| `App.GameStore.HandleToggleAutoNextTower` | App.tsx:185-187 | replaces the record by `ToggleAutoNextTower` of it and stays valid |
| `App.GameStore.HandleFrame` | App.tsx:84-107 | replaces the record by `Tick` of it and stays valid |
| `App.GameStore.RunAutoNextEffect` | App.tsx:64-71 | replaces the record by `AutoNextEffect` of it and stays valid |

## Left out

- Rendering is left out: the panels, modals, floating items and icons. The panels' enable checks only mirror the guards modelled here.
- The `requestAnimationFrame` loop, its `lastUpdateTime` and `gameLoopRef` refs, and the first frame that only records a timestamp are left out. The model starts at the state update that receives `deltaTime`.
- IEEE floating point is not modelled. Height, coins, the 0.1 shoe bonus and the cost products are exact rationals here. A float product such as cost × 1.15 can fall just below an integer and floor one lower than the exact product.
- JS numbers are not modelled as such. NaN, infinities and fractional levels do not occur in the model. A non-finite `formatNumber` argument makes `BigInt` throw, which is not modelled either.
- The React scheduling of the auto-next effect is left out. The effect re-runs only when `trophies` or the toggle changes. The model offers `AutoNextEffect` as a step that may be taken after any transition.
- The clicker upgrade is not modelled beyond its constants, because this revision of App.tsx has no clicker fields or handler.
- Offline catch-up is not modelled. No catch-up logic exists in the code, only the `MAX_OFFLINE_SECONDS` constant and a display modal.
- Floating-item timers and their random bonuses are left out: they are timers and randomness.
- Saving and loading are left out: `JSON.stringify`, `JSON.parse`, their walk over arrays and objects, and the storage medium. `Json.Value` covers only the leaf values the replacer and reviver are handed.
- App.GameStore.HandleSelectTower: requires `level >= 1`, a check the handler itself lacks, because the selection list offers only towers 1 to highestTowerUnlocked. `App.SelectTowerZeroBreaksInv` shows what level 0 would do.
- App.GameStore.HandleFrame: requires `deltaTime >= 0.0`, because frame timestamps do not run backwards. `App.TickPreservesInv` carries the same premise.
- App.SelectTowerSpec: states invariant preservation only for `level >= 1`, for the same reason.
- App.UpgradeSpeed, App.UpgradeShoes: the costs are modelled as integer-valued numbers. In constants.ts they start as BigInts (`10n`, `100n`) while coins are numbers. So `coins - upgradeCost` and `upgradeCost * 1.15` mix BigInt and number, and JS would throw a TypeError on every affordable purchase. Only the `>=` comparison is legal across the two types. The model does what the mixed arithmetic evidently intends.
