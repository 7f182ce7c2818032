# Three puzzle solvers, modelled in Dafny

This project models three small puzzle solvers and proves what they compute.

- **Dice** (`q3.py`). A die is a deterministic pseudo-random generator
  (`DieState`) over a list of faces (`DieRoll`). It is used in three games:
  - rolling every die once per round until the points reach a target (`solve1`);
  - a race along a shared track, where a die moves on only when it rolls the
    next track symbol (`solve2`);
  - a flood over a grid of numbers (`visit`, `solve3`). One roll is drawn per
    depth of the flood and shared by every cell at that depth.
- **Nails** (`q1.py`). A token dropped into a slot falls down a grid of nails.
  At every nail it goes left or right following an instruction string, and it
  pays according to where it lands (`roll`). Three answers are computed from it:
  - the sum over the instructions, each dropped from its own slot (`solve1`);
  - the sum of each instruction's best slot (`solve2`);
  - the best and the worst total over all assignments of distinct slots to the
    instructions (`solve3`), found by a dynamic program over sets of used slots.
- **Balloons** (`q2.py`). Arrows whose colours cycle red, green, blue shoot at
  a row of coloured balloons:
  - an arrow keeps bursting while the balloon it burst had its colour (`solve1`);
  - the row is repeated `reps` times and joined into a circle. An arrow bursts
    the front balloon, and also the balloon opposite it when the count is even
    and the front has the arrow's colour (`solve2`);
  - the same count is computed with the circle kept as two queues (`solve3`).

The model follows the code's own shape:

- Classes with mutable fields: `DieState` and `DieRoll`.
- Loops become `while`/`for` methods proved against specification functions:
  - dice: `Solve1`, `RunRace`, `Visit`;
  - nails: `Roll`, `FillPayouts`, `Relax`, `Optimize`;
  - balloons: `ParseInput`, `Solve1`, `Solve2`, `Deal`, `Solve3`.
- Python exceptions become `Result` values: `IndexError`, `ValueError` and
  `AssertionError` in `Results.Error`.

Modules:

- `Results`: `Result`/`Option`.
- `Dice`: generator and dice.
- `DiceGames`: points game and race.
- `DiceFlood`: flood fill.
- `Nails`: walk, `solve1`, `solve2`.
- `NailAssign`: payout matrix and assignment DP.
- `Balloons`: parsing, `solve1`, `solve2`.
- `BalloonDeque`: `solve3`.

Points of behaviour worth knowing:

- `q3.py` `visit`: the order-independent specification is `DiceFlood.Reached`,
  the cells hit at some depth.
  - A cell *stacked* at depth `k + 1` is a grid neighbour (or the cell itself)
    of a cell *hit* at depth `k`.
  - A cell is hit at depth `k` when it is stacked there and holds the die's
    `k`-th roll.
  - The duplicate check keys an item by its cell and the fingerprint of the
    roll its *parent* used. So depths 0 and 1 share a key: a seed cell is never
    stacked again at depth 1. The model keeps this (`KeyFpDistinct`,
    `CandidateStacked`).
- `q1.py` `compute_max_payout`: it tries slots `1 .. width // 2 + 1`. For an
  even grid width the last of these starts outside the grid, so the call
  raises (`Nails.EvenWidthRaises`). `solve3` uses `(width + 1) // 2` slots and
  does not hit this.
- `q1.py` `solve3`: with more instructions than slots there is no injective
  assignment, so `max()` of the empty table raises `ValueError`
  (`NailAssign.TableEmpty`).
- `q2.py` `solve3`: its second rebalancing branch (`R.appendleft(L.pop())`) can
  never run. The halves stay balanced after every shot, and
  `BalloonDeque.Fire` proves the branch dead with `assert false`.

## Model

| member | source | states |
|---|---|---|
| Dice.Initial | q3.py:44-47 | definition, no contract of its own: pulse = seed, face 0, roll number 1; `Dice.DieRoll.constructor` proves a fresh die holds it |
| Dice.Step | q3.py:33-41 | one generator transition keeps the face in `[0, num_faces)`, adds one to the roll number and bounds the new pulse by `roll_number + seed + 1 .. roll_number + 2·seed` |
| Dice.IterateRollNumber | q3.py:37-38 | after `k` transitions the roll number has grown by exactly `k` |
| Dice.Iterate | q3.py:33-41 | definition, no contract of its own: `k` generator transitions in a row; its roll number is characterised by `IterateRollNumber`, its face by `FaceInRange` |
| Dice.After | q3.py:52-54 | definition, no contract of its own: the state of a die after `k` rolls; `FingerprintsDistinct` proves different roll counts give different states |
| Dice.FingerprintsDistinct | q3.py:26-38 | fingerprints `h()` after different numbers of rolls are different |
| Dice.FaceInRange | q3.py:39-40 | the face index stays in range after any number of rolls |
| Dice.RollValue | q3.py:52-54 | every roll value is one of the die's faces |
| Dice.Rolls | q3.py:52-54 | the first `k` roll values, each a face of the die |
| Dice.RollsPrefix | q3.py:52-54 | rolling further never changes earlier roll values |
| Dice.DieState.H | q3.py:26-27 | definition, no contract of its own: `h()`, the triple (pulse, face, roll number); `Dice.DieState.Next` states each transition in terms of it |
| Dice.DieState.constructor | q3.py:20-24 | a state built from a pulse has face 0 and roll number 1 |
| Dice.DieState.Next | q3.py:33-41 | the fields become the generator transition of the old fingerprint; the result is the new face, in `[0, num_faces)` |
| Dice.DieRoll.constructor | q3.py:45-47 | the die owns a fresh state at the initial fingerprint |
| Dice.DieRoll.Roll | q3.py:52-54 | advances the owned state by one transition and returns the face at the new index |
| Dice.DieRoll.H | q3.py:49-50 | definition, no contract of its own: `h()` of the die, its state's fingerprint; `Dice.DieRoll.Roll` and `Dice.DieRoll.constructor` state it |
| DiceGames.PointsMonotone | q3.py:85-89 | with non-negative faces the running total never decreases from round to round |
| DiceGames.RoundPointsNonNegative | q3.py:87-89 | a round of non-negative faces adds a non-negative amount |
| DiceGames.FaceSumRound | q3.py:87-89 | the faces shown after a round sum to that round's points |
| DiceGames.RollRound | q3.py:87-89 | one round rolls each die once and adds the faces shown |
| DiceGames.PlayRound | q3.py:85-89 | round `r` moves every die to its `r`-th fingerprint and the total to the points of `r` rounds |
| DiceGames.Solve1 | q3.py:82-90 | the result is the least number of full rounds whose total reaches `min_points` (0 when `min_points <= 0`); each die has rolled that many times |
| DiceGames.Position | q3.py:105-112 | a die's track position never exceeds the track length |
| DiceGames.PositionMonotone | q3.py:105-112 | positions never decrease, and the end of the track once reached is kept |
| DiceGames.FinishTime | q3.py:105-112 | the first roll count at which the die stands at the end of the track |
| DiceGames.FinishersExact | q3.py:102-109 | the dice recorded in one turn are exactly those finishing then, in ascending index order |
| DiceGames.RaceOrderBounds | q3.py:100-113 | every recorded die is a valid 1-based index that finished within the turns played |
| DiceGames.RaceOrderComplete | q3.py:100-113 | every die that finished within the turns played is recorded |
| DiceGames.RaceOrderSorted | q3.py:100-113 | the order is by finish turn, ties in index order |
| DiceGames.RaceOrderStable | q3.py:100-113 | turns after every die has finished add nothing |
| DiceGames.RaceOrderPermutation | q3.py:100-113 | once all dice finish, the order lists each die `1..n` exactly once |
| DiceGames.SubsetOfRange | q3.py:100 | the set of finished dice reaches the dice count exactly when every index is in it |
| DiceGames.DieTurn | q3.py:103-112 | in one turn a die either is done already, is recorded as done, or rolls once and advances on a matching face |
| DiceGames.TakeTurn | q3.py:103-112 | one die's turn updates its position, the done set and the finishers as the race specification says |
| DiceGames.RaceTurn | q3.py:101-112 | one turn over all dice gives the next positions and records this turn's finishers |
| DiceGames.PlayTurn | q3.py:100-112 | one turn keeps the race state in step with the specification |
| DiceGames.RunRace | q3.py:100-113 | the order is the specified race order; each die has rolled exactly until it finished |
| DiceGames.Solve2 | q3.py:93-113 | `solve2` returns the race order of the dice's finish times, a list of `len(dice)` distinct 1-based indices covering every die, each die left at its finishing fingerprint |
| DiceFlood.Cells | q3.py:122-123 | definition, no contract of its own: every (row, column) pair of the grid, the cells the seed scan visits; `DiceFlood.Scan` proves the scan stacks exactly those holding the first roll |
| DiceFlood.KeyFpDistinct | q3.py:126-138 | two depths share a duplicate key only when both are 0 or 1 |
| DiceFlood.CandidateStacked | q3.py:134-139 | every in-grid candidate (the cell and its four neighbours) of a hit is stacked one depth deeper, except a seed at depth 1 |
| DiceFlood.ExhaustedStays | q3.py:129-139 | once a depth stacks nothing, no deeper depth does |
| DiceFlood.Reached | q3.py:134-135 | definition, no contract of its own: the cells hit at some depth below `k`; characterised by `SeedsReached`, `NoSeeds`, `ReachedOnFaces` and `ReachedSettles`, and `DiceFlood.Visit` is proved to return it |
| DiceFlood.SeedsReached | q3.py:122-127 | every cell equal to the first roll is in the result |
| DiceFlood.NoSeeds | q3.py:122-128 | when no cell equals the first roll the result is empty after exactly one roll |
| DiceFlood.ReachedOnFaces | q3.py:134-135 | every returned cell holds one of the die's faces |
| DiceFlood.ReachedSettles | q3.py:129-140 | past the first empty depth the result no longer grows |
| DiceFlood.UsedExhausted | q3.py:129-132 | the rolls drawn are one per depth up to the first depth that stacks nothing |
| DiceFlood.UsedIndependent | q3.py:129-132 | the number of rolls drawn does not depend on the bound used to prove termination |
| DiceFlood.Scan | q3.py:122-127 | the seed scan stacks every cell equal to the first roll at depth 0 and marks it seen |
| DiceFlood.Pop | q3.py:130-133 | popping the top item either keeps the cached rolls or, for an item one depth past them, appends one roll; either way `rolls[k]` stays the die's `k + 1`-th roll and the item's depth is cached |
| DiceFlood.RollAppended | q3.py:131-132 | the roll drawn for a new depth is the next roll of the die |
| DiceFlood.TryPush | q3.py:136-139 | an in-grid candidate whose key `(cell, fingerprint)` is unseen adds exactly that key and exactly the item one depth deeper to the end of the stack; an off-grid or already keyed candidate leaves both unchanged; the flood invariant is carried to the next candidate |
| DiceFlood.Spread | q3.py:134-139 | a hit keys and stacks all its admissible candidates |
| DiceFlood.Process | q3.py:129-139 | one iteration of the stack loop keeps the flood invariant and lowers the termination measure |
| DiceFlood.FloodStart | q3.py:118-128 | the seed scan establishes the flood invariant with one cached roll |
| DiceFlood.FloodDone | q3.py:129-140 | at an empty stack the rolls drawn are one per non-empty depth and the result is exactly the reached cells |
| DiceFlood.Visit | q3.py:116-140 | `visit` returns the reached cells and leaves the die after exactly the rolls the flood needs; an empty grid raises `IndexError` |
| DiceFlood.Covered | q3.py:143-148 | the union of the cells reached by each die |
| DiceFlood.VisitOne | q3.py:146-147 | one die's `visit` adds its reached cells to the union |
| DiceFlood.Solve3 | q3.py:143-148 | the size of the union of every die's `visit`; `IndexError` for an empty grid |
| Nails.PyIndex | q1.py:17 | definition, no contract of its own: Python string indexing: an index below 0 counts from the end and one out of range is `IndexError`; `Nails.Walk` inherits from it that IndexError is the only failure |
| Nails.Deflect | q1.py:19-23 | definition, no contract of its own: one step right for `R` and left otherwise, then two back if that left the grid; `WalkStays` and `WalkParity` characterise repeated deflections |
| Nails.Walk | q1.py:16-25 | the fall of a token, failing only with `IndexError` |
| Nails.Payout | q1.py:26-28 | a payout is never negative; an odd final column is an `AssertionError` |
| Nails.RollResult | q1.py:11-28 | what `roll` returns or raises; a returned payout is never negative |
| Nails.Roll | q1.py:11-28 | the loop computes exactly `RollResult` |
| Nails.WalkStays | q1.py:19-23 | on a rectangular grid at least two wide, the column stays inside the grid |
| Nails.WalkParity | q1.py:17-25 | each nail moves the column by an odd amount and consumes one instruction letter, so column parity tracks the letters used |
| Nails.WalkCompletes | q1.py:16-25 | with enough instruction letters and a start inside a rectangular grid, the fall cannot raise |
| Nails.RollAssertion | q1.py:26 | `roll` asserts exactly when an odd number of nails was hit |
| Nails.RollLands | q1.py:11-25 | a start inside the grid with enough letters never raises `IndexError` and lands inside the grid |
| Nails.Total | q1.py:32-36 | definition, no contract of its own: the sum of the outcomes, or the first exception; characterised by `TotalOk`, `TotalFirstError` and `TotalMonotone` |
| Nails.TotalOk | q1.py:32-36 | the sum is a number exactly when every roll is |
| Nails.TotalFirstError | q1.py:32-36 | the sum raises the first roll's exception |
| Nails.TotalMonotone | q1.py:32-36 | sums of pointwise smaller payouts are smaller |
| Nails.Best | q1.py:40-43 | definition, no contract of its own: the running `max(max_payout, coins_won)` from 0, or the first exception; characterised by `BestBounds` and `BestFirstError` |
| Nails.BestBounds | q1.py:40-44 | the maximum is at least 0, at least every payout, and is 0 or one of the payouts |
| Nails.BestFirstError | q1.py:40-44 | the maximum raises the first roll's exception |
| Nails.SlotRolls | q1.py:33-34 | definition, no contract of its own: the outcome of instruction `k` dropped from slot `k + 1`; `Nails.Solve1` is proved to return its `Total`, which `TotalOk` and `TotalFirstError` characterise |
| Nails.Solve1 | q1.py:31-36 | `solve1` is the sum of those rolls, or the first exception |
| Nails.AllSlots | q1.py:41-42 | definition, no contract of its own: the outcomes of slots `1 .. width // 2 + 1`; characterised through `MaxPayoutBest` and `EvenWidthRaises` |
| Nails.MaxPayout | q1.py:39-44 | definition, no contract of its own: what `compute_max_payout` returns or raises; characterised by `MaxPayoutBest` and `EvenWidthRaises`, and `Nails.ComputeMaxPayout` is proved to return it |
| Nails.MaxPayoutBest | q1.py:39-44 | the best payout is at least 0 and at least every slot's payout, and is 0 or attained by a slot |
| Nails.EvenWidthRaises | q1.py:41 | with an even width the last slot tried starts outside the grid and the call raises |
| Nails.ComputeMaxPayout | q1.py:39-44 | the loop computes exactly the best payout (or the first exception) |
| Nails.Bests | q1.py:49-50 | definition, no contract of its own: the best payout of each instruction; `Nails.Solve2` is proved to return its `Total`, compared with solve1 by `BestBeatsFixed` |
| Nails.Solve2 | q1.py:47-51 | `solve2` is the sum of the best payouts, or the first exception |
| Nails.BestBeatsFixed | q1.py:31-51 | when it is defined, `solve2` is at least `solve1` |
| NailAssign.PayoutRow | q1.py:58-59 | a row holds a payout for every slot |
| NailAssign.PayoutMatrix | q1.py:56-59 | a matrix has a row per instruction and a column per slot |
| NailAssign.RowPayouts | q1.py:58-59 | entry `s` of a row is the payout of slot `s + 1`, or the row fails with some slot's exception |
| NailAssign.MatrixRows | q1.py:57-59 | row `i` is instruction `i`'s row, or the matrix fails with some row's exception |
| NailAssign.RowErrStays | q1.py:58-59 | after a failing slot no later slot is tried |
| NailAssign.MatrixErrStays | q1.py:57-59 | after a failing row no later instruction is tried |
| NailAssign.FillPayouts | q1.py:55-59 | filling the pre-allocated matrix in place gives exactly the payout matrix, or the first exception |
| NailAssign.OptimaOrdered | q1.py:74-91 | the worst assignment total is at most the best |
| NailAssign.OptimumUnique | q1.py:74-91 | the optimum over assignments is unique |
| NailAssign.UsedCard | q1.py:63-69 | an injective assignment uses as many distinct slots as it has instructions |
| NailAssign.SizedBound | q1.py:61-73 | a set of distinct slots below `n` has at most `n` of them |
| NailAssign.DictSize | q1.py:74 | a table has keys exactly when it has values |
| NailAssign.Get | q1.py:70 | definition, no contract of its own: `dict.get`, the stored total or `None`; `NailAssign.Put` and `NailAssign.Offer` state how the table changes around it |
| NailAssign.Add | q1.py:65-68 | definition, no contract of its own: `mask | 1 << s` with masks as sets of slots; `NailAssign.KeysStep` proves the keys after row `t` are exactly the sets of `t + 1` slots |
| NailAssign.Put | q1.py:72 | storing keeps the table well formed and sets that mask's total |
| NailAssign.RelaxDone | q1.py:63-72 | once every (mask, slot) pair is tried, the new table holds the best offer for each extended mask and only offers |
| NailAssign.Relax | q1.py:62-73 | one row of the DP: every mask extended by an unused slot is stored with its best (or worst) offer, and every stored total is such an offer |
| NailAssign.Offer | q1.py:64-72 | a used slot is skipped, and a new mask or a strictly better candidate is stored |
| NailAssign.TableStart | q1.py:60 | the table before any row maps the empty set to 0 |
| NailAssign.KeysStep | q1.py:61-73 | after row `t` the keys are exactly the sets of `t + 1` slots |
| NailAssign.StepAt | q1.py:61-73 | after row `t` every mask holds the best (or worst) total over the assignments using exactly those slots |
| NailAssign.TableStep | q1.py:61-73 | relaxing the table by a row gives the table of one more row |
| NailAssign.Optimize | q1.py:60-73 | after all rows the keys are sets of `len(payouts)` slots, each holding its best (or worst) assignment total |
| NailAssign.Extreme | q1.py:74 | `max`/`min` over the table values, `ValueError` for an empty table |
| NailAssign.TableOptimum | q1.py:60-74 | the extreme of the final table is the optimum over all injective assignments |
| NailAssign.TableEmpty | q1.py:60-74 | the final table is empty exactly when there are more instructions than slots |
| NailAssign.Solve3 | q1.py:54-91 | `solve3` raises what the payout matrix raises, raises `ValueError` when instructions outnumber slots, and otherwise returns the worst and the best total over injective assignments |
| Balloons.LStrip | q2.py:15 | definition, no contract of its own: `lstrip()`; characterised by `LStripShape` |
| Balloons.LStripShape | q2.py:15 | the left strip removes exactly the leading white space |
| Balloons.RStrip | q2.py:15 | definition, no contract of its own: `rstrip()`; characterised by `RStripShape` |
| Balloons.RStripShape | q2.py:15 | the right strip removes exactly the trailing white space |
| Balloons.Strip | q2.py:15 | definition, no contract of its own: `strip()`, `lstrip` then `rstrip`; characterised by `StripShape` and `StripIdempotent` |
| Balloons.StripShape | q2.py:15 | `strip()` keeps a slice whose cut-off ends are all white space and whose kept ends are not |
| Balloons.StripIdempotent | q2.py:15 | stripping twice is stripping once |
| Balloons.ParseInput | q2.py:12-20 | the stripped input in order when every character is `R`, `G` or `B`; `ValueError` otherwise |
| Balloons.Burst | q2.py:28-32 | an arrow bursts at least one balloon |
| Balloons.Shots1 | q2.py:25-32 | definition, no contract of its own: the number of arrows part one fires; bounded by `Shots1Bounds`, and `Balloons.Solve1` is proved to return it |
| Balloons.BurstRun | q2.py:28-32 | an arrow bursts the run of front balloons of its colour and the first balloon after it |
| Balloons.Shots1Bounds | q2.py:23-32 | no arrows for no balloons, otherwise between 1 and the number of balloons |
| Balloons.Reverse | q2.py:24 | reversal keeps the length |
| Balloons.ReverseIndex | q2.py:24 | element `k` of the reversal is element `len − 1 − k` |
| Balloons.PopFront | q2.py:28 | popping the end of the reversed list takes the front balloon |
| Balloons.ReverseInvolution | q2.py:24 | reversing twice gives the list back |
| Balloons.Solve1 | q2.py:23-32 | `solve1` counts the arrows of the bursting specification |
| Balloons.Repeat | q2.py:36 | `reps` copies, none for a non-positive `reps` |
| Balloons.RepeatIndex | q2.py:36 | element `i` of the repetition is element `i mod len` of the row |
| Balloons.Shot | q2.py:40-47 | definition, no contract of its own: the row after one shot: the front balloon, and with an even count and a matching colour the one at index `n // 2`, removed; `ShotSize` gives its size |
| Balloons.ShotSize | q2.py:40-47 | a shot bursts one balloon, or two when the count is even |
| Balloons.Shots2 | q2.py:37-47 | definition, no contract of its own: the number of arrows part two fires; bounded by `Shots2Bounds`, and `Balloons.Solve2` and `BalloonDeque.Solve3` are both proved to return it |
| Balloons.Shots2Bounds | q2.py:35-47 | the number of shots lies between `⌈N/2⌉` and `N` for `N` balloons |
| Balloons.Solve2 | q2.py:35-47 | `solve2` counts the shots of the circle specification on the repeated row |
| BalloonDeque.Enc | q2.py:50 | definition, no contract of its own: `ENC`, red 0, green 1, blue 2; `EncArrow` proves it tells the colours apart and matches the arrow codes |
| BalloonDeque.EncArrow | q2.py:50 | arrow `k` has code `k mod 3`, and a balloon's code equals it exactly when the colours agree |
| BalloonDeque.EncAll | q2.py:54 | definition, no contract of its own: the codes of a row, one per balloon; `ShotHalves` and `DealStep` state what the two halves hold in these codes |
| BalloonDeque.BalancedHalves | q2.py:69-78 | with balanced halves, `R` is empty when `L` is, and for an even count `R[0]` is element `total / 2` of `L ++ R` |
| BalloonDeque.ShotHalves | q2.py:71-74 | popping the front of `L`, and of `R` on an even count with a matching colour, leaves `L ++ R` equal to the coded row after `solve2`'s shot |
| BalloonDeque.DealStep | q2.py:61-62 | the coded repetition grows by `base[i % n]` at step `i` |
| BalloonDeque.Deal | q2.py:54-66 | `L ++ R` is the coded repeated row, `L` holds its first `⌈N/2⌉`, and the halves are balanced |
| BalloonDeque.Fire | q2.py:71-78 | one shot leaves `L ++ R` equal to the coded row after `solve2`'s shot, and the halves balanced |
| BalloonDeque.Solve3 | q2.py:53-78 | `solve3` returns the same count as `solve2` on the same row and repetition count |

## Left out

- File reading, `typer` entry points, the `globals()` dispatch and the test
  functions. The data files the tests read are not part of this model, so
  their expected answers are not restated.
- The `q3.py` line parsers `parse_input`, `parse_input2` and `parse_input3`
  (a regular expression over text), and the `q1.py` `parse_input` split.
  The models take the parsed dice, track, grid and instructions directly.
- The default arguments `min_points = 10_000` and `reps = 100` or `100000`.
  These are passed explicitly.
- Python's unbounded integers are Dafny's `int`, so there is no overflow.
  Bit masks (`mask | 1 << s`, `mask & bit`) are sets of slot indices.
- `Dice.DieState.Next`: a die with seed 0 or an empty face list would raise
  `ZeroDivisionError` in Python. Here it is a precondition (`Rollable`) and
  not an error result.
- `DiceGames.Solve1`, `DiceGames.Solve2`, `DiceFlood.Visit`: whether these
  loops terminate depends on the input. Each takes a ghost bound as a
  precondition, saying the target is reached (or the flood runs dry) within
  that many rounds (or depths). Inputs that loop forever are not modelled. For
  example, a one-face die on a grid of that face keeps producing fresh
  fingerprints.
- `DiceFlood.Visit`, `DiceFlood.Solve3`: the grid is required to be
  rectangular. With ragged rows, `visit` indexes rows by the first row's
  width, which the model does not follow.
- Dice lists in which two `DieRoll`s share one `DieState` are excluded
  (`ValidDice`): `parse_input` always builds a fresh state per die.
- `BalloonDeque.Solve3`: `solve3` accepts any strings and raises `KeyError` on
  a character outside `ENC`. The model takes balloons, which `parse_input`
  guarantees.
- Deques and lists are values. Performance is not modelled: the quadratic
  slicing of `solve2` and the amortised deque operations of `solve3`.
- `Balloons.ParseInput`: `str.strip` is modelled with the characters Python's
  `str.isspace` accepts. There is no Unicode normalisation.
